// What admission makes of a pod (pkg/webhook/pod-webhook.go, pkg/webhook/modifiers.go), as
// functions on pod values, and why a second admission changes nothing.

module PodMutation {
  import opened Wrappers
  import opened GoStrings
  import opened RedirectArgs

  // ---------------------------------------------------------------- pods

  // A source of a projected volume.
  datatype Source = SecretSource(name: string, optional: bool, items: seq<string>) | TokenSource | OtherSource(text: string)

  // `projected` is absent for the other kinds of volumes.
  datatype Volume = Volume(name: string, projected: Option<seq<Source>>, rest: string)

  datatype ContainerPort = ContainerPort(name: string, number: nat)

  // Memory in bytes; the other requests are not looked at.
  datatype Requests = Requests(memory: nat, others: map<string, string>)

  datatype Mount = Mount(volume: string, readOnly: bool, path: string)

  // The settings of a container that no code reads: those of an injected sidecar, or any.
  datatype Settings = Hardened | Unread(text: string)

  datatype Container = Container(name: string, image: string, args: seq<string>, ports: seq<ContainerPort>,
                                 requests: Option<Requests>, mounts: seq<Mount>, settings: Settings)

  datatype PodState = PodState(name: string, namespace: string, deleting: bool,
                               annotations: map<string, string>, labels: map<string, string>,
                               volumes: seq<Volume>, containers: seq<Container>, pullSecrets: seq<string>)

  // Container and volume names coincide.
  const OAUTH2_PROXY := "oauth2-proxy"
  const KUBE_RBAC_PROXY := "kube-rbac-proxy"

  const COMPONENT_KEY := "oidc-application-controller/component"
  const SUFFIX_KEY := "oidc-application-controller/suffix"
  const POD_NAME_LABEL := "statefulset.kubernetes.io/pod-name"

  const KIB := 1024
  const MIB := 1024 * KIB

  // Everything about an admission that the configuration and the owner decide. The first of
  // `rbacArgs` come before the upstream URL, the second after it.
  datatype Plan = Plan(annotations: map<string, string>, podSuffix: string, upstream: string,
                       secrets: seq<(string, string)>, oauth2Image: string, oauth2Args: seq<string>,
                       rbacImage: string, rbacArgs: (seq<string>, seq<string>), pullSecret: string,
                       redirectHost: string)

  // ---------------------------------------------------------------- volumes

  datatype Scanned = Panics | Present | Absent

  // The scan for a secret among the sources looks into the secret of every source it passes,
  // which is a nil dereference for a source of another kind.
  function Scan(sources: seq<Source>, secret: string): Scanned {
    if sources == [] then Absent
    else if !sources[0].SecretSource? then Panics
    else if sources[0].name == secret then Present
    else Scan(sources[1..], secret)
  }

  function VolumeIndex(volumes: seq<Volume>, name: string): (i: nat)
    ensures i <= |volumes|
    ensures i < |volumes| ==> volumes[i].name == name
    ensures forall j :: 0 <= j < i ==> volumes[j].name != name
  {
    if volumes == [] || volumes[0].name == name then 0 else 1 + VolumeIndex(volumes[1..], name)
  }

  function Mandatory(secret: string): Source {
    SecretSource(secret, false, [])
  }

  // addProjectedSecretSourceVolume; None stands for the panic. A volume of the name that is
  // not projected stays as it is: only a copy of it is changed.
  function AddSource(volumes: seq<Volume>, name: string, secret: string): Option<seq<Volume>> {
    var i := VolumeIndex(volumes, name);
    if i == |volumes| then Some(volumes + [Volume(name, Some([Mandatory(secret)]), "")])
    else if volumes[i].projected.None? then Some(volumes)
    else
      var sources := volumes[i].projected.value;
      var scanned := Scan(sources, secret);
      if scanned.Panics? then None
      else if scanned.Present? then Some(volumes)
      else Some(volumes[i := volumes[i].(projected := Some(sources + [Mandatory(secret)]))])
  }

  function AddSources(volumes: seq<Volume>, secrets: seq<(string, string)>): Option<seq<Volume>>
    decreases |secrets|
  {
    if secrets == [] then Some(volumes) else
    var added := AddSource(volumes, secrets[0].0, secrets[0].1);
    if added.None? then None else AddSources(added.value, secrets[1..])
  }

  // ---------------------------------------------------------------- containers

  function ContainerIndex(containers: seq<Container>, name: string): (i: nat)
    ensures i <= |containers|
    ensures i < |containers| ==> containers[i].name == name
    ensures forall j :: 0 <= j < i ==> containers[j].name != name
  {
    if containers == [] || containers[0].name == name then 0 else 1 + ContainerIndex(containers[1..], name)
  }

  // addProxyContainer: the first container of the name goes, the new one comes last.
  function AddProxy(containers: seq<Container>, name: string, container: Container): seq<Container> {
    var i := ContainerIndex(containers, name);
    (if i < |containers| then containers[..i] + containers[i + 1..] else containers) + [container]
  }

  const DEFAULT_REQUESTS := Requests(32 * MIB, map["cpu" := "5m"])

  // The requests of a rebuilt sidecar: those of the last container of the name that asks for
  // more than 100Mi, or the default.
  function SidecarRequests(containers: seq<Container>, name: string): Requests {
    if containers == [] then DEFAULT_REQUESTS else
    var last := containers[|containers| - 1];
    if last.name == name && last.requests.Some? && last.requests.value.memory > 100 * MIB then last.requests.value
    else SidecarRequests(containers[..|containers| - 1], name)
  }

  function OAuth2Container(containers: seq<Container>, plan: Plan): Container {
    Container(OAUTH2_PROXY, plan.oauth2Image, plan.oauth2Args, [ContainerPort("oauth2", 8000)],
              Some(SidecarRequests(containers, OAUTH2_PROXY)),
              [Mount(OAUTH2_PROXY, true, "/etc/oauth2-proxy")], Hardened)
  }

  predicate HasToken(volume: Volume) {
    volume.projected.Some? && TokenSource in volume.projected.value
  }

  const TOKEN_PATH := "/var/run/secrets/kubernetes.io/serviceaccount"

  function TokenMounts(volumes: seq<Volume>): seq<Mount> {
    if volumes == [] then [] else
    (if HasToken(volumes[0]) then [Mount(volumes[0].name, true, TOKEN_PATH)] else []) + TokenMounts(volumes[1..])
  }

  const UPSTREAM_ARG := "--upstream="

  function RbacArgs(plan: Plan, url: string): seq<string> {
    plan.rbacArgs.0 + [UPSTREAM_ARG + url] + plan.rbacArgs.1
  }

  function RbacContainer(volumes: seq<Volume>, containers: seq<Container>, plan: Plan, url: string): Container {
    Container(KUBE_RBAC_PROXY, plan.rbacImage, RbacArgs(plan, url), [ContainerPort("rbac", 8100)],
              Some(SidecarRequests(containers, KUBE_RBAC_PROXY)),
              [Mount(KUBE_RBAC_PROXY, true, "/etc/kube-rbac-proxy")] + TokenMounts(volumes), Hardened)
  }

  // ---------------------------------------------------------------- the upstream URL

  function PortNamed(ports: seq<ContainerPort>, name: string): Option<nat> {
    if ports == [] then None
    else if ports[0].name == name then Some(ports[0].number)
    else PortNamed(ports[1..], name)
  }

  // The first port of the name over all containers.
  function LookupPort(containers: seq<Container>, name: string): Option<nat> {
    if containers == [] then None
    else if PortNamed(containers[0].ports, name).Some? then PortNamed(containers[0].ports, name)
    else LookupPort(containers[1..], name)
  }

  function ProtocolOf(target: string): string {
    var before := Cut(target, ',').0;
    if HasPrefix(before, "protocol=") then TrimPrefix(before, "protocol=") else "http"
  }

  function PortOf(target: string): string {
    TrimPrefix(Cut(target, ',').1, " port=")
  }

  const LOCALHOST := "://localhost"

  // buildUpstreamURL
  function UpstreamURL(target: string, containers: seq<Container>): string {
    var base := ProtocolOf(target) + LOCALHOST;
    var port := PortOf(target);
    if port == "" then base
    else if IsAtoi(port) then base + ":" + port
    else
      var found := LookupPort(containers, port);
      if found.Some? then base + ":" + Itoa(found.value) else ""
  }

  // ---------------------------------------------------------------- the redirect URL

  // The host of a StatefulSet pod: the last part of the pod name goes into the first label.
  function PodHost(host: string, podName: string): string {
    var cut := Cut(host, '.');
    if cut.2 then cut.0 + "-" + LastPart(podName, '-') + "." + cut.1 else host
  }

  function RedirectArg(host: string): string {
    REDIRECT_FLAG + "=https://" + host + "/oauth2/callback"
  }

  function WithRedirect(containers: seq<Container>, host: string): seq<Container> {
    var i := ContainerIndex(containers, OAUTH2_PROXY);
    if i == |containers| then containers else
    containers[i := containers[i].(args := ScanDelete(containers[i].args) + [RedirectArg(host)])]
  }

  // ---------------------------------------------------------------- admission

  function Annotated(p: PodState, plan: Plan): map<string, string> {
    var suffix := if SUFFIX_KEY in p.annotations then p.annotations[SUFFIX_KEY] else plan.podSuffix;
    p.annotations + map[COMPONENT_KEY := p.name, SUFFIX_KEY := suffix] + plan.annotations
  }

  function Labelled(labels: map<string, string>): map<string, string> {
    labels + map[COMPONENT_KEY := "pod"]
  }

  function WithPullSecret(pullSecrets: seq<string>, secret: string): seq<string> {
    if secret == "" || secret in pullSecrets then pullSecrets else pullSecrets + [secret]
  }

  function WithSidecars(containers: seq<Container>, volumes: seq<Volume>, plan: Plan, url: string): seq<Container> {
    var c := AddProxy(containers, OAUTH2_PROXY, OAuth2Container(containers, plan));
    AddProxy(c, KUBE_RBAC_PROXY, RbacContainer(volumes, c, plan, url))
  }

  function Redirected(containers: seq<Container>, labels: map<string, string>, plan: Plan): seq<Container> {
    if POD_NAME_LABEL in labels then WithRedirect(containers, PodHost(plan.redirectHost, labels[POD_NAME_LABEL]))
    else containers
  }

  // PodMutator.Default for a pod of a target; None stands for the panic.
  function Admit(p: PodState, plan: Plan): Option<PodState> {
    if p.deleting then Some(p) else
    var url := UpstreamURL(plan.upstream, p.containers);
    var labels := Labelled(p.labels);
    var volumes := AddSources(p.volumes, plan.secrets);
    if volumes.None? then None else
    Some(p.(annotations := Annotated(p, plan), labels := labels, volumes := volumes.value,
            containers := Redirected(WithSidecars(p.containers, volumes.value, plan, url), labels, plan),
            pullSecrets := WithPullSecret(p.pullSecrets, plan.pullSecret)))
  }

  // ---------------------------------------------------------------- volumes are settled

  // Adding the source again is the identity.
  predicate Settled(volumes: seq<Volume>, name: string, secret: string) {
    AddSource(volumes, name, secret) == Some(volumes)
  }

  lemma {:induction false} ScanAppended(sources: seq<Source>, secret: string, other: string)
    ensures Scan(sources + [Mandatory(other)], secret)
            == if Scan(sources, secret).Absent? && other == secret then Present else Scan(sources, secret)
  {
    if sources != [] {
      ScanAppended(sources[1..], secret, other);
      assert (sources + [Mandatory(other)])[1..] == sources[1..] + [Mandatory(other)];
    } else {
      assert sources + [Mandatory(other)] == [Mandatory(other)];
      assert Scan([Mandatory(other)][1..], secret) == Absent;
    }
  }

  lemma {:induction false} VolumeIndexIs(volumes: seq<Volume>, name: string, i: nat)
    requires i < |volumes| && volumes[i].name == name && forall j :: 0 <= j < i ==> volumes[j].name != name
    ensures VolumeIndex(volumes, name) == i
  {
    var k := VolumeIndex(volumes, name);
    assert k <= i;
  }

  lemma AddSourceSettles(volumes: seq<Volume>, name: string, secret: string)
    requires AddSource(volumes, name, secret).Some?
    ensures Settled(AddSource(volumes, name, secret).value, name, secret)
  {
    var i := VolumeIndex(volumes, name);
    var added := AddSource(volumes, name, secret).value;
    VolumeIndexIs(added, name, i);
    if i == |volumes| {
      assert added[i].projected.value == [] + [Mandatory(secret)];
      ScanAppended([], secret, secret);
    } else if volumes[i].projected.Some? {
      ScanAppended(volumes[i].projected.value, secret, secret);
    }
  }

  lemma AddSourceKeepsSettled(volumes: seq<Volume>, name: string, secret: string, name': string, secret': string)
    requires Settled(volumes, name, secret) && AddSource(volumes, name', secret').Some?
    ensures Settled(AddSource(volumes, name', secret').value, name, secret)
  {
    var i := VolumeIndex(volumes, name);
    var added := AddSource(volumes, name', secret').value;
    assert i < |volumes|;
    VolumeIndexIs(added, name, i);
    if name == name' && volumes[i].projected.Some? {
      ScanAppended(volumes[i].projected.value, secret, secret');
    }
  }

  lemma {:induction false} AddSourcesKeepsSettled(volumes: seq<Volume>, name: string, secret: string,
                                                  secrets: seq<(string, string)>)
    requires Settled(volumes, name, secret) && AddSources(volumes, secrets).Some?
    ensures Settled(AddSources(volumes, secrets).value, name, secret)
    decreases |secrets|
  {
    if secrets != [] {
      AddSourceKeepsSettled(volumes, name, secret, secrets[0].0, secrets[0].1);
      AddSourcesKeepsSettled(AddSource(volumes, secrets[0].0, secrets[0].1).value, name, secret, secrets[1..]);
    }
  }

  lemma {:induction false} AddSourcesSettles(volumes: seq<Volume>, secrets: seq<(string, string)>)
    requires AddSources(volumes, secrets).Some?
    ensures forall s :: s in secrets ==> Settled(AddSources(volumes, secrets).value, s.0, s.1)
    decreases |secrets|
  {
    if secrets != [] {
      var first := secrets[0];
      AddSourceSettles(volumes, first.0, first.1);
      var added := AddSource(volumes, first.0, first.1).value;
      AddSourcesKeepsSettled(added, first.0, first.1, secrets[1..]);
      AddSourcesSettles(added, secrets[1..]);
    }
  }

  lemma {:induction false} SettledAddNothing(volumes: seq<Volume>, secrets: seq<(string, string)>)
    requires forall s :: s in secrets ==> Settled(volumes, s.0, s.1)
    ensures AddSources(volumes, secrets) == Some(volumes)
    decreases |secrets|
  {
    if secrets != [] {
      assert secrets[0] in secrets;
      SettledAddNothing(volumes, secrets[1..]);
    }
  }

  lemma {:induction false} AddSourcesConcat(volumes: seq<Volume>, a: seq<(string, string)>, b: seq<(string, string)>)
    ensures AddSources(volumes, a + b)
            == if AddSources(volumes, a).None? then None else AddSources(AddSources(volumes, a).value, b)
    decreases |a|
  {
    if a == [] {
      assert a + b == b;
    } else {
      assert (a + b)[0] == a[0] && (a + b)[1..] == a[1..] + b;
      var added := AddSource(volumes, a[0].0, a[0].1);
      if added.Some? {
        AddSourcesConcat(added.value, a[1..], b);
      }
    }
  }

  // Without a panic the first time, there is none the second time and nothing to add.
  lemma VolumesTwice(volumes: seq<Volume>, secrets: seq<(string, string)>)
    requires AddSources(volumes, secrets).Some?
    ensures var added := AddSources(volumes, secrets).value; AddSources(added, secrets) == Some(added)
  {
    AddSourcesSettles(volumes, secrets);
    SettledAddNothing(AddSources(volumes, secrets).value, secrets);
  }

  // The volume of the name is there and of another kind.
  predicate Foreign(volumes: seq<Volume>, name: string) {
    var i := VolumeIndex(volumes, name);
    i < |volumes| && volumes[i].projected.None?
  }

  predicate Carries(volume: Volume, secret: string) {
    volume.projected.Some? && exists i :: 0 <= i < |volume.projected.value| && volume.projected.value[i].SecretSource?
                                          && volume.projected.value[i].name == secret
  }

  lemma {:induction false} ScanFinds(sources: seq<Source>, secret: string) returns (i: nat)
    requires Scan(sources, secret).Present?
    ensures i < |sources| && sources[i].SecretSource? && sources[i].name == secret
  {
    if sources[0].SecretSource? && sources[0].name == secret {
      i := 0;
    } else {
      i := ScanFinds(sources[1..], secret);
      i := i + 1;
    }
  }

  lemma AddSourceForeign(volumes: seq<Volume>, name: string, secret: string, name': string)
    requires AddSource(volumes, name', secret).Some?
    ensures Foreign(AddSource(volumes, name', secret).value, name) <==> Foreign(volumes, name)
  {
    var i := VolumeIndex(volumes, name);
    var added := AddSource(volumes, name', secret).value;
    if i < |volumes| {
      VolumeIndexIs(added, name, i);
    } else if name == name' {
      VolumeIndexIs(added, name, i);
    } else {
      assert forall j :: 0 <= j < |volumes| ==> added[j].name == volumes[j].name;
    }
  }

  lemma {:induction false} AddSourcesForeign(volumes: seq<Volume>, secrets: seq<(string, string)>, name: string)
    requires AddSources(volumes, secrets).Some?
    ensures Foreign(AddSources(volumes, secrets).value, name) <==> Foreign(volumes, name)
    decreases |secrets|
  {
    if secrets != [] {
      AddSourceForeign(volumes, name, secrets[0].1, secrets[0].0);
      AddSourcesForeign(AddSource(volumes, secrets[0].0, secrets[0].1).value, secrets[1..], name);
    }
  }

  // Every secret that is asked for ends up in the volume of its name, if and only if the pod
  // did not come with a volume of that name and another kind.
  lemma SecretCarried(volumes: seq<Volume>, secrets: seq<(string, string)>, s: (string, string))
    requires AddSources(volumes, secrets).Some? && s in secrets
    ensures var added := AddSources(volumes, secrets).value;
            var i := VolumeIndex(added, s.0);
            i < |added| && (Carries(added[i], s.1) <==> !Foreign(volumes, s.0))
  {
    var added := AddSources(volumes, secrets).value;
    AddSourcesSettles(volumes, secrets);
    AddSourcesForeign(volumes, secrets, s.0);
    var i := VolumeIndex(added, s.0);
    assert Settled(added, s.0, s.1);
    if added[i].projected.Some? {
      var k := ScanFinds(added[i].projected.value, s.1);
    }
  }

  // The sidecar volumes that are there have secret sources only.
  predicate SecretsOnly(volumes: seq<Volume>, names: set<string>) {
    forall v :: v in volumes && v.name in names && v.projected.Some? ==>
      forall source :: source in v.projected.value ==> source.SecretSource?
  }

  lemma {:induction false} ScanSecrets(sources: seq<Source>, secret: string)
    requires forall source :: source in sources ==> source.SecretSource?
    ensures !Scan(sources, secret).Panics?
  {
    if sources != [] {
      ScanSecrets(sources[1..], secret);
    }
  }

  // Such volumes never make admission panic.
  lemma {:induction false} NoPanic(volumes: seq<Volume>, secrets: seq<(string, string)>, names: set<string>)
    requires SecretsOnly(volumes, names) && forall s :: s in secrets ==> s.0 in names
    ensures AddSources(volumes, secrets).Some?
    decreases |secrets|
  {
    if secrets != [] {
      assert secrets[0] in secrets;
      var i := VolumeIndex(volumes, secrets[0].0);
      if i < |volumes| && volumes[i].projected.Some? {
        assert volumes[i] in volumes;
        ScanSecrets(volumes[i].projected.value, secrets[0].1);
      }
      NoPanic(AddSource(volumes, secrets[0].0, secrets[0].1).value, secrets[1..], names);
    }
  }

  // Volumes other than those of the sidecars.
  function OtherVolumes(volumes: seq<Volume>, names: set<string>): seq<Volume> {
    if volumes == [] then [] else
    (if volumes[0].name in names then [] else [volumes[0]]) + OtherVolumes(volumes[1..], names)
  }

  lemma {:induction false} OtherVolumesAppend(volumes: seq<Volume>, volume: Volume, names: set<string>)
    ensures OtherVolumes(volumes + [volume], names)
            == OtherVolumes(volumes, names) + (if volume.name in names then [] else [volume])
  {
    if volumes == [] {
      assert volumes + [volume] == [volume];
    } else {
      OtherVolumesAppend(volumes[1..], volume, names);
      assert (volumes + [volume])[1..] == volumes[1..] + [volume];
    }
  }

  lemma {:induction false} OtherVolumesUpdate(volumes: seq<Volume>, i: nat, volume: Volume, names: set<string>)
    requires i < |volumes| && volumes[i].name == volume.name && volume.name in names
    ensures OtherVolumes(volumes[i := volume], names) == OtherVolumes(volumes, names)
  {
    if i == 0 {
      assert volumes[i := volume][1..] == volumes[1..];
    } else {
      OtherVolumesUpdate(volumes[1..], i - 1, volume, names);
      assert volumes[i := volume][1..] == volumes[1..][i - 1 := volume];
    }
  }

  lemma {:induction false} OtherVolumesKept(volumes: seq<Volume>, secrets: seq<(string, string)>, names: set<string>)
    requires AddSources(volumes, secrets).Some? && forall s :: s in secrets ==> s.0 in names
    ensures OtherVolumes(AddSources(volumes, secrets).value, names) == OtherVolumes(volumes, names)
    decreases |secrets|
  {
    if secrets != [] {
      var name, secret := secrets[0].0, secrets[0].1;
      assert secrets[0] in secrets;
      var added := AddSource(volumes, name, secret).value;
      OtherVolumesKept(added, secrets[1..], names);
      var i := VolumeIndex(volumes, name);
      if i == |volumes| {
        OtherVolumesAppend(volumes, Volume(name, Some([Mandatory(secret)]), ""), names);
      } else if added != volumes {
        OtherVolumesUpdate(volumes, i, added[i], names);
      }
    }
  }

  // ---------------------------------------------------------------- containers

  function Without(containers: seq<Container>, name: string): seq<Container> {
    if containers == [] then []
    else if containers[0].name == name then Without(containers[1..], name)
    else [containers[0]] + Without(containers[1..], name)
  }

  lemma {:induction false} WithoutHasNone(containers: seq<Container>, name: string)
    ensures forall c :: c in Without(containers, name) ==> c.name != name
  {
    if containers != [] {
      WithoutHasNone(containers[1..], name);
    }
  }

  // All containers but the sidecars.
  function OtherContainers(containers: seq<Container>): seq<Container> {
    Without(Without(containers, OAUTH2_PROXY), KUBE_RBAC_PROXY)
  }

  predicate AtMostOne(containers: seq<Container>, name: string) {
    forall i, j :: 0 <= i < j < |containers| ==> !(containers[i].name == name && containers[j].name == name)
  }

  lemma {:induction false} WithoutAll(containers: seq<Container>, name: string)
    requires forall i :: 0 <= i < |containers| ==> containers[i].name != name
    ensures Without(containers, name) == containers
  {
    if containers != [] {
      WithoutAll(containers[1..], name);
    }
  }

  lemma {:induction false} WithoutConcat(a: seq<Container>, b: seq<Container>, name: string)
    ensures Without(a + b, name) == Without(a, name) + Without(b, name)
  {
    if a == [] {
      assert a + b == b;
    } else {
      var all, x, y := a + b, Without(a[1..], name), Without(b, name);
      assert all[0] == a[0] && all[1..] == a[1..] + b;
      WithoutConcat(a[1..], b, name);
      assert Without(all[1..], name) == x + y;
      PrependConcat(a[0], x, y);
    }
  }

  lemma PrependConcat(c: Container, x: seq<Container>, y: seq<Container>)
    ensures [c] + (x + y) == [c] + x + y
  {
  }

  lemma WithoutOne(c: Container, name: string)
    ensures Without([c], name) == if c.name == name then [] else [c]
  {
    assert Without([c][1..], name) == [];
  }

  lemma {:induction false} WithoutAt(containers: seq<Container>, name: string, i: nat)
    requires AtMostOne(containers, name) && i < |containers| && containers[i].name == name
    ensures Without(containers, name) == containers[..i] + containers[i + 1..]
  {
    if i == 0 {
      WithoutAll(containers[1..], name);
    } else {
      WithoutAt(containers[1..], name, i - 1);
      assert containers[..i] == [containers[0]] + containers[1..][..i - 1];
    }
  }

  // Replacing a sidecar that occurs at most once moves it to the end.
  lemma AddProxyMoves(containers: seq<Container>, name: string, container: Container)
    requires AtMostOne(containers, name)
    ensures AddProxy(containers, name, container) == Without(containers, name) + [container]
  {
    var i := ContainerIndex(containers, name);
    if i < |containers| {
      WithoutAt(containers, name, i);
    } else {
      WithoutAll(containers, name);
    }
  }

  lemma {:induction false} WithoutFrom(containers: seq<Container>, name: string) returns (at: seq<nat>)
    ensures var r := Without(containers, name);
            && |at| == |r| && (forall i :: 0 <= i < |r| ==> at[i] < |containers| && r[i] == containers[at[i]])
            && (forall i, j :: 0 <= i < j < |r| ==> at[i] < at[j])
  {
    if containers == [] {
      at := [];
    } else {
      var rest := WithoutFrom(containers[1..], name);
      var shifted := seq(|rest|, i requires 0 <= i < |rest| => rest[i] + 1);
      at := if containers[0].name == name then shifted else [0] + shifted;
    }
  }

  lemma AtMostOneWithout(containers: seq<Container>, name: string, other: string, last: Container)
    requires AtMostOne(containers, name) && last.name != name
    ensures AtMostOne(Without(containers, other) + [last], name)
  {
    var at := WithoutFrom(containers, other);
    var r := Without(containers, other) + [last];
    forall i, j | 0 <= i < j < |r| ensures !(r[i].name == name && r[j].name == name) {
      if j < |r| - 1 {
        assert at[i] < at[j] && r[i] == containers[at[i]] && r[j] == containers[at[j]];
      }
    }
  }

  // The containers after the sidecars have been put in.
  lemma SidecarsLast(containers: seq<Container>, volumes: seq<Volume>, plan: Plan, url: string)
    requires AtMostOne(containers, OAUTH2_PROXY) && AtMostOne(containers, KUBE_RBAC_PROXY)
    ensures var o := OAuth2Container(containers, plan);
            var c := Without(containers, OAUTH2_PROXY) + [o];
            WithSidecars(containers, volumes, plan, url)
            == OtherContainers(containers) + [o, RbacContainer(volumes, c, plan, url)]
  {
    var o := OAuth2Container(containers, plan);
    var c := Without(containers, OAUTH2_PROXY) + [o];
    var r := RbacContainer(volumes, c, plan, url);
    AddProxyMoves(containers, OAUTH2_PROXY, o);
    AtMostOneWithout(containers, KUBE_RBAC_PROXY, OAUTH2_PROXY, o);
    AddProxyMoves(c, KUBE_RBAC_PROXY, r);
    WithoutConcat(Without(containers, OAUTH2_PROXY), [o], KUBE_RBAC_PROXY);
    WithoutOne(o, KUBE_RBAC_PROXY);
    assert OtherContainers(containers) + [o] + [r] == OtherContainers(containers) + [o, r];
  }

  lemma OthersAreOthers(containers: seq<Container>)
    ensures forall c :: c in OtherContainers(containers) ==> c.name != OAUTH2_PROXY && c.name != KUBE_RBAC_PROXY
  {
    var c := Without(containers, OAUTH2_PROXY);
    WithoutHasNone(containers, OAUTH2_PROXY);
    WithoutHasNone(c, KUBE_RBAC_PROXY);
    var at := WithoutFrom(c, KUBE_RBAC_PROXY);
  }

  // ---------------------------------------------------------------- requests

  lemma {:induction false} RequestsNotNamed(containers: seq<Container>, name: string)
    requires forall i :: 0 <= i < |containers| ==> containers[i].name != name
    ensures SidecarRequests(containers, name) == DEFAULT_REQUESTS
  {
    if containers != [] {
      RequestsNotNamed(containers[..|containers| - 1], name);
    }
  }

  lemma {:induction false} RequestsSkip(containers: seq<Container>, after: seq<Container>, name: string)
    requires forall i :: 0 <= i < |after| ==> after[i].name != name
    ensures SidecarRequests(containers + after, name) == SidecarRequests(containers, name)
    decreases |after|
  {
    if after == [] {
      assert containers + after == containers;
    } else {
      var all := containers + after;
      assert all[|all| - 1] == after[|after| - 1];
      assert all[..|all| - 1] == containers + after[..|after| - 1];
      RequestsSkip(containers, after[..|after| - 1], name);
    }
  }

  // A sidecar that was given its requests this way gets the same again.
  lemma RequestsKept(before: seq<Container>, sidecar: Container, after: seq<Container>, name: string, from: seq<Container>)
    requires sidecar.name == name && sidecar.requests == Some(SidecarRequests(from, name))
    requires forall i :: 0 <= i < |before| ==> before[i].name != name
    requires forall i :: 0 <= i < |after| ==> after[i].name != name
    ensures SidecarRequests(before + [sidecar] + after, name) == SidecarRequests(from, name)
  {
    RequestsSkip(before + [sidecar], after, name);
    RequestsNotNamed(before, name);
    LargeOrDefault(from, name);
    assert (before + [sidecar])[..|before|] == before;
  }

  lemma {:induction false} LargeOrDefault(containers: seq<Container>, name: string)
    ensures var r := SidecarRequests(containers, name); r == DEFAULT_REQUESTS || r.memory > 100 * MIB
  {
    if containers != [] {
      LargeOrDefault(containers[..|containers| - 1], name);
    }
  }
}
