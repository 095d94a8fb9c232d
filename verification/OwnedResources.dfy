// The resources a target owns: how one reconcile pass writes them (pkg/controllers/modifiers.go,
// pkg/controllers/oidc-apps-secrets.go, pkg/controllers/oidc-apps-services.go,
// pkg/controllers/oidc-apps-httproutes.go), what a second pass changes, and what the pod
// webhook can rely on.

module OwnedResources {
  import opened Wrappers
  import opened OAuth2Config
  import opened Configuration
  import opened PodMutation
  import opened SidecarPlan
  import opened Hosts

  // ---------------------------------------------------------------- the store

  datatype Kind = SecretKind | ServiceKind | RouteKind

  datatype Key = Key(kind: Kind, namespace: string, name: string)

  datatype Owner = Owner(kind: string, name: string, uid: string)

  datatype Content = SecretData(data: map<string, string>)
                   | ServiceSpec(selector: map<string, string>)
                   | RouteSpec(host: string, backend: string)

  datatype Object = Object(labels: map<string, string>, annotations: map<string, string>, content: Content,
                           owners: seq<Owner>)

  type Store = map<Key, Object>

  function NewObject(kind: Kind): Object {
    Object(map[], map[], match kind
                         case SecretKind => SecretData(map[])
                         case ServiceKind => ServiceSpec(map[])
                         case RouteKind => RouteSpec("", ""), [])
  }

  function DataOf(o: Object): map<string, string> {
    if o.content.SecretData? then o.content.data else map[]
  }

  const LABEL_VALUE := "oidc-apps"
  const SECRET_LABEL_KEY := "oidc-application-controller/secret"

  const CONFIG_FILE := "oauth2-proxy.cfg"
  const COOKIE := "cookie-secret"

  function SecretLabels(value: string): map<string, string> {
    map[COMPONENT_KEY := LABEL_VALUE, SECRET_LABEL_KEY := value]
  }

  // What the mutate functions assign. String data is merged into the data by the API server.
  datatype Change = OAuth2Change(config: string, checksum: string, random: string)
                  | StringsChange(role: string, strings: map<string, string>)
                  | ServiceChange(selector: map<string, string>)
                  | RouteChange(host: string, backend: string, annotations: map<string, string>, labels: map<string, string>)

  function Entry(data: map<string, string>, key: string): string {
    if key in data then data[key] else ""
  }

  // The cookie secret is generated once and then reused.
  function CookieFor(o: Object, random: string): string {
    if Entry(DataOf(o), COOKIE) != "" then Entry(DataOf(o), COOKIE) else random
  }

  function Changed(o: Object, change: Change): Object {
    match change
    case OAuth2Change(config, checksum, random) =>
      o.(labels := SecretLabels("oauth2"), annotations := map[CHECKSUM_KEY := checksum],
         content := SecretData(map[CONFIG_FILE := config, COOKIE := CookieFor(o, random)]))
    case StringsChange(role, strings) =>
      o.(labels := SecretLabels(role), content := SecretData(DataOf(o) + strings))
    case ServiceChange(selector) =>
      o.(labels := map[COMPONENT_KEY := LABEL_VALUE], content := ServiceSpec(selector))
    case RouteChange(host, backend, annotations, labels) =>
      o.(labels := map[COMPONENT_KEY := LABEL_VALUE] + labels, content := RouteSpec(host, backend),
         annotations := if annotations == map[] then o.annotations else annotations)
  }

  // controllerutil.SetOwnerReference: one reference for each kind and name.
  function Owned(owners: seq<Owner>, owner: Owner): seq<Owner> {
    if owners == [] then [owner]
    else if owners[0].kind == owner.kind && owners[0].name == owner.name then [owner] + owners[1..]
    else [owners[0]] + Owned(owners[1..], owner)
  }

  // ---------------------------------------------------------------- passes

  datatype Outcome = Done | Failed | Panicked

  // A pass is a list of writes, cut short by an error or a nil dereference.
  datatype Step = Write(key: Key, owner: Owner, change: Change) | Halt(outcome: Outcome)

  // reconcileOwnedResource on an object that is or is not there yet.
  function Written(store: Store, key: Key, owner: Owner, change: Change): Store {
    var o := if key in store then store[key] else NewObject(key.kind);
    var c := Changed(o, change);
    store[key := c.(owners := Owned(c.owners, owner))]
  }

  function Execute(store: Store, steps: seq<Step>): (Store, Outcome)
    decreases |steps|
  {
    if steps == [] then (store, Done)
    else if steps[0].Halt? then (store, steps[0].outcome)
    else Execute(Written(store, steps[0].key, steps[0].owner, steps[0].change), steps[1..])
  }

  // A Deployment, a StatefulSet or a pod.
  datatype Workload = Workload(kind: string, id: Identity, uid: string, labels: map<string, string>,
                               annotations: map<string, string>)

  // A vertical pod autoscaler; the resource policy, with the containers it names, may be absent.
  datatype Vpa = Vpa(namespace: string, labels: map<string, string>, policies: Option<seq<string>>)

  // Whether the autoscaling group is registered, and what is there then.
  datatype Autoscaling = Unregistered | Registered(vpas: seq<Vpa>)

  // What a pass depends on besides the configuration: the YAML round trip of a kubeconfig,
  // which may fail, the resource attributes template, and the autoscalers.
  datatype Contents = Contents(env: Environment, kubeConfig: string -> Option<string>,
                               attributes: (string, string) -> string, autoscaling: Autoscaling)

  const CLIENT_SECRET_PATH := "/etc/oauth2-proxy/client_secret"

  // mutateOauth2Secret: a referenced client secret wins over an inline one, and that over none.
  function ControllerOptions(rc: Resolved, digest: Digest): Options {
    if rc.ClientSecretName() != "" then ProxyOptions(rc, digest, CLIENT_SECRET_PATH, "")
    else if rc.ClientSecret() != "" then ProxyOptions(rc, digest, "", rc.ClientSecret())
    else ProxyOptions(rc, digest, DEV_NULL, "")
  }

  function ControllerConfig(rc: Resolved, env: Environment): string {
    Render(env.template, SettingsOf(ControllerOptions(rc, env.digest)))
  }

  function OwnerOf(w: Workload): Owner {
    Owner(w.kind, w.id.name, w.uid)
  }

  function OwnSecret(name: string, w: Workload, digest: Digest): Key {
    Key(SecretKind, w.id.namespace, Named(name, NameHash(digest, w.id)))
  }

  function OAuth2Step(rc: Resolved, w: Workload, c: Contents, random: string): Step {
    var config := ControllerConfig(rc, c.env);
    Write(OwnSecret(OAUTH2_PROXY, w, c.env.digest), OwnerOf(w), OAuth2Change(config, c.env.digest(config), random))
  }

  function AttributesStep(w: Workload, c: Contents): Step {
    Write(OwnSecret(RESOURCE_ATTRIBUTES, w, c.env.digest), OwnerOf(w),
          StringsChange("rbac", map["config-file.yaml" := c.attributes(w.id.namespace, w.id.name)]))
  }

  function KubeConfigContent(rc: Resolved, c: Contents): Option<string> {
    if rc.KubeConfigStr().decoded.None? then None else c.kubeConfig(rc.KubeConfigStr().decoded.value)
  }

  function KubeConfigSteps(rc: Resolved, w: Workload, c: Contents): seq<Step> {
    if rc.KubeConfigStr().text == "" then []
    else if KubeConfigContent(rc, c).None? then [Halt(Failed)]
    else [Write(OwnSecret(KUBECONFIG, w, c.env.digest), OwnerOf(w),
                StringsChange("kubeconfig", map["kubeconfig" := KubeConfigContent(rc, c).value]))]
  }

  function OidcCaSteps(rc: Resolved, w: Workload, c: Contents): seq<Step> {
    if rc.OidcCABundle() == "" then []
    else [Write(OwnSecret(OIDC_CA, w, c.env.digest), OwnerOf(w), StringsChange("oidc-ca", map["ca.crt" := rc.OidcCABundle()]))]
  }

  function SecretSteps(rc: Resolved, w: Workload, c: Contents): seq<Step> {
    [AttributesStep(w, c)] + KubeConfigSteps(rc, w, c) + OidcCaSteps(rc, w, c)
  }

  function RouteSteps(rc: Resolved, w: Workload, name: string, host: string, backend: string): seq<Step> {
    if !rc.ShallCreateHTTPRoute() then [] else
    [Write(Key(RouteKind, w.id.namespace, name), OwnerOf(w),
           RouteChange(host, backend, rc.target.httpRoute.value.annotations, rc.target.httpRoute.value.labels))]
  }

  // A missing label selector is dereferenced.
  function ServiceSteps(rc: Resolved, w: Workload, digest: Digest): seq<Step> {
    match rc.target.labelSelector
    case None => [Halt(Panicked)]
    case Some(selector) =>
      [Write(Key(ServiceKind, w.id.namespace, ServiceName(digest, w.id, w.labels)), OwnerOf(w), ServiceChange(selector))]
  }

  function DeploymentRoute(rc: Resolved, w: Workload, digest: Digest): seq<Step> {
    RouteSteps(rc, w, Named(ROUTE, NameHash(digest, w.id)), rc.Host(digest), DeploymentBackend(digest, w.id))
  }

  predicate Selects(selector: map<string, string>, labels: map<string, string>) {
    forall key :: key in selector ==> key in labels && labels[key] == selector[key]
  }

  // A selected autoscaler without a resource policy.
  predicate Unguarded(selector: map<string, string>, namespace: string, vpas: seq<Vpa>) {
    exists v :: v in vpas && v.namespace == namespace && Selects(selector, v.labels) && v.policies.None?
  }

  // patchVpa: empty patches, which write nothing. A missing label selector is dereferenced,
  // and so is a missing resource policy.
  function VpaSteps(rc: Resolved, w: Workload, c: Contents): seq<Step> {
    if c.autoscaling.Unregistered? then []
    else if rc.target.labelSelector.None? then [Halt(Panicked)]
    else if Unguarded(rc.target.labelSelector.value, w.id.namespace, c.autoscaling.vpas) then [Halt(Panicked)]
    else []
  }

  // The route of a Deployment, then the autoscalers.
  function LastSteps(rc: Resolved, w: Workload, c: Contents): seq<Step> {
    DeploymentRoute(rc, w, c.env.digest) + VpaSteps(rc, w, c)
  }

  // reconcileDeploymentDependencies
  function DeploymentSteps(rc: Resolved, w: Workload, c: Contents, random: string): seq<Step> {
    [OAuth2Step(rc, w, c, random)] + ServiceSteps(rc, w, c.env.digest) + SecretSteps(rc, w, c) + LastSteps(rc, w, c)
  }

  // The Service and the route of one pod of a StatefulSet; `selector` is that of the target
  // which the pod itself resolves to, if it has one.
  function PodSteps(rc: Resolved, selector: map<string, string>, pod: Workload, digest: Digest): seq<Step> {
    if HOST_KEY !in pod.annotations then [] else
    var own := if POD_NAME_LABEL in pod.labels then map[POD_NAME_LABEL := pod.labels[POD_NAME_LABEL]] else selector;
    [Write(Key(ServiceKind, pod.id.namespace, ServiceName(digest, pod.id, pod.labels)), OwnerOf(pod), ServiceChange(own))]
    + RouteSteps(rc, pod, PodRouteName(digest, pod.id, pod.labels), RouteHost(pod.annotations[HOST_KEY], pod.labels),
                 ServiceName(digest, pod.id, pod.labels))
  }

  function PodsSteps(rc: Resolved, pods: seq<(Workload, map<string, string>)>, digest: Digest): seq<Step> {
    if pods == [] then [] else PodSteps(rc, pods[0].1, pods[0].0, digest) + PodsSteps(rc, pods[1..], digest)
  }

  // reconcileStatefulSetDependencies
  function StatefulSetSteps(rc: Resolved, w: Workload, pods: seq<(Workload, map<string, string>)>, c: Contents,
                            random: string): seq<Step> {
    [OAuth2Step(rc, w, c, random)] + PodsSteps(rc, pods, c.env.digest) + SecretSteps(rc, w, c) + VpaSteps(rc, w, c)
  }

  // ---------------------------------------------------------------- a second pass

  // Doing the step once more is the identity.
  predicate Settled(store: Store, step: Step) {
    step.Write? ==> Written(store, step.key, step.owner, step.change) == store
  }

  // No object is written twice.
  predicate Distinct(steps: seq<Step>) {
    forall i, j :: 0 <= i < j < |steps| && steps[i].Write? && steps[j].Write? ==> steps[i].key != steps[j].key
  }

  // The same step but for the random string it was handed.
  predicate Same(step: Step, again: Step) {
    && (step.Write? && step.change.OAuth2Change? ==>
          again.Write? && again.change.OAuth2Change?
          && again == step.(change := step.change.(random := again.change.random)))
    && (!(step.Write? && step.change.OAuth2Change?) ==> again == step)
  }

  predicate HasCookie(store: Store, key: Key) {
    key in store && Entry(DataOf(store[key]), COOKIE) != ""
  }

  lemma {:induction false} OwnedTwice(owners: seq<Owner>, owner: Owner)
    ensures Owned(Owned(owners, owner), owner) == Owned(owners, owner)
  {
    if owners == [] {
    } else if owners[0].kind == owner.kind && owners[0].name == owner.name {
      assert ([owner] + owners[1..])[1..] == owners[1..];
    } else {
      OwnedTwice(owners[1..], owner);
      assert ([owners[0]] + Owned(owners[1..], owner))[1..] == Owned(owners[1..], owner);
    }
  }

  lemma CookieStays(o: Object, change: Change, random: string)
    requires change.OAuth2Change?
    ensures Entry(DataOf(Changed(o, change)), COOKIE) == CookieFor(o, change.random)
    ensures Entry(DataOf(Changed(o, change)), CONFIG_FILE) == change.config
    ensures CookieFor(Changed(o, change), random) == if CookieFor(o, change.random) != "" then CookieFor(o, change.random) else random
  {
    assert |COOKIE| != |CONFIG_FILE|;
  }

  lemma ChangedTwice(o: Object, change: Change, again: Change, owners: seq<Owner>)
    requires if change.OAuth2Change? then
               again.OAuth2Change? && again == change.(random := again.random)
               && (CookieFor(o, change.random) != "" || again.random == "")
             else again == change
    ensures Changed(Changed(o, change).(owners := owners), again) == Changed(o, change).(owners := owners)
    ensures Changed(o, change).owners == o.owners
  {
    if change.OAuth2Change? {
      CookieStays(o, change, again.random);
    }
  }

  lemma WriteSettles(store: Store, step: Step, again: Step)
    requires step.Write? && Same(step, again)
    requires step.change.OAuth2Change? ==>
               HasCookie(Written(store, step.key, step.owner, step.change), step.key) || again.change.random == ""
    ensures Settled(Written(store, step.key, step.owner, step.change), again)
  {
    var o := if step.key in store then store[step.key] else NewObject(step.key.kind);
    var owners := Owned(o.owners, step.owner);
    if step.change.OAuth2Change? {
      CookieStays(o, step.change, "");
    }
    ChangedTwice(o, step.change, again.change, owners);
    OwnedTwice(o.owners, step.owner);
  }

  lemma {:induction false} ExecuteKeeps(store: Store, steps: seq<Step>, key: Key)
    requires forall i :: 0 <= i < |steps| && steps[i].Write? ==> steps[i].key != key
    ensures var after := Execute(store, steps).0;
            (key in after <==> key in store) && (key in store ==> after[key] == store[key])
    decreases |steps|
  {
    if steps != [] && steps[0].Write? {
      ExecuteKeeps(Written(store, steps[0].key, steps[0].owner, steps[0].change), steps[1..], key);
    }
  }

  lemma SettledByKey(store: Store, after: Store, step: Step)
    requires step.Write? && Settled(store, step)
    requires step.key in after <==> step.key in store
    requires step.key in store ==> after[step.key] == store[step.key]
    ensures Settled(after, step)
  {
    assert step.key in Written(store, step.key, step.owner, step.change);
    assert store[step.key] == Written(store, step.key, step.owner, step.change)[step.key];
  }

  // The step is carried out: no halt comes before it.
  predicate Reached(steps: seq<Step>, i: nat)
    requires i < |steps|
  {
    forall j :: 0 <= j < i ==> steps[j].Write?
  }

  // Every oauth2 secret that the steps get to has a cookie in the store, or is offered none.
  predicate CookiesIn(store: Store, steps: seq<Step>) {
    forall i :: 0 <= i < |steps| && Reached(steps, i) && steps[i].Write? && steps[i].change.OAuth2Change? ==>
      HasCookie(store, steps[i].key) || steps[i].change.random == ""
  }

  lemma ReachedLater(steps: seq<Step>, i: nat)
    requires i + 1 < |steps| && steps[0].Write? && Reached(steps[1..], i)
    ensures Reached(steps, i + 1)
  {
    forall j | 0 <= j < i + 1 ensures steps[j].Write? {
      if j > 0 { assert steps[j] == steps[1..][j - 1]; }
    }
  }

  // A pass over distinct objects that has given every oauth2 secret its cookie leaves nothing
  // to do for a second pass, whatever random strings that one is handed.
  lemma {:induction false} PassTwice(store: Store, steps: seq<Step>, again: seq<Step>)
    requires Distinct(steps) && |again| == |steps| && forall i :: 0 <= i < |steps| ==> Same(steps[i], again[i])
    requires CookiesIn(Execute(store, steps).0, again)
    ensures Execute(Execute(store, steps).0, again) == Execute(store, steps)
    decreases |steps|
  {
    if steps != [] && steps[0].Write? {
      var step := steps[0];
      var first := Written(store, step.key, step.owner, step.change);
      assert Execute(store, steps) == Execute(first, steps[1..]);
      var after := Execute(store, steps).0;
      forall i | 0 <= i < |steps[1..]| && steps[1..][i].Write? ensures steps[1..][i].key != step.key {
        assert steps[1..][i] == steps[i + 1];
      }
      ExecuteKeeps(first, steps[1..], step.key);
      assert Reached(again, 0);
      WriteSettles(store, step, again[0]);
      SettledByKey(first, after, again[0]);
      assert Execute(after, again) == Execute(after, again[1..]);
      forall i | 0 <= i < |again[1..]| && Reached(again[1..], i) && again[1..][i].Write? && again[1..][i].change.OAuth2Change?
        ensures HasCookie(after, again[1..][i].key) || again[1..][i].change.random == ""
      {
        ReachedLater(again, i);
        assert again[1..][i] == again[i + 1];
      }
      PassTwice(first, steps[1..], again[1..]);
    }
  }

  // ---------------------------------------------------------------- passes write distinct objects

  function KeysOf(steps: seq<Step>): set<Key> {
    set i | 0 <= i < |steps| && steps[i].Write? :: steps[i].key
  }

  lemma KeysConcat(a: seq<Step>, b: seq<Step>)
    ensures KeysOf(a + b) == KeysOf(a) + KeysOf(b)
    ensures Distinct(a) && Distinct(b) && KeysOf(a) !! KeysOf(b) ==> Distinct(a + b)
  {
    var all := a + b;
    forall key | key in KeysOf(a) + KeysOf(b) ensures key in KeysOf(all) {
      if key in KeysOf(a) {
        var i :| 0 <= i < |a| && a[i].Write? && a[i].key == key;
        assert all[i] == a[i];
      } else {
        var i :| 0 <= i < |b| && b[i].Write? && b[i].key == key;
        assert all[|a| + i] == b[i];
      }
    }
    if Distinct(a) && Distinct(b) && KeysOf(a) !! KeysOf(b) {
      forall i, j | 0 <= i < j < |all| && all[i].Write? && all[j].Write? ensures all[i].key != all[j].key {
        if i < |a| <= j {
          assert all[i].key in KeysOf(a) && all[j].key in KeysOf(b);
        }
      }
    }
  }

  lemma SecretNames(hash: string)
    ensures Named(OAUTH2_PROXY, hash) != Named(RESOURCE_ATTRIBUTES, hash)
    ensures Named(OAUTH2_PROXY, hash) != Named(KUBECONFIG, hash) && Named(OAUTH2_PROXY, hash) != Named(OIDC_CA, hash)
    ensures Named(RESOURCE_ATTRIBUTES, hash) != Named(KUBECONFIG, hash)
    ensures Named(RESOURCE_ATTRIBUTES, hash) != Named(OIDC_CA, hash) && Named(KUBECONFIG, hash) != Named(OIDC_CA, hash)
  {
    assert |Named(OAUTH2_PROXY, hash)| == 13 + |hash| && |Named(RESOURCE_ATTRIBUTES, hash)| == 20 + |hash|;
    assert |Named(KUBECONFIG, hash)| == 11 + |hash| && |Named(OIDC_CA, hash)| == 8 + |hash|;
  }

  predicate Secrets(keys: set<Key>) {
    forall key :: key in keys ==> key.kind == SecretKind
  }

  lemma SecretStepsDistinct(rc: Resolved, w: Workload, c: Contents)
    ensures Distinct(SecretSteps(rc, w, c)) && Secrets(KeysOf(SecretSteps(rc, w, c)))
    ensures OwnSecret(OAUTH2_PROXY, w, c.env.digest) !in KeysOf(SecretSteps(rc, w, c))
  {
    SecretNames(NameHash(c.env.digest, w.id));
    ThreeKeys([AttributesStep(w, c)], KubeConfigSteps(rc, w, c), OidcCaSteps(rc, w, c),
              OwnSecret(RESOURCE_ATTRIBUTES, w, c.env.digest), OwnSecret(KUBECONFIG, w, c.env.digest), OwnSecret(OIDC_CA, w, c.env.digest));
  }

  // Three lists of one write at most.
  lemma ThreeKeys(a: seq<Step>, b: seq<Step>, c: seq<Step>, i: Key, j: Key, k: Key)
    requires |a| <= 1 && (a != [] && a[0].Write? ==> a[0].key == i)
    requires |b| <= 1 && (b != [] && b[0].Write? ==> b[0].key == j)
    requires |c| <= 1 && (c != [] && c[0].Write? ==> c[0].key == k)
    requires i != j && i != k && j != k
    ensures Distinct(a + b + c) && KeysOf(a + b + c) <= {i, j, k}
  {
    KeysConcat(a, b);
    KeysConcat(a + b, c);
  }

  lemma LastStepsDistinct(rc: Resolved, w: Workload, c: Contents)
    ensures Distinct(LastSteps(rc, w, c)) && forall key :: key in KeysOf(LastSteps(rc, w, c)) ==> key.kind == RouteKind
    ensures Distinct(VpaSteps(rc, w, c)) && KeysOf(VpaSteps(rc, w, c)) == {}
  {
    KeysConcat(DeploymentRoute(rc, w, c.env.digest), VpaSteps(rc, w, c));
  }

  lemma DeploymentDistinct(rc: Resolved, w: Workload, c: Contents, random: string)
    ensures Distinct(DeploymentSteps(rc, w, c, random))
  {
    var first, service := [OAuth2Step(rc, w, c, random)], ServiceSteps(rc, w, c.env.digest);
    var secrets, last := SecretSteps(rc, w, c), LastSteps(rc, w, c);
    SecretStepsDistinct(rc, w, c);
    LastStepsDistinct(rc, w, c);
    KeysConcat(first, service);
    KeysConcat(first + service, secrets);
    KeysConcat(first + service + secrets, last);
  }

  // The pods' Services and routes have names of their own.
  predicate Apart(a: Workload, b: Workload, digest: Digest) {
    && (a.id.namespace == b.id.namespace ==>
          ServiceName(digest, a.id, a.labels) != ServiceName(digest, b.id, b.labels)
          && PodRouteName(digest, a.id, a.labels) != PodRouteName(digest, b.id, b.labels))
  }

  predicate PodsApart(pods: seq<(Workload, map<string, string>)>, digest: Digest) {
    forall i, j :: 0 <= i < j < |pods| ==> Apart(pods[i].0, pods[j].0, digest)
  }

  function PodKeys(pod: Workload, digest: Digest): set<Key> {
    {Key(ServiceKind, pod.id.namespace, ServiceName(digest, pod.id, pod.labels)),
     Key(RouteKind, pod.id.namespace, PodRouteName(digest, pod.id, pod.labels))}
  }

  lemma PodStepsDistinct(rc: Resolved, selector: map<string, string>, pod: Workload, digest: Digest)
    ensures Distinct(PodSteps(rc, selector, pod, digest)) && KeysOf(PodSteps(rc, selector, pod, digest)) <= PodKeys(pod, digest)
  {
  }

  function AllPodKeys(pods: seq<(Workload, map<string, string>)>, digest: Digest): set<Key> {
    if pods == [] then {} else PodKeys(pods[0].0, digest) + AllPodKeys(pods[1..], digest)
  }

  lemma {:induction false} KeysApart(pod: Workload, pods: seq<(Workload, map<string, string>)>, digest: Digest)
    requires forall i :: 0 <= i < |pods| ==> Apart(pod, pods[i].0, digest)
    ensures PodKeys(pod, digest) !! AllPodKeys(pods, digest)
    decreases |pods|
  {
    if pods != [] {
      assert Apart(pod, pods[0].0, digest);
      KeysApart(pod, pods[1..], digest);
    }
  }

  lemma {:induction false} NoSecretKeys(pods: seq<(Workload, map<string, string>)>, digest: Digest)
    ensures forall key :: key in AllPodKeys(pods, digest) ==> key.kind != SecretKind
    decreases |pods|
  {
    if pods != [] {
      NoSecretKeys(pods[1..], digest);
    }
  }

  lemma {:induction false} PodsDistinct(rc: Resolved, pods: seq<(Workload, map<string, string>)>, digest: Digest)
    requires PodsApart(pods, digest)
    ensures Distinct(PodsSteps(rc, pods, digest)) && KeysOf(PodsSteps(rc, pods, digest)) <= AllPodKeys(pods, digest)
    decreases |pods|
  {
    if pods != [] {
      var first, rest := PodSteps(rc, pods[0].1, pods[0].0, digest), PodsSteps(rc, pods[1..], digest);
      PodStepsDistinct(rc, pods[0].1, pods[0].0, digest);
      PodsDistinct(rc, pods[1..], digest);
      KeysApart(pods[0].0, pods[1..], digest);
      KeysConcat(first, rest);
    }
  }

  lemma StatefulSetDistinct(rc: Resolved, w: Workload, pods: seq<(Workload, map<string, string>)>, c: Contents,
                            random: string)
    requires PodsApart(pods, c.env.digest)
    ensures Distinct(StatefulSetSteps(rc, w, pods, c, random))
  {
    var first, middle, secrets := [OAuth2Step(rc, w, c, random)], PodsSteps(rc, pods, c.env.digest), SecretSteps(rc, w, c);
    SecretStepsDistinct(rc, w, c);
    PodsDistinct(rc, pods, c.env.digest);
    NoSecretKeys(pods, c.env.digest);
    LastStepsDistinct(rc, w, c);
    KeysConcat(first, middle);
    KeysConcat(first + middle, secrets);
    KeysConcat(first + middle + secrets, VpaSteps(rc, w, c));
  }

  // ---------------------------------------------------------------- pruning

  // isAnOwnedResource
  predicate OwnedBy(o: Object, uid: string) {
    exists owner :: owner in o.owners && owner.uid == uid
  }

  predicate Labelled(o: Object, key: string, value: string) {
    key in o.labels && o.labels[key] == value
  }

  // What deleteOwnedResources selects for a workload that is no longer a target: of its
  // secrets only those with the oauth2 label.
  predicate Prunes(o: Object, key: Key, w: Workload) {
    && key.namespace == w.id.namespace && OwnedBy(o, w.uid) && Labelled(o, COMPONENT_KEY, LABEL_VALUE)
    && (key.kind == SecretKind ==> Labelled(o, SECRET_LABEL_KEY, "oauth2"))
  }

  function Prunable(store: Store, w: Workload): set<Key> {
    set key | key in store && Prunes(store[key], key, w)
  }

  // What a write leaves on its object.
  function LabelsOf(change: Change): map<string, string> {
    match change
    case OAuth2Change(_, _, _) => SecretLabels("oauth2")
    case StringsChange(role, _) => SecretLabels(role)
    case ServiceChange(_) => map[COMPONENT_KEY := LABEL_VALUE]
    case RouteChange(_, _, _, labels) => map[COMPONENT_KEY := LABEL_VALUE] + labels
  }

  lemma {:induction false} OwnerThere(owners: seq<Owner>, owner: Owner)
    ensures owner in Owned(owners, owner)
  {
    if owners != [] && !(owners[0].kind == owner.kind && owners[0].name == owner.name) {
      OwnerThere(owners[1..], owner);
    }
  }

  function OwnersAt(store: Store, key: Key): seq<Owner> {
    if key in store then store[key].owners else []
  }

  // Other owners are none but those there were.
  lemma {:induction false} OwnersFrom(owners: seq<Owner>, owner: Owner, other: Owner)
    requires other in Owned(owners, owner)
    ensures other == owner || other in owners
  {
    if owners != [] && other != Owned(owners, owner)[0] && !(owners[0].kind == owner.kind && owners[0].name == owner.name) {
      OwnersFrom(owners[1..], owner, other);
    }
  }

  // In a pass over distinct objects every write that is reached shows in the end.
  lemma {:induction false} WriteShows(store: Store, steps: seq<Step>, i: nat)
    requires Distinct(steps) && i < |steps| && Reached(steps, i) && steps[i].Write?
    ensures var after := Execute(store, steps).0;
            && steps[i].key in after && after[steps[i].key].labels == LabelsOf(steps[i].change)
            && after[steps[i].key].owners == Owned(OwnersAt(store, steps[i].key), steps[i].owner)
    decreases |steps|
  {
    assert steps[0].Write?;
    var first := Written(store, steps[0].key, steps[0].owner, steps[0].change);
    if i == 0 {
      forall j | 0 <= j < |steps[1..]| && steps[1..][j].Write? ensures steps[1..][j].key != steps[0].key {
        assert steps[1..][j] == steps[j + 1];
      }
      ExecuteKeeps(first, steps[1..], steps[0].key);
    } else {
      assert steps[1..][i - 1] == steps[i];
      assert forall j :: 0 <= j < |steps[1..]| ==> steps[1..][j] == steps[j + 1];
      WriteShows(first, steps[1..], i - 1);
    }
  }
}
