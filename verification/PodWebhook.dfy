// The pod webhook as it runs (pkg/webhook/pod-webhook.go, pkg/webhook/modifiers.go): it edits
// the pod it is handed in place, and its result is that of PodMutation.Admit.

module PodWebhook {
  import opened Wrappers
  import opened GoStrings
  import opened Configuration
  import opened RedirectArgs
  import opened PodMutation
  import opened SidecarPlan
  import opened PodAdmission
  import opened Hosts

  lemma AdmitParts(p: PodState, plan: Plan, panicked: bool, q: PodState)
    requires !p.deleting && (panicked <==> AddSources(p.volumes, plan.secrets).None?)
    requires q.annotations == Annotated(p, plan) && q.labels == Labelled(p.labels)
    requires !panicked ==> AddSources(p.volumes, plan.secrets) == Some(q.volumes)
    requires !panicked ==>
               var url := UpstreamURL(plan.upstream, p.containers);
               q.containers == Redirected(WithSidecars(p.containers, q.volumes, plan, url), q.labels, plan)
    requires !panicked ==> q.pullSecrets == WithPullSecret(p.pullSecrets, plan.pullSecret)
    requires q.name == p.name && q.namespace == p.namespace && q.deleting == p.deleting
    ensures Admit(p, plan) == if panicked then None else Some(q)
  {
  }

  // The arguments of the oauth2-proxy sidecar; extra arguments that are not of the expected
  // form are skipped.
  method GetOAuth2Args(rc: Resolved) returns (args: seq<string>)
    ensures args == OAuth2Args(rc)
  {
    args := FixedArgs(rc);
    var extra := rc.ExtraArgs();
    assert extra[0..] == extra;
    for i := 0 to |extra|
      invariant OAuth2Args(rc) == args + ValidArgs(extra[i..])
    {
      assert extra[i..][0] == extra[i] && extra[i..][1..] == extra[i + 1..];
      if ValidArg(extra[i]) {
        args := args + [extra[i]];
      }
    }
    assert extra[|extra|..] == [];
  }

  class Pod {
    var name: string
    var namespace: string
    var deleting: bool
    var annotations: map<string, string>
    var labels: map<string, string>
    var volumes: seq<Volume>
    var containers: seq<Container>
    var pullSecrets: seq<string>

    constructor (p: PodState)
      ensures State() == p
    {
      name, namespace, deleting := p.name, p.namespace, p.deleting;
      annotations, labels := p.annotations, p.labels;
      volumes, containers, pullSecrets := p.volumes, p.containers, p.pullSecrets;
    }

    ghost function State(): PodState
      reads this
    {
      PodState(name, namespace, deleting, annotations, labels, volumes, containers, pullSecrets)
    }

    // A nil dereference ends the request; the volumes are as they were then.
    method AddProjectedSecretSourceVolume(volumeName: string, secretName: string) returns (panicked: bool)
      modifies this`volumes
      ensures panicked <==> AddSource(old(volumes), volumeName, secretName).None?
      ensures volumes == if panicked then old(volumes) else AddSource(old(volumes), volumeName, secretName).value
    {
      var i := 0;
      while i < |volumes| && volumes[i].name != volumeName
        invariant i <= |volumes| && forall j :: 0 <= j < i ==> volumes[j].name != volumeName
      {
        i := i + 1;
      }
      assert i == VolumeIndex(volumes, volumeName) by {
        if i < |volumes| { VolumeIndexIs(volumes, volumeName, i); }
      }
      var secret := Mandatory(secretName);
      if i == |volumes| {
        volumes := volumes + [Volume(volumeName, Some([secret]), "")];
        return false;
      }
      var volume := volumes[i];
      if volume.projected.None? {
        return false;
      }
      var sources := volume.projected.value;
      assert sources[0..] == sources;
      var k := 0;
      while k < |sources|
        invariant k <= |sources| && Scan(sources, secretName) == Scan(sources[k..], secretName)
      {
        assert sources[k..][0] == sources[k] && sources[k..][1..] == sources[k + 1..];
        if !sources[k].SecretSource? {
          return true;
        }
        if sources[k].name == secretName {
          return false;
        }
        k := k + 1;
      }
      assert sources[k..] == [];
      volumes := volumes[i := volume.(projected := Some(sources + [secret]))];
      return false;
    }

    // The secrets of the oauth2-proxy volume. `rest` are the ones still to come.
    method AddOAuth2Secrets(rc: Resolved, suffix: string) returns (panicked: bool)
      modifies this`volumes
      ensures panicked <==> AddSources(old(volumes), OAuth2Secrets(rc, suffix)).None?
      ensures !panicked ==> volumes == AddSources(old(volumes), OAuth2Secrets(rc, suffix)).value
    {
      ghost var rest := OAuth2Secrets(rc, suffix);
      ghost var all := AddSources(volumes, rest);
      panicked := AddProjectedSecretSourceVolume(OAUTH2_PROXY, Named(OAUTH2_PROXY, suffix));
      if panicked { return; }
      rest := rest[1..];
      assert all == AddSources(volumes, rest);
      if ShallAddOidcCa(rc) {
        panicked := AddProjectedSecretSourceVolume(OAUTH2_PROXY, OidcCaSecret(rc, suffix));
        if panicked { return; }
        rest := rest[1..];
        assert all == AddSources(volumes, rest);
      }
      if rc.ClientSecretName() != "" {
        panicked := AddProjectedSecretSourceVolume(OAUTH2_PROXY, rc.ClientSecretName());
        if panicked { return; }
        rest := rest[1..];
        assert all == AddSources(volumes, rest);
      }
      assert rest == [];
    }

    method AddKubeRbacSecrets(rc: Resolved, suffix: string) returns (panicked: bool)
      modifies this`volumes
      ensures panicked <==> AddSources(old(volumes), KubeRbacSecrets(rc, suffix)).None?
      ensures !panicked ==> volumes == AddSources(old(volumes), KubeRbacSecrets(rc, suffix)).value
    {
      ghost var rest := KubeRbacSecrets(rc, suffix);
      ghost var all := AddSources(volumes, rest);
      panicked := AddProjectedSecretSourceVolume(KUBE_RBAC_PROXY, Named(RESOURCE_ATTRIBUTES, suffix));
      if panicked { return; }
      rest := rest[1..];
      assert all == AddSources(volumes, rest);
      if ShallAddKubeConfig(rc) {
        panicked := AddProjectedSecretSourceVolume(KUBE_RBAC_PROXY, KubeConfigSecret(rc, suffix));
        if panicked { return; }
        rest := rest[1..];
        assert all == AddSources(volumes, rest);
      }
      if ShallAddOidcCa(rc) {
        panicked := AddProjectedSecretSourceVolume(KUBE_RBAC_PROXY, OidcCaSecret(rc, suffix));
        if panicked { return; }
        rest := rest[1..];
        assert all == AddSources(volumes, rest);
      }
      assert rest == [];
    }

    // Both, in the order in which Default adds them.
    method AddSecrets(rc: Resolved, suffix: string, ghost plan: Plan) returns (panicked: bool)
      requires plan.secrets == SecretsOf(rc, suffix)
      modifies this`volumes
      ensures panicked <==> AddSources(old(volumes), plan.secrets).None?
      ensures !panicked ==> AddSources(old(volumes), plan.secrets) == Some(volumes)
    {
      AddSourcesConcat(volumes, OAuth2Secrets(rc, suffix), KubeRbacSecrets(rc, suffix));
      panicked := AddOAuth2Secrets(rc, suffix);
      if !panicked {
        panicked := AddKubeRbacSecrets(rc, suffix);
      }
    }

    method AddProxyContainer(proxy: string, container: Container)
      modifies this`containers
      ensures containers == AddProxy(old(containers), proxy, container)
    {
      var i := 0;
      while i < |containers| && containers[i].name != proxy
        invariant i <= |containers| && forall j :: 0 <= j < i ==> containers[j].name != proxy
      {
        i := i + 1;
      }
      assert i == ContainerIndex(containers, proxy);
      if i < |containers| {
        containers := containers[..i] + containers[i + 1..];
      }
      containers := containers + [container];
    }

    method AddImagePullSecret(secretName: string)
      modifies this`pullSecrets
      ensures pullSecrets == WithPullSecret(old(pullSecrets), secretName)
    {
      if secretName == "" {
        return;
      }
      for i := 0 to |pullSecrets|
        invariant secretName !in pullSecrets[..i]
      {
        if pullSecrets[i] == secretName {
          return;
        }
      }
      pullSecrets := pullSecrets + [secretName];
    }

    method AddAnnotations(rc: Resolved, env: Environment, ghost plan: Plan)
      requires plan.annotations == AnnotationsOf(rc, env) && plan.podSuffix == NameHash(env.digest, Identity(name, namespace))
      modifies this`annotations
      ensures annotations == Annotated(old(State()), plan)
    {
      var suffix := if SUFFIX_KEY in annotations then annotations[SUFFIX_KEY]
                    else NameHash(env.digest, Identity(name, namespace));
      annotations := annotations + map[COMPONENT_KEY := name, SUFFIX_KEY := suffix] + AnnotationsOf(rc, env);
    }

    method BuildUpstreamURL(target: string) returns (url: string)
      ensures url == UpstreamURL(target, containers)
    {
      var protocol := ProtocolOf(target);
      var port := PortOf(target);
      if port == "" {
        return protocol + LOCALHOST;
      }
      if IsAtoi(port) {
        return protocol + LOCALHOST + ":" + port;
      }
      assert containers[0..] == containers;
      var i := 0;
      while i < |containers|
        invariant i <= |containers| && LookupPort(containers, port) == LookupPort(containers[i..], port)
      {
        assert containers[i..][0] == containers[i] && containers[i..][1..] == containers[i + 1..];
        var ports := containers[i].ports;
        assert ports[0..] == ports;
        var k := 0;
        while k < |ports|
          invariant k <= |ports| && PortNamed(ports, port) == PortNamed(ports[k..], port)
        {
          assert ports[k..][0] == ports[k] && ports[k..][1..] == ports[k + 1..];
          if ports[k].name == port {
            return protocol + LOCALHOST + ":" + Itoa(ports[k].number);
          }
          k := k + 1;
        }
        i := i + 1;
      }
      assert containers[i..] == [];
      return "";
    }

    // The requests of a sidecar that is about to be rebuilt.
    method GetSidecarRequests(sidecar: string) returns (requests: Requests)
      ensures requests == SidecarRequests(containers, sidecar)
    {
      requests := DEFAULT_REQUESTS;
      for i := 0 to |containers|
        invariant requests == SidecarRequests(containers[..i], sidecar)
      {
        assert containers[..i + 1][..i] == containers[..i] && containers[..i + 1][i] == containers[i];
        var c := containers[i];
        if c.name == sidecar && c.requests.Some? && c.requests.value.memory > 100 * MIB {
          requests := c.requests.value;
        }
      }
      assert containers[..|containers|] == containers;
    }

    method GetTokenMounts() returns (mounts: seq<Mount>)
      ensures mounts == TokenMounts(volumes)
    {
      mounts := [];
      assert volumes[0..] == volumes;
      for i := 0 to |volumes|
        invariant TokenMounts(volumes) == mounts + TokenMounts(volumes[i..])
      {
        assert volumes[i..][0] == volumes[i] && volumes[i..][1..] == volumes[i + 1..];
        var volume := volumes[i];
        if volume.projected.Some? {
          var sources := volume.projected.value;
          var k := 0;
          while k < |sources| && sources[k] != TokenSource
            invariant k <= |sources| && TokenSource !in sources[..k]
          {
            k := k + 1;
          }
          if k < |sources| {
            mounts := mounts + [Mount(volume.name, true, TOKEN_PATH)];
          }
        }
      }
      assert volumes[|volumes|..] == [];
    }

    method GetOIDCProxyContainer(rc: Resolved, env: Environment, ghost plan: Plan) returns (container: Container)
      requires plan.oauth2Image == env.oauth2Image && plan.oauth2Args == OAuth2Args(rc)
      ensures container == OAuth2Container(containers, plan)
    {
      var requests := GetSidecarRequests(OAUTH2_PROXY);
      var args := GetOAuth2Args(rc);
      container := Container(OAUTH2_PROXY, env.oauth2Image, args, [ContainerPort("oauth2", 8000)],
                             Some(requests), [Mount(OAUTH2_PROXY, true, "/etc/oauth2-proxy")], Hardened);
    }

    method GetKubeRbacProxyContainer(rc: Resolved, env: Environment, url: string, ghost plan: Plan)
      returns (container: Container)
      requires plan.rbacImage == env.rbacImage && plan.rbacArgs == RbacArgsOf(rc)
      ensures container == RbacContainer(volumes, containers, plan, url)
    {
      var requests := GetSidecarRequests(KUBE_RBAC_PROXY);
      var mounts := GetTokenMounts();
      var args := RbacArgsOf(rc);
      container := Container(KUBE_RBAC_PROXY, env.rbacImage, args.0 + [UPSTREAM_ARG + url] + args.1,
                             [ContainerPort("rbac", 8100)], Some(requests),
                             [Mount(KUBE_RBAC_PROXY, true, "/etc/kube-rbac-proxy")] + mounts, Hardened);
    }

    method AddSidecars(rc: Resolved, env: Environment, url: string, ghost plan: Plan)
      requires plan.oauth2Image == env.oauth2Image && plan.oauth2Args == OAuth2Args(rc)
      requires plan.rbacImage == env.rbacImage && plan.rbacArgs == RbacArgsOf(rc)
      modifies this`containers
      ensures containers == WithSidecars(old(containers), volumes, plan, url)
    {
      var oauth2 := GetOIDCProxyContainer(rc, env, plan);
      AddProxyContainer(OAUTH2_PROXY, oauth2);
      var rbac := GetKubeRbacProxyContainer(rc, env, url, plan);
      AddProxyContainer(KUBE_RBAC_PROXY, rbac);
    }

    // The redirect URL of a StatefulSet pod; the arguments of the sidecar are edited in place.
    method SetRedirectURL(hostPrefix: string, podName: string)
      modifies this`containers
      ensures containers == WithRedirect(old(containers), PodHost(hostPrefix, podName))
    {
      var (host, domain, found) := Cut(hostPrefix, '.');
      if found {
        host := host + "-" + LastPart(podName, '-') + "." + domain;
      }
      var i := 0;
      while i < |containers| && containers[i].name != OAUTH2_PROXY
        invariant i <= |containers| && forall j :: 0 <= j < i ==> containers[j].name != OAUTH2_PROXY
      {
        i := i + 1;
      }
      assert i == ContainerIndex(containers, OAUTH2_PROXY);
      if i < |containers| {
        var args := containers[i].args;
        var slice := new string[|args|](k requires 0 <= k < |args| => args[k]);
        assert slice[..] == args;
        var n := DeleteRedirects(slice);
        containers := containers[i := containers[i].(args := slice[..n] + [RedirectArg(host)])];
      }
    }

    method MutateMetadata(rc: Resolved, env: Environment, ghost plan: Plan) returns (url: string)
      requires plan.annotations == AnnotationsOf(rc, env) && plan.podSuffix == NameHash(env.digest, Identity(name, namespace))
      requires plan.upstream == rc.UpstreamTarget()
      modifies this`annotations, this`labels
      ensures url == UpstreamURL(plan.upstream, containers)
      ensures annotations == Annotated(old(State()), plan)
      ensures labels == Labelled(old(labels))
    {
      url := BuildUpstreamURL(rc.UpstreamTarget());
      AddAnnotations(rc, env, plan);
      labels := labels + map[COMPONENT_KEY := "pod"];
    }

    method MutateContainers(rc: Resolved, env: Environment, url: string, ghost plan: Plan)
      requires plan.oauth2Image == env.oauth2Image && plan.oauth2Args == OAuth2Args(rc)
      requires plan.rbacImage == env.rbacImage && plan.rbacArgs == RbacArgsOf(rc)
      requires plan.pullSecret == env.pullSecret && plan.redirectHost == RedirectBase(rc, env.digest)
      modifies this`containers, this`pullSecrets
      ensures containers == Redirected(WithSidecars(old(containers), volumes, plan, url), labels, plan)
      ensures pullSecrets == WithPullSecret(old(pullSecrets), plan.pullSecret)
    {
      AddSidecars(rc, env, url, plan);
      AddImagePullSecret(env.pullSecret);
      if POD_NAME_LABEL in labels {
        SetRedirectURL(RedirectBase(rc, env.digest), labels[POD_NAME_LABEL]);
      }
    }

    // Default for a pod of a target.
    method Mutate(rc: Resolved, suffix: string, env: Environment, ghost plan: Plan) returns (panicked: bool)
      requires plan.annotations == AnnotationsOf(rc, env) && plan.podSuffix == NameHash(env.digest, Identity(name, namespace))
      requires plan.upstream == rc.UpstreamTarget() && plan.secrets == SecretsOf(rc, suffix)
      requires plan.oauth2Image == env.oauth2Image && plan.oauth2Args == OAuth2Args(rc)
      requires plan.rbacImage == env.rbacImage && plan.rbacArgs == RbacArgsOf(rc)
      requires plan.pullSecret == env.pullSecret && plan.redirectHost == RedirectBase(rc, env.digest)
      modifies this`annotations, this`labels, this`volumes, this`containers, this`pullSecrets
      ensures panicked <==> AddSources(old(volumes), plan.secrets).None?
      ensures !panicked ==> AddSources(old(volumes), plan.secrets) == Some(volumes)
      ensures annotations == Annotated(old(State()), plan)
      ensures labels == Labelled(old(labels))
      ensures !panicked ==>
                var url := UpstreamURL(plan.upstream, old(containers));
                containers == Redirected(WithSidecars(old(containers), volumes, plan, url), labels, plan)
      ensures !panicked ==> pullSecrets == WithPullSecret(old(pullSecrets), plan.pullSecret)
    {
      var url := MutateMetadata(rc, env, plan);
      panicked := AddSecrets(rc, suffix, plan);
      if !panicked {
        MutateContainers(rc, env, url, plan);
      }
    }

    // PodMutator.Default. `target` is the resolved configuration of the owning workload, if
    // the pod belongs to a target.
    method Default(target: Option<Resolved>, ownerSuffix: Option<string>, env: Environment) returns (panicked: bool)
      modifies this
      ensures target.None? ==> !panicked && State() == old(State())
      ensures target.Some? ==>
                var plan := PlanOf(target.value, ownerSuffix, Identity(old(name), old(namespace)), env);
                var admitted := Admit(old(State()), plan);
                (panicked <==> admitted.None?) && (!panicked ==> State() == admitted.value)
    {
      if deleting || target.None? {
        return false;
      }
      var rc := target.value;
      ghost var p, plan := State(), PlanOf(rc, ownerSuffix, Identity(name, namespace), env);
      panicked := Mutate(rc, SuffixOf(ownerSuffix, env.digest, rc.workload), env, plan);
      AdmitParts(p, plan, panicked, State());
    }
  }

  // ---------------------------------------------------------------- admission under a configuration

  function PlanFor(p: PodState, rc: Resolved, ownerSuffix: Option<string>, env: Environment): Plan {
    PlanOf(rc, ownerSuffix, Identity(p.name, p.namespace), env)
  }

  // For every configuration, admitting an admitted pod changes nothing if and only if the
  // configured target port is stable.
  lemma TargetIdempotent(p: PodState, rc: Resolved, ownerSuffix: Option<string>, env: Environment)
    requires OneSidecarEach(p) && !p.deleting
    ensures var plan := PlanFor(p, rc, ownerSuffix, env);
            Admit(p, plan).Some? ==>
              var q := Admit(p, plan).value;
              && PlanFor(q, rc, ownerSuffix, env) == plan && Admit(q, plan).Some?
              && (Admit(q, plan) == Some(q) <==> StablePort(PortText(rc.target.targetPort), p.containers))
  {
    var plan := PlanFor(p, rc, ownerSuffix, env);
    if Admit(p, plan).Some? {
      AnnotationsApart(rc, env);
      UpstreamReadsBack(rc.target.targetProtocol, rc.target.targetPort);
      IdempotentUnder(p, plan, PortText(rc.target.targetPort), Admit(p, plan).value);
    }
  }

  lemma IdempotentUnder(p: PodState, plan: Plan, port: string, q: PodState)
    requires PodAdmission.Tidy(plan) && OneSidecarEach(p) && !p.deleting && Admit(p, plan) == Some(q)
    requires PortOf(plan.upstream) == port
    ensures q.name == p.name && q.namespace == p.namespace && Admit(q, plan).Some?
    ensures Admit(q, plan) == Some(q) <==> StablePort(port, p.containers)
  {
    AdmissionIdempotent(p, plan, q);
  }

  // What is said of an admitted pod's containers and volumes.
  predicate Framed(p: PodState, q: PodState) {
    && |q.containers| >= 2 && q.containers[..|q.containers| - 2] == OtherContainers(p.containers)
    && q.containers[|q.containers| - 2].name == OAUTH2_PROXY && q.containers[|q.containers| - 1].name == KUBE_RBAC_PROXY
    && OneSidecarEach(q)
    && OtherVolumes(q.volumes, {OAUTH2_PROXY, KUBE_RBAC_PROXY}) == OtherVolumes(p.volumes, {OAUTH2_PROXY, KUBE_RBAC_PROXY})
  }

  // Admission leaves everything but the sidecars alone.
  lemma TargetFrame(p: PodState, rc: Resolved, ownerSuffix: Option<string>, env: Environment)
    requires OneSidecarEach(p) && !p.deleting
    ensures var plan := PlanFor(p, rc, ownerSuffix, env); Admit(p, plan).Some? ==> Framed(p, Admit(p, plan).value)
  {
    var plan := PlanFor(p, rc, ownerSuffix, env);
    if Admit(p, plan).Some? {
      AnnotationsApart(rc, env);
      SecretsInSidecarVolumes(rc, SuffixOf(ownerSuffix, env.digest, rc.workload));
      FrameUnder(p, plan, Admit(p, plan).value);
    }
  }

  lemma FrameUnder(p: PodState, plan: Plan, q: PodState)
    requires PodAdmission.Tidy(plan) && OneSidecarEach(p) && !p.deleting && Admit(p, plan) == Some(q)
    requires forall s :: s in plan.secrets ==> s.0 == OAUTH2_PROXY || s.0 == KUBE_RBAC_PROXY
    ensures Framed(p, q)
  {
    AdmissionFrame(p, plan, q);
    AdmissionIdempotent(p, plan, q);
  }

  // The last argument of the oauth2-proxy sidecar sets the redirect URL for the host, and it
  // is the only one if and only if no two configured arguments side by side set one.
  ghost predicate RedirectsTo(q: PodState, host: string, neighbours: bool) {
    && |q.containers| >= 2
    && var args := q.containers[|q.containers| - 2].args;
       && args != [] && args[|args| - 1] == RedirectArg(host)
       && ((forall i :: 0 <= i < |args| - 1 ==> !IsRedirect(args[i])) <==> !neighbours)
  }

  // A StatefulSet pod gets a single redirect URL if and only if no two valid extra arguments
  // side by side set one.
  lemma TargetRedirect(p: PodState, rc: Resolved, ownerSuffix: Option<string>, env: Environment, podName: string)
    requires OneSidecarEach(p) && !p.deleting
    ensures var plan := PlanFor(p, rc, ownerSuffix, env);
            Admit(p, plan).Some? && POD_NAME_LABEL in Labelled(p.labels) && Labelled(p.labels)[POD_NAME_LABEL] == podName ==>
              RedirectsTo(Admit(p, plan).value, PodHost(RedirectBase(rc, env.digest), podName),
                          Neighbours(ValidArgs(rc.ExtraArgs())))
  {
    var plan := PlanFor(p, rc, ownerSuffix, env);
    if Admit(p, plan).Some? && POD_NAME_LABEL in Labelled(p.labels) && Labelled(p.labels)[POD_NAME_LABEL] == podName {
      NeighboursAreExtra(rc);
      RedirectUnder(p, plan, RedirectBase(rc, env.digest), Neighbours(ValidArgs(rc.ExtraArgs())), Admit(p, plan).value);
    }
  }

  lemma RedirectUnder(p: PodState, plan: Plan, base: string, neighbours: bool, q: PodState)
    requires OneSidecarEach(p) && !p.deleting && Admit(p, plan) == Some(q) && POD_NAME_LABEL in q.labels
    requires plan.redirectHost == base && (Neighbours(plan.oauth2Args) <==> neighbours)
    ensures RedirectsTo(q, PodHost(base, q.labels[POD_NAME_LABEL]), neighbours)
  {
    OneRedirectURL(p, plan, q);
  }

  // The secret is in the volume of the name, which the sidecar of the name mounts, unless the
  // pod came with a volume of that name and another kind.
  ghost predicate Mounts(p: PodState, q: PodState, s: (string, string)) {
    var i := VolumeIndex(q.volumes, s.0);
    && i < |q.volumes| && (Carries(q.volumes[i], s.1) <==> !Foreign(p.volumes, s.0))
    && exists c :: c in q.containers && c.name == s.0 && c.mounts != [] && c.mounts[0].volume == s.0
  }

  // Every secret that the configuration asks for is mounted that way.
  lemma TargetMounts(p: PodState, rc: Resolved, ownerSuffix: Option<string>, env: Environment)
    requires OneSidecarEach(p) && !p.deleting
    ensures var plan := PlanFor(p, rc, ownerSuffix, env);
            Admit(p, plan).Some? ==> forall s :: s in plan.secrets ==> Mounts(p, Admit(p, plan).value, s)
  {
    var plan := PlanFor(p, rc, ownerSuffix, env);
    if Admit(p, plan).Some? {
      SecretsInSidecarVolumes(rc, SuffixOf(ownerSuffix, env.digest, rc.workload));
      AllMountsUnder(p, plan, Admit(p, plan).value);
    }
  }

  lemma AllMountsUnder(p: PodState, plan: Plan, q: PodState)
    requires OneSidecarEach(p) && !p.deleting && Admit(p, plan) == Some(q)
    requires forall s :: s in plan.secrets ==> s.0 == OAUTH2_PROXY || s.0 == KUBE_RBAC_PROXY
    ensures forall s :: s in plan.secrets ==> Mounts(p, q, s)
  {
    forall s | s in plan.secrets ensures Mounts(p, q, s) {
      MountsUnder(p, plan, q, s);
    }
  }

  lemma MountsUnder(p: PodState, plan: Plan, q: PodState, s: (string, string))
    requires OneSidecarEach(p) && !p.deleting && Admit(p, plan) == Some(q) && s in plan.secrets
    requires s.0 == OAUTH2_PROXY || s.0 == KUBE_RBAC_PROXY
    ensures Mounts(p, q, s)
  {
    SecretCarried(p.volumes, plan.secrets, s);
    AdmittedContainers(p.containers, q.volumes, q.labels, plan, UpstreamURL(plan.upstream, p.containers));
    var n := |q.containers|;
    assert q.containers[n - 2] in q.containers && q.containers[n - 1] in q.containers;
    assert q.containers[n - 2].mounts[0].volume == OAUTH2_PROXY && q.containers[n - 1].mounts[0].volume == KUBE_RBAC_PROXY;
  }

  // A numeric target port goes into the upstream URL as it is, whatever the pod declares; a
  // name becomes the port that declares it first, and without one there is no URL.
  lemma TargetUpstream(rc: Resolved, containers: seq<Container>)
    ensures var port := rc.target.targetPort;
            var base := (if rc.target.targetProtocol == "https" then "https" else "http") + LOCALHOST;
            && (port.NumberPort? && -0x8000_0000 <= port.number < 0x8000_0000 ==>
                  UpstreamURL(rc.UpstreamTarget(), containers) == base + ":" + FormatInt(port.number))
            && (port.NamePort? && port.name != "" && !IsAtoi(port.name) ==>
                  UpstreamURL(rc.UpstreamTarget(), containers) == NamedURL(base, LookupPort(containers, port.name)))
  {
    UpstreamReadsBack(rc.target.targetProtocol, rc.target.targetPort);
    var port := rc.target.targetPort;
    if port.NumberPort? && -0x8000_0000 <= port.number < 0x8000_0000 {
      FormatIsAtoi(port.number);
    }
  }

  lemma FormatIsAtoi(n: int)
    requires -0x8000_0000 <= n < 0x8000_0000
    ensures IsAtoi(FormatInt(n)) && FormatInt(n) != ""
  {
    var digits := Itoa(if n < 0 then -n else n);
    DecimalOfItoa(if n < 0 then -n else n);
    assert IsDigit(digits[0]);
    if n < 0 {
      assert FormatInt(n)[0] == '-' && FormatInt(n)[1..] == digits;
    }
  }

  lemma RedirectArgDiffers(a: string, b: string)
    ensures RedirectArg(a) == RedirectArg(b) <==> a == b
  {
    var head, tail := REDIRECT_FLAG + "=https://", "/oauth2/callback";
    assert (head + a + tail)[|head|..|head + a|] == a && (head + b + tail)[|head|..|head + b|] == b;
    assert |head + a + tail| == |head + b + tail| ==> |a| == |b|;
  }

  // The sidecar sends users back to the host that the route of the pod serves.
  ghost predicate RedirectServed(q: PodState) {
    && |q.containers| >= 2 && HOST_KEY in q.annotations
    && var args := q.containers[|q.containers| - 2].args;
       args != [] && args[|args| - 1] == RedirectArg(RouteHost(q.annotations[HOST_KEY], q.labels))
  }

  // From the configuration to both ends: for every StatefulSet pod whose target sets no
  // redirect URL, the redirect URL in the admitted pod's arguments names the host that the
  // reconciler computes for the pod's route from the admitted pod's annotation and label, if
  // and only if the configured host contains a dot.
  lemma TargetServed(p: PodState, rc: Resolved, ownerSuffix: Option<string>, env: Environment, podName: string)
    requires OneSidecarEach(p) && !p.deleting && rc.target.own.oauth2Proxy.redirectURL == ""
    ensures var plan := PlanFor(p, rc, ownerSuffix, env);
            Admit(p, plan).Some? && POD_NAME_LABEL in Labelled(p.labels) && Labelled(p.labels)[POD_NAME_LABEL] == podName ==>
              (RedirectServed(Admit(p, plan).value) <==> '.' in rc.Host(env.digest))
  {
    var plan := PlanFor(p, rc, ownerSuffix, env);
    if Admit(p, plan).Some? && POD_NAME_LABEL in Labelled(p.labels) && Labelled(p.labels)[POD_NAME_LABEL] == podName {
      TargetRedirect(p, rc, ownerSuffix, env, podName);
      AnnotationIsHost(p, rc, ownerSuffix, env);
      var host, base := rc.Host(env.digest), RedirectBase(rc, env.digest);
      HostsAgree(rc, env.digest, Labelled(p.labels));
      ServedBy(Admit(p, plan).value, host, PodHost(base, podName), Neighbours(ValidArgs(rc.ExtraArgs())));
    }
  }

  lemma ServedBy(q: PodState, host: string, redirect: string, neighbours: bool)
    requires RedirectsTo(q, redirect, neighbours) && HOST_KEY in q.annotations && q.annotations[HOST_KEY] == host
    ensures RedirectServed(q) <==> redirect == RouteHost(host, q.labels)
  {
    RedirectArgDiffers(redirect, RouteHost(host, q.labels));
  }
}
