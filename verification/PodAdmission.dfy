// Properties of pod admission: it is called again on updates and on reinvocation, so a second
// admission must change nothing, and everything that is not a sidecar must stay as it was.

module PodAdmission {
  import opened Wrappers
  import opened GoStrings
  import opened RedirectArgs
  import opened PodMutation

  // ---------------------------------------------------------------- the admitted containers

  // The oauth2-proxy sidecar with its redirect URL settled.
  function FinalOAuth2(o: Container, labels: map<string, string>, plan: Plan): Container {
    if POD_NAME_LABEL in labels then
      o.(args := ScanDelete(o.args) + [RedirectArg(PodHost(plan.redirectHost, labels[POD_NAME_LABEL]))])
    else o
  }

  predicate NoSidecar(containers: seq<Container>) {
    forall i :: 0 <= i < |containers| ==> containers[i].name != OAUTH2_PROXY && containers[i].name != KUBE_RBAC_PROXY
  }

  lemma RedirectGoesTo(k: seq<Container>, o: Container, r: Container, labels: map<string, string>, plan: Plan)
    requires NoSidecar(k) && o.name == OAUTH2_PROXY
    ensures Redirected(k + [o, r], labels, plan) == k + [FinalOAuth2(o, labels, plan), r]
  {
    var all := k + [o, r];
    assert all[|k|] == o && forall j :: 0 <= j < |k| ==> all[j] == k[j];
    assert ContainerIndex(all, OAUTH2_PROXY) == |k|;
  }

  // What admission makes of the containers: the others in their order, then the two sidecars.
  function Admitted(containers: seq<Container>, volumes: seq<Volume>, labels: map<string, string>, plan: Plan,
                    url: string): seq<Container> {
    var o := OAuth2Container(containers, plan);
    OtherContainers(containers)
    + [FinalOAuth2(o, labels, plan), RbacContainer(volumes, Without(containers, OAUTH2_PROXY) + [o], plan, url)]
  }

  lemma AdmittedContainers(containers: seq<Container>, volumes: seq<Volume>, labels: map<string, string>, plan: Plan,
                           url: string)
    requires AtMostOne(containers, OAUTH2_PROXY) && AtMostOne(containers, KUBE_RBAC_PROXY)
    ensures Redirected(WithSidecars(containers, volumes, plan, url), labels, plan)
            == Admitted(containers, volumes, labels, plan, url)
    ensures NoSidecar(OtherContainers(containers))
  {
    var o := OAuth2Container(containers, plan);
    var r := RbacContainer(volumes, Without(containers, OAUTH2_PROXY) + [o], plan, url);
    SidecarsLast(containers, volumes, plan, url);
    OthersAreOthers(containers);
    RedirectGoesTo(OtherContainers(containers), o, r, labels, plan);
  }

  lemma WithoutSidecars(k: seq<Container>, o: Container, r: Container)
    requires NoSidecar(k) && o.name == OAUTH2_PROXY && r.name == KUBE_RBAC_PROXY
    ensures var all := k + [o, r];
            && Without(all, OAUTH2_PROXY) == k + [r] && OtherContainers(all) == k
            && AtMostOne(all, OAUTH2_PROXY) && AtMostOne(all, KUBE_RBAC_PROXY)
  {
    var all := k + [o, r];
    assert all == k + [o] + [r];
    WithoutAll(k, OAUTH2_PROXY);
    WithoutAll(k, KUBE_RBAC_PROXY);
    WithoutConcat(k + [o], [r], OAUTH2_PROXY);
    WithoutConcat(k, [o], OAUTH2_PROXY);
    WithoutOne(o, OAUTH2_PROXY);
    WithoutOne(r, OAUTH2_PROXY);
    assert Without(all, OAUTH2_PROXY) == k + [r];
    WithoutConcat(k, [r], KUBE_RBAC_PROXY);
    WithoutOne(r, KUBE_RBAC_PROXY);
  }

  // Both sidecars are rebuilt as they were, but for the upstream URL.
  lemma SidecarsAgain(containers: seq<Container>, volumes: seq<Volume>, labels: map<string, string>, plan: Plan,
                      url: string, url': string)
    requires NoSidecar(OtherContainers(containers))
    ensures var first := Admitted(containers, volumes, labels, plan, url);
            && AtMostOne(first, OAUTH2_PROXY) && AtMostOne(first, KUBE_RBAC_PROXY)
            && Admitted(first, volumes, labels, plan, url') == Admitted(containers, volumes, labels, plan, url')
  {
    var k := OtherContainers(containers);
    var o := OAuth2Container(containers, plan);
    var c := Without(containers, OAUTH2_PROXY) + [o];
    var o', r := FinalOAuth2(o, labels, plan), RbacContainer(volumes, c, plan, url);
    WithoutSidecars(k, o', r);
    assert k + [o', r] == k + [o'] + [r];
    RequestsKept(k, o', [r], OAUTH2_PROXY, containers);
    RequestsKept(k, r, [o], KUBE_RBAC_PROXY, c);
    assert k + [r] + [o] == Without(k + [o', r], OAUTH2_PROXY) + [o];
  }

  // ---------------------------------------------------------------- the upstream URL

  // The port a lookup finds after admission: that of another container, or a sidecar's own.
  function LookupAfter(containers: seq<Container>, port: string): Option<nat> {
    var found := LookupPort(OtherContainers(containers), port);
    if found.Some? then found
    else if port == "oauth2" then Some(8000)
    else if port == "rbac" then Some(8100)
    else None
  }

  // The upstream port means the same before and after admission.
  predicate StablePort(port: string, containers: seq<Container>) {
    port == "" || IsAtoi(port) || LookupPort(containers, port) == LookupAfter(containers, port)
  }

  lemma {:induction false} LookupConcat(a: seq<Container>, b: seq<Container>, port: string)
    ensures LookupPort(a + b, port) == if LookupPort(a, port).Some? then LookupPort(a, port) else LookupPort(b, port)
  {
    if a == [] {
      assert a + b == b;
    } else {
      LookupConcat(a[1..], b, port);
      assert (a + b)[0] == a[0] && (a + b)[1..] == a[1..] + b;
    }
  }

  lemma LookupSidecars(k: seq<Container>, o: Container, r: Container, port: string)
    requires o.ports == [ContainerPort("oauth2", 8000)] && r.ports == [ContainerPort("rbac", 8100)]
    ensures LookupPort(k + [o, r], port)
            == if LookupPort(k, port).Some? then LookupPort(k, port)
               else if port == "oauth2" then Some(8000) else if port == "rbac" then Some(8100) else None
  {
    LookupConcat(k, [o, r], port);
    assert [o, r][1..] == [r];
    LookupOne(o, port);
    LookupOne(r, port);
    LookupConcat([o], [r], port);
    assert [o] + [r] == [o, r];
  }

  lemma LookupOne(c: Container, port: string)
    requires |c.ports| == 1
    ensures LookupPort([c], port) == if c.ports[0].name == port then Some(c.ports[0].number) else None
  {
    assert PortNamed(c.ports[1..], port) == None && LookupPort([c][1..], port) == None;
  }

  // The URL is the same after admission if and only if the port is stable.
  lemma UpstreamAgain(containers: seq<Container>, volumes: seq<Volume>, labels: map<string, string>, plan: Plan,
                      url: string)
    ensures (UpstreamURL(plan.upstream, Admitted(containers, volumes, labels, plan, url))
             == UpstreamURL(plan.upstream, containers)) <==> StablePort(PortOf(plan.upstream), containers)
  {
    var port := PortOf(plan.upstream);
    var base := ProtocolOf(plan.upstream) + LOCALHOST;
    var o := OAuth2Container(containers, plan);
    var after := Admitted(containers, volumes, labels, plan, url);
    LookupSidecars(OtherContainers(containers), FinalOAuth2(o, labels, plan),
                   RbacContainer(volumes, Without(containers, OAUTH2_PROXY) + [o], plan, url), port);
    assert LookupPort(after, port) == LookupAfter(containers, port);
    SameURL(base, LookupPort(after, port), LookupPort(containers, port));
  }

  function NamedURL(base: string, found: Option<nat>): string {
    if found.Some? then base + ":" + Itoa(found.value) else ""
  }

  lemma SameURL(base: string, a: Option<nat>, b: Option<nat>)
    ensures NamedURL(base, a) == NamedURL(base, b) <==> a == b
  {
    if a.Some? && b.Some? && NamedURL(base, a) == NamedURL(base, b) {
      assert NamedURL(base, a)[|base| + 1..] == Itoa(a.value);
      assert NamedURL(base, b)[|base| + 1..] == Itoa(b.value);
      ItoaInjective(a.value, b.value);
    }
  }

  // ---------------------------------------------------------------- admission again

  lemma UpstreamShows(plan: Plan, a: string, b: string)
    ensures RbacArgs(plan, a) == RbacArgs(plan, b) <==> a == b
  {
    var i := |plan.rbacArgs.0|;
    assert RbacArgs(plan, a)[i] == UPSTREAM_ARG + a && RbacArgs(plan, b)[i] == UPSTREAM_ARG + b;
    assert (UPSTREAM_ARG + a)[|UPSTREAM_ARG|..] == a && (UPSTREAM_ARG + b)[|UPSTREAM_ARG|..] == b;
  }

  predicate OneSidecarEach(p: PodState) {
    AtMostOne(p.containers, OAUTH2_PROXY) && AtMostOne(p.containers, KUBE_RBAC_PROXY)
  }

  predicate Tidy(plan: Plan) {
    SUFFIX_KEY !in plan.annotations && COMPONENT_KEY !in plan.annotations
  }

  lemma KeysDiffer()
    ensures COMPONENT_KEY != SUFFIX_KEY
  {
    assert |COMPONENT_KEY| != |SUFFIX_KEY|;
  }

  lemma AnnotatedAgain(p: PodState, plan: Plan, q: PodState, component: string, suffix: string)
    requires component != suffix && component == COMPONENT_KEY && suffix == SUFFIX_KEY
    requires suffix !in plan.annotations && component !in plan.annotations
    requires q.name == p.name && q.annotations == Annotated(p, plan)
    ensures Annotated(q, plan) == q.annotations
  {
    assert q.annotations[suffix] == if suffix in p.annotations then p.annotations[suffix] else plan.podSuffix;
  }

  lemma MetadataAgain(p: PodState, plan: Plan, q: PodState)
    requires Tidy(plan) && !p.deleting
    ensures Admit(p, plan) == Some(q) ==>
              && Annotated(q, plan) == q.annotations && Labelled(q.labels) == q.labels
              && WithPullSecret(q.pullSecrets, plan.pullSecret) == q.pullSecrets
              && AddSources(q.volumes, plan.secrets) == Some(q.volumes)
  {
    if Admit(p, plan) == Some(q) {
      VolumesTwice(p.volumes, plan.secrets);
      KeysDiffer();
      AnnotatedAgain(p, plan, q, COMPONENT_KEY, SUFFIX_KEY);
    }
  }

  // The second admission of an admitted pod differs in the upstream URL at most.
  lemma AdmittedAgain(p: PodState, plan: Plan, q: PodState)
    requires Tidy(plan) && OneSidecarEach(p) && !p.deleting && Admit(p, plan) == Some(q)
    ensures OneSidecarEach(q) && Admit(q, plan).Some?
    ensures Admit(q, plan) == Some(q) <==> StablePort(PortOf(plan.upstream), p.containers)
  {
    var url := UpstreamURL(plan.upstream, p.containers);
    var labels := q.labels;
    AdmittedContainers(p.containers, q.volumes, labels, plan, url);
    assert q.containers == Admitted(p.containers, q.volumes, labels, plan, url);
    var url' := UpstreamURL(plan.upstream, q.containers);
    SidecarsAgain(p.containers, q.volumes, labels, plan, url, url');
    MetadataAgain(p, plan, q);
    AdmittedContainers(q.containers, q.volumes, labels, plan, url');
    var q' := Admit(q, plan).value;
    assert q'.containers == Admitted(p.containers, q.volumes, labels, plan, url');
    UpstreamAgain(p.containers, q.volumes, labels, plan, url);
    UpstreamShows(plan, url, url');
    DiffersInUpstream(p.containers, q.volumes, labels, plan, url, url');
    assert q' == q.(containers := q'.containers);
  }

  // Admission is idempotent if and only if the upstream port is stable: an empty or numeric
  // port, or a name that finds the same port in the pod as it comes and among its other
  // containers followed by the two sidecars. A pod that did not make admission panic does not
  // the second time.
  lemma AdmissionIdempotent(p: PodState, plan: Plan, q: PodState)
    requires Tidy(plan) && OneSidecarEach(p) && !p.deleting
    ensures Admit(p, plan) == Some(q) ==>
              && OneSidecarEach(q) && Admit(q, plan).Some?
              && (Admit(q, plan) == Some(q) <==> StablePort(PortOf(plan.upstream), p.containers))
  {
    if Admit(p, plan) == Some(q) {
      AdmittedAgain(p, plan, q);
    }
  }

  lemma DiffersInUpstream(containers: seq<Container>, volumes: seq<Volume>, labels: map<string, string>, plan: Plan,
                          a: string, b: string)
    ensures Admitted(containers, volumes, labels, plan, a) == Admitted(containers, volumes, labels, plan, b)
            <==> RbacArgs(plan, a) == RbacArgs(plan, b)
  {
    var x, y := Admitted(containers, volumes, labels, plan, a), Admitted(containers, volumes, labels, plan, b);
    assert x[|x| - 1].args == RbacArgs(plan, a) && y[|y| - 1].args == RbacArgs(plan, b);
  }

  // A port that no sidecar is asked for is stable: a number, or a name that is neither of the
  // sidecars' own and that no sidecar already in the pod declares.
  lemma OrdinaryPortStable(port: string, containers: seq<Container>)
    requires port == "" || IsAtoi(port)
             || (port != "oauth2" && port != "rbac"
                 && forall c :: c in containers && (c.name == OAUTH2_PROXY || c.name == KUBE_RBAC_PROXY)
                                ==> PortNamed(c.ports, port).None?)
    ensures StablePort(port, containers)
  {
    if !(port == "" || IsAtoi(port)) {
      LookupWithout(containers, OAUTH2_PROXY, port);
      var rest := Without(containers, OAUTH2_PROXY);
      var at := WithoutFrom(containers, OAUTH2_PROXY);
      assert forall c :: c in rest ==> c in containers;
      LookupWithout(rest, KUBE_RBAC_PROXY, port);
    }
  }

  lemma {:induction false} LookupWithout(containers: seq<Container>, name: string, port: string)
    requires forall c :: c in containers && c.name == name ==> PortNamed(c.ports, port).None?
    ensures LookupPort(Without(containers, name), port) == LookupPort(containers, port)
  {
    if containers != [] {
      LookupWithout(containers[1..], name, port);
      if containers[0].name != name {
        assert ([containers[0]] + Without(containers[1..], name))[1..] == Without(containers[1..], name);
      }
    }
  }

  lemma {:induction false} LookupFewer(containers: seq<Container>, name: string, port: string)
    requires LookupPort(containers, port).None?
    ensures LookupPort(Without(containers, name), port).None?
  {
    if containers != [] {
      LookupFewer(containers[1..], name, port);
      if containers[0].name != name {
        assert ([containers[0]] + Without(containers[1..], name))[1..] == Without(containers[1..], name);
      }
    }
  }

  lemma OwnPortUnstable(port: string, containers: seq<Container>)
    requires (port == "oauth2" || port == "rbac") && LookupPort(containers, port).None?
    ensures !StablePort(port, containers)
  {
    assert !IsDigit(port[0]);
    LookupFewer(containers, OAUTH2_PROXY, port);
    LookupFewer(Without(containers, OAUTH2_PROXY), KUBE_RBAC_PROXY, port);
  }

  // For pods that come without sidecars: a port is unstable if and only if it is one of the
  // sidecars' own and the pod does not declare it.
  lemma NewPodStable(port: string, containers: seq<Container>)
    requires NoSidecar(containers)
    ensures StablePort(port, containers)
            <==> !((port == "oauth2" || port == "rbac") && LookupPort(containers, port).None?)
  {
    WithoutAll(containers, OAUTH2_PROXY);
    WithoutAll(containers, KUBE_RBAC_PROXY);
    if (port == "oauth2" || port == "rbac") && LookupPort(containers, port).None? {
      OwnPortUnstable(port, containers);
    }
  }

  // The exception is real: a target port named after a sidecar's own port, on any pod that
  // does not declare it, is not found on the first admission and is found on the second.
  lemma NotAlwaysIdempotent(p: PodState, plan: Plan, port: string)
    requires Tidy(plan) && OneSidecarEach(p) && !p.deleting
    requires (port == "oauth2" || port == "rbac") && LookupPort(p.containers, port).None?
    ensures PortOf(plan.upstream) == port && Admit(p, plan).Some? ==>
              Admit(Admit(p, plan).value, plan) != Admit(p, plan)
  {
    if PortOf(plan.upstream) == port && Admit(p, plan).Some? {
      OwnPortUnstable(port, p.containers);
      AdmissionIdempotent(p, plan, Admit(p, plan).value);
    }
  }

  lemma {:induction false} LookupFirst(containers: seq<Container>, port: string, i: nat)
    requires i < |containers| && PortNamed(containers[i].ports, port).Some?
    requires forall j :: 0 <= j < i ==> PortNamed(containers[j].ports, port).None?
    ensures LookupPort(containers, port) == PortNamed(containers[i].ports, port)
  {
    if i > 0 {
      LookupFirst(containers[1..], port, i - 1);
    }
  }

  // The other exception: an old sidecar is the first container to declare the port. Its
  // declaration goes with it, so admission is idempotent if and only if the other containers
  // declare the same number first; one that it shadows with another number, or no
  // declaration besides its own, makes the second admission differ.
  lemma ShadowedPort(p: PodState, plan: Plan, port: string, i: nat)
    requires Tidy(plan) && OneSidecarEach(p) && !p.deleting
    requires port != "" && !IsAtoi(port) && port != "oauth2" && port != "rbac"
    requires i < |p.containers| && (p.containers[i].name == OAUTH2_PROXY || p.containers[i].name == KUBE_RBAC_PROXY)
    requires PortNamed(p.containers[i].ports, port).Some?
    requires forall j :: 0 <= j < i ==> PortNamed(p.containers[j].ports, port).None?
    ensures PortOf(plan.upstream) == port && Admit(p, plan).Some? ==>
              (Admit(Admit(p, plan).value, plan) == Admit(p, plan)
               <==> LookupPort(OtherContainers(p.containers), port) == PortNamed(p.containers[i].ports, port))
  {
    if PortOf(plan.upstream) == port && Admit(p, plan).Some? {
      LookupFirst(p.containers, port, i);
      AdmissionIdempotent(p, plan, Admit(p, plan).value);
    }
  }

  // At an input: an old sidecar that declares the target port with another number than the
  // application behind it.
  lemma ShadowingSidecar(p: PodState, plan: Plan, port: string, stale: Container, app: Container)
    requires Tidy(plan) && !p.deleting && p.containers == [stale, app]
    requires stale.name == OAUTH2_PROXY && app.name != OAUTH2_PROXY && app.name != KUBE_RBAC_PROXY
    requires port != "" && !IsAtoi(port) && port != "oauth2" && port != "rbac"
    requires stale.ports == [ContainerPort(port, 9090)] && app.ports == [ContainerPort(port, 8080)]
    ensures PortOf(plan.upstream) == port && Admit(p, plan).Some? ==>
              Admit(Admit(p, plan).value, plan) != Admit(p, plan)
  {
    ShadowedPort(p, plan, port, 0);
    assert p.containers == [stale] + [app];
    WithoutConcat([stale], [app], OAUTH2_PROXY);
    WithoutOne(stale, OAUTH2_PROXY);
    WithoutOne(app, OAUTH2_PROXY);
    WithoutOne(app, KUBE_RBAC_PROXY);
    LookupOne(app, port);
    assert OtherContainers(p.containers) == [app];
  }

  // The frame: every container that is not a sidecar and every volume that is not a sidecar's
  // keeps content and order, and each sidecar is there exactly once.
  lemma AdmissionFrame(p: PodState, plan: Plan, q: PodState)
    requires Tidy(plan) && OneSidecarEach(p) && !p.deleting && Admit(p, plan) == Some(q)
    requires forall s :: s in plan.secrets ==> s.0 in {OAUTH2_PROXY, KUBE_RBAC_PROXY}
    ensures |q.containers| >= 2 && q.containers[..|q.containers| - 2] == OtherContainers(p.containers)
    ensures NoSidecar(OtherContainers(p.containers))
    ensures q.containers[|q.containers| - 2].name == OAUTH2_PROXY
    ensures q.containers[|q.containers| - 1].name == KUBE_RBAC_PROXY
    ensures OtherVolumes(q.volumes, {OAUTH2_PROXY, KUBE_RBAC_PROXY}) == OtherVolumes(p.volumes, {OAUTH2_PROXY, KUBE_RBAC_PROXY})
    ensures p.pullSecrets <= q.pullSecrets
    ensures (q.name, q.namespace, q.deleting) == (p.name, p.namespace, false)
  {
    AdmittedContainers(p.containers, q.volumes, q.labels, plan, UpstreamURL(plan.upstream, p.containers));
    OtherVolumesKept(p.volumes, plan.secrets, {OAUTH2_PROXY, KUBE_RBAC_PROXY});
  }

  lemma AnnotationsKept(p: PodState, plan: Plan, component: string, suffix: string, key: string)
    requires component == COMPONENT_KEY && suffix == SUFFIX_KEY && component != suffix && suffix !in plan.annotations
    ensures var after := Annotated(p, plan);
            && (suffix in p.annotations ==> suffix in after && after[suffix] == p.annotations[suffix])
            && (key in p.annotations && key !in plan.annotations && key != component ==>
                  key in after && after[key] == p.annotations[key])
  {
  }

  // Annotations and labels get what is written there and keep everything else; a suffix that
  // is there stays.
  lemma MetadataFrame(p: PodState, plan: Plan, key: string)
    requires Tidy(plan)
    ensures var after := Annotated(p, plan);
            && (SUFFIX_KEY in p.annotations ==> SUFFIX_KEY in after && after[SUFFIX_KEY] == p.annotations[SUFFIX_KEY])
            && (key in p.annotations && key !in plan.annotations && key != COMPONENT_KEY ==>
                  key in after && after[key] == p.annotations[key])
    ensures key != COMPONENT_KEY ==> (key in Labelled(p.labels) <==> key in p.labels)
    ensures key != COMPONENT_KEY && key in p.labels ==> Labelled(p.labels)[key] == p.labels[key]
  {
    KeysDiffer();
    AnnotationsKept(p, plan, COMPONENT_KEY, SUFFIX_KEY, key);
  }

  // In a StatefulSet pod the admitted sidecar has a single redirect URL, the last argument and
  // that of the pod's own host, if and only if the configured arguments do not put two side
  // by side; its other arguments are there in their order in any case.
  lemma OneRedirectURL(p: PodState, plan: Plan, q: PodState)
    requires OneSidecarEach(p) && !p.deleting && Admit(p, plan) == Some(q) && POD_NAME_LABEL in q.labels
    ensures |q.containers| >= 2
    ensures var args := q.containers[|q.containers| - 2].args;
            && args != [] && args[|args| - 1] == RedirectArg(PodHost(plan.redirectHost, q.labels[POD_NAME_LABEL]))
            && RedirectArgs.Others(args) == RedirectArgs.Others(plan.oauth2Args)
            && ((forall i :: 0 <= i < |args| - 1 ==> !IsRedirect(args[i])) <==> !Neighbours(plan.oauth2Args))
  {
    AdmittedContainers(p.containers, q.volumes, q.labels, plan, UpstreamURL(plan.upstream, p.containers));
    var redirect := RedirectArg(PodHost(plan.redirectHost, q.labels[POD_NAME_LABEL]));
    assert IsRedirect(redirect) by {
      IsRedirectArg(PodHost(plan.redirectHost, q.labels[POD_NAME_LABEL]));
    }
    OneRedirect(plan.oauth2Args, redirect);
    assert q.containers[|q.containers| - 2].args == ScanDelete(plan.oauth2Args) + [redirect];
  }

  lemma IsRedirectArg(host: string)
    ensures IsRedirect(RedirectArg(host))
  {
  }
}
