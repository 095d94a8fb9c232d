// The dependency reconcile as it runs: sequenced calls to the API server, any of which may
// fail, with early returns (pkg/controllers/modifiers.go).

module OwnedReconciler {
  import opened Wrappers
  import opened Configuration
  import opened PodMutation
  import opened SidecarPlan
  import opened Hosts
  import opened OwnedResources
  import opened OwnedRuns

  // The steps have been carried out, or some first ones of them and then a call has failed.
  ghost predicate Carried(store: Store, steps: seq<Step>, after: Store, outcome: Outcome) {
    || (after, outcome) == Execute(store, steps)
    || (outcome == Failed && exists n :: CutAt(store, steps, after, n))
  }

  predicate CutAt(store: Store, steps: seq<Step>, after: Store, n: nat) {
    n <= |steps| && after == Execute(store, steps[..n]).0
  }

  lemma CarriedReach(store: Store, steps: seq<Step>, after: Store, outcome: Outcome) returns (reach: nat)
    requires Carried(store, steps, after, outcome)
    ensures after == Execute(store, Cut(steps, reach)).0
    ensures outcome != Failed ==> reach >= |steps|
  {
    if (after, outcome) == Execute(store, steps) {
      reach := |steps|;
    } else {
      reach :| CutAt(store, steps, after, reach);
      assert steps[..|steps|] == steps;
    }
  }

  lemma SameSteps(pass: Pass, c: Contents, reach: nat)
    ensures AllSteps(pass.(reach := reach), c) == AllSteps(pass, c)
  {
  }

  // Either way it is a pass of the runs, with its reach.
  lemma CarriedIsPass(store: Store, pass: Pass, c: Contents, after: Store, outcome: Outcome) returns (reach: nat)
    requires Carried(store, AllSteps(pass, c), after, outcome)
    ensures after == Execute(store, StepsOf(pass.(reach := reach), c)).0
    ensures outcome != Failed ==> reach >= |AllSteps(pass, c)|
  {
    reach := CarriedReach(store, AllSteps(pass, c), after, outcome);
    SameSteps(pass, c, reach);
  }

  lemma {:induction false} ExecuteConcat(store: Store, a: seq<Step>, b: seq<Step>)
    requires HaltsFail(a)
    ensures Execute(store, a + b)
            == if Execute(store, a).1 == Done then Execute(Execute(store, a).0, b) else Execute(store, a)
    decreases |a|
  {
    if a == [] {
      assert a + b == b;
    } else {
      assert (a + b)[0] == a[0] && (a + b)[1..] == a[1..] + b;
      if a[0].Write? {
        ExecuteConcat(Written(store, a[0].key, a[0].owner, a[0].change), a[1..], b);
      } else {
        assert a[0] in a;
      }
    }
  }

  // A list of steps that ends early ends the longer list as well.
  lemma CarriedStops(store: Store, a: seq<Step>, after: Store, outcome: Outcome, b: seq<Step>)
    requires HaltsFail(a) && Carried(store, a, after, outcome) && outcome != Done
    ensures Carried(store, a + b, after, outcome)
  {
    if (after, outcome) == Execute(store, a) {
      ExecuteConcat(store, a, b);
    } else {
      var n: nat :| CutAt(store, a, after, n);
      assert (a + b)[..n] == a[..n];
      assert CutAt(store, a + b, after, n);
    }
  }

  lemma CarriedOn(store: Store, a: seq<Step>, between: Store, b: seq<Step>, after: Store, outcome: Outcome)
    requires HaltsFail(a) && Carried(store, a, between, Done) && Carried(between, b, after, outcome)
    ensures Carried(store, a + b, after, outcome)
  {
    ExecuteConcat(store, a, b);
    if (after, outcome) != Execute(between, b) {
      var n: nat :| CutAt(between, b, after, n);
      ExecuteConcat(store, a, b[..n]);
      assert (a + b)[..|a| + n] == a + b[..n];
      assert CutAt(store, a + b, after, |a| + n);
    }
  }

  // A call that fails before any further step.
  lemma CarriedFails(store: Store, steps: seq<Step>)
    ensures Carried(store, steps, store, Failed)
  {
    assert steps[..0] == [];
    assert CutAt(store, steps, store, 0);
  }

  lemma ExecuteOne(store: Store, step: Step)
    ensures Execute(store, [step])
            == if step.Write? then (Written(store, step.key, step.owner, step.change), Done) else (store, step.outcome)
  {
    assert [step][1..] == [];
  }

  class Cluster {
    var objects: Store

    constructor ()
      ensures objects == map[]
    {
      objects := map[];
    }

    // CreateOrUpdate: an object that the change leaves as it is, is not written.
    method ReconcileOwnedResource(key: Key, owner: Owner, change: Change) returns (outcome: Outcome)
      modifies this
      ensures outcome == Done || outcome == Failed
      ensures objects == if outcome == Done then Written(old(objects), key, owner, change) else old(objects)
      ensures Carried(old(objects), [Write(key, owner, change)], objects, outcome)
    {
      ExecuteOne(objects, Write(key, owner, change));
      CarriedFails(objects, [Write(key, owner, change)]);
      var up: bool := *;
      if !up {
        return Failed;
      }
      if key !in objects {
        up := *;
        if !up {
          return Failed;
        }
        var created := Changed(NewObject(key.kind), change);
        objects := objects[key := created.(owners := Owned(created.owners, owner))];
      } else {
        var existing := objects[key];
        var o := Changed(existing, change);
        o := o.(owners := Owned(o.owners, owner));
        if o != existing {
          up := *;
          if !up {
            return Failed;
          }
          objects := objects[key := o];
        }
      }
      return Done;
    }

    method ReconcileOAuth2Secret(rc: Resolved, w: Workload, c: Contents, random: string) returns (outcome: Outcome)
      modifies this
      ensures Carried(old(objects), [OAuth2Step(rc, w, c, random)], objects, outcome)
    {
      var config := ControllerConfig(rc, c.env);
      outcome := ReconcileOwnedResource(OwnSecret(OAUTH2_PROXY, w, c.env.digest), OwnerOf(w),
                                        OAuth2Change(config, c.env.digest(config), random));
    }

    method ReconcileKubeConfig(rc: Resolved, w: Workload, c: Contents) returns (outcome: Outcome)
      modifies this
      ensures Carried(old(objects), KubeConfigSteps(rc, w, c), objects, outcome)
    {
      if rc.KubeConfigStr().text == "" {
        return Done;
      }
      ExecuteOne(objects, KubeConfigSteps(rc, w, c)[0]);
      var content := KubeConfigContent(rc, c);
      if content.None? {
        return Failed;
      }
      outcome := ReconcileOwnedResource(OwnSecret(KUBECONFIG, w, c.env.digest), OwnerOf(w),
                                        StringsChange("kubeconfig", map["kubeconfig" := content.value]));
    }

    method ReconcileOidcCa(rc: Resolved, w: Workload, c: Contents) returns (outcome: Outcome)
      modifies this
      ensures Carried(old(objects), OidcCaSteps(rc, w, c), objects, outcome)
    {
      if rc.OidcCABundle() == "" {
        return Done;
      }
      outcome := ReconcileOwnedResource(OwnSecret(OIDC_CA, w, c.env.digest), OwnerOf(w),
                                        StringsChange("oidc-ca", map["ca.crt" := rc.OidcCABundle()]));
    }

    // The resource attributes, kubeconfig and CA secrets.
    method ReconcileSecrets(rc: Resolved, w: Workload, c: Contents) returns (outcome: Outcome)
      modifies this
      ensures Carried(old(objects), SecretSteps(rc, w, c), objects, outcome)
    {
      ghost var before := objects;
      ghost var first, kube, ca := [AttributesStep(w, c)], KubeConfigSteps(rc, w, c), OidcCaSteps(rc, w, c);
      SecretWrites(rc, w, c);
      assert HaltsFail(first) && HaltsFail(first + kube);
      outcome := ReconcileOwnedResource(OwnSecret(RESOURCE_ATTRIBUTES, w, c.env.digest), OwnerOf(w), AttributesStep(w, c).change);
      if outcome != Done {
        CarriedStops(before, first, objects, outcome, kube);
        CarriedStops(before, first + kube, objects, outcome, ca);
        return;
      }
      ghost var between := objects;
      outcome := ReconcileKubeConfig(rc, w, c);
      CarriedOn(before, first, between, kube, objects, outcome);
      if outcome != Done {
        CarriedStops(before, first + kube, objects, outcome, ca);
        return;
      }
      between := objects;
      outcome := ReconcileOidcCa(rc, w, c);
      CarriedOn(before, first + kube, between, ca, objects, outcome);
    }

    method ReconcileService(rc: Resolved, w: Workload, digest: Digest) returns (outcome: Outcome)
      modifies this
      ensures Carried(old(objects), ServiceSteps(rc, w, digest), objects, outcome)
    {
      ExecuteOne(objects, ServiceSteps(rc, w, digest)[0]);
      if rc.target.labelSelector.None? {
        return Panicked;
      }
      outcome := ReconcileOwnedResource(Key(ServiceKind, w.id.namespace, ServiceName(digest, w.id, w.labels)), OwnerOf(w),
                                        ServiceChange(rc.target.labelSelector.value));
    }

    method ReconcileRoute(rc: Resolved, w: Workload, name: string, host: string, backend: string) returns (outcome: Outcome)
      modifies this
      ensures Carried(old(objects), RouteSteps(rc, w, name, host, backend), objects, outcome)
    {
      if !rc.ShallCreateHTTPRoute() {
        return Done;
      }
      outcome := ReconcileOwnedResource(Key(RouteKind, w.id.namespace, name), OwnerOf(w),
        RouteChange(host, backend, rc.target.httpRoute.value.annotations, rc.target.httpRoute.value.labels));
    }

    // Empty patches: the loops over autoscalers and their policies write nothing.
    method PatchVpa(rc: Resolved, w: Workload, c: Contents) returns (outcome: Outcome)
      ensures Carried(objects, VpaSteps(rc, w, c), objects, outcome)
    {
      CarriedFails(objects, VpaSteps(rc, w, c));
      if c.autoscaling.Unregistered? {
        return Done;
      }
      if VpaSteps(rc, w, c) != [] { ExecuteOne(objects, VpaSteps(rc, w, c)[0]); }
      if rc.target.labelSelector.None? {
        return Panicked;
      }
      var up: bool := *;
      if !up {
        return Failed;
      }
      var selector, vpas := rc.target.labelSelector.value, c.autoscaling.vpas;
      for i := 0 to |vpas|
        invariant !Unguarded(selector, w.id.namespace, vpas[..i])
      {
        if vpas[i].namespace == w.id.namespace && Selects(selector, vpas[i].labels) {
          if vpas[i].policies.None? {
            assert vpas[i] in vpas;
            return Panicked;
          }
          var policies := vpas[i].policies.value;
          for j := 0 to |policies| {
            if policies[j] != OAUTH2_PROXY && policies[j] != KUBE_RBAC_PROXY {
              up := *;
              if !up {
                return Failed;
              }
            }
          }
        }
      }
      assert vpas[..|vpas|] == vpas;
      return Done;
    }

    method ReconcileLast(rc: Resolved, w: Workload, c: Contents) returns (outcome: Outcome)
      modifies this
      ensures Carried(old(objects), LastSteps(rc, w, c), objects, outcome)
    {
      ghost var before := objects;
      ghost var route := DeploymentRoute(rc, w, c.env.digest);
      outcome := ReconcileRoute(rc, w, Named(ROUTE, NameHash(c.env.digest, w.id)), rc.Host(c.env.digest),
                                DeploymentBackend(c.env.digest, w.id));
      if outcome != Done {
        CarriedStops(before, route, objects, outcome, VpaSteps(rc, w, c));
        return;
      }
      ghost var between := objects;
      outcome := PatchVpa(rc, w, c);
      CarriedOn(before, route, between, VpaSteps(rc, w, c), objects, outcome);
    }

    method ReconcileDeploymentDependencies(rc: Resolved, w: Workload, deleting: bool, c: Contents, random: string)
      returns (outcome: Outcome)
      modifies this
      ensures deleting ==> outcome == Done && objects == old(objects)
      ensures !deleting ==> Carried(old(objects), DeploymentSteps(rc, w, c, random), objects, outcome)
    {
      if deleting {
        return Done;
      }
      ghost var s0 := objects;
      ghost var first, service := [OAuth2Step(rc, w, c, random)], ServiceSteps(rc, w, c.env.digest);
      ghost var secrets, last := SecretSteps(rc, w, c), LastSteps(rc, w, c);
      SecretWrites(rc, w, c);
      outcome := ReconcileOAuth2Secret(rc, w, c, random);
      ghost var s1, o1 := objects, outcome;
      if outcome == Done {
        outcome := ReconcileService(rc, w, c.env.digest);
      }
      ghost var s2, o2 := objects, outcome;
      if outcome == Done {
        outcome := ReconcileSecrets(rc, w, c);
      }
      ghost var s3, o3 := objects, outcome;
      if outcome == Done {
        outcome := ReconcileLast(rc, w, c);
      }
      FourParts(s0, first, s1, o1, service, s2, o2, secrets, s3, o3, last, objects, outcome);
    }

    method ReconcileStatefulSetDependencies(rc: Resolved, w: Workload, deleting: bool,
                                            pods: seq<(Workload, map<string, string>)>, c: Contents, random: string)
      returns (outcome: Outcome)
      modifies this
      ensures deleting ==> outcome == Done && objects == old(objects)
      ensures !deleting ==> Carried(old(objects), StatefulSetSteps(rc, w, pods, c, random), objects, outcome)
    {
      if deleting {
        return Done;
      }
      ghost var s0 := objects;
      ghost var first, pod := [OAuth2Step(rc, w, c, random)], PodsSteps(rc, pods, c.env.digest);
      ghost var secrets, vpa := SecretSteps(rc, w, c), VpaSteps(rc, w, c);
      SecretWrites(rc, w, c);
      PodsStepsPlain(rc, pods, c.env.digest);
      outcome := ReconcileOAuth2Secret(rc, w, c, random);
      ghost var s1, o1 := objects, outcome;
      if outcome == Done {
        outcome := ReconcilePods(rc, pods, c.env.digest);
      }
      ghost var s2, o2 := objects, outcome;
      if outcome == Done {
        outcome := ReconcileSecrets(rc, w, c);
      }
      ghost var s3, o3 := objects, outcome;
      if outcome == Done {
        outcome := PatchVpa(rc, w, c);
      }
      FourParts(s0, first, s1, o1, pod, s2, o2, secrets, s3, o3, vpa, objects, outcome);
    }

    // The pods of the StatefulSet are listed and looped over.
    method ReconcilePods(rc: Resolved, pods: seq<(Workload, map<string, string>)>, digest: Digest) returns (outcome: Outcome)
      modifies this
      ensures Carried(old(objects), PodsSteps(rc, pods, digest), objects, outcome)
    {
      ghost var before, done := objects, [];
      CarriedFails(objects, PodsSteps(rc, pods, digest));
      var up: bool := *;
      if !up {
        return Failed;
      }
      PodsStepsPlain(rc, pods, digest);
      assert pods[0..] == pods && done + PodsSteps(rc, pods, digest) == PodsSteps(rc, pods, digest);
      for i := 0 to |pods|
        invariant done + PodsSteps(rc, pods[i..], digest) == PodsSteps(rc, pods, digest)
        invariant AllWrites(done) && Carried(before, done, objects, Done)
      {
        assert pods[i..][0] == pods[i] && pods[i..][1..] == pods[i + 1..];
        ghost var own, rest := PodSteps(rc, pods[i].1, pods[i].0, digest), PodsSteps(rc, pods[i + 1..], digest);
        PodsStepsPlain(rc, pods[i..], digest);
        assert AllWrites(own) && done + own + rest == done + (own + rest);
        ghost var between := objects;
        outcome := ReconcilePod(rc, pods[i].1, pods[i].0, digest);
        CarriedOn(before, done, between, own, objects, outcome);
        if outcome != Done {
          CarriedStops(before, done + own, objects, outcome, rest);
          return;
        }
        done := done + own;
      }
      assert pods[|pods|..] == [] && done + [] == done;
      return Done;
    }

    // One pod of the list; pods that have not been admitted are passed over.
    method ReconcilePod(rc: Resolved, selector: map<string, string>, pod: Workload, digest: Digest) returns (outcome: Outcome)
      modifies this
      ensures Carried(old(objects), PodSteps(rc, selector, pod, digest), objects, outcome)
    {
      if HOST_KEY !in pod.annotations {
        return Done;
      }
      var selectors := selector;
      if POD_NAME_LABEL in pod.labels {
        selectors := map[POD_NAME_LABEL := pod.labels[POD_NAME_LABEL]];
      }
      var service := ServiceName(digest, pod.id, pod.labels);
      var host := RouteHost(pod.annotations[HOST_KEY], pod.labels);
      ghost var before := objects;
      ghost var first := [Write(Key(ServiceKind, pod.id.namespace, service), OwnerOf(pod), ServiceChange(selectors))];
      ghost var route := RouteSteps(rc, pod, PodRouteName(digest, pod.id, pod.labels), host, service);
      outcome := ReconcileOwnedResource(Key(ServiceKind, pod.id.namespace, service), OwnerOf(pod), ServiceChange(selectors));
      if outcome != Done {
        CarriedStops(before, first, objects, outcome, route);
        return;
      }
      ghost var between := objects;
      outcome := ReconcileRoute(rc, pod, PodRouteName(digest, pod.id, pod.labels), host, service);
      CarriedOn(before, first, between, route, objects, outcome);
    }
  }

  // Four parts in turn, each of them only after the ones before it are done.
  lemma FourParts(s0: Store, a: seq<Step>, s1: Store, o1: Outcome, b: seq<Step>, s2: Store, o2: Outcome,
                  c: seq<Step>, s3: Store, o3: Outcome, d: seq<Step>, s4: Store, o4: Outcome)
    requires HaltsFail(a) && HaltsFail(b) && HaltsFail(c)
    requires Carried(s0, a, s1, o1)
    requires if o1 == Done then Carried(s1, b, s2, o2) else s2 == s1 && o2 == o1
    requires if o2 == Done then Carried(s2, c, s3, o3) else s3 == s2 && o3 == o2
    requires if o3 == Done then Carried(s3, d, s4, o4) else s4 == s3 && o4 == o3
    ensures Carried(s0, a + b + c + d, s4, o4)
  {
    NextPart(s0, a, s1, o1, b, s2, o2);
    NextPart(s0, a + b, s2, o2, c, s3, o3);
    NextPart(s0, a + b + c, s3, o3, d, s4, o4);
  }

  lemma NextPart(s0: Store, a: seq<Step>, s1: Store, o1: Outcome, b: seq<Step>, s2: Store, o2: Outcome)
    requires HaltsFail(a) && Carried(s0, a, s1, o1)
    requires if o1 == Done then Carried(s1, b, s2, o2) else s2 == s1 && o2 == o1
    ensures Carried(s0, a + b, s2, o2)
  {
    if o1 == Done {
      CarriedOn(s0, a, s1, b, s2, o2);
    } else {
      CarriedStops(s0, a, s1, o1, b);
    }
  }
}
