// Runs of dependency reconciles under changing configurations, and what the pod webhook can
// rely on after a pass.

module OwnedRuns {
  import opened Wrappers
  import opened OAuth2Config
  import opened Configuration
  import opened PodMutation
  import opened SidecarPlan
  import opened Hosts
  import opened OwnedResources

  // ---------------------------------------------------------------- a second pass changes nothing

  function CookieKey(w: Workload, c: Contents): Key {
    OwnSecret(OAUTH2_PROXY, w, c.env.digest)
  }

  // For a pass whose first step writes the oauth2 secret and whose others are no such steps.
  predicate StartsWith(steps: seq<Step>, first: Step) {
    && steps != [] && steps[0] == first && first.Write? && first.change.OAuth2Change?
    && forall i :: 1 <= i < |steps| && steps[i].Write? ==> !steps[i].change.OAuth2Change? && steps[i].key != first.key
  }

  lemma FirstStepShows(store: Store, steps: seq<Step>, first: Step)
    requires StartsWith(steps, first)
    ensures var after := Execute(store, steps).0;
            var o := if first.key in store then store[first.key] else NewObject(first.key.kind);
            && first.key in after
            && Entry(DataOf(after[first.key]), CONFIG_FILE) == first.change.config
            && Entry(DataOf(after[first.key]), COOKIE) == CookieFor(o, first.change.random)
  {
    var o := if first.key in store then store[first.key] else NewObject(first.key.kind);
    CookieStays(o, first.change, "");
    var written := Written(store, first.key, first.owner, first.change);
    forall i | 0 <= i < |steps[1..]| && steps[1..][i].Write? ensures steps[1..][i].key != first.key {
      assert steps[1..][i] == steps[i + 1];
    }
    ExecuteKeeps(written, steps[1..], first.key);
  }

  // The second pass, with its own random string, changes nothing if and only if the first one
  // has left a cookie or the second one is handed an empty random string, which is what a
  // failing source of randomness gives.
  lemma PassAgain(store: Store, steps: seq<Step>, again: seq<Step>, first: Step, first': Step)
    requires StartsWith(steps, first) && StartsWith(again, first') && Distinct(steps)
    requires Same(first, first') && again[1..] == steps[1..]
    ensures Execute(Execute(store, steps).0, again) == Execute(store, steps)
            <==> HasCookie(Execute(store, steps).0, first.key) || first'.change.random == ""
  {
    var after := Execute(store, steps).0;
    FirstStepShows(store, steps, first);
    FirstStepShows(after, again, first');
    if HasCookie(after, first.key) || first'.change.random == "" {
      assert |steps| == 1 + |steps[1..]| && |again| == 1 + |again[1..]|;
      forall i | 0 <= i < |steps| ensures Same(steps[i], again[i]) {
        if i > 0 {
          assert steps[i] == steps[1..][i - 1] == again[1..][i - 1] == again[i];
        }
      }
      PassTwice(store, steps, again);
    }
  }

  predicate Plain(steps: seq<Step>, key: Key) {
    forall step :: step in steps && step.Write? ==> !step.change.OAuth2Change? && step.key != key
  }

  lemma StartsPlain(first: Step, rest: seq<Step>)
    requires first.Write? && first.change.OAuth2Change? && Plain(rest, first.key)
    ensures StartsWith([first] + rest, first) && ([first] + rest)[1..] == rest
  {
    assert forall i :: 1 <= i < |[first] + rest| ==> ([first] + rest)[i] in rest;
  }

  lemma SecretStepsPlain(rc: Resolved, w: Workload, c: Contents)
    ensures Plain(SecretSteps(rc, w, c), CookieKey(w, c))
  {
    SecretNames(NameHash(c.env.digest, w.id));
  }

  function DeploymentRest(rc: Resolved, w: Workload, c: Contents): seq<Step> {
    ServiceSteps(rc, w, c.env.digest) + SecretSteps(rc, w, c) + LastSteps(rc, w, c)
  }

  lemma OtherStepsPlain(rc: Resolved, w: Workload, c: Contents, key: Key)
    requires key.kind == SecretKind
    ensures Plain(ServiceSteps(rc, w, c.env.digest), key) && Plain(LastSteps(rc, w, c), key)
    ensures Plain(VpaSteps(rc, w, c), key)
  {
  }

  lemma DeploymentStarts(rc: Resolved, w: Workload, c: Contents, random: string)
    ensures StartsWith(DeploymentSteps(rc, w, c, random), OAuth2Step(rc, w, c, random))
    ensures DeploymentSteps(rc, w, c, random)[1..] == DeploymentRest(rc, w, c)
  {
    SecretStepsPlain(rc, w, c);
    OtherStepsPlain(rc, w, c, CookieKey(w, c));
    var first := OAuth2Step(rc, w, c, random);
    StartsPlain(first, DeploymentRest(rc, w, c));
    Assoc([first], ServiceSteps(rc, w, c.env.digest), SecretSteps(rc, w, c), LastSteps(rc, w, c));
  }

  lemma Assoc(a: seq<Step>, b: seq<Step>, c: seq<Step>, d: seq<Step>)
    ensures a + b + c + d == a + (b + c + d)
  {
  }

  // Deployments: the dependency reconcile is a fixed point.
  lemma DeploymentAgain(store: Store, rc: Resolved, w: Workload, c: Contents, random: string, random': string)
    ensures var once := Execute(store, DeploymentSteps(rc, w, c, random));
            Execute(once.0, DeploymentSteps(rc, w, c, random')) == once
            <==> HasCookie(once.0, CookieKey(w, c)) || random' == ""
  {
    DeploymentStarts(rc, w, c, random);
    DeploymentStarts(rc, w, c, random');
    DeploymentDistinct(rc, w, c, random);
    PassAgain(store, DeploymentSteps(rc, w, c, random), DeploymentSteps(rc, w, c, random'),
              OAuth2Step(rc, w, c, random), OAuth2Step(rc, w, c, random'));
  }

  lemma StatefulSetStarts(rc: Resolved, w: Workload, pods: seq<(Workload, map<string, string>)>, c: Contents, random: string)
    ensures StartsWith(StatefulSetSteps(rc, w, pods, c, random), OAuth2Step(rc, w, c, random))
    ensures StatefulSetSteps(rc, w, pods, c, random)[1..]
            == PodsSteps(rc, pods, c.env.digest) + SecretSteps(rc, w, c) + VpaSteps(rc, w, c)
  {
    SecretStepsPlain(rc, w, c);
    PodsStepsPlain(rc, pods, c.env.digest);
    var first, pod, secrets := OAuth2Step(rc, w, c, random), PodsSteps(rc, pods, c.env.digest), SecretSteps(rc, w, c);
    OtherStepsPlain(rc, w, c, CookieKey(w, c));
    StartsPlain(first, pod + secrets + VpaSteps(rc, w, c));
    Assoc([first], pod, secrets, VpaSteps(rc, w, c));
  }

  lemma {:induction false} PodsStepsPlain(rc: Resolved, pods: seq<(Workload, map<string, string>)>, digest: Digest)
    ensures forall step :: step in PodsSteps(rc, pods, digest) ==>
              step.Write? && !step.change.OAuth2Change? && !step.change.StringsChange? && step.key.kind != SecretKind
    decreases |pods|
  {
    if pods != [] {
      PodsStepsPlain(rc, pods[1..], digest);
    }
  }

  // StatefulSets: the same, for pods whose Services and routes do not share a name.
  lemma StatefulSetAgain(store: Store, rc: Resolved, w: Workload, pods: seq<(Workload, map<string, string>)>, c: Contents,
                         random: string, random': string)
    requires PodsApart(pods, c.env.digest)
    ensures var once := Execute(store, StatefulSetSteps(rc, w, pods, c, random));
            Execute(once.0, StatefulSetSteps(rc, w, pods, c, random')) == once
            <==> HasCookie(once.0, CookieKey(w, c)) || random' == ""
  {
    StatefulSetStarts(rc, w, pods, c, random);
    StatefulSetStarts(rc, w, pods, c, random');
    StatefulSetDistinct(rc, w, pods, c, random);
    PassAgain(store, StatefulSetSteps(rc, w, pods, c, random), StatefulSetSteps(rc, w, pods, c, random'),
              OAuth2Step(rc, w, c, random), OAuth2Step(rc, w, c, random'));
  }

  // Pods with ordinals of their own below 2^31 do not share a name, whatever the hashes are.
  lemma OrdinalsAreApart(a: Workload, b: Workload, base: string, i: nat, j: nat, digest: Digest)
    requires i != j && NamesPod(a.labels, base, i) && NamesPod(b.labels, base, j) && (i < 0x8000_0000 || j < 0x8000_0000)
    requires '-' !in NameHash(digest, a.id) && '-' !in NameHash(digest, b.id)
    ensures Apart(a, b, digest)
  {
    OrdinalsApart(SERVICE, base, i, j, a.labels, b.labels, NameHash(digest, a.id), NameHash(digest, b.id));
    OrdinalsApart(ROUTE, base, i, j, a.labels, b.labels, NameHash(digest, a.id), NameHash(digest, b.id));
  }

  // ---------------------------------------------------------------- runs

  // A pass of the dependency reconcile of some workload under the configuration of that time.
  // `reach` is the number of writes after which the API server stops answering.
  datatype Pass = DeploymentPass(rc: Resolved, w: Workload, random: string, reach: nat)
                | StatefulSetPass(rc: Resolved, w: Workload, pods: seq<(Workload, map<string, string>)>, random: string,
                                  reach: nat)

  function AllSteps(pass: Pass, c: Contents): seq<Step> {
    match pass
    case DeploymentPass(rc, w, random, _) => DeploymentSteps(rc, w, c, random)
    case StatefulSetPass(rc, w, pods, random, _) => StatefulSetSteps(rc, w, pods, c, random)
  }

  function Cut(steps: seq<Step>, reach: nat): seq<Step> {
    if reach < |steps| then steps[..reach] else steps
  }

  function StepsOf(pass: Pass, c: Contents): seq<Step> {
    Cut(AllSteps(pass, c), pass.reach)
  }

  // What happens to the store: a pass, or the pruning of a workload that is no longer a target,
  // which may fail after some of the deletions.
  datatype Turn = Reconcile(pass: Pass) | Prune(w: Workload, removed: set<Key>)

  function After(store: Store, turn: Turn, c: Contents): Store {
    match turn
    case Reconcile(pass) => Execute(store, StepsOf(pass, c)).0
    case Prune(w, removed) => store - (removed * Prunable(store, w))
  }

  function Run(store: Store, turns: seq<Turn>, c: Contents): Store
    decreases |turns|
  {
    if turns == [] then store else Run(After(store, turns[0], c), turns[1..], c)
  }

  predicate KeepsCookies(step: Step) {
    step.Write? && step.key.kind == SecretKind ==>
      step.change.OAuth2Change? || (step.change.StringsChange? && COOKIE !in step.change.strings)
  }

  lemma {:induction false} ExecuteKeepsCookie(store: Store, steps: seq<Step>, key: Key)
    requires HasCookie(store, key) && key.kind == SecretKind
    requires AllKeep(steps)
    ensures var after := Execute(store, steps).0;
            HasCookie(after, key) && Entry(DataOf(after[key]), COOKIE) == Entry(DataOf(store[key]), COOKIE)
    decreases |steps|
  {
    if steps != [] && steps[0].Write? {
      var step := steps[0];
      assert step in steps && KeepsCookies(step);
      if step.key == key && step.change.OAuth2Change? {
        CookieStays(store[key], step.change, "");
      }
      ExecuteKeepsCookie(Written(store, step.key, step.owner, step.change), steps[1..], key);
    }
  }

  lemma OtherFiles(file: string)
    requires file == "config-file.yaml" || file == "kubeconfig" || file == "ca.crt"
    ensures file != COOKIE
  {
  }

  lemma SecretStepsKeep(rc: Resolved, w: Workload, c: Contents)
    ensures forall step :: step in SecretSteps(rc, w, c) ==> KeepsCookies(step)
  {
    OtherFiles("config-file.yaml");
    OtherFiles("kubeconfig");
    OtherFiles("ca.crt");
  }

  predicate AllKeep(steps: seq<Step>) {
    forall step :: step in steps ==> KeepsCookies(step)
  }

  lemma DeploymentKeeps(rc: Resolved, w: Workload, c: Contents, random: string)
    ensures AllKeep(DeploymentSteps(rc, w, c, random))
  {
    SecretStepsKeep(rc, w, c);
    var service, secrets, last := ServiceSteps(rc, w, c.env.digest), SecretSteps(rc, w, c), LastSteps(rc, w, c);
    assert AllKeep(service) && AllKeep(secrets) && AllKeep(last);
    assert AllKeep([OAuth2Step(rc, w, c, random)] + service + secrets + last);
  }

  lemma StatefulSetKeeps(rc: Resolved, w: Workload, pods: seq<(Workload, map<string, string>)>, c: Contents, random: string)
    ensures AllKeep(StatefulSetSteps(rc, w, pods, c, random))
  {
    SecretStepsKeep(rc, w, c);
    PodsStepsPlain(rc, pods, c.env.digest);
  }

  lemma PassKeepsCookies(pass: Pass, c: Contents)
    ensures AllKeep(StepsOf(pass, c))
  {
    if pass.DeploymentPass? {
      DeploymentKeeps(pass.rc, pass.w, c, pass.random);
    } else {
      StatefulSetKeeps(pass.rc, pass.w, pass.pods, c, pass.random);
    }
  }

  predicate NeverPruned(turns: seq<Turn>, key: Key) {
    forall turn :: turn in turns && turn.Prune? ==> key !in turn.removed
  }

  // Over every run of passes and prunings of any workloads, under any configurations and with
  // the API failing anywhere, the first non-empty cookie of an oauth2 secret is never replaced
  // while the secret itself is not pruned.
  lemma {:induction false} CookieKept(store: Store, turns: seq<Turn>, c: Contents, key: Key)
    requires HasCookie(store, key) && key.kind == SecretKind && NeverPruned(turns, key)
    ensures var after := Run(store, turns, c);
            HasCookie(after, key) && Entry(DataOf(after[key]), COOKIE) == Entry(DataOf(store[key]), COOKIE)
    decreases |turns|
  {
    if turns != [] {
      assert turns[0] in turns;
      if turns[0].Reconcile? {
        PassKeepsCookies(turns[0].pass, c);
        ExecuteKeepsCookie(store, StepsOf(turns[0].pass, c), key);
      }
      assert NeverPruned(turns[1..], key);
      CookieKept(After(store, turns[0], c), turns[1..], c, key);
    }
  }

  // Pruning is the one thing that replaces it: a pass after a pruning keeps the cookie if and
  // only if the pruning did not take the secret, and otherwise sets a new one.
  lemma CookieAfterPruning(store: Store, w: Workload, removed: set<Key>, pass: Pass, c: Contents)
    requires pass.reach > 0 && HasCookie(store, CookieKey(pass.w, c))
    ensures var key := CookieKey(pass.w, c);
            var after := Run(store, [Prune(w, removed), Reconcile(pass)], c);
            && key in after
            && Entry(DataOf(after[key]), COOKIE)
               == if key in removed && key in Prunable(store, w) then pass.random else Entry(DataOf(store[key]), COOKIE)
  {
    var turns := [Prune(w, removed), Reconcile(pass)];
    assert turns[1..] == [Reconcile(pass)] && [Reconcile(pass)][1..] == [];
    var pruned := After(store, turns[0], c);
    assert Run(store, turns, c) == Run(pruned, [Reconcile(pass)], c) == After(pruned, Reconcile(pass), c);
    PassStarts(pass, c);
    FirstStepShows(pruned, StepsOf(pass, c), OAuth2Step(pass.rc, pass.w, c, pass.random));
  }

  lemma {:induction false} RunConcat(store: Store, a: seq<Turn>, b: seq<Turn>, c: Contents)
    ensures Run(store, a + b, c) == Run(Run(store, a, c), b, c)
    decreases |a|
  {
    if a == [] {
      assert a + b == b;
    } else {
      assert (a + b)[0] == a[0] && (a + b)[1..] == a[1..] + b;
      RunConcat(After(store, a[0], c), a[1..], b, c);
    }
  }

  lemma StartsCut(steps: seq<Step>, first: Step, n: nat)
    requires StartsWith(steps, first) && 1 <= n <= |steps|
    ensures StartsWith(steps[..n], first)
  {
  }

  lemma PassStarts(pass: Pass, c: Contents)
    requires pass.reach > 0
    ensures StartsWith(StepsOf(pass, c), OAuth2Step(pass.rc, pass.w, c, pass.random))
  {
    if pass.DeploymentPass? {
      DeploymentStarts(pass.rc, pass.w, c, pass.random);
    } else {
      StatefulSetStarts(pass.rc, pass.w, pass.pods, c, pass.random);
    }
    if pass.reach < |AllSteps(pass, c)| {
      StartsCut(AllSteps(pass, c), OAuth2Step(pass.rc, pass.w, c, pass.random), pass.reach);
    }
  }

  // The secrets that carry a rendered configuration.
  predicate OAuth2Key(key: Key) {
    key.kind == SecretKind && OAUTH2_PROXY + "-" <= key.name
  }

  // The pass gets to write the configuration under the key, which may be that of another workload.
  predicate Writes(turn: Turn, key: Key, c: Contents) {
    turn.Reconcile? && turn.pass.reach > 0 && CookieKey(turn.pass.w, c) == key
  }

  // The pruning takes the object away.
  predicate Takes(turn: Turn, key: Key, o: Object) {
    turn.Prune? && key in turn.removed && Prunes(o, key, turn.w)
  }

  // The secret is there afterwards if and only if it was there before and no pruning took it,
  // and then it is as it was.
  predicate Kept(before: Store, turns: seq<Turn>, after: Store, key: Key) {
    && (key in after <==> key in before && forall turn :: turn in turns ==> !Takes(turn, key, before[key]))
    && (key in after ==> after[key] == before[key])
  }

  // How many turns there are up to and including the latest pass that writes the key.
  function Latest(turns: seq<Turn>, key: Key, c: Contents): (n: nat)
    ensures n <= |turns| && (n > 0 ==> Writes(turns[n - 1], key, c))
    ensures forall i :: n <= i < |turns| ==> !Writes(turns[i], key, c)
    decreases |turns|
  {
    if turns == [] then 0
    else if Writes(turns[|turns| - 1], key, c) then |turns|
    else Latest(turns[..|turns| - 1], key, c)
  }

  lemma OtherSecretsPlain(rc: Resolved, w: Workload, c: Contents, key: Key)
    requires OAuth2Key(key)
    ensures Plain(SecretSteps(rc, w, c), key)
  {
    var suffix := key.name[|OAUTH2_PROXY + "-"|..];
    assert key.name == Named(OAUTH2_PROXY, suffix);
    NamesApart(suffix, NameHash(c.env.digest, w.id));
  }

  lemma NotWritten(steps: seq<Step>, reach: nat, key: Key, i: nat)
    requires i < |Cut(steps, reach)| && steps[i].Write? && Plain(steps[1..], key)
    requires steps[0].Write? ==> steps[0].key != key
    ensures Cut(steps, reach)[i].key != key
  {
    if i > 0 { assert steps[1..][i - 1] == steps[i]; }
  }

  lemma RestPlain(pass: Pass, c: Contents, key: Key)
    requires OAuth2Key(key)
    ensures AllSteps(pass, c) != [] && Plain(AllSteps(pass, c)[1..], key)
    ensures AllSteps(pass, c)[0] == OAuth2Step(pass.rc, pass.w, c, pass.random)
  {
    OtherSecretsPlain(pass.rc, pass.w, c, key);
    OtherStepsPlain(pass.rc, pass.w, c, key);
    if pass.DeploymentPass? {
      DeploymentStarts(pass.rc, pass.w, c, pass.random);
    } else {
      StatefulSetStarts(pass.rc, pass.w, pass.pods, c, pass.random);
      PodsStepsPlain(pass.rc, pass.pods, c.env.digest);
    }
  }

  // A pass that does not write the configuration under the key leaves that secret alone.
  lemma PassKeepsOther(store: Store, pass: Pass, c: Contents, key: Key)
    requires OAuth2Key(key) && !Writes(Reconcile(pass), key, c)
    ensures var after := Execute(store, StepsOf(pass, c)).0;
            (key in after <==> key in store) && (key in store ==> after[key] == store[key])
  {
    var steps := AllSteps(pass, c);
    RestPlain(pass, c, key);
    if pass.reach > 0 {
      forall i | 0 <= i < |StepsOf(pass, c)| && StepsOf(pass, c)[i].Write? ensures StepsOf(pass, c)[i].key != key {
        NotWritten(steps, pass.reach, key, i);
      }
    }
    ExecuteKeeps(store, StepsOf(pass, c), key);
  }

  lemma TurnKeeps(store: Store, turn: Turn, c: Contents, key: Key)
    requires OAuth2Key(key) && !Writes(turn, key, c)
    ensures var after := After(store, turn, c);
            && (key in after <==> key in store && !Takes(turn, key, store[key]))
            && (key in after ==> after[key] == store[key])
  {
    if turn.Reconcile? {
      PassKeepsOther(store, turn.pass, c, key);
    }
  }

  // Turns that do not write the key can only take the secret away.
  lemma {:induction false} KeyKept(store: Store, turns: seq<Turn>, c: Contents, key: Key)
    requires OAuth2Key(key) && forall i :: 0 <= i < |turns| ==> !Writes(turns[i], key, c)
    ensures Kept(store, turns, Run(store, turns, c), key)
    decreases |turns|
  {
    if turns != [] {
      TurnKeeps(store, turns[0], c, key);
      assert forall i :: 0 <= i < |turns[1..]| ==> turns[1..][i] == turns[i + 1];
      KeyKept(After(store, turns[0], c), turns[1..], c, key);
      assert forall turn :: turn in turns <==> turn == turns[0] || turn in turns[1..];
    }
  }

  // The configuration of the pass, and a cookie unless randomness failed.
  predicate CarriesConfig(o: Object, pass: Pass, c: Contents) {
    && Entry(DataOf(o), CONFIG_FILE) == ControllerConfig(pass.rc, c.env)
    && (pass.random != "" ==> Entry(DataOf(o), COOKIE) != "")
  }

  lemma PassWrites(store: Store, turns: seq<Turn>, last: Pass, c: Contents)
    requires last.reach > 0
    ensures var after := Run(store, turns + [Reconcile(last)], c);
            CookieKey(last.w, c) in after && CarriesConfig(after[CookieKey(last.w, c)], last, c)
  {
    RunConcat(store, turns, [Reconcile(last)], c);
    var before := Run(store, turns, c);
    assert Run(before, [Reconcile(last)], c) == Execute(before, StepsOf(last, c)).0;
    PassStarts(last, c);
    FirstStepShows(before, StepsOf(last, c), OAuth2Step(last.rc, last.w, c, last.random));
  }

  lemma LastWrote(store: Store, turns: seq<Turn>, c: Contents, key: Key)
    requires turns != [] && Writes(turns[|turns| - 1], key, c)
    ensures key in Run(store, turns, c) && CarriesConfig(Run(store, turns, c)[key], turns[|turns| - 1].pass, c)
  {
    var last := turns[|turns| - 1].pass;
    assert turns == turns[..|turns| - 1] + [Reconcile(last)];
    PassWrites(store, turns[..|turns| - 1], last, c);
  }

  // What the latest pass that wrote the key left there, if there was one, carries its
  // configuration and has only been kept since.
  predicate Follows(turns: seq<Turn>, n: nat, left: Store, after: Store, c: Contents, key: Key)
    requires n <= |turns| && (n > 0 ==> turns[n - 1].Reconcile?)
  {
    && (n > 0 ==> key in left && CarriesConfig(left[key], turns[n - 1].pass, c))
    && Kept(left, turns[n..], after, key)
  }

  lemma FollowsAt(store: Store, turns: seq<Turn>, n: nat, c: Contents, key: Key)
    requires OAuth2Key(key) && n <= |turns| && (n > 0 ==> Writes(turns[n - 1], key, c))
    requires forall i :: n <= i < |turns| ==> !Writes(turns[i], key, c)
    ensures Follows(turns, n, Run(store, turns[..n], c), Run(store, turns, c), c, key)
  {
    assert turns == turns[..n] + turns[n..];
    RunConcat(store, turns[..n], turns[n..], c);
    assert forall i :: 0 <= i < |turns[n..]| ==> turns[n..][i] == turns[n + i];
    KeyKept(Run(store, turns[..n], c), turns[n..], c, key);
    if n > 0 {
      LastWrote(store, turns[..n], c, key);
    }
  }

  // Over every run of passes and prunings of any workloads the configuration under a key is
  // that of the latest pass that wrote the key, with a cookie unless randomness failed. The
  // secret is there if and only if it was then and no pruning has taken it since; without
  // such a pass it is the one from before the run.
  lemma ConfigFollows(store: Store, turns: seq<Turn>, c: Contents, key: Key)
    requires OAuth2Key(key)
    ensures var n := Latest(turns, key, c);
            Follows(turns, n, Run(store, turns[..n], c), Run(store, turns, c), c, key)
  {
    FollowsAt(store, turns, Latest(turns, key, c), c, key);
  }

  // Two workloads write one secret if and only if their namespaces and name hashes agree;
  // their kind does not matter.
  lemma SharedKey(v: Workload, w: Workload, c: Contents)
    ensures CookieKey(v, c) == CookieKey(w, c)
            <==> v.id.namespace == w.id.namespace && NameHash(c.env.digest, v.id) == NameHash(c.env.digest, w.id)
    ensures OAuth2Key(CookieKey(w, c))
  {
    SameHead(OAUTH2_PROXY + "-", NameHash(c.env.digest, v.id), NameHash(c.env.digest, w.id));
  }

  // After a pass of one workload and then one of another, the first one's secret holds its own
  // configuration if and only if it is not shared or both configurations are the same.
  lemma SharedConfig(store: Store, turns: seq<Turn>, first: Pass, second: Pass, c: Contents)
    requires first.reach > 0 && second.reach > 0
    ensures var after := Run(store, turns + [Reconcile(first), Reconcile(second)], c);
            && CookieKey(first.w, c) in after
            && (Entry(DataOf(after[CookieKey(first.w, c)]), CONFIG_FILE) == ControllerConfig(first.rc, c.env)
                <==> !(first.w.id.namespace == second.w.id.namespace
                       && NameHash(c.env.digest, first.w.id) == NameHash(c.env.digest, second.w.id))
                     || ControllerConfig(first.rc, c.env) == ControllerConfig(second.rc, c.env))
  {
    SharedKey(first.w, second.w, c);
    var one := turns + [Reconcile(first)];
    assert turns + [Reconcile(first), Reconcile(second)] == one + [Reconcile(second)];
    PassWrites(store, turns, first, c);
    PassWrites(store, one, second, c);
    if CookieKey(first.w, c) != CookieKey(second.w, c) {
      SharedKey(second.w, first.w, c);
      RunConcat(store, one, [Reconcile(second)], c);
      KeyKept(Run(store, one, c), [Reconcile(second)], c, CookieKey(first.w, c));
    }
  }

  // Such a pair: a Deployment and a StatefulSet of one name and namespace.
  lemma NamesakesShare(store: Store, turns: seq<Turn>, first: Pass, second: Pass, c: Contents)
    requires first.DeploymentPass? && second.StatefulSetPass? && first.w.id == second.w.id
    requires first.reach > 0 && second.reach > 0
    ensures var after := Run(store, turns + [Reconcile(first), Reconcile(second)], c);
            && CookieKey(first.w, c) in after
            && Entry(DataOf(after[CookieKey(first.w, c)]), CONFIG_FILE) == ControllerConfig(second.rc, c.env)
  {
    SharedKey(first.w, second.w, c);
    assert turns + [Reconcile(first), Reconcile(second)] == turns + [Reconcile(first)] + [Reconcile(second)];
    PassWrites(store, turns + [Reconcile(first)], second, c);
  }

  // ---------------------------------------------------------------- what the sidecars mount

  predicate KubeConfigUsable(rc: Resolved, c: Contents) {
    rc.KubeConfigStr().text == "" || KubeConfigContent(rc, c).Some?
  }

  predicate AllWrites(steps: seq<Step>) {
    forall step :: step in steps ==> step.Write?
  }

  predicate HaltsFail(steps: seq<Step>) {
    forall step :: step in steps && step.Halt? ==> step.outcome != Done
  }

  lemma {:induction false} ExecuteOutcome(store: Store, steps: seq<Step>)
    requires HaltsFail(steps)
    ensures Execute(store, steps).1 == Done <==> AllWrites(steps)
    decreases |steps|
  {
    if steps != [] && steps[0].Write? {
      ExecuteOutcome(Written(store, steps[0].key, steps[0].owner, steps[0].change), steps[1..]);
      assert AllWrites(steps[1..]) ==> AllWrites(steps);
    } else if steps != [] {
      assert steps[0] in steps;
    }
  }

  lemma {:induction false} ExecuteCreates(store: Store, steps: seq<Step>, key: Key)
    requires AllWrites(steps) && (key in KeysOf(steps) || key in store)
    ensures key in Execute(store, steps).0
    decreases |steps|
  {
    if steps != [] {
      if key in KeysOf(steps) && steps[0].key != key {
        var i :| 0 <= i < |steps| && steps[i].key == key;
        assert steps[1..][i - 1] == steps[i];
      }
      ExecuteCreates(Written(store, steps[0].key, steps[0].owner, steps[0].change), steps[1..], key);
    }
  }

  // Nothing the autoscaler patch dereferences is missing.
  predicate VpasUsable(rc: Resolved, w: Workload, c: Contents) {
    c.autoscaling.Registered? ==>
      rc.target.labelSelector.Some? && !Unguarded(rc.target.labelSelector.value, w.id.namespace, c.autoscaling.vpas)
  }

  lemma LastWrites(rc: Resolved, w: Workload, c: Contents)
    ensures AllWrites(VpaSteps(rc, w, c)) <==> VpasUsable(rc, w, c)
    ensures AllWrites(LastSteps(rc, w, c)) <==> VpasUsable(rc, w, c)
    ensures HaltsFail(VpaSteps(rc, w, c)) && HaltsFail(LastSteps(rc, w, c))
  {
    var vpa := VpaSteps(rc, w, c);
    if vpa != [] { assert vpa[0] in vpa; }
    WritesConcat(DeploymentRoute(rc, w, c.env.digest), vpa);
  }

  // A Deployment's pass gets to its end if and only if the target has a label selector, the
  // kubeconfig, if there is one, can be read, and, where autoscalers are registered, every
  // selected one has a resource policy.
  lemma DeploymentDone(store: Store, rc: Resolved, w: Workload, c: Contents, random: string)
    ensures Execute(store, DeploymentSteps(rc, w, c, random)).1 == Done
            <==> rc.target.labelSelector.Some? && KubeConfigUsable(rc, c) && VpasUsable(rc, w, c)
  {
    var service := ServiceSteps(rc, w, c.env.digest);
    assert AllWrites(service) <==> rc.target.labelSelector.Some? by { assert service[0] in service; }
    SecretWrites(rc, w, c);
    LastWrites(rc, w, c);
    PartsDone(store, [OAuth2Step(rc, w, c, random)], service, SecretSteps(rc, w, c), LastSteps(rc, w, c));
  }

  lemma PartsDone(store: Store, first: seq<Step>, second: seq<Step>, third: seq<Step>, fourth: seq<Step>)
    requires AllWrites(first) && HaltsFail(second) && HaltsFail(third) && HaltsFail(fourth)
    ensures Execute(store, first + second + third + fourth).1 == Done
            <==> AllWrites(second) && AllWrites(third) && AllWrites(fourth)
  {
    WritesConcat(first, second);
    WritesConcat(first + second, third);
    WritesConcat(first + second + third, fourth);
    ExecuteOutcome(store, first + second + third + fourth);
  }

  // A StatefulSet's pass does without a label selector unless autoscalers are registered.
  lemma StatefulSetDone(store: Store, rc: Resolved, w: Workload, pods: seq<(Workload, map<string, string>)>, c: Contents,
                        random: string)
    ensures Execute(store, StatefulSetSteps(rc, w, pods, c, random)).1 == Done
            <==> KubeConfigUsable(rc, c) && VpasUsable(rc, w, c)
  {
    PodsStepsPlain(rc, pods, c.env.digest);
    SecretWrites(rc, w, c);
    LastWrites(rc, w, c);
    PartsDone(store, [OAuth2Step(rc, w, c, random)], PodsSteps(rc, pods, c.env.digest), SecretSteps(rc, w, c), VpaSteps(rc, w, c));
  }

  lemma SecretWrites(rc: Resolved, w: Workload, c: Contents)
    ensures AllWrites(SecretSteps(rc, w, c)) <==> KubeConfigUsable(rc, c)
    ensures HaltsFail(SecretSteps(rc, w, c))
  {
    var kube := KubeConfigSteps(rc, w, c);
    assert AllWrites(kube) <==> KubeConfigUsable(rc, c) by {
      if kube != [] { assert kube[0] in kube; }
    }
    WritesConcat([AttributesStep(w, c)], kube);
    WritesConcat([AttributesStep(w, c)] + kube, OidcCaSteps(rc, w, c));
  }

  lemma WritesConcat(a: seq<Step>, b: seq<Step>)
    ensures AllWrites(a + b) <==> AllWrites(a) && AllWrites(b)
  {
    assert forall step :: step in a + b <==> step in a || step in b;
  }

  // Secrets that the configuration names are somebody else's to create.
  function Configured(rc: Resolved): set<string> {
    {rc.ClientSecretName(), rc.KubeSecretName(), rc.OidcCASecretName()}
  }

  // The secrets a pass over the workload writes.
  function OwnSecrets(rc: Resolved, w: Workload, c: Contents): set<Key> {
    {CookieKey(w, c)} + KeysOf(SecretSteps(rc, w, c))
  }

  lemma OwnSecretsAre(rc: Resolved, w: Workload, c: Contents)
    ensures OwnSecrets(rc, w, c)
            == {CookieKey(w, c), OwnSecret(RESOURCE_ATTRIBUTES, w, c.env.digest)}
               + (if rc.KubeConfigStr().text != "" && KubeConfigContent(rc, c).Some?
                  then {OwnSecret(KUBECONFIG, w, c.env.digest)} else {})
               + (if rc.OidcCABundle() != "" then {OwnSecret(OIDC_CA, w, c.env.digest)} else {})
  {
    KeysConcat([AttributesStep(w, c)], KubeConfigSteps(rc, w, c));
    KeysConcat([AttributesStep(w, c)] + KubeConfigSteps(rc, w, c), OidcCaSteps(rc, w, c));
    OneKey(AttributesStep(w, c));
    if KubeConfigSteps(rc, w, c) != [] { OneKey(KubeConfigSteps(rc, w, c)[0]); }
    if OidcCaSteps(rc, w, c) != [] { OneKey(OidcCaSteps(rc, w, c)[0]); }
  }

  lemma OneKey(step: Step)
    ensures KeysOf([step]) == if step.Write? then {step.key} else {}
  {
    if step.Write? {
      assert [step][0].key in KeysOf([step]);
    }
  }

  predicate Mountable(rc: Resolved, w: Workload, c: Contents, secret: string) {
    Key(SecretKind, w.id.namespace, secret) in OwnSecrets(rc, w, c) || secret in Configured(rc)
  }

  lemma NamesApart(suffix: string, hash: string)
    ensures Named(OAUTH2_PROXY, suffix) == Named(OAUTH2_PROXY, hash) <==> suffix == hash
    ensures Named(OAUTH2_PROXY, suffix) != Named(RESOURCE_ATTRIBUTES, hash)
    ensures Named(OAUTH2_PROXY, suffix) != Named(KUBECONFIG, hash) && Named(OAUTH2_PROXY, suffix) != Named(OIDC_CA, hash)
  {
    SameHead(OAUTH2_PROXY + "-", suffix, hash);
    assert Named(OAUTH2_PROXY, suffix)[0] == 'o' && Named(RESOURCE_ATTRIBUTES, hash)[0] == 'r';
    assert Named(KUBECONFIG, hash)[0] == 'k';
    assert Named(OAUTH2_PROXY, suffix)[1] == 'a' && Named(OIDC_CA, hash)[1] == 'i';
  }

  // Mount completeness: every secret in the injected sidecar volumes is one that the owner's
  // pass writes or one that the configuration names, if and only if the owner's suffix is the
  // hash of its name, for every configuration whose kubeconfig can be read and that does not
  // itself name a secret oauth2-proxy-....
  lemma MountsComplete(rc: Resolved, w: Workload, c: Contents, suffix: string)
    requires KubeConfigUsable(rc, c) && Named(OAUTH2_PROXY, suffix) !in Configured(rc)
    ensures (forall s :: s in SecretsOf(rc, suffix) ==> Mountable(rc, w, c, s.1))
            <==> suffix == NameHash(c.env.digest, w.id)
  {
    OwnSecretsAre(rc, w, c);
    var hash := NameHash(c.env.digest, w.id);
    NamesApart(suffix, hash);
    var first := (OAUTH2_PROXY, Named(OAUTH2_PROXY, suffix));
    assert SecretsOf(rc, suffix)[0] == first;
    assert Mountable(rc, w, c, first.1) <==> suffix == hash;
    if suffix == hash {
      AllMountable(rc, w, c);
    }
  }

  lemma AllMountable(rc: Resolved, w: Workload, c: Contents)
    requires KubeConfigUsable(rc, c)
    ensures forall s :: s in SecretsOf(rc, NameHash(c.env.digest, w.id)) ==> Mountable(rc, w, c, s.1)
  {
    OwnSecretsAre(rc, w, c);
    var suffix := NameHash(c.env.digest, w.id);
    assert forall s :: s in SecretsOf(rc, suffix) <==> s in OAuth2Secrets(rc, suffix) || s in KubeRbacSecrets(rc, suffix);
  }

  // And the ones it writes are there after a pass that gets to its end.
  lemma DeploymentProvides(store: Store, rc: Resolved, w: Workload, c: Contents, random: string, suffix: string)
    requires suffix == NameHash(c.env.digest, w.id)
    ensures var (after, outcome) := Execute(store, DeploymentSteps(rc, w, c, random));
            outcome == Done ==> forall s :: s in SecretsOf(rc, suffix) ==>
              Key(SecretKind, w.id.namespace, s.1) in after || s.1 in Configured(rc)
  {
    DeploymentDone(store, rc, w, c, random);
    if Execute(store, DeploymentSteps(rc, w, c, random)).1 == Done {
      AllMountable(rc, w, c);
      SecretWrites(rc, w, c);
      OneKey(OAuth2Step(rc, w, c, random));
      LastWrites(rc, w, c);
      Provides(store, [OAuth2Step(rc, w, c, random)], ServiceSteps(rc, w, c.env.digest), SecretSteps(rc, w, c),
               LastSteps(rc, w, c));
    }
  }

  lemma StatefulSetProvides(store: Store, rc: Resolved, w: Workload, pods: seq<(Workload, map<string, string>)>, c: Contents,
                            random: string, suffix: string)
    requires suffix == NameHash(c.env.digest, w.id)
    ensures var (after, outcome) := Execute(store, StatefulSetSteps(rc, w, pods, c, random));
            outcome == Done ==> forall s :: s in SecretsOf(rc, suffix) ==>
              Key(SecretKind, w.id.namespace, s.1) in after || s.1 in Configured(rc)
  {
    StatefulSetDone(store, rc, w, pods, c, random);
    if Execute(store, StatefulSetSteps(rc, w, pods, c, random)).1 == Done {
      AllMountable(rc, w, c);
      PodsStepsPlain(rc, pods, c.env.digest);
      SecretWrites(rc, w, c);
      OneKey(OAuth2Step(rc, w, c, random));
      LastWrites(rc, w, c);
      Provides(store, [OAuth2Step(rc, w, c, random)], PodsSteps(rc, pods, c.env.digest), SecretSteps(rc, w, c),
               VpaSteps(rc, w, c));
    }
  }

  lemma Provides(store: Store, first: seq<Step>, second: seq<Step>, third: seq<Step>, fourth: seq<Step>)
    requires AllWrites(first) && AllWrites(second) && AllWrites(third) && AllWrites(fourth)
    ensures KeysOf(first) + KeysOf(third) <= Execute(store, first + second + third + fourth).0.Keys
  {
    KeysConcat(first, second);
    KeysConcat(first + second, third);
    KeysConcat(first + second + third, fourth);
    forall key | key in KeysOf(first) + KeysOf(third)
      ensures key in Execute(store, first + second + third + fourth).0
    {
      ExecuteCreates(store, first + second + third + fourth, key);
    }
  }

  // ---------------------------------------------------------------- the client secret

  predicate SingleLineConfig(rc: Resolved, digest: Digest) {
    && '\n' !in rc.ClientID() && '\n' !in rc.ClientSecret() && '\n' !in rc.Scope()
    && '\n' !in rc.RedirectURL(digest) && '\n' !in rc.OidcIssuerURL()
  }

  lemma PathsApart()
    ensures CLIENT_SECRET_PATH != DEV_NULL && '\n' !in CLIENT_SECRET_PATH && '\n' !in DEV_NULL
  {
    assert |CLIENT_SECRET_PATH| != |DEV_NULL|;
  }

  lemma ConfigReads(lines: seq<TemplateLine>, o: Options, config: string)
    requires IsShipped(lines) && SingleLine(o) && config == Render(Joined(TextsOf(lines)), SettingsOf(o))
    ensures OAuth2Config.Lookup(config, CLIENT_SECRET_FILE) == if o.clientSecret == "" then Value(o.clientSecretFile) else Omitted
  {
    OneClientSecret(lines, o, config);
  }

  // The proxy reads the client secret from the mounted file if and only if a reference is
  // configured; the referenced secret is then in the volume that the path is in.
  lemma ClientSecretMounted(lines: seq<TemplateLine>, rc: Resolved, env: Environment, suffix: string)
    requires IsShipped(lines) && env.template == Joined(TextsOf(lines)) && SingleLineConfig(rc, env.digest)
    ensures OAuth2Config.Lookup(ControllerConfig(rc, env), CLIENT_SECRET_FILE) == Value(CLIENT_SECRET_PATH)
            <==> rc.ClientSecretName() != ""
    ensures OAuth2Config.Lookup(ControllerConfig(rc, env), CLIENT_SECRET_FILE) == Value(CLIENT_SECRET_PATH) ==>
              (OAUTH2_PROXY, rc.ClientSecretName()) in SecretsOf(rc, suffix)
  {
    PathsApart();
    ConfigReads(lines, ControllerOptions(rc, env.digest), ControllerConfig(rc, env));
    if rc.ClientSecretName() != "" {
      assert (OAUTH2_PROXY, rc.ClientSecretName()) in OAuth2Secrets(rc, suffix);
    }
  }

  // The configuration whose checksum the webhook puts on the pod is the one in the secret if
  // and only if no client secret reference is configured.
  lemma ChecksumAgrees(lines: seq<TemplateLine>, rc: Resolved, env: Environment)
    requires IsShipped(lines) && env.template == Joined(TextsOf(lines)) && SingleLineConfig(rc, env.digest)
    ensures WebhookConfig(rc, env) == ControllerConfig(rc, env) <==> rc.ClientSecretName() == ""
  {
    PathsApart();
    if rc.ClientSecretName() != "" {
      ClientSecretMounted(lines, rc, env, "");
      ConfigReads(lines, WebhookOptions(rc, env.digest), WebhookConfig(rc, env));
    }
  }

  // ---------------------------------------------------------------- what pruning leaves

  lemma RolesApart(role: string)
    requires role == "rbac" || role == "kubeconfig" || role == "oidc-ca"
    ensures role != "oauth2"
  {
  }

  lemma PrunedByLabels(store: Store, steps: seq<Step>, i: nat, w: Workload)
    requires Distinct(steps) && AllWrites(steps) && i < |steps|
    requires steps[i].key.namespace == w.id.namespace && steps[i].owner == OwnerOf(w)
    ensures steps[i].key in Prunable(Execute(store, steps).0, w) <==>
            var labels := LabelsOf(steps[i].change);
            && COMPONENT_KEY in labels && labels[COMPONENT_KEY] == LABEL_VALUE
            && (steps[i].key.kind == SecretKind ==>
                  SECRET_LABEL_KEY in labels && labels[SECRET_LABEL_KEY] == "oauth2")
  {
    assert forall j :: 0 <= j < |steps| ==> steps[j] in steps;
    WriteShows(store, steps, i);
    OwnerThere(OwnersAt(store, steps[i].key), steps[i].owner);
    var o := Execute(store, steps).0[steps[i].key];
    assert OwnerOf(w) in o.owners;
  }

  // The labels configured for routes leave the label that pruning selects by as it is.
  predicate RouteLabelled(rc: Resolved) {
    rc.target.httpRoute.Some? && COMPONENT_KEY in rc.target.httpRoute.value.labels ==>
      rc.target.httpRoute.value.labels[COMPONENT_KEY] == LABEL_VALUE
  }

  // Pruning after a Deployment's pass takes the oauth2 secret, the Service and, unless the
  // configured labels hide it, the route. The other secrets stay behind.
  lemma PruningLeaves(store: Store, rc: Resolved, w: Workload, c: Contents, random: string, i: nat)
    ensures var steps := DeploymentSteps(rc, w, c, random);
            var (after, outcome) := Execute(store, steps);
            outcome == Done && i < |steps| && steps[i].Write? ==>
              (steps[i].key in Prunable(after, w) <==>
                 match steps[i].key.kind
                 case SecretKind => i == 0
                 case ServiceKind => true
                 case RouteKind => RouteLabelled(rc))
  {
    var steps := DeploymentSteps(rc, w, c, random);
    if Execute(store, steps).1 == Done && i < |steps| && steps[i].Write? {
      DeploymentAllWrites(store, rc, w, c, random);
      DeploymentDistinct(rc, w, c, random);
      DeploymentStep(rc, w, c, random, i);
      PrunedByLabels(store, steps, i, w);
      LabelKeysApart();
    }
  }

  // After a StatefulSet's pass it takes the oauth2 secret alone: the Services and the routes
  // belong to the pods and stay, unless the StatefulSet owned them before.
  lemma StatefulSetPruningLeaves(store: Store, rc: Resolved, w: Workload, pods: seq<(Workload, map<string, string>)>,
                                 c: Contents, random: string, i: nat)
    requires PodsApart(pods, c.env.digest) && forall pod :: pod in pods ==> pod.0.uid != w.uid
    ensures var steps := StatefulSetSteps(rc, w, pods, c, random);
            var (after, outcome) := Execute(store, steps);
            outcome == Done && i < |steps| && steps[i].Write? ==>
              if steps[i].key.kind == SecretKind then steps[i].key in Prunable(after, w) <==> i == 0
              else steps[i].key in Prunable(after, w) ==> steps[i].key in store && OwnedBy(store[steps[i].key], w.uid)
  {
    var steps := StatefulSetSteps(rc, w, pods, c, random);
    if Execute(store, steps).1 == Done && i < |steps| && steps[i].Write? {
      StatefulSetAllWrites(store, rc, w, pods, c, random);
      StatefulSetDistinct(rc, w, pods, c, random);
      StatefulSetStep(rc, w, pods, c, random, i);
      if steps[i].key.kind == SecretKind {
        PrunedByLabels(store, steps, i, w);
        LabelKeysApart();
      } else {
        NotPruned(store, steps, i, w);
      }
    }
  }

  lemma NotPruned(store: Store, steps: seq<Step>, i: nat, w: Workload)
    requires Distinct(steps) && AllWrites(steps) && i < |steps| && steps[i].owner.uid != w.uid
    ensures steps[i].key in Prunable(Execute(store, steps).0, w) ==>
              steps[i].key in store && OwnedBy(store[steps[i].key], w.uid)
  {
    var after := Execute(store, steps).0;
    if steps[i].key in Prunable(after, w) {
      assert forall j :: 0 <= j < |steps| ==> steps[j] in steps;
      WriteShows(store, steps, i);
      var owner :| owner in after[steps[i].key].owners && owner.uid == w.uid;
      OwnersFrom(OwnersAt(store, steps[i].key), steps[i].owner, owner);
    }
  }

  lemma LabelKeysApart()
    ensures COMPONENT_KEY != SECRET_LABEL_KEY
  {
    assert |COMPONENT_KEY| != |SECRET_LABEL_KEY|;
  }

  lemma DeploymentAllWrites(store: Store, rc: Resolved, w: Workload, c: Contents, random: string)
    requires Execute(store, DeploymentSteps(rc, w, c, random)).1 == Done
    ensures AllWrites(DeploymentSteps(rc, w, c, random))
  {
    DeploymentDone(store, rc, w, c, random);
    SecretWrites(rc, w, c);
    LastWrites(rc, w, c);
    WritesConcat([OAuth2Step(rc, w, c, random)] + ServiceSteps(rc, w, c.env.digest) + SecretSteps(rc, w, c), LastSteps(rc, w, c));
    WritesConcat([OAuth2Step(rc, w, c, random)] + ServiceSteps(rc, w, c.env.digest), SecretSteps(rc, w, c));
    WritesConcat([OAuth2Step(rc, w, c, random)], ServiceSteps(rc, w, c.env.digest));
  }

  lemma StatefulSetAllWrites(store: Store, rc: Resolved, w: Workload, pods: seq<(Workload, map<string, string>)>,
                             c: Contents, random: string)
    requires Execute(store, StatefulSetSteps(rc, w, pods, c, random)).1 == Done
    ensures AllWrites(StatefulSetSteps(rc, w, pods, c, random))
  {
    StatefulSetDone(store, rc, w, pods, c, random);
    SecretWrites(rc, w, c);
    LastWrites(rc, w, c);
    PodsStepsPlain(rc, pods, c.env.digest);
    WritesConcat([OAuth2Step(rc, w, c, random)] + PodsSteps(rc, pods, c.env.digest) + SecretSteps(rc, w, c), VpaSteps(rc, w, c));
    WritesConcat([OAuth2Step(rc, w, c, random)] + PodsSteps(rc, pods, c.env.digest), SecretSteps(rc, w, c));
    WritesConcat([OAuth2Step(rc, w, c, random)], PodsSteps(rc, pods, c.env.digest));
  }

  // A secret of its own that is not the oauth2 secret.
  predicate OtherSecret(step: Step, w: Workload) {
    && step.Write? && step.owner == OwnerOf(w) && step.key.namespace == w.id.namespace && step.key.kind == SecretKind
    && step.change.StringsChange? && step.change.role != "oauth2"
  }

  lemma SecretStepsOther(rc: Resolved, w: Workload, c: Contents)
    ensures forall step :: step in SecretSteps(rc, w, c) && step.Write? ==> OtherSecret(step, w)
  {
    RolesApart("rbac");
    RolesApart("kubeconfig");
    RolesApart("oidc-ca");
  }

  lemma DeploymentStep(rc: Resolved, w: Workload, c: Contents, random: string, i: nat)
    requires i < |DeploymentSteps(rc, w, c, random)| && DeploymentSteps(rc, w, c, random)[i].Write?
    ensures var step := DeploymentSteps(rc, w, c, random)[i];
            && step.owner == OwnerOf(w) && step.key.namespace == w.id.namespace
            && match step.key.kind
               case SecretKind => if i == 0 then step.change.OAuth2Change? else OtherSecret(step, w)
               case ServiceKind => step.change.ServiceChange?
               case RouteKind => step.change.RouteChange? && rc.target.httpRoute.Some?
                                 && step.change.labels == rc.target.httpRoute.value.labels
  {
    DeploymentStarts(rc, w, c, random);
    SecretStepsOther(rc, w, c);
    var step := DeploymentSteps(rc, w, c, random)[i];
    if i > 0 {
      assert step == DeploymentRest(rc, w, c)[i - 1];
      assert step in ServiceSteps(rc, w, c.env.digest) || step in SecretSteps(rc, w, c) || step in LastSteps(rc, w, c);
    }
  }

  lemma StatefulSetStep(rc: Resolved, w: Workload, pods: seq<(Workload, map<string, string>)>, c: Contents, random: string,
                        i: nat)
    requires i < |StatefulSetSteps(rc, w, pods, c, random)| && StatefulSetSteps(rc, w, pods, c, random)[i].Write?
    requires forall pod :: pod in pods ==> pod.0.uid != w.uid
    ensures var step := StatefulSetSteps(rc, w, pods, c, random)[i];
            if step.key.kind == SecretKind then
              && step.owner == OwnerOf(w) && step.key.namespace == w.id.namespace
              && (if i == 0 then step.change.OAuth2Change? else OtherSecret(step, w))
            else
              step.owner.uid != w.uid
  {
    StatefulSetStarts(rc, w, pods, c, random);
    SecretStepsOther(rc, w, c);
    PodsStepsPlain(rc, pods, c.env.digest);
    PodsStepsOwner(rc, pods, c.env.digest, w.uid);
    var step := StatefulSetSteps(rc, w, pods, c, random)[i];
    if i > 0 {
      assert step == (PodsSteps(rc, pods, c.env.digest) + SecretSteps(rc, w, c) + VpaSteps(rc, w, c))[i - 1];
      assert step in PodsSteps(rc, pods, c.env.digest) || step in SecretSteps(rc, w, c) || step in VpaSteps(rc, w, c);
    }
  }

  lemma {:induction false} PodsStepsOwner(rc: Resolved, pods: seq<(Workload, map<string, string>)>, digest: Digest,
                                          uid: string)
    requires forall pod :: pod in pods ==> pod.0.uid != uid
    ensures forall step :: step in PodsSteps(rc, pods, digest) ==> step.Write? && step.owner.uid != uid
    decreases |pods|
  {
    if pods != [] {
      PodsStepsOwner(rc, pods[1..], digest, uid);
    }
  }
}
