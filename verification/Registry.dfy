// The registry secret: one source secret in the controller's namespace, labelled copies of it
// in the namespaces of the targets, kept by the image pull secret reconciler and the two
// workload reconcilers (pkg/controllers/image-pull-secret-reconciler.go,
// pkg/controllers/registry-secret.go, pkg/controllers/deployment-reconciler.go,
// pkg/controllers/statefulset-reconciler.go).

module Registry {

  datatype Key = Key(namespace: string, name: string)

  // `labelled`: carries both labels of a propagated registry secret. `finalizer` is the
  // controller's own finalizer, `foreign` says that there are others.
  datatype Secret = Secret(labelled: bool, config: string, finalizer: bool, foreign: bool, terminating: bool)

  type Secrets = map<Key, Secret>

  datatype Kind = Deployment | StatefulSet

  datatype WorkKey = WorkKey(kind: Kind, namespace: string, name: string)

  // Whether the workload matches the targets, has a deletion timestamp, and has pods with
  // injected sidecars.
  datatype Work = Work(matched: bool, terminating: bool, injected: bool)

  type Works = map<WorkKey, Work>

  // `seen` are the docker configs the source has held so far.
  datatype State = State(secrets: Secrets, works: Works, seen: set<string>)

  // The configured name and the controller's namespace.
  datatype Setup = Setup(name: string, home: string) {
    function Source(): Key {
      Key(home, name)
    }

    function Copy(namespace: string): Key {
      Key(namespace, name)
    }
  }

  function NewCopy(config: string): Secret {
    Secret(true, config, false, false, false)
  }

  predicate IsCopy(su: Setup, s: Secrets, k: Key) {
    k in s && s[k].labelled && k.namespace != su.home
  }

  function Copies(su: Setup, s: Secrets): set<Key> {
    set k | k in s && IsCopy(su, s, k)
  }

  // ---------------------------------------------------------------- the API server

  // Deleting an object with finalizers only marks it.
  function Delete(s: Secrets, k: Key): Secrets {
    if k !in s then s
    else if s[k].finalizer || s[k].foreign then s[k := s[k].(terminating := true)]
    else s - {k}
  }

  // An update that takes the controller's finalizer away; a marked object goes with its last one.
  function WithoutFinalizer(s: Secrets, k: Key): Secrets
    requires k in s
  {
    if s[k].terminating && !s[k].foreign then s - {k} else s[k := s[k].(finalizer := false)]
  }

  // ---------------------------------------------------------------- the reconcilers

  ghost predicate Deleted(su: Setup, s: Secrets, s': Secrets, copies: set<Key>) {
    && (forall k :: k in copies ==> IsCopy(su, s, k))
    && (forall k :: k in s' <==> k in s && (k !in copies || k in Delete(s, k)))
    && (forall k :: k in s' ==> s'[k] == if k in copies then Delete(s, k)[k] else s[k])
  }

  ghost predicate AllDeleted(su: Setup, s: Secrets, s': Secrets) {
    Deleted(su, s, s', Copies(su, s))
  }

  ghost predicate SomeDeleted(su: Setup, s: Secrets, s': Secrets) {
    exists copies :: Deleted(su, s, s', copies)
  }

  // Labelled secrets get the config, those whose update fails stay as they are.
  ghost predicate Rotated(s: Secrets, s': Secrets, config: string) {
    && s'.Keys == s.Keys
    && forall k :: k in s ==> s'[k] == s[k] || (s[k].labelled && s'[k] == s[k].(config := config))
  }

  // ImagePullSecretReconciler.Reconcile for the source; not ok stands for a returned error.
  ghost predicate ImagePull(su: Setup, s: Secrets, s': Secrets, ok: bool) {
    var source := su.Source();
    if source !in s then s' == s
    else if s[source].terminating then
      if !s[source].finalizer then s' == s
      else if !ok then SomeDeleted(su, s, s')
      else exists cleared :: AllDeleted(su, s, cleared) && source in cleared && s' == WithoutFinalizer(cleared, source)
    else
      var held := s[source := s[source].(finalizer := true)];
      if !ok then s' == s || s' == held else Rotated(held, s', s[source].config)
  }

  // ensureRegistrySecret
  ghost predicate Ensured(su: Setup, s: Secrets, s': Secrets, namespace: string, ok: bool) {
    if su.name == "" || namespace == su.home || su.Copy(namespace) in s then s' == s
    else if su.Source() !in s then s' == s && !ok
    else if ok then s' == s[su.Copy(namespace) := NewCopy(s[su.Source()].config)]
    else s' == s
  }

  // hasMatchedTargetInNamespace; isSameObject compares kind, namespace and name.
  ghost predicate Remaining(works: Works, namespace: string, removed: WorkKey) {
    exists w :: w in works && w.namespace == namespace && w != removed && works[w].matched
  }

  // cleanupRegistrySecretIfLastTarget
  ghost predicate CleanedUp(su: Setup, s: Secrets, s': Secrets, works: Works, removed: WorkKey, ok: bool) {
    if su.name == "" || removed.namespace == su.home || Remaining(works, removed.namespace, removed) || !ok then s' == s
    else s' == Delete(s, su.Copy(removed.namespace))
  }

  // DeploymentReconciler.Reconcile and StatefulSetReconciler.Reconcile, as far as the registry
  // secret goes; an error may also come from the other things they do.
  ghost predicate Reconciled(su: Setup, s: Secrets, s': Secrets, works: Works, w: WorkKey, ok: bool) {
    if w !in works then s' == s
    else if !works[w].matched || works[w].terminating then CleanedUp(su, s, s', works, w, ok)
    else if !works[w].injected then s' == s
    else Ensured(su, s, s', w.namespace, ok) || (!ok && Ensured(su, s, s', w.namespace, true))
  }

  // ---------------------------------------------------------------- runs

  datatype Event = CreateSource(config: string, labelled: bool, foreign: bool)
                 | ChangeSource(newConfig: string)
                 | DeleteSource
                 | DropForeign
                 | ChangeOther(k: Key)
                 | ChangeWorks
                 | ImagePullReconcile(ok: bool)
                 | WorkReconcile(w: WorkKey, done: bool)

  ghost predicate Step(su: Setup, a: State, e: Event, b: State) {
    var source := su.Source();
    match e
    case CreateSource(config, labelled, foreign) =>
      && source !in a.secrets && b.works == a.works && b.seen == a.seen + {config}
      && b.secrets == a.secrets[source := Secret(labelled, config, false, foreign, false)]
    case ChangeSource(config) =>
      && source in a.secrets && b.works == a.works && b.seen == a.seen + {config}
      && b.secrets == a.secrets[source := a.secrets[source].(config := config)]
    case DeleteSource =>
      b == a.(secrets := Delete(a.secrets, source))
    case DropForeign =>
      && source in a.secrets && a.secrets[source].foreign
      && b == a.(secrets := if a.secrets[source].terminating && !a.secrets[source].finalizer then a.secrets - {source}
                            else a.secrets[source := a.secrets[source].(foreign := false)])
    case ChangeOther(k) =>
      && k != source && b.works == a.works && b.seen == a.seen
      && (forall j :: j != k ==> (j in b.secrets <==> j in a.secrets) && (j in a.secrets ==> b.secrets[j] == a.secrets[j]))
      && (k in b.secrets && b.secrets[k].labelled ==> k in a.secrets && a.secrets[k] == b.secrets[k])
    case ChangeWorks =>
      b.secrets == a.secrets && b.seen == a.seen
    case ImagePullReconcile(ok) =>
      b.works == a.works && b.seen == a.seen && ImagePull(su, a.secrets, b.secrets, ok)
    case WorkReconcile(w, ok) =>
      b.works == a.works && b.seen == a.seen && Reconciled(su, a.secrets, b.secrets, a.works, w, ok)
  }

  // What is asked of whoever runs the cluster: the source is not deleted before its first
  // image pull reconcile, and nobody else puts a finalizer on it.
  predicate Careful(su: Setup, a: State, e: Event) {
    match e
    case CreateSource(_, _, foreign) => !foreign
    case DeleteSource => su.Source() in a.secrets ==> a.secrets[su.Source()].finalizer
    case _ => true
  }

  ghost predicate CarefulAt(su: Setup, states: seq<State>, events: seq<Event>, i: nat)
    requires i < |events| && |states| == |events| + 1
  {
    Step(su, states[i], events[i], states[i + 1]) && Careful(su, states[i], events[i])
  }

  ghost predicate CarefulRun(su: Setup, states: seq<State>, events: seq<Event>) {
    && |states| == |events| + 1
    && (forall i :: 0 <= i < |events| ==> CarefulAt(su, states, events, i))
  }

  ghost predicate Fresh(su: Setup, a: State) {
    a.secrets == map[] && a.seen == {}
  }

  // ---------------------------------------------------------------- no orphans

  // No labelled copy outside the controller's namespace without a source.
  ghost predicate NoOrphan(su: Setup, s: Secrets) {
    su.Source() in s || forall k :: k in s ==> !IsCopy(su, s, k)
  }

  ghost predicate Inv(su: Setup, a: State) {
    && NoOrphan(su, a.secrets)
    && (su.Source() in a.secrets ==>
          var source := a.secrets[su.Source()];
          !source.foreign && (source.terminating ==> source.finalizer) && source.config in a.seen)
    && (forall k :: IsCopy(su, a.secrets, k) ==>
          a.secrets[k].config in a.seen && !a.secrets[k].finalizer && !a.secrets[k].foreign && !a.secrets[k].terminating)
  }

  lemma DeletedKeeps(su: Setup, a: State, s': Secrets, copies: set<Key>)
    requires Inv(su, a) && su.Source() in a.secrets && Deleted(su, a.secrets, s', copies)
    ensures su.Source() in s' && s'[su.Source()] == a.secrets[su.Source()]
    ensures forall k :: k in s' <==> k in a.secrets && k !in copies
    ensures forall k :: k in s' ==> s'[k] == a.secrets[k]
  {
    forall k: Key | k in copies ensures IsCopy(su, a.secrets, k) && Delete(a.secrets, k) == a.secrets - {k} {
    }
  }

  lemma ImagePullKeeps(su: Setup, a: State, s': Secrets, ok: bool)
    requires Inv(su, a) && ImagePull(su, a.secrets, s', ok)
    ensures Inv(su, a.(secrets := s'))
  {
    var s, source := a.secrets, su.Source();
    if source in s && s[source].terminating {
      if ok {
        var cleared :| AllDeleted(su, s, cleared) && source in cleared && s' == WithoutFinalizer(cleared, source);
        DeletedKeeps(su, a, cleared, Copies(su, s));
        assert forall k :: IsCopy(su, s', k) ==> IsCopy(su, s, k);
      } else {
        var copies :| Deleted(su, s, s', copies);
        DeletedKeeps(su, a, s', copies);
      }
    }
  }

  lemma ReconciledKeeps(su: Setup, a: State, s': Secrets, w: WorkKey, ok: bool)
    requires Inv(su, a) && Reconciled(su, a.secrets, s', a.works, w, ok)
    ensures Inv(su, a.(secrets := s'))
  {
    assert forall k :: IsCopy(su, s', k) && k in a.secrets && s'[k] == a.secrets[k] ==> IsCopy(su, a.secrets, k);
  }

  lemma StepKeeps(su: Setup, a: State, e: Event, b: State)
    requires Inv(su, a) && Step(su, a, e, b) && Careful(su, a, e)
    ensures Inv(su, b)
  {
    if e.ImagePullReconcile? {
      ImagePullKeeps(su, a, b.secrets, e.ok);
    } else if e.WorkReconcile? {
      ReconciledKeeps(su, a, b.secrets, e.w, e.done);
    } else {
      assert forall k :: IsCopy(su, b.secrets, k) ==> IsCopy(su, a.secrets, k) && a.secrets[k] == b.secrets[k];
    }
  }

  // In every careful run, at every moment: without the source there is no labelled copy
  // outside its namespace, and every copy holds a config that the source once held.
  lemma {:induction false} NoOrphans(su: Setup, states: seq<State>, events: seq<Event>, n: nat)
    requires CarefulRun(su, states, events) && Fresh(su, states[0]) && n < |states|
    ensures Inv(su, states[n])
  {
    if n > 0 {
      NoOrphans(su, states, events, n - 1);
      assert CarefulAt(su, states, events, n - 1);
      StepKeeps(su, states[n - 1], events[n - 1], states[n]);
    }
  }

  // Nobody but the source carries finalizers.
  ghost predicate CleanCopies(su: Setup, s: Secrets) {
    forall k :: IsCopy(su, s, k) ==> !Held(s[k])
  }

  // The two steps that drop a source behind the controller's back: deleting one that nothing
  // holds, and taking somebody else's finalizer, the last one, off a marked one.
  ghost predicate DropsSource(su: Setup, a: State, e: Event) {
    && su.Source() in a.secrets
    && var source := a.secrets[su.Source()];
       (e.DeleteSource? && !Held(source)) || (e.DropForeign? && source.terminating && !source.finalizer)
  }

  lemma ClearedAll(su: Setup, s: Secrets, s': Secrets)
    requires CleanCopies(su, s) && AllDeleted(su, s, s')
    ensures forall k :: k in s' ==> k in s && s'[k] == s[k] && !IsCopy(su, s', k)
    ensures su.Source() in s ==> su.Source() in s'
  {
    forall k: Key | k in Copies(su, s) ensures Delete(s, k) == s - {k} {
      assert IsCopy(su, s, k);
    }
  }

  lemma SomeCleared(su: Setup, s: Secrets, s': Secrets)
    requires CleanCopies(su, s) && SomeDeleted(su, s, s') && su.Source() in s
    ensures su.Source() in s' && forall k :: k in s' ==> k in s && s'[k] == s[k]
  {
    var copies :| Deleted(su, s, s', copies);
    forall k: Key | k in copies ensures Delete(s, k) == s - {k} {
      assert IsCopy(su, s, k);
    }
  }

  lemma ImagePullOrphans(su: Setup, s: Secrets, s': Secrets, ok: bool)
    requires NoOrphan(su, s) && CleanCopies(su, s) && ImagePull(su, s, s', ok)
    ensures NoOrphan(su, s') && CleanCopies(su, s')
    ensures ok && su.Source() in s ==>
              (su.Source() in s' <==> !(s[su.Source()].terminating && s[su.Source()].finalizer && !s[su.Source()].foreign))
  {
    var source := su.Source();
    if source in s && s[source].terminating && s[source].finalizer {
      if ok {
        var cleared :| AllDeleted(su, s, cleared) && source in cleared && s' == WithoutFinalizer(cleared, source);
        ClearedAll(su, s, cleared);
        assert forall k :: IsCopy(su, s', k) ==> IsCopy(su, cleared, k);
      } else {
        SomeCleared(su, s, s');
        assert forall k :: IsCopy(su, s', k) ==> IsCopy(su, s, k);
      }
    } else {
      assert forall k :: IsCopy(su, s', k) ==> IsCopy(su, s, k) && s'[k].finalizer == s[k].finalizer && s'[k].foreign == s[k].foreign;
    }
  }

  lemma ReconciledOrphans(su: Setup, s: Secrets, s': Secrets, works: Works, w: WorkKey, ok: bool)
    requires NoOrphan(su, s) && CleanCopies(su, s) && Reconciled(su, s, s', works, w, ok)
    ensures NoOrphan(su, s') && CleanCopies(su, s')
  {
    assert forall k :: IsCopy(su, s', k) && k in s && s'[k].labelled == s[k].labelled ==> IsCopy(su, s, k);
  }

  // Exactly when a step, careful or not, leaves an orphan: when it is one of the two that drop
  // the source, and a copy is there.
  lemma StepOrphans(su: Setup, a: State, e: Event, b: State)
    requires NoOrphan(su, a.secrets) && CleanCopies(su, a.secrets) && Step(su, a, e, b)
    ensures NoOrphan(su, b.secrets) <==> !(DropsSource(su, a, e) && Copies(su, a.secrets) != {})
    ensures CleanCopies(su, b.secrets)
  {
    if e.ImagePullReconcile? {
      ImagePullOrphans(su, a.secrets, b.secrets, e.ok);
    } else if e.WorkReconcile? {
      ReconciledOrphans(su, a.secrets, b.secrets, a.works, e.w, e.done);
    } else {
      OthersOrphans(su, a, e, b);
    }
  }

  lemma OthersOrphans(su: Setup, a: State, e: Event, b: State)
    requires NoOrphan(su, a.secrets) && CleanCopies(su, a.secrets) && Step(su, a, e, b)
    requires !e.ImagePullReconcile? && !e.WorkReconcile?
    ensures NoOrphan(su, b.secrets) <==> !(DropsSource(su, a, e) && Copies(su, a.secrets) != {})
    ensures CleanCopies(su, b.secrets)
  {
    assert forall k :: IsCopy(su, b.secrets, k) ==> IsCopy(su, a.secrets, k) && a.secrets[k] == b.secrets[k];
    if DropsSource(su, a, e) && Copies(su, a.secrets) != {} {
      var k :| k in Copies(su, a.secrets);
      assert IsCopy(su, b.secrets, k) && su.Source() !in b.secrets;
    }
  }

  // For deletion this says: no orphan if and only if the finalizer is on the source by then,
  // or there is no copy yet.
  lemma DeleteSourceOrphans(su: Setup, a: State, b: State)
    requires Inv(su, a) && su.Source() in a.secrets && Step(su, a, DeleteSource, b)
    ensures NoOrphan(su, b.secrets)
            <==> a.secrets[su.Source()].finalizer || forall k :: k in a.secrets ==> !IsCopy(su, a.secrets, k)
  {
    StepOrphans(su, a, DeleteSource, b);
    assert Copies(su, a.secrets) == {} <==> forall k :: k in a.secrets ==> !IsCopy(su, a.secrets, k) by {
      if k :| IsCopy(su, a.secrets, k) {
        assert k in Copies(su, a.secrets);
      }
    }
  }

  // For the last finalizer of somebody else, in any state whatsoever: no orphan if and only if
  // the source is not marked, or the controller's finalizer is still on, or there is no copy.
  lemma DropForeignOrphans(su: Setup, a: State, b: State)
    requires Step(su, a, DropForeign, b)
    ensures NoOrphan(su, b.secrets)
            <==> !(a.secrets[su.Source()].terminating && !a.secrets[su.Source()].finalizer) || Copies(su, a.secrets) == {}
  {
    assert forall k :: IsCopy(su, b.secrets, k) <==> k in Copies(su, a.secrets);
  }

  ghost predicate StepAt(su: Setup, states: seq<State>, events: seq<Event>, i: nat)
    requires i < |events| && |states| == |events| + 1
  {
    Step(su, states[i], events[i], states[i + 1])
  }

  // Any run, careful or not.
  ghost predicate Chain(su: Setup, states: seq<State>, events: seq<Event>) {
    |states| == |events| + 1 && forall i :: 0 <= i < |events| ==> StepAt(su, states, events, i)
  }

  // Over every run: an orphan can only come of a step that dropped the source while a copy was
  // there; without such a step there never is one.
  lemma {:induction false} OrphansComeFrom(su: Setup, states: seq<State>, events: seq<Event>, n: nat)
    requires Chain(su, states, events) && Fresh(su, states[0]) && n < |states|
    requires forall i :: 0 <= i < n ==> !(DropsSource(su, states[i], events[i]) && Copies(su, states[i].secrets) != {})
    ensures NoOrphan(su, states[n].secrets) && CleanCopies(su, states[n].secrets)
  {
    if n > 0 {
      OrphansComeFrom(su, states, events, n - 1);
      assert StepAt(su, states, events, n - 1);
      StepOrphans(su, states[n - 1], events[n - 1], states[n]);
    }
  }

  // ---------------------------------------------------------------- copies follow the source

  ghost predicate Synced(su: Setup, s: Secrets) {
    su.Source() in s && forall k :: IsCopy(su, s, k) ==> s[k].config == s[su.Source()].config
  }

  // An image pull reconcile all of whose updates succeed brings every copy to the source's
  // config, and only then.
  lemma ImagePullSyncs(su: Setup, s: Secrets, s': Secrets)
    requires su.Source() in s && !s[su.Source()].terminating && ImagePull(su, s, s', true)
    ensures s'.Keys == s.Keys && s'[su.Source()].finalizer && s'[su.Source()].config == s[su.Source()].config
    ensures Synced(su, s') <==> forall k :: IsCopy(su, s, k) ==> s'[k] == s[k].(config := s[su.Source()].config)
  {
    assert forall k :: IsCopy(su, s', k) <==> IsCopy(su, s, k);
  }

  // Until the source changes or goes, nothing brings a copy out of step again.
  lemma SyncedStays(su: Setup, a: State, e: Event, b: State)
    requires Inv(su, a) && Synced(su, a.secrets) && Step(su, a, e, b) && Careful(su, a, e)
    requires !e.ChangeSource? && su.Source() in b.secrets
    ensures Synced(su, b.secrets)
  {
    var s, source := a.secrets, su.Source();
    if e.ImagePullReconcile? && s[source].terminating && !e.ok {
      var copies :| Deleted(su, s, b.secrets, copies);
      DeletedKeeps(su, a, b.secrets, copies);
    }
    assert forall k :: IsCopy(su, b.secrets, k) && k in s && s[k].labelled ==> IsCopy(su, s, k);
  }

  // Over runs: from an image pull reconcile that reached every copy, each copy equals the
  // source for as long as the source is there and its config does not change, whatever is
  // propagated, cleaned up or rotated meanwhile.
  lemma {:induction false} CopiesFollow(su: Setup, states: seq<State>, events: seq<Event>, k: nat, n: nat)
    requires CarefulRun(su, states, events) && Fresh(su, states[0]) && k <= n < |states|
    requires Synced(su, states[k].secrets)
    requires forall i :: k <= i < n ==> !events[i].ChangeSource?
    requires forall i :: k <= i <= n ==> su.Source() in states[i].secrets
    ensures Synced(su, states[n].secrets)
  {
    if k < n {
      CopiesFollow(su, states, events, k, n - 1);
      NoOrphans(su, states, events, n - 1);
      var a, e, b := states[n - 1], events[n - 1], states[n];
      assert CarefulAt(su, states, events, n - 1);
      assert Step(su, a, e, b) && Careful(su, a, e);
      SyncedStays(su, a, e, b);
    }
  }

  // The copy of a namespace stays through every run in which a matched target that is not
  // being deleted stays there, the source is not marked for deletion and nobody else takes
  // the copy away.
  lemma {:induction false} CopyStaysThroughout(su: Setup, states: seq<State>, events: seq<Event>, t: WorkKey, k: nat, n: nat)
    requires CarefulRun(su, states, events) && k <= n < |states| && t.namespace != su.home
    requires su.Copy(t.namespace) in states[k].secrets
    requires forall i :: k <= i < n ==>
               && t in states[i].works && states[i].works[t].matched && !states[i].works[t].terminating
               && (su.Source() in states[i].secrets ==> !states[i].secrets[su.Source()].terminating)
               && events[i] != ChangeOther(su.Copy(t.namespace))
    ensures su.Copy(t.namespace) in states[n].secrets
  {
    if k < n {
      CopyStaysThroughout(su, states, events, t, k, n - 1);
      var a, e, b := states[n - 1], events[n - 1], states[n];
      assert CarefulAt(su, states, events, n - 1);
      if e.WorkReconcile? {
        CopyStays(su, a, e.w, e.done, b, t);
      }
    }
  }

  // ---------------------------------------------------------------- what a workload reconcile does

  // No workload reconcile touches the copy of a namespace in which a matched target that is
  // not being deleted stays.
  lemma CopyStays(su: Setup, a: State, w: WorkKey, ok: bool, b: State, t: WorkKey)
    requires Step(su, a, WorkReconcile(w, ok), b)
    requires t in a.works && a.works[t].matched && !a.works[t].terminating
    requires su.Copy(t.namespace) in a.secrets
    ensures su.Copy(t.namespace) in b.secrets && b.secrets[su.Copy(t.namespace)] == a.secrets[su.Copy(t.namespace)]
  {
    if w in a.works && w.namespace == t.namespace && w != t {
      assert Remaining(a.works, w.namespace, w);
    }
  }

  // The reconciled workload has left the targets or is being deleted, and no other workload
  // of its namespace matches, being deleted or not.
  ghost predicate LastToLeave(works: Works, w: WorkKey) {
    w in works && (!works[w].matched || works[w].terminating) && !Remaining(works, w.namespace, w)
  }

  predicate Held(s: Secret) {
    s.finalizer || s.foreign
  }

  // The secret of the configured name goes if and only if the reconciled workload is the last
  // to leave and nothing holds the secret; one that is held is marked, and in every other
  // case the secret stays as it is. It need not be a copy.
  lemma CopyGoes(su: Setup, a: State, w: WorkKey, b: State)
    requires su.name != "" && w.namespace != su.home && su.Copy(w.namespace) in a.secrets
    requires Step(su, a, WorkReconcile(w, true), b)
    ensures var k := su.Copy(w.namespace);
            && (k !in b.secrets <==> LastToLeave(a.works, w) && !Held(a.secrets[k]))
            && (k in b.secrets ==>
                  b.secrets[k] == if LastToLeave(a.works, w) then a.secrets[k].(terminating := true) else a.secrets[k])
  {
  }

  // A target with injected pods finds a secret in its namespace after a successful reconcile.
  lemma CopyComes(su: Setup, a: State, w: WorkKey, b: State)
    requires su.name != "" && w.namespace != su.home && Step(su, a, WorkReconcile(w, true), b)
    requires w in a.works && a.works[w] == Work(true, false, true)
    ensures su.Copy(w.namespace) in b.secrets
    ensures su.Copy(w.namespace) !in a.secrets ==>
              su.Source() in a.secrets && b.secrets[su.Copy(w.namespace)] == NewCopy(a.secrets[su.Source()].config)
  {
  }

  // Over every careful run: once a target with injected pods has been reconciled, its
  // namespace has the copy for as long as the target stays, the source is not marked and
  // nobody else takes the copy away.
  lemma TargetHasCopy(su: Setup, states: seq<State>, events: seq<Event>, t: WorkKey, k: nat, n: nat)
    requires CarefulRun(su, states, events) && k < n < |states| && su.name != "" && t.namespace != su.home
    requires events[k] == WorkReconcile(t, true) && t in states[k].works && states[k].works[t] == Work(true, false, true)
    requires forall i :: k < i < n ==>
               && t in states[i].works && states[i].works[t].matched && !states[i].works[t].terminating
               && (su.Source() in states[i].secrets ==> !states[i].secrets[su.Source()].terminating)
               && events[i] != ChangeOther(su.Copy(t.namespace))
    ensures su.Copy(t.namespace) in states[n].secrets
  {
    assert CarefulAt(su, states, events, k);
    CopyComes(su, states[k], t, states[k + 1]);
    CopyStaysThroughout(su, states, events, t, k + 1, n);
  }

  // The reconcilers leave the controller's namespace alone: they only drop the source itself,
  // and only when it is marked and carries the finalizer.
  lemma HomeStays(su: Setup, a: State, e: Event, b: State, k: Key)
    requires Step(su, a, e, b) && (e.ImagePullReconcile? || e.WorkReconcile?)
    requires k in a.secrets && k.namespace == su.home
    requires k == su.Source() ==> !(a.secrets[k].terminating && a.secrets[k].finalizer)
    ensures k in b.secrets
    ensures !a.secrets[k].labelled && k != su.Source() ==> b.secrets[k] == a.secrets[k]
  {
    var s, source := a.secrets, su.Source();
    if e.ImagePullReconcile? && source in s && s[source].terminating && s[source].finalizer {
      if e.ok {
        var cleared :| AllDeleted(su, s, cleared) && source in cleared && b.secrets == WithoutFinalizer(cleared, source);
        assert k !in Copies(su, s);
      } else {
        var copies :| Deleted(su, s, b.secrets, copies);
        assert k !in copies;
      }
    }
  }

  // ---------------------------------------------------------------- where copies are left behind

  // The source as it is created with a finalizer of somebody else on it, and what becomes of it.
  function SourceAt(config: string, finalizer: bool, terminating: bool): Secret {
    Secret(false, config, finalizer, true, terminating)
  }

  function With(su: Setup, w: WorkKey, config: string, secrets: Secrets): State {
    State(secrets, map[w := Work(true, false, true)], {config})
  }

  lemma ForeignStart(su: Setup, w: WorkKey, config: string)
    ensures var source := su.Source();
            var created := With(su, w, config, map[source := SourceAt(config, false, false)]);
            var held := With(su, w, config, map[source := SourceAt(config, true, false)]);
            && Step(su, State(map[], map[w := Work(true, false, true)], {}), CreateSource(config, false, true), created)
            && Step(su, created, ImagePullReconcile(true), held)
            && Step(su, held, DeleteSource, With(su, w, config, map[source := SourceAt(config, true, true)]))
  {
    var source := su.Source();
    var held := map[source := SourceAt(config, true, false)];
    assert Rotated(held, held, config);
  }

  lemma ForeignEnd(su: Setup, w: WorkKey, config: string)
    requires su.name != "" && w.namespace != su.home
    ensures var source, copy := su.Source(), su.Copy(w.namespace);
            var marked := With(su, w, config, map[source := SourceAt(config, true, true)]);
            var left := With(su, w, config, map[source := SourceAt(config, false, true)]);
            var both := With(su, w, config, map[source := SourceAt(config, false, true), copy := NewCopy(config)]);
            var orphan := With(su, w, config, map[copy := NewCopy(config)]);
            && Step(su, marked, ImagePullReconcile(true), left)
            && Step(su, left, WorkReconcile(w, true), both)
            && Step(su, both, DropForeign, orphan)
            && !NoOrphan(su, orphan.secrets)
  {
    var source, copy := su.Source(), su.Copy(w.namespace);
    var marked := map[source := SourceAt(config, true, true)];
    assert Copies(su, marked) == {};
    assert AllDeleted(su, marked, marked);
    assert IsCopy(su, map[copy := NewCopy(config)], copy);
  }

  // Such a run: a finalizer of somebody else outlives the controller's, and a copy made in
  // between is left.
  lemma ForeignFinalizerLeaks(su: Setup, w: WorkKey, config: string) returns (states: seq<State>, events: seq<Event>)
    requires su.name != "" && w.namespace != su.home
    ensures Chain(su, states, events) && Fresh(su, states[0])
    ensures !NoOrphan(su, states[|states| - 1].secrets)
  {
    var source, copy := su.Source(), su.Copy(w.namespace);
    ForeignStart(su, w, config);
    ForeignEnd(su, w, config);
    states := [State(map[], map[w := Work(true, false, true)], {}),
               With(su, w, config, map[source := SourceAt(config, false, false)]),
               With(su, w, config, map[source := SourceAt(config, true, false)]),
               With(su, w, config, map[source := SourceAt(config, true, true)]),
               With(su, w, config, map[source := SourceAt(config, false, true)]),
               With(su, w, config, map[source := SourceAt(config, false, true), copy := NewCopy(config)]),
               With(su, w, config, map[copy := NewCopy(config)])];
    events := [CreateSource(config, false, true), ImagePullReconcile(true), DeleteSource, ImagePullReconcile(true),
               WorkReconcile(w, true), DropForeign];
  }

  // Two workloads of a namespace that both leave, one after the other while the other is
  // still listed: the secret stays if and only if each of them finds a match besides itself.
  // When nothing else matches, that is: when both are deleted while they match.
  lemma LastTargetsLeak(su: Setup, a: State, v: WorkKey, w: WorkKey, b: State, c: State)
    requires su.name != "" && v != w && v.namespace == w.namespace != su.home && v in a.works && w in a.works
    requires !a.works[v].matched || a.works[v].terminating
    requires !a.works[w].matched || a.works[w].terminating
    requires su.Copy(w.namespace) in a.secrets && !Held(a.secrets[su.Copy(w.namespace)])
    requires Step(su, a, WorkReconcile(v, true), b) && Step(su, b, WorkReconcile(w, true), c)
    ensures su.Copy(w.namespace) in c.secrets
            <==> Remaining(a.works, w.namespace, v) && Remaining(a.works, w.namespace, w)
    ensures (forall u :: u in a.works && u.namespace == w.namespace && a.works[u].matched ==> u == v || u == w) ==>
              (su.Copy(w.namespace) in c.secrets <==> a.works[v].matched && a.works[w].matched)
  {
    CopyGoes(su, a, v, b);
    if su.Copy(w.namespace) in b.secrets {
      CopyGoes(su, b, w, c);
    }
  }

  // The reconcile of the last workload to leave a namespace.
  ghost predicate LastLeaves(a: State, e: Event, namespace: string) {
    e.WorkReconcile? && e.done && e.w.namespace == namespace && LastToLeave(a.works, e.w)
  }

  lemma StepLeaves(su: Setup, a: State, e: Event, b: State, namespace: string)
    requires Step(su, a, e, b) && su.name != "" && namespace != su.home
    requires su.Copy(namespace) in a.secrets && !Held(a.secrets[su.Copy(namespace)])
    requires e != ChangeOther(su.Copy(namespace))
    requires su.Source() in a.secrets ==> !a.secrets[su.Source()].terminating
    ensures su.Copy(namespace) in b.secrets <==> !LastLeaves(a, e, namespace)
    ensures su.Copy(namespace) in b.secrets ==> !Held(b.secrets[su.Copy(namespace)])
  {
    if e.WorkReconcile? && e.done && e.w.namespace == namespace {
      CopyGoes(su, a, e.w, b);
    }
  }

  // Over every run in which the source is not marked and nobody else touches the secret: it
  // stays throughout if and only if no workload was reconciled as the last to leave. That
  // every matched workload has gone is not enough.
  lemma {:induction false} CopyOutlives(su: Setup, states: seq<State>, events: seq<Event>, namespace: string, k: nat, n: nat)
    requires Chain(su, states, events) && k <= n < |states| && su.name != "" && namespace != su.home
    requires su.Copy(namespace) in states[k].secrets && !Held(states[k].secrets[su.Copy(namespace)])
    requires forall i :: k <= i < n ==>
               && events[i] != ChangeOther(su.Copy(namespace))
               && (su.Source() in states[i].secrets ==> !states[i].secrets[su.Source()].terminating)
    ensures (forall i :: k <= i <= n ==> su.Copy(namespace) in states[i].secrets)
            <==> forall i :: k <= i < n ==> !LastLeaves(states[i], events[i], namespace)
    ensures (forall i :: k <= i <= n ==> su.Copy(namespace) in states[i].secrets) ==>
              !Held(states[n].secrets[su.Copy(namespace)])
  {
    if k < n {
      CopyOutlives(su, states, events, namespace, k, n - 1);
      assert StepAt(su, states, events, n - 1);
      if forall i :: k <= i < n ==> su.Copy(namespace) in states[i].secrets {
        StepLeaves(su, states[n - 1], events[n - 1], states[n], namespace);
      }
    }
  }

  // So a workload that is removed outright, without ever being reconciled as one that leaves,
  // leaves the secret behind: with no workload left in the namespace nothing takes it away.
  lemma RemovedOutright(su: Setup, states: seq<State>, events: seq<Event>, namespace: string, k: nat, n: nat)
    requires Chain(su, states, events) && k <= n < |states| && su.name != "" && namespace != su.home
    requires su.Copy(namespace) in states[k].secrets && !Held(states[k].secrets[su.Copy(namespace)])
    requires forall i :: k <= i < n ==>
               && events[i] != ChangeOther(su.Copy(namespace))
               && (su.Source() in states[i].secrets ==> !states[i].secrets[su.Source()].terminating)
               && forall w :: w in states[i].works ==> w.namespace != namespace
    ensures su.Copy(namespace) in states[n].secrets
  {
    CopyOutlives(su, states, events, namespace, k, n);
  }

  // A secret of that name that the controller did not make is taken for the copy: it is
  // deleted under exactly the same condition.
  lemma CleanupTakesOther(su: Setup, a: State, w: WorkKey, b: State)
    requires su.name != "" && w.namespace != su.home && su.Copy(w.namespace) in a.secrets
    requires !a.secrets[su.Copy(w.namespace)].labelled && !Held(a.secrets[su.Copy(w.namespace)])
    requires Step(su, a, WorkReconcile(w, true), b)
    ensures su.Copy(w.namespace) !in b.secrets <==> LastToLeave(a.works, w)
  {
    CopyGoes(su, a, w, b);
  }

  // Calls that are not single steps: a copy created from a source that was read before an
  // image pull reconcile is an orphan if and only if that reconcile dropped the source, which
  // it does to one that is marked and held by the controller's finalizer alone.
  lemma SplitEnsureLeaks(su: Setup, a: State, b: State, namespace: string)
    requires NoOrphan(su, a.secrets) && CleanCopies(su, a.secrets) && namespace != su.home && su.Source() in a.secrets
    requires Step(su, a, ImagePullReconcile(true), b)
    ensures var source := a.secrets[su.Source()];
            NoOrphan(su, b.secrets[su.Copy(namespace) := NewCopy(source.config)])
            <==> !(source.terminating && source.finalizer && !source.foreign)
  {
    ImagePullOrphans(su, a.secrets, b.secrets, true);
    var after := b.secrets[su.Copy(namespace) := NewCopy(a.secrets[su.Source()].config)];
    assert IsCopy(su, after, su.Copy(namespace));
  }
}
