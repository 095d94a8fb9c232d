// The reconcilers of the registry secret as they run, against an API server any of whose
// calls may fail. Lists come back in any order.

module RegistryReconcilers {
  import opened Registry

  class Controller {
    const su: Setup
    var secrets: Secrets
    var works: Works

    constructor (su: Setup)
      ensures this.su == su && secrets == map[] && works == map[]
    {
      this.su, secrets, works := su, map[], map[];
    }

    // ImagePullSecretReconciler.Reconcile
    method ImagePullReconcile() returns (ok: bool)
      modifies this`secrets
      ensures ImagePull(su, old(secrets), secrets, ok)
    {
      ghost var before := secrets;
      NothingDeleted(su, before);
      var source := su.Source();
      var up: bool := *;
      if !up || source !in secrets {
        return up;
      }
      if secrets[source].terminating {
        if !secrets[source].finalizer {
          return true;
        }
        ok := DeletePropagatedSecrets();
        up := *;
        if !ok || !up {
          return false;
        }
        SourceStays(su, before, secrets, Copies(su, before));
        secrets := WithoutFinalizer(secrets, source);
        return true;
      }
      if !secrets[source].finalizer {
        up := *;
        if !up {
          return false;
        }
        secrets := secrets[source := secrets[source].(finalizer := true)];
      }
      assert secrets == before[source := before[source].(finalizer := true)];
      up := *;
      if !up {
        return false;
      }
      Rotate(secrets[source].config);
      return true;
    }

    // The update loop; a failed update is logged and the loop goes on.
    method Rotate(config: string)
      modifies this`secrets
      ensures Rotated(old(secrets), secrets, config)
    {
      var items := set k | k in secrets && secrets[k].labelled;
      ghost var before := secrets;
      while items != {}
        invariant secrets.Keys == before.Keys && forall k :: k in items ==> k in secrets
        invariant forall k :: k in before ==>
                    secrets[k] == before[k] || (before[k].labelled && secrets[k] == before[k].(config := config))
        invariant forall k :: k in items ==> secrets[k].labelled
        decreases |items|
      {
        var k :| k in items;
        items := items - {k};
        var up: bool := *;
        if !up {
          continue;
        }
        secrets := secrets[k := secrets[k].(config := config)];
      }
    }

    // deletePropagatedSecrets; the first failure ends it.
    method DeletePropagatedSecrets() returns (ok: bool)
      modifies this`secrets
      ensures if ok then AllDeleted(su, old(secrets), secrets) else SomeDeleted(su, old(secrets), secrets)
    {
      ghost var before := secrets;
      NothingDeleted(su, before);
      var up: bool := *;
      if !up {
        return false;
      }
      var items := set k | k in secrets && secrets[k].labelled;
      ghost var done: set<Key> := {};
      while items != {}
        invariant Deleted(su, before, secrets, done)
        invariant forall k :: k in items ==> k in before && before[k].labelled && k !in done
        invariant forall k :: k in Copies(su, before) ==> k in items || k in done
        decreases |items|
      {
        var k :| k in items;
        items := items - {k};
        if k.namespace == su.home {
          continue;
        }
        up := *;
        if !up {
          return false;
        }
        DeletedOneMore(su, before, secrets, done, k);
        secrets := Delete(secrets, k);
        done := done + {k};
      }
      assert done == Copies(su, before);
      return true;
    }

    // ensureRegistrySecret
    method EnsureRegistrySecret(namespace: string) returns (ok: bool)
      modifies this`secrets
      ensures Ensured(su, old(secrets), secrets, namespace, ok)
    {
      if su.name == "" || namespace == su.home {
        return true;
      }
      var up: bool := *;
      if !up {
        return false;
      }
      if su.Copy(namespace) in secrets {
        return true;
      }
      up := *;
      if !up || su.Source() !in secrets {
        return false;
      }
      var source := secrets[su.Source()];
      up := *;
      if !up {
        return false;
      }
      secrets := secrets[su.Copy(namespace) := NewCopy(source.config)];
      return true;
    }

    // hasMatchedTargetInNamespace: one list for each kind of workload.
    method HasMatchedTargetInNamespace(namespace: string, removed: WorkKey) returns (ok: bool, remaining: bool)
      ensures ok ==> (remaining <==> Remaining(works, namespace, removed))
    {
      ok, remaining := MatchedOfKind(Deployment, namespace, removed);
      if !ok || remaining {
        return;
      }
      ok, remaining := MatchedOfKind(StatefulSet, namespace, removed);
    }

    method MatchedOfKind(kind: Kind, namespace: string, removed: WorkKey) returns (ok: bool, remaining: bool)
      ensures ok ==> (remaining <==> exists w :: w in works && w.kind == kind && w.namespace == namespace
                                                 && w != removed && works[w].matched)
    {
      var up: bool := *;
      if !up {
        return false, false;
      }
      var items := set w | w in works && w.kind == kind && w.namespace == namespace;
      while items != {}
        invariant forall w :: w in items ==> w in works && w.kind == kind && w.namespace == namespace
        invariant forall w :: w in works && w.kind == kind && w.namespace == namespace && w != removed && works[w].matched ==>
                    w in items
        decreases |items|
      {
        var w :| w in items;
        items := items - {w};
        if w == removed {
          continue;
        }
        if works[w].matched {
          return true, true;
        }
      }
      return true, false;
    }

    // cleanupRegistrySecretIfLastTarget
    method CleanupRegistrySecretIfLastTarget(removed: WorkKey) returns (ok: bool)
      modifies this`secrets
      ensures CleanedUp(su, old(secrets), secrets, works, removed, ok)
    {
      if su.name == "" || removed.namespace == su.home {
        return true;
      }
      var remaining;
      ok, remaining := HasMatchedTargetInNamespace(removed.namespace, removed);
      if !ok || remaining {
        return;
      }
      var up: bool := *;
      if !up {
        return false;
      }
      secrets := Delete(secrets, su.Copy(removed.namespace));
    }

    // DeploymentReconciler.Reconcile and StatefulSetReconciler.Reconcile. Pruning and the
    // dependency reconcile do not touch the registry secret, but may fail.
    method Reconcile(w: WorkKey) returns (ok: bool)
      modifies this`secrets
      ensures Reconciled(su, old(secrets), secrets, works, w, ok)
    {
      var up: bool := *;
      if !up || w !in works {
        return up;
      }
      if !works[w].matched {
        var pruned: bool := *;
        if !pruned {
          return false;
        }
        ok := CleanupRegistrySecretIfLastTarget(w);
        return;
      }
      if works[w].terminating {
        ok := CleanupRegistrySecretIfLastTarget(w);
        return;
      }
      if !works[w].injected {
        return true;
      }
      ok := EnsureRegistrySecret(w.namespace);
      if !ok {
        return;
      }
      var dependencies: bool := *;
      return dependencies;
    }
  }

  lemma NothingDeleted(su: Setup, s: Secrets)
    ensures Deleted(su, s, s, {}) && SomeDeleted(su, s, s)
  {
    var none: set<Key> := {};
    assert Deleted(su, s, s, none);
  }

  lemma DeletedOneMore(su: Setup, s: Secrets, now: Secrets, done: set<Key>, k: Key)
    requires Deleted(su, s, now, done) && k !in done && IsCopy(su, s, k)
    ensures Deleted(su, s, Delete(now, k), done + {k})
  {
    assert now[k] == s[k];
  }

  lemma SourceStays(su: Setup, s: Secrets, now: Secrets, copies: set<Key>)
    requires Deleted(su, s, now, copies) && su.Source() in s
    ensures su.Source() in now
  {
    assert su.Source() !in copies;
  }
}
