// The loop that deletes the --redirect-url arguments from a container's argument slice while
// it ranges over the slice as it was (pkg/webhook/pod-webhook.go). Deleting shifts the rest
// of the backing array down and clears its tail, so the element after a deleted one is
// not looked at.

module RedirectArgs {
  import opened GoStrings

  const REDIRECT_FLAG := "--redirect-url"

  predicate IsRedirect(arg: string) {
    HasPrefix(arg, REDIRECT_FLAG)
  }

  // What the loop leaves.
  function ScanDelete(args: seq<string>): (r: seq<string>)
    ensures |r| <= |args|
  {
    if args == [] then []
    else if !IsRedirect(args[0]) then [args[0]] + ScanDelete(args[1..])
    else if |args| == 1 then []
    else [args[1]] + ScanDelete(args[2..])
  }

  // What it is meant to leave: every other argument, in order.
  function Others(args: seq<string>): (r: seq<string>)
    ensures |r| <= |args|
    ensures forall i :: 0 <= i < |r| ==> !IsRedirect(r[i]) && r[i] in args
  {
    if args == [] then []
    else if IsRedirect(args[0]) then Others(args[1..])
    else [args[0]] + Others(args[1..])
  }

  ghost predicate Neighbours(args: seq<string>) {
    exists i, j :: 0 <= i < j < |args| && j == i + 1 && IsRedirect(args[i]) && IsRedirect(args[j])
  }

  lemma NeighboursLater(args: seq<string>, n: nat)
    requires n <= |args| && Neighbours(args[n..])
    ensures Neighbours(args)
  {
    var rest := args[n..];
    var i, j :| 0 <= i < j < |rest| && j == i + 1 && IsRedirect(rest[i]) && IsRedirect(rest[j]);
    assert args[n + i] == rest[i] && args[n + j] == rest[j];
  }

  lemma NeighboursFirst(args: seq<string>)
    requires Neighbours(args)
    ensures |args| >= 2
    ensures (IsRedirect(args[0]) && IsRedirect(args[1])) || Neighbours(args[1..])
  {
    var i, j :| 0 <= i < j < |args| && j == i + 1 && IsRedirect(args[i]) && IsRedirect(args[j]);
    if i > 0 {
      var rest := args[1..];
      assert IsRedirect(rest[i - 1]) && IsRedirect(rest[j - 1]);
    }
  }

  lemma {:induction false} OthersOfSurvivors(args: seq<string>)
    ensures Others(ScanDelete(args)) == Others(args)
    decreases |args|
  {
    if args != [] {
      if !IsRedirect(args[0]) {
        OthersOfSurvivors(args[1..]);
      } else if |args| >= 2 {
        OthersOfSurvivors(args[2..]);
        assert args[1..][0] == args[1] && args[1..][1..] == args[2..];
      }
    }
  }

  // The loop removes all of them if and only if no two stand side by side.
  lemma {:induction false} DeletesAll(args: seq<string>)
    ensures ScanDelete(args) == Others(args) <==> !Neighbours(args)
    decreases |args|
  {
    if |args| < 2 {
      assert |args| == 1 ==> args[1..] == [];
    } else if !IsRedirect(args[0]) {
      DeletesAll(args[1..]);
      Same(args[0], ScanDelete(args[1..]), Others(args[1..]));
      if Neighbours(args) { NeighboursFirst(args); }
      if Neighbours(args[1..]) { NeighboursLater(args, 1); }
    } else if IsRedirect(args[1]) {
      assert Neighbours(args);
      assert ScanDelete(args)[0] == args[1];
    } else {
      DeletesAll(args[2..]);
      assert args[1..][0] == args[1] && args[1..][1..] == args[2..];
      Same(args[1], ScanDelete(args[2..]), Others(args[2..]));
      if Neighbours(args) {
        NeighboursFirst(args);
        NeighboursFirst(args[1..]);
      }
      if Neighbours(args[2..]) { NeighboursLater(args, 2); }
    }
  }

  lemma Same(head: string, s: seq<string>, t: seq<string>)
    ensures [head] + s == [head] + t <==> s == t
  {
    assert ([head] + s)[1..] == s && ([head] + t)[1..] == t;
  }

  // With the new argument appended, it is the only one if and only if no two stood side by
  // side, and everything else is there in its order in either case.
  lemma OneRedirect(args: seq<string>, redirect: string)
    requires IsRedirect(redirect)
    ensures var r := ScanDelete(args) + [redirect];
            && Others(r) == Others(args)
            && ((forall i :: 0 <= i < |r| - 1 ==> !IsRedirect(r[i])) <==> !Neighbours(args))
  {
    var kept := ScanDelete(args);
    var r := kept + [redirect];
    OthersOfSurvivors(args);
    OthersAppend(kept, redirect);
    DeletesAll(args);
    if forall i :: 0 <= i < |r| - 1 ==> !IsRedirect(r[i]) {
      forall i | 0 <= i < |kept| ensures !IsRedirect(kept[i]) {
        assert r[i] == kept[i];
      }
      OthersOfOthers(kept);
    } else {
      var i :| 0 <= i < |r| - 1 && IsRedirect(r[i]);
      assert kept[i] == r[i];
    }
  }

  lemma {:induction false} OthersOfOthers(args: seq<string>)
    requires forall i :: 0 <= i < |args| ==> !IsRedirect(args[i])
    ensures Others(args) == args
  {
    if args != [] {
      OthersOfOthers(args[1..]);
    }
  }

  lemma {:induction false} OthersAppend(args: seq<string>, redirect: string)
    requires IsRedirect(redirect)
    ensures Others(args + [redirect]) == Others(args)
  {
    if args == [] {
      assert args + [redirect] == [redirect];
    } else {
      OthersAppend(args[1..], redirect);
      assert (args + [redirect])[1..] == args[1..] + [redirect];
    }
  }

  // slices.Delete(a[..n], i, i + 1) on the backing array.
  function Deleted(s: seq<string>, n: nat, i: nat): (r: seq<string>)
    requires i < n <= |s|
    ensures |r| == |s|
  {
    s[..i] + s[i + 1..n] + [""] + s[n..]
  }

  method DeleteAt(a: array<string>, n: nat, i: nat)
    requires i < n <= a.Length
    modifies a
    ensures a[..] == Deleted(old(a[..]), n, i)
  {
    for k := i to n - 1
      invariant forall j :: 0 <= j < i || k <= j < a.Length ==> a[j] == old(a[j])
      invariant forall j :: i <= j < k ==> a[j] == old(a[j + 1])
    {
      a[k] := a[k + 1];
    }
    a[n - 1] := "";
  }

  // What the loop keeps: the cleared tail, and that the part behind i is all that is left to
  // be looked at.
  predicate Scanning(was: seq<string>, s: seq<string>, i: nat, n: nat) {
    && i <= |s| && n <= |s|
    && (forall j :: n <= j < |s| ==> s[j] == "")
    && ScanDelete(was) == (if i <= n then s[..i] + ScanDelete(s[i..n]) else s[..n])
  }

  lemma Kept(was: seq<string>, s: seq<string>, i: nat, n: nat)
    requires Scanning(was, s, i, n) && i < |s| && !IsRedirect(s[i])
    ensures Scanning(was, s, i + 1, n)
  {
    if i < n {
      var rest := s[i..n];
      assert s[..i + 1] == s[..i] + [rest[0]] && s[i + 1..n] == rest[1..];
      assert ScanDelete(rest) == [rest[0]] + ScanDelete(rest[1..]);
    } else if i == n {
      assert s[i..n] == [];
    }
  }

  lemma Dropped(was: seq<string>, s: seq<string>, i: nat, n: nat)
    requires Scanning(was, s, i, n) && i < |s| && IsRedirect(s[i])
    ensures i < n && Scanning(was, Deleted(s, n, i), i + 1, n - 1)
  {
    var rest := s[i..n];
    assert rest[0] == s[i];
    DeletedSlices(s, n, i);
    if i + 1 < n {
      assert rest[1] == s[i + 1] && rest[2..] == s[i + 2..n];
    }
  }

  lemma DeletedSlices(s: seq<string>, n: nat, i: nat)
    requires i < n <= |s|
    ensures var t := Deleted(s, n, i);
            if i + 1 < n then t[..i + 1] == s[..i] + [s[i + 1]] && t[i + 1..n - 1] == s[i + 2..n]
            else t[..n - 1] == s[..i]
  {
    var t := Deleted(s, n, i);
    forall j | 0 <= j < n - 1 ensures t[j] == if j < i then s[j] else s[j + 1] {
    }
  }

  // The loop: i ranges over the positions of the slice as it was, reads go to the backing
  // array, n is the length of the shrinking slice. No index is ever out of bounds.
  method DeleteRedirects(a: array<string>) returns (n: nat)
    modifies a
    ensures n <= a.Length && a[..n] == ScanDelete(old(a[..]))
    ensures forall j :: n <= j < a.Length ==> a[j] == ""
  {
    n := a.Length;
    ghost var was := a[..];
    assert was[..0] == [] && was[0..n] == was;
    for i := 0 to a.Length
      invariant Scanning(was, a[..], i, n)
    {
      if HasPrefix(a[i], REDIRECT_FLAG) {
        Dropped(was, a[..], i, n);
        DeleteAt(a, n, i);
        n := n - 1;
      } else {
        Kept(was, a[..], i, n);
      }
    }
    assert a[n..n] == [];
  }
}
