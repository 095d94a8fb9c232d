// The hash of a watched directory (pkg/watcher/hashcalc/hashcalc.go): the hashes of its files
// arrive in any order, are sorted, concatenated and hashed again.

module HashCalc {
  import opened Wrappers

  // Content of each file by path; directories and files that cannot be read have none.
  type Directory = map<string, Option<string>>

  ghost predicate FixedLength(digest: Digest, n: nat) {
    forall content: string :: |digest(content)| == n
  }

  // ---------------------------------------------------------------- sorting

  predicate Leq(a: string, b: string) {
    a == "" || (b != "" && (a[0] < b[0] || (a[0] == b[0] && Leq(a[1..], b[1..]))))
  }

  lemma {:induction false} LeqTotal(a: string, b: string)
    ensures Leq(a, b) || Leq(b, a)
    ensures Leq(a, b) && Leq(b, a) ==> a == b
  {
    if a != "" && b != "" && a[0] == b[0] {
      LeqTotal(a[1..], b[1..]);
      assert a == [a[0]] + a[1..] && b == [b[0]] + b[1..];
    }
  }

  lemma {:induction false} LeqTransitive(a: string, b: string, c: string)
    requires Leq(a, b) && Leq(b, c)
    ensures Leq(a, c)
  {
    if a != "" && b != "" && c != "" && a[0] == b[0] && b[0] == c[0] {
      LeqTransitive(a[1..], b[1..], c[1..]);
    }
  }

  predicate IsSorted(s: seq<string>) {
    forall i, j :: 0 <= i < j < |s| ==> Leq(s[i], s[j])
  }

  function Insert(x: string, s: seq<string>): seq<string> {
    if s == [] || Leq(x, s[0]) then [x] + s else [s[0]] + Insert(x, s[1..])
  }

  // slices.Sort
  function Sort(s: seq<string>): seq<string> {
    if s == [] then [] else Insert(s[0], Sort(s[1..]))
  }

  lemma {:induction false} InsertAdds(x: string, s: seq<string>)
    ensures multiset(Insert(x, s)) == multiset(s) + multiset{x}
  {
    if s != [] && !Leq(x, s[0]) {
      InsertAdds(x, s[1..]);
      assert s == [s[0]] + s[1..];
    }
  }

  lemma {:induction false} InsertSorts(x: string, s: seq<string>)
    requires IsSorted(s)
    ensures IsSorted(Insert(x, s))
  {
    if s == [] {
    } else if Leq(x, s[0]) {
      forall i | 0 <= i < |s| ensures Leq(x, s[i]) {
        if i > 0 { LeqTransitive(x, s[0], s[i]); }
      }
    } else {
      InsertSorts(x, s[1..]);
      LeqTotal(x, s[0]);
      BelowInserted(s[0], x, s[1..]);
    }
  }

  lemma BelowInserted(low: string, x: string, s: seq<string>)
    requires Leq(low, x) && forall y :: y in s ==> Leq(low, y)
    ensures forall i :: 0 <= i < |Insert(x, s)| ==> Leq(low, Insert(x, s)[i])
  {
    InsertAdds(x, s);
    forall i | 0 <= i < |Insert(x, s)| ensures Leq(low, Insert(x, s)[i]) {
      assert Insert(x, s)[i] in multiset(Insert(x, s));
    }
  }

  lemma {:induction false} SortSorts(s: seq<string>)
    ensures IsSorted(Sort(s)) && multiset(Sort(s)) == multiset(s)
  {
    if s != [] {
      SortSorts(s[1..]);
      InsertSorts(s[0], Sort(s[1..]));
      InsertAdds(s[0], Sort(s[1..]));
      assert s == [s[0]] + s[1..];
    }
  }

  lemma SmallestFirst(a: seq<string>, b: seq<string>)
    requires a != [] && b != [] && IsSorted(a) && multiset(a) == multiset(b)
    ensures Leq(a[0], b[0])
  {
    assert b[0] in multiset(b);
    assert b[0] in a;
    LeqTotal(a[0], a[0]);
  }

  lemma WithoutFirst(a: seq<string>)
    requires a != []
    ensures a == [a[0]] + a[1..] && multiset(a[1..]) == multiset(a) - multiset{a[0]}
  {
    assert a == [a[0]] + a[1..];
  }

  // A multiset has one sorted sequence.
  lemma {:induction false} SortedUnique(a: seq<string>, b: seq<string>)
    requires IsSorted(a) && IsSorted(b) && multiset(a) == multiset(b)
    ensures a == b
  {
    assert |multiset(a)| == |a| && |multiset(b)| == |b|;
    if a != [] {
      SmallestFirst(a, b);
      SmallestFirst(b, a);
      LeqTotal(a[0], b[0]);
      WithoutFirst(a);
      WithoutFirst(b);
      SortedUnique(a[1..], b[1..]);
    }
  }

  // ---------------------------------------------------------------- concatenation

  function Concat(s: seq<string>): string {
    if s == [] then "" else s[0] + Concat(s[1..])
  }

  // Pieces of one length can be told apart in their concatenation.
  lemma {:induction false} ConcatInjective(a: seq<string>, b: seq<string>, n: nat)
    requires n > 0 && (forall x :: x in a ==> |x| == n) && (forall x :: x in b ==> |x| == n)
    requires Concat(a) == Concat(b)
    ensures a == b
  {
    if a != [] { assert a[0] in a && |Concat(a)| >= n; }
    if b != [] { assert b[0] in b && |Concat(b)| >= n; }
    if a != [] && b != [] {
      var text := Concat(a);
      assert text[..n] == a[0] && text[..n] == b[0];
      assert text[n..] == Concat(a[1..]) && text[n..] == Concat(b[1..]);
      ConcatInjective(a[1..], b[1..], n);
      WithoutFirst(a);
      WithoutFirst(b);
    }
  }

  // The digest input is canonical: it says which hashes there are and how often, and nothing
  // else, neither order nor file names.
  lemma CanonicalInput(a: seq<string>, b: seq<string>, n: nat)
    requires n > 0 && (forall x :: x in a ==> |x| == n) && (forall x :: x in b ==> |x| == n)
    ensures Concat(Sort(a)) == Concat(Sort(b)) <==> multiset(a) == multiset(b)
  {
    SortSorts(a);
    SortSorts(b);
    if multiset(a) == multiset(b) {
      SortedUnique(Sort(a), Sort(b));
    }
    if Concat(Sort(a)) == Concat(Sort(b)) {
      forall x | x in Sort(a) ensures |x| == n { assert x in multiset(Sort(a)); }
      forall x | x in Sort(b) ensures |x| == n { assert x in multiset(Sort(b)); }
      ConcatInjective(Sort(a), Sort(b), n);
    }
  }

  // ---------------------------------------------------------------- directories

  function Readable(dir: Directory): set<string> {
    set path | path in dir && dir[path].Some?
  }

  function HashAt(dir: Directory, digest: Digest, path: string): string {
    if path in dir && dir[path].Some? then digest(dir[path].value) else ""
  }

  function HashesAt(dir: Directory, digest: Digest, paths: seq<string>): seq<string> {
    seq(|paths|, i requires 0 <= i < |paths| => HashAt(dir, digest, paths[i]))
  }

  // An order in which the readable files may come.
  predicate Order(dir: Directory, paths: seq<string>) {
    multiset(paths) == multiset(Readable(dir))
  }

  function TotalOf(dir: Directory, digest: Digest, paths: seq<string>): string {
    digest(Concat(Sort(HashesAt(dir, digest, paths))))
  }

  lemma HashesConcat(dir: Directory, digest: Digest, a: seq<string>, b: seq<string>)
    ensures HashesAt(dir, digest, a + b) == HashesAt(dir, digest, a) + HashesAt(dir, digest, b)
  {
  }

  function Bag(dir: Directory, digest: Digest, paths: seq<string>): multiset<string> {
    multiset(HashesAt(dir, digest, paths))
  }

  lemma BagConcat(dir: Directory, digest: Digest, a: seq<string>, b: seq<string>)
    ensures Bag(dir, digest, a + b) == Bag(dir, digest, a) + Bag(dir, digest, b)
  {
    HashesConcat(dir, digest, a, b);
  }

  lemma FindFirst(a: seq<string>, b: seq<string>) returns (before: seq<string>, after: seq<string>)
    requires a != [] && multiset(a) == multiset(b)
    ensures b == before + [a[0]] + after && multiset(before + after) == multiset(a[1..])
  {
    assert a[0] in multiset(b);
    var i :| 0 <= i < |b| && b[i] == a[0];
    before, after := b[..i], b[i + 1..];
    assert b == before + [a[0]] + after;
    WithoutFirst(a);
    assert multiset(b) == multiset(before + after) + multiset{a[0]};
  }

  lemma {:induction false} SameBag(dir: Directory, digest: Digest, a: seq<string>, b: seq<string>)
    requires multiset(a) == multiset(b)
    ensures Bag(dir, digest, a) == Bag(dir, digest, b)
  {
    if a == [] {
      assert |multiset(b)| == |b|;
    } else {
      var before, after := FindFirst(a, b);
      SameBag(dir, digest, a[1..], before + after);
      assert a == [a[0]] + a[1..];
      BagConcat(dir, digest, [a[0]], a[1..]);
      BagConcat(dir, digest, before, after);
      BagConcat(dir, digest, before + [a[0]], after);
      BagConcat(dir, digest, before, [a[0]]);
    }
  }

  // The order of arrival does not matter.
  lemma OrderIrrelevant(dir: Directory, digest: Digest, a: seq<string>, b: seq<string>)
    requires Order(dir, a) && Order(dir, b)
    ensures TotalOf(dir, digest, a) == TotalOf(dir, digest, b)
  {
    SameBag(dir, digest, a, b);
    SortSorts(HashesAt(dir, digest, a));
    SortSorts(HashesAt(dir, digest, b));
    SortedUnique(Sort(HashesAt(dir, digest, a)), Sort(HashesAt(dir, digest, b)));
  }

  // Two directories, or one at two times, give the same digest input if and only if the same
  // file hashes occur in them equally often.
  lemma SameInput(dir: Directory, paths: seq<string>, dir': Directory, paths': seq<string>, digest: Digest, n: nat)
    requires Order(dir, paths) && Order(dir', paths') && FixedLength(digest, n) && n > 0
    ensures Concat(Sort(HashesAt(dir, digest, paths))) == Concat(Sort(HashesAt(dir', digest, paths')))
            <==> multiset(HashesAt(dir, digest, paths)) == multiset(HashesAt(dir', digest, paths'))
  {
    HashesFixed(dir, paths, digest, n);
    HashesFixed(dir', paths', digest, n);
    CanonicalInput(HashesAt(dir, digest, paths), HashesAt(dir', digest, paths'), n);
  }

  lemma HashesFixed(dir: Directory, paths: seq<string>, digest: Digest, n: nat)
    requires Order(dir, paths) && FixedLength(digest, n)
    ensures forall h :: h in HashesAt(dir, digest, paths) ==> |h| == n
  {
    forall i | 0 <= i < |paths| ensures |HashAt(dir, digest, paths[i])| == n {
      assert paths[i] in multiset(Readable(dir));
      assert |digest(dir[paths[i]].value)| == n;
    }
  }

  // The goroutines finish in any order; a file whose hash could not be taken is left out.
  method HashFiles(dir: Directory, digest: Digest) returns (files: map<string, string>)
    requires FixedLength(digest, 64)
    ensures files.Keys == Readable(dir) && forall path :: path in files ==> files[path] == HashAt(dir, digest, path)
  {
    files := map[];
    var pending := dir.Keys;
    while pending != {}
      invariant pending <= dir.Keys
      invariant forall path :: path in files <==> path in Readable(dir) && path !in pending
      invariant forall path :: path in files ==> files[path] == HashAt(dir, digest, path)
      decreases |pending|
    {
      var path :| path in pending;
      pending := pending - {path};
      var hash := HashAt(dir, digest, path);
      if dir[path].Some? { assert |digest(dir[path].value)| == 64; }
      if hash != "" {
        files := files[path := hash];
      }
    }
  }

  lemma OneMore(keys: set<string>, left: set<string>, path: string, order: seq<string>)
    requires path in left && left <= keys && multiset(order) == multiset(keys - left)
    ensures multiset(order + [path]) == multiset(keys - (left - {path}))
  {
    assert keys - (left - {path}) == keys - left + {path};
  }

  // The shared map is ranged over in any order.
  method RangeHashes(files: map<string, string>, ghost dir: Directory, ghost digest: Digest)
    returns (fileHashes: seq<string>, ghost order: seq<string>)
    requires forall path :: path in files ==> files[path] == HashAt(dir, digest, path)
    ensures multiset(order) == multiset(files.Keys) && fileHashes == HashesAt(dir, digest, order)
  {
    fileHashes, order := [], [];
    var left := files.Keys;
    while left != {}
      invariant left <= files.Keys
      invariant multiset(order) == multiset(files.Keys - left) && fileHashes == HashesAt(dir, digest, order)
      decreases |left|
    {
      var path :| path in left;
      OneMore(files.Keys, left, path, order);
      left := left - {path};
      HashesConcat(dir, digest, order, [path]);
      fileHashes, order := fileHashes + [files[path]], order + [path];
    }
    assert files.Keys - {} == files.Keys;
  }

  // getTotalHash
  method GetTotalHash(listing: Option<Directory>, digest: Digest) returns (total: string)
    requires FixedLength(digest, 64)
    ensures listing.None? ==> total == ""
    ensures listing.Some? ==> forall paths :: Order(listing.value, paths) ==> total == TotalOf(listing.value, digest, paths)
  {
    if listing.None? {
      return "";
    }
    var dir := listing.value;
    var files := HashFiles(dir, digest);
    var fileHashes, order := RangeHashes(files, dir, digest);
    total := digest(Concat(Sort(fileHashes)));
    forall paths | Order(dir, paths) ensures total == TotalOf(dir, digest, paths) {
      OrderIrrelevant(dir, digest, order, paths);
    }
  }
}
