// One replica of the webhook certificate manager with its loops over bundles, webhooks and
// retries (pkg/certificates/manager.go), against the functions of modules Bundles and
// Rotation that the protocol is built from.

module CertManager {
  import opened Wrappers
  import opened Bundles
  import opened Rotation
  import opened CertProtocol

  datatype UpdateResult = Updated | Conflict | Failed

  // The API server's versioned copy of the webhook configuration, and the clock. Reads go
  // through a cache and may return any past version; other writers come in and time passes
  // between any two calls.
  class ApiServer {
    var history: seq<seq<Entry>>
    var clock: int
    // Writes accepted from this replica.
    var accepted: nat

    method Interfere()
      requires history != []
      modifies this`history, this`clock
      ensures Grown(old(history), history)
      ensures clock >= old(clock)
    {
      var others: seq<seq<Entry>> := *;
      history := history + others;
      var now :| now >= clock;
      clock := now;
    }

    method Get() returns (found: bool, version: nat)
      requires history != []
      ensures version < |history|
    {
      found := *;
      version :| version < |history|;
    }

    method Update(base: nat, entries: seq<Entry>) returns (r: UpdateResult)
      requires base < |history|
      modifies this`history, this`accepted
      ensures r.Updated? <==> accepted == old(accepted) + 1
      ensures r.Updated? ==> base == |old(history)| - 1 && history == old(history) + [entries]
      ensures !r.Updated? ==> history == old(history) && accepted == old(accepted)
      ensures r.Conflict? ==> base != |old(history)| - 1
    {
      var error: bool := *;
      if error {
        r := Failed;
      } else if base != |history| - 1 {
        r := Conflict;
      } else {
        history := history + [entries];
        accepted := accepted + 1;
        r := Updated;
      }
    }
  }

  lemma {:induction false} DecodeStep(bundle: Bundle)
    ensures var (block, rest) := PemDecode(bundle);
            && (block.None? ==> Certs(bundle) == [] && WellFormed(bundle))
            && (block.Some? ==>
                  && Certs(bundle) == (if block.value.Block? then [block.value.cert] else []) + Certs(rest)
                  && (WellFormed(bundle) <==> !block.value.Unparsable? && WellFormed(rest)))
  {
    if bundle != [] && bundle[0].Garbage? {
      DecodeStep(bundle[1..]);
      assert WellFormed(bundle) <==> WellFormed(bundle[1..]);
    } else if bundle != [] {
      assert WellFormed(bundle) <==> !bundle[0].Unparsable? && WellFormed(bundle[1..]);
    }
  }

  // A block moves from the rest to what has been met.
  lemma MeetBlock(met: seq<Cert>, bundle: Bundle)
    requires PemDecode(bundle).0.Some?
    ensures var (block, rest) := PemDecode(bundle);
            met + Certs(bundle) == (if block.value.Block? then met + [block.value.cert] else met) + Certs(rest)
  {
    DecodeStep(bundle);
  }

  lemma {:induction false} DecodeFound(bundle: Bundle, serial: nat)
    ensures var (block, rest) := PemDecode(bundle);
            Found(bundle, serial) <==>
              block.Some? && !block.value.Unparsable?
              && ((block.value.Block? && block.value.cert.serial == serial) || Found(rest, serial))
  {
    if bundle != [] && bundle[0].Garbage? {
      DecodeFound(bundle[1..], serial);
    }
  }

  lemma {:induction false} EncodeAppend(certs: seq<Cert>, cert: Cert)
    ensures Encode(certs + [cert]) == Encode(certs) + [Block(cert)]
  {
    if certs == [] {
      assert certs + [cert] == [cert];
    } else {
      EncodeAppend(certs[1..], cert);
      assert (certs + [cert])[1..] == certs[1..] + [cert];
    }
  }

  lemma {:induction false} WithoutSerialAppend(certs: seq<Cert>, cert: Cert, serial: nat)
    ensures WithoutSerial(certs + [cert], serial)
            == if cert.serial == serial then WithoutSerial(certs, serial) else WithoutSerial(certs, serial) + [cert]
  {
    WithoutSerialConcat(certs, [cert], serial);
    WithoutSerialSingle(cert, serial);
  }

  lemma {:induction false} UnexpiredAppend(certs: seq<Cert>, cert: Cert, now: int)
    ensures Unexpired(certs + [cert], now)
            == if Expired(cert, now) then Unexpired(certs, now) else Unexpired(certs, now) + [cert]
  {
    UnexpiredConcat(certs, [cert], now);
    assert Unexpired([cert][1..], now) == [];
  }

  // One webhook of the edit loop.
  lemma EditTail(edit: Edit, webhookName: string, entries: seq<Entry>, i: nat)
    requires i < |entries|
    requires EditEntries(edit, webhookName, entries)[i..] == EditEntries(edit, webhookName, entries[i..])
    ensures var goal := EditEntries(edit, webhookName, entries);
            var e := entries[i];
            if Managed(webhookName, e.name) && !WellFormed(e.bundle) then
              goal[i..] == entries[i..]
            else
              && goal[i] == (if Managed(webhookName, e.name) then e.(bundle := Encode(Apply(edit, Certs(e.bundle)))) else e)
              && goal[i + 1..] == EditEntries(edit, webhookName, entries[i + 1..])
  {
    var goal := EditEntries(edit, webhookName, entries);
    assert entries[i..][0] == entries[i] && entries[i..][1..] == entries[i + 1..];
    assert goal[i..][0] == goal[i] && goal[i..][1..] == goal[i + 1..];
  }

  lemma SerialRemoved(certs: seq<Cert>, serial: nat)
    ensures !Found(Encode(WithoutSerial(certs, serial)), serial)
  {
    var left := WithoutSerial(certs, serial);
    CertsOfEncode(left);
    FoundIsMembership(Encode(left), serial);
    forall c | c in left ensures c.serial != serial {
      WithoutSerialMember(certs, serial, c);
    }
  }

  method EncodeAll(certs: seq<Cert>) returns (bundle: Bundle)
    ensures bundle == Encode(certs)
  {
    bundle := [];
    for i := 0 to |certs|
      invariant bundle == Encode(certs[..i])
    {
      EncodeAppend(certs[..i], certs[i]);
      assert certs[..i + 1] == certs[..i] + [certs[i]];
      bundle := bundle + [Block(certs[i])];
    }
    assert certs[..|certs|] == certs;
  }

  method CaBundleFound(caBundle: Bundle, cert: Cert) returns (found: bool)
    ensures found <==> Found(caBundle, cert.serial)
  {
    var rest := caBundle;
    while |rest| > 0
      invariant Found(caBundle, cert.serial) <==> Found(rest, cert.serial)
      decreases |rest|
    {
      var (block, tail) := PemDecode(rest);
      DecodeFound(rest, cert.serial);
      if block.None? {
        return false;
      }
      rest := tail;
      if block.value.OtherBlock? {
        continue;
      }
      if block.value.Unparsable? {
        return false;
      }
      if block.value.cert.serial == cert.serial {
        return true;
      }
    }
    return false;
  }

  // The version is the edit of the one before it.
  ghost predicate Edited(history: seq<seq<Entry>>, v: nat, webhookName: string, edit: Edit) {
    0 < v < |history| && history[v] == EditEntries(edit, webhookName, history[v - 1])
  }

  lemma EditedStays(early: seq<seq<Entry>>, late: seq<seq<Entry>>, v: nat, webhookName: string, edit: Edit)
    requires Grown(early, late)
    ensures Edited(early, v, webhookName, edit) ==> Edited(late, v, webhookName, edit)
  {
    if 0 < v < |early| {
      assert late[..|early|][v] == late[v] && late[..|early|][v - 1] == late[v - 1];
    }
  }

  // What such a version holds: the CA in every managed bundle, if all of them could be parsed.
  lemma EditedHolds(history: seq<seq<Entry>>, v: nat, webhookName: string, ca: Cert, at: int)
    requires Edited(history, v, webhookName, Publish(ca, at)) && WellFormedEntries(webhookName, history[v - 1])
    ensures InEveryBundle(webhookName, history[v], ca)
  {
    PublishPuts(ca, at, webhookName, history[v - 1]);
  }

  // ---------------------------------------------------------------- the protocol

  // The fields of a manager are those of a replica of the protocol.
  predicate Represents(ca: Cert, tls: Cert, r: Replica) {
    r.own != [] && r.Ca() == ca && r.tls == Some(tls)
  }

  // A step of the replica, when it happens and on which versions.
  datatype Moment = Moment(action: Action, now: int, history: seq<seq<Entry>>)

  // Versions are only ever appended.
  predicate Grown(early: seq<seq<Entry>>, late: seq<seq<Entry>>) {
    |early| <= |late| && late[..|early|] == early
  }

  // The steps follow each other in time, between two states of the API server, and make r' of
  // the replica r.
  ghost predicate Played(r: Replica, run: seq<Moment>, r': Replica, early: seq<seq<Entry>>, from: int,
                         late: seq<seq<Entry>>, until: int)
    decreases |run|
  {
    if run == [] then r' == r && Grown(early, late) && from <= until else
    && CanMove(r, run[0].action, run[0].history) && Grown(early, run[0].history) && from <= run[0].now
    && Played(Move(r, run[0].action, run[0].now, run[0].history), run[1..], r', run[0].history, run[0].now, late, until)
  }

  lemma {:induction false} PlaysOn(r: Replica, a: seq<Moment>, r': Replica, b: seq<Moment>, r'': Replica,
                                   early: seq<seq<Entry>>, from: int, mid: seq<seq<Entry>>, at: int,
                                   late: seq<seq<Entry>>, until: int)
    requires Played(r, a, r', early, from, mid, at) && Played(r', b, r'', mid, at, late, until)
    ensures Played(r, a + b, r'', early, from, late, until)
    decreases |a|
  {
    if a == [] {
      assert a + b == b;
    } else {
      assert (a + b)[0] == a[0] && (a + b)[1..] == a[1..] + b;
      PlaysOn(Move(r, a[0].action, a[0].now, a[0].history), a[1..], r', b, r'', a[0].history, a[0].now, mid, at, late, until);
    }
  }

  lemma OneStep(r: Replica, m: Moment, early: seq<seq<Entry>>, from: int, late: seq<seq<Entry>>, until: int)
    requires CanMove(r, m.action, m.history) && Grown(early, m.history) && Grown(m.history, late)
    requires from <= m.now <= until
    ensures Played(r, [m], Move(r, m.action, m.now, m.history), early, from, late, until)
  {
    assert [m][1..] == [];
  }

  // Every version has parsable bundles in the managed webhooks.
  predicate Parsable(webhookName: string, history: seq<seq<Entry>>) {
    forall v :: 0 <= v < |history| ==> WellFormedEntries(webhookName, history[v])
  }

  // Some version of this time is a publication of the CA.
  ghost predicate Brought(webhookName: string, ca: Cert, early: seq<seq<Entry>>, from: int, late: seq<seq<Entry>>, until: int) {
    exists v, at :: |early| <= v < |late| && from <= at <= until && Edited(late, v, webhookName, Publish(ca, at))
  }

  lemma BroughtOn(webhookName: string, ca: Cert, early: seq<seq<Entry>>, from: int, mid: seq<seq<Entry>>, now: int,
                  late: seq<seq<Entry>>, until: int)
    requires Grown(mid, late) && now <= until
    ensures Brought(webhookName, ca, early, from, mid, now) ==> Brought(webhookName, ca, early, from, late, until)
  {
    if Brought(webhookName, ca, early, from, mid, now) {
      var v, at :| |early| <= v < |mid| && from <= at <= now && Edited(mid, v, webhookName, Publish(ca, at));
      EditedStays(mid, late, v, webhookName, Publish(ca, at));
    }
  }

  lemma BroughtHolds(webhookName: string, ca: Cert, early: seq<seq<Entry>>, from: int, late: seq<seq<Entry>>, until: int)
    requires Brought(webhookName, ca, early, from, late, until) && Parsable(webhookName, late)
    ensures exists v :: |early| <= v < |late| && InEveryBundle(webhookName, late[v], ca)
  {
    var v, at :| |early| <= v < |late| && from <= at <= until && Edited(late, v, webhookName, Publish(ca, at));
    EditedHolds(late, v, webhookName, ca, at);
  }

  lemma MissingStep(entries: seq<Entry>, i: nat, serial: nat)
    requires i < |entries|
    ensures Missing(entries[i..], serial)
            == (if Found(entries[i].bundle, serial) then 0 else 1) + Missing(entries[i + 1..], serial)
  {
    assert entries[i..][1..] == entries[i + 1..];
  }

  // In a sync pass that still owes `left` publications, `published` having gone through.
  function Synced(r: Replica, left: nat, published: nat): Replica {
    r.(phase := if left > 0 then Fetching(Sync(left), 1) else Idle,
       caOut := r.caOut && published == 0, signerOut := r.signerOut && published == 0)
  }

  lemma SyncedOn(r: Replica, left: nat, published: nat)
    ensures var now := Synced(r, left + 1, published);
            && now.phase == Fetching(Sync(left + 1), 1) && now.own == r.own
            && now.Committed(now.phase.task) == Synced(r, left, published + 1)
            && now.Abandoned(now.phase.task) == Synced(r, left, published)
  {
  }

  // One publication of a sync pass.
  lemma SyncOn(webhookName: string, r: Replica, run: seq<Moment>, left: nat, published: nat, ok: bool, at: int,
               steps: seq<Moment>, ca: Cert, early: seq<seq<Entry>>, from: int, mid: seq<seq<Entry>>, now: int,
               late: seq<seq<Entry>>, until: int)
    requires Played(r, run, Synced(r, left + 1, published), early, from, mid, now) && Grown(early, mid) && from <= now
    requires var owing := Synced(r, left + 1, published);
             Played(owing, steps, if ok then owing.Committed(owing.phase.task) else owing.Abandoned(owing.phase.task),
                    mid, now, late, until)
    requires Grown(mid, late) && now <= at <= until
    requires ok ==> |late| > |mid| && Edited(late, |late| - 1, webhookName, Publish(ca, at))
    requires published > 0 ==> Brought(webhookName, ca, early, from, mid, now)
    ensures var count := if ok then published + 1 else published;
            && Played(r, run + steps, Synced(r, left, count), early, from, late, until)
            && (count > 0 ==> Brought(webhookName, ca, early, from, late, until))
  {
    SyncedOn(r, left, published);
    BroughtOn(webhookName, ca, early, from, mid, now, late, until);
    PlaysOn(r, run, Synced(r, left + 1, published), steps, Synced(r, left, if ok then published + 1 else published),
            early, from, mid, now, late, until);
  }

  // The publication of a rotated CA and the signing.
  lemma RotationOn(r: Replica, swapped: Replica, run: seq<Moment>, steps: seq<Moment>, published: bool, serial: nat,
                   early: seq<seq<Entry>>, now: int, late: seq<seq<Entry>>, until: int) returns (r': Replica)
    requires Played(r, run, swapped, early, now, early, now) && swapped.phase == Fetching(Rotate, 1)
    requires swapped.own != [] && swapped.caOut && Grown(early, late) && now <= until
    requires Played(swapped, steps, if published then swapped.Committed(Rotate) else swapped.Abandoned(Rotate),
                    early, now, late, until)
    ensures Played(r, run + steps + [Moment(Sign(serial), until, late)], r', early, now, late, until)
    ensures r'.phase.Idle? && Represents(swapped.Ca(), NewTls(serial, swapped.Ca(), until), r')
    ensures r'.caOut == r'.signerOut == !published
  {
    var signing := if published then swapped.Committed(Rotate) else swapped.Abandoned(Rotate);
    var sign := Moment(Sign(serial), until, late);
    SignMoves(signing, serial, until, late);
    OneStep(signing, sign, late, until, late, until);
    r' := Move(signing, Sign(serial), until, late);
    PlaysOn(r, run, swapped, steps, signing, early, now, early, now, late, until);
    PlaysOn(r, run + steps, signing, [sign], r', early, now, late, until, late, until);
  }

  // A sync tick that reads what has been seen.
  predicate TickOf(m: Moment, history: seq<seq<Entry>>, seen: seq<Entry>) {
    m.action.SyncTick? && m.history == history && m.action.version < |history| && history[m.action.version] == seen
  }

  // Ticks and signing, as they change the replica.
  lemma CaTickMoves(r: Replica, serial: nat, now: int, history: seq<seq<Entry>>)
    requires r.phase.Idle? && r.own != []
    ensures CanMove(r, CaTick(serial), history)
    ensures Move(r, CaTick(serial), now, history)
            == if Due(r.Ca(), CA_CERT_ROTATION, now)
               then r.(phase := Fetching(Rotate, 1), own := r.own + [NewCa(serial, now)], caChecked := now, caOut := true)
               else r.(caChecked := now)
  {
  }

  lemma SignMoves(r: Replica, serial: nat, now: int, history: seq<seq<Entry>>)
    requires r.phase == Signing(Rotate) && r.own != []
    ensures CanMove(r, Sign(serial), history)
    ensures Move(r, Sign(serial), now, history)
            == r.(phase := Idle, tls := Some(NewTls(serial, r.Ca(), now)), signer := |r.own| - 1, signerOut := r.caOut)
  {
  }

  lemma SyncTickMoves(r: Replica, version: nat, now: int, history: seq<seq<Entry>>)
    requires r.phase.Idle? && r.own != [] && version < |history|
    ensures CanMove(r, CertProtocol.SyncTick(version), history)
    ensures Move(r, CertProtocol.SyncTick(version), now, history) == Synced(r, Missing(history[version], r.Ca().serial), 0)
  {
  }

  // The newest version is one of this run, the edit of the one that the last step, a write,
  // has met.
  ghost predicate WroteBack(history: seq<seq<Entry>>, early: seq<seq<Entry>>, webhookName: string, edit: Edit, run: seq<Moment>) {
    && |history| > |early| && Edited(history, |history| - 1, webhookName, edit)
    && run != [] && run[|run| - 1].action == Commit && run[|run| - 1].history == history[..|history| - 1]
  }

  // What an attempt makes of a replica that publishes.
  function Attempted(r: Replica, result: UpdateResult): Replica
    requires r.phase.Fetching?
  {
    match result
    case Updated => r.Committed(r.phase.task)
    case Failed => r.Abandoned(r.phase.task)
    case Conflict =>
      if r.phase.attempt < UPDATE_ATTEMPTS then r.(phase := Fetching(r.phase.task, r.phase.attempt + 1))
      else r.Abandoned(r.phase.task)
  }

  // The reads and writes of a publication, as they change the replica.
  lemma FetchMoves(r: Replica, version: nat, now: int, history: seq<seq<Entry>>)
    requires r.phase.Fetching? && version < |history|
    ensures CanMove(r, Fetch(version), history)
    ensures Move(r, Fetch(version), now, history) == r.(phase := Holding(r.phase.task, r.phase.attempt, version, now))
  {
  }

  lemma CommitMoves(r: Replica, now: int, history: seq<seq<Entry>>)
    requires r.phase.Holding? && r.own != []
    ensures CanMove(r, Commit, history)
    ensures Move(r, Commit, now, history)
            == if r.phase.base == |history| - 1 then r.Committed(r.phase.task)
               else if r.phase.attempt < UPDATE_ATTEMPTS then r.(phase := Fetching(r.phase.task, r.phase.attempt + 1))
               else r.Abandoned(r.phase.task)
  {
  }

  lemma FailMoves(r: Replica, now: int, history: seq<seq<Entry>>)
    requires r.phase.Fetching? || r.phase.Holding?
    ensures CanMove(r, Fail, history) && Move(r, Fail, now, history) == r.Abandoned(r.phase.task)
  {
  }

  // The read and the write, or its failure.
  function AttemptRun(version: nat, at: int, read: seq<seq<Entry>>, result: UpdateResult, now: int,
                      met: seq<seq<Entry>>): seq<Moment> {
    [Moment(Fetch(version), at, read), Moment(if result.Failed? then Fail else Commit, now, met)]
  }

  lemma AttemptMoves(r: Replica, version: nat, at: int, read: seq<seq<Entry>>, result: UpdateResult, now: int,
                     met: seq<seq<Entry>>, early: seq<seq<Entry>>, from: int, late: seq<seq<Entry>>)
    requires r.phase.Fetching? && r.own != [] && version < |read|
    requires result.Updated? ==> version == |met| - 1
    requires result.Conflict? ==> version != |met| - 1
    requires Grown(early, read) && Grown(read, met) && Grown(met, late) && from <= at <= now
    ensures Played(r, AttemptRun(version, at, read, result, now, met), Attempted(r, result), early, from, late, now)
  {
    var run := AttemptRun(version, at, read, result, now, met);
    FetchMoves(r, version, at, read);
    var holding := Move(r, Fetch(version), at, read);
    if result.Failed? {
      FailMoves(holding, now, met);
    } else {
      CommitMoves(holding, now, met);
    }
    OneStep(r, run[0], early, from, read, at);
    OneStep(holding, run[1], read, at, late, now);
    PlaysOn(r, [run[0]], holding, [run[1]], Attempted(r, result), early, from, read, at, late, now);
    assert [run[0]] + [run[1]] == run;
  }

  class Manager {
    const webhookName: string
    var ca: Cert
    var tls: Cert

    constructor (webhookName: string, ca: Cert, tls: Cert)
      ensures this.webhookName == webhookName && this.ca == ca && this.tls == tls
    {
      this.webhookName := webhookName;
      this.ca := ca;
      this.tls := tls;
    }

    static method DropExpired(currentCAs: seq<Cert>, now: int) returns (updatedCAs: seq<Cert>)
      ensures updatedCAs == Unexpired(currentCAs, now)
    {
      updatedCAs := [];
      for i := 0 to |currentCAs|
        invariant updatedCAs == Unexpired(currentCAs[..i], now)
      {
        UnexpiredAppend(currentCAs[..i], currentCAs[i], now);
        assert currentCAs[..i + 1] == currentCAs[..i] + [currentCAs[i]];
        if currentCAs[i].notAfter < now {
          continue;
        }
        updatedCAs := updatedCAs + [currentCAs[i]];
      }
      assert currentCAs[..|currentCAs|] == currentCAs;
    }

    // The own CA behind the certificates that have not expired.
    method UpdateCABundles(caBundle: Bundle, now: int) returns (r: Option<Bundle>)
      ensures r.None? <==> !WellFormed(caBundle)
      ensures r.Some? ==> Certs(r.value) == Unexpired(Certs(caBundle), now) + [ca]
      ensures r.Some? ==> r.value == Encode(Apply(Publish(ca, now), Certs(caBundle)))
    {
      var currentCAs: seq<Cert> := [];
      var rest := caBundle;
      while |rest| > 0
        invariant currentCAs + Certs(rest) == Certs(caBundle)
        invariant WellFormed(caBundle) <==> WellFormed(rest)
        decreases |rest|
      {
        var (block, tail) := PemDecode(rest);
        DecodeStep(rest);
        if block.None? {
          break;
        }
        MeetBlock(currentCAs, rest);
        rest := tail;
        if block.value.OtherBlock? {
          continue;
        }
        if block.value.Unparsable? {
          return None;
        }
        currentCAs := currentCAs + [block.value.cert];
      }
      DecodeStep(rest);
      assert currentCAs == Certs(caBundle);

      var updatedCAs := DropExpired(currentCAs, now);
      updatedCAs := updatedCAs + [ca];
      var encoded := EncodeAll(updatedCAs);
      CertsOfEncode(updatedCAs);
      r := Some(encoded);
    }

    // Every certificate but those with the own serial number.
    method RemoveCABundle(caBundle: Bundle) returns (r: Option<Bundle>)
      ensures r.None? <==> !WellFormed(caBundle)
      ensures r.Some? ==> r.value == Encode(Apply(Clean(ca.serial), Certs(caBundle)))
      ensures r.Some? ==> !Found(r.value, ca.serial)
    {
      var currentCAs: seq<Cert> := [];
      ghost var met: seq<Cert> := [];
      var rest := caBundle;
      while |rest| > 0
        invariant met + Certs(rest) == Certs(caBundle)
        invariant currentCAs == WithoutSerial(met, ca.serial)
        invariant WellFormed(caBundle) <==> WellFormed(rest)
        decreases |rest|
      {
        var (block, tail) := PemDecode(rest);
        DecodeStep(rest);
        if block.None? {
          break;
        }
        MeetBlock(met, rest);
        rest := tail;
        if block.value.OtherBlock? {
          continue;
        }
        if block.value.Unparsable? {
          return None;
        }
        WithoutSerialAppend(met, block.value.cert, ca.serial);
        met := met + [block.value.cert];
        if ca.serial != block.value.cert.serial {
          currentCAs := currentCAs + [block.value.cert];
        }
      }
      DecodeStep(rest);
      assert met == Certs(caBundle);
      var encoded := EncodeAll(currentCAs);
      r := Some(encoded);
      SerialRemoved(met, ca.serial);
    }

    // The edit loop shared by publication and cleanup: managed webhooks in place, up to the
    // first bundle that does not parse.
    method EditWebhooks(webhooks: array<Entry>, shutdown: bool, now: int)
      modifies webhooks
      ensures webhooks[..] == EditEntries(if shutdown then Clean(ca.serial) else Publish(ca, now), webhookName, old(webhooks[..]))
    {
      ghost var was := webhooks[..];
      ghost var edit := if shutdown then Clean(ca.serial) else Publish(ca, now);
      ghost var goal := EditEntries(edit, webhookName, was);
      var i := 0;
      while i < webhooks.Length
        invariant 0 <= i <= webhooks.Length
        invariant forall j :: 0 <= j < i ==> webhooks[j] == goal[j]
        invariant forall j :: i <= j < webhooks.Length ==> webhooks[j] == was[j]
        invariant goal[i..] == EditEntries(edit, webhookName, was[i..])
      {
        EditTail(edit, webhookName, was, i);
        var w := webhooks[i];
        if w.name != webhookName + VPAS_WEBHOOK_SUFFIX && w.name != webhookName + PODS_WEBHOOK_SUFFIX {
          i := i + 1;
          continue;
        }
        var b: Option<Bundle>;
        if shutdown {
          b := RemoveCABundle(w.bundle);
        } else {
          b := UpdateCABundles(w.bundle, now);
        }
        if b.None? {
          assert forall j :: i <= j < webhooks.Length ==> webhooks[j] == goal[i..][j - i];
          return;
        }
        webhooks[i] := w.(bundle := b.value);
        i := i + 1;
      }
    }

    ghost function EditAt(shutdown: bool, at: int): Edit
      reads this`ca
    {
      if shutdown then Clean(ca.serial) else Publish(ca, at)
    }

    // One attempt: read, edit at an instant of its own, write back with a version check. On
    // success the newest version is the edit of the one that it replaced. `run` are the steps
    // that a replica `r` of the protocol takes meanwhile.
    method Attempt(api: ApiServer, shutdown: bool, ghost r: Replica)
      returns (result: UpdateResult, ghost at: int, ghost run: seq<Moment>)
      requires api.history != []
      requires r.phase.Fetching? && r.own != []
      modifies api
      ensures Grown(old(api.history), api.history) && old(api.clock) <= at <= api.clock
      ensures api.accepted == old(api.accepted) + (if result.Updated? then 1 else 0)
      ensures Played(r, run, Attempted(r, result), old(api.history), old(api.clock), api.history, api.clock)
      ensures result.Updated? ==> WroteBack(api.history, old(api.history), webhookName, EditAt(shutdown, at), run)
    {
      api.Interfere();
      var found, version := api.Get();
      at := api.clock;
      ghost var read := api.history;
      if !found {
        run := [Moment(Fail, at, read)];
        FailMoves(r, at, read);
        OneStep(r, run[0], old(api.history), old(api.clock), read, at);
        return Failed, at, run;
      }
      var entries := api.history[version];
      var copied := new Entry[|entries|](i requires 0 <= i < |entries| => entries[i]);
      assert copied[..] == entries;
      EditWebhooks(copied, shutdown, api.clock);
      api.Interfere();
      assert api.history[version] == read[version];
      ghost var met := api.history;
      result := api.Update(version, copied[..]);
      AttemptMoves(r, version, at, read, result, api.clock, met, old(api.history), old(api.clock), api.history);
      run := AttemptRun(version, at, read, result, api.clock, met);
    }

    // Such attempts, again after a conflict, five at most, whatever the replica publishes for.
    method WriteBack(api: ApiServer, shutdown: bool, ghost r: Replica)
      returns (ok: bool, ghost at: int, ghost run: seq<Moment>)
      requires api.history != []
      requires r.phase.Fetching? && r.phase.attempt == 1 && r.own != []
      modifies api
      ensures Grown(old(api.history), api.history) && old(api.clock) <= at <= api.clock
      ensures api.accepted == old(api.accepted) + (if ok then 1 else 0)
      ensures Played(r, run, if ok then r.Committed(r.phase.task) else r.Abandoned(r.phase.task),
                     old(api.history), old(api.clock), api.history, api.clock)
      ensures ok ==> WroteBack(api.history, old(api.history), webhookName, EditAt(shutdown, at), run)
    {
      at := api.clock;
      run := [];
      var attempt := 0;
      ghost var now := r;
      while attempt < 5
        invariant 0 <= attempt <= 5
        invariant Grown(old(api.history), api.history) && old(api.clock) <= at <= api.clock
        invariant Played(r, run, now, old(api.history), old(api.clock), api.history, api.clock)
        invariant now == if attempt < 5 then r.(phase := Fetching(r.phase.task, attempt + 1)) else r.Abandoned(r.phase.task)
        invariant api.accepted == old(api.accepted)
      {
        ghost var before, clock := api.history, api.clock;
        var result, instant, steps := Attempt(api, shutdown, now);
        PlaysOn(r, run, now, steps, Attempted(now, result), old(api.history), old(api.clock), before, clock,
                api.history, api.clock);
        run, now, at := run + steps, Attempted(now, result), instant;
        if result.Updated? {
          return true, at, run;
        }
        if result.Failed? {
          return false, at, run;
        }
        attempt := attempt + 1;
      }
      return false, at, run;
    }

    // The body of one TLS tick, which is a step of the protocol.
    method RotateTLSTick(now: int, serial: nat)
      modifies this`tls
      ensures tls == if Due(old(tls), TLS_CERT_ROTATION, now) then NewTls(serial, ca, now) else old(tls)
      ensures old(tls).notAfter > now ==> tls.notAfter > now
      ensures forall r, history :: CanMove(r, TlsTick(serial), history) && Represents(ca, old(tls), r) ==>
                Represents(ca, tls, Move(r, TlsTick(serial), now, history))
    {
      var expire := now + TLS_CERT_ROTATION;
      if expire < tls.notAfter {
        return;
      }
      tls := NewTls(serial, ca, now);
    }

    // The body of one CA tick: swap, publish, sign. `published` tells whether the swapped CA
    // went out, at the instant `at`; the new TLS certificate is issued by it either way, at
    // the instant at which the publication came back. `run` are the steps that make r' of the
    // replica `r` of the protocol: the tick, and, if the CA was due, publication and signing.
    method RotateCATick(api: ApiServer, caSerial: nat, tlsSerial: nat, ghost r: Replica)
      returns (published: bool, ghost at: int, ghost run: seq<Moment>, ghost r': Replica)
      requires api.history != [] && r.phase.Idle? && Represents(ca, tls, r)
      modifies this`ca, this`tls, api
      ensures Grown(old(api.history), api.history) && old(api.clock) <= at <= api.clock
      ensures Played(r, run, r', old(api.history), old(api.clock), api.history, api.clock)
      ensures r'.phase.Idle? && Represents(ca, tls, r')
      ensures run != [] && run[0] == Moment(CaTick(caSerial), old(api.clock), old(api.history))
      ensures !Due(old(ca), CA_CERT_ROTATION, old(api.clock)) ==>
                |run| == 1 && ca == old(ca) && tls == old(tls) && api.history == old(api.history)
      ensures Due(old(ca), CA_CERT_ROTATION, old(api.clock)) ==>
                && ca == NewCa(caSerial, old(api.clock))
                && tls == NewTls(tlsSerial, ca, api.clock)
                && run[|run| - 1] == Moment(Sign(tlsSerial), api.clock, api.history)
                && r'.caOut == r'.signerOut == !published
                && api.accepted == old(api.accepted) + (if published then 1 else 0)
                && (published ==> |api.history| > |old(api.history)|)
                && (published ==> Edited(api.history, |api.history| - 1, webhookName, Publish(ca, at)))
      ensures Due(old(ca), CA_CERT_ROTATION, old(api.clock)) && published && Parsable(webhookName, api.history) ==>
                InEveryBundle(webhookName, api.history[|api.history| - 1], ca)
    {
      var now := api.clock;
      at := now;
      ghost var early := api.history;
      ghost var tick := Moment(CaTick(caSerial), now, early);
      CaTickMoves(r, caSerial, now, early);
      OneStep(r, tick, early, now, early, now);
      run, r' := [tick], Move(r, CaTick(caSerial), now, early);
      var expire := now + CA_CERT_ROTATION;
      if expire < ca.notAfter {
        return true, at, run, r';
      }
      ca := NewCa(caSerial, now);
      ghost var steps: seq<Moment>;
      published, at, steps := WriteBack(api, false, r');
      tls := NewTls(tlsSerial, ca, api.clock);
      r' := RotationOn(r, r', run, steps, published, tlsSerial, early, now, api.history, api.clock);
      run := run + steps + [Moment(Sign(tlsSerial), api.clock, api.history)];
      if published && Parsable(webhookName, api.history) {
        EditedHolds(api.history, |api.history| - 1, webhookName, ca, at);
      }
    }

    // One publication of a sync pass, whose failure is only logged. The pass has come as far
    // as `run` and still owes `left` publications after this one.
    method SyncOne(api: ApiServer, ghost r: Replica, ghost run: seq<Moment>, ghost left: nat, ghost published: nat,
                   ghost early: seq<seq<Entry>>, ghost from: int)
      returns (ok: bool, ghost on: seq<Moment>)
      requires api.history != [] && r.own != [] && r.Ca() == ca && Grown(early, api.history) && from <= api.clock
      requires Played(r, run, Synced(r, left + 1, published), early, from, api.history, api.clock)
      requires published > 0 ==> Brought(webhookName, ca, early, from, api.history, api.clock)
      modifies api
      ensures Grown(early, api.history) && Grown(old(api.history), api.history) && old(api.clock) <= api.clock
      ensures api.accepted == old(api.accepted) + (if ok then 1 else 0) && run <= on
      ensures Played(r, on, Synced(r, left, if ok then published + 1 else published), early, from, api.history, api.clock)
      ensures ok || published > 0 ==> Brought(webhookName, ca, early, from, api.history, api.clock)
    {
      ghost var before, clock := api.history, api.clock;
      SyncedOn(r, left, published);
      ghost var at: int, steps: seq<Moment>;
      ok, at, steps := WriteBack(api, false, Synced(r, left + 1, published));
      SyncOn(webhookName, r, run, left, published, ok, at, steps, ca, early, from, before, clock, api.history, api.clock);
      on := run + steps;
    }

    // The body of one sync tick: one publication is tried for every webhook of the
    // configuration read, managed or not, that lacks the CA. If one of them went through, a
    // version that came after the tick began is a publication of the CA. `run` are the steps
    // of the replica `r` of the protocol, none if nothing could be read.
    method SyncTick(api: ApiServer, ghost r: Replica)
      returns (seen: seq<Entry>, tried: nat, published: nat, ghost run: seq<Moment>)
      requires api.history != [] && r.phase.Idle? && Represents(ca, tls, r)
      modifies api
      ensures Grown(old(api.history), api.history)
      ensures seen == [] || seen in old(api.history)
      ensures tried == Missing(seen, ca.serial)
      ensures published <= tried && api.accepted == old(api.accepted) + published
      ensures tried == 0 ==> api.history == old(api.history)
      ensures Played(r, run, Synced(r, 0, published), old(api.history), old(api.clock), api.history, api.clock)
      ensures run == [] ==> seen == []
      ensures run != [] ==> TickOf(run[0], old(api.history), seen)
      ensures published > 0 ==> Brought(webhookName, ca, old(api.history), old(api.clock), api.history, api.clock)
      ensures published > 0 && Parsable(webhookName, api.history) ==>
                exists v :: |old(api.history)| <= v < |api.history| && InEveryBundle(webhookName, api.history[v], ca)
    {
      var found, version := api.Get();
      seen := if found then api.history[version] else [];
      tried, published, run := 0, 0, [];
      if found {
        ghost var tick := Moment(CertProtocol.SyncTick(version), api.clock, api.history);
        SyncTickMoves(r, version, api.clock, api.history);
        OneStep(r, tick, api.history, api.clock, api.history, api.clock);
        run := [tick];
      }
      for i := 0 to |seen|
        invariant tried + Missing(seen[i..], ca.serial) == Missing(seen, ca.serial) && published <= tried
        invariant api.accepted == old(api.accepted) + published && api.clock >= old(api.clock)
        invariant Grown(old(api.history), api.history) && (tried == 0 ==> api.history == old(api.history))
        invariant Played(r, run, Synced(r, Missing(seen[i..], ca.serial), published),
                         old(api.history), old(api.clock), api.history, api.clock)
        invariant if run == [] then seen == [] else TickOf(run[0], old(api.history), seen)
        invariant published > 0 ==> Brought(webhookName, ca, old(api.history), old(api.clock), api.history, api.clock)
      {
        MissingStep(seen, i, ca.serial);
        var present := CaBundleFound(seen[i].bundle, ca);
        if !present {
          var ok, on := SyncOne(api, r, run, Missing(seen[i + 1..], ca.serial), published, old(api.history), old(api.clock));
          run, tried := on, tried + 1;
          if ok {
            published := published + 1;
          }
        }
      }
      if published > 0 && Parsable(webhookName, api.history) {
        BroughtHolds(webhookName, ca, old(api.history), old(api.clock), api.history, api.clock);
      }
    }
  }

  // A successful write of the protocol appends what WriteBack appends.
  lemma CommitWrites(w: World, id: nat, ca: Cert, tls: Cert)
    requires Enabled(w, Act(id, Commit)) && Writes(w.replicas[id], Commit, w.history) && Represents(ca, tls, w.replicas[id])
    ensures var r := w.replicas[id];
            Edited(Do(w, Act(id, Commit)).history, |w.history|, w.hook,
                   if r.phase.task.Shutdown? then Clean(ca.serial) else Publish(ca, r.phase.at))
  {
  }
}
