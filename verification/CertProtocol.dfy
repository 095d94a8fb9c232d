// The replicas of the webhook certificate manager as one state machine
// (pkg/certificates/manager.go, pkg/certificates/generate.go). Every replica owns a CA and
// a TLS certificate and publishes its CA into the one shared webhook configuration by
// reading it, editing it and writing it back with a version check. Steps of different
// replicas interleave freely; handlers of one replica do not interleave.

module Rotation {
  import opened Bundles

  const TLS_CERT_VALIDITY := 24 * HOUR
  const TLS_CERT_ROTATION := 1 * HOUR
  const CA_CERT_VALIDITY := 168 * HOUR
  const CA_CERT_ROTATION := 10 * HOUR
  const EXPIRATION_TICKER := 10 * MINUTE

  // Encoded validity dates have a resolution of one second (section 4.1.2.5 of RFC 5280).
  function Truncate(t: int): (r: int)
    ensures t - SECOND < r <= t
  {
    (t / SECOND) * SECOND
  }

  function NewCa(serial: nat, now: int): Cert {
    Cert(serial, serial, Truncate(now), Truncate(now + CA_CERT_VALIDITY))
  }

  function NewTls(serial: nat, ca: Cert, now: int): Cert {
    Cert(serial, ca.serial, Truncate(now), Truncate(now + TLS_CERT_VALIDITY))
  }

  // A certificate is left alone while the end of its rotation window lies ahead of it.
  predicate Due(cert: Cert, window: int, now: int) {
    !(now + window < cert.notAfter)
  }

  lemma NewCaSpan(serial: nat, now: int)
    ensures NewCa(serial, now).notAfter == NewCa(serial, now).notBefore + CA_CERT_VALIDITY
  {
    assert (now + CA_CERT_VALIDITY) / SECOND == now / SECOND + 168 * 3600;
  }

  // A CA that replaces one that is due begins at least 158 hours after it, truncated dates
  // included.
  lemma Successor(serial: nat, now: int, prev: Cert)
    requires prev.notAfter == prev.notBefore + CA_CERT_VALIDITY
    requires prev.notBefore % SECOND == 0
    requires Due(prev, CA_CERT_ROTATION, now)
    ensures NewCa(serial, now).notBefore >= prev.notBefore + (CA_CERT_VALIDITY - CA_CERT_ROTATION)
    ensures NewCa(serial, now).notBefore % SECOND == 0
  {
    assert now >= prev.notBefore + 158 * HOUR;
    assert now / SECOND >= prev.notBefore / SECOND + 158 * 3600;
  }
}

module CertProtocol {
  import opened Wrappers
  import opened Bundles
  import opened Rotation

  // webhookUpdateRetry.Steps
  const UPDATE_ATTEMPTS := 5

  // What a replica is publishing for. A sync pass still owes `left` publications.
  datatype Task = Boot | Rotate | Sync(left: nat) | Shutdown

  // Where a replica is. Holding is the time between the read of version `base` at time `at`
  // and the version-checked write.
  datatype Phase =
    | Idle
    | Fetching(task: Task, attempt: nat)
    | Holding(task: Task, attempt: nat, base: nat, at: int)
    | Signing(task: Task)
    | Gone

  // `own` lists every CA the replica generated, the current one last; `signer` is the index
  // of the one that signed the TLS certificate in use. `caOut` and `signerOut` record that
  // the current CA, or the signer, may be missing from a managed bundle: its publication is
  // still to come, failed, or was overwritten.
  datatype Replica = Replica(phase: Phase, own: seq<Cert>, tls: Option<Cert>, signer: nat,
                             caChecked: int, tlsChecked: int, caOut: bool, signerOut: bool)
  {
    function Ca(): Cert
      requires own != []
    {
      own[|own| - 1]
    }

    // The tickers of a replica run until it shuts down.
    predicate Live() {
      match phase
      case Gone => false
      case Fetching(task, _) => !task.Shutdown?
      case Holding(task, _, _, _) => !task.Shutdown?
      case _ => true
    }

    predicate Serving() {
      Live() && tls.Some?
    }

    // The CA has been swapped and the TLS certificate has not been signed anew.
    predicate MidRotation() {
      match phase
      case Fetching(task, _) => task.Rotate?
      case Holding(task, _, _, _) => task.Rotate?
      case Signing(task) => task.Rotate?
      case _ => false
    }

    // The handlers of both tickers run at most one period apart.
    predicate OnTime(t: int) {
      Live() ==>
        t <= caChecked + EXPIRATION_TICKER && (tls.Some? ==> t <= tlsChecked + EXPIRATION_TICKER)
    }

    // After a successful write.
    function Committed(task: Task): Replica {
      match task
      case Boot => this.(phase := Signing(Boot), caOut := false)
      case Rotate => this.(phase := Signing(Rotate), caOut := false)
      case Sync(left) =>
        this.(phase := if left > 1 then Fetching(Sync(left - 1), 1) else Idle, caOut := false, signerOut := false)
      case Shutdown => this.(phase := Gone)
    }

    // After an error or the last conflict: a booting replica exits, the CA handler logs the
    // error and goes on to sign, the sync pass goes on with the next webhook.
    function Abandoned(task: Task): Replica {
      match task
      case Boot => this.(phase := Gone)
      case Rotate => this.(phase := Signing(Rotate))
      case Sync(left) => this.(phase := if left > 1 then Fetching(Sync(left - 1), 1) else Idle)
      case Shutdown => this.(phase := Gone)
    }
  }

  // All versions of the shared configuration, the current one last. Reads may be stale.
  datatype World = World(hook: string, now: int, history: seq<seq<Entry>>, replicas: map<nat, Replica>)
  {
    function Current(): seq<Entry>
      requires history != []
    {
      history[|history| - 1]
    }
  }

  // What a running replica can do next.
  datatype Action =
    | CaTick(serial: nat)
    | TlsTick(serial: nat)
    | SyncTick(version: nat)
    | Fetch(version: nat)
    | Commit
    | Fail
    | Sign(serial: nat)
    | Stop
    | Crash

  datatype Step =
    | Wait(until: int)
    | Start(id: nat, serial: nat)
    | Act(id: nat, action: Action)
    | Overwrite(entries: seq<Entry>)

  // No replica and no bundle has used the serial number.
  ghost predicate Fresh(w: World, serial: nat) {
    && (forall id, k :: id in w.replicas && 0 <= k < |w.replicas[id].own| ==> w.replicas[id].own[k].serial != serial)
    && (forall v, i, c :: 0 <= v < |w.history| && 0 <= i < |w.history[v]| && c in Certs(w.history[v][i].bundle) ==>
          c.serial != serial)
  }

  // Certificates that carry a replica's serial number are that replica's.
  ghost predicate Genuine(replicas: map<nat, Replica>, entries: seq<Entry>) {
    forall id :: id in replicas ==> GenuineOf(replicas[id].own, entries)
  }

  ghost predicate GenuineOf(own: seq<Cert>, entries: seq<Entry>) {
    forall k, i, c ::
      0 <= k < |own| && 0 <= i < |entries| && c in Certs(entries[i].bundle) && c.serial == own[k].serial ==> c == own[k]
  }

  predicate CanMove(r: Replica, action: Action, history: seq<seq<Entry>>) {
    match action
    case CaTick(_) => r.phase.Idle? && r.own != []
    case TlsTick(_) => r.phase.Idle? && r.own != [] && r.tls.Some?
    case SyncTick(version) => r.phase.Idle? && r.own != [] && version < |history|
    case Fetch(version) => r.phase.Fetching? && version < |history|
    case Commit => r.phase.Holding? && r.own != []
    case Fail => r.phase.Fetching? || r.phase.Holding?
    case Sign(_) => r.phase.Signing? && r.own != []
    case Stop => r.phase.Idle?
    case Crash => true
  }

  ghost predicate Enabled(w: World, step: Step) {
    w.history != [] &&
    match step
    case Wait(until) => w.now <= until && forall id :: id in w.replicas ==> w.replicas[id].OnTime(until)
    case Start(id, serial) => id !in w.replicas && Fresh(w, serial)
    case Overwrite(entries) => WellFormedEntries(w.hook, entries) && Genuine(w.replicas, entries)
    case Act(id, action) =>
      && id in w.replicas
      && CanMove(w.replicas[id], action, w.history)
      && (action.CaTick? ==> Fresh(w, action.serial))
  }

  function EditOf(r: Replica, task: Task, at: int): Edit
    requires r.own != []
  {
    if task.Shutdown? then Clean(r.Ca().serial) else Publish(r.Ca(), at)
  }

  // What a step makes of the replica that takes it.
  function Move(r: Replica, action: Action, now: int, history: seq<seq<Entry>>): Replica
    requires CanMove(r, action, history)
  {
    match action
    case CaTick(serial) =>
      if Due(r.Ca(), CA_CERT_ROTATION, now) then
        r.(phase := Fetching(Rotate, 1), own := r.own + [NewCa(serial, now)], caChecked := now, caOut := true)
      else
        r.(caChecked := now)
    case TlsTick(serial) =>
      if Due(r.tls.value, TLS_CERT_ROTATION, now) then
        r.(tls := Some(NewTls(serial, r.Ca(), now)), signer := |r.own| - 1, signerOut := r.caOut, tlsChecked := now)
      else
        r.(tlsChecked := now)
    case SyncTick(version) =>
      var missing := Missing(history[version], r.Ca().serial);
      if missing == 0 then r else r.(phase := Fetching(Sync(missing), 1))
    case Fetch(version) => r.(phase := Holding(r.phase.task, r.phase.attempt, version, now))
    case Commit =>
      if r.phase.base == |history| - 1 then r.Committed(r.phase.task)
      else if r.phase.attempt < UPDATE_ATTEMPTS then r.(phase := Fetching(r.phase.task, r.phase.attempt + 1))
      else r.Abandoned(r.phase.task)
    case Fail => r.Abandoned(r.phase.task)
    case Sign(serial) =>
      r.(phase := Idle, tls := Some(NewTls(serial, r.Ca(), now)), signer := |r.own| - 1, signerOut := r.caOut,
         tlsChecked := if r.phase.task.Boot? then now else r.tlsChecked)
    case Stop => r.(phase := Fetching(Shutdown, 1))
    case Crash => r.(phase := Gone)
  }

  function Do(w: World, step: Step): World
    requires Enabled(w, step)
  {
    match step
    case Wait(until) => w.(now := until)
    case Start(id, serial) =>
      w.(replicas := w.replicas[id := Replica(Fetching(Boot, 1), [NewCa(serial, w.now)], None, 0, w.now, w.now, true, true)])
    case Overwrite(entries) =>
      w.(history := w.history + [entries],
         replicas := map id | id in w.replicas :: w.replicas[id].(caOut := true, signerOut := true))
    case Act(id, action) =>
      var r := w.replicas[id];
      var moved := w.(replicas := w.replicas[id := Move(r, action, w.now, w.history)]);
      if Writes(r, action, w.history) then
        moved.(history := w.history + [EditEntries(EditOf(r, r.phase.task, r.phase.at), w.hook, w.Current())])
      else
        moved
  }

  // A write that meets the version it was computed from.
  predicate Writes(r: Replica, action: Action, history: seq<seq<Entry>>) {
    action.Commit? && r.phase.Holding? && r.phase.base == |history| - 1
  }

  // ---------------------------------------------------------------- the invariant

  predicate Spaced(own: seq<Cert>) {
    && (forall k :: 0 <= k < |own| ==> own[k].notAfter == own[k].notBefore + CA_CERT_VALIDITY && own[k].notBefore % SECOND == 0)
    && (forall j, k :: 0 <= j < |own| && 0 <= k < |own| && k == j + 1 ==>
          own[j].notBefore + (CA_CERT_VALIDITY - CA_CERT_ROTATION) <= own[k].notBefore)
  }

  // Which tasks go with which state of the TLS certificate.
  predicate Shape(r: Replica) {
    match r.phase
    case Idle => r.tls.Some?
    case Fetching(task, _) => (task.Boot? <==> r.tls.None?)
    case Holding(task, _, _, _) => (task.Boot? <==> r.tls.None?)
    case Signing(task) => (task.Boot? && r.tls.None?) || (task.Rotate? && r.tls.Some?)
    case Gone => true
  }

  predicate Signed(r: Replica) {
    && r.own != []
    && r.signer < |r.own|
    && (r.tls.Some? ==> r.tls.value.issuer == r.own[r.signer].serial)
    && (r.Serving() && !r.MidRotation() ==> r.signer == |r.own| - 1 && r.signerOut == r.caOut)
    && (r.MidRotation() ==> r.signer == |r.own| - 2)
  }

  predicate Timely(r: Replica, now: int)
    requires r.own != [] && r.signer < |r.own|
  {
    && r.Ca().notBefore <= now
    && r.OnTime(now)
    && r.tlsChecked <= now
    && (r.Live() ==> r.caChecked <= now && r.Ca().notAfter > r.caChecked + CA_CERT_ROTATION)
    && (r.Serving() ==> r.tls.value.notAfter > r.tlsChecked + TLS_CERT_ROTATION)
    && (r.MidRotation() ==> r.own[r.signer].notAfter > r.caChecked + CA_CERT_ROTATION - EXPIRATION_TICKER)
    && (r.phase.Holding? ==> r.phase.at <= now && (r.Live() ==> r.caChecked <= r.phase.at))
  }

  predicate Present(hook: string, current: seq<Entry>, r: Replica)
    requires r.own != [] && r.signer < |r.own|
  {
    && (r.Live() && !r.caOut ==> InEveryBundle(hook, current, r.Ca()))
    && (r.Serving() && !r.signerOut ==> InEveryBundle(hook, current, r.own[r.signer]))
  }

  predicate ReplicaInv(hook: string, now: int, history: seq<seq<Entry>>, r: Replica)
    requires history != []
  {
    && Shape(r)
    && Signed(r)
    && Spaced(r.own)
    && Timely(r, now)
    && (r.phase.Holding? ==> r.phase.base < |history|)
    && Present(hook, history[|history| - 1], r)
  }

  predicate NoRepeat(own: seq<Cert>) {
    forall j, k :: 0 <= j < |own| && 0 <= k < |own| && own[j].serial == own[k].serial ==> j == k
  }

  predicate Apart(a: seq<Cert>, b: seq<Cert>) {
    forall j, k :: 0 <= j < |a| && 0 <= k < |b| ==> a[j].serial != b[k].serial
  }

  ghost predicate DistinctSerials(replicas: map<nat, Replica>) {
    && (forall id :: id in replicas ==> NoRepeat(replicas[id].own))
    && (forall a, b :: a in replicas && b in replicas && a != b ==> Apart(replicas[a].own, replicas[b].own))
  }

  ghost predicate Archive(hook: string, history: seq<seq<Entry>>, replicas: map<nat, Replica>) {
    && (forall v :: 0 <= v < |history| ==> WellFormedEntries(hook, history[v]) && Genuine(replicas, history[v]))
    && DistinctSerials(replicas)
  }

  ghost predicate Inv(w: World) {
    && w.history != []
    && Archive(w.hook, w.history, w.replicas)
    && (forall id :: id in w.replicas ==> ReplicaInv(w.hook, w.now, w.history, w.replicas[id]))
  }

  // A configuration whose managed bundles parse, before any replica has started.
  predicate Initial(w: World) {
    |w.history| == 1 && w.replicas == map[] && WellFormedEntries(w.hook, w.history[0])
  }

  lemma InitialInv(w: World)
    requires Initial(w)
    ensures Inv(w)
  {
  }

  // Unexpired certificates of a live replica.
  lemma StillValid(r: Replica, now: int)
    requires Signed(r) && Timely(r, now) && r.Live()
    ensures r.Ca().notAfter > now + CA_CERT_ROTATION - EXPIRATION_TICKER
    ensures r.Serving() ==> r.own[r.signer].notAfter > now + CA_CERT_ROTATION - 2 * EXPIRATION_TICKER
    ensures r.Serving() ==> r.tls.value.notAfter > now + TLS_CERT_ROTATION - EXPIRATION_TICKER
  {
  }

  // Every step of a replica but a successful write keeps its part of the invariant.
  lemma MoveInv(hook: string, now: int, history: seq<seq<Entry>>, r: Replica, action: Action)
    requires history != [] && ReplicaInv(hook, now, history, r) && CanMove(r, action, history)
    requires !Writes(r, action, history)
    ensures ReplicaInv(hook, now, history, Move(r, action, now, history))
  {
    if action.CaTick? {
      CaTickInv(hook, now, history, r, action.serial);
    } else if action.TlsTick? || action.Sign? {
      SignInv(hook, now, history, r, action);
    } else {
      PhaseInv(hook, now, history, r, action);
    }
  }

  lemma SignInv(hook: string, now: int, history: seq<seq<Entry>>, r: Replica, action: Action)
    requires history != [] && ReplicaInv(hook, now, history, r) && CanMove(r, action, history)
    requires action.TlsTick? || action.Sign?
    ensures ReplicaInv(hook, now, history, Move(r, action, now, history))
  {
  }

  lemma PhaseInv(hook: string, now: int, history: seq<seq<Entry>>, r: Replica, action: Action)
    requires history != [] && ReplicaInv(hook, now, history, r) && CanMove(r, action, history)
    requires !Writes(r, action, history) && !action.CaTick? && !action.TlsTick? && !action.Sign?
    ensures ReplicaInv(hook, now, history, Move(r, action, now, history))
  {
    if action.Commit? || action.Fail? {
      AbandonedInv(hook, now, history, r);
    }
  }

  lemma AbandonedInv(hook: string, now: int, history: seq<seq<Entry>>, r: Replica)
    requires history != [] && ReplicaInv(hook, now, history, r)
    requires r.phase.Fetching? || r.phase.Holding?
    ensures ReplicaInv(hook, now, history, r.Abandoned(r.phase.task))
  {
    var r' := r.Abandoned(r.phase.task);
    assert r' == r.(phase := r'.phase);
    if r.phase.task.Rotate? {
      assert r'.MidRotation() && r.MidRotation();
    } else if r.phase.task.Sync? {
      assert !r'.MidRotation() && !r.MidRotation();
    }
  }

  lemma CaTickInv(hook: string, now: int, history: seq<seq<Entry>>, r: Replica, serial: nat)
    requires history != [] && ReplicaInv(hook, now, history, r) && r.phase.Idle?
    ensures ReplicaInv(hook, now, history, Move(r, CaTick(serial), now, history))
  {
    var r' := Move(r, CaTick(serial), now, history);
    if Due(r.Ca(), CA_CERT_ROTATION, now) {
      NewCaSpan(serial, now);
      Successor(serial, now, r.Ca());
      assert forall k :: 0 <= k < |r.own| ==> r'.own[k] == r.own[k];
      assert r'.own[r'.signer] == r.Ca();
      assert Spaced(r'.own);
    }
  }

  // A successful write keeps the writer's part: on the new configuration its CA is present,
  // and so is the signer of its TLS certificate if it was present before.
  lemma WriterInv(hook: string, now: int, history: seq<seq<Entry>>, r: Replica)
    requires history != [] && ReplicaInv(hook, now, history, r)
    requires r.phase.Holding? && r.phase.base == |history| - 1
    requires WellFormedEntries(hook, history[|history| - 1])
    ensures ReplicaInv(hook, now,
              history + [EditEntries(EditOf(r, r.phase.task, r.phase.at), hook, history[|history| - 1])],
              r.Committed(r.phase.task))
  {
    var current := history[|history| - 1];
    if r.Live() {
      StillValid(r, now);
      PublishPuts(r.Ca(), r.phase.at, hook, current);
      if r.Serving() && !r.signerOut {
        EditKeeps(Publish(r.Ca(), r.phase.at), hook, current, r.own[r.signer]);
      }
    }
  }

  // It also keeps the part of every other replica: theirs are other serial numbers, and
  // their certificates have not expired.
  lemma OtherInv(hook: string, now: int, history: seq<seq<Entry>>, r: Replica, o: Replica)
    requires history != [] && ReplicaInv(hook, now, history, r) && ReplicaInv(hook, now, history, o)
    requires r.phase.Holding? && Apart(r.own, o.own)
    ensures ReplicaInv(hook, now,
              history + [EditEntries(EditOf(r, r.phase.task, r.phase.at), hook, history[|history| - 1])], o)
  {
    var edit := EditOf(r, r.phase.task, r.phase.at);
    var current := history[|history| - 1];
    if o.Live() {
      StillValid(o, now);
      if !o.caOut { EditKeeps(edit, hook, current, o.Ca()); }
      if o.Serving() && !o.signerOut { EditKeeps(edit, hook, current, o.own[o.signer]); }
    }
  }

  lemma WrittenGenuine(own: seq<Cert>, edit: Edit, hook: string, entries: seq<Entry>)
    requires GenuineOf(own, entries)
    requires edit.Publish? ==> forall k :: 0 <= k < |own| && own[k].serial == edit.ca.serial ==> own[k] == edit.ca
    ensures GenuineOf(own, EditEntries(edit, hook, entries))
  {
    var edited := EditEntries(edit, hook, entries);
    forall k, i, c | 0 <= k < |own| && 0 <= i < |edited| && c in Certs(edited[i].bundle) && c.serial == own[k].serial
      ensures c == own[k]
    {
      EditAddsOnly(edit, hook, entries, i, c);
    }
  }

  // Genuineness and distinct serials depend on the generated CAs only.
  ghost predicate SameCas(a: map<nat, Replica>, b: map<nat, Replica>) {
    a.Keys == b.Keys && forall id :: id in a ==> b[id].own == a[id].own
  }

  lemma SameGenuine(a: map<nat, Replica>, b: map<nat, Replica>, entries: seq<Entry>)
    requires SameCas(a, b)
    ensures Genuine(a, entries) ==> Genuine(b, entries)
  {
  }

  lemma SameSerials(a: map<nat, Replica>, b: map<nat, Replica>)
    requires SameCas(a, b) && DistinctSerials(a)
    ensures DistinctSerials(b)
  {
    forall i, j | i in b && j in b && i != j ensures Apart(b[i].own, b[j].own) {
      assert Apart(a[i].own, a[j].own);
    }
  }

  lemma SameArchive(hook: string, history: seq<seq<Entry>>, a: map<nat, Replica>, b: map<nat, Replica>)
    requires SameCas(a, b) && Archive(hook, history, a)
    ensures Archive(hook, history, b)
  {
    forall v | 0 <= v < |history| ensures Genuine(b, history[v]) {
      SameGenuine(a, b, history[v]);
    }
    SameSerials(a, b);
  }

  lemma LongerArchive(hook: string, history: seq<seq<Entry>>, entries: seq<Entry>, replicas: map<nat, Replica>)
    requires Archive(hook, history, replicas)
    requires WellFormedEntries(hook, entries) && Genuine(replicas, entries)
    ensures Archive(hook, history + [entries], replicas)
  {
    forall v | 0 <= v < |history + [entries]|
      ensures WellFormedEntries(hook, (history + [entries])[v]) && Genuine(replicas, (history + [entries])[v])
    {
      if v < |history| { assert (history + [entries])[v] == history[v]; }
    }
  }

  lemma FreshGenuine(own: seq<Cert>, r: Replica, entries: seq<Entry>)
    requires r.own != [] && r.own[..|r.own| - 1] == own
    requires GenuineOf(own, entries)
    requires forall i, c :: 0 <= i < |entries| && c in Certs(entries[i].bundle) ==> c.serial != r.Ca().serial
    ensures GenuineOf(r.own, entries)
  {
    assert forall k :: 0 <= k < |own| ==> r.own[k] == own[k];
  }

  // A replica that takes a fresh serial number for a new CA.
  lemma NewSerials(replicas: map<nat, Replica>, id: nat, own: seq<Cert>, r: Replica)
    requires DistinctSerials(replicas)
    requires r.own != [] && r.own[..|r.own| - 1] == own
    requires if id in replicas then own == replicas[id].own else own == []
    requires forall j, k :: j in replicas && 0 <= k < |replicas[j].own| ==> replicas[j].own[k].serial != r.Ca().serial
    ensures DistinctSerials(replicas[id := r])
  {
    assert forall k :: 0 <= k < |own| ==> r.own[k] == own[k];
    assert NoRepeat(own);
    assert NoRepeat(r.own);
    forall b | b in replicas && b != id ensures Apart(r.own, replicas[b].own) && Apart(replicas[b].own, r.own) {
      assert Apart(own, replicas[b].own);
    }
  }

  lemma NewArchive(w: World, id: nat, own: seq<Cert>, r: Replica)
    requires Archive(w.hook, w.history, w.replicas)
    requires r.own != [] && r.own[..|r.own| - 1] == own && Fresh(w, r.Ca().serial)
    requires if id in w.replicas then own == w.replicas[id].own else own == []
    ensures Archive(w.hook, w.history, w.replicas[id := r])
  {
    forall v | 0 <= v < |w.history| ensures Genuine(w.replicas[id := r], w.history[v]) {
      assert Genuine(w.replicas, w.history[v]);
      assert GenuineOf(own, w.history[v]);
      FreshGenuine(own, r, w.history[v]);
    }
    NewSerials(w.replicas, id, own, r);
  }

  lemma StartStep(w: World, id: nat, serial: nat)
    requires Inv(w) && Enabled(w, Start(id, serial))
    ensures Inv(Do(w, Start(id, serial)))
  {
    NewCaSpan(serial, w.now);
    NewArchive(w, id, [], Do(w, Start(id, serial)).replicas[id]);
  }

  lemma MoveStep(w: World, id: nat, action: Action)
    requires Inv(w) && Enabled(w, Act(id, action)) && !Writes(w.replicas[id], action, w.history)
    ensures Inv(Do(w, Act(id, action)))
  {
    MoveInv(w.hook, w.now, w.history, w.replicas[id], action);
    MoveArchive(w, id, action);
  }

  lemma MoveArchive(w: World, id: nat, action: Action)
    requires Archive(w.hook, w.history, w.replicas) && w.history != []
    requires Enabled(w, Act(id, action)) && !Writes(w.replicas[id], action, w.history)
    ensures Archive(w.hook, w.history, Do(w, Act(id, action)).replicas)
  {
    var r := w.replicas[id];
    var r' := Move(r, action, w.now, w.history);
    if r'.own == r.own {
      SameArchive(w.hook, w.history, w.replicas, w.replicas[id := r']);
    } else {
      assert r'.own[..|r'.own| - 1] == r.own;
      NewArchive(w, id, r.own, r');
    }
  }

  lemma WriteStep(w: World, id: nat)
    requires Inv(w) && Enabled(w, Act(id, Commit)) && Writes(w.replicas[id], Commit, w.history)
    ensures Inv(Do(w, Act(id, Commit)))
  {
    var w' := Do(w, Act(id, Commit));
    WriteArchive(w, id);
    forall j | j in w'.replicas ensures ReplicaInv(w'.hook, w'.now, w'.history, w'.replicas[j]) {
      assert ReplicaInv(w.hook, w.now, w.history, w.replicas[id]) && ReplicaInv(w.hook, w.now, w.history, w.replicas[j]);
      assert WellFormedEntries(w.hook, w.Current()) && (j != id ==> Apart(w.replicas[id].own, w.replicas[j].own));
      WriteReplica(w, id, j);
    }
  }

  lemma WriteReplica(w: World, id: nat, j: nat)
    requires Enabled(w, Act(id, Commit)) && Writes(w.replicas[id], Commit, w.history) && j in w.replicas
    requires ReplicaInv(w.hook, w.now, w.history, w.replicas[id]) && ReplicaInv(w.hook, w.now, w.history, w.replicas[j])
    requires WellFormedEntries(w.hook, w.Current()) && (j != id ==> Apart(w.replicas[id].own, w.replicas[j].own))
    ensures var w' := Do(w, Act(id, Commit)); ReplicaInv(w'.hook, w'.now, w'.history, w'.replicas[j])
  {
    if j == id {
      WriterInv(w.hook, w.now, w.history, w.replicas[id]);
    } else {
      OtherInv(w.hook, w.now, w.history, w.replicas[id], w.replicas[j]);
    }
  }

  lemma WriteArchive(w: World, id: nat)
    requires Archive(w.hook, w.history, w.replicas) && w.history != []
    requires Enabled(w, Act(id, Commit)) && Writes(w.replicas[id], Commit, w.history)
    ensures var w' := Do(w, Act(id, Commit)); Archive(w'.hook, w'.history, w'.replicas)
  {
    var r := w.replicas[id];
    var w' := Do(w, Act(id, Commit));
    var edit := EditOf(r, r.phase.task, r.phase.at);
    EditEntriesFrame(edit, w.hook, w.Current());
    forall j | j in w.replicas ensures GenuineOf(w.replicas[j].own, w'.Current()) {
      assert GenuineOf(w.replicas[j].own, w.Current());
      assert if j == id then NoRepeat(r.own) else Apart(r.own, w.replicas[j].own);
      WrittenGenuine(w.replicas[j].own, edit, w.hook, w.Current());
    }
    LongerArchive(w.hook, w.history, w'.Current(), w.replicas);
    SameArchive(w.hook, w'.history, w.replicas, w'.replicas);
  }

  lemma WaitStep(w: World, until: int)
    requires Inv(w) && Enabled(w, Wait(until))
    ensures Inv(Do(w, Wait(until)))
  {
  }

  lemma OverwriteStep(w: World, entries: seq<Entry>)
    requires Inv(w) && Enabled(w, Overwrite(entries))
    ensures Inv(Do(w, Overwrite(entries)))
  {
    var w' := Do(w, Overwrite(entries));
    LongerArchive(w.hook, w.history, entries, w.replicas);
    SameArchive(w.hook, w'.history, w.replicas, w'.replicas);
    forall id | id in w'.replicas ensures ReplicaInv(w'.hook, w'.now, w'.history, w'.replicas[id]) {
      OverwrittenInv(w.hook, w.now, w.history, w.replicas[id], entries);
    }
  }

  lemma OverwrittenInv(hook: string, now: int, history: seq<seq<Entry>>, r: Replica, entries: seq<Entry>)
    requires history != [] && ReplicaInv(hook, now, history, r)
    ensures ReplicaInv(hook, now, history + [entries], r.(caOut := true, signerOut := true))
  {
  }

  // Every step of every replica keeps the invariant.
  lemma StepInv(w: World, step: Step)
    requires Inv(w) && Enabled(w, step)
    ensures Inv(Do(w, step))
  {
    match step
    case Wait(until) => WaitStep(w, until);
    case Start(id, serial) => StartStep(w, id, serial);
    case Overwrite(entries) => OverwriteStep(w, entries);
    case Act(id, action) =>
      if Writes(w.replicas[id], action, w.history) { WriteStep(w, id); } else { MoveStep(w, id, action); }
  }

  // ---------------------------------------------------------------- runs

  ghost predicate Legal(w: World, steps: seq<Step>)
    decreases |steps|
  {
    steps == [] || (Enabled(w, steps[0]) && Legal(Do(w, steps[0]), steps[1..]))
  }

  ghost function Run(w: World, steps: seq<Step>): World
    requires Legal(w, steps)
    decreases |steps|
  {
    if steps == [] then w else Run(Do(w, steps[0]), steps[1..])
  }

  lemma {:induction false} RunInv(w: World, steps: seq<Step>)
    requires Inv(w) && Legal(w, steps)
    ensures Inv(Run(w, steps))
    decreases |steps|
  {
    if steps != [] {
      StepInv(w, steps[0]);
      RunInv(Do(w, steps[0]), steps[1..]);
    }
  }

  // A world that some run of some set of replicas reaches.
  ghost predicate Reachable(w: World) {
    exists first, steps :: Initial(first) && Legal(first, steps) && Run(first, steps) == w
  }

  lemma ReachableInv(w: World)
    requires Reachable(w)
    ensures Inv(w)
  {
    var first, steps :| Initial(first) && Legal(first, steps) && Run(first, steps) == w;
    InitialInv(first);
    RunInv(first, steps);
  }

  // The API server can verify the TLS certificate of a replica with any managed bundle.
  ghost predicate Trusted(w: World, r: Replica)
    requires w.history != []
  {
    r.tls.Some? && w.now <= r.tls.value.notAfter &&
    exists ca: Cert :: ca.serial == r.tls.value.issuer && !Expired(ca, w.now) && InEveryBundle(w.hook, w.Current(), ca)
  }

  // No trust gap: at every instant of every run, between and inside handlers, the TLS
  // certificate of a serving replica verifies against every managed bundle, unless the
  // publication of its signer failed or was overwritten and has not been repeated since.
  lemma NoTrustGap(w: World, id: nat)
    requires Reachable(w) && id in w.replicas && w.replicas[id].Serving() && !w.replicas[id].signerOut
    ensures w.history != [] && Trusted(w, w.replicas[id])
  {
    ReachableInv(w);
    var r := w.replicas[id];
    StillValid(r, w.now);
    assert InEveryBundle(w.hook, w.Current(), r.own[r.signer]);
  }

  // The margins at every instant of every run.
  lemma Margins(w: World, id: nat)
    requires Reachable(w) && id in w.replicas && w.replicas[id].Live()
    ensures var r := w.replicas[id];
            && r.own != []
            && r.Ca().notAfter - w.now > 9 * HOUR + 50 * MINUTE
            && (r.tls.Some? ==> r.tls.value.notAfter - w.now > 50 * MINUTE)
            && (r.phase.Idle? ==> r.tls.Some? && r.tls.value.issuer == r.Ca().serial)
  {
    ReachableInv(w);
    StillValid(w.replicas[id], w.now);
  }

  // A replica can always boot: four undisturbed steps make it serve, trusted by every bundle.
  lemma Boots(w: World, id: nat, serial: nat, tlsSerial: nat)
    requires Inv(w) && id !in w.replicas && Fresh(w, serial)
    ensures var steps := [Start(id, serial), Act(id, Fetch(|w.history| - 1)), Act(id, Commit), Act(id, Sign(tlsSerial))];
            && Legal(w, steps)
            && var end := Run(w, steps);
               && Inv(end) && id in end.replicas && end.replicas[id].Serving()
               && !end.replicas[id].signerOut && end.replicas[id].Ca() == NewCa(serial, w.now)
  {
    var w1 := Do(w, Start(id, serial));
    var w2 := Do(w1, Act(id, Fetch(|w.history| - 1)));
    var w3 := Do(w2, Act(id, Commit));
    FourSteps(w, Start(id, serial), Act(id, Fetch(|w.history| - 1)), Act(id, Commit), Act(id, Sign(tlsSerial)));
    var steps := [Start(id, serial), Act(id, Fetch(|w.history| - 1)), Act(id, Commit), Act(id, Sign(tlsSerial))];
    RunInv(w, steps);
  }

  lemma FourSteps(w: World, a: Step, b: Step, c: Step, d: Step)
    requires Enabled(w, a) && Enabled(Do(w, a), b) && Enabled(Do(Do(w, a), b), c) && Enabled(Do(Do(Do(w, a), b), c), d)
    ensures Legal(w, [a, b, c, d]) && Run(w, [a, b, c, d]) == Do(Do(Do(Do(w, a), b), c), d)
  {
    var w1 := Do(w, a);
    var w2 := Do(w1, b);
    var w3 := Do(w2, c);
    assert [a, b, c, d][1..] == [b, c, d] && [b, c, d][1..] == [c, d] && [c, d][1..] == [d] && [d][1..] == [];
    var w4 := Do(w3, d);
    assert Legal(w4, []) && Run(w4, []) == w4;
    assert Legal(w3, [d]) && Run(w3, [d]) == Do(w3, d);
    assert Legal(w2, [c, d]) && Run(w2, [c, d]) == Do(w3, d);
    assert Legal(w1, [b, c, d]) && Run(w1, [b, c, d]) == Do(w3, d);
  }

  // After a rotation has signed the new TLS certificate, it is trusted if and only if the
  // new CA reached every managed bundle; a failed publication leaves a gap here.
  lemma TrustAfterRotation(w: World, id: nat, serial: nat, i: nat)
    requires Inv(w) && Enabled(w, Act(id, Sign(serial))) && w.replicas[id].Live()
    requires i < |w.Current()| && Managed(w.hook, w.Current()[i].name)
    ensures var w' := Do(w, Act(id, Sign(serial)));
            Trusted(w', w'.replicas[id]) <==> InEveryBundle(w.hook, w.Current(), w.replicas[id].Ca())
  {
    var w' := Do(w, Act(id, Sign(serial)));
    var r, r' := w.replicas[id], w'.replicas[id];
    assert ReplicaInv(w.hook, w.now, w.history, r);
    StillValid(r, w.now);
    if Trusted(w', r') {
      var ca: Cert :| ca.serial == r'.tls.value.issuer && !Expired(ca, w'.now) && InEveryBundle(w'.hook, w'.Current(), ca);
      assert Genuine(w.replicas, w.Current());
      assert GenuineOf(r.own, w.Current());
      assert ca in Certs(w.Current()[i].bundle);
      assert ca == r.own[|r.own| - 1];
    }
  }

  // ---------------------------------------------------------------- runs without failures

  // The publication of a rotated CA gives up: any error, or the fifth conflict.
  predicate GivesUp(r: Replica, action: Action, history: seq<seq<Entry>>) {
    r.MidRotation() &&
    (action.Fail? || (action.Commit? && r.phase.Holding? && r.phase.base != |history| - 1 && r.phase.attempt >= UPDATE_ATTEMPTS))
  }

  // Nobody overwrites, and no rotation of this replica gives up; those of others may.
  ghost predicate Smooth(w: World, steps: seq<Step>, id: nat)
    requires Legal(w, steps)
    decreases |steps|
  {
    steps != [] ==>
      && !steps[0].Overwrite?
      && (steps[0].Act? && steps[0].id == id ==> !GivesUp(w.replicas[id], steps[0].action, w.history))
      && Smooth(Do(w, steps[0]), steps[1..], id)
  }

  // In use without interruption: the signer is out, and the CA is unless it is being published.
  predicate Undisturbed(r: Replica) {
    && (r.Serving() ==> !r.signerOut)
    && (r.Live() && r.caOut ==> (r.phase.Fetching? || r.phase.Holding?) && !r.phase.task.Sync?)
  }

  lemma UndisturbedMove(r: Replica, action: Action, now: int, history: seq<seq<Entry>>)
    requires Shape(r) && Undisturbed(r) && CanMove(r, action, history) && !GivesUp(r, action, history)
    ensures Undisturbed(Move(r, action, now, history))
  {
  }

  lemma {:induction false} SmoothRuns(w: World, steps: seq<Step>, id: nat)
    requires Inv(w) && Legal(w, steps) && Smooth(w, steps, id)
    requires id in w.replicas ==> Undisturbed(w.replicas[id])
    ensures id in Run(w, steps).replicas ==> Undisturbed(Run(w, steps).replicas[id])
    decreases |steps|
  {
    if steps != [] {
      var next := Do(w, steps[0]);
      StepInv(w, steps[0]);
      if steps[0].Act? && steps[0].id == id {
        UndisturbedMove(w.replicas[id], steps[0].action, w.now, w.history);
      }
      SmoothRuns(next, steps[1..], id);
    }
  }

  // When every publication of a replica's rotated CAs goes through and nobody overwrites the
  // configuration, its TLS certificate is trusted at every instant at which it serves,
  // whatever fails at the other replicas.
  lemma AlwaysTrusted(first: World, steps: seq<Step>, id: nat)
    requires Initial(first) && Legal(first, steps) && Smooth(first, steps, id)
    requires id in Run(first, steps).replicas && Run(first, steps).replicas[id].Serving()
    ensures var w := Run(first, steps); w.history != [] && Trusted(w, w.replicas[id])
  {
    SmoothRuns(first, steps, id);
    var w := Run(first, steps);
    assert Reachable(w);
    NoTrustGap(w, id);
  }

  // ---------------------------------------------------------------- published CAs stay

  // No replica that shuts down in this run cleans up the serial number.
  ghost predicate NeverCleaned(w: World, steps: seq<Step>, serial: nat)
    requires Legal(w, steps)
    decreases |steps|
  {
    steps != [] ==>
      && !steps[0].Overwrite?
      && (steps[0].Act? && w.replicas[steps[0].id].own != []
          && w.replicas[steps[0].id].phase.Holding? && w.replicas[steps[0].id].phase.task.Shutdown? ==>
            w.replicas[steps[0].id].Ca().serial != serial)
      && NeverCleaned(Do(w, steps[0]), steps[1..], serial)
  }

  lemma StepStays(w: World, step: Step, cert: Cert)
    requires Inv(w) && Enabled(w, step) && !step.Overwrite?
    requires step.Act? && w.replicas[step.id].phase.Holding? && w.replicas[step.id].phase.task.Shutdown? ==>
               w.replicas[step.id].own != [] && w.replicas[step.id].Ca().serial != cert.serial
    requires InEveryBundle(w.hook, w.Current(), cert) && !Expired(cert, w.now)
    ensures InEveryBundle(w.hook, Do(w, step).Current(), cert)
  {
    if step.Act? && Writes(w.replicas[step.id], step.action, w.history) {
      var r := w.replicas[step.id];
      assert ReplicaInv(w.hook, w.now, w.history, r);
      EditKeeps(EditOf(r, r.phase.task, r.phase.at), w.hook, w.Current(), cert);
    }
  }

  lemma ClockOnly(w: World, step: Step)
    requires Enabled(w, step)
    ensures w.now <= Do(w, step).now && Do(w, step).hook == w.hook
  {
  }

  lemma {:induction false} LaterClock(w: World, steps: seq<Step>)
    requires Legal(w, steps)
    ensures w.now <= Run(w, steps).now && Run(w, steps).hook == w.hook
    decreases |steps|
  {
    if steps != [] {
      ClockOnly(w, steps[0]);
      LaterClock(Do(w, steps[0]), steps[1..]);
    }
  }

  // A certificate in every managed bundle is still in every managed bundle after any run in
  // which it has not expired and its serial number is not cleaned up.
  lemma {:induction false} PublishedStays(w: World, steps: seq<Step>, cert: Cert)
    requires Inv(w) && Legal(w, steps) && NeverCleaned(w, steps, cert.serial)
    requires InEveryBundle(w.hook, w.Current(), cert) && !Expired(cert, Run(w, steps).now)
    ensures Run(w, steps).history != [] && InEveryBundle(w.hook, Run(w, steps).Current(), cert)
    decreases |steps|
  {
    if steps != [] {
      StepInv(w, steps[0]);
      LaterClock(w, steps);
      StepStays(w, steps[0], cert);
      PublishedStays(Do(w, steps[0]), steps[1..], cert);
    }
  }

  predicate ShuttingDown(r: Replica) {
    match r.phase
    case Fetching(task, _) => task.Shutdown?
    case Holding(task, _, _, _) => task.Shutdown?
    case _ => false
  }

  ghost predicate NoStop(steps: seq<Step>, id: nat) {
    forall i :: 0 <= i < |steps| ==> !(steps[i].Act? && steps[i].id == id && steps[i].action.Stop?) && !steps[i].Overwrite?
  }

  // Replicas that do not shut down clean nothing, and nobody else cleans their serials.
  lemma {:induction false} OnlyOwnCleanup(w: World, steps: seq<Step>, id: nat, k: nat)
    requires Inv(w) && Legal(w, steps) && NoStop(steps, id)
    requires id in w.replicas && k < |w.replicas[id].own| && !ShuttingDown(w.replicas[id])
    ensures NeverCleaned(w, steps, w.replicas[id].own[k].serial)
    decreases |steps|
  {
    if steps != [] {
      assert NoStop(steps[1..], id) by {
        assert forall i :: 0 <= i < |steps[1..]| ==> steps[1..][i] == steps[i + 1];
      }
      CleansOthersOnly(w, steps[0], id, k);
      OnlyOwnCleanup(Do(w, steps[0]), steps[1..], id, k);
    }
  }

  lemma CleansOthersOnly(w: World, step: Step, id: nat, k: nat)
    requires Inv(w) && Enabled(w, step) && !step.Overwrite? && !(step.Act? && step.id == id && step.action.Stop?)
    requires id in w.replicas && k < |w.replicas[id].own| && !ShuttingDown(w.replicas[id])
    ensures Inv(Do(w, step))
    ensures var r := Do(w, step).replicas;
            id in r && k < |r[id].own| && r[id].own[k] == w.replicas[id].own[k] && !ShuttingDown(r[id])
    ensures step.Act? && w.replicas[step.id].own != []
            && w.replicas[step.id].phase.Holding? && w.replicas[step.id].phase.task.Shutdown? ==>
              w.replicas[step.id].Ca().serial != w.replicas[id].own[k].serial
  {
    StepInv(w, step);
    OwnKept(w, step, id, k);
    OthersSerial(w, step, id, k);
  }

  lemma OthersSerial(w: World, step: Step, id: nat, k: nat)
    requires Inv(w) && Enabled(w, step) && id in w.replicas && k < |w.replicas[id].own|
    ensures step.Act? && step.id != id && w.replicas[step.id].own != [] ==>
              w.replicas[step.id].Ca().serial != w.replicas[id].own[k].serial
  {
    if step.Act? && step.id != id {
      assert Apart(w.replicas[step.id].own, w.replicas[id].own);
    }
  }

  lemma OwnKept(w: World, step: Step, id: nat, k: nat)
    requires Inv(w) && Enabled(w, step) && !step.Overwrite? && !(step.Act? && step.id == id && step.action.Stop?)
    requires id in w.replicas && k < |w.replicas[id].own| && !ShuttingDown(w.replicas[id])
    ensures var r := Do(w, step).replicas;
            id in r && k < |r[id].own| && r[id].own[k] == w.replicas[id].own[k] && !ShuttingDown(r[id])
  {
    if step.Act? && step.id == id {
      MoveKept(w.replicas[id], step.action, w.now, w.history, k);
    }
  }

  lemma MoveKept(r: Replica, action: Action, now: int, history: seq<seq<Entry>>, k: nat)
    requires CanMove(r, action, history) && !action.Stop? && k < |r.own| && !ShuttingDown(r)
    ensures var r' := Move(r, action, now, history); k < |r'.own| && r'.own[k] == r.own[k] && !ShuttingDown(r')
  {
  }

  // A CA that a replica has published stays in every managed bundle until it expires, as long
  // as its own replica does not shut down and nobody overwrites the configuration: whatever
  // the other replicas do, in whatever order their reads and writes interleave.
  lemma PublishedCaStays(w: World, steps: seq<Step>, id: nat, k: nat)
    requires Reachable(w) && Legal(w, steps) && NoStop(steps, id)
    requires id in w.replicas && k < |w.replicas[id].own| && !ShuttingDown(w.replicas[id])
    requires w.history != [] && InEveryBundle(w.hook, w.Current(), w.replicas[id].own[k])
    requires !Expired(w.replicas[id].own[k], Run(w, steps).now)
    ensures Run(w, steps).history != []
    ensures InEveryBundle(w.hook, Run(w, steps).Current(), w.replicas[id].own[k])
  {
    ReachableInv(w);
    OnlyOwnCleanup(w, steps, id, k);
    PublishedStays(w, steps, w.replicas[id].own[k]);
    LaterClock(w, steps);
  }

  // ---------------------------------------------------------------- repair among other steps

  // The replica publishes this CA with success.
  predicate PublishesNow(w: World, step: Step, id: nat, ca: Cert) {
    && step == Act(id, Commit) && id in w.replicas && Writes(w.replicas[id], Commit, w.history)
    && w.replicas[id].Live() && w.replicas[id].own != [] && w.replicas[id].Ca() == ca
  }

  // A sync tick of the replica reads a version from `since` on and finds this CA everywhere.
  predicate FindsNow(w: World, step: Step, id: nat, ca: Cert, since: nat) {
    && step.Act? && step.id == id && step.action.SyncTick? && id in w.replicas
    && CanMove(w.replicas[id], step.action, w.history) && w.replicas[id].Ca() == ca
    && since <= step.action.version && Missing(w.history[step.action.version], ca.serial) == 0
  }

  // Some sync tick of the run has nothing to do, or some publication of it goes through.
  ghost predicate Syncs(w: World, steps: seq<Step>, id: nat, ca: Cert, since: nat)
    requires Legal(w, steps)
    decreases |steps|
  {
    steps != [] &&
    (PublishesNow(w, steps[0], id, ca) || FindsNow(w, steps[0], id, ca, since)
     || Syncs(Do(w, steps[0]), steps[1..], id, ca, since))
  }

  lemma PublishedNow(w: World, step: Step, id: nat, ca: Cert)
    requires Inv(w) && Enabled(w, step) && PublishesNow(w, step, id, ca)
    ensures InEveryBundle(w.hook, Do(w, step).Current(), ca) && |Do(w, step).history| == |w.history| + 1
  {
    assert WellFormedEntries(w.hook, w.Current());
    PublishPuts(ca, w.replicas[id].phase.at, w.hook, w.Current());
  }

  // Finding the serial number everywhere is finding the CA in every managed bundle.
  lemma FoundEverywhere(hook: string, entries: seq<Entry>, own: seq<Cert>, k: nat)
    requires WellFormedEntries(hook, entries) && GenuineOf(own, entries) && k < |own|
    requires Missing(entries, own[k].serial) == 0
    ensures InEveryBundle(hook, entries, own[k])
  {
    MissingZero(entries, own[k].serial);
    forall i | 0 <= i < |entries| && Managed(hook, entries[i].name) ensures own[k] in Certs(entries[i].bundle) {
      FoundIsMembership(entries[i].bundle, own[k].serial);
      var c :| c in Certs(entries[i].bundle) && c.serial == own[k].serial;
    }
  }

  lemma FoundNow(w: World, step: Step, id: nat, ca: Cert, since: nat)
    requires Inv(w) && Enabled(w, step) && FindsNow(w, step, id, ca, since)
    ensures InEveryBundle(w.hook, w.history[step.action.version], ca)
  {
    var entries, own := w.history[step.action.version], w.replicas[id].own;
    assert WellFormedEntries(w.hook, entries) && Genuine(w.replicas, entries);
    FoundEverywhere(w.hook, entries, own, |own| - 1);
  }

  lemma Appended(w: World, step: Step)
    requires Enabled(w, step)
    ensures w.history <= Do(w, step).history && |Do(w, step).history| <= |w.history| + 1
    ensures |Do(w, step).history| == |w.history| ==> Do(w, step).history == w.history
  {
  }

  lemma {:induction false} HistoryGrows(w: World, steps: seq<Step>)
    requires Legal(w, steps)
    ensures w.history <= Run(w, steps).history && Run(w, steps).hook == w.hook
    decreases |steps|
  {
    if steps != [] {
      Appended(w, steps[0]);
      ClockOnly(w, steps[0]);
      HistoryGrows(Do(w, steps[0]), steps[1..]);
    }
  }

  // Either way some version from `since` on has the CA in every managed bundle.
  lemma {:induction false} SyncedVersion(w: World, steps: seq<Step>, id: nat, ca: Cert, since: nat) returns (v: nat)
    requires Inv(w) && Legal(w, steps) && Syncs(w, steps, id, ca, since) && since <= |w.history|
    ensures since <= v < |Run(w, steps).history| && InEveryBundle(w.hook, Run(w, steps).history[v], ca)
    decreases |steps|
  {
    var next := Do(w, steps[0]);
    HistoryGrows(next, steps[1..]);
    Appended(w, steps[0]);
    ClockOnly(w, steps[0]);
    if PublishesNow(w, steps[0], id, ca) {
      PublishedNow(w, steps[0], id, ca);
      v := |w.history|;
    } else if FindsNow(w, steps[0], id, ca, since) {
      FoundNow(w, steps[0], id, ca, since);
      v := steps[0].action.version;
    } else {
      StepInv(w, steps[0]);
      v := SyncedVersion(next, steps[1..], id, ca, since);
    }
  }

  // A certificate in every managed bundle of some version of the run is in the last one.
  lemma {:induction false} VersionStays(w: World, steps: seq<Step>, cert: Cert, v: nat)
    requires Inv(w) && Legal(w, steps) && NeverCleaned(w, steps, cert.serial) && !Expired(cert, Run(w, steps).now)
    requires |w.history| - 1 <= v < |Run(w, steps).history| && InEveryBundle(w.hook, Run(w, steps).history[v], cert)
    ensures InEveryBundle(w.hook, Run(w, steps).Current(), cert)
    decreases |steps|
  {
    HistoryGrows(w, steps);
    if v == |w.history| - 1 {
      assert Run(w, steps).history[v] == w.Current();
      PublishedStays(w, steps, cert);
    } else {
      var next := Do(w, steps[0]);
      StepInv(w, steps[0]);
      Appended(w, steps[0]);
      ClockOnly(w, steps[0]);
      VersionStays(next, steps[1..], cert, v);
    }
  }

  // A replica that is shutting down or gone never runs again.
  lemma DownStep(w: World, step: Step, id: nat)
    requires Enabled(w, step) && id in w.replicas
    requires !w.replicas[id].Live() || step == Act(id, Stop)
    ensures id in Do(w, step).replicas && !Do(w, step).replicas[id].Live()
  {
  }

  lemma {:induction false} DownStays(w: World, steps: seq<Step>, id: nat)
    requires Legal(w, steps) && id in w.replicas && !w.replicas[id].Live()
    ensures id in Run(w, steps).replicas && !Run(w, steps).replicas[id].Live()
    decreases |steps|
  {
    if steps != [] {
      DownStep(w, steps[0], id);
      DownStays(Do(w, steps[0]), steps[1..], id);
    }
  }

  lemma {:induction false} OwnGrows(w: World, steps: seq<Step>, id: nat)
    requires Legal(w, steps) && id in w.replicas
    ensures id in Run(w, steps).replicas && w.replicas[id].own <= Run(w, steps).replicas[id].own
    decreases |steps|
  {
    if steps != [] {
      var next := Do(w, steps[0]);
      assert id in next.replicas && w.replicas[id].own <= next.replicas[id].own;
      OwnGrows(next, steps[1..], id);
    }
  }

  // A step that cleans up a serial number is one of the replica's own, which is then down for good.
  lemma CleansOwn(w: World, steps: seq<Step>, id: nat, k: nat)
    requires Inv(w) && Legal(w, steps) && steps != []
    requires id in Run(w, steps).replicas && Run(w, steps).replicas[id].Live() && k < |Run(w, steps).replicas[id].own|
    ensures steps[0].Act? && w.replicas[steps[0].id].own != []
            && w.replicas[steps[0].id].phase.Holding? && w.replicas[steps[0].id].phase.task.Shutdown? ==>
              w.replicas[steps[0].id].Ca().serial != Run(w, steps).replicas[id].own[k].serial
  {
    var end := Run(w, steps);
    RunInv(w, steps);
    if steps[0].Act? && w.replicas[steps[0].id].own != []
       && w.replicas[steps[0].id].phase.Holding? && w.replicas[steps[0].id].phase.task.Shutdown? {
      var j := steps[0].id;
      OwnGrows(w, steps, j);
      DownStays(w, steps, j);
      assert Apart(end.replicas[j].own, end.replicas[id].own);
      assert end.replicas[j].own[|w.replicas[j].own| - 1] == w.replicas[j].Ca();
    }
  }

  // While a replica lives nobody cleans up the CAs it has had.
  lemma {:induction false} LiveNotCleaned(w: World, steps: seq<Step>, id: nat, k: nat)
    requires Inv(w) && Legal(w, steps) && forall i :: 0 <= i < |steps| ==> !steps[i].Overwrite?
    requires id in Run(w, steps).replicas && Run(w, steps).replicas[id].Live() && k < |Run(w, steps).replicas[id].own|
    ensures NeverCleaned(w, steps, Run(w, steps).replicas[id].own[k].serial)
    decreases |steps|
  {
    if steps != [] {
      CleansOwn(w, steps, id, k);
      StepInv(w, steps[0]);
      assert forall i :: 0 <= i < |steps[1..]| ==> steps[1..][i] == steps[i + 1];
      LiveNotCleaned(Do(w, steps[0]), steps[1..], id, k);
    }
  }

  // Repair, with everything interleaved: whatever parsable bundles somebody left behind, at
  // the end of every run in which nobody overwrites them again, the CA of a live replica is in
  // every managed bundle if one of its sync ticks has read a version no older than the ones
  // left behind and found nothing missing, or one of its publications of that CA went through,
  // no matter which steps of which replicas lie before, between and after.
  lemma RepairInterleaved(w: World, steps: seq<Step>)
    requires Reachable(w) && Legal(w, steps) && forall i :: 0 <= i < |steps| ==> !steps[i].Overwrite?
    ensures var end := Run(w, steps);
            && end.history != []
            && forall id :: id in end.replicas && end.replicas[id].Live() ==>
                 && end.replicas[id].own != []
                 && (Syncs(w, steps, id, end.replicas[id].Ca(), |w.history| - 1) ==>
                       InEveryBundle(end.hook, end.Current(), end.replicas[id].Ca()))
  {
    var end := Run(w, steps);
    ReachableInv(w);
    RunInv(w, steps);
    LaterClock(w, steps);
    forall id | id in end.replicas && end.replicas[id].Live()
      ensures end.replicas[id].own != []
      ensures Syncs(w, steps, id, end.replicas[id].Ca(), |w.history| - 1) ==>
                InEveryBundle(end.hook, end.Current(), end.replicas[id].Ca())
    {
      StillValid(end.replicas[id], end.now);
      if Syncs(w, steps, id, end.replicas[id].Ca(), |w.history| - 1) {
        var v := SyncedVersion(w, steps, id, end.replicas[id].Ca(), |w.history| - 1);
        LiveNotCleaned(w, steps, id, |end.replicas[id].own| - 1);
        VersionStays(w, steps, end.replicas[id].Ca(), v);
      }
    }
  }

  // ---------------------------------------------------------------- how many CAs are valid

  // At any time only the last two CAs of a replica can be unexpired.
  lemma OnlyLastTwo(own: seq<Cert>, k: nat, now: int)
    requires Spaced(own) && k + 2 < |own| && own[|own| - 1].notBefore <= now + EXPIRATION_TICKER
    ensures Expired(own[k], now)
  {
    SpacedApart(own, k, k + 2);
    SpacedApart(own, k + 2, |own| - 1);
  }

  lemma {:induction false} SpacedApart(own: seq<Cert>, j: nat, k: nat)
    requires Spaced(own) && j <= k < |own|
    ensures own[j].notBefore + (k - j) * (CA_CERT_VALIDITY - CA_CERT_ROTATION) <= own[k].notBefore
    decreases k
  {
    if j < k {
      SpacedApart(own, j, k - 1);
      assert own[k - 1].notBefore + (CA_CERT_VALIDITY - CA_CERT_ROTATION) <= own[k].notBefore;
    }
  }

  function LastTwo(own: seq<Cert>): (r: set<Cert>)
    ensures |r| <= 2
  {
    if own == [] then {} else if |own| == 1 then {own[0]} else
    var r := {own[|own| - 2]} + {own[|own| - 1]};
    assert |r| <= |{own[|own| - 2]}| + |{own[|own| - 1]}|;
    r
  }

  lemma SubsetSize(a: set<Cert>, b: set<Cert>)
    requires a <= b
    ensures |a| <= |b|
  {
    assert a + (b - a) == b;
  }

  // Successive CAs of a replica begin at least 158 hours apart, and at most two of them are
  // unexpired at any instant of any run.
  lemma AtMostTwoValid(w: World, id: nat)
    requires Reachable(w) && id in w.replicas
    ensures var own := w.replicas[id].own;
            && (forall k :: 0 < k < |own| ==> own[k].notBefore >= own[k - 1].notBefore + 158 * HOUR)
            && |set c | c in own && !Expired(c, w.now)| <= 2
  {
    ReachableInv(w);
    assert ReplicaInv(w.hook, w.now, w.history, w.replicas[id]);
    FewValid(w.replicas[id].own, w.now);
  }

  lemma FewValid(own: seq<Cert>, now: int)
    requires Spaced(own) && own != [] && own[|own| - 1].notBefore <= now
    ensures forall k :: 0 < k < |own| ==> own[k].notBefore >= own[k - 1].notBefore + 158 * HOUR
    ensures |set c | c in own && !Expired(c, now)| <= 2
  {
    var valid := set c | c in own && !Expired(c, now);
    forall c | c in valid ensures c in LastTwo(own) {
      var k :| 0 <= k < |own| && own[k] == c;
      if k + 2 < |own| { OnlyLastTwo(own, k, now); }
    }
    SubsetSize(valid, LastTwo(own));
  }

  // Right after a publication every managed bundle holds at most two distinct CAs of each
  // replica, however long the run and however often they were appended.
  lemma AtMostTwoPublished(w: World, id: nat, other: nat, i: nat)
    requires Reachable(w) && Enabled(w, Act(id, Commit)) && Writes(w.replicas[id], Commit, w.history)
    requires !w.replicas[id].phase.task.Shutdown? && w.replicas[id].Live()
    requires other in w.replicas && i < |w.Current()| && Managed(w.hook, w.Current()[i].name)
    ensures var written := Do(w, Act(id, Commit)).Current();
            |written| == |w.Current()| &&
            |set c | c in Certs(written[i].bundle) && c in w.replicas[other].own| <= 2
  {
    var r := w.replicas[id];
    RecentOwn(w, id, other);
    FewHeld(w.replicas[other].own, r.Ca(), r.phase.at, w.hook, w.Current(), i);
  }

  lemma RecentOwn(w: World, id: nat, other: nat)
    requires Reachable(w) && id in w.replicas && other in w.replicas
    requires w.replicas[id].phase.Holding? && w.replicas[id].Live()
    ensures w.history != [] && WellFormedEntries(w.hook, w.Current())
    ensures var own, r := w.replicas[other].own, w.replicas[id];
            && r.own != [] && own != [] && Spaced(own)
            && own[|own| - 1].notBefore <= r.phase.at + EXPIRATION_TICKER
            && forall k :: 0 <= k < |own| && own[k] == r.Ca() ==> k == |own| - 1
  {
    ReachableInv(w);
    var r, own := w.replicas[id], w.replicas[other].own;
    assert ReplicaInv(w.hook, w.now, w.history, r);
    assert ReplicaInv(w.hook, w.now, w.history, w.replicas[other]);
    assert NoRepeat(own) && (id != other ==> Apart(r.own, own));
  }

  lemma FewHeld(own: seq<Cert>, ca: Cert, at: int, hook: string, entries: seq<Entry>, i: nat)
    requires WellFormedEntries(hook, entries) && i < |entries| && Managed(hook, entries[i].name)
    requires Spaced(own) && own != [] && own[|own| - 1].notBefore <= at + EXPIRATION_TICKER
    requires forall k :: 0 <= k < |own| && own[k] == ca ==> k == |own| - 1
    ensures |set c | c in Certs(EditEntries(Publish(ca, at), hook, entries)[i].bundle) && c in own| <= 2
  {
    var certs := Certs(entries[i].bundle);
    EditEntriesAt(Publish(ca, at), hook, entries, i);
    CertsOfEncode(Apply(Publish(ca, at), certs));
    var held := set c | c in Certs(EditEntries(Publish(ca, at), hook, entries)[i].bundle) && c in own;
    forall c | c in held ensures c in LastTwo(own) {
      HeldIsRecent(own, ca, at, certs, c);
    }
    SubsetSize(held, LastTwo(own));
  }

  lemma HeldIsRecent(own: seq<Cert>, ca: Cert, at: int, certs: seq<Cert>, c: Cert)
    requires Spaced(own) && own != [] && own[|own| - 1].notBefore <= at + EXPIRATION_TICKER
    requires forall k :: 0 <= k < |own| && own[k] == ca ==> k == |own| - 1
    requires c in Apply(Publish(ca, at), certs) && c in own
    ensures c in LastTwo(own)
  {
    var k :| 0 <= k < |own| && own[k] == c;
    ApplyMember(Publish(ca, at), certs, c);
    if k + 2 < |own| {
      OnlyLastTwo(own, k, at);
    }
  }
}
