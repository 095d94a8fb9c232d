// CA bundles of the webhook configuration: what the certificate manager reads, edits and
// writes back (pkg/certificates/manager.go). A bundle is the list of things that decoding
// its bytes meets, an edit is one of the two rewrites the manager applies to it.

module Bundles {
  import opened Wrappers

  // Time is counted in nanoseconds, as in Go.
  const SECOND := 1_000_000_000
  const MINUTE := 60 * SECOND
  const HOUR := 60 * MINUTE

  // `notBefore` and `notAfter` are the validity dates of section 4.1.2.5 of RFC 5280,
  // `issuer` is the serial number of the signing certificate.
  datatype Cert = Cert(serial: nat, issuer: nat, notBefore: int, notAfter: int)

  // What pem.Decode meets in a bundle: a certificate, a block of type CERTIFICATE that does
  // not parse, a block of another type, or text that is no block at all.
  datatype Chunk = Block(cert: Cert) | Unparsable | OtherBlock | Garbage

  type Bundle = seq<Chunk>

  // The next block and what follows it. Text before a block is skipped; when no block is
  // left the whole input comes back.
  function PemDecode(bundle: Bundle): (r: (Option<Chunk>, Bundle))
    ensures r.0.Some? ==> |r.1| < |bundle| && !r.0.value.Garbage?
    ensures r.0.None? ==> r.1 == bundle && forall i :: 0 <= i < |bundle| ==> bundle[i].Garbage?
  {
    if bundle == [] then
      (None, bundle)
    else if bundle[0].Garbage? then
      var (block, rest) := PemDecode(bundle[1..]);
      if block.None? then (None, bundle) else (block, rest)
    else
      (Some(bundle[0]), bundle[1..])
  }

  predicate WellFormed(bundle: Bundle) {
    Unparsable !in bundle
  }

  // The certificates of a bundle, in order.
  function Certs(bundle: Bundle): seq<Cert> {
    if bundle == [] then [] else
    (if bundle[0].Block? then [bundle[0].cert] else []) + Certs(bundle[1..])
  }

  // The bytes written for a list of certificates.
  function Encode(certs: seq<Cert>): Bundle {
    if certs == [] then [] else [Block(certs[0])] + Encode(certs[1..])
  }

  predicate Expired(cert: Cert, now: int) {
    cert.notAfter < now
  }

  function Unexpired(certs: seq<Cert>, now: int): seq<Cert> {
    if certs == [] then [] else
    (if Expired(certs[0], now) then [] else [certs[0]]) + Unexpired(certs[1..], now)
  }

  function WithoutSerial(certs: seq<Cert>, serial: nat): seq<Cert> {
    if certs == [] then [] else
    (if certs[0].serial == serial then [] else [certs[0]]) + WithoutSerial(certs[1..], serial)
  }

  // True when decoding meets a certificate with this serial before an unparsable one.
  predicate Found(bundle: Bundle, serial: nat) {
    bundle != [] && !bundle[0].Unparsable? &&
    ((bundle[0].Block? && bundle[0].cert.serial == serial) || Found(bundle[1..], serial))
  }

  // The two ways in which a manager rewrites a bundle.
  datatype Edit = Publish(ca: Cert, now: int) | Clean(serial: nat)

  function Apply(edit: Edit, certs: seq<Cert>): seq<Cert> {
    match edit
    case Publish(ca, now) => Unexpired(certs, now) + [ca]
    case Clean(serial) => WithoutSerial(certs, serial)
  }

  // One webhook of the configuration.
  datatype Entry = Entry(name: string, bundle: Bundle)

  const PODS_WEBHOOK_SUFFIX := "-pods.oidc-apps.io"
  const VPAS_WEBHOOK_SUFFIX := "-vpas.oidc-apps.io"

  predicate Managed(webhookName: string, name: string) {
    name == webhookName + VPAS_WEBHOOK_SUFFIX || name == webhookName + PODS_WEBHOOK_SUFFIX
  }

  // An edit of the whole configuration: managed webhooks are rewritten in order up to the
  // first one whose bundle does not parse; that one and the ones after it stay as they are.
  function EditEntries(edit: Edit, webhookName: string, entries: seq<Entry>): (r: seq<Entry>)
    ensures |r| == |entries|
  {
    if entries == [] then
      []
    else if !Managed(webhookName, entries[0].name) then
      [entries[0]] + EditEntries(edit, webhookName, entries[1..])
    else if !WellFormed(entries[0].bundle) then
      entries
    else
      [entries[0].(bundle := Encode(Apply(edit, Certs(entries[0].bundle))))]
      + EditEntries(edit, webhookName, entries[1..])
  }

  predicate WellFormedEntries(webhookName: string, entries: seq<Entry>) {
    forall i :: 0 <= i < |entries| && Managed(webhookName, entries[i].name) ==> WellFormed(entries[i].bundle)
  }

  // The certificate is in the bundle of every managed webhook.
  predicate InEveryBundle(webhookName: string, entries: seq<Entry>, cert: Cert) {
    forall i :: 0 <= i < |entries| && Managed(webhookName, entries[i].name) ==> cert in Certs(entries[i].bundle)
  }

  // ---------------------------------------------------------------- bundles

  lemma {:induction false} CertsOfEncode(certs: seq<Cert>)
    ensures Certs(Encode(certs)) == certs
    ensures WellFormed(Encode(certs))
  {
    if certs != [] {
      CertsOfEncode(certs[1..]);
      assert Encode(certs)[1..] == Encode(certs[1..]);
    }
  }

  lemma {:induction false} CertsMember(bundle: Bundle, cert: Cert)
    ensures cert in Certs(bundle) <==> Block(cert) in bundle
  {
    if bundle != [] {
      CertsMember(bundle[1..], cert);
    }
  }

  lemma {:induction false} UnexpiredMember(certs: seq<Cert>, now: int, cert: Cert)
    ensures cert in Unexpired(certs, now) <==> cert in certs && !Expired(cert, now)
  {
    if certs != [] {
      UnexpiredMember(certs[1..], now, cert);
    }
  }

  lemma {:induction false} WithoutSerialMember(certs: seq<Cert>, serial: nat, cert: Cert)
    ensures cert in WithoutSerial(certs, serial) <==> cert in certs && cert.serial != serial
  {
    if certs != [] {
      WithoutSerialMember(certs[1..], serial, cert);
    }
  }

  // Exactly which certificates an edit leaves in a list.
  lemma ApplyMember(edit: Edit, certs: seq<Cert>, cert: Cert)
    ensures cert in Apply(edit, certs) <==>
            match edit
            case Publish(ca, now) => cert == ca || (cert in certs && !Expired(cert, now))
            case Clean(serial) => cert in certs && cert.serial != serial
  {
    match edit
    case Publish(ca, now) => UnexpiredMember(certs, now, cert);
    case Clean(serial) => WithoutSerialMember(certs, serial, cert);
  }

  // On bundles that parse, the manager's search is membership by serial number.
  lemma {:induction false} FoundIsMembership(bundle: Bundle, serial: nat)
    requires WellFormed(bundle)
    ensures Found(bundle, serial) <==> exists c :: c in Certs(bundle) && c.serial == serial
  {
    if bundle != [] {
      FoundIsMembership(bundle[1..], serial);
      if bundle[0].Block? {
        assert bundle[0].cert in Certs(bundle);
      }
    }
  }

  // ---------------------------------------------------------------- whole configurations

  lemma {:induction false} EditEntriesAt(edit: Edit, webhookName: string, entries: seq<Entry>, i: nat)
    requires i < |entries|
    ensures EditEntries(edit, webhookName, entries)[i].name == entries[i].name
    ensures EditEntries(edit, webhookName, entries)[i] == entries[i] ||
            (Managed(webhookName, entries[i].name) && WellFormed(entries[i].bundle) &&
             EditEntries(edit, webhookName, entries)[i].bundle == Encode(Apply(edit, Certs(entries[i].bundle))))
    ensures WellFormedEntries(webhookName, entries) && Managed(webhookName, entries[i].name) ==>
              EditEntries(edit, webhookName, entries)[i].bundle == Encode(Apply(edit, Certs(entries[i].bundle)))
  {
    if WellFormedEntries(webhookName, entries) {
      assert WellFormedEntries(webhookName, entries[1..]) by {
        forall j | 0 <= j < |entries[1..]| && Managed(webhookName, entries[1..][j].name)
          ensures WellFormed(entries[1..][j].bundle)
        {
          assert entries[1..][j] == entries[j + 1];
        }
      }
    }
    if i > 0 {
      EditEntriesAt(edit, webhookName, entries[1..], i - 1);
    }
  }

  // An edit keeps every managed bundle parsable, and webhooks it does not manage untouched.
  lemma EditEntriesFrame(edit: Edit, webhookName: string, entries: seq<Entry>)
    ensures WellFormedEntries(webhookName, entries) ==>
              WellFormedEntries(webhookName, EditEntries(edit, webhookName, entries))
    ensures forall i :: 0 <= i < |entries| && !Managed(webhookName, entries[i].name) ==>
              EditEntries(edit, webhookName, entries)[i] == entries[i]
  {
    var edited := EditEntries(edit, webhookName, entries);
    forall i | 0 <= i < |entries|
      ensures !Managed(webhookName, entries[i].name) ==> edited[i] == entries[i]
      ensures WellFormedEntries(webhookName, entries) && Managed(webhookName, edited[i].name) ==>
                WellFormed(edited[i].bundle)
    {
      EditEntriesAt(edit, webhookName, entries, i);
      CertsOfEncode(Apply(edit, Certs(entries[i].bundle)));
    }
  }

  // A certificate that is in every managed bundle is still there after an edit that has no
  // reason to drop it, whatever else the bundles hold and whether or not they parse.
  lemma EditKeeps(edit: Edit, webhookName: string, entries: seq<Entry>, cert: Cert)
    requires InEveryBundle(webhookName, entries, cert)
    requires edit.Publish? ==> !Expired(cert, edit.now)
    requires edit.Clean? ==> cert.serial != edit.serial
    ensures InEveryBundle(webhookName, EditEntries(edit, webhookName, entries), cert)
  {
    var edited := EditEntries(edit, webhookName, entries);
    forall i | 0 <= i < |edited| && Managed(webhookName, edited[i].name)
      ensures cert in Certs(edited[i].bundle)
    {
      EditEntriesAt(edit, webhookName, entries, i);
      CertsOfEncode(Apply(edit, Certs(entries[i].bundle)));
      ApplyMember(edit, Certs(entries[i].bundle), cert);
    }
  }

  // Publishing puts the CA into every managed bundle, provided all of them parse.
  lemma PublishPuts(ca: Cert, now: int, webhookName: string, entries: seq<Entry>)
    requires WellFormedEntries(webhookName, entries)
    ensures InEveryBundle(webhookName, EditEntries(Publish(ca, now), webhookName, entries), ca)
  {
    var edit := Publish(ca, now);
    var edited := EditEntries(edit, webhookName, entries);
    forall i | 0 <= i < |edited| && Managed(webhookName, edited[i].name)
      ensures ca in Certs(edited[i].bundle)
    {
      EditEntriesAt(edit, webhookName, entries, i);
      CertsOfEncode(Apply(edit, Certs(entries[i].bundle)));
      ApplyMember(edit, Certs(entries[i].bundle), ca);
    }
  }

  // An edit introduces no certificate but the one it publishes.
  lemma EditAddsOnly(edit: Edit, webhookName: string, entries: seq<Entry>, i: nat, cert: Cert)
    requires i < |entries|
    requires cert in Certs(EditEntries(edit, webhookName, entries)[i].bundle)
    ensures cert in Certs(entries[i].bundle) || (edit.Publish? && cert == edit.ca)
  {
    EditEntriesAt(edit, webhookName, entries, i);
    CertsOfEncode(Apply(edit, Certs(entries[i].bundle)));
    ApplyMember(edit, Certs(entries[i].bundle), cert);
  }

  // ---------------------------------------------------------------- cleanup undoes updates

  // One publication: the time at which it ran and the CA it appended.
  datatype Publication = Publication(ca: Cert, now: int)

  // The certificates after a series of publications.
  function Published(certs: seq<Cert>, publications: seq<Publication>): seq<Cert> {
    if publications == [] then certs else
    var last := publications[|publications| - 1];
    Apply(Publish(last.ca, last.now), Published(certs, publications[..|publications| - 1]))
  }

  predicate InOrder(publications: seq<Publication>) {
    forall i, j :: 0 <= i < j < |publications| ==> publications[i].now <= publications[j].now
  }

  lemma {:induction false} UnexpiredConcat(a: seq<Cert>, b: seq<Cert>, now: int)
    ensures Unexpired(a + b, now) == Unexpired(a, now) + Unexpired(b, now)
  {
    if a == [] {
      assert a + b == b;
    } else {
      UnexpiredConcat(a[1..], b, now);
      assert (a + b)[1..] == a[1..] + b;
    }
  }

  lemma {:induction false} UnexpiredLater(certs: seq<Cert>, early: int, late: int)
    requires early <= late
    ensures Unexpired(Unexpired(certs, early), late) == Unexpired(certs, late)
  {
    if certs != [] {
      UnexpiredLater(certs[1..], early, late);
      var head := if Expired(certs[0], early) then [] else [certs[0]];
      UnexpiredConcat(head, Unexpired(certs[1..], early), late);
    }
  }

  lemma {:induction false} WithoutSerialConcat(a: seq<Cert>, b: seq<Cert>, serial: nat)
    ensures WithoutSerial(a + b, serial) == WithoutSerial(a, serial) + WithoutSerial(b, serial)
  {
    if a == [] {
      assert a + b == b;
    } else {
      WithoutSerialConcat(a[1..], b, serial);
      assert (a + b)[1..] == a[1..] + b;
      var head := if a[0].serial == serial then [] else [a[0]];
      calc {
        WithoutSerial(a + b, serial);
        head + WithoutSerial(a[1..] + b, serial);
        head + (WithoutSerial(a[1..], serial) + WithoutSerial(b, serial));
        (head + WithoutSerial(a[1..], serial)) + WithoutSerial(b, serial);
        WithoutSerial(a, serial) + WithoutSerial(b, serial);
      }
    }
  }

  lemma {:induction false} FiltersCommute(certs: seq<Cert>, serial: nat, now: int)
    ensures WithoutSerial(Unexpired(certs, now), serial) == Unexpired(WithoutSerial(certs, serial), now)
  {
    if certs != [] {
      FiltersCommute(certs[1..], serial, now);
      var kept := if Expired(certs[0], now) then [] else [certs[0]];
      WithoutSerialConcat(kept, Unexpired(certs[1..], now), serial);
      var other := if certs[0].serial == serial then [] else [certs[0]];
      UnexpiredConcat(other, WithoutSerial(certs[1..], serial), now);
    }
  }

  // The certificates a replica published under serial numbers other than `serial`.
  function Earlier(publications: seq<Publication>, serial: nat): seq<Cert> {
    if publications == [] then [] else
    var last := publications[|publications| - 1];
    Earlier(publications[..|publications| - 1], serial)
    + (if last.ca.serial == serial then [] else [last.ca])
  }

  // Removing a serial after any series of publications leaves, in order, the original
  // certificates and the CAs published under other serials, each unless it carries the
  // serial or had expired at the last publication; `serial` is the replica's current one,
  // so its own last publication vanishes together with every duplicate of it.
  lemma {:induction false} CleanupAfterPublications(certs: seq<Cert>, publications: seq<Publication>, serial: nat)
    requires publications != [] && InOrder(publications)
    requires publications[|publications| - 1].ca.serial == serial
    ensures var last := publications[|publications| - 1];
            Apply(Clean(serial), Published(certs, publications))
            == Unexpired(WithoutSerial(certs, serial) + Earlier(publications, serial), last.now)
  {
    CleanupInGeneral(certs, publications, serial);
    WithoutSerialSingle(publications[|publications| - 1].ca, serial);
    assert Earlier(publications, serial) == Earlier(publications[..|publications| - 1], serial);
  }

  lemma WithoutSerialSingle(cert: Cert, serial: nat)
    ensures WithoutSerial([cert], serial) == if cert.serial == serial then [] else [cert]
  {
    assert [cert][1..] == [];
  }

  lemma {:induction false} CleanupInGeneral(certs: seq<Cert>, publications: seq<Publication>, serial: nat)
    requires publications != [] && InOrder(publications)
    ensures var last := publications[|publications| - 1];
            var before := publications[..|publications| - 1];
            WithoutSerial(Published(certs, publications), serial)
            == Unexpired(WithoutSerial(certs, serial) + Earlier(before, serial), last.now)
               + WithoutSerial([last.ca], serial)
  {
    var last := publications[|publications| - 1];
    var before := publications[..|publications| - 1];
    var kept := Published(certs, before);
    assert WithoutSerial(Published(certs, publications), serial)
        == Unexpired(WithoutSerial(kept, serial), last.now) + WithoutSerial([last.ca], serial) by {
      WithoutSerialConcat(Unexpired(kept, last.now), [last.ca], serial);
      FiltersCommute(kept, serial, last.now);
    }
    if before == [] {
      assert WithoutSerial(certs, serial) + Earlier(before, serial) == WithoutSerial(certs, serial);
    } else {
      CleanupInGeneral(certs, before, serial);
      CleanupStep(certs, before, serial, last.now);
    }
  }

  lemma CleanupStep(certs: seq<Cert>, before: seq<Publication>, serial: nat, late: int)
    requires before != []
    requires var prev := before[|before| - 1];
             && prev.now <= late
             && WithoutSerial(Published(certs, before), serial)
                == Unexpired(WithoutSerial(certs, serial) + Earlier(before[..|before| - 1], serial), prev.now)
                   + WithoutSerial([prev.ca], serial)
    ensures Unexpired(WithoutSerial(Published(certs, before), serial), late)
            == Unexpired(WithoutSerial(certs, serial) + Earlier(before, serial), late)
  {
    var prev := before[|before| - 1];
    var base := WithoutSerial(certs, serial) + Earlier(before[..|before| - 1], serial);
    var own := WithoutSerial([prev.ca], serial);
    FilterAgain(base, own, prev.now, late);
    WithoutSerialSingle(prev.ca, serial);
    assert base + own == WithoutSerial(certs, serial) + Earlier(before, serial);
  }

  lemma FilterAgain(base: seq<Cert>, own: seq<Cert>, early: int, late: int)
    requires early <= late
    ensures Unexpired(Unexpired(base, early) + own, late) == Unexpired(base + own, late)
  {
    UnexpiredConcat(Unexpired(base, early), own, late);
    UnexpiredLater(base, early, late);
    UnexpiredConcat(base, own, late);
  }

  // A replica that published one and the same CA k times leaves exactly the foreign
  // certificates that had not expired by the last publication.
  lemma {:induction false} CleanupUndoesUpdates(certs: seq<Cert>, publications: seq<Publication>, ca: Cert)
    requires publications != [] && InOrder(publications)
    requires forall i :: 0 <= i < |publications| ==> publications[i].ca == ca
    ensures Apply(Clean(ca.serial), Published(certs, publications))
            == Unexpired(WithoutSerial(certs, ca.serial), publications[|publications| - 1].now)
  {
    CleanupAfterPublications(certs, publications, ca.serial);
    NoEarlier(publications, ca);
    assert WithoutSerial(certs, ca.serial) + [] == WithoutSerial(certs, ca.serial);
  }

  lemma {:induction false} NoEarlier(publications: seq<Publication>, ca: Cert)
    requires forall i :: 0 <= i < |publications| ==> publications[i].ca == ca
    ensures Earlier(publications, ca.serial) == []
  {
    if publications != [] {
      NoEarlier(publications[..|publications| - 1], ca);
    }
  }

  // ---------------------------------------------------------------- sync passes

  // How many webhooks of a configuration, managed or not, lack a certificate.
  function Missing(entries: seq<Entry>, serial: nat): nat {
    if entries == [] then 0 else
    (if Found(entries[0].bundle, serial) then 0 else 1) + Missing(entries[1..], serial)
  }

  function Repeat(edit: Edit, webhookName: string, times: nat, entries: seq<Entry>): seq<Entry> {
    if times == 0 then entries
    else Repeat(edit, webhookName, times - 1, EditEntries(edit, webhookName, entries))
  }

  // One undisturbed pass of the sync loop: one publication for every webhook that lacks
  // the CA, decided on the configuration as it was read at the start of the pass.
  function SyncPass(webhookName: string, ca: Cert, now: int, entries: seq<Entry>): seq<Entry> {
    Repeat(Publish(ca, now), webhookName, Missing(entries, ca.serial), entries)
  }

  function SyncPasses(webhookName: string, passes: seq<Publication>, entries: seq<Entry>): seq<Entry> {
    if passes == [] then entries
    else SyncPasses(webhookName, passes[1..], SyncPass(webhookName, passes[0].ca, passes[0].now, entries))
  }

  lemma {:induction false} RepeatKeeps(edit: Edit, webhookName: string, times: nat, entries: seq<Entry>, cert: Cert)
    requires WellFormedEntries(webhookName, entries)
    requires edit.Publish? && !Expired(cert, edit.now)
    ensures var r := Repeat(edit, webhookName, times, entries);
            && WellFormedEntries(webhookName, r)
            && (InEveryBundle(webhookName, entries, cert) || (times > 0 && cert == edit.ca) ==>
                  InEveryBundle(webhookName, r, cert))
  {
    if times > 0 {
      var next := EditEntries(edit, webhookName, entries);
      EditEntriesFrame(edit, webhookName, entries);
      PublishPuts(edit.ca, edit.now, webhookName, entries);
      if InEveryBundle(webhookName, entries, cert) {
        EditKeeps(edit, webhookName, entries, cert);
      }
      RepeatKeeps(edit, webhookName, times - 1, next, cert);
    }
  }

  lemma {:induction false} MissingZero(entries: seq<Entry>, serial: nat)
    ensures Missing(entries, serial) == 0 <==> forall i :: 0 <= i < |entries| ==> Found(entries[i].bundle, serial)
  {
    if entries != [] {
      MissingZero(entries[1..], serial);
      assert forall i :: 1 <= i < |entries| ==> entries[i] == entries[1..][i - 1];
      assert Missing(entries, serial) == 0 ==> Found(entries[0].bundle, serial);
    }
  }

  // The serial number identifies the CA: no other certificate of the configuration carries it
  // (section 4.1.2.2 of RFC 5280).
  ghost predicate SerialIdentifies(webhookName: string, entries: seq<Entry>, ca: Cert) {
    forall i, c :: 0 <= i < |entries| && Managed(webhookName, entries[i].name) && c in Certs(entries[i].bundle) ==>
      c.serial == ca.serial ==> c == ca
  }

  // Repair, for one replica: after its pass the CA is in every managed bundle.
  lemma SyncPassPuts(webhookName: string, ca: Cert, now: int, entries: seq<Entry>)
    requires WellFormedEntries(webhookName, entries)
    requires SerialIdentifies(webhookName, entries, ca)
    requires !Expired(ca, now)
    ensures InEveryBundle(webhookName, SyncPass(webhookName, ca, now, entries), ca)
  {
    MissingZero(entries, ca.serial);
    if Missing(entries, ca.serial) == 0 {
      forall i | 0 <= i < |entries| && Managed(webhookName, entries[i].name)
        ensures ca in Certs(entries[i].bundle)
      {
        assert Found(entries[i].bundle, ca.serial);
        FoundIsMembership(entries[i].bundle, ca.serial);
      }
    }
    RepeatKeeps(Publish(ca, now), webhookName, Missing(entries, ca.serial), entries, ca);
  }

  // A pass adds no certificate but the replica's own.
  lemma {:induction false} RepeatAddsOnly(edit: Edit, webhookName: string, times: nat, entries: seq<Entry>, i: nat, cert: Cert)
    requires edit.Publish?
    requires i < |entries| == |Repeat(edit, webhookName, times, entries)|
    requires cert in Certs(Repeat(edit, webhookName, times, entries)[i].bundle)
    ensures cert in Certs(entries[i].bundle) || cert == edit.ca
  {
    if times > 0 {
      RepeatAddsOnly(edit, webhookName, times - 1, EditEntries(edit, webhookName, entries), i, cert);
      if cert != edit.ca {
        EditAddsOnly(edit, webhookName, entries, i, cert);
      }
    }
  }

  lemma {:induction false} RepeatShape(edit: Edit, webhookName: string, times: nat, entries: seq<Entry>)
    ensures |Repeat(edit, webhookName, times, entries)| == |entries|
    ensures forall i :: 0 <= i < |entries| ==> Repeat(edit, webhookName, times, entries)[i].name == entries[i].name
  {
    if times > 0 {
      var next := EditEntries(edit, webhookName, entries);
      RepeatShape(edit, webhookName, times - 1, next);
      forall i | 0 <= i < |entries| ensures next[i].name == entries[i].name {
        EditEntriesAt(edit, webhookName, entries, i);
      }
    }
  }

  // Repair: whatever parsable bundles the configuration was overwritten with, one pass of
  // every replica, in any order and at any times at which their CAs are valid, puts every
  // one of these CAs into every managed bundle.
  lemma {:induction false} Repair(webhookName: string, passes: seq<Publication>, entries: seq<Entry>)
    requires WellFormedEntries(webhookName, entries)
    requires forall i, j :: 0 <= i < |passes| && 0 <= j < |passes| ==> !Expired(passes[i].ca, passes[j].now)
    requires forall i, j :: 0 <= i < |passes| && 0 <= j < |passes| && passes[i].ca.serial == passes[j].ca.serial ==>
               passes[i].ca == passes[j].ca
    requires forall i :: 0 <= i < |passes| ==> SerialIdentifies(webhookName, entries, passes[i].ca)
    ensures forall i :: 0 <= i < |passes| ==>
              InEveryBundle(webhookName, SyncPasses(webhookName, passes, entries), passes[i].ca)
  {
    if passes != [] {
      var head := passes[0];
      var edit := Publish(head.ca, head.now);
      var next := SyncPass(webhookName, head.ca, head.now, entries);
      SyncPassPuts(webhookName, head.ca, head.now, entries);
      RepeatKeeps(edit, webhookName, Missing(entries, head.ca.serial), entries, head.ca);
      forall i | 0 <= i < |passes| ensures SerialIdentifies(webhookName, next, passes[i].ca) {
        SerialsStay(webhookName, head, entries, passes[i].ca);
      }
      assert forall i :: 0 <= i < |passes[1..]| ==> passes[1..][i] == passes[i + 1];
      Repair(webhookName, passes[1..], next);
      PassesKeep(webhookName, passes[1..], next, head.ca);
      forall i | 0 <= i < |passes|
        ensures InEveryBundle(webhookName, SyncPasses(webhookName, passes, entries), passes[i].ca)
      {
        if i > 0 { assert passes[i] == passes[1..][i - 1]; }
      }
    }
  }

  lemma SerialsStay(webhookName: string, pass: Publication, entries: seq<Entry>, ca: Cert)
    requires SerialIdentifies(webhookName, entries, ca)
    requires pass.ca.serial == ca.serial ==> pass.ca == ca
    ensures SerialIdentifies(webhookName, SyncPass(webhookName, pass.ca, pass.now, entries), ca)
  {
    var edit, times := Publish(pass.ca, pass.now), Missing(entries, pass.ca.serial);
    var next := SyncPass(webhookName, pass.ca, pass.now, entries);
    RepeatShape(edit, webhookName, times, entries);
    forall i, c | 0 <= i < |next| && Managed(webhookName, next[i].name) && c in Certs(next[i].bundle)
      ensures c.serial == ca.serial ==> c == ca
    {
      RepeatAddsOnly(edit, webhookName, times, entries, i, c);
    }
  }

  lemma {:induction false} PassesKeep(webhookName: string, passes: seq<Publication>, entries: seq<Entry>, ca: Cert)
    requires WellFormedEntries(webhookName, entries)
    requires forall j :: 0 <= j < |passes| ==> !Expired(ca, passes[j].now)
    requires InEveryBundle(webhookName, entries, ca)
    ensures InEveryBundle(webhookName, SyncPasses(webhookName, passes, entries), ca)
  {
    if passes != [] {
      var head := passes[0];
      RepeatKeeps(Publish(head.ca, head.now), webhookName, Missing(entries, head.ca.serial), entries, ca);
      PassesKeep(webhookName, passes[1..], SyncPass(webhookName, head.ca, head.now, entries), ca);
    }
  }

  // A webhook that is not managed and lacks the CA lacks it after any number of passes, so no
  // pass is ever quiet.
  lemma {:induction false} NeverSettles(webhookName: string, passes: seq<Publication>, entries: seq<Entry>, i: nat, serial: nat)
    requires i < |entries| && !Managed(webhookName, entries[i].name) && !Found(entries[i].bundle, serial)
    ensures var after := SyncPasses(webhookName, passes, entries);
            |after| == |entries| && after[i] == entries[i] && Missing(after, serial) > 0
    decreases |passes|
  {
    if passes == [] {
      MissingZero(entries, serial);
    } else {
      var head := passes[0];
      var next := SyncPass(webhookName, head.ca, head.now, entries);
      RepeatUnmanaged(Publish(head.ca, head.now), webhookName, Missing(entries, head.ca.serial), entries, i);
      NeverSettles(webhookName, passes[1..], next, i, serial);
    }
  }

  lemma {:induction false} RepeatUnmanaged(edit: Edit, webhookName: string, times: nat, entries: seq<Entry>, i: nat)
    requires i < |entries| && !Managed(webhookName, entries[i].name)
    ensures |Repeat(edit, webhookName, times, entries)| == |entries|
    ensures Repeat(edit, webhookName, times, entries)[i] == entries[i]
  {
    if times > 0 {
      EditEntriesFrame(edit, webhookName, entries);
      RepeatUnmanaged(edit, webhookName, times - 1, EditEntries(edit, webhookName, entries), i);
    }
  }

  // When does a pass write nothing? Exactly when every webhook holds the CA, the ones that
  // the manager never edits included. Otherwise every managed bundle is rewritten and grows
  // by the CA once for each webhook that lacked it, less what had expired.
  lemma QuietPass(webhookName: string, ca: Cert, now: int, entries: seq<Entry>)
    requires WellFormedEntries(webhookName, entries)
    ensures Missing(entries, ca.serial) == 0 <==>
            forall i :: 0 <= i < |entries| ==> Found(entries[i].bundle, ca.serial)
    ensures Missing(entries, ca.serial) == 0 ==> SyncPass(webhookName, ca, now, entries) == entries
    ensures forall i :: 0 <= i < |entries| && Managed(webhookName, entries[i].name) && !Expired(ca, now) ==>
              var next := SyncPass(webhookName, ca, now, entries);
              var kept := Unexpired(Certs(entries[i].bundle), now);
              Missing(entries, ca.serial) > 0 ==>
              |next| == |entries| && |Certs(next[i].bundle)| == |kept| + Missing(entries, ca.serial)
  {
    MissingZero(entries, ca.serial);
    var times := Missing(entries, ca.serial);
    RepeatShape(Publish(ca, now), webhookName, times, entries);
    forall i | 0 <= i < |entries| && Managed(webhookName, entries[i].name) && !Expired(ca, now) && times > 0
      ensures |Certs(SyncPass(webhookName, ca, now, entries)[i].bundle)|
              == |Unexpired(Certs(entries[i].bundle), now)| + times
    {
      RepeatGrows(ca, now, webhookName, times, entries, i);
    }
  }

  lemma {:induction false} RepeatGrows(ca: Cert, now: int, webhookName: string, times: nat, entries: seq<Entry>, i: nat)
    requires WellFormedEntries(webhookName, entries)
    requires i < |entries| && Managed(webhookName, entries[i].name)
    requires !Expired(ca, now) && times > 0
    ensures |Repeat(Publish(ca, now), webhookName, times, entries)| == |entries|
    ensures |Certs(Repeat(Publish(ca, now), webhookName, times, entries)[i].bundle)|
            == |Unexpired(Certs(entries[i].bundle), now)| + times
  {
    var edit := Publish(ca, now);
    var next := EditEntries(edit, webhookName, entries);
    var certs := Certs(entries[i].bundle);
    EditEntriesAt(edit, webhookName, entries, i);
    EditEntriesFrame(edit, webhookName, entries);
    CertsOfEncode(Apply(edit, certs));
    if times > 1 {
      RepeatGrows(ca, now, webhookName, times - 1, next, i);
      UnexpiredConcat(Unexpired(certs, now), [ca], now);
      UnexpiredLater(certs, now, now);
      assert Unexpired([ca], now) == [ca];
    }
  }
}
