// Names and hosts that the pod webhook and the reconcilers compute independently of each other
// (pkg/controllers/oidc-apps-httproutes.go, pkg/controllers/oidc-apps-services.go,
// pkg/controllers/modifiers.go) and that have to agree.

module Hosts {
  import opened Wrappers
  import opened GoStrings
  import opened Configuration
  import opened PodMutation
  import opened SidecarPlan

  const SERVICE := "oauth2-service"
  const ROUTE := "oauth2-httproute"

  // fetchStrIndexIfPresent
  function StrIndex(labels: map<string, string>): string {
    if POD_NAME_LABEL in labels then LastPart(labels[POD_NAME_LABEL], '-') else ""
  }

  // addOptionalIndex; the number is parsed with the base that its literal names.
  function OptionalIndex(idx: string): string {
    if idx == "-" || !HasSuffix(idx, "-") then "" else
    var parsed := ParseInt32(TrimSuffix(idx, "-"));
    if parsed.NoNumber? then "" else FormatInt(parsed.value) + "-"
  }

  function Indexed(kind: string, labels: map<string, string>, hash: string): string {
    kind + "-" + OptionalIndex(StrIndex(labels) + "-") + hash
  }

  // The Service of a Deployment or of a pod.
  function ServiceName(digest: Digest, id: Identity, labels: map<string, string>): string {
    Indexed(SERVICE, labels, NameHash(digest, id))
  }

  function PodRouteName(digest: Digest, pod: Identity, labels: map<string, string>): string {
    Indexed(ROUTE, labels, NameHash(digest, pod))
  }

  // The backend that a Deployment's route names leaves out the index.
  function DeploymentBackend(digest: Digest, id: Identity): string {
    SERVICE + "-" + NameHash(digest, id)
  }

  // The host name of a StatefulSet pod's route, from the host annotation of the pod.
  function RouteHost(annotation: string, labels: map<string, string>): string {
    var cut := Cut(annotation, '.');
    cut.0 + "-" + StrIndex(labels) + "." + cut.1
  }

  // ---------------------------------------------------------------- hosts agree

  // The host in the redirect URL of an admitted StatefulSet pod, under the default redirect
  // URL, is the one its route serves if and only if the host contains a dot.
  lemma HostsAgree(rc: Resolved, digest: Digest, labels: map<string, string>)
    requires rc.target.own.oauth2Proxy.redirectURL == "" && POD_NAME_LABEL in labels
    ensures PodHost(RedirectBase(rc, digest), labels[POD_NAME_LABEL]) == RouteHost(rc.Host(digest), labels)
            <==> '.' in rc.Host(digest)
  {
    BaseIsHost(rc, digest);
    HostForms(rc.Host(digest), labels[POD_NAME_LABEL]);
  }

  lemma BaseIsHost(rc: Resolved, digest: Digest)
    requires rc.target.own.oauth2Proxy.redirectURL == ""
    ensures RedirectBase(rc, digest) == rc.Host(digest)
  {
    CallbackTrims(rc.Host(digest));
    assert |Callback(rc.Host(digest))| >= |HTTPS|;
  }

  lemma HostForms(host: string, podName: string)
    ensures var cut := Cut(host, '.');
            PodHost(host, podName) == cut.0 + "-" + LastPart(podName, '-') + "." + cut.1 <==> '.' in host
  {
    var cut := Cut(host, '.');
    if !cut.2 {
      assert |cut.0 + "-" + LastPart(podName, '-') + "." + cut.1| > |host|;
    }
  }

  // What admission writes into the host annotation is what the route starts from.
  lemma AnnotationIsHost(p: PodState, rc: Resolved, ownerSuffix: Option<string>, env: Environment)
    requires !p.deleting
    ensures var admitted := Admit(p, PlanOf(rc, ownerSuffix, Identity(p.name, p.namespace), env));
            admitted.Some? ==>
              HOST_KEY in admitted.value.annotations && admitted.value.annotations[HOST_KEY] == rc.Host(env.digest)
  {
    var plan := PlanOf(rc, ownerSuffix, Identity(p.name, p.namespace), env);
    if Admit(p, plan).Some? {
      AnnotationsApart(rc, env);
      WrittenAnnotation(p, plan, Admit(p, plan).value, HOST_KEY);
    }
  }

  lemma WrittenAnnotation(p: PodState, plan: Plan, q: PodState, key: string)
    requires !p.deleting && Admit(p, plan) == Some(q) && key in plan.annotations
    ensures key in q.annotations && q.annotations[key] == plan.annotations[key]
  {
  }

  // ---------------------------------------------------------------- names agree

  // The backend of a Deployment's route is the Deployment's Service if and only if the
  // Deployment does not carry a pod name label with a number at its end.
  lemma BackendIsService(digest: Digest, id: Identity, labels: map<string, string>)
    ensures DeploymentBackend(digest, id) == ServiceName(digest, id, labels)
            <==> OptionalIndex(StrIndex(labels) + "-") == ""
  {
    var index, hash := OptionalIndex(StrIndex(labels) + "-"), NameHash(digest, id);
    if index == "" {
      assert SERVICE + "-" + "" + hash == SERVICE + "-" + hash;
    } else {
      assert |SERVICE + "-" + index + hash| > |SERVICE + "-" + hash|;
    }
  }

  // ---------------------------------------------------------------- names differ

  predicate NamesPod(labels: map<string, string>, base: string, ordinal: nat) {
    POD_NAME_LABEL in labels && labels[POD_NAME_LABEL] == base + "-" + Itoa(ordinal)
  }

  lemma StrIndexOf(labels: map<string, string>, base: string, ordinal: nat)
    requires NamesPod(labels, base, ordinal)
    ensures StrIndex(labels) == Itoa(ordinal)
  {
    LastOfPodName(base, ordinal);
  }

  lemma LastOfPodName(base: string, ordinal: nat)
    ensures LastPart(base + "-" + Itoa(ordinal), '-') == Itoa(ordinal)
  {
    ItoaHasNo(ordinal, '-');
    LastPartAt(base, '-', Itoa(ordinal));
    assert base + ['-'] + Itoa(ordinal) == base + "-" + Itoa(ordinal);
  }

  // Ordinals below 2^31 go into the names, larger ones are dropped.
  lemma OptionalIndexOf(ordinal: nat)
    ensures OptionalIndex(Itoa(ordinal) + "-") == if ordinal < 0x8000_0000 then Itoa(ordinal) + "-" else ""
  {
    var idx := Itoa(ordinal) + "-";
    assert idx[|idx| - 1..] == "-" && |idx| > 1;
    assert TrimSuffix(idx, "-") == Itoa(ordinal);
    ParseOfItoa(ordinal);
  }

  function Optional(ordinal: nat): string {
    if ordinal < 0x8000_0000 then Itoa(ordinal) + "-" else ""
  }

  lemma OptionalDiffers(i: nat, j: nat, one: string, two: string)
    requires i != j && '-' !in one && '-' !in two
    ensures Optional(i) + one == Optional(j) + two <==> i >= 0x8000_0000 && j >= 0x8000_0000 && one == two
  {
    ItoaHasNo(i, '-');
    ItoaHasNo(j, '-');
    var a, b := Optional(i) + one, Optional(j) + two;
    if i < 0x8000_0000 {
      assert a == Itoa(i) + ['-'] + one;
      CutAt(Itoa(i), '-', one);
    } else {
      assert a == one;
    }
    if j < 0x8000_0000 {
      assert b == Itoa(j) + ['-'] + two;
      CutAt(Itoa(j), '-', two);
    } else {
      assert b == two;
    }
    if i < 0x8000_0000 && j < 0x8000_0000 && Itoa(i) == Itoa(j) {
      ItoaInjective(i, j);
    }
  }

  // Two pods of a StatefulSet with different ordinals have the same Service name, and the
  // same route name, if and only if both ordinals are 2^31 or more and the name hashes
  // collide. Below 2^31 the hash does not matter.
  lemma OrdinalsApart(kind: string, base: string, i: nat, j: nat, here: map<string, string>, there: map<string, string>,
                      one: string, two: string)
    requires i != j && NamesPod(here, base, i) && NamesPod(there, base, j)
    requires '-' !in one && '-' !in two
    ensures Indexed(kind, here, one) == Indexed(kind, there, two)
            <==> i >= 0x8000_0000 && j >= 0x8000_0000 && one == two
  {
    IndexedAs(kind, base, i, here, one);
    IndexedAs(kind, base, j, there, two);
    OptionalDiffers(i, j, one, two);
    SameHead(kind + "-", Optional(i) + one, Optional(j) + two);
  }

  lemma IndexedAs(kind: string, base: string, i: nat, labels: map<string, string>, hash: string)
    requires NamesPod(labels, base, i)
    ensures Indexed(kind, labels, hash) == kind + "-" + (Optional(i) + hash)
  {
    StrIndexOf(labels, base, i);
    OptionalIndexOf(i);
    assert kind + "-" + Optional(i) + hash == kind + "-" + (Optional(i) + hash);
  }

  lemma SameHead(head: string, a: string, b: string)
    ensures head + a == head + b <==> a == b
  {
    assert (head + a)[|head|..] == a && (head + b)[|head|..] == b;
  }

  // Different ordinals get different redirect hosts if and only if the host contains a dot.
  lemma HostsApart(host: string, base: string, i: nat, j: nat)
    requires i != j
    ensures PodHost(host, base + "-" + Itoa(i)) != PodHost(host, base + "-" + Itoa(j)) <==> '.' in host
  {
    var cut := Cut(host, '.');
    if cut.2 {
      PodHostAt(host, base, i);
      PodHostAt(host, base, j);
      if Itoa(i) == Itoa(j) {
        ItoaInjective(i, j);
      }
    }
  }

  lemma PodHostAt(host: string, base: string, i: nat)
    requires '.' in host
    ensures var rest := PodHost(host, base + "-" + Itoa(i));
            |rest| >= |Cut(host, '.').0| + 1 && Cut(rest[|Cut(host, '.').0| + 1..], '.').0 == Itoa(i)
  {
    var cut := Cut(host, '.');
    LastOfPodName(base, i);
    var tail := Itoa(i) + ['.'] + cut.1;
    assert PodHost(host, base + "-" + Itoa(i)) == cut.0 + "-" + tail;
    assert (cut.0 + "-" + tail)[|cut.0| + 1..] == tail;
    ItoaHasNo(i, '.');
    CutAt(Itoa(i), '.', cut.1);
  }
}
