// The kube-rbac-proxy watcher (cmd/watcher/main.go, pkg/watcher/process/process.go): a monitor
// that restarts one child process when a hash changes and a signal handler that stops it race
// for the child under a lock. Every interleaving of their small steps with the child's own
// death is a run.

module Watcher {

  // A child process. `reaped` says that a Wait on it has come back; `left` counts Waits that a
  // Stop has given up on and that are still blocked.
  datatype Child = Child(started: bool, alive: bool, reaped: bool, left: nat)

  const UNSTARTED := Child(false, false, false, 0)
  const RUNNING := Child(true, true, false, 0)

  // The Wait that a Stop has spawned: still blocked, or answered, with an error other than an
  // exit status or not.
  datatype Own = Blocked | Answered(failed: bool)

  // Inside Stop.
  datatype Phase = Signal | Select(own: Own) | Drain(drained: Own)

  datatype Progress = Still(phase: Phase) | Returned(error: bool)

  datatype Monitor = Starting | Watching | Restarting | Stopping(phase: Phase) | Replacing | Exited

  datatype Handler = Listening | Notified | Terminating(phase: Phase) | Sending | Sent

  datatype Holder = Free | ByMonitor | ByHandler

  datatype World = World(procs: seq<Child>, cur: nat, lock: Holder, m: Monitor, h: Handler)

  // ---------------------------------------------------------------- Stop

  // A second Wait on a reaped child fails; the first one after the child's death reaps it.
  predicate WaitReturns(c: Child, own: Own, c': Child, own': Own) {
    && own.Blocked?
    && if c.reaped then c' == c && own' == Answered(true)
       else !c.alive && c' == c.(reaped := true) && own' == Answered(false)
  }

  ghost predicate StopStep(c: Child, p: Phase, c': Child, r: Progress) {
    match p
    case Signal =>
      c' == c && r == if !c.started then Returned(false) else Still(Select(if c.reaped then Answered(true) else Blocked))
    case Select(own) =>
      || (r.Still? && r.phase.Select? && WaitReturns(c, own, c', r.phase.own))
      || (own.Answered? && c' == c && r == Returned(own.failed))
      || KillStep(c, own, c', r)
    case Drain(own) =>
      || (r.Still? && r.phase.Drain? && WaitReturns(c, own, c', r.phase.drained))
      || (own.Answered? && c' == c && r == Returned(false))
  }

  // After the timeout: the kill reports a reaped child as done, ends any other, or is refused.
  ghost predicate KillStep(c: Child, own: Own, c': Child, r: Progress) {
    if c.reaped then c' == c && r == Returned(true)
    else
      || (c' == c.(alive := false) && r == Still(Drain(own)))
      || (c.alive && c' == (if own.Blocked? then c.(left := c.left + 1) else c) && r == Returned(true))
  }

  // ---------------------------------------------------------------- steps

  // What a child goes through on its own: it dies, or a Wait that was given up on comes back,
  // and reaps the child if it is the first to do so.
  predicate OnItsOwn(c: Child, c': Child) {
    || (c.alive && c' == c.(alive := false))
    || (c.left > 0 && (c.reaped || !c.alive) && c' == c.(reaped := true, left := c.left - 1))
  }

  ghost predicate ChildStep(a: World, b: World, i: nat) {
    && i < |a.procs| == |b.procs|
    && OnItsOwn(a.procs[i], b.procs[i])
    && b == a.(procs := a.procs[i := b.procs[i]])
  }

  ghost predicate MonitorStep(a: World, b: World)
    requires a.cur < |a.procs|
  {
    match a.m
    case Starting =>
      && a.lock == Free
      && (b == a.(procs := a.procs[a.cur := RUNNING], m := Watching) || b == a.(m := Exited))
    case Watching =>
      (a.h == Sent && b == a.(m := Exited)) || b == a.(m := Restarting)
    case Restarting =>
      a.lock == Free && b == a.(lock := ByMonitor, m := Stopping(Signal))
    case Stopping(p) =>
      exists c, r :: StopStep(a.procs[a.cur], p, c, r) && b == a.(procs := a.procs[a.cur := c],
        lock := if r.Returned? && r.error then Free else a.lock,
        m := if r.Still? then Stopping(r.phase) else if r.error then Watching else Replacing)
    case Replacing =>
      exists c :: (c == RUNNING || c == UNSTARTED)
                  && b == a.(procs := a.procs + [c], cur := |a.procs|, lock := Free, m := Watching)
    case Exited => false
  }

  ghost predicate HandlerStep(a: World, b: World)
    requires a.cur < |a.procs|
  {
    match a.h
    case Listening => b == a.(h := Notified)
    case Notified => a.lock == Free && b == a.(lock := ByHandler, h := Terminating(Signal))
    case Terminating(p) =>
      exists c, r :: StopStep(a.procs[a.cur], p, c, r) && b == a.(procs := a.procs[a.cur := c],
        lock := if r.Returned? then Free else a.lock,
        h := if r.Still? then Terminating(r.phase) else Sending)
    case Sending => b == a.(h := Sent)
    case Sent => false
  }

  // The threads go with the program.
  ghost predicate Step(a: World, b: World) {
    && a.cur < |a.procs|
    && ((exists i :: ChildStep(a, b, i)) || (a.m != Exited && (MonitorStep(a, b) || HandlerStep(a, b))))
  }

  const INITIAL := World([UNSTARTED], 0, Free, Starting, Listening)

  ghost predicate StepAt(worlds: seq<World>, i: nat)
    requires i + 1 < |worlds|
  {
    Step(worlds[i], worlds[i + 1])
  }

  ghost predicate Run(worlds: seq<World>) {
    worlds != [] && forall i :: 0 <= i < |worlds| - 1 ==> StepAt(worlds, i)
  }

  // ---------------------------------------------------------------- the invariant

  predicate Consistent(c: Child) {
    && (c.alive ==> c.started && !c.reaped)
    && (c.reaped ==> c.started)
    && (c.left > 0 ==> c.started)
  }

  predicate PhaseFits(c: Child, p: Phase) {
    match p
    case Signal => true
    case Select(own) => c.started && (own.Answered? ==> c.reaped)
    case Drain(own) => c.started && !c.alive && (own.Answered? ==> c.reaped)
  }

  ghost predicate Inv(w: World) {
    && w.cur < |w.procs|
    && (forall i :: 0 <= i < |w.procs| ==> Consistent(w.procs[i]))
    && (forall i :: 0 <= i < |w.procs| && i != w.cur ==> !w.procs[i].alive)
    && (w.lock == ByMonitor <==> w.m.Stopping? || w.m.Replacing?)
    && (w.lock == ByHandler <==> w.h.Terminating?)
    && (w.m.Stopping? ==> PhaseFits(w.procs[w.cur], w.m.phase))
    && (w.m.Replacing? ==> !w.procs[w.cur].alive)
    && (w.h.Terminating? ==> PhaseFits(w.procs[w.cur], w.h.phase))
    && (w.m.Starting? ==> !w.procs[w.cur].started)
  }

  lemma StopKeeps(c: Child, p: Phase, c': Child, r: Progress)
    requires Consistent(c) && PhaseFits(c, p) && StopStep(c, p, c', r)
    ensures Consistent(c') && c'.started == c.started && (c'.alive ==> c.alive) && (c.reaped ==> c'.reaped)
    ensures r.Still? ==> PhaseFits(c', r.phase)
    ensures r.Returned? && !r.error ==> !c'.alive && (c.started ==> c'.reaped)
  {
  }

  lemma DyingKeeps(c: Child, p: Phase, c': Child)
    requires Consistent(c) && PhaseFits(c, p) && c'.started == c.started
    requires !c'.alive && (c.reaped ==> c'.reaped)
    ensures PhaseFits(c', p)
  {
  }

  lemma ChildKeeps(a: World, b: World, i: nat)
    requires Inv(a) && ChildStep(a, b, i)
    ensures Inv(b)
  {
    var c, c' := a.procs[i], b.procs[i];
    assert b.procs == a.procs[i := c'] && Consistent(c) && Consistent(c');
    assert c'.started == c.started && (c'.alive ==> c.alive) && (c.reaped ==> c'.reaped);
    if i == a.cur {
      if a.m.Stopping? { DyingKeeps(c, a.m.phase, c'); }
      if a.h.Terminating? { DyingKeeps(c, a.h.phase, c'); }
    }
  }

  lemma MonitorKeeps(a: World, b: World)
    requires Inv(a) && MonitorStep(a, b)
    ensures Inv(b)
  {
    if a.m.Stopping? {
      var c, r :| StopStep(a.procs[a.cur], a.m.phase, c, r) && b == a.(procs := a.procs[a.cur := c],
        lock := if r.Returned? && r.error then Free else a.lock,
        m := if r.Still? then Stopping(r.phase) else if r.error then Watching else Replacing);
      StopKeeps(a.procs[a.cur], a.m.phase, c, r);
    } else if a.m.Replacing? {
      assert forall i :: 0 <= i < |a.procs| ==> b.procs[i] == a.procs[i];
    }
  }

  lemma HandlerKeeps(a: World, b: World)
    requires Inv(a) && HandlerStep(a, b)
    ensures Inv(b)
  {
    if a.h.Terminating? {
      var c, r :| StopStep(a.procs[a.cur], a.h.phase, c, r) && b == a.(procs := a.procs[a.cur := c],
        lock := if r.Returned? then Free else a.lock,
        h := if r.Still? then Terminating(r.phase) else Sending);
      StopKeeps(a.procs[a.cur], a.h.phase, c, r);
    }
  }

  lemma StepKeeps(a: World, b: World)
    requires Inv(a) && Step(a, b)
    ensures Inv(b)
  {
    if i :| ChildStep(a, b, i) {
      ChildKeeps(a, b, i);
    } else if MonitorStep(a, b) {
      MonitorKeeps(a, b);
    } else {
      HandlerKeeps(a, b);
    }
  }

  lemma {:induction false} RunInv(worlds: seq<World>, n: nat)
    requires Run(worlds) && worlds[0] == INITIAL && n < |worlds|
    ensures Inv(worlds[n])
  {
    if n > 0 {
      RunInv(worlds, n - 1);
      assert StepAt(worlds, n - 1);
      StepKeeps(worlds[n - 1], worlds[n]);
    }
  }

  // In every interleaving at most one child is alive.
  lemma AtMostOneAlive(worlds: seq<World>, n: nat, i: nat, j: nat)
    requires Run(worlds) && worlds[0] == INITIAL && n < |worlds|
    requires i < |worlds[n].procs| && j < |worlds[n].procs| && worlds[n].procs[i].alive && worlds[n].procs[j].alive
    ensures i == j
  {
    RunInv(worlds, n);
  }

  // ---------------------------------------------------------------- no restart after the handler

  // The handler is through and its child is reaped; a Stop that the monitor may be in by now
  // is bound to fail.
  predicate Stopped(w: World)
    requires w.cur < |w.procs|
  {
    && (w.h.Sending? || w.h.Sent?)
    && w.procs[w.cur].started && w.procs[w.cur].reaped
    && !w.m.Replacing?
    && (w.m.Stopping? ==> w.m.phase.Signal? || (w.m.phase.Select? && w.m.phase.own != Answered(false)))
  }

  // The same processes, none of them started since and none of them alive.
  predicate NothingStarted(a: World, b: World) {
    && b.cur == a.cur && |b.procs| == |a.procs|
    && forall i :: 0 <= i < |a.procs| ==> b.procs[i].started == a.procs[i].started && !b.procs[i].alive
  }

  // Being stopped lasts, and no process is started any more.
  lemma StoppedStays(a: World, b: World)
    requires Inv(a) && Stopped(a) && Step(a, b)
    ensures Inv(b) && Stopped(b) && NothingStarted(a, b)
  {
    StepKeeps(a, b);
    if i :| ChildStep(a, b, i) {
      assert forall j :: 0 <= j < |a.procs| ==> b.procs[j].started == a.procs[j].started && (a.procs[j].reaped ==> b.procs[j].reaped);
    } else if MonitorStep(a, b) {
      if a.m.Stopping? {
        var c, r :| StopStep(a.procs[a.cur], a.m.phase, c, r) && b == a.(procs := a.procs[a.cur := c],
          lock := if r.Returned? && r.error then Free else a.lock,
          m := if r.Still? then Stopping(r.phase) else if r.error then Watching else Replacing);
        StopFails(a.procs[a.cur], a.m.phase, c, r);
      }
    }
  }

  // A Stop on a child that has been reaped before ends in an error.
  lemma StopFails(c: Child, p: Phase, c': Child, r: Progress)
    requires c.started && c.reaped && StopStep(c, p, c', r)
    requires p.Signal? || (p.Select? && p.own != Answered(false))
    ensures c' == c
    ensures if r.Returned? then r.error else r.phase.Select? && r.phase.own != Answered(false)
  {
  }

  // When the handler's Stop comes back, nothing is started any more if its child was started
  // and has been reaped; and it was reaped unless it had not been started or the kill was
  // refused.
  lemma HandlerEnds(a: World, b: World)
    requires Inv(a) && a.m != Exited && HandlerStep(a, b) && a.h.Terminating? && b.h == Sending
    ensures Stopped(b) <==> b.procs[b.cur].started && b.procs[b.cur].reaped
    ensures !(b.procs[b.cur].started && b.procs[b.cur].reaped) ==>
              !a.procs[a.cur].started || (a.procs[a.cur].alive && b.procs[b.cur].alive && a.h.phase.Select?)
  {
    HandlerKeeps(a, b);
    var c, r :| StopStep(a.procs[a.cur], a.h.phase, c, r) && b == a.(procs := a.procs[a.cur := c],
      lock := if r.Returned? then Free else a.lock,
      h := if r.Still? then Terminating(r.phase) else Sending);
  }

  lemma NothingStartedSince(a: World, b: World, c: World)
    requires NothingStarted(a, b) && NothingStarted(b, c)
    ensures NothingStarted(a, c)
  {
  }

  // Over every run: from the moment the handler has reaped a started child, no hash change
  // starts another, and nothing is left alive.
  lemma {:induction false} NoRestart(worlds: seq<World>, k: nat, n: nat)
    requires Run(worlds) && worlds[0] == INITIAL && k <= n < |worlds|
    requires worlds[k].cur < |worlds[k].procs| && Stopped(worlds[k])
    ensures worlds[n].cur < |worlds[n].procs| && Stopped(worlds[n]) && NothingStarted(worlds[k], worlds[n])
  {
    if k == n {
      RunInv(worlds, n);
    } else {
      NoRestart(worlds, k, n - 1);
      RunInv(worlds, n - 1);
      var a, b := worlds[n - 1], worlds[n];
      assert StepAt(worlds, n - 1);
      StoppedStays(a, b);
      NothingStartedSince(worlds[k], a, b);
    }
  }

  // A signal that comes before the first start is the exception: there is nothing to stop
  // yet, the child is started all the same and outlives the watcher.
  lemma EarlySignal() returns (worlds: seq<World>)
    ensures Run(worlds) && worlds[0] == INITIAL
    ensures var last := worlds[|worlds| - 1];
            last.m == Exited && last.h == Sent && last.cur < |last.procs| && last.procs[last.cur].alive
  {
    var p := [UNSTARTED];
    var w0 := INITIAL;
    var w1 := World(p, 0, Free, Starting, Notified);
    var w2 := World(p, 0, ByHandler, Starting, Terminating(Signal));
    var w3 := World(p, 0, Free, Starting, Sending);
    var w4 := World(p, 0, Free, Starting, Sent);
    var w5 := World([RUNNING], 0, Free, Watching, Sent);
    var w6 := World([RUNNING], 0, Free, Exited, Sent);
    assert HandlerStep(w0, w1) && HandlerStep(w1, w2);
    assert StopStep(p[0], Signal, p[0], Returned(false)) && p[0 := p[0]] == p;
    assert HandlerStep(w2, w3) && HandlerStep(w3, w4);
    assert MonitorStep(w4, w5) && MonitorStep(w5, w6);
    worlds := [w0, w1, w2, w3, w4, w5, w6];
  }
}
