// The watcher's code between taking the lock and giving it back (cmd/watcher/main.go,
// pkg/watcher/process/process.go). What the child does, and what the kernel answers, is open.

module WatcherProcess {
  import opened Watcher

  // The same child but for Waits that have come back since.
  predicate Settles(c: Child, c': Child) {
    c'.left <= c.left && c' == c.(left := c'.left)
  }

  // What a whole Stop can make of a child: nothing of one that was not started, an error for
  // one that was reaped before. Any other is reaped, or it is alive and its kill was refused;
  // being reaped by a Wait that an earlier Stop gave up on, or just before the kill, is an
  // error, too.
  ghost predicate Stops(c: Child, c': Child, failed: bool) {
    if !c.started then c' == c && !failed
    else if c.reaped then Settles(c, c') && failed
    else Settles(c.(alive := false, reaped := true), c') || (failed && c.alive && c' == c.(left := c.left + 1))
  }

  // The small steps of Stop, with whatever the child does on its own in between, come to
  // nothing else.
  ghost predicate StopRun(children: seq<Child>, phases: seq<Phase>, failed: bool, last: Child) {
    && |children| == |phases| && phases != [] && phases[0] == Signal
    && (forall i, j :: 0 <= i < j < |phases| && j == i + 1 ==>
          || StopStep(children[i], phases[i], children[j], Still(phases[j]))
          || (phases[j] == phases[i] && OnItsOwn(children[i], children[j])))
    && StopStep(children[|phases| - 1], phases[|phases| - 1], last, Returned(failed))
  }

  // What can be said of the child at a point of a Stop that found it as c.
  predicate During(c: Child, now: Child, p: Phase) {
    && Consistent(now) && PhaseFits(now, p) && now.started == c.started && now.left <= c.left
    && (now.alive || !c.started ==> now == c)
    && (c.reaped ==> now.reaped && (p.Signal? || p == Select(Answered(true))))
  }

  lemma {:induction false} StopPoint(children: seq<Child>, phases: seq<Phase>, failed: bool, last: Child, n: nat)
    requires StopRun(children, phases, failed, last) && Consistent(children[0]) && n < |phases|
    ensures During(children[0], children[n], phases[n])
  {
    if n > 0 {
      StopPoint(children, phases, failed, last, n - 1);
      var now, p := children[n - 1], phases[n - 1];
      if StopStep(now, p, children[n], Still(phases[n])) {
        StopKeeps(now, p, children[n], Still(phases[n]));
      } else {
        DyingKeeps(now, p, children[n]);
      }
    }
  }

  lemma StopRuns(children: seq<Child>, phases: seq<Phase>, failed: bool, last: Child)
    requires StopRun(children, phases, failed, last) && Consistent(children[0])
    ensures Stops(children[0], last, failed)
  {
    StopPoint(children, phases, failed, last, |phases| - 1);
  }

  class Process {
    var child: Child

    constructor ()
      ensures child == UNSTARTED
    {
      child := UNSTARTED;
    }

    // Starting a process twice fails.
    method Start() returns (failed: bool)
      modifies this
      ensures child == if failed then old(child) else RUNNING
      ensures old(child).started ==> failed
    {
      failed := *;
      if child.started || failed {
        return true;
      }
      child := RUNNING;
    }

    // Time passes for the child.
    method Elapse()
      requires Consistent(child)
      modifies this
      ensures Consistent(child) && child.started == old(child).started && child.left <= old(child).left
      ensures child.alive || !old(child).started ==> child == old(child)
      ensures old(child).reaped ==> child.reaped
    {
      var dies: bool := *;
      if dies {
        child := child.(alive := false);
      }
      var back: nat :| back <= child.left;
      if !child.alive && back > 0 {
        child := child.(reaped := true, left := child.left - back);
      }
    }

    method Stop() returns (failed: bool)
      requires Consistent(child)
      modifies this
      ensures Stops(old(child), child, failed) && Consistent(child)
    {
      if !child.started {
        return false;
      }
      // SIGINT, whose failure is only logged; the Wait runs on the side.
      Elapse();
      var own := if child.reaped then Answered(true) else Blocked;
      Elapse();
      var inTime: bool := *;
      if own.Blocked? && inTime && !child.alive {
        own := Answered(child.reaped);
        child := child.(reaped := true);
      }
      var timeout: bool := *;
      if own.Answered? && !timeout {
        return own.failed;
      }
      Elapse();
      if child.reaped {
        return true;
      }
      var refused: bool := *;
      if refused && child.alive {
        child := child.(left := child.left + 1);
        return true;
      }
      child := child.(alive := false, reaped := true);
      Elapse();
      return false;
    }
  }

  // The globals of the program: the current process, and all there have been.
  class Supervisor {
    var proc: Process
    ghost var all: set<Process>

    constructor ()
      ensures Valid() && proc.child == UNSTARTED && all == {proc} && fresh(proc)
    {
      proc := new Process();
      all := {proc};
    }

    ghost predicate Valid()
      reads this, all
    {
      && proc in all
      && forall p :: p in all ==> Consistent(p.child) && (p != proc ==> !p.child.alive)
    }

    // restartProcess, under the lock: a failing Stop leaves the process in place.
    method RestartProcess()
      requires Valid()
      modifies this, proc
      ensures Valid() && old(all) <= all && fresh(all - old(all))
      ensures old(proc.child.started && proc.child.reaped) ==> proc == old(proc) && Settles(old(proc.child), proc.child)
      ensures proc != old(proc) ==> fresh(proc) && !old(proc).child.alive
      ensures proc == old(proc) ==> all == old(all)
    {
      var failed := proc.Stop();
      if failed {
        return;
      }
      proc := new Process();
      all := all + {proc};
      failed := proc.Start();
    }

    // monitorHashChanges over the hashes that arrive until the handler is done: a process is
    // only ever replaced on a change, and not at all once it has been reaped.
    method MonitorHashChanges(hashes: seq<string>, first: string)
      requires Valid()
      modifies this, all
      ensures Valid()
      ensures (forall i :: 0 <= i < |hashes| ==> hashes[i] == first) ==> proc == old(proc) && proc.child == old(proc.child)
      ensures old(proc.child.started && proc.child.reaped) ==> proc == old(proc) && Settles(old(proc.child), proc.child)
    {
      var currentHash := first;
      for i := 0 to |hashes|
        invariant Valid() && fresh(all - old(all))
        invariant old(proc.child.started && proc.child.reaped) ==> proc == old(proc) && Settles(old(proc.child), proc.child)
        invariant (forall j :: 0 <= j < |hashes| ==> hashes[j] == first) ==>
                    currentHash == first && proc == old(proc) && proc.child == old(proc.child)
      {
        if currentHash != hashes[i] {
          currentHash := hashes[i];
          RestartProcess();
        }
      }
    }
  }
}
