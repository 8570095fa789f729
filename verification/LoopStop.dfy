/** stop() from other threads: for every interleaving of the three steps of
    stop() with the steps of the loop, no stop is lost, the loop ends within a
    bounded number of its own steps, and it returns the code it was given. */
module LoopStop {
  import opened Seqs
  import opened EventQueues
  import opened LoopProtocol
  import opened LoopMemory

  predicate Lowered(p: Phase) { p.Flagged? || p.Done? }

  ghost predicate SomeStop(s: State, phase: Phase -> bool) {
    exists c :: c in s.ctl.stops && phase(s.ctl.stops[c])
  }

  /** Some call of stop() has lowered running_ since run() raised it. */
  ghost predicate Requested(s: State) { SomeStop(s, p => Lowered(p)) }

  /** Some such call has also written the eventfd. */
  ghost predicate Completed(s: State) { SomeStop(s, (p: Phase) => p.Done?) }

  /** poll() may sleep: nothing guarantees that a descriptor is ready. */
  predicate MayBlock(s: State) {
    s.pc.AtPoll? && !(s.ctl.wakeValid && s.ctl.wakeCount > 0)
  }

  ghost predicate Heard(s: State) {
    && (s.ctl.running ==> !Requested(s))
    && (!s.ctl.running && !s.pc.Setup? ==> Requested(s))
    && (s.ctl.wakeValid && (s.pc.AtBuild? || s.pc.AtPoll?) && Completed(s) ==> s.ctl.wakeCount > 0)
    && ((s.pc.AtReturn? || s.pc.Returned? || s.pc.Gone?) ==> s.ctl.failed || !s.ctl.running)
    && (s.pc.Setup? ==> !s.ctl.running)
  }

  /** Phases of other calls are not touched by a call's own steps. */
  lemma StopKeepsHeard(s: State, l: Label)
    requires Heard(s) && Enabled(s, l) && (l.StopBegin? || l.StopFlag? || l.StopWake?)
    ensures Heard(Exec(s, l))
  {
    var s' := Exec(s, l);
    assert l.call in s'.ctl.stops;
    assert forall c :: c in s.ctl.stops && c != l.call ==> c in s'.ctl.stops && s'.ctl.stops[c] == s.ctl.stops[c];
    assert forall c :: c in s'.ctl.stops && c != l.call ==> c in s.ctl.stops;
    if l.StopBegin? || l.StopWake? {
      assert Requested(s) ==> Requested(s');
      assert Requested(s') ==> Requested(s);
    }
  }

  lemma HeardStep(s: State, l: Label)
    requires Heard(s) && Enabled(s, l)
    ensures Heard(Exec(s, l))
  {
    if l.StopBegin? || l.StopFlag? || l.StopWake? {
      StopKeepsHeard(s, l);
    } else if !l.Start? {
      assert Exec(s, l).ctl.stops == s.ctl.stops;
      assert Requested(Exec(s, l)) <==> Requested(s);
      assert Completed(s) ==> Requested(s);
      assert Completed(Exec(s, l)) <==> Completed(s);
    }
  }

  lemma {:induction false} HeardHolds(valid: bool, ls: seq<Label>)
    requires Possible(Init(valid), ls)
    ensures Heard(After(Init(valid), ls)) && After(Init(valid), ls).ctl.wakeValid == valid
  {
    if ls != [] {
      HeardHolds(valid, ls[..|ls| - 1]);
      HeardStep(After(Init(valid), ls[..|ls| - 1]), ls[|ls| - 1]);
    }
  }

  /** Whatever the interleaving, a completed stop() finds poll() unable to sleep. */
  ghost predicate NoStopIsLost(valid: bool) {
    forall ls {:trigger Possible(Init(valid), ls)} ::
      Possible(Init(valid), ls) && Completed(After(Init(valid), ls)) ==> !MayBlock(After(Init(valid), ls))
  }

  /** No stop is lost if and only if the wake eventfd could be created. */
  lemma NoStopIsLostIffEventfd(valid: bool)
    ensures NoStopIsLost(valid) <==> valid
  {
    if valid {
      forall ls | Possible(Init(valid), ls) && Completed(After(Init(valid), ls))
        ensures !MayBlock(After(Init(valid), ls))
      {
        HeardHolds(valid, ls);
      }
    } else {
      var ls := StopWithoutEventfd();
      assert Possible(Init(valid), ls);
    }
  }

  lemma Extend(s0: State, ls: seq<Label>, s: State, l: Label) returns (ls': seq<Label>, s': State)
    requires Possible(s0, ls) && s == After(s0, ls) && Enabled(s, l)
    ensures ls' == ls + [l] && Possible(s0, ls') && s' == After(s0, ls') && s' == Exec(s, l)
  {
    Snoc(s0, ls, l);
    ls', s' := ls + [l], Exec(s, l);
  }

  /** Without an eventfd, a stop() that comes after the second test of running_
      leaves the loop asleep. */
  lemma StopWithoutEventfd() returns (ls: seq<Label>)
    ensures Possible(Init(false), ls)
    ensures Completed(After(Init(false), ls)) && MayBlock(After(Init(false), ls))
  {
    var s := Init(false);
    ls := [];
    ls, s := Extend(Init(false), ls, s, Start);
    ls, s := Extend(Init(false), ls, s, Check);
    ls, s := Extend(Init(false), ls, s, Apply);
    ls, s := Extend(Init(false), ls, s, Recheck);
    ls, s := Extend(Init(false), ls, s, Build(false));
    ls, s := Extend(Init(false), ls, s, StopBegin(0, 0));
    ls, s := Extend(Init(false), ls, s, StopFlag(0));
    ls, s := Extend(Init(false), ls, s, StopWake(0));
    assert 0 in s.ctl.stops && s.ctl.stops[0] == Done(0);
  }

  // ---- The code returned ---------------------------------------------------------

  ghost predicate CodeKept(s: State, k: int) {
    && (forall c :: c in s.ctl.stops ==> s.ctl.stops[c].code == k)
    && (!s.ctl.failed && s.ctl.stops != map[] ==> s.ctl.exitCode == k)
    && (s.ctl.failed ==> s.ctl.exitCode == k || s.ctl.exitCode == 1)
    && (s.pc.Returned? ==> s.pc.code == k || (s.ctl.failed && s.pc.code == 1))
  }

  lemma CodeStep(s: State, l: Label, k: int)
    requires Heard(s) && CodeKept(s, k) && Enabled(s, l) && (l.StopBegin? ==> l.code == k)
    ensures CodeKept(Exec(s, l), k)
  {
    if l.StopBegin? {
      assert l.call in Exec(s, l).ctl.stops;
    } else if l.Return? && !s.ctl.failed {
      var c :| c in s.ctl.stops && Lowered(s.ctl.stops[c]);
    }
  }

  /** If every stop() of the run passes k (in particular, if there is only one),
      run() returns k, unless it met an internal error: then k or 1. */
  lemma {:induction false} RunReturnsTheCode(valid: bool, ls: seq<Label>, k: int)
    requires Possible(Init(valid), ls)
    requires forall l :: l in ls && l.StopBegin? ==> l.code == k
    ensures CodeKept(After(Init(valid), ls), k)
  {
    if ls != [] {
      var front, last := ls[..|ls| - 1], ls[|ls| - 1];
      assert last in ls && forall l :: l in front ==> l in ls;
      RunReturnsTheCode(valid, front, k);
      HeardHolds(valid, front);
      CodeStep(After(Init(valid), front), last, k);
    }
  }

  /** The code last stored: by stop(), or as 1 by an internal error. */
  function LastCode(ls: seq<Label>): int {
    if ls == [] then 0 else Stores(ls[|ls| - 1], LastCode(ls[..|ls| - 1]))
  }

  /** What a step leaves in exit_code_. */
  function Stores(l: Label, code: int): int {
    match l
    case StopBegin(_, c) => c
    case PollFailed => 1
    case BusFailed => 1
    case _ => code
  }

  predicate IsError(l: Label) { l.PollFailed? || l.BusFailed? }

  /** The run met an internal error. */
  predicate Erred(ls: seq<Label>) {
    ls != [] && (IsError(ls[|ls| - 1]) || Erred(ls[..|ls| - 1]))
  }

  lemma StoredStep(s: State, l: Label)
    requires Enabled(s, l)
    ensures Exec(s, l).ctl.exitCode == Stores(l, s.ctl.exitCode)
    ensures Exec(s, l).ctl.failed == (s.ctl.failed || IsError(l))
  {
  }

  lemma {:induction false} CodeIsLastStored(valid: bool, ls: seq<Label>)
    requires Possible(Init(valid), ls)
    ensures After(Init(valid), ls).ctl.exitCode == LastCode(ls)
    ensures After(Init(valid), ls).ctl.failed <==> Erred(ls)
  {
    if ls != [] {
      CodeIsLastStored(valid, ls[..|ls| - 1]);
      StoredStep(After(Init(valid), ls[..|ls| - 1]), ls[|ls| - 1]);
    }
  }

  /** Whatever codes the stops pass: run() returns the one stored last, by the stop()
      that came last unless an internal error stored 1 after it. Without an error
      there has been such a stop(). */
  lemma RunReturnsTheLastCode(valid: bool, ls: seq<Label>)
    requires Possible(Init(valid), ls + [Return])
    ensures Possible(Init(valid), ls) && After(Init(valid), ls + [Return]).pc == Returned(LastCode(ls))
    ensures !Erred(ls) ==> Requested(After(Init(valid), ls))
  {
    assert (ls + [Return])[..|ls|] == ls;
    CodeIsLastStored(valid, ls);
    HeardHolds(valid, ls);
    ReturnStep(After(Init(valid), ls));
  }

  lemma ReturnStep(s: State)
    requires Enabled(s, Return) && Heard(s)
    ensures Exec(s, Return).pc == Returned(s.ctl.exitCode) && (!s.ctl.failed ==> Requested(s))
  {
  }

  // ---- The loop ends ---------------------------------------------------------------

  /** Steps the loop thread can still take once running_ is false. */
  function Remaining(s: State): nat
    requires Shape(s)
  {
    var n := |s.q.sources|;
    match s.pc
    case Setup => 0
    case AtBuild => 2 * n + 10
    case AtPoll => 2 * n + 9
    case AtDrain => 2 * n + 8
    case InBus => 2 * n + 7
    case AtSource(i) => 2 * (n - i) + 6
    case InDispatch(i) => 2 * (n - i) + 5
    case AtCheck => 5
    case AtApply => 4
    case AtRecheck => 3
    case AtReturn => 2
    case Returned(_) => 1
    case Gone => 0
  }

  /** The step moves the loop thread on (one more read of the eventfd does not). */
  predicate Advances(s: State, l: Label)
    requires Enabled(s, l)
  {
    Exec(s, l).pc != s.pc
  }

  function Advanced(s: State, ls: seq<Label>): nat
    requires Possible(s, ls)
  {
    if ls == [] then 0 else
    var front, last := ls[..|ls| - 1], ls[|ls| - 1];
    Advanced(s, front) + (if Advances(After(s, front), last) then 1 else 0)
  }

  lemma AdvanceStep(s: State, l: Label)
    requires Shape(s) && Enabled(s, l) && !s.ctl.running && !s.pc.Setup?
    ensures Shape(Exec(s, l)) && !Exec(s, l).ctl.running && !Exec(s, l).pc.Setup?
    ensures Remaining(Exec(s, l)) + (if Advances(s, l) then 1 else 0) <= Remaining(s)
  {
    ShapeStep(s, l);
  }

  /** How often poll() returns. */
  function Polls(ls: seq<Label>): nat {
    if ls == [] then 0
    else Polls(ls[..|ls| - 1]) + (if EndsPoll(ls[|ls| - 1]) then 1 else 0)
  }

  predicate EndsPoll(l: Label) { l.PollReady? || l.PollInterrupted? || l.PollFailed? }

  /** Only past the second test of running_ can poll() still be called. */
  function PollsLeft(s: State): nat { if s.pc.AtBuild? || s.pc.AtPoll? then 1 else 0 }

  lemma PollStep(s: State, l: Label)
    requires Enabled(s, l) && !s.ctl.running && !s.pc.Setup?
    ensures PollsLeft(Exec(s, l)) + (if EndsPoll(l) then 1 else 0) <= PollsLeft(s)
  {
  }

  /** Once running_ is false it stays false, and from then on the loop thread
      takes at most Remaining(s) further steps, however callbacks and other
      threads interleave: it passes poll() at most once more, and only if it was
      past the second test of running_. */
  lemma {:induction false} StopEndsTheLoop(s: State, ls: seq<Label>)
    requires Shape(s) && !s.ctl.running && !s.pc.Setup? && Possible(s, ls)
    ensures Shape(After(s, ls)) && !After(s, ls).ctl.running && !After(s, ls).pc.Setup?
    ensures Advanced(s, ls) + Remaining(After(s, ls)) <= Remaining(s)
    ensures Polls(ls) + PollsLeft(After(s, ls)) <= PollsLeft(s) <= 1
  {
    if ls != [] {
      StopEndsTheLoop(s, ls[..|ls| - 1]);
      AdvanceStep(After(s, ls[..|ls| - 1]), ls[|ls| - 1]);
      PollStep(After(s, ls[..|ls| - 1]), ls[|ls| - 1]);
    }
  }

  // ---- A step is always there ---------------------------------------------------------

  /** Steps of the loop thread's own code. */
  predicate OwnLabel(l: Label) { !StopLabel(l) && !CallerLabel(l) }

  /** ... without an error, and with some descriptor ready whenever poll() returns. */
  predicate Unaided(l: Label) {
    && OwnLabel(l) && !l.PollFailed? && !l.PollInterrupted? && !l.BusFailed?
    && (l.PollReady? ==> exists k :: 0 <= k < |l.revents| && l.revents[k].Any())
  }

  /** What poll() reports when nothing but the wake descriptor can be ready. */
  function OnlyWake(s: State): seq<Revents> {
    seq(|s.snap.pfds|, k requires 0 <= k < |s.snap.pfds| =>
      Revents(k == s.snap.WakeIndex() && s.ctl.wakeValid && s.ctl.wakeCount > 0, false, false))
  }

  /** The loop thread's next step, when its callbacks return and add nothing. */
  function NextOwn(s: State): Label
    requires !s.pc.Gone?
  {
    match s.pc
    case Setup => Start
    case AtCheck => Check
    case AtApply => Apply
    case AtRecheck => Recheck
    case AtBuild => Build(false)
    case AtPoll => PollReady(OnlyWake(s))
    case AtDrain => Drain
    case InBus => BusDone
    case AtSource(_) => Source
    case InDispatch(_) => DispatchDone
    case AtReturn => Return
    case Returned(_) => Teardown
  }

  /** The loop thread has a step of its own until the loop is destroyed; it needs
      neither a timeout nor a signal unless poll() may block. */
  lemma AStepIsThere(s: State)
    requires Shape(s) && !s.pc.Gone?
    ensures OwnLabel(NextOwn(s)) && Enabled(s, NextOwn(s))
    ensures !MayBlock(s) ==> Unaided(NextOwn(s))
  {
    if s.pc.AtPoll? && !MayBlock(s) {
      assert OnlyWake(s)[s.snap.WakeIndex()].Any();
    }
  }

  /** The flag is down for good, and poll() will not sleep on the way out. */
  ghost predicate Stopped(s: State) {
    && Shape(s) && !s.ctl.running && !s.pc.Setup?
    && (s.pc.AtBuild? || s.pc.AtPoll? ==> s.ctl.wakeValid && s.ctl.wakeCount > 0)
  }

  /** Each own step goes on towards the end, or empties the eventfd first. */
  lemma StoppedStep(s: State)
    requires Stopped(s) && !s.pc.Gone?
    ensures Enabled(s, NextOwn(s)) && Stopped(Exec(s, NextOwn(s)))
    ensures Nearer(Exec(s, NextOwn(s)), s)
  {
    AStepIsThere(s);
    StaysStopped(s);
    ComesNearer(s);
  }

  /** Fewer steps to go, or as many and less to read from the eventfd. */
  predicate Nearer(s': State, s: State)
    requires Shape(s) && Shape(s')
  {
    Remaining(s') < Remaining(s) || (Remaining(s') == Remaining(s) && s'.ctl.wakeCount < s.ctl.wakeCount)
  }

  lemma StaysStopped(s: State)
    requires Stopped(s) && !s.pc.Gone? && Enabled(s, NextOwn(s))
    ensures Stopped(Exec(s, NextOwn(s)))
  {
    ShapeStep(s, NextOwn(s));
  }

  lemma ComesNearer(s: State)
    requires Stopped(s) && !s.pc.Gone? && Enabled(s, NextOwn(s)) && Shape(Exec(s, NextOwn(s)))
    ensures Nearer(Exec(s, NextOwn(s)), s)
  {
  }

  /** From any such state the loop thread, left alone, runs to the end. */
  lemma {:induction false} StoppedLoopFinishes(s: State) returns (ls: seq<Label>)
    requires Stopped(s)
    ensures Possible(s, ls) && After(s, ls).pc.Gone? && forall l :: l in ls ==> Unaided(l)
    decreases Remaining(s), s.ctl.wakeCount
  {
    if s.pc.Gone? {
      return [];
    }
    StoppedStep(s);
    AStepIsThere(s);
    var rest := StoppedLoopFinishes(Exec(s, NextOwn(s)));
    Snoc(s, [], NextOwn(s));
    assert [] + [NextOwn(s)] == [NextOwn(s)];
    RunsCompose(s, [NextOwn(s)], rest);
    ls := [NextOwn(s)] + rest;
  }

  /** With an eventfd, whatever happened before: after a completed stop() the loop
      thread can finish on its own, without a timeout, a signal or another thread,
      as soon as the callback it may be in returns. */
  lemma CompletedStopFinishes(ls: seq<Label>) returns (more: seq<Label>)
    requires Possible(Init(true), ls) && Completed(After(Init(true), ls)) && !After(Init(true), ls).pc.Setup?
    ensures Possible(Init(true), ls + more) && After(Init(true), ls + more).pc.Gone?
    ensures forall l :: l in more ==> Unaided(l)
  {
    CompletedIsStopped(ls);
    more := StoppedLoopFinishes(After(Init(true), ls));
    RunsCompose(Init(true), ls, more);
  }

  lemma CompletedIsStopped(ls: seq<Label>)
    requires Possible(Init(true), ls) && Completed(After(Init(true), ls)) && !After(Init(true), ls).pc.Setup?
    ensures Stopped(After(Init(true), ls))
  {
    var s := After(Init(true), ls);
    HeardHolds(true, ls);
    ShapeHolds(true, ls);
    var c :| c in s.ctl.stops && s.ctl.stops[c].Done?;
    assert Lowered(s.ctl.stops[c]);
  }
}
