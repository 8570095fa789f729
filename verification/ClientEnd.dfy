/** The end of the client: after a stop() its run can always be completed, through
    the return of run() and the destructors of main(), to the end of the process. */
module ClientEnd {
  import opened Seqs
  import opened EventQueues
  import opened LoopProtocol
  import opened LoopMemory
  import opened LoopStop
  import opened EventLoops
  import opened XboxControllers
  import opened ControllerRuns

  predicate Goes(s: System, a: Act, s': System) {
    Can(s, a) && s' == Do(s, a)
  }

  /** The acts lead through these states. */
  ghost predicate Trace(ss: seq<System>, acts: seq<Act>) {
    |ss| == |acts| + 1 && forall n :: 0 <= n < |acts| ==> Goes(ss[n], acts[n], ss[n + 1])
  }

  lemma TraceOn(s: System, a: Act, ss: seq<System>, acts: seq<Act>)
    requires Trace(ss, acts) && Goes(s, a, ss[0])
    ensures Trace([s] + ss, [a] + acts)
  {
    forall n | 0 <= n < |acts| + 1 ensures Goes(([s] + ss)[n], ([a] + acts)[n], ([s] + ss)[n + 1]) {
      if n > 0 {
        assert Goes(ss[n - 1], acts[n - 1], ss[n]);
      }
    }
  }

  lemma TraceConcat(ss: seq<System>, acts: seq<Act>, tt: seq<System>, more: seq<Act>)
    requires Trace(ss, acts) && Trace(tt, more) && ss[|acts|] == tt[0]
    ensures Trace(ss + tt[1..], acts + more)
  {
    var all, both := ss + tt[1..], acts + more;
    forall n | 0 <= n < |both| ensures Goes(all[n], both[n], all[n + 1]) {
      if n < |acts| {
        assert Goes(ss[n], acts[n], ss[n + 1]);
      } else {
        assert Goes(tt[n - |acts|], more[n - |acts|], tt[n - |acts| + 1]);
      }
    }
  }

  lemma OneMoreAct(valid: bool, acts: seq<Act>, a: Act, s: System, s': System)
    requires Feasible(valid, acts) && Reached(valid, acts) == s && Goes(s, a, s')
    ensures Feasible(valid, acts + [a]) && Reached(valid, acts + [a]) == s'
  {
    assert (acts + [a])[..|acts|] == acts;
  }

  lemma NextPrefix<T>(s: seq<T>, t: seq<T>, n: nat)
    requires 0 < n <= |t|
    ensures s + t[..n] == (s + t[..n - 1]) + [t[n - 1]]
  {
  }

  /** What a trace from a reached state passes, a longer run reaches too. */
  lemma {:induction false} ReachedOn(valid: bool, acts: seq<Act>, ss: seq<System>, more: seq<Act>, n: nat)
    requires Feasible(valid, acts) && Trace(ss, more) && ss[0] == Reached(valid, acts) && n <= |more|
    ensures Feasible(valid, acts + more[..n]) && Reached(valid, acts + more[..n]) == ss[n]
  {
    if n == 0 {
      assert acts + more[..0] == acts;
    } else {
      ReachedOn(valid, acts, ss, more, n - 1);
      assert Goes(ss[n - 1], more[n - 1], ss[n - 1 + 1]);
      OneMoreAct(valid, acts + more[..n - 1], more[n - 1], ss[n - 1], ss[n]);
      NextPrefix(acts, more, n);
    }
  }

  lemma OnePossible(s: State, l: Label)
    requires Enabled(s, l)
    ensures Possible(s, [l]) && After(s, [l]) == Exec(s, l)
  {
    Snoc(s, [], l);
    assert [] + [l] == [l];
  }

  /** The end: every local of main() is destroyed, the loop last. */
  predicate Ended(s: System) { s.stage.AllGone? && s.loop.pc.Gone? }

  /** A step of the loop thread's own, as an act of the client. */
  lemma OwnAct(s: System, l: Label)
    requires Enabled(s.loop, l) && OwnLabel(l) && !l.Start? && !l.Teardown?
    ensures Goes(s, Run(l), s.(loop := Exec(s.loop, l)))
  {
    OnePossible(s.loop, l);
  }

  lemma {:induction false} RunsToReturn(s: System) returns (ss: seq<System>, acts: seq<Act>)
    requires s.stage.Live? && Stopped(s.loop) && !s.loop.pc.Gone?
    ensures Trace(ss, acts) && ss[0] == s && ss[|acts|].stage.Live? && ss[|acts|].loop.pc.Returned?
    decreases Remaining(s.loop), s.loop.ctl.wakeCount
  {
    if s.loop.pc.Returned? {
      return [s], [];
    }
    var l := NextOwn(s.loop);
    StoppedStep(s.loop);
    AStepIsThere(s.loop);
    NotGoneYet(s.loop);
    OwnAct(s, l);
    ss, acts := RunsToReturn(s.(loop := Exec(s.loop, l)));
    TraceOn(s, Run(l), ss, acts);
    ss, acts := [s] + ss, [Run(l)] + acts;
  }

  lemma NotGoneYet(s: State)
    requires !s.pc.Gone? && !s.pc.Returned? && Enabled(s, NextOwn(s))
    ensures !Exec(s, NextOwn(s)).pc.Gone?
  {
  }

  lemma FreedAfterReturn(s: State, a: Addr)
    requires s.pc.Returned?
    ensures Possible(s, [Free(a)]) && After(s, [Free(a)]).pc.Returned?
  {
    OnePossible(s, Free(a));
  }

  lemma ClientDrops(s: System) returns (s': System)
    requires s.stage.Live? && s.loop.pc.Returned?
    ensures Goes(s, DropClient, s') && s'.stage.ClientGone? && s'.loop.pc.Returned?
  {
    FreedAfterReturn(s.loop, s.client);
    if s.c.reader.Some? {
      var r := s.c.reader.value;
      FreedAfterReturn(s.loop, r);
      FreedAfterReturn(After(s.loop, [Free(r)]), s.client);
      RunsCompose(s.loop, [Free(r)], [Free(s.client)]);
      assert Labels(s, DropClient) == [Free(r)] + [Free(s.client)];
    } else {
      assert Labels(s, DropClient) == [Free(s.client)];
    }
    s' := Do(s, DropClient);
  }

  lemma SignalsDrop(s: System) returns (s': System)
    requires s.stage.ClientGone? && s.loop.pc.Returned?
    ensures Goes(s, DropSignals, s') && s'.stage.AllGone? && s'.loop.pc.Returned?
  {
    FreedAfterReturn(s.loop, s.signals);
    s' := Do(s, DropSignals);
  }

  lemma LoopGoes(s: System) returns (s': System)
    requires s.stage.AllGone? && s.loop.pc.Returned?
    ensures Goes(s, Run(Teardown), s') && Ended(s')
  {
    OnePossible(s.loop, Teardown);
    s' := Do(s, Run(Teardown));
  }

  /** From the return of run() on, whatever of main() is left is destroyed. */
  lemma MainReturns(s: System) returns (ss: seq<System>, acts: seq<Act>)
    requires s.stage.Live? || s.stage.ClientGone? || s.stage.AllGone?
    requires s.loop.pc.Returned?
    ensures Trace(ss, acts) && ss[0] == s && Ended(ss[|acts|])
    decreases if s.stage.Live? then 2 else if s.stage.ClientGone? then 1 else 0
  {
    var s', a;
    if s.stage.AllGone? {
      s' := LoopGoes(s);
      ss, acts, a := [s'], [], Run(Teardown);
    } else if s.stage.ClientGone? {
      s' := SignalsDrop(s);
      a := DropSignals;
      ss, acts := MainReturns(s');
    } else {
      s' := ClientDrops(s);
      a := DropClient;
      ss, acts := MainReturns(s');
    }
    TraceOn(s, a, ss, acts);
    ss, acts := [s] + ss, [a] + acts;
  }

  /** A stopped client, wherever it is, can be carried on to the end. */
  lemma StoppedSystemEnds(s: System) returns (ss: seq<System>, acts: seq<Act>)
    requires Good(s) && Stopped(s.loop)
    ensures Trace(ss, acts) && ss[0] == s && Ended(ss[|acts|])
  {
    if s.loop.pc.Gone? {
      return [s], [];
    }
    ss, acts := [s], [];
    if s.stage.Live? {
      ss, acts := RunsToReturn(s);
    }
    var tt, more := MainReturns(ss[|acts|]);
    TraceConcat(ss, acts, tt, more);
    ss, acts := ss + tt[1..], acts + more;
  }

  /** With an eventfd, every run of the client in which run() is under way and a
      stop() has completed can be carried on to the end of the process, where every
      object ever created has been destroyed exactly once. */
  lemma StoppedClientEnds(acts: seq<Act>) returns (more: seq<Act>)
    requires Feasible(true, acts)
    requires Completed(Reached(true, acts).loop) && !Reached(true, acts).loop.pc.Setup?
    ensures Feasible(true, acts + more) && Ended(Reached(true, acts + more))
    ensures AllDestroyedOnce(Reached(true, acts + more).loop)
  {
    ReachedIsStopped(acts);
    var ss;
    ss, more := StoppedSystemEnds(Reached(true, acts));
    ReachedOn(true, acts, ss, more, |more|);
    assert more[..|more|] == more;
    EndedDestroysAll(acts + more);
  }

  lemma ReachedIsStopped(acts: seq<Act>)
    requires Feasible(true, acts)
    requires Completed(Reached(true, acts).loop) && !Reached(true, acts).loop.pc.Setup?
    ensures Good(Reached(true, acts)) && Stopped(Reached(true, acts).loop)
  {
    ClientKeepsTheContract(true, acts);
    CompletedIsStopped(Underneath(true, acts));
  }

  /** Every object ever created has died exactly once. */
  ghost predicate AllDestroyedOnce(s: State) {
    forall k: Oid :: k < s.mem.next ==> Deaths(s.log, k) == 1
  }

  lemma EndedDestroysAll(acts: seq<Act>)
    requires Feasible(true, acts) && Ended(Reached(true, acts))
    ensures AllDestroyedOnce(Reached(true, acts).loop)
  {
    forall k: Oid | k < Reached(true, acts).loop.mem.next ensures Deaths(Reached(true, acts).loop.log, k) == 1 {
      EveryReaderDestroyedOnce(true, acts, k);
    }
  }
}
