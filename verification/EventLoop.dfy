/** The EventLoop class. Its methods are proved against the transition system:
    run(), given any possible run as the record of what poll(), D-Bus, the
    callbacks and other threads do, is in exactly the state that run leads to. */
module EventLoops {
  import opened Seqs
  import opened EventQueues
  import opened LoopProtocol
  import opened LoopMemory
  import opened LoopPass

  /** What a slot of the local pollfd vector polls. */
  datatype Slot = Bus | BusEvent | WakeEvent | SourceAt(source: Addr)

  function KindOf(p: PollFd): Slot {
    match p
    case BusFd => Bus
    case BusEventFd => BusEvent
    case WakeFd => WakeEvent
    case SourceFd(a, _) => SourceAt(a)
  }

  function Kinds(pfds: seq<PollFd>): seq<Slot> {
    seq(|pfds|, i requires 0 <= i < |pfds| => KindOf(pfds[i]))
  }

  function SourceSlots(sources: seq<Addr>): seq<Slot> {
    seq(|sources|, i requires 0 <= i < |sources| => SourceAt(sources[i]))
  }

  lemma PollSetKinds(sources: seq<Addr>, heap: map<Addr, Oid>, eventFd: bool)
    ensures Kinds(PollSet(sources, heap, eventFd))
            == [Bus] + (if eventFd then [BusEvent] else []) + [WakeEvent] + SourceSlots(sources)
  {
  }

  lemma {:induction false} PrefixPossible(m0: State, script: seq<Label>, k: nat)
    requires Possible(m0, script) && k <= |script|
    ensures Possible(m0, script[..k])
    ensures k < |script| ==> Enabled(After(m0, script[..k]), script[k])
    decreases |script|
  {
    if k == |script| {
      assert script[..k] == script;
    } else {
      var front := script[..|script| - 1];
      PrefixPossible(m0, front, k);
      assert front[..k] == script[..k];
    }
  }

  /** The machine before and after label k of the script. */
  lemma NextStep(m0: State, script: seq<Label>, k: nat, m: State)
    requires Possible(m0, script) && k < |script| && Possible(m0, script[..k]) && m == After(m0, script[..k])
    requires Shape(m)
    ensures Enabled(m, script[k])
    ensures Possible(m0, script[..k + 1]) && After(m0, script[..k + 1]) == Exec(m, script[k])
    ensures Shape(Exec(m, script[k]))
  {
    PrefixPossible(m0, script, k);
    assert script[..k + 1] == script[..k] + [script[k]];
    Snoc(m0, script[..k], script[k]);
    ShapeStep(m, script[k]);
  }

  class EventLoop {
    var sources: seq<Addr>
    var toAdd: seq<Addr>
    var toRemove: seq<Addr>
    var toRetire: seq<Addr>
    var running: bool
    var exitCode: int
    var wakeValid: bool
    var wakeCount: nat
    /** The calls of stop() and how far each has come. */
    ghost var stops: map<Call, Phase>
    ghost var failed: bool

    ghost function Pending(): Queues
      reads this
    {
      Queues(sources, toAdd, toRemove, toRetire)
    }

    ghost function Flags(): Control
      reads this
    {
      Control(running, exitCode, wakeValid, wakeCount, stops, failed)
    }

    ghost predicate Mirrors(m: State)
      reads this
    {
      m.q == Pending() && m.ctl == Flags()
    }

    constructor (eventfdMade: bool)
      ensures Mirrors(Init(eventfdMade))
    {
      sources, toAdd, toRemove, toRetire := [], [], [], [];
      running, exitCode := false, 0;
      wakeValid, wakeCount := eventfdMade, 0;
      stops, failed := map[], false;
    }

    method Wake()
      modifies this`wakeCount
      ensures Flags() == old(Flags()).Wake()
      ensures wakeCount == old(wakeCount) + (if wakeValid && old(wakeCount) < 0xFFFF_FFFF_FFFF_FFFE then 1 else 0)
    {
      if !wakeValid {
        return;
      }
      if wakeCount < EVENTFD_MAX {
        wakeCount := wakeCount + 1;
      }
    }

    method Add(source: Addr)
      modifies this`toAdd, this`wakeCount
      ensures Pending() == old(Pending()).(toAdd := old(toAdd) + [source])
      ensures Flags() == old(Flags()).Wake()
    {
      toAdd := toAdd + [source];
      Wake();
    }

    method Remove(source: Addr)
      modifies this`toRemove, this`wakeCount
      ensures Pending() == old(Pending()).(toRemove := old(toRemove) + [source])
      ensures Flags() == old(Flags()).Wake()
    {
      toRemove := toRemove + [source];
      Wake();
    }

    method Retire(source: Addr)
      modifies this`toRemove, this`toRetire, this`wakeCount
      ensures Pending() == old(Pending()).(toRemove := old(toRemove) + [source], toRetire := old(toRetire) + [source])
      ensures Flags() == old(Flags()).Wake()
    {
      toRemove := toRemove + [source];
      toRetire := toRetire + [source];
      Wake();
    }

    /** The three steps of stop(), one per call of this method, so that other
        steps can come between them. */
    method StopStep(l: Label)
      requires StopLabel(l)
      requires l.StopBegin? || l.call in stops
      modifies this
      ensures Pending() == old(Pending())
      ensures match l
              case StopBegin(call, code) =>
                Flags() == old(Flags()).(exitCode := code, stops := old(stops)[call := Coded(code)])
              case StopFlag(call) =>
                Flags() == old(Flags()).(running := false, stops := old(stops)[call := Flagged(old(stops)[call].code)])
              case StopWake(call) =>
                Flags() == old(Flags()).(stops := old(stops)[call := ByWrite(old(stops)[call])]).Wake()
              case _ => true
    {
      if l.StopBegin? {
        exitCode := l.code;
        stops := stops[l.call := Coded(l.code)];
      } else if l.StopFlag? {
        running := false;
        stops := stops[l.call := Flagged(stops[l.call].code)];
      } else {
        Wake();
        stops := stops[l.call := ByWrite(stops[l.call])];
      }
    }

    /** std::erase on the source list. */
    method EraseSource(source: Addr)
      modifies this`sources
      ensures sources == Without(old(sources), {source})
    {
      var kept: seq<Addr> := [];
      for i := 0 to |sources|
        invariant sources == old(sources)
        invariant kept == Without(sources[..i], {source})
      {
        assert sources[..i + 1][..i] == sources[..i];
        if sources[i] != source {
          kept := kept + [sources[i]];
        }
      }
      assert sources[..|sources|] == sources;
      sources := kept;
    }

    /** The first loop: every requested removal. */
    method RemoveRequested()
      modifies this`sources
      ensures sources == Without(old(sources), Elems(toRemove))
    {
      WithoutNothing(sources, {});
      assert Elems(toRemove[..0]) == {};
      for k := 0 to |toRemove|
        invariant sources == Without(old(sources), Elems(toRemove[..k]))
      {
        EraseSource(toRemove[k]);
        WithoutTwice(old(sources), Elems(toRemove[..k]), {toRemove[k]});
        assert Elems(toRemove[..k + 1]) == Elems(toRemove[..k]) + {toRemove[k]};
      }
      assert toRemove[..|toRemove|] == toRemove;
    }

    /** The second loop: every requested addition that is new and not also
        removed. */
    method AddRequested(ghost before: seq<Addr>)
      requires NoDup(before) && sources == Without(before, Elems(toRemove))
      modifies this`sources
      ensures sources == Settle(before, toAdd, toRemove)
    {
      SettleRemovals(before, toRemove);
      assert toAdd[..0] == [];
      for k := 0 to |toAdd|
        invariant sources == Settle(before, toAdd[..k], toRemove)
      {
        SettleNext(before, toAdd, k, toRemove);
        if toAdd[k] in toRemove {
          continue;
        }
        if toAdd[k] !in sources {
          sources := sources + [toAdd[k]];
        }
      }
      assert toAdd[..|toAdd|] == toAdd;
    }

    /** Settles the source list, empties the three queues and hands back what
        was destroyed. */
    method ApplyPending() returns (destroyed: seq<Addr>)
      requires NoDup(sources)
      modifies this`sources, this`toAdd, this`toRemove, this`toRetire
      ensures Pending() == Queues(Settle(old(sources), old(toAdd), old(toRemove)), [], [], [])
      ensures destroyed == old(toRetire)
    {
      RemoveRequested();
      AddRequested(old(sources));
      toAdd := [];
      toRemove := [];
      destroyed := toRetire;
      toRetire := [];
    }

    /** One label of a callback or of another thread. */
    method Foreign(l: Label, ghost m: State)
      requires Mirrors(m) && Enabled(m, l) && (StopLabel(l) || CallerLabel(l))
      modifies this
      ensures Mirrors(Exec(m, l))
    {
      if l.Add? {
        Add(l.a);
      } else if l.Remove? {
        Remove(l.a);
      } else if l.Retire? {
        Retire(l.a);
      } else if StopLabel(l) {
        StopStep(l);
      }
    }

    /** The script's next label, which is not the loop thread's. */
    method OneForeign(script: seq<Label>, k: nat, ghost m0: State, ghost m: State) returns (ghost m': State)
      requires Possible(m0, script) && k < |script| && Along(m0, script, k, m) && Mirrors(m)
      requires StopLabel(script[k]) || CallerLabel(script[k])
      modifies this
      ensures Along(m0, script, k + 1, m') && Mirrors(m')
      ensures m'.pc == m.pc && m'.snap == m.snap && m'.q.sources == m.q.sources
    {
      NextStep(m0, script, k, m);
      Foreign(script[k], m);
      m' := Exec(m, script[k]);
    }

    /** Everything that others do before the loop thread's next own step: the
        callbacks it is in, if any, and calls of stop(). */
    method Others(script: seq<Label>, from: nat, ghost m0: State, ghost m1: State)
        returns (k: nat, ghost m: State)
      requires Possible(m0, script) && Along(m0, script, from, m1) && Mirrors(m1)
      modifies this
      ensures from <= k && Along(m0, script, k, m) && Mirrors(m)
      ensures m.pc == m1.pc && m.snap == m1.snap && m.q.sources == m1.q.sources
      ensures k < |script| ==> !StopLabel(script[k]) && !CallerLabel(script[k])
    {
      k, m := from, m1;
      while k < |script| && (StopLabel(script[k]) || CallerLabel(script[k]))
        invariant from <= k && Along(m0, script, k, m) && Mirrors(m)
        invariant m.pc == m1.pc && m.snap == m1.snap && m.q.sources == m1.q.sources
      {
        m := OneForeign(script, k, m0, m);
        k := k + 1;
      }
    }

    /** Up to the loop thread's next own step, which is then enabled. */
    method Own(script: seq<Label>, from: nat, ghost m0: State, ghost m1: State) returns (k: nat, ghost m: State)
      requires Possible(m0, script) && Along(m0, script, from, m1) && Mirrors(m1)
      modifies this
      ensures from <= k && Along(m0, script, k, m) && Mirrors(m)
      ensures m.pc == m1.pc && m.snap == m1.snap && m.q.sources == m1.q.sources
      ensures k < |script| ==>
                && !StopLabel(script[k]) && !CallerLabel(script[k]) && Enabled(m, script[k])
                && Along(m0, script, k + 1, Exec(m, script[k]))
    {
      k, m := Others(script, from, m0, m1);
      if k < |script| {
        NextStep(m0, script, k, m);
      }
    }

    /** Reads the wake eventfd until it is empty. */
    method DrainWake(script: seq<Label>, from: nat, wakeReady: bool, ghost m0: State, ghost m1: State)
        returns (k: nat, ghost m: State)
      requires Possible(m0, script) && Along(m0, script, from, m1) && Mirrors(m1)
      requires m1.pc.AtDrain? && wakeReady == m1.snap.At(m1.snap.WakeIndex()).input
      modifies this
      ensures from <= k && Along(m0, script, k, m) && Mirrors(m)
      ensures m.snap == m1.snap && m.q.sources == m1.q.sources
      ensures m.pc.AtDrain?
      ensures k < |script| ==> script[k].Drain? && !(wakeReady && m.ctl.wakeCount > 0)
    {
      k, m := Others(script, from, m0, m1);
      while k < |script| && wakeReady && wakeCount > 0
        invariant from <= k && Along(m0, script, k, m) && Mirrors(m)
        invariant m.pc.AtDrain? && m.snap == m1.snap && m.q.sources == m1.q.sources
        invariant k < |script| ==> !StopLabel(script[k]) && !CallerLabel(script[k])
        decreases |script| - k
      {
        NextStep(m0, script, k, m);
        wakeCount := 0;
        m := Exec(m, script[k]);
        k, m := Others(script, k + 1, m0, m);
      }
      if k < |script| {
        NextStep(m0, script, k, m);
      }
    }

    /** After dispatch() of source i: it is dropped if its descriptor hung up. */
    method Dispatched(i: nat, hangup: bool, ghost m: State)
      requires Mirrors(m) && Enabled(m, DispatchDone)
      requires m.pc == InDispatch(i) && hangup == m.snap.At(m.snap.first + i).hangup
      modifies this
      ensures Mirrors(Exec(m, DispatchDone)) && sources == old(sources)
    {
      if hangup {
        Remove(sources[i]);
      }
    }

    /** The dispatch of one ready source, dropping it afterwards if its
        descriptor hung up. */
    method DispatchOne(script: seq<Label>, from: nat, i: nat, hangup: bool, ghost m0: State, ghost m1: State)
        returns (k: nat, ghost m: State)
      requires Possible(m0, script) && Along(m0, script, from, m1) && Mirrors(m1)
      requires m1.pc == InDispatch(i) && hangup == m1.snap.At(m1.snap.first + i).hangup
      modifies this
      ensures from <= k && Along(m0, script, k, m) && Mirrors(m) && m.snap == m1.snap
      ensures m.pc == AtSource(i + 1) || (k == |script| && (m.pc.AtSource? || m.pc.InDispatch?))
      ensures sources == old(sources)
    {
      k, m := Own(script, from, m0, m1);
      if k == |script| {
        return;
      }
      Dispatched(i, hangup, m);
      m := Exec(m, script[k]);
      k := k + 1;
    }

    /** The test of one source's revents; `dispatch`: it is ready. */
    method Examine(script: seq<Label>, from: nat, i: nat, ready: Revents, ghost m0: State, ghost m1: State)
        returns (k: nat, ghost m: State, dispatch: bool)
      requires Possible(m0, script) && Along(m0, script, from, m1) && Mirrors(m1)
      requires m1.pc == AtSource(i) && i < |sources| && ready == m1.snap.At(m1.snap.first + i)
      modifies this
      ensures from <= k && Along(m0, script, k, m) && Mirrors(m) && m.snap == m1.snap
      ensures (k == |script| && !dispatch && m.pc == AtSource(i)) ||
              (dispatch == ready.Any() && m.pc == if dispatch then InDispatch(i) else AtSource(i + 1))
      ensures sources == old(sources)
    {
      dispatch := false;
      k, m := Own(script, from, m0, m1);
      if k < |script| {
        dispatch := ready.Any();
        m := Exec(m, script[k]);
        k := k + 1;
      }
    }

    /** One look into the poll results: from AtSource(i) to AtSource(i + 1). */
    method LookAt(script: seq<Label>, from: nat, i: nat, ready: Revents, ghost m0: State, ghost m1: State)
        returns (k: nat, ghost m: State, dispatch: bool)
      requires Possible(m0, script) && Along(m0, script, from, m1) && Mirrors(m1)
      requires m1.pc == AtSource(i) && i < |sources| && ready == m1.snap.At(m1.snap.first + i)
      modifies this
      ensures from <= k && Along(m0, script, k, m) && Mirrors(m) && m.snap == m1.snap
      ensures m.pc == AtSource(i + 1) || (k == |script| && (m.pc.AtSource? || m.pc.InDispatch?))
      ensures m.pc == AtSource(i + 1) ==> (dispatch <==> ready != Revents(false, false, false))
      ensures sources == old(sources)
    {
      k, m, dispatch := Examine(script, from, i, ready, m0, m1);
      if dispatch {
        k, m := DispatchOne(script, k, i, ready.hangup, m0, m);
      }
    }

    /** The dispatch pass over the snapshot of the poll results; `called` are the
        sources dispatched, in order. */
    method DispatchReady(script: seq<Label>, from: nat, first: nat, revents: seq<Revents>,
                         ghost m0: State, ghost m1: State)
        returns (k: nat, ghost m: State, called: seq<Addr>)
      requires Possible(m0, script) && Along(m0, script, from, m1) && Mirrors(m1)
      requires m1.pc == AtSource(0) && m1.snap.first == first && m1.snap.revents == revents
      modifies this
      ensures from <= k && Along(m0, script, k, m) && Mirrors(m)
      ensures m.pc.AtCheck? || (k == |script| && (m.pc.AtSource? || m.pc.InDispatch?))
      ensures first + |old(sources)| <= |revents|
      ensures m.pc.AtCheck? ==> called == Due(old(sources), first, revents, |old(sources)|)
    {
      k, m, called := from, m1, [];
      var i := 0;
      while i < |sources|
        invariant from <= k && Along(m0, script, k, m) && Mirrors(m)
        invariant m.pc == AtSource(i) && m.snap == m1.snap
        invariant sources == old(sources) && i <= |sources|
        invariant called == Due(sources, first, revents, i)
      {
        var dispatch;
        k, m, dispatch := LookAt(script, k, i, revents[first + i], m0, m);
        if k == |script| {
          return;
        }
        if dispatch {
          called := called + [sources[i]];
        }
        i := i + 1;
      }
      k, m := EndPass(script, k, m0, m);
    }

    /** The test that ends the pass. */
    method EndPass(script: seq<Label>, from: nat, ghost m0: State, ghost m1: State) returns (k: nat, ghost m: State)
      requires Possible(m0, script) && Along(m0, script, from, m1) && Mirrors(m1)
      requires m1.pc == AtSource(|sources|)
      modifies this
      ensures from <= k && Along(m0, script, k, m) && Mirrors(m)
      ensures m.pc.AtCheck? || (k == |script| && m.pc.AtSource?)
    {
      k, m := Own(script, from, m0, m1);
      if k < |script| {
        m := Exec(m, script[k]);
        k := k + 1;
      }
    }

    /** Builds the poll set; returns where its parts start. */
    method BuildPollSet(eventFd: bool) returns (pfds: seq<Slot>, busEvent: Option<nat>, wake: nat, first: nat)
      ensures pfds == [Bus] + (if eventFd then [BusEvent] else []) + [WakeEvent]
                      + SourceSlots(sources)
      ensures busEvent == (if eventFd then Some(1) else None) && wake == first - 1 && first == FirstSource(eventFd)
    {
      pfds := [Bus];
      busEvent := None;
      if eventFd {
        busEvent := Some(|pfds|);
        pfds := pfds + [BusEvent];
      }
      wake := |pfds|;
      pfds := pfds + [WakeEvent];
      first := |pfds|;
      ghost var head := pfds;
      for i := 0 to |sources|
        invariant pfds == head + SourceSlots(sources[..i])
      {
        assert SourceSlots(sources[..i + 1]) == SourceSlots(sources[..i]) + [SourceAt(sources[i])];
        pfds := pfds + [SourceAt(sources[i])];
      }
      assert sources[..|sources|] == sources;
    }

    /** A test of running_, at the loop condition or after apply_pending(). */
    method Test(script: seq<Label>, from: nat, ghost m0: State, ghost m1: State)
        returns (k: nat, ghost m: State, goOn: bool)
      requires Possible(m0, script) && Along(m0, script, from, m1) && Mirrors(m1)
      requires m1.pc.AtCheck? || m1.pc.AtRecheck?
      modifies this
      ensures from <= k && Along(m0, script, k, m) && Mirrors(m)
      ensures (k == |script| && m.pc == m1.pc) ||
              (from < k && m.pc == if !goOn then AtReturn else if m1.pc.AtCheck? then AtApply else AtBuild)
    {
      k, m := Own(script, from, m0, m1);
      goOn := running;
      if k < |script| {
        m := Exec(m, script[k]);
        k := k + 1;
      }
    }

    /** Builds the poll set of this iteration: slot for slot the machine's. */
    method Prepare(script: seq<Label>, from: nat, ghost m0: State, ghost m1: State)
        returns (k: nat, ghost m: State, pfds: seq<Slot>, busEvent: Option<nat>, wake: nat, first: nat)
      requires Possible(m0, script) && Along(m0, script, from, m1) && Mirrors(m1) && m1.pc.AtBuild?
      modifies this
      ensures from <= k && Along(m0, script, k, m) && Mirrors(m)
      ensures (k == |script| && m.pc.AtBuild?) ||
              (&& m.pc.AtPoll? && pfds == Kinds(m.snap.pfds) && m.snap.first == first
               && busEvent == (if first == 3 then Some(1) else None) && wake == first - 1)
    {
      pfds, busEvent, wake, first := [], None, 0, 0;
      k, m := Own(script, from, m0, m1);
      if k < |script| {
        pfds, busEvent, wake, first := BuildPollSet(script[k].eventFd);
        PollSetKinds(sources, m.mem.heap, script[k].eventFd);
        m := Exec(m, script[k]);
        k := k + 1;
      }
    }

    /** poll() itself, and the handling of its failure. */
    method Wait(script: seq<Label>, from: nat, ghost m0: State, ghost m1: State)
        returns (k: nat, ghost m: State, l: Label)
      requires Possible(m0, script) && Along(m0, script, from, m1) && Mirrors(m1) && m1.pc.AtPoll?
      modifies this
      ensures from <= k && Along(m0, script, k, m) && Mirrors(m)
      ensures (k == |script| && m.pc.AtPoll?) ||
              match l
              case PollInterrupted => m.pc.AtCheck?
              case PollFailed => m.pc.AtReturn?
              case PollReady(revents) =>
                m.pc.AtDrain? && m.snap == m1.snap.(revents := revents) && |revents| == |m1.snap.pfds|
              case _ => false
    {
      l := PollInterrupted;
      k, m := Own(script, from, m0, m1);
      if k < |script| {
        l := script[k];
        if l.PollFailed? {
          exitCode, failed := 1, true;
        }
        m := Exec(m, l);
        k := k + 1;
      }
    }

    /** Builds the poll set and polls it once. */
    method PollOnce(script: seq<Label>, from: nat, ghost m0: State, ghost m1: State)
        returns (k: nat, ghost m: State, pfds: seq<Slot>, busEvent: Option<nat>, wake: nat, first: nat, l: Label)
      requires Possible(m0, script) && Along(m0, script, from, m1) && Mirrors(m1) && m1.pc.AtBuild?
      modifies this
      ensures from <= k && Along(m0, script, k, m) && Mirrors(m)
      ensures (k == |script| && (m.pc.AtBuild? || m.pc.AtPoll?)) ||
              match l
              case PollInterrupted => m.pc.AtCheck?
              case PollFailed => m.pc.AtReturn?
              case PollReady(revents) =>
                && m.pc.AtDrain? && m.snap.first == first && m.snap.revents == revents
                && pfds == Kinds(m.snap.pfds) && |revents| == |pfds|
                && busEvent == (if first == 3 then Some(1) else None) && wake == first - 1
              case _ => false
    {
      l := PollInterrupted;
      k, m, pfds, busEvent, wake, first := Prepare(script, from, m0, m1);
      if k < |script| {
        k, m, l := Wait(script, k, m0, m);
      }
    }

    /** processPendingEvent() until nothing is pending or it throws. */
    method DriveBus(script: seq<Label>, from: nat, ghost m0: State, ghost m1: State)
        returns (k: nat, ghost m: State, again: bool)
      requires Possible(m0, script) && Along(m0, script, from, m1) && Mirrors(m1) && m1.pc.InBus?
      modifies this
      ensures from <= k && Along(m0, script, k, m) && Mirrors(m) && m.snap == m1.snap
      ensures (k == |script| && m.pc.InBus?) || m.pc == if again then AtSource(0) else AtReturn
    {
      again := true;
      k, m := Own(script, from, m0, m1);
      if k < |script| {
        if script[k].BusFailed? {
          exitCode, failed := 1, true;
          again := false;
        }
        m := Exec(m, script[k]);
        k := k + 1;
      }
    }

    /** Drains the wake eventfd and drives D-Bus if it is ready or poll() timed
        out; `driven`: it was, `again` is false after a D-Bus error. */
    method ServeBus(script: seq<Label>, from: nat, revents: seq<Revents>, busEvent: Option<nat>, wake: nat,
                    ghost m0: State, ghost m1: State)
        returns (k: nat, ghost m: State, driven: bool, again: bool)
      requires Possible(m0, script) && Along(m0, script, from, m1) && Mirrors(m1) && m1.pc.AtDrain?
      requires revents == m1.snap.revents && wake == m1.snap.first - 1
      requires busEvent == if m1.snap.first == 3 then Some(1) else None
      modifies this
      ensures from <= k && Along(m0, script, k, m) && Mirrors(m) && m.snap == m1.snap
      ensures (k == |script| && (m.pc.AtDrain? || m.pc.InBus?)) || m.pc == if again then AtSource(0) else AtReturn
      ensures !m.pc.AtDrain? ==>
                (driven <==>
                  || (forall j :: 0 <= j < |revents| ==> revents[j] == Revents(false, false, false))
                  || revents[0] != Revents(false, false, false)
                  || (busEvent.Some? && revents[busEvent.value] != Revents(false, false, false)))
    {
      driven, again := false, true;
      k, m := DrainWake(script, from, revents[wake].input, m0, m1);
      if k == |script| {
        return;
      }
      NextStep(m0, script, k, m);
      var timedOut := forall j :: 0 <= j < |revents| ==> !revents[j].Any();
      driven := timedOut || revents[0].Any() || (busEvent.Some? && revents[busEvent.value].Any());
      assert driven == BusReady(m.snap);
      m := Exec(m, script[k]);
      k := k + 1;
      if driven {
        k, m, again := DriveBus(script, k, m0, m);
      }
    }

    /** From the poll set to the end of the dispatch pass. */
    method Iterate(script: seq<Label>, from: nat, ghost m0: State, ghost m1: State)
        returns (k: nat, ghost m: State, again: bool)
      requires Possible(m0, script) && Along(m0, script, from, m1) && Mirrors(m1) && m1.pc.AtBuild?
      modifies this
      ensures from <= k && Along(m0, script, k, m) && Mirrors(m) && !m.pc.Returned?
      ensures k == |script| || m.pc == if again then AtCheck else AtReturn
    {
      again := true;
      var pfds, busEvent, wake, first, l;
      k, m, pfds, busEvent, wake, first, l := PollOnce(script, from, m0, m1);
      if k == |script| {
        return;
      }
      if l.PollInterrupted? {
        return;
      }
      if l.PollFailed? {
        again := false;
        return;
      }
      var driven, called;
      k, m, driven, again := ServeBus(script, k, l.revents, busEvent, wake, m0, m);
      if k == |script| || !again {
        return;
      }
      k, m, called := DispatchReady(script, k, first, l.revents, m0, m);
    }

    /** apply_pending() at the top of a turn. */
    method Settled(script: seq<Label>, from: nat, ghost m0: State, ghost m1: State)
        returns (k: nat, ghost m: State)
      requires Possible(m0, script) && Along(m0, script, from, m1) && Mirrors(m1) && m1.pc.AtApply?
      modifies this
      ensures from <= k && Along(m0, script, k, m) && Mirrors(m)
      ensures (k == |script| && m.pc.AtApply?) || m.pc.AtRecheck?
    {
      k, m := Own(script, from, m0, m1);
      if k < |script| {
        var destroyed := ApplyPending();
        m := Exec(m, script[k]);
        k := k + 1;
      }
    }

    /** One turn of the loop, from its condition back to it or out of it. */
    method Turn(script: seq<Label>, from: nat, ghost m0: State, ghost m1: State)
        returns (k: nat, ghost m: State, goOn: bool)
      requires Possible(m0, script) && Along(m0, script, from, m1) && Mirrors(m1) && m1.pc.AtCheck?
      modifies this
      ensures from <= k && Along(m0, script, k, m) && Mirrors(m) && !m.pc.Returned?
      ensures k == |script| || (from < k && m.pc == if goOn then AtCheck else AtReturn)
    {
      k, m, goOn := Test(script, from, m0, m1);
      if k == |script| || !goOn {
        return;
      }
      k, m := Settled(script, k, m0, m);
      if k == |script| {
        return;
      }
      k, m, goOn := Test(script, k, m0, m);
      if k == |script| || !goOn {
        return;
      }
      k, m, goOn := Iterate(script, k, m0, m);
    }

    /** run() begins: running_ is raised, whatever stop() did before. */
    method Raise(script: seq<Label>, ghost m0: State) returns (k: nat, ghost m: State)
      requires Possible(m0, script) && m0.pc.Setup? && Shape(m0) && Mirrors(m0)
      modifies this
      ensures Along(m0, script, k, m) && Mirrors(m)
      ensures m.pc.AtCheck? || (k == |script| && m.pc.Setup?)
    {
      k, m := Own(script, 0, m0, m0);
      if k < |script| {
        running := true;
        stops := map c | c in stops :: ByRestart(stops[c]);
        m := Exec(m, script[k]);
        k := k + 1;
      }
    }

    /** run(), for any record of what the rest of the world does: it ends where
        that run ends, or at the return of run(), with the same queues, flags
        and exit code. */
    method Run(script: seq<Label>, ghost m0: State) returns (k: nat, code: Option<int>)
      requires Possible(m0, script) && m0.pc.Setup? && Shape(m0) && Mirrors(m0)
      modifies this
      ensures k <= |script| && Possible(m0, script[..k]) && Mirrors(After(m0, script[..k]))
      ensures var pc := After(m0, script[..k]).pc;
              (k == |script| || pc.Returned?) && code == if pc.Returned? then Some(pc.code) else None
    {
      code := None;
      ghost var m := m0;
      k, m := Raise(script, m0);
      if k == |script| {
        return;
      }
      var goOn := true;
      while goOn
        invariant Along(m0, script, k, m) && Mirrors(m)
        invariant m.pc == if goOn then AtCheck else AtReturn
        decreases |script| - k, goOn
      {
        k, m, goOn := Turn(script, k, m0, m);
        if k == |script| {
          return;
        }
      }
      k, m := Own(script, k, m0, m);
      if k == |script| {
        return;
      }
      code := Some(exitCode);
      m := Exec(m, script[k]);
      k := k + 1;
    }
  }

  ghost predicate Along(m0: State, script: seq<Label>, k: nat, m: State) {
    k <= |script| && Possible(m0, script[..k]) && m == After(m0, script[..k]) && Shape(m)
  }
}
