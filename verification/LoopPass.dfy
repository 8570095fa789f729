/** What one iteration does with the results of poll(), said on the three bits of
    revents: which sources are dispatched, which leave, and when D-Bus is driven. */
module LoopPass {
  import opened Seqs
  import opened EventQueues
  import opened LoopProtocol
  import opened LoopMemory

  // ---- Dispatching ------------------------------------------------------------------

  /** The first n sources for which poll() reported anything, in order. */
  function Due(sources: seq<Addr>, first: nat, revents: seq<Revents>, n: nat): seq<Addr>
    requires n <= |sources| && first + |sources| <= |revents|
  {
    if n == 0 then []
    else
      Due(sources, first, revents, n - 1)
      + (if revents[first + n - 1] == Revents(false, false, false) then [] else [sources[n - 1]])
  }

  /** The objects on which the loop called something, in order. */
  function Called(log: seq<Event>): seq<Addr> {
    if log == [] then []
    else
      var last := log[|log| - 1];
      Called(log[..|log| - 1]) + (if last.Use? then [last.addr] else [])
  }

  lemma CalledOne(log: seq<Event>, e: Event)
    ensures Called(log + [e]) == Called(log) + (if e.Use? then [e.addr] else [])
  {
    assert (log + [e])[..|log|] == log;
  }

  lemma {:induction false} CalledUses(log: seq<Event>, sources: seq<Addr>, m: Memory)
    ensures Called(log + Uses(sources, m)) == Called(log) + sources
  {
    if sources == [] {
      assert log + [] == log && Called(log) + [] == Called(log);
    } else {
      var front, last := sources[..|sources| - 1], sources[|sources| - 1];
      CalledUses(log, front, m);
      assert log + Uses(sources, m) == (log + Uses(front, m)) + [UseOf(m, last)];
      CalledOne(log + Uses(front, m), UseOf(m, last));
      assert Called(log) + front + [last] == Called(log) + (front + [last]) && front + [last] == sources;
    }
  }

  /** Building the poll set asks every source, in order, for its descriptor and events. */
  lemma BuildAsksEverySource(s: State, eventFd: bool)
    requires s.pc.AtBuild?
    ensures Called(Exec(s, Build(eventFd)).log) == Called(s.log) + s.q.sources
  {
    CalledUses(s.log, s.q.sources, s.mem);
  }

  /** Labels that do not leave the dispatch pass. */
  predicate PassLabel(l: Label) { l.Source? || l.DispatchDone? || CallerLabel(l) || StopLabel(l) }

  /** How many sources have been looked at. */
  function LookedAt(s: State): nat {
    match s.pc
    case AtSource(i) => i
    case InDispatch(i) => i + 1
    case _ => |s.q.sources|
  }

  /** The pass that began with `log` and this poll set has come this far. */
  ghost predicate Passing(s: State, sources: seq<Addr>, snap: Snapshot, log: seq<Event>) {
    && Shape(s) && (s.pc.AtSource? || s.pc.InDispatch? || s.pc.AtCheck?)
    && s.q.sources == sources && s.snap == snap && snap.first + |sources| <= |snap.revents|
    && LookedAt(s) <= |sources|
    && Called(s.log) == Called(log) + Due(sources, snap.first, snap.revents, LookedAt(s))
  }

  /** Sources seen to hang up so far, except the one still in its dispatch(), are
      asked to leave. */
  ghost predicate Leaving(s: State) {
    forall i :: 0 <= i < |s.q.sources| && i < LookedAt(s) && s.snap.At(s.snap.first + i).hangup ==>
      s.q.sources[i] in s.q.toRemove || s.pc == InDispatch(i)
  }

  /** The look at source i: what it makes of the bits reported. */
  lemma SourceLooks(s: State, i: nat)
    requires s.pc == AtSource(i) && i < |s.q.sources| && s.snap.first + i < |s.snap.revents|
    ensures var bits, s', use := s.snap.revents[s.snap.first + i], Exec(s, Source), UseOf(s.mem, s.q.sources[i]);
            if bits == Revents(false, false, false) then s' == s.(pc := AtSource(i + 1))
            else s' == s.(pc := InDispatch(i),
                          log := s.log + [use] + (if bits.hangup then [HungUp(s.q.sources[i])] else []))
  {
  }

  lemma CalledInDispatch(log: seq<Event>, m: Memory, a: Addr, hangup: bool)
    ensures Called(log + [UseOf(m, a)] + (if hangup then [HungUp(a)] else [])) == Called(log) + [a]
  {
    CalledOne(log, UseOf(m, a));
    if hangup {
      CalledOne(log + [UseOf(m, a)], HungUp(a));
    } else {
      assert log + [UseOf(m, a)] + [] == log + [UseOf(m, a)];
    }
  }

  lemma DueNext(sources: seq<Addr>, first: nat, revents: seq<Revents>, i: nat)
    requires i < |sources| && first + |sources| <= |revents|
    ensures Due(sources, first, revents, i + 1) == Due(sources, first, revents, i)
              + (if revents[first + i] == Revents(false, false, false) then [] else [sources[i]])
  {
  }

  lemma Passed(s: State, s': State, sources: seq<Addr>, snap: Snapshot, log: seq<Event>, i: nat, called: seq<Addr>)
    requires Passing(s, sources, snap, log) && s.pc == AtSource(i) && i < |sources|
    requires Shape(s') && s'.q == s.q && s'.snap == s.snap && (s'.pc == AtSource(i + 1) || s'.pc == InDispatch(i))
    requires called == if snap.revents[snap.first + i] == Revents(false, false, false) then [] else [sources[i]]
    requires Called(s'.log) == Called(s.log) + called
    ensures Passing(s', sources, snap, log)
  {
    CalledNext(Called(s.log), Called(log), sources, snap.first, snap.revents, i, called);
    CalledSoFar(s', sources, snap, log, i + 1);
  }

  lemma CalledNext(soFar: seq<Addr>, before: seq<Addr>, sources: seq<Addr>, first: nat, revents: seq<Revents>,
                   i: nat, called: seq<Addr>)
    requires i < |sources| && first + |sources| <= |revents|
    requires called == if revents[first + i] == Revents(false, false, false) then [] else [sources[i]]
    requires soFar == before + Due(sources, first, revents, i)
    ensures soFar + called == before + Due(sources, first, revents, i + 1)
  {
    DueNext(sources, first, revents, i);
    Associative(before, Due(sources, first, revents, i), called);
  }

  lemma Associative<T>(a: seq<T>, b: seq<T>, c: seq<T>)
    ensures (a + b) + c == a + (b + c)
  {
  }

  lemma CalledSoFar(s: State, sources: seq<Addr>, snap: Snapshot, log: seq<Event>, n: nat)
    requires Shape(s) && s.q.sources == sources && s.snap == snap && snap.first + |sources| <= |snap.revents|
    requires n <= |sources| && LookedAt(s) == n && (s.pc.AtSource? || s.pc.InDispatch?)
    requires Called(s.log) == Called(log) + Due(sources, snap.first, snap.revents, n)
    ensures Passing(s, sources, snap, log)
  {
  }

  lemma LookStep(s: State, sources: seq<Addr>, snap: Snapshot, log: seq<Event>)
    requires Passing(s, sources, snap, log) && s.pc.AtSource? && s.pc.i < |sources|
    ensures Passing(Exec(s, Source), sources, snap, log)
  {
    ShapeStep(s, Source);
    var i := s.pc.i;
    SourceLooks(s, i);
    if snap.revents[snap.first + i] == Revents(false, false, false) {
      assert Called(s.log) + [] == Called(s.log);
      Passed(s, Exec(s, Source), sources, snap, log, i, []);
    } else {
      CalledInDispatch(s.log, s.mem, sources[i], snap.revents[snap.first + i].hangup);
      Passed(s, Exec(s, Source), sources, snap, log, i, [sources[i]]);
    }
  }

  lemma LookLeaves(s: State)
    requires Leaving(s) && s.pc.AtSource? && s.pc.i < |s.q.sources| && s.snap.first + s.pc.i < |s.snap.revents|
    ensures Leaving(Exec(s, Source))
  {
    SourceLooks(s, s.pc.i);
  }

  lemma SourceStep(s: State, sources: seq<Addr>, snap: Snapshot, log: seq<Event>)
    requires Passing(s, sources, snap, log) && Leaving(s) && s.pc.AtSource?
    ensures Passing(Exec(s, Source), sources, snap, log) && Leaving(Exec(s, Source))
  {
    if s.pc.i < |sources| {
      LookStep(s, sources, snap, log);
      LookLeaves(s);
    } else {
      ShapeStep(s, Source);
    }
  }

  /** The return of dispatch(): a source that hung up is asked to leave, and the loop is
      woken for it. */
  lemma DispatchReturns(s: State, i: nat)
    requires s.pc == InDispatch(i) && i < |s.q.sources| && s.snap.first + i < |s.snap.revents|
    ensures var s', a := Exec(s, DispatchDone), s.q.sources[i];
            if s.snap.revents[s.snap.first + i].hangup
            then s' == s.(pc := AtSource(i + 1), q := s.q.(toRemove := s.q.toRemove + [a]), ctl := s'.ctl)
                 && s'.ctl == s.ctl.(wakeCount := s'.ctl.wakeCount)
                 && (s.ctl.wakeValid && s.ctl.wakeCount < 0xFFFF_FFFF_FFFF_FFFE ==>
                       s'.ctl.wakeCount == s.ctl.wakeCount + 1)
            else s' == s.(pc := AtSource(i + 1))
  {
  }

  lemma DoneStep(s: State, sources: seq<Addr>, snap: Snapshot, log: seq<Event>)
    requires Passing(s, sources, snap, log) && Leaving(s) && Enabled(s, DispatchDone)
    ensures Passing(Exec(s, DispatchDone), sources, snap, log) && Leaving(Exec(s, DispatchDone))
  {
    ShapeStep(s, DispatchDone);
  }

  /** Nothing the pass looks at has changed. */
  lemma StillPassing(s: State, s': State, sources: seq<Addr>, snap: Snapshot, log: seq<Event>)
    requires Passing(s, sources, snap, log) && Leaving(s) && Shape(s')
    requires s'.pc == s.pc && s'.snap == s.snap && s'.q.sources == s.q.sources && Called(s'.log) == Called(s.log)
    requires s.q.toRemove <= s'.q.toRemove
    ensures Passing(s', sources, snap, log) && Leaving(s')
  {
  }

  lemma OthersLeaveIt(s: State, l: Label)
    requires Enabled(s, l) && (CallerLabel(l) || StopLabel(l))
    ensures var s' := Exec(s, l);
            && s'.pc == s.pc && s'.snap == s.snap && s'.q.sources == s.q.sources && s.q.toRemove <= s'.q.toRemove
            && (s'.log == s.log || (l.Free? && s'.log == s.log + [Destroyed(l.a, OidAt(s.mem.heap, l.a))]))
  {
  }

  lemma OthersStep(s: State, l: Label, sources: seq<Addr>, snap: Snapshot, log: seq<Event>)
    requires Passing(s, sources, snap, log) && Leaving(s)
    requires Enabled(s, l) && (CallerLabel(l) || StopLabel(l))
    ensures Passing(Exec(s, l), sources, snap, log) && Leaving(Exec(s, l))
  {
    ShapeStep(s, l);
    OthersLeaveIt(s, l);
    if l.Free? {
      CalledOne(s.log, Destroyed(l.a, OidAt(s.mem.heap, l.a)));
    }
    StillPassing(s, Exec(s, l), sources, snap, log);
  }

  lemma {:induction false} PassKeeps(s: State, ls: seq<Label>)
    requires Shape(s) && s.pc == AtSource(0) && Possible(s, ls)
    requires forall n :: 0 <= n < |ls| ==> PassLabel(ls[n])
    ensures Passing(After(s, ls), s.q.sources, s.snap, s.log) && Leaving(After(s, ls))
  {
    if ls == [] {
      assert Called(s.log) + [] == Called(s.log);
    } else {
      var front, l := ls[..|ls| - 1], ls[|ls| - 1];
      PassKeeps(s, front);
      assert PassLabel(l);
      PassStep(After(s, front), l, s.q.sources, s.snap, s.log);
    }
  }

  lemma PassStep(s: State, l: Label, sources: seq<Addr>, snap: Snapshot, log: seq<Event>)
    requires Passing(s, sources, snap, log) && Leaving(s) && Enabled(s, l) && PassLabel(l)
    ensures Passing(Exec(s, l), sources, snap, log) && Leaving(Exec(s, l))
  {
    if l.Source? {
      SourceStep(s, sources, snap, log);
    } else if l.DispatchDone? {
      DoneStep(s, sources, snap, log);
    } else {
      OthersStep(s, l, sources, snap, log);
    }
  }

  /** Over a completed pass, whatever callbacks and other threads do: dispatch() is
      called exactly once, in order, on exactly the sources for which poll() reported
      anything, and every source that hung up is asked to leave. */
  lemma PassDispatchesWhatIsDue(s: State, ls: seq<Label>)
    requires Shape(s) && s.pc == AtSource(0) && Possible(s, ls) && After(s, ls).pc.AtCheck?
    requires forall n :: 0 <= n < |ls| ==> PassLabel(ls[n])
    ensures s.snap.first + |s.q.sources| <= |s.snap.revents|
    ensures Called(After(s, ls).log) ==
              Called(s.log) + Due(s.q.sources, s.snap.first, s.snap.revents, |s.q.sources|)
    ensures forall i :: 0 <= i < |s.q.sources| && s.snap.revents[s.snap.first + i].hangup ==>
              s.q.sources[i] in After(s, ls).q.toRemove
  {
    PassKeeps(s, ls);
    PassEnds(After(s, ls), s.q.sources, s.snap, s.log);
  }

  lemma PassEnds(s: State, sources: seq<Addr>, snap: Snapshot, log: seq<Event>)
    requires Passing(s, sources, snap, log) && Leaving(s) && s.pc.AtCheck?
    ensures Called(s.log) == Called(log) + Due(sources, snap.first, snap.revents, |sources|)
    ensures forall i :: 0 <= i < |sources| && snap.revents[snap.first + i].hangup ==> sources[i] in s.q.toRemove
  {
  }

  lemma StaysAsked(s: State, l: Label, a: Addr)
    requires a in s.q.toRemove && Enabled(s, l) && !l.Apply? && !l.Teardown?
    ensures a in Exec(s, l).q.toRemove
  {
  }

  lemma {:induction false} AskedUntilApply(s: State, ls: seq<Label>, a: Addr)
    requires a in s.q.toRemove && Possible(s, ls)
    requires forall n :: 0 <= n < |ls| ==> !ls[n].Apply? && !ls[n].Teardown?
    ensures a in After(s, ls).q.toRemove
  {
    if ls != [] {
      AskedUntilApply(s, ls[..|ls| - 1], a);
      StaysAsked(After(s, ls[..|ls| - 1]), ls[|ls| - 1], a);
    }
  }

  lemma AppliedLeaves(s: State, a: Addr)
    requires a in s.q.toRemove && s.pc.AtApply?
    ensures a !in Exec(s, Apply).q.sources
  {
    SettleIsSetUpdate(s.q.sources, s.q.toAdd, s.q.toRemove);
    assert a in Elems(s.q.toRemove);
    assert a !in Elems(Exec(s, Apply).q.sources);
  }

  /** What was asked to leave is out of sources_ after the next apply_pending. */
  lemma AskedLeaves(s: State, ls: seq<Label>, a: Addr)
    requires a in s.q.toRemove && Possible(s, ls + [Apply])
    requires forall n :: 0 <= n < |ls| ==> !ls[n].Apply? && !ls[n].Teardown?
    ensures a !in After(s, ls + [Apply]).q.sources
  {
    assert (ls + [Apply])[..|ls|] == ls;
    AskedUntilApply(s, ls, a);
    AppliedLeaves(After(s, ls), a);
  }

  // ---- D-Bus ------------------------------------------------------------------------

  /** poll() timed out, or reported something for the D-Bus descriptor or for its
      eventFd, which has the second slot if it is polled at all. */
  predicate BusDue(first: nat, revents: seq<Revents>) {
    || (forall k :: 0 <= k < |revents| ==> revents[k] == Revents(false, false, false))
    || (0 < |revents| && revents[0] != Revents(false, false, false))
    || (first == 3 && 1 < |revents| && revents[1] != Revents(false, false, false))
  }

  predicate ServesBus(l: Label) { l.BusDone? || l.BusFailed? }

  /** Labels between poll() and the dispatch pass. */
  predicate BusPhaseLabel(l: Label) { l.Drain? || ServesBus(l) || CallerLabel(l) || StopLabel(l) }

  predicate Served(ls: seq<Label>) {
    ls != [] && (ServesBus(ls[|ls| - 1]) || Served(ls[..|ls| - 1]))
  }

  /** D-Bus met an error. */
  predicate BusBroke(ls: seq<Label>) {
    ls != [] && (ls[|ls| - 1].BusFailed? || BusBroke(ls[..|ls| - 1]))
  }

  /** D-Bus has been driven exactly if it was to be, and an error leads out of the loop. */
  predicate BusPhase(s: State, first: nat, revents: seq<Revents>, served: bool, broke: bool) {
    && s.snap.first == first && s.snap.revents == revents
    && match s.pc
       case AtDrain => !served && !broke
       case InBus => !served && !broke && BusDue(first, revents)
       case AtSource(i) => i == 0 && !broke && (served <==> BusDue(first, revents))
       case AtReturn => served && broke && BusDue(first, revents)
       case _ => false
  }

  lemma DrainStep(s: State, first: nat, revents: seq<Revents>)
    requires BusPhase(s, first, revents, false, false) && s.pc.AtDrain?
    ensures BusPhase(Exec(s, Drain), first, revents, false, false)
  {
  }

  lemma BusStep(s: State, l: Label, first: nat, revents: seq<Revents>, served: bool, broke: bool)
    requires BusPhase(s, first, revents, served, broke) && Enabled(s, l) && BusPhaseLabel(l)
    ensures BusPhase(Exec(s, l), first, revents, served || ServesBus(l), broke || l.BusFailed?)
  {
    if l.Drain? {
      DrainStep(s, first, revents);
    }
  }

  lemma {:induction false} BusKeeps(s: State, ls: seq<Label>)
    requires s.pc.AtDrain? && Possible(s, ls) && forall n :: 0 <= n < |ls| ==> BusPhaseLabel(ls[n])
    ensures BusPhase(After(s, ls), s.snap.first, s.snap.revents, Served(ls), BusBroke(ls))
  {
    if ls != [] {
      var front, l := ls[..|ls| - 1], ls[|ls| - 1];
      BusKeeps(s, front);
      assert BusPhaseLabel(l);
      BusStep(After(s, front), l, s.snap.first, s.snap.revents, Served(front), BusBroke(front));
    }
  }

  /** Between poll() and the first look at a source, D-Bus is driven if and only if
      poll() timed out or reported something for one of its descriptors; the pass over
      the sources follows unless it met an error, which leads out of the loop. */
  lemma BusIsDrivenIffDue(s: State, ls: seq<Label>)
    requires s.pc.AtDrain? && Possible(s, ls) && forall n :: 0 <= n < |ls| ==> BusPhaseLabel(ls[n])
    requires After(s, ls).pc.AtSource? || After(s, ls).pc.AtReturn?
    ensures Served(ls) <==> BusDue(s.snap.first, s.snap.revents)
    ensures After(s, ls).pc == if BusBroke(ls) then AtReturn else AtSource(0)
  {
    BusKeeps(s, ls);
  }
}
