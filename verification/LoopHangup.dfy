/** A source whose descriptor hung up cannot spin the loop: between two
    dispatches of it with POLLHUP or POLLERR it has been inserted anew. No
    promise of the callers is needed. */
module LoopHangup {
  import opened Seqs
  import opened EventQueues
  import opened LoopProtocol
  import opened LoopMemory

  ghost predicate OneHangupPerInsertion(log: seq<Event>) {
    forall p, q :: 0 <= p < q < |log| && log[p].HungUp? && log[q] == log[p] ==>
      exists r :: p < r < q && log[r] == Inserted(log[p].addr)
  }

  /** Hang-ups of `a` since it was last inserted. */
  function Hangups(log: seq<Event>, a: Addr): nat {
    if log == [] then 0 else
    var front, last := log[..|log| - 1], log[|log| - 1];
    if last == Inserted(a) then 0
    else if last == HungUp(a) then Hangups(front, a) + 1
    else Hangups(front, a)
  }

  lemma {:induction false} HangupsConcat(log: seq<Event>, more: seq<Event>, a: Addr)
    requires HungUp(a) !in more
    ensures Hangups(log + more, a) == if Inserted(a) in more then 0 else Hangups(log, a)
  {
    if more == [] {
      assert log + more == log;
    } else {
      var front, last := more[..|more| - 1], more[|more| - 1];
      assert more == front + [last];
      HangupsConcat(log, front, a);
      assert (log + more)[..|log + more| - 1] == log + front;
    }
  }

  lemma {:induction false} NoneMeansReinserted(log: seq<Event>, a: Addr, p: nat)
    requires p < |log| && log[p] == HungUp(a) && Hangups(log, a) == 0
    ensures exists r :: p < r < |log| && log[r] == Inserted(a)
  {
    var front, last := log[..|log| - 1], log[|log| - 1];
    if last != Inserted(a) {
      NoneMeansReinserted(front, a, p);
      var r :| p < r < |front| && front[r] == Inserted(a);
      assert log[r] == Inserted(a);
    } else {
      assert p < |log| - 1;
    }
  }

  lemma HangupAppended(log: seq<Event>, more: seq<Event>)
    requires OneHangupPerInsertion(log)
    requires more == [] || (|more| == 1 && (more[0].HungUp? ==> Hangups(log, more[0].addr) == 0))
    ensures OneHangupPerInsertion(log + more)
  {
    var all := log + more;
    forall p, q | 0 <= p < q < |all| && all[p].HungUp? && all[q] == all[p]
      ensures exists r :: p < r < q && all[r] == Inserted(all[p].addr)
    {
      if q < |log| {
        assert log[p] == all[p] && log[q] == all[q];
        var r :| p < r < q && log[r] == Inserted(log[p].addr);
        assert all[r] == log[r];
      } else {
        NoneMeansReinserted(log, all[p].addr, p);
        var r :| p < r < |log| && log[r] == Inserted(all[p].addr);
        assert all[r] == log[r];
      }
    }
  }

  lemma {:induction false} QuietAppended(log: seq<Event>, more: seq<Event>)
    requires OneHangupPerInsertion(log) && forall e :: e in more ==> !e.HungUp?
    ensures OneHangupPerInsertion(log + more)
  {
    if more == [] {
      assert log + more == log;
    } else {
      var front, last := more[..|more| - 1], more[|more| - 1];
      assert more == front + [last];
      QuietAppended(log, front);
      HangupAppended(log + front, [last]);
      assert log + more == log + front + [last];
    }
  }

  /** `a` has had its hang-up and will leave at the next round, or is just
      having it. */
  predicate Spent(s: State, a: Addr) {
    match s.pc
    case AtCheck => a in s.q.toRemove
    case AtApply => a in s.q.toRemove
    case AtSource(i) => i <= |s.q.sources| && a in s.q.sources[..i] && a in s.q.toRemove
    case InDispatch(i) =>
      i < |s.q.sources| &&
      ((a in s.q.sources[..i] && a in s.q.toRemove) || (a == s.q.sources[i] && s.snap.At(s.snap.first + i).hangup))
    case AtReturn => a in s.q.toRemove
    case Returned(_) => a in s.q.toRemove
    case _ => false
  }

  ghost predicate Calm(s: State) {
    && Shape(s)
    && OneHangupPerInsertion(s.log)
    && forall a :: CalmAt(s, a)
  }

  ghost predicate CalmAt(s: State, a: Addr) {
    Hangups(s.log, a) <= 1 && (Hangups(s.log, a) == 1 && a in s.q.sources ==> Spent(s, a))
  }

  lemma ApplyKeepsCalm(s: State)
    requires Calm(s) && s.pc.AtApply?
    ensures Calm(Exec(s, Apply))
  {
    ShapeStep(s, Apply);
    var s' := Exec(s, Apply);
    var ins := Insertions(s'.q.sources, s.q.sources);
    var del := Deletions(s.q.toRetire, s.mem.heap);
    QuietAppended(s.log, ins);
    QuietAppended(s.log + ins, del);
    SettleIsSetUpdate(s.q.sources, s.q.toAdd, s.q.toRemove);
    var added := Without(s'.q.sources, Elems(s.q.sources));
    WithoutElems(s'.q.sources, Elems(s.q.sources));
    forall a ensures CalmAt(s', a) {
      assert CalmAt(s, a);
      HangupsConcat(s.log, ins, a);
      HangupsConcat(s.log + ins, del, a);
      if a in s'.q.sources {
        assert a in Elems(s'.q.sources);
        if a !in s.q.sources {
          assert a in Elems(added);
          var k :| 0 <= k < |added| && added[k] == a;
          assert ins[k] == Inserted(a);
        }
      }
    }
  }

  /** The log entries of one dispatch of `a`. */
  lemma DispatchLogged(log: seq<Event>, a: Addr, use: Event, hangup: bool)
    requires OneHangupPerInsertion(log) && Hangups(log, a) == 0 && use.Use?
    ensures var log' := log + [use] + (if hangup then [HungUp(a)] else []);
            && OneHangupPerInsertion(log')
            && forall b :: Hangups(log', b) == if hangup && b == a then 1 else Hangups(log, b)
  {
    var used := log + [use];
    QuietAppended(log, [use]);
    forall b ensures Hangups(used, b) == Hangups(log, b) {
      HangupsConcat(log, [use], b);
    }
    if hangup {
      HangupAppended(used, [HungUp(a)]);
      assert (used + [HungUp(a)])[..|used|] == used;
    } else {
      assert used + [] == used;
    }
  }

  /** Source i is ready: it is dispatched. */
  predicate Ready(s: State) {
    s.pc.AtSource? && s.pc.i < |s.q.sources| && s.snap.At(s.snap.first + s.pc.i).Any()
  }

  lemma NotYetSpent(s: State)
    requires Calm(s) && Ready(s)
    ensures Hangups(s.log, s.q.sources[s.pc.i]) == 0
  {
    var a := s.q.sources[s.pc.i];
    assert a !in s.q.sources[..s.pc.i];
    assert CalmAt(s, a);
  }

  lemma DispatchKeepsCalm(s: State)
    requires Calm(s) && Ready(s)
    ensures Calm(Exec(s, Source))
  {
    ShapeStep(s, Source);
    NotYetSpent(s);
    var a, hangup := s.q.sources[s.pc.i], s.snap.At(s.snap.first + s.pc.i).hangup;
    DispatchLogged(s.log, a, UseOf(s.mem, a), hangup);
    var s' := Exec(s, Source);
    assert s'.log == s.log + [UseOf(s.mem, a)] + (if hangup then [HungUp(a)] else []);
    forall b ensures CalmAt(s', b) {
      assert CalmAt(s, b);
      assert Hangups(s'.log, b) == if hangup && b == a then 1 else Hangups(s.log, b);
    }
  }

  lemma SkipKeepsCalm(s: State)
    requires Calm(s) && s.pc.AtSource? && !Ready(s)
    ensures Calm(Exec(s, Source))
  {
    ShapeStep(s, Source);
    if s.pc.i < |s.q.sources| {
      assert s.q.sources[..s.pc.i + 1] == s.q.sources[..s.pc.i] + [s.q.sources[s.pc.i]];
    }
    StillCalm(s, Exec(s, Source));
  }

  /** Nothing of note happened, and who was spent still is. */
  lemma StillCalm(s: State, s': State)
    requires Calm(s) && Shape(s') && OneHangupPerInsertion(s'.log)
    requires forall a :: Hangups(s'.log, a) == Hangups(s.log, a)
    requires forall a :: a in s'.q.sources && Spent(s, a) ==> Spent(s', a)
    requires forall a :: a in s'.q.sources ==> a in s.q.sources
    ensures Calm(s')
  {
    forall a ensures CalmAt(s', a) {
      assert CalmAt(s, a);
    }
  }

  lemma QuietEvents(log: seq<Event>, more: seq<Event>)
    requires OneHangupPerInsertion(log) && forall e :: e in more ==> !e.HungUp? && !e.Inserted?
    ensures OneHangupPerInsertion(log + more) && forall a :: Hangups(log + more, a) == Hangups(log, a)
  {
    QuietAppended(log, more);
    forall a ensures Hangups(log + more, a) == Hangups(log, a) {
      HangupsConcat(log, more, a);
    }
  }

  lemma QuietKeepsCalm(s: State, l: Label)
    requires Calm(s) && Enabled(s, l) && (l.Build? || l.Free? || l.Teardown?)
    ensures Calm(Exec(s, l))
  {
    ShapeStep(s, l);
    match l {
      case Build(_) => QuietEvents(s.log, Uses(s.q.sources, s.mem));
      case Free(a) => QuietEvents(s.log, [Destroyed(a, OidAt(s.mem.heap, a))]);
      case Teardown => QuietEvents(s.log, Deletions(s.q.toRetire, s.mem.heap));
    }
    StillCalm(s, Exec(s, l));
  }

  lemma DispatchDoneKeepsCalm(s: State)
    requires Calm(s) && Enabled(s, DispatchDone)
    ensures Calm(Exec(s, DispatchDone))
  {
    ShapeStep(s, DispatchDone);
    assert s.q.sources[..s.pc.i + 1] == s.q.sources[..s.pc.i] + [s.q.sources[s.pc.i]];
    StillCalm(s, Exec(s, DispatchDone));
  }

  lemma CalmStep(s: State, l: Label)
    requires Calm(s) && Enabled(s, l)
    ensures Calm(Exec(s, l))
  {
    if l.Apply? {
      ApplyKeepsCalm(s);
    } else if l.Source? {
      if Ready(s) {
        DispatchKeepsCalm(s);
      } else {
        SkipKeepsCalm(s);
      }
    } else if l.Build? || l.Free? || l.Teardown? {
      QuietKeepsCalm(s, l);
    } else if l.DispatchDone? {
      DispatchDoneKeepsCalm(s);
    } else {
      ShapeStep(s, l);
      StillCalm(s, Exec(s, l));
    }
  }

  /** In every possible run each insertion of a source is followed by at most
      one dispatch of it whose revents contain POLLHUP or POLLERR. */
  lemma {:induction false} HangupsDoNotSpin(valid: bool, ls: seq<Label>)
    requires Possible(Init(valid), ls)
    ensures Calm(After(Init(valid), ls))
    ensures OneHangupPerInsertion(After(Init(valid), ls).log)
  {
    if ls != [] {
      HangupsDoNotSpin(valid, ls[..|ls| - 1]);
      CalmStep(After(Init(valid), ls[..|ls| - 1]), ls[|ls| - 1]);
    }
  }

  /** What counts as an insertion: one round inserts exactly the sources that were not
      in sources_ before. */
  lemma InsertionsIff(s: State, a: Addr)
    requires s.pc.AtApply?
    ensures Inserted(a) in Exec(s, Apply).log[|s.log|..] <==> a in Exec(s, Apply).q.sources && a !in s.q.sources
  {
    var s' := Exec(s, Apply);
    var added := Without(s'.q.sources, Elems(s.q.sources));
    var ins, del := Insertions(s'.q.sources, s.q.sources), Deletions(s.q.toRetire, s.mem.heap);
    assert s'.log == s.log + (ins + del);
    assert s'.log[|s.log|..] == ins + del;
    WithoutElems(s'.q.sources, Elems(s.q.sources));
    assert a in added <==> a in Elems(added);
    if a in added {
      var k :| 0 <= k < |added| && added[k] == a;
      assert ins[k] == Inserted(a);
    }
  }
}
