/** Object lifetimes under the event loop: in every lawful run the loop touches
    and destroys only live objects, whatever callbacks add, remove and retire. */
module LoopMemory {
  import opened Seqs
  import opened EventQueues
  import opened LoopProtocol

  // ---- The poll set matches sources_ ----------------------------------------

  predicate Polling(pc: Pc) {
    pc.AtPoll? || Polled(pc)
  }

  predicate Polled(pc: Pc) {
    pc.AtDrain? || pc.InBus? || pc.AtSource? || pc.InDispatch?
  }

  /** The slot of source i in the poll set was built from source i. */
  ghost predicate Aligned(q: Queues, snap: Snapshot) {
    Slots(q.sources, snap.pfds, snap.first)
  }

  ghost predicate Slots(sources: seq<Addr>, pfds: seq<PollFd>, first: nat) {
    && (first == 2 || first == 3)
    && |pfds| == first + |sources|
    && forall i {:trigger sources[i]} :: 0 <= i < |sources| ==>
         pfds[first + i].SourceFd? && pfds[first + i].addr == sources[i]
  }

  /** Holds in every possible run, even if callers break the contract. */
  ghost predicate Shape(s: State) {
    && NoDup(s.q.sources)
    && (Polling(s.pc) ==> Aligned(s.q, s.snap))
    && (Polled(s.pc) ==> |s.snap.revents| == |s.snap.pfds|)
    && (s.pc.AtSource? ==> s.pc.i <= |s.q.sources|)
    && (s.pc.InDispatch? ==> s.pc.i < |s.q.sources|)
  }

  lemma PollSetAligned(q: Queues, heap: map<Addr, Oid>, eventFd: bool, snap: Snapshot)
    requires snap.pfds == PollSet(q.sources, heap, eventFd) && snap.first == FirstSource(eventFd)
    ensures Aligned(q, snap)
    ensures forall i {:trigger q.sources[i]} :: 0 <= i < |q.sources| ==>
              snap.pfds[snap.first + i] == SourceFd(q.sources[i], OidAt(heap, q.sources[i]))
  {
    var head := [BusFd] + (if eventFd then [BusEventFd] else []) + [WakeFd];
    assert |head| == snap.first && snap.pfds[|head|..] == snap.pfds[snap.first..];
    forall i | 0 <= i < |q.sources|
      ensures snap.pfds[snap.first + i] == SourceFd(q.sources[i], OidAt(heap, q.sources[i]))
    {
    }
  }

  lemma ShapeAfterBuild(s: State, l: Label)
    requires Shape(s) && s.pc.AtBuild? && l.Build?
    ensures Shape(Exec(s, l))
  {
  }

  lemma AlignedStays(q: Queues, snap: Snapshot, q': Queues, snap': Snapshot)
    requires q'.sources == q.sources && snap'.pfds == snap.pfds && snap'.first == snap.first
    ensures Aligned(q, snap) ==> Aligned(q', snap')
  {
  }

  lemma ShapeWhilePolling(s: State, l: Label)
    requires Shape(s) && Enabled(s, l) && Polling(s.pc)
    ensures Shape(Exec(s, l))
  {
    var s' := Exec(s, l);
    AlignedStays(s.q, s.snap, s'.q, s'.snap);
  }

  lemma ShapeStep(s: State, l: Label)
    requires Shape(s) && Enabled(s, l)
    ensures Shape(Exec(s, l))
  {
    if l.Apply? {
      SettleIsSetUpdate(s.q.sources, s.q.toAdd, s.q.toRemove);
    } else if l.Build? {
      ShapeAfterBuild(s, l);
    } else if Polling(s.pc) {
      ShapeWhilePolling(s, l);
    }
  }

  lemma {:induction false} ShapeHolds(valid: bool, ls: seq<Label>)
    requires Possible(Init(valid), ls)
    ensures Shape(After(Init(valid), ls))
  {
    if ls != [] {
      ShapeHolds(valid, ls[..|ls| - 1]);
      ShapeStep(After(Init(valid), ls[..|ls| - 1]), ls[|ls| - 1]);
    }
  }

  // ---- The ledger ---------------------------------------------------------------

  ghost predicate Owners(q: Queues, m: Memory) {
    && NoDup(q.toRetire)
    && Elems(q.toRetire) !! m.owned
    && m.heap.Keys == m.owned + Elems(q.toRetire)
    && (forall a :: a in m.heap ==> m.heap[a] < m.next)
    && (forall a, b :: a in m.heap && b in m.heap && m.heap[a] == m.heap[b] ==> a == b)
  }

  /** Every pointer the loop holds still leads to the object that was meant. */
  ghost predicate Ledger(q: Queues, m: Memory) {
    && (forall a :: a in q.sources || a in q.toAdd || a in q.toRemove ==> a in m.held)
    && (forall a :: a in m.held ==> a in m.heap && m.heap[a] == m.held[a])
    && m.leaving <= Elems(q.toRemove)
    && Elems(q.toRetire) <= m.leaving
  }

  ghost predicate Watched(q: Queues, m: Memory, snap: Snapshot)
    requires Aligned(q, snap)
  {
    forall i {:trigger q.sources[i]} :: 0 <= i < |q.sources| ==>
      q.sources[i] in m.held && snap.pfds[snap.first + i] == SourceFd(q.sources[i], Some(m.held[q.sources[i]]))
  }

  ghost predicate Over(pc: Pc) { pc.Returned? || pc.Gone? }

  ghost predicate Alive(s: State) {
    && Shape(s)
    && Owners(s.q, s.mem)
    && (!Over(s.pc) ==> Ledger(s.q, s.mem))
    && (Polling(s.pc) ==> Watched(s.q, s.mem, s.snap))
    && (s.pc.Gone? ==> s.q.toRetire == [])
  }

  lemma ApplyKeepsLedger(q: Queues, m: Memory)
    requires Owners(q, m) && Ledger(q, m)
    ensures var q' := Queues(Settle(q.sources, q.toAdd, q.toRemove), [], [], []);
            Owners(q', Release(m, q.toRetire)) && Ledger(q', Release(m, q.toRetire))
  {
    var settled := Settle(q.sources, q.toAdd, q.toRemove);
    SettleIsSetUpdate(q.sources, q.toAdd, q.toRemove);
    forall a | a in settled ensures a in m.held && a !in m.leaving {
      assert a in Elems(settled);
    }
    var m' := Release(m, q.toRetire);
    forall a | a in m'.held ensures a in m'.heap {
      assert a !in Elems(q.toRetire);
    }
  }

  /** A caller names `a`: to add it, or to have it removed. */
  lemma NamingKeepsLedger(q: Queues, m: Memory, a: Addr)
    requires Ledger(q, m) && a in m.heap
    ensures Ledger(q.(toAdd := q.toAdd + [a]), Hold(m, a))
    ensures Ledger(q.(toRemove := q.toRemove + [a]), LetGo(m, a))
    ensures Ledger(q.(toRemove := q.toRemove + [a], toRetire := q.toRetire + [a]), LetGo(m, a))
  {
  }

  lemma RetireKeepsOwners(q: Queues, m: Memory, a: Addr)
    requires Owners(q, m) && a in m.owned
    ensures Owners(q.(toRemove := q.toRemove + [a], toRetire := q.toRetire + [a]),
                   LetGo(m, a).(owned := m.owned - {a}))
  {
  }

  /** Naming a live object changes nothing for the objects already watched. */
  lemma NamingKeepsWatched(q: Queues, m: Memory, snap: Snapshot, a: Addr)
    requires Ledger(q, m) && Aligned(q, snap) && Watched(q, m, snap) && a in m.heap
    ensures Watched(q, Hold(m, a), snap) && Watched(q, LetGo(m, a), snap)
  {
  }

  lemma HeapKeepsAlive(s: State, l: Label)
    requires Alive(s) && Enabled(s, l) && Contract(s, l)
    requires l.Alloc? || l.Free?
    ensures Alive(Exec(s, l))
  {
    ShapeStep(s, l);
  }

  lemma NamingKeepsAlive(s: State, l: Label)
    requires Alive(s) && Enabled(s, l) && Contract(s, l)
    requires l.Add? || l.Remove? || l.Retire?
    ensures Alive(Exec(s, l))
  {
    ShapeStep(s, l);
    NamingKeepsLedger(s.q, s.mem, l.a);
    if Polling(s.pc) {
      NamingKeepsWatched(s.q, s.mem, s.snap, l.a);
    }
    if l.Retire? {
      RetireKeepsOwners(s.q, s.mem, l.a);
    }
  }

  lemma LoopKeepsAlive(s: State, l: Label)
    requires Alive(s) && Enabled(s, l) && Contract(s, l)
    requires !(l.Alloc? || l.Free? || l.Add? || l.Remove? || l.Retire?)
    requires !(l.Apply? || l.Build? || l.DispatchDone?)
    ensures Alive(Exec(s, l))
  {
    ShapeStep(s, l);
  }

  lemma BuildKeepsAlive(s: State, l: Label)
    requires Alive(s) && Enabled(s, l) && l.Build?
    ensures Alive(Exec(s, l))
  {
    ShapeStep(s, l);
    PollSetAligned(s.q, s.mem.heap, l.eventFd, Exec(s, l).snap);
  }

  lemma IterationKeepsAlive(s: State, l: Label)
    requires Alive(s) && Enabled(s, l) && (l.Apply? || l.DispatchDone?)
    ensures Alive(Exec(s, l))
  {
    ShapeStep(s, l);
    match l
    case Apply => ApplyKeepsLedger(s.q, s.mem);
    case DispatchDone =>
      var a := s.q.sources[s.pc.i];
      assert Elems(s.q.toRemove + [a]) == Elems(s.q.toRemove) + {a};
  }

  lemma AliveStep(s: State, l: Label)
    requires Alive(s) && Enabled(s, l) && Contract(s, l)
    ensures Alive(Exec(s, l))
  {
    if l.Alloc? || l.Free? {
      HeapKeepsAlive(s, l);
    } else if l.Add? || l.Remove? || l.Retire? {
      NamingKeepsAlive(s, l);
    } else if l.Build? {
      BuildKeepsAlive(s, l);
    } else if l.Apply? || l.DispatchDone? {
      IterationKeepsAlive(s, l);
    } else {
      LoopKeepsAlive(s, l);
    }
  }

  lemma {:induction false} AliveHolds(valid: bool, ls: seq<Label>)
    requires Lawful(Init(valid), ls)
    ensures Alive(After(Init(valid), ls))
  {
    if ls != [] {
      AliveHolds(valid, ls[..|ls| - 1]);
      AliveStep(After(Init(valid), ls[..|ls| - 1]), ls[|ls| - 1]);
    }
  }

  // ---- No dangling pointer ---------------------------------------------------------

  /** The object used or destroyed is live and, when used, the one that was meant. */
  predicate Sound(e: Event) {
    ((e.Use? || e.Destroyed?) ==> e.oid.Some?) && (e.Use? ==> e.oid == e.meant)
  }

  lemma SoundRound(s: State, l: Label)
    requires Alive(s) && Enabled(s, l) && (l.Apply? || l.Teardown? || l.Build?)
    requires forall e :: e in s.log ==> Sound(e)
    ensures forall e :: e in Exec(s, l).log ==> Sound(e)
  {
  }

  lemma SoundStep(s: State, l: Label)
    requires Alive(s) && Enabled(s, l) && Contract(s, l)
    requires forall e :: e in s.log ==> Sound(e)
    ensures forall e :: e in Exec(s, l).log ==> Sound(e)
  {
    if l.Apply? || l.Teardown? || l.Build? {
      SoundRound(s, l);
    } else if l.Source? {
      SoundDispatch(s);
    }
  }

  lemma SoundDispatch(s: State)
    requires Alive(s) && s.pc.AtSource? && forall e :: e in s.log ==> Sound(e)
    ensures forall e :: e in Exec(s, Source).log ==> Sound(e)
  {
  }

  /** Over any lawful run, every object on which the loop calls fd(), events()
      or dispatch() is live and is the very object that a caller named, and every
      object is live when it is destroyed. */
  lemma {:induction false} NoDanglingPointer(valid: bool, ls: seq<Label>)
    requires Lawful(Init(valid), ls)
    ensures forall e :: e in After(Init(valid), ls).log ==> Sound(e)
  {
    if ls != [] {
      var front := ls[..|ls| - 1];
      NoDanglingPointer(valid, front);
      AliveHolds(valid, front);
      SoundStep(After(Init(valid), front), ls[|ls| - 1]);
    }
  }

  /** Slot first + i of the poll set exists, and was built from the object that
      sources_[i] names now. */
  predicate SlotIsSource(s: State, i: nat) {
    && i < |s.q.sources|
    && s.snap.first + i < |s.snap.revents| == |s.snap.pfds|
    && s.q.sources[i] in s.mem.heap
    && s.snap.pfds[s.snap.first + i] == SourceFd(s.q.sources[i], Some(s.mem.heap[s.q.sources[i]]))
  }

  lemma AliveSlotIsSource(s: State, i: nat)
    requires Alive(s) && (s.pc == AtSource(i) || s.pc == InDispatch(i)) && i < |s.q.sources|
    ensures SlotIsSource(s, i)
  {
  }

  /** At every look into the poll results, with or without the D-Bus eventFd,
      the index is in bounds and the slot was built from the very object that
      sources_[i] still names. */
  lemma SnapshotStaysAligned(valid: bool, ls: seq<Label>, i: nat)
    requires Lawful(Init(valid), ls)
    requires var s := After(Init(valid), ls);
             (s.pc == AtSource(i) || s.pc == InDispatch(i)) && i < |s.q.sources|
    ensures SlotIsSource(After(Init(valid), ls), i)
  {
    AliveHolds(valid, ls);
    AliveSlotIsSource(After(Init(valid), ls), i);
  }

  // ---- No confusion of a new object with an old one at the same address --------------

  /** A fresh allocation never collides with a pending operation. */
  lemma FreshAddressIsUnknown(valid: bool, ls: seq<Label>, a: Addr)
    requires Lawful(Init(valid), ls + [Alloc(a)])
    ensures var q := After(Init(valid), ls + [Alloc(a)]).q;
            a !in q.sources && a !in q.toAdd && a !in q.toRemove && a !in q.toRetire
  {
    assert (ls + [Alloc(a)])[..|ls|] == ls;
    AliveHolds(valid, ls);
    var s := After(Init(valid), ls);
    if !Over(s.pc) {
      assert a in s.q.toRetire ==> a in Elems(s.q.toRetire);
    }
  }

  /** What may happen while the owner of `a` leaves it alone. */
  predicate Spares(l: Label, a: Addr) {
    l != Add(a) && l != Remove(a) && l != Retire(a) && l != Free(a)
  }

  /** `a` is object `oid`, and the loop has not heard of it. */
  ghost predicate Unnamed(s: State, a: Addr, oid: Oid) {
    a in s.mem.owned && a !in s.mem.held && a in s.mem.heap && s.mem.heap[a] == oid
  }

  /** `a` is object `oid`, asked for and not yet in. */
  ghost predicate Awaited(s: State, a: Addr, oid: Oid) {
    && a in s.q.toAdd && a !in s.q.toRemove && a !in s.q.sources
    && a in s.mem.heap && s.mem.heap[a] == oid && a in s.mem.held
  }

  lemma SparedStep(s: State, l: Label, a: Addr, oid: Oid)
    requires Alive(s) && Enabled(s, l) && Contract(s, l) && Unnamed(s, a, oid) && Spares(l, a)
    ensures Unnamed(Exec(s, l), a, oid)
  {
    assert a !in Elems(s.q.toRetire);
  }

  lemma AwaitedStep(s: State, l: Label, a: Addr, oid: Oid)
    requires Alive(s) && Enabled(s, l) && Contract(s, l) && Awaited(s, a, oid)
    requires l != Remove(a) && l != Retire(a) && !l.Apply? && !Over(s.pc)
    ensures Awaited(Exec(s, l), a, oid) || Over(Exec(s, l).pc)
  {
  }

  lemma {:induction false} UnnamedStaysOut(s: State, ls: seq<Label>, a: Addr, oid: Oid)
    requires Alive(s) && Unnamed(s, a, oid)
    requires Lawful(s, ls) && forall l :: l in ls ==> Spares(l, a)
    ensures Alive(After(s, ls)) && Unnamed(After(s, ls), a, oid)
  {
    if ls != [] {
      var front, last := ls[..|ls| - 1], ls[|ls| - 1];
      assert last in ls && forall l :: l in front ==> l in ls;
      UnnamedStaysOut(s, front, a, oid);
      AliveStep(After(s, front), last);
      SparedStep(After(s, front), last, a, oid);
    }
  }

  lemma {:induction false} AwaitedStaysQueued(s: State, ls: seq<Label>, a: Addr, oid: Oid)
    requires Alive(s) && Awaited(s, a, oid) && !Over(s.pc)
    requires Lawful(s, ls) && forall l :: l in ls ==> l != Remove(a) && l != Retire(a) && !l.Apply?
    ensures Alive(After(s, ls)) && (Awaited(After(s, ls), a, oid) || Over(After(s, ls).pc))
  {
    if ls != [] {
      var front, last := ls[..|ls| - 1], ls[|ls| - 1];
      assert last in ls && forall l :: l in front ==> l in ls;
      AwaitedStaysQueued(s, front, a, oid);
      var mid := After(s, front);
      AliveStep(mid, last);
      if !Over(mid.pc) {
        AwaitedStep(mid, last, a, oid);
      }
    }
  }

  lemma AwaitedArrives(s: State, waiting: seq<Label>, a: Addr, oid: Oid)
    requires Alive(s) && Awaited(s, a, oid) && !Over(s.pc)
    requires Lawful(s, waiting + [Apply])
    requires forall l :: l in waiting ==> l != Remove(a) && l != Retire(a) && !l.Apply?
    ensures var s' := After(s, waiting + [Apply]);
            a in s'.q.sources && a in s'.mem.heap && s'.mem.heap[a] == oid
  {
    RunsSplit(s, waiting, [Apply]);
    AwaitedStaysQueued(s, waiting, a, oid);
    var mid := After(s, waiting);
    OneStep(mid, Apply);
    SettleIsSetUpdate(mid.q.sources, mid.q.toAdd, mid.q.toRemove);
    assert a in Elems(Exec(mid, Apply).q.sources);
    assert a !in Elems(mid.q.toRetire);
  }

  lemma FreshAddArrives(s: State, a: Addr, between: seq<Label>, waiting: seq<Label>)
    requires Alive(s) && Lawful(s, [Alloc(a)] + (between + ([Add(a)] + (waiting + [Apply]))))
    requires forall l :: l in between ==> Spares(l, a)
    requires forall l :: l in waiting ==> l != Remove(a) && l != Retire(a) && !l.Apply?
    ensures var s' := After(s, [Alloc(a)] + (between + ([Add(a)] + (waiting + [Apply]))));
            a in s'.q.sources && a in s'.mem.heap && s'.mem.heap[a] == s.mem.next
  {
    var oid := s.mem.next;
    RunsSplit(s, [Alloc(a)], between + ([Add(a)] + (waiting + [Apply])));
    AllocIsUnnamed(s, a);
    var s1 := After(s, [Alloc(a)]);
    RunsSplit(s1, between, [Add(a)] + (waiting + [Apply]));
    UnnamedStaysOut(s1, between, a, oid);
    var s2 := After(s1, between);
    RunsSplit(s2, [Add(a)], waiting + [Apply]);
    AddIsAwaited(s2, a, oid);
    AwaitedArrives(After(s2, [Add(a)]), waiting, a, oid);
  }

  lemma AllocIsUnnamed(s: State, a: Addr)
    requires Alive(s) && Lawful(s, [Alloc(a)])
    ensures Alive(After(s, [Alloc(a)])) && Unnamed(After(s, [Alloc(a)]), a, s.mem.next)
  {
    OneStep(s, Alloc(a));
  }

  lemma AddIsAwaited(s: State, a: Addr, oid: Oid)
    requires Alive(s) && Lawful(s, [Add(a)]) && Unnamed(s, a, oid)
    ensures Alive(After(s, [Add(a)])) && Awaited(After(s, [Add(a)]), a, oid) && !Over(After(s, [Add(a)]).pc)
  {
    OneStep(s, Add(a));
  }

  /** A freshly allocated source that its owner adds, without removing or
      retiring it meanwhile, is in sources_ after the next apply_pending, and it
      is that object, not an earlier one that lived at the same address. */
  lemma FreshAddReachesSources(valid: bool, before: seq<Label>, s: State, a: Addr,
                               between: seq<Label>, waiting: seq<Label>)
    requires Lawful(Init(valid), before) && s == After(Init(valid), before)
    requires Lawful(s, [Alloc(a)] + (between + ([Add(a)] + (waiting + [Apply]))))
    requires forall l :: l in between ==> Spares(l, a)
    requires forall l :: l in waiting ==> l != Remove(a) && l != Retire(a) && !l.Apply?
    ensures var s' := After(s, [Alloc(a)] + (between + ([Add(a)] + (waiting + [Apply]))));
            a in s'.q.sources && a in s'.mem.heap && s'.mem.heap[a] == s.mem.next
  {
    AliveHolds(valid, before);
    FreshAddArrives(s, a, between, waiting);
  }

  lemma OneStep(s: State, l: Label)
    requires Lawful(s, [l])
    requires Alive(s)
    ensures Enabled(s, l) && Contract(s, l) && After(s, [l]) == Exec(s, l) && Alive(Exec(s, l))
  {
    assert [l][..0] == [];
    AliveStep(s, l);
  }

  // ---- Every object dies exactly once --------------------------------------------------

  /** How often object `k` has been destroyed. */
  function Deaths(log: seq<Event>, k: Oid): nat {
    if log == [] then 0 else
    Deaths(log[..|log| - 1], k) +
    (if log[|log| - 1].Destroyed? && log[|log| - 1].oid == Some(k) then 1 else 0)
  }

  lemma {:induction false} DeathsConcat(log: seq<Event>, more: seq<Event>, k: Oid)
    ensures Deaths(log + more, k) == Deaths(log, k) + Deaths(more, k)
  {
    if more == [] {
      assert log + more == log;
    } else {
      DeathsConcat(log, more[..|more| - 1], k);
      assert (log + more)[..|log + more| - 1] == log + more[..|more| - 1];
    }
  }

  lemma {:induction false} NoDeaths(log: seq<Event>, k: Oid)
    requires forall e :: e in log ==> !e.Destroyed?
    ensures Deaths(log, k) == 0
  {
    if log != [] {
      assert forall e :: e in log[..|log| - 1] ==> e in log;
      NoDeaths(log[..|log| - 1], k);
      assert log[|log| - 1] in log;
    }
  }

  lemma {:induction false} DeathsOfRetired(toRetire: seq<Addr>, heap: map<Addr, Oid>, k: Oid)
    requires NoDup(toRetire) && Elems(toRetire) <= heap.Keys
    requires forall a, b :: a in heap && b in heap && heap[a] == heap[b] ==> a == b
    ensures Deaths(Deletions(toRetire, heap), k) == if exists a :: a in toRetire && heap[a] == k then 1 else 0
  {
    var log := Deletions(toRetire, heap);
    if toRetire != [] {
      var front, last := toRetire[..|toRetire| - 1], toRetire[|toRetire| - 1];
      assert toRetire == front + [last];
      assert Elems(toRetire) == Elems(front) + {last};
      DeathsOfRetired(front, heap, k);
      assert log[..|log| - 1] == Deletions(front, heap);
      assert last in heap && last !in front;
    }
  }

  /** Object k has died once if it was born and no longer lives, else never. */
  ghost predicate Mortal(s: State, k: Oid) {
    Deaths(s.log, k) == if k < s.mem.next && k !in s.mem.heap.Values then 1 else 0
  }

  lemma RetiredDieOnce(q: Queues, m: Memory, log: seq<Event>, between: seq<Event>, k: Oid)
    requires Owners(q, m) && forall e :: e in between ==> !e.Destroyed?
    requires Deaths(log, k) == if k < m.next && k !in m.heap.Values then 1 else 0
    ensures Deaths(log + between + Deletions(q.toRetire, m.heap), k)
            == if k < m.next && k !in (m.heap - Elems(q.toRetire)).Values then 1 else 0
  {
    DeathsConcat(log, between, k);
    DeathsConcat(log + between, Deletions(q.toRetire, m.heap), k);
    NoDeaths(between, k);
    DeathsOfRetired(q.toRetire, m.heap, k);
    var rest := m.heap - Elems(q.toRetire);
    if k in rest.Values {
      var a :| a in rest && rest[a] == k;
      assert a in m.heap && m.heap[a] == k && a !in q.toRetire;
    } else if k in m.heap.Values {
      var a :| a in m.heap && m.heap[a] == k;
      assert a in q.toRetire;
    }
  }

  lemma ValuesAfterAlloc(heap: map<Addr, Oid>, a: Addr, o: Oid, k: Oid)
    requires a !in heap
    ensures k in heap[a := o].Values <==> k in heap.Values || k == o
  {
    var heap' := heap[a := o];
    assert heap'[a] == o;
    if k in heap.Values {
      var b :| b in heap && heap[b] == k;
      assert heap'[b] == k;
    }
  }

  lemma ValuesAfterFree(heap: map<Addr, Oid>, a: Addr, k: Oid)
    requires a in heap && forall x, y :: x in heap && y in heap && heap[x] == heap[y] ==> x == y
    ensures k in (heap - {a}).Values <==> k in heap.Values && k != heap[a]
  {
    if k in heap.Values && k != heap[a] {
      var b :| b in heap && heap[b] == k;
      assert (heap - {a})[b] == k;
    }
  }

  lemma LoopMortalStep(s: State, l: Label, k: Oid)
    requires Alive(s) && Enabled(s, l) && Mortal(s, k)
    requires l.Apply? || l.Teardown?
    ensures Mortal(Exec(s, l), k)
  {
    match l
    case Apply =>
      RetiredDieOnce(s.q, s.mem, s.log, Insertions(Exec(s, l).q.sources, s.q.sources), k);
    case Teardown =>
      assert s.log + [] == s.log;
      RetiredDieOnce(s.q, s.mem, s.log, [], k);
  }

  /** Events that are not destructions. */
  lemma NoMoreDeaths(log: seq<Event>, more: seq<Event>, k: Oid)
    requires forall e :: e in more ==> !e.Destroyed?
    ensures Deaths(log + more, k) == Deaths(log, k)
  {
    DeathsConcat(log, more, k);
    NoDeaths(more, k);
  }

  lemma StillMortal(s: State, s': State, more: seq<Event>, k: Oid)
    requires Mortal(s, k) && s'.mem == s.mem && s'.log == s.log + more
    requires forall e :: e in more ==> !e.Destroyed?
    ensures Mortal(s', k)
  {
    NoMoreDeaths(s.log, more, k);
  }

  lemma UseMortalStep(s: State, l: Label, k: Oid)
    requires Enabled(s, l) && Mortal(s, k) && (l.Build? || l.Source?)
    ensures Mortal(Exec(s, l), k)
  {
    var s' := Exec(s, l);
    if l.Build? {
      StillMortal(s, s', Uses(s.q.sources, s.mem), k);
    } else if s'.pc.InDispatch? {
      var a, hangup := s.q.sources[s.pc.i], s.snap.At(s.snap.first + s.pc.i).hangup;
      var more := [UseOf(s.mem, a)] + (if hangup then [HungUp(a)] else []);
      assert s'.log == s.log + more;
      StillMortal(s, s', more, k);
    }
  }

  lemma MortalStep(s: State, l: Label, k: Oid)
    requires Alive(s) && Enabled(s, l) && Contract(s, l) && Mortal(s, k)
    ensures Mortal(Exec(s, l), k)
  {
    if l.Apply? || l.Teardown? {
      LoopMortalStep(s, l, k);
    } else if l.Build? || l.Source? {
      UseMortalStep(s, l, k);
    } else if l.Alloc? {
      ValuesAfterAlloc(s.mem.heap, l.a, s.mem.next, k);
    } else if l.Free? {
      DeathsConcat(s.log, [Destroyed(l.a, OidAt(s.mem.heap, l.a))], k);
      OneDeath(l.a, s.mem.heap, k);
      ValuesAfterFree(s.mem.heap, l.a, k);
    }
  }

  lemma OneDeath(a: Addr, heap: map<Addr, Oid>, k: Oid)
    ensures Deaths([Destroyed(a, OidAt(heap, a))], k) == if a in heap && heap[a] == k then 1 else 0
  {
  }

  /** In every lawful run each object is destroyed at most once, and the objects
      not yet destroyed are exactly those on the heap. */
  lemma {:induction false} EveryObjectDiesOnce(valid: bool, ls: seq<Label>, k: Oid)
    requires Lawful(Init(valid), ls)
    ensures Mortal(After(Init(valid), ls), k)
  {
    if ls != [] {
      var front := ls[..|ls| - 1];
      EveryObjectDiesOnce(valid, front, k);
      AliveHolds(valid, front);
      MortalStep(After(Init(valid), front), ls[|ls| - 1], k);
    }
  }
}
