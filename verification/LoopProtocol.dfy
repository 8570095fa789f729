/** The event loop, its callers, the allocator, the kernel's eventfd and any
    number of threads inside stop(), as one labelled transition system. A label
    is one step of one of them; a run is a sequence of labels. */
module LoopProtocol {
  import opened Seqs
  import opened EventQueues

  /** The identity of an object. Addresses are reused, identities are not. */
  type Oid = nat
  /** A call of stop() in progress. */
  type Call = nat

  /** An eventfd write that would pass this value fails with EAGAIN. */
  const EVENTFD_MAX: nat := 0xFFFF_FFFF_FFFF_FFFE

  /** Where the loop thread is. */
  datatype Pc =
    | Setup                    // before run()
    | AtCheck                  // the loop condition
    | AtApply                  // apply_pending()
    | AtRecheck                // the second test of running_
    | AtBuild                  // building the poll set
    | AtPoll                   // inside poll()
    | AtDrain                  // reading the wake eventfd
    | InBus                    // inside processPendingEvent(): callbacks may run
    | AtSource(i: nat)         // the dispatch loop, about to look at source i
    | InDispatch(i: nat)       // inside source i's dispatch(): callbacks may run
    | AtReturn                 // past the loop
    | Returned(code: int)
    | Gone                     // the EventLoop object is destroyed

  /** revents, with POLLHUP and POLLERR in one bit. */
  datatype Revents = Revents(input: bool, hangup: bool, other: bool) {
    predicate Any() { input || hangup || other }
  }

  const QUIET := Revents(false, false, false)

  /** What a pollfd was built from. */
  datatype PollFd = BusFd | BusEventFd | WakeFd | SourceFd(addr: Addr, oid: Option<Oid>)

  datatype Queues = Queues(sources: seq<Addr>, toAdd: seq<Addr>, toRemove: seq<Addr>, toRetire: seq<Addr>)

  /** The heap of event sources with the callers' ledger: `owned` are the
      objects a caller must destroy, `held` those it must keep alive because it
      has named them to the loop, `leaving` those it has also asked the loop to
      drop. `held` remembers which object was meant. */
  datatype Memory = Memory(heap: map<Addr, Oid>, next: Oid, owned: set<Addr>,
                           held: map<Addr, Oid>, leaving: set<Addr>)

  /** The poll set of the current iteration. */
  datatype Snapshot = Snapshot(pfds: seq<PollFd>, first: nat, revents: seq<Revents>) {
    function WakeIndex(): int { first - 1 }
    function At(k: int): Revents { if 0 <= k < |revents| then revents[k] else QUIET }
  }

  /** How far a call of stop() has come: code stored, flag lowered, eventfd
      written. A flag lowered before run() raises it is overwritten. */
  datatype Phase = Coded(code: int) | Flagged(code: int) | Done(code: int) | Overwritten(code: int, written: bool)

  datatype Control = Control(running: bool, exitCode: int, wakeValid: bool, wakeCount: nat,
                             stops: map<Call, Phase>, failed: bool) {
    function Wake(): Control {
      if wakeValid && wakeCount < EVENTFD_MAX then this.(wakeCount := wakeCount + 1) else this
    }
  }

  /** What happened to objects, oldest first. An oid of None marks an address
      at which no object lived; `meant` is the object that was there when a
      caller last named the address to the loop. */
  datatype Event =
    | Use(addr: Addr, oid: Option<Oid>, meant: Option<Oid>)  // fd(), events() or dispatch() was called
    | Inserted(addr: Addr)                      // entered sources_
    | HungUp(addr: Addr)                        // dispatched with POLLHUP or POLLERR
    | Destroyed(addr: Addr, oid: Option<Oid>)

  datatype State = State(pc: Pc, q: Queues, mem: Memory, snap: Snapshot, ctl: Control, log: seq<Event>)

  datatype Label =
    // the loop thread
    | Start | Check | Apply | Recheck | Build(eventFd: bool)
    | PollReady(revents: seq<Revents>) | PollInterrupted | PollFailed
    | Drain | BusDone | BusFailed | Source | DispatchDone | Return | Teardown
    // callers, from the loop thread
    | Alloc(a: Addr) | Free(a: Addr) | Add(a: Addr) | Remove(a: Addr) | Retire(a: Addr)
    // any thread inside stop()
    | StopBegin(call: Call, code: int) | StopFlag(call: Call) | StopWake(call: Call)

  predicate StopLabel(l: Label) { l.StopBegin? || l.StopFlag? || l.StopWake? }

  predicate CallerLabel(l: Label) { l.Alloc? || l.Free? || l.Add? || l.Remove? || l.Retire? }

  // ---- The pieces of one iteration ---------------------------------------

  function OidAt(heap: map<Addr, Oid>, a: Addr): Option<Oid> {
    if a in heap then Some(heap[a]) else None
  }

  function PollSet(sources: seq<Addr>, heap: map<Addr, Oid>, eventFd: bool): seq<PollFd> {
    [BusFd] + (if eventFd then [BusEventFd] else []) + [WakeFd]
    + seq(|sources|, i requires 0 <= i < |sources| => SourceFd(sources[i], OidAt(heap, sources[i])))
  }

  function FirstSource(eventFd: bool): nat { if eventFd then 3 else 2 }

  /** D-Bus is driven on timeout or when one of its descriptors is ready. */
  predicate BusReady(snap: Snapshot) {
    || (forall k :: 0 <= k < |snap.revents| ==> !snap.revents[k].Any())
    || snap.At(0).Any()
    || (snap.first == 3 && snap.At(1).Any())
  }

  /** What poll() may report: the wake descriptor is readable exactly while the
      eventfd counter is positive; a negative descriptor is ignored. */
  predicate PollReports(s: State, revents: seq<Revents>) {
    && |revents| == |s.snap.pfds|
    && 0 <= s.snap.WakeIndex() < |revents|
    && revents[s.snap.WakeIndex()] == Revents(s.ctl.wakeValid && s.ctl.wakeCount > 0, false, false)
  }

  function UseOf(m: Memory, a: Addr): Event { Use(a, OidAt(m.heap, a), OidAt(m.held, a)) }

  function Uses(sources: seq<Addr>, m: Memory): seq<Event> {
    seq(|sources|, i requires 0 <= i < |sources| => UseOf(m, sources[i]))
  }

  function Insertions(sources: seq<Addr>, before: seq<Addr>): seq<Event> {
    var added := Without(sources, Elems(before));
    seq(|added|, i requires 0 <= i < |added| => Inserted(added[i]))
  }

  function Deletions(toRetire: seq<Addr>, heap: map<Addr, Oid>): seq<Event> {
    seq(|toRetire|, i requires 0 <= i < |toRetire| => Destroyed(toRetire[i], OidAt(heap, toRetire[i])))
  }

  function ByRestart(p: Phase): Phase {
    match p
    case Flagged(code) => Overwritten(code, false)
    case Done(code) => Overwritten(code, true)
    case _ => p
  }

  /** stop() has lowered the flag and not yet written the eventfd. */
  predicate Unwritten(p: Phase) { p.Flagged? || (p.Overwritten? && !p.written) }

  function ByWrite(p: Phase): Phase {
    if p.Overwritten? then Overwritten(p.code, true) else Done(p.code)
  }

  // ---- Steps ---------------------------------------------------------------

  predicate CallersMayRun(pc: Pc) { pc.Setup? || pc.InBus? || pc.InDispatch? }

  /** What the code, the kernel and the allocator allow next. */
  predicate Enabled(s: State, l: Label) {
    match l
    case Start => s.pc.Setup?
    case Check => s.pc.AtCheck?
    case Apply => s.pc.AtApply?
    case Recheck => s.pc.AtRecheck?
    case Build(_) => s.pc.AtBuild?
    case PollReady(revents) => s.pc.AtPoll? && PollReports(s, revents)
    case PollInterrupted => s.pc.AtPoll?
    case PollFailed => s.pc.AtPoll?
    case Drain => s.pc.AtDrain?
    case BusDone => s.pc.InBus?
    case BusFailed => s.pc.InBus?
    case Source => s.pc.AtSource?
    case DispatchDone => s.pc.InDispatch? && s.pc.i < |s.q.sources|
    case Return => s.pc.AtReturn?
    case Teardown => s.pc.Returned?
    case Alloc(a) => CallersMayRun(s.pc) && a !in s.mem.heap
    case Free(_) => CallersMayRun(s.pc) || s.pc.Returned?
    case Add(_) => CallersMayRun(s.pc)
    case Remove(_) => CallersMayRun(s.pc)
    case Retire(_) => CallersMayRun(s.pc)
    case StopBegin(call, _) => call !in s.ctl.stops
    case StopFlag(call) => call in s.ctl.stops && s.ctl.stops[call].Coded?
    case StopWake(call) => call in s.ctl.stops && Unwritten(s.ctl.stops[call])
  }

  /** What the header asks of callers: name only live objects, retire and
      destroy only what you own, and while the loop runs do not destroy what it
      may still hold. */
  predicate Contract(s: State, l: Label) {
    match l
    case Add(a) => a in s.mem.heap
    case Remove(a) => a in s.mem.heap
    case Retire(a) => a in s.mem.owned
    case Free(a) => a in s.mem.owned && (s.pc.Returned? || a !in s.mem.held)
    case _ => true
  }

  function Hold(m: Memory, a: Addr): Memory {
    if a in m.heap then m.(held := m.held[a := m.heap[a]]) else m
  }

  function LetGo(m: Memory, a: Addr): Memory {
    Hold(m, a).(leaving := m.leaving + {a})
  }

  /** apply_pending() on the ledger: what was leaving is released, what was
      retired is destroyed. */
  function Release(m: Memory, toRetire: seq<Addr>): Memory {
    m.(heap := m.heap - Elems(toRetire), held := m.held - m.leaving, leaving := {})
  }

  function Exec(s: State, l: Label): State
    requires Enabled(s, l)
  {
    match l
    case Start =>
      s.(pc := AtCheck,
         ctl := s.ctl.(running := true, stops := map c | c in s.ctl.stops :: ByRestart(s.ctl.stops[c])))
    case Check => s.(pc := if s.ctl.running then AtApply else AtReturn)
    case Apply =>
      var sources := Settle(s.q.sources, s.q.toAdd, s.q.toRemove);
      s.(pc := AtRecheck,
         q := Queues(sources, [], [], []),
         mem := Release(s.mem, s.q.toRetire),
         log := s.log + Insertions(sources, s.q.sources) + Deletions(s.q.toRetire, s.mem.heap))
    case Recheck => s.(pc := if s.ctl.running then AtBuild else AtReturn)
    case Build(eventFd) =>
      s.(pc := AtPoll,
         snap := Snapshot(PollSet(s.q.sources, s.mem.heap, eventFd), FirstSource(eventFd), []),
         log := s.log + Uses(s.q.sources, s.mem))
    case PollReady(revents) => s.(pc := AtDrain, snap := s.snap.(revents := revents))
    case PollInterrupted => s.(pc := AtCheck)
    case PollFailed => s.(pc := AtReturn, ctl := s.ctl.(exitCode := 1, failed := true))
    case Drain =>
      if s.snap.At(s.snap.WakeIndex()).input && s.ctl.wakeCount > 0 then s.(ctl := s.ctl.(wakeCount := 0))
      else s.(pc := if BusReady(s.snap) then InBus else AtSource(0))
    case BusDone => s.(pc := AtSource(0))
    case BusFailed => s.(pc := AtReturn, ctl := s.ctl.(exitCode := 1, failed := true))
    case Source =>
      var i := s.pc.i;
      if i >= |s.q.sources| then s.(pc := AtCheck)
      else
        var a, revents := s.q.sources[i], s.snap.At(s.snap.first + i);
        if !revents.Any() then s.(pc := AtSource(i + 1))
        else s.(pc := InDispatch(i),
                log := s.log + [UseOf(s.mem, a)] + (if revents.hangup then [HungUp(a)] else []))
    case DispatchDone =>
      var i := s.pc.i;
      if s.snap.At(s.snap.first + i).hangup
      then s.(pc := AtSource(i + 1),
              q := s.q.(toRemove := s.q.toRemove + [s.q.sources[i]]),
              ctl := s.ctl.Wake())
      else s.(pc := AtSource(i + 1))
    case Return => s.(pc := Returned(s.ctl.exitCode))
    case Teardown =>
      s.(pc := Gone, q := Queues([], [], [], []),
         mem := s.mem.(heap := s.mem.heap - Elems(s.q.toRetire)),
         log := s.log + Deletions(s.q.toRetire, s.mem.heap))
    case Alloc(a) =>
      s.(mem := s.mem.(heap := s.mem.heap[a := s.mem.next], next := s.mem.next + 1, owned := s.mem.owned + {a}))
    case Free(a) =>
      s.(mem := s.mem.(heap := s.mem.heap - {a}, owned := s.mem.owned - {a}),
         log := s.log + [Destroyed(a, OidAt(s.mem.heap, a))])
    case Add(a) =>
      s.(q := s.q.(toAdd := s.q.toAdd + [a]), mem := Hold(s.mem, a), ctl := s.ctl.Wake())
    case Remove(a) =>
      s.(q := s.q.(toRemove := s.q.toRemove + [a]), mem := LetGo(s.mem, a), ctl := s.ctl.Wake())
    case Retire(a) =>
      s.(q := s.q.(toRemove := s.q.toRemove + [a], toRetire := s.q.toRetire + [a]),
         mem := LetGo(s.mem, a).(owned := s.mem.owned - {a}),
         ctl := s.ctl.Wake())
    case StopBegin(call, code) =>
      s.(ctl := s.ctl.(exitCode := code, stops := s.ctl.stops[call := Coded(code)]))
    case StopFlag(call) =>
      s.(ctl := s.ctl.(running := false, stops := s.ctl.stops[call := Flagged(s.ctl.stops[call].code)]))
    case StopWake(call) =>
      s.(ctl := s.ctl.(stops := s.ctl.stops[call := ByWrite(s.ctl.stops[call])]).Wake())
  }

  // ---- Runs ------------------------------------------------------------------

  /** A new EventLoop, with or without a working eventfd. */
  function Init(wakeValid: bool): State {
    State(Setup, Queues([], [], [], []), Memory(map[], 0, {}, map[], {}), Snapshot([], 0, []),
          Control(false, 0, wakeValid, 0, map[], false), [])
  }

  predicate Possible(s: State, ls: seq<Label>)
    decreases |ls|, 0
  {
    ls == [] ||
    (Possible(s, ls[..|ls| - 1]) && Enabled(After(s, ls[..|ls| - 1]), ls[|ls| - 1]))
  }

  function After(s: State, ls: seq<Label>): State
    requires Possible(s, ls)
    decreases |ls|, 1
  {
    if ls == [] then s else Exec(After(s, ls[..|ls| - 1]), ls[|ls| - 1])
  }

  /** A possible run in which every caller keeps the contract. */
  predicate Lawful(s: State, ls: seq<Label>)
    ensures Lawful(s, ls) ==> Possible(s, ls)
  {
    ls == [] ||
    (Lawful(s, ls[..|ls| - 1])
     && Enabled(After(s, ls[..|ls| - 1]), ls[|ls| - 1])
     && Contract(After(s, ls[..|ls| - 1]), ls[|ls| - 1]))
  }

  lemma {:induction false} RunsCompose(s: State, ls: seq<Label>, more: seq<Label>)
    requires Possible(s, ls) && Possible(After(s, ls), more)
    ensures Possible(s, ls + more) && After(s, ls + more) == After(After(s, ls), more)
    ensures Lawful(s, ls) && Lawful(After(s, ls), more) ==> Lawful(s, ls + more)
  {
    if more == [] {
      assert ls + more == ls;
    } else {
      RunsCompose(s, ls, more[..|more| - 1]);
      assert (ls + more)[..|ls + more| - 1] == ls + more[..|more| - 1];
    }
  }

  lemma {:induction false} RunsSplit(s: State, ls: seq<Label>, more: seq<Label>)
    requires Lawful(s, ls + more)
    ensures Lawful(s, ls) && Lawful(After(s, ls), more)
    ensures After(s, ls + more) == After(After(s, ls), more)
  {
    if more == [] {
      assert ls + more == ls;
    } else {
      assert (ls + more)[..|ls + more| - 1] == ls + more[..|more| - 1];
      RunsSplit(s, ls, more[..|more| - 1]);
    }
  }

  lemma Snoc(s: State, ls: seq<Label>, l: Label)
    requires Possible(s, ls) && Enabled(After(s, ls), l)
    ensures Possible(s, ls + [l]) && After(s, ls + [l]) == Exec(After(s, ls), l)
    ensures Lawful(s, ls) && Contract(After(s, ls), l) ==> Lawful(s, ls + [l])
  {
  }
}
