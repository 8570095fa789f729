/** The Xbox client as a whole, from main() to the end of the process: event
    loop, signal source, controller and readers. Its every run keeps the event
    loop's contract, so the loop's guarantees hold of it, and every reader it
    makes is destroyed exactly once. */
module ControllerRuns {
  import opened Seqs
  import opened EventQueues
  import opened LoopProtocol
  import opened LoopMemory
  import opened EventLoops
  import opened XboxControllers

  datatype Stage = Begin | Building | Live | ClientGone | AllGone

  /** `signals` and `client` are the addresses of main()'s two local sources. */
  datatype System = System(stage: Stage, loop: State, c: Controller, signals: Addr, client: Addr)

  datatype Act =
    | Prepare(signals: Addr, client: Addr, hid: map<string, string>)  // locals of main(), first hidraw scan
    | Added(path: Path, ifs: seq<Interface>, os: seq<Opening>)        // onInterfacesAdded
    | Removed(path: Path, ks: seq<Kind>)                              // onInterfacesRemoved
    | Changed(path: Path, peer: Peer)                                 // a device's properties changed
    | RegisterClient                                                  // loop.add(&client)
    | Udev(remove: bool, hidraw: bool, hid: map<string, string>)      // one udev event
    | Run(l: Label)                                                   // a step of run(), of stop() or of ~EventLoop
    | DropClient                                                      // ~XboxController
    | DropSignals                                                     // ~SignalSource

  function NewSystem(valid: bool): System {
    System(Begin, Init(valid), Controller({}, map[], {}, {}, None, map[]), 0, 0)
  }

  /** What an act does to the heap and the loop. */
  function Labels(s: System, a: Act): seq<Label>
    requires a.Added? ==> |a.ifs| == |a.os|
  {
    match a
    case Prepare(signals, client, _) => [Alloc(signals), Add(signals), Alloc(client)]
    case Added(path, ifs, os) => AddInterfaces(s.c, path, ifs, os).ls
    case Removed(_, _) => []
    case Changed(_, _) => []
    case RegisterClient => [Add(s.client)]
    case Udev(remove, hidraw, hid) => OnUdev(s.c, remove, hidraw, hid).ls
    case Run(l) => [l]
    case DropClient => (if s.c.reader.Some? then [Free(s.c.reader.value)] else []) + [Free(s.client)]
    case DropSignals => [Free(s.signals)]
  }

  /** main() and the single loop thread allow the act next. */
  predicate Allowed(s: System, a: Act) {
    match a
    case Prepare(signals, client, _) => s.stage.Begin?
    case Added(_, ifs, os) => |ifs| == |os| && (s.stage.Building? || (s.stage.Live? && s.loop.pc.InBus?))
    case Removed(_, _) => s.stage.Live? && s.loop.pc.InBus?
    case Changed(_, _) => s.stage.Live? && s.loop.pc.InBus?
    case RegisterClient => s.stage.Building?
    case Udev(_, _, _) =>
      s.stage.Live? && s.loop.pc.InDispatch? && s.loop.pc.i < |s.loop.q.sources|
      && s.loop.q.sources[s.loop.pc.i] == s.client
    case Run(l) => !CallerLabel(l) && (l.Start? ==> s.stage.Live?) && (l.Teardown? ==> s.stage.AllGone?)
    case DropClient => s.stage.Live? && s.loop.pc.Returned?
    case DropSignals => s.stage.ClientGone? && s.loop.pc.Returned?
  }

  /** Allowed, and the allocator, the kernel and the code make it possible. */
  predicate Can(s: System, a: Act) {
    Allowed(s, a) && Possible(s.loop, Labels(s, a))
  }

  function Do(s: System, a: Act): System
    requires Can(s, a)
  {
    var loop := After(s.loop, Labels(s, a));
    match a
    case Prepare(signals, client, hid) => System(Building, loop, s.c.(hid := hid), signals, client)
    case Added(path, ifs, os) => s.(loop := loop, c := AddInterfaces(s.c, path, ifs, os).c)
    case Removed(path, ks) => s.(c := RemoveInterfaces(s.c, path, ks))
    case Changed(path, peer) =>
      if path in s.c.devices then s.(c := s.c.(devices := s.c.devices[path := peer])) else s
    case RegisterClient => s.(stage := Live, loop := loop)
    case Udev(remove, hidraw, hid) => s.(loop := loop, c := OnUdev(s.c, remove, hidraw, hid).c)
    case Run(_) => s.(loop := loop)
    case DropClient => s.(stage := ClientGone, loop := loop, c := s.c.(reader := None))
    case DropSignals => s.(stage := AllGone, loop := loop)
  }

  predicate Feasible(valid: bool, acts: seq<Act>)
    decreases |acts|, 0
  {
    acts == [] ||
    (Feasible(valid, acts[..|acts| - 1]) && Can(Reached(valid, acts[..|acts| - 1]), acts[|acts| - 1]))
  }

  function Reached(valid: bool, acts: seq<Act>): System
    requires Feasible(valid, acts)
    decreases |acts|, 1
  {
    if acts == [] then NewSystem(valid) else Do(Reached(valid, acts[..|acts| - 1]), acts[|acts| - 1])
  }

  /** The run of the loop underneath. */
  function Underneath(valid: bool, acts: seq<Act>): seq<Label>
    requires Feasible(valid, acts)
  {
    if acts == [] then [] else
    var front := acts[..|acts| - 1];
    Underneath(valid, front) + Labels(Reached(valid, front), acts[|acts| - 1])
  }

  // ---- Who owns what ---------------------------------------------------------------

  function ReaderOf(c: Controller): set<Addr> {
    if c.reader.Some? then {c.reader.value} else {}
  }

  /** The caller-owned sources are exactly the locals of main() still in scope
      and the controller's reader. */
  ghost predicate Housed(s: System) {
    match s.stage
    case Begin => s.loop.pc.Setup? && s.loop.mem.owned == {} && s.c.reader == None
    case Building =>
      && s.loop.pc.Setup? && s.signals != s.client && ReaderOf(s.c) !! {s.signals, s.client}
      && s.loop.mem.owned == {s.signals, s.client} + ReaderOf(s.c)
    case Live =>
      && !s.loop.pc.Gone? && s.signals != s.client && ReaderOf(s.c) !! {s.signals, s.client}
      && s.loop.mem.owned == {s.signals, s.client} + ReaderOf(s.c)
    case ClientGone => s.loop.pc.Returned? && s.loop.mem.owned == {s.signals} && s.c.reader == None
    case AllGone => Over(s.loop.pc) && s.loop.mem.owned == {} && s.c.reader == None
  }

  ghost predicate Good(s: System) {
    Alive(s.loop) && Housed(s)
  }

  lemma OneLawful(s: State, l: Label)
    requires Alive(s) && Possible(s, [l]) && (Enabled(s, l) ==> Contract(s, l))
    ensures Lawful(s, [l]) && After(s, [l]) == Exec(s, l) && Enabled(s, l) && Alive(Exec(s, l))
  {
    PossibleOne(s, l);
    Snoc(s, [], l);
    assert [] + [l] == [l];
    AliveStep(s, l);
  }

  lemma TwoLawful(s: State, l1: Label, l2: Label)
    requires Alive(s) && Possible(s, [l1, l2])
    requires Enabled(s, l1) ==> Contract(s, l1) && (Enabled(Exec(s, l1), l2) ==> Contract(Exec(s, l1), l2))
    ensures Enabled(s, l1) && Enabled(Exec(s, l1), l2)
    ensures Lawful(s, [l1, l2]) && After(s, [l1, l2]) == Exec(Exec(s, l1), l2)
    ensures Alive(Exec(Exec(s, l1), l2))
  {
    TwoSteps(s, l1, l2);
    assert [l1, l2] == [l1] + [l2];
    PossibleSplit(s, [l1], [l2]);
    OneLawful(s, l1);
    OneLawful(Exec(s, l1), l2);
    RunsCompose(s, [l1], [l2]);
  }

  /** The caller-owned objects after a callback of the controller. */
  ghost predicate Tended(s: State, c: Controller, locals: set<Addr>) {
    && Alive(s) && CallersMayRun(s.pc)
    && ReaderOf(c) !! locals && s.mem.owned == locals + ReaderOf(c)
  }

  /** A new reader is one more owned object, or comes and goes at once. */
  lemma MakeReaderKeeps(s: State, c: Controller, c': Controller, locals: set<Addr>, o: Opening)
    requires Tended(s, c, locals) && c.reader.None?
    requires Possible(s, [Alloc(o.addr), if o.valid then Add(o.addr) else Free(o.addr)])
    requires c'.reader == if o.valid then Some(o.addr) else None
    ensures Lawful(s, [Alloc(o.addr), if o.valid then Add(o.addr) else Free(o.addr)])
    ensures var s' := After(s, [Alloc(o.addr), if o.valid then Add(o.addr) else Free(o.addr)]);
            Tended(s', c', locals) && s'.pc == s.pc
  {
    TwoLawful(s, Alloc(o.addr), if o.valid then Add(o.addr) else Free(o.addr));
  }

  lemma AddInterfaceKeeps(s: State, c: Controller, locals: set<Addr>, path: Path, i: Interface, o: Opening)
    requires Tended(s, c, locals) && Possible(s, AddInterface(c, path, i, o).ls)
    ensures Lawful(s, AddInterface(c, path, i, o).ls)
    ensures var s' := After(s, AddInterface(c, path, i, o).ls);
            Tended(s', AddInterface(c, path, i, o).c, locals) && s'.pc == s.pc
  {
    var made := AddInterface(c, path, i, o);
    AddInterfaceOnReader(c, path, i, o);
    if made.ls != [] {
      MakeReaderKeeps(s, c, made.c, locals, o);
    }
  }

  lemma {:induction false} AddInterfacesKeeps(s: State, c: Controller, locals: set<Addr>, path: Path,
                                              ifs: seq<Interface>, os: seq<Opening>)
    requires |ifs| == |os|
    requires Tended(s, c, locals) && Possible(s, AddInterfaces(c, path, ifs, os).ls)
    ensures Lawful(s, AddInterfaces(c, path, ifs, os).ls)
    ensures var s' := After(s, AddInterfaces(c, path, ifs, os).ls);
            Tended(s', AddInterfaces(c, path, ifs, os).c, locals) && s'.pc == s.pc
  {
    if ifs != [] {
      var n := |ifs| - 1;
      var before := AddInterfaces(c, path, ifs[..n], os[..n]);
      var last := AddInterface(before.c, path, ifs[n], os[n]);
      PossibleSplit(s, before.ls, last.ls);
      AddInterfacesKeeps(s, c, locals, path, ifs[..n], os[..n]);
      AddInterfaceKeeps(After(s, before.ls), before.c, locals, path, ifs[n], os[n]);
      RunsCompose(s, before.ls, last.ls);
    }
  }

  lemma {:induction false} RemovalKeepsReader(c: Controller, path: Path, ks: seq<Kind>)
    ensures RemoveInterfaces(c, path, ks).reader == c.reader
  {
    if ks != [] {
      RemovalKeepsReader(c, path, ks[..|ks| - 1]);
    }
  }

  lemma PrepareKeeps(s: System, a: Act)
    requires Good(s) && Can(s, a) && a.Prepare?
    ensures Lawful(s.loop, Labels(s, a)) && Good(Do(s, a))
  {
    var first := [Alloc(a.signals), Add(a.signals)];
    assert Labels(s, a) == first + [Alloc(a.client)];
    PossibleSplit(s.loop, first, [Alloc(a.client)]);
    SignalsRegistered(s.loop, a.signals);
    ClientMade(After(s.loop, first), a.client);
    RunsCompose(s.loop, first, [Alloc(a.client)]);
  }

  lemma SignalsRegistered(s: State, a: Addr)
    requires Alive(s) && s.pc.Setup? && s.mem.owned == {} && Possible(s, [Alloc(a), Add(a)])
    ensures Lawful(s, [Alloc(a), Add(a)])
    ensures var s' := After(s, [Alloc(a), Add(a)]); Alive(s') && s'.pc.Setup? && s'.mem.owned == {a}
  {
    TwoLawful(s, Alloc(a), Add(a));
  }

  lemma ClientMade(s: State, a: Addr)
    requires Alive(s) && s.pc.Setup? && Possible(s, [Alloc(a)])
    ensures Lawful(s, [Alloc(a)]) && a !in s.mem.owned
    ensures var s' := After(s, [Alloc(a)]); Alive(s') && s'.pc.Setup? && s'.mem.owned == s.mem.owned + {a}
  {
    OneLawful(s, Alloc(a));
  }

  lemma UdevKeeps(s: System, a: Act)
    requires Good(s) && Can(s, a) && a.Udev?
    ensures Lawful(s.loop, Labels(s, a)) && Good(Do(s, a))
  {
    if Labels(s, a) != [] {
      OneLawful(s.loop, Retire(s.c.reader.value));
    }
  }

  lemma DropSignalsKeeps(s: System, a: Act)
    requires Good(s) && Can(s, a) && a.DropSignals?
    ensures Lawful(s.loop, Labels(s, a)) && Good(Do(s, a))
  {
    OneLawful(s.loop, Free(s.signals));
  }

  lemma DropLoneClientKeeps(s: System, a: Act)
    requires Good(s) && Can(s, a) && a.DropClient? && s.c.reader.None?
    ensures Lawful(s.loop, Labels(s, a)) && Good(Do(s, a))
  {
    assert Labels(s, a) == [Free(s.client)];
    OneLawful(s.loop, Free(s.client));
  }

  lemma DropClientAndReaderKeeps(s: System, a: Act)
    requires Good(s) && Can(s, a) && a.DropClient? && s.c.reader.Some?
    ensures Lawful(s.loop, Labels(s, a)) && Good(Do(s, a))
  {
    assert Labels(s, a) == [Free(s.c.reader.value), Free(s.client)];
    TwoFreed(s.loop, s.c.reader.value, s.client);
  }

  lemma TwoFreed(s: State, a: Addr, b: Addr)
    requires Alive(s) && s.pc.Returned? && a in s.mem.owned && b in s.mem.owned && a != b
    requires Possible(s, [Free(a), Free(b)])
    ensures Lawful(s, [Free(a), Free(b)])
    ensures var s' := After(s, [Free(a), Free(b)]);
            Alive(s') && s'.pc == s.pc && s'.mem.owned == s.mem.owned - {a, b}
  {
    TwoLawful(s, Free(a), Free(b));
  }

  lemma RunKeeps(s: System, a: Act)
    requires Good(s) && Can(s, a) && a.Run?
    ensures Lawful(s.loop, Labels(s, a)) && Good(Do(s, a))
  {
    OneLawful(s.loop, a.l);
  }

  lemma SignalKeeps(s: System, a: Act)
    requires Good(s) && Can(s, a) && (a.Added? || a.Removed? || a.Changed? || a.RegisterClient?)
    ensures Lawful(s.loop, Labels(s, a)) && Good(Do(s, a))
  {
    if a.Added? {
      AddInterfacesKeeps(s.loop, s.c, {s.signals, s.client}, a.path, a.ifs, a.os);
    } else if a.Removed? {
      RemovalKeepsReader(s.c, a.path, a.ks);
    } else if a.RegisterClient? {
      OneLawful(s.loop, Add(s.client));
    }
  }

  /** Every act of the client keeps the loop's contract. */
  lemma GoodStep(s: System, a: Act)
    requires Good(s) && Can(s, a)
    ensures Lawful(s.loop, Labels(s, a)) && Good(Do(s, a))
  {
    match a
    case Prepare(_, _, _) => PrepareKeeps(s, a);
    case Udev(_, _, _) => UdevKeeps(s, a);
    case DropClient =>
      if s.c.reader.Some? {
        DropClientAndReaderKeeps(s, a);
      } else {
        DropLoneClientKeeps(s, a);
      }
    case DropSignals => DropSignalsKeeps(s, a);
    case Run(_) => RunKeeps(s, a);
    case _ => SignalKeeps(s, a);
  }

  /** The run of the loop underneath any run of the client is lawful, so all that
      is proved of lawful runs holds of the client. */
  lemma {:induction false} ClientKeepsTheContract(valid: bool, acts: seq<Act>)
    requires Feasible(valid, acts)
    ensures Good(Reached(valid, acts))
    ensures Lawful(Init(valid), Underneath(valid, acts))
    ensures After(Init(valid), Underneath(valid, acts)) == Reached(valid, acts).loop
  {
    if acts != [] {
      var front, last := acts[..|acts| - 1], acts[|acts| - 1];
      ClientKeepsTheContract(valid, front);
      var s := Reached(valid, front);
      GoodStep(s, last);
      RunsCompose(Init(valid), Underneath(valid, front), Labels(s, last));
    }
  }

  // ---- The life of the readers --------------------------------------------------------

  /** No object the client's loop touches or destroys is ever a dead one. */
  lemma ClientNeverDangles(valid: bool, acts: seq<Act>)
    requires Feasible(valid, acts)
    ensures forall e :: e in Reached(valid, acts).loop.log ==> Sound(e)
  {
    ClientKeepsTheContract(valid, acts);
    NoDanglingPointer(valid, Underneath(valid, acts));
  }

  /** At most one reader exists that is not retired, and right after
      apply_pending it is the only reader that exists or is in sources_. */
  lemma AtMostOneReader(valid: bool, acts: seq<Act>)
    requires Feasible(valid, acts) && Reached(valid, acts).stage.Live?
    ensures var s := Reached(valid, acts);
            && s.loop.mem.owned - {s.signals, s.client} == ReaderOf(s.c)
            && (s.loop.pc.AtRecheck? ==>
                  && s.loop.mem.heap.Keys == {s.signals, s.client} + ReaderOf(s.c)
                  && forall a :: a in s.loop.q.sources ==> a in {s.signals, s.client} + ReaderOf(s.c))
  {
    ClientKeepsTheContract(valid, acts);
    var s := Reached(valid, acts);
    SettledQueues(valid, Underneath(valid, acts));
  }

  /** Right after apply_pending nothing is pending. */
  lemma {:induction false} SettledQueues(valid: bool, ls: seq<Label>)
    requires Possible(Init(valid), ls)
    ensures var s := After(Init(valid), ls);
            s.pc.AtRecheck? ==> s.q.toAdd == [] && s.q.toRemove == [] && s.q.toRetire == []
  {
    if ls != [] {
      SettledQueues(valid, ls[..|ls| - 1]);
      assert Enabled(After(Init(valid), ls[..|ls| - 1]), ls[|ls| - 1]);
    }
  }

  /** When main() has returned, everything ever created, each reader included,
      has been destroyed exactly once. */
  lemma EveryReaderDestroyedOnce(valid: bool, acts: seq<Act>, k: Oid)
    requires Feasible(valid, acts)
    requires Reached(valid, acts).stage.AllGone? && Reached(valid, acts).loop.pc.Gone?
    requires k < Reached(valid, acts).loop.mem.next
    ensures Deaths(Reached(valid, acts).loop.log, k) == 1
  {
    ClientKeepsTheContract(valid, acts);
    EveryObjectDiesOnce(valid, Underneath(valid, acts), k);
    var s := Reached(valid, acts);
    assert s.loop.mem.heap.Keys == {};
  }

  // ---- A new reader is polled --------------------------------------------------------------

  /** The controller's reader, if any, is object `oid` and on its way into sources_. */
  ghost predicate Coming(s: State, c: Controller, oid: Oid) {
    c.reader.Some? && Awaited(s, c.reader.value, oid)
  }

  lemma MadeReaderComes(s: State, a: Addr)
    requires Alive(s) && CallersMayRun(s.pc) && Possible(s, [Alloc(a), Add(a)])
    ensures Awaited(After(s, [Alloc(a), Add(a)]), a, s.mem.next)
  {
    TwoSteps(s, Alloc(a), Add(a));
  }

  lemma IdentityStep(s: State, l: Label)
    requires Enabled(s, l)
    ensures Exec(s, l).mem.next >= s.mem.next
  {
  }

  lemma {:induction false} IdentitiesGrow(s: State, ls: seq<Label>)
    requires Possible(s, ls)
    ensures After(s, ls).mem.next >= s.mem.next
  {
    if ls != [] {
      IdentitiesGrow(s, ls[..|ls| - 1]);
      IdentityStep(After(s, ls[..|ls| - 1]), ls[|ls| - 1]);
    }
  }

  lemma {:induction false} NewReaderComes(s: State, c: Controller, locals: set<Addr>, path: Path,
                                          ifs: seq<Interface>, os: seq<Opening>)
    returns (oid: Oid)
    requires |ifs| == |os| && c.reader.None?
    requires Tended(s, c, locals) && Possible(s, AddInterfaces(c, path, ifs, os).ls)
    ensures var made := AddInterfaces(c, path, ifs, os);
            made.c.reader.Some? ==> Coming(After(s, made.ls), made.c, oid)
    ensures oid >= s.mem.next
  {
    oid := s.mem.next;
    if ifs != [] {
      var n := |ifs| - 1;
      var before := AddInterfaces(c, path, ifs[..n], os[..n]);
      var last := AddInterface(before.c, path, ifs[n], os[n]);
      PossibleSplit(s, before.ls, last.ls);
      oid := NewReaderComes(s, c, locals, path, ifs[..n], os[..n]);
      AddInterfacesKeeps(s, c, locals, path, ifs[..n], os[..n]);
      AddInterfaceOnReader(before.c, path, ifs[n], os[n]);
      var mid := After(s, before.ls);
      if before.c.reader.None? && last.c.reader.Some? {
        IdentitiesGrow(s, before.ls);
        MadeReaderComes(mid, os[n].addr);
        oid := mid.mem.next;
      }
    }
  }

  lemma {:induction false} NoSecondReader(c: Controller, path: Path, ifs: seq<Interface>, os: seq<Opening>)
    requires |ifs| == |os| && c.reader.Some?
    ensures AddInterfaces(c, path, ifs, os).ls == [] && AddInterfaces(c, path, ifs, os).c.reader == c.reader
  {
    if ifs != [] {
      var n := |ifs| - 1;
      NoSecondReader(c, path, ifs[..n], os[..n]);
      AddInterfaceOnReader(AddInterfaces(c, path, ifs[..n], os[..n]).c, path, ifs[n], os[n]);
    }
  }

  /** The act neither retires the reader nor settles the queues. */
  predicate Waits(a: Act) {
    !(a.Udev? && a.remove && a.hidraw) && a != Run(Apply)
  }

  lemma WaitStep(s: System, a: Act, oid: Oid)
    requires Good(s) && Can(s, a) && Waits(a) && Coming(s.loop, s.c, oid) && !Over(s.loop.pc)
    ensures Over(Do(s, a).loop.pc) || (Coming(Do(s, a).loop, Do(s, a).c, oid) && Do(s, a).c.reader == s.c.reader)
  {
    var r := s.c.reader.value;
    match a
    case Added(path, ifs, os) => NoSecondReader(s.c, path, ifs, os);
    case Removed(path, ks) => RemovalKeepsReader(s.c, path, ks);
    case RegisterClient =>
      OneLawful(s.loop, Add(s.client));
      AwaitedStep(s.loop, Add(s.client), r, oid);
    case Run(l) =>
      OneLawful(s.loop, l);
      AwaitedStep(s.loop, l, r, oid);
    case _ =>
  }

  lemma OverStep(s: State, l: Label)
    requires Enabled(s, l) && Over(s.pc)
    ensures Over(Exec(s, l).pc)
  {
  }

  lemma {:induction false} OverRun(s: State, ls: seq<Label>)
    requires Possible(s, ls) && Over(s.pc)
    ensures Over(After(s, ls).pc)
  {
    if ls != [] {
      OverRun(s, ls[..|ls| - 1]);
      OverStep(After(s, ls[..|ls| - 1]), ls[|ls| - 1]);
    }
  }

  lemma OverStays(s: System, a: Act)
    requires Can(s, a) && Over(s.loop.pc)
    ensures Over(Do(s, a).loop.pc)
  {
    OverRun(s.loop, Labels(s, a));
  }

  /** The reader at `r` is coming, or run() has returned before it could. */
  ghost predicate ComingOrOver(s: System, r: Addr, oid: Oid) {
    Over(s.loop.pc) || (s.c.reader == Some(r) && Awaited(s.loop, r, oid))
  }

  lemma WaitOn(s: System, a: Act, r: Addr, oid: Oid)
    requires Good(s) && Can(s, a) && Waits(a) && ComingOrOver(s, r, oid)
    ensures ComingOrOver(Do(s, a), r, oid)
  {
    if Over(s.loop.pc) {
      OverStays(s, a);
    } else {
      WaitStep(s, a, oid);
    }
  }

  lemma LastAct(valid: bool, front: seq<Act>, last: Act)
    requires Feasible(valid, front + [last])
    ensures Feasible(valid, front) && Good(Reached(valid, front)) && Can(Reached(valid, front), last)
    ensures Reached(valid, front + [last]) == Do(Reached(valid, front), last)
  {
    assert (front + [last])[..|front|] == front;
    ClientKeepsTheContract(valid, front);
  }

  lemma ComingStep(valid: bool, acts: seq<Act>, last: Act, r: Addr, oid: Oid)
    requires Feasible(valid, acts + [last]) && Waits(last)
    requires Feasible(valid, acts) && ComingOrOver(Reached(valid, acts), r, oid)
    ensures ComingOrOver(Reached(valid, acts + [last]), r, oid)
  {
    LastAct(valid, acts, last);
    WaitOn(Reached(valid, acts), last, r, oid);
  }

  lemma SplitLast<T>(s: seq<T>, t: seq<T>)
    requires t != []
    ensures s + t == (s + t[..|t| - 1]) + [t[|t| - 1]]
  {
  }

  lemma {:induction false} StaysComing(valid: bool, before: seq<Act>, waiting: seq<Act>, r: Addr, oid: Oid)
    requires Feasible(valid, before + waiting)
    requires forall n :: 0 <= n < |waiting| ==> Waits(waiting[n])
    requires Feasible(valid, before) && ComingOrOver(Reached(valid, before), r, oid)
    ensures ComingOrOver(Reached(valid, before + waiting), r, oid)
  {
    if waiting == [] {
      assert before + waiting == before;
    } else {
      var front, last := waiting[..|waiting| - 1], waiting[|waiting| - 1];
      SplitLast(before, waiting);
      FeasibleFront(valid, before + front, last);
      StaysComing(valid, before, front, r, oid);
      ComingStep(valid, before + front, last, r, oid);
    }
  }

  lemma FeasibleFront(valid: bool, front: seq<Act>, last: Act)
    requires Feasible(valid, front + [last])
    ensures Feasible(valid, front)
  {
  }

  lemma MadeByAct(s: System, add: Act) returns (oid: Oid)
    requires Good(s) && Can(s, add) && add.Added? && s.c.reader.None? && Do(s, add).c.reader.Some?
    ensures oid >= s.loop.mem.next
    ensures !Over(Do(s, add).loop.pc) && Awaited(Do(s, add).loop, Do(s, add).c.reader.value, oid)
  {
    oid := NewReaderComes(s.loop, s.c, {s.signals, s.client}, add.path, add.ifs, add.os);
    AddInterfacesKeeps(s.loop, s.c, {s.signals, s.client}, add.path, add.ifs, add.os);
  }

  lemma ArrivesAtApply(s: System, r: Addr, oid: Oid)
    requires Good(s) && Can(s, Run(Apply)) && ComingOrOver(s, r, oid)
    ensures InPollSet(Do(s, Run(Apply)).loop, r, oid)
  {
    OneLawful(s.loop, Apply);
    SettleIsSetUpdate(s.loop.q.sources, s.loop.q.toAdd, s.loop.q.toRemove);
    assert r in Elems(Exec(s.loop, Apply).q.sources);
    assert r !in Elems(s.loop.q.toRetire);
  }

  /** `r` is in sources_ and is object `oid`. */
  ghost predicate InPollSet(s: State, r: Addr, oid: Oid) {
    r in s.q.sources && r in s.mem.heap && s.mem.heap[r] == oid
  }

  lemma FeasibleParts(valid: bool, before: seq<Act>, add: Act, waiting: seq<Act>, last: Act)
    requires Feasible(valid, before + [add] + waiting + [last])
    ensures Feasible(valid, before) && Feasible(valid, before + [add]) && Feasible(valid, before + [add] + waiting)
  {
    FeasibleFront(valid, before + [add] + waiting, last);
    FeasiblePrefix(valid, before + [add], waiting);
    FeasibleFront(valid, before, add);
  }

  lemma {:induction false} FeasiblePrefix(valid: bool, acts: seq<Act>, more: seq<Act>)
    requires Feasible(valid, acts + more)
    ensures Feasible(valid, acts)
  {
    if more == [] {
      assert acts + more == acts;
    } else {
      SplitLast(acts, more);
      FeasibleFront(valid, acts + more[..|more| - 1], more[|more| - 1]);
      FeasiblePrefix(valid, acts, more[..|more| - 1]);
    }
  }

  /** A reader that an added signal has just made, a new object, is in sources_
      after the next apply_pending, unless a udev removal retires it first; and what
      is there at its address is that reader. */
  lemma NewReaderReachesSources(valid: bool, before: seq<Act>, add: Act, waiting: seq<Act>) returns (oid: Oid)
    requires Feasible(valid, before + [add] + waiting + [Run(Apply)])
    requires add.Added? && (Feasible(valid, before) ==> Reached(valid, before).c.reader.None?)
    requires Feasible(valid, before + [add]) ==> Reached(valid, before + [add]).c.reader.Some?
    requires forall n :: 0 <= n < |waiting| ==> Waits(waiting[n])
    ensures Feasible(valid, before) && Feasible(valid, before + [add])
    ensures var made := Reached(valid, before + [add]);
            && oid >= Reached(valid, before).loop.mem.next
            && Awaited(made.loop, made.c.reader.value, oid)
            && InPollSet(Reached(valid, before + [add] + waiting + [Run(Apply)]).loop, made.c.reader.value, oid)
  {
    var acts := before + [add];
    FeasibleParts(valid, before, add, waiting, Run(Apply));
    LastAct(valid, before, add);
    oid := MadeByAct(Reached(valid, before), add);
    var r := Reached(valid, acts).c.reader.value;
    LastAct(valid, acts + waiting, Run(Apply));
    StaysComing(valid, acts, waiting, r, oid);
    ArrivesAtApply(Reached(valid, acts + waiting), r, oid);
  }
}
