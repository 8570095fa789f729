/** Ownership of file descriptors: the UniqueFd wrapper against the kernel's
    descriptor table, and the early returns of open_and_init. */
module UniqueFds {
  import opened Seqs

  /** The process's descriptor table: what is open, and every close() call with
      whether the descriptor was open. */
  datatype Table = Table(open: set<int>, closes: seq<Close>) {
    function Closed(fd: int): Table {
      Table(open - {fd}, closes + [Close(fd, fd in open)])
    }
  }

  datatype Close = Close(fd: int, wasOpen: bool)

  /** What a UniqueFd holds. */
  datatype Handle = Handle(fd: int, owns: bool) {
    predicate Holds() { owns && fd >= 0 }
  }

  const EMPTY := Handle(-1, true)

  /** reset(fd): what is closed. */
  function TableAfterReset(t: Table, h: Handle, fd: int): Table {
    if h.owns && h.fd >= 0 && h.fd != fd then t.Closed(h.fd) else t
  }

  class Kernel {
    var table: Table

    constructor ()
      ensures table == Table({}, [])
    {
      table := Table({}, []);
    }

    method CloseFd(fd: int)
      modifies this
      ensures table == old(table).Closed(fd)
    {
      table := table.Closed(fd);
    }

    /** open() and the like: a descriptor that was not open. */
    method Opened(fd: int)
      requires fd >= 0 && fd !in table.open
      modifies this
      ensures table == old(table).(open := old(table).open + {fd})
    {
      table := table.(open := table.open + {fd});
    }
  }

  class UniqueFd {
    var fd: int
    var owns: bool

    function View(): Handle
      reads this
    {
      Handle(fd, owns)
    }

    constructor (fd: int)
      ensures View() == Handle(fd, true)
    {
      this.fd, owns := fd, true;
    }

    constructor Borrow(fd: int)
      ensures View() == Handle(fd, false)
    {
      this.fd, owns := fd, false;
    }

    constructor Move(other: UniqueFd)
      modifies other
      ensures View() == old(other.View()) && other.View() == EMPTY
    {
      fd, owns := other.fd, other.owns;
      new;
      other.fd := -1;
      other.owns := true;
    }

    method Reset(fd: int, k: Kernel)
      modifies this, k
      ensures View() == Handle(fd, true)
      ensures k.table == TableAfterReset(old(k.table), old(View()), fd)
    {
      if owns && this.fd >= 0 && this.fd != fd {
        k.CloseFd(this.fd);
      }
      this.fd := fd;
      owns := true;
    }

    method Assign(other: UniqueFd, k: Kernel)
      modifies this, other, k
      ensures View() == old(other.View())
      ensures other != this ==> other.View() == EMPTY
      ensures k.table == if other == this then old(k.table) else TableAfterReset(old(k.table), old(View()), -1)
    {
      if other != this {
        Reset(-1, k);
        fd := other.fd;
        owns := other.owns;
        other.fd := -1;
        other.owns := true;
      }
    }

    method Release() returns (released: int)
      modifies this
      ensures released == old(fd) && View() == EMPTY
    {
      released := fd;
      fd := -1;
      owns := true;
    }

    method Destroy(k: Kernel)
      modifies this, k
      ensures View() == EMPTY && k.table == TableAfterReset(old(k.table), old(View()), -1)
    {
      Reset(-1, k);
    }
  }

  // ---- Any sequence of operations ------------------------------------------------

  type Id = nat

  /** Descriptors in the hands of wrappers and of plain code. */
  datatype World = World(table: Table, wrappers: map<Id, Handle>, raw: set<int>)

  datatype Op =
    | Open(fd: int)                       // a system call hands plain code a descriptor
    | RawClose(fd: int)                   // plain code closes one it owns
    | Make(id: Id, fd: int) | MakeBorrow(id: Id, fd: int) | MoveMake(id: Id, from: Id)
    | MoveAssign(id: Id, from: Id) | Reset(id: Id, fd: int) | Release(id: Id) | Destroy(id: Id)

  predicate CanDo(w: World, op: Op) {
    match op
    case Open(fd) => fd >= 0 && fd !in w.table.open
    case RawClose(fd) => fd in w.raw
    case Make(id, _) => id !in w.wrappers
    case MakeBorrow(id, _) => id !in w.wrappers
    case MoveMake(id, from) => id !in w.wrappers && from in w.wrappers
    case MoveAssign(id, from) => id in w.wrappers && from in w.wrappers
    case Reset(id, _) => id in w.wrappers
    case Release(id) => id in w.wrappers
    case Destroy(id) => id in w.wrappers
  }

  /** An owning adoption is of an open descriptor nobody else owns. */
  predicate Disciplined(w: World, op: Op) {
    match op
    case Make(_, fd) => fd < 0 || fd in w.raw
    case Reset(id, fd) => fd < 0 || fd in w.raw || (id in w.wrappers && w.wrappers[id] == Handle(fd, true))
    case _ => true
  }

  /** What `from` held goes to `id`. */
  function Moved(wrappers: map<Id, Handle>, id: Id, from: Id): map<Id, Handle>
    requires from in wrappers
  {
    wrappers[id := wrappers[from]][from := EMPTY]
  }

  function Perform(w: World, op: Op): World
    requires CanDo(w, op)
  {
    match op
    case Open(fd) => w.(table := w.table.(open := w.table.open + {fd}), raw := w.raw + {fd})
    case RawClose(fd) => w.(table := w.table.Closed(fd), raw := w.raw - {fd})
    case Make(id, fd) => w.(wrappers := w.wrappers[id := Handle(fd, true)], raw := w.raw - {fd})
    case MakeBorrow(id, fd) => w.(wrappers := w.wrappers[id := Handle(fd, false)])
    case MoveMake(id, from) => w.(wrappers := Moved(w.wrappers, id, from))
    case MoveAssign(id, from) =>
      if id == from then w else
      w.(table := TableAfterReset(w.table, w.wrappers[id], -1),
         wrappers := Moved(w.wrappers, id, from))
    case Reset(id, fd) =>
      w.(table := TableAfterReset(w.table, w.wrappers[id], fd),
         wrappers := w.wrappers[id := Handle(fd, true)], raw := w.raw - {fd})
    case Release(id) =>
      w.(wrappers := w.wrappers[id := EMPTY],
         raw := if w.wrappers[id].Holds() then w.raw + {w.wrappers[id].fd} else w.raw)
    case Destroy(id) =>
      w.(table := TableAfterReset(w.table, w.wrappers[id], -1), wrappers := w.wrappers - {id})
  }

  predicate Orderly(ops: seq<Op>)
    decreases |ops|, 0
  {
    ops == [] ||
    (Orderly(ops[..|ops| - 1]) && CanDo(Result(ops[..|ops| - 1]), ops[|ops| - 1])
     && Disciplined(Result(ops[..|ops| - 1]), ops[|ops| - 1]))
  }

  function Result(ops: seq<Op>): World
    requires Orderly(ops)
    decreases |ops|, 1
  {
    if ops == [] then World(Table({}, []), map[], {}) else Perform(Result(ops[..|ops| - 1]), ops[|ops| - 1])
  }

  /** Some wrapper owns `fd`. */
  ghost predicate OwnedBy(wrappers: map<Id, Handle>, fd: int) {
    exists id :: id in wrappers && wrappers[id].Holds() && wrappers[id].fd == fd
  }

  ghost predicate Conserved(w: World) {
    && (forall fd :: fd in w.table.open <==> OwnedBy(w.wrappers, fd) || fd in w.raw)
    && (forall fd :: fd in w.raw ==> fd >= 0 && !OwnedBy(w.wrappers, fd))
    && (forall i, j :: i in w.wrappers && j in w.wrappers && i != j && w.wrappers[i].Holds() && w.wrappers[j].Holds()
          ==> w.wrappers[i].fd != w.wrappers[j].fd)
    && (forall k :: 0 <= k < |w.table.closes| ==> w.table.closes[k].wasOpen)
  }

  /** The op closes `fd`. */
  ghost predicate Closes(w: World, op: Op, fd: int)
    requires CanDo(w, op)
  {
    |Perform(w, op).table.closes| > |w.table.closes| && Perform(w, op).table.closes[|w.table.closes|].fd == fd
  }

  lemma OwnedAfter(wrappers: map<Id, Handle>, id: Id, h: Handle, fd: int)
    ensures OwnedBy(wrappers[id := h], fd) <==>
              || (h.Holds() && h.fd == fd)
              || exists j :: j in wrappers && j != id && wrappers[j].Holds() && wrappers[j].fd == fd
  {
    var wrappers' := wrappers[id := h];
    assert wrappers'[id] == h;
    if j :| j in wrappers && j != id && wrappers[j].Holds() && wrappers[j].fd == fd {
      assert wrappers'[j] == wrappers[j];
    }
  }

  /** Storing `h` in place of what wrapper `id` held. */
  lemma Stored(w: World, id: Id, h: Handle)
    requires Conserved(w)
    ensures forall fd :: OwnedBy(w.wrappers[id := h], fd) <==>
              (h.Holds() && h.fd == fd)
              || (OwnedBy(w.wrappers, fd) && !(id in w.wrappers && w.wrappers[id] == Handle(fd, true)))
  {
    forall fd ensures OwnedBy(w.wrappers[id := h], fd) <==>
              (h.Holds() && h.fd == fd)
              || (OwnedBy(w.wrappers, fd) && !(id in w.wrappers && w.wrappers[id] == Handle(fd, true)))
    {
      OwnedAfter(w.wrappers, id, h, fd);
    }
  }

  /** The descriptor the op closes was the op's to close: a wrapper closes only
      what it owns, never what it borrows. */
  ghost predicate ClosedByOwner(w: World, op: Op, fd: int) {
    match op
    case RawClose(f) => f == fd && fd in w.raw
    case MoveAssign(id, _) => id in w.wrappers && w.wrappers[id] == Handle(fd, true)
    case Reset(id, _) => id in w.wrappers && w.wrappers[id] == Handle(fd, true)
    case Destroy(id) => id in w.wrappers && w.wrappers[id] == Handle(fd, true)
    case _ => false
  }

  /** Steps that only hand descriptors to wrappers and back. */
  lemma HandoverConserves(w: World, op: Op)
    requires Conserved(w) && CanDo(w, op) && Disciplined(w, op)
    requires op.Open? || op.RawClose? || op.Make? || op.MakeBorrow? || op.Release?
    ensures Conserved(Perform(w, op))
    ensures forall fd :: Closes(w, op, fd) ==> ClosedByOwner(w, op, fd) && fd !in Perform(w, op).table.open
  {
    match op
    case Open(fd) =>
    case RawClose(fd) =>
    case Make(id, fd) => Stored(w, id, Handle(fd, true));
    case MakeBorrow(id, fd) => Stored(w, id, Handle(fd, false));
    case Release(id) => Stored(w, id, EMPTY);
  }

  lemma ConservedStep(w: World, op: Op)
    requires Conserved(w) && CanDo(w, op) && Disciplined(w, op)
    ensures Conserved(Perform(w, op))
    ensures forall fd :: Closes(w, op, fd) ==> ClosedByOwner(w, op, fd) && fd !in Perform(w, op).table.open
  {
    match op
    case MoveMake(_, _) => MoveConserves(w, op);
    case MoveAssign(_, _) => MoveConserves(w, op);
    case Reset(id, fd) => Stored(w, id, Handle(fd, true));
    case Destroy(id) => DestroyKeeps(w, id);
    case _ => HandoverConserves(w, op);
  }

  lemma MoveConserves(w: World, op: Op)
    requires Conserved(w) && CanDo(w, op) && (op.MoveMake? || op.MoveAssign?)
    ensures Conserved(Perform(w, op))
    ensures forall fd :: Closes(w, op, fd) ==> ClosedByOwner(w, op, fd) && fd !in Perform(w, op).table.open
  {
    if op.id != op.from {
      MoveKeeps(w, op.id, op.from);
    }
  }

  lemma DestroyKeeps(w: World, id: Id)
    requires Conserved(w) && id in w.wrappers
    ensures forall fd :: OwnedBy(w.wrappers - {id}, fd) <==>
              OwnedBy(w.wrappers, fd) && w.wrappers[id] != Handle(fd, true)
  {
    var wrappers' := w.wrappers - {id};
    Stored(w, id, EMPTY);
    forall fd ensures OwnedBy(wrappers', fd) <==> OwnedBy(w.wrappers[id := EMPTY], fd) {
      OwnedAfter(w.wrappers, id, EMPTY, fd);
      if j :| j in w.wrappers && j != id && w.wrappers[j].Holds() && w.wrappers[j].fd == fd {
        assert j in wrappers' && wrappers'[j] == w.wrappers[j];
      }
    }
  }

  lemma MoveKeeps(w: World, id: Id, from: Id)
    requires Conserved(w) && id != from && from in w.wrappers
    ensures var wrappers' := Moved(w.wrappers, id, from);
            forall fd :: OwnedBy(wrappers', fd) <==>
              OwnedBy(w.wrappers, fd) && !(id in w.wrappers && w.wrappers[id] == Handle(fd, true))
  {
    var mid := w.wrappers[id := w.wrappers[from]];
    forall fd ensures OwnedBy(mid[from := EMPTY], fd) <==>
              OwnedBy(w.wrappers, fd) && !(id in w.wrappers && w.wrappers[id] == Handle(fd, true))
    {
      OwnedAfter(mid, from, EMPTY, fd);
      if j :| j in w.wrappers && w.wrappers[j].Holds() && w.wrappers[j].fd == fd && j != id {
        assert if j == from then id in mid && mid[id] == w.wrappers[j] else j in mid && mid[j] == w.wrappers[j];
      }
    }
  }

  /** Over any disciplined sequence of operations: open = owned + released, every
      owned descriptor has one owner, and no close() hits a closed one. */
  lemma {:induction false} DescriptorsAreConserved(ops: seq<Op>)
    requires Orderly(ops)
    ensures Conserved(Result(ops))
  {
    if ops != [] {
      DescriptorsAreConserved(ops[..|ops| - 1]);
      ConservedStep(Result(ops[..|ops| - 1]), ops[|ops| - 1]);
    }
  }

  // ---- The operations on real wrappers ----------------------------------------------

  /** A process: its descriptor table, its wrapper objects, and the descriptors in
      the hands of plain code. */
  class Process {
    const k: Kernel
    var fds: map<Id, UniqueFd>
    var raw: set<int>

    ghost predicate Valid()
      reads this
    {
      forall i, j :: i in fds && j in fds && i != j ==> fds[i] != fds[j]
    }

    ghost function Handles(): map<Id, Handle>
      reads this, fds.Values
    {
      map i | i in fds :: fds[i].View()
    }

    ghost function View(): World
      reads this, k, fds.Values
    {
      World(k.table, Handles(), raw)
    }

    constructor ()
      ensures Valid() && View() == Result([]) && fds == map[]
      ensures fresh(k)
    {
      k := new Kernel();
      fds, raw := map[], {};
    }

    /** Keeps a new wrapper under `id`. */
    method Keep(id: Id, w: UniqueFd)
      requires Valid() && id !in fds && w !in fds.Values
      modifies this`fds
      ensures Valid() && fds == old(fds)[id := w] && Handles() == old(Handles())[id := w.View()]
    {
      fds := fds[id := w];
    }

    method ByCode(op: Op)
      requires Valid() && CanDo(View(), op) && (op.Open? || op.RawClose?)
      modifies this, k
      ensures Valid() && fds == old(fds) && View() == Perform(old(View()), op)
    {
      if op.Open? {
        k.Opened(op.fd);
        raw := raw + {op.fd};
      } else {
        k.CloseFd(op.fd);
        raw := raw - {op.fd};
      }
    }

    method Construct(op: Op)
      requires Valid() && CanDo(View(), op) && (op.Make? || op.MakeBorrow?)
      modifies this
      ensures Valid() && fresh(fds.Values - old(fds.Values)) && View() == Perform(old(View()), op)
    {
      var w;
      if op.Make? {
        w := new UniqueFd(op.fd);
        raw := raw - {op.fd};
      } else {
        w := new UniqueFd.Borrow(op.fd);
      }
      Keep(op.id, w);
    }

    method MoveConstruct(op: Op)
      requires Valid() && CanDo(View(), op) && op.MoveMake?
      modifies this, fds.Values
      ensures Valid() && fresh(fds.Values - old(fds.Values)) && View() == Perform(old(View()), op)
    {
      ghost var before := Handles();
      var w := new UniqueFd.Move(fds[op.from]);
      assert Handles() == before[op.from := EMPTY];
      Keep(op.id, w);
      assert Handles() == Moved(before, op.id, op.from);
    }

    method MoveAssigned(op: Op)
      requires Valid() && CanDo(View(), op) && op.MoveAssign?
      modifies k, fds.Values
      ensures Valid() && View() == Perform(old(View()), op)
    {
      ghost var before := Handles();
      fds[op.id].Assign(fds[op.from], k);
      if op.id != op.from {
        assert Handles() == Moved(before, op.id, op.from);
      } else {
        assert Handles() == before;
      }
    }

    method ResetOrRelease(op: Op)
      requires Valid() && CanDo(View(), op) && (op.Reset? || op.Release?)
      modifies this`raw, k, fds.Values
      ensures Valid() && View() == Perform(old(View()), op)
    {
      ghost var before := Handles();
      if op.Reset? {
        fds[op.id].Reset(op.fd, k);
        assert Handles() == before[op.id := Handle(op.fd, true)];
        raw := raw - {op.fd};
      } else {
        var owned := fds[op.id].owns && fds[op.id].fd >= 0;
        var fd := fds[op.id].Release();
        assert Handles() == before[op.id := EMPTY];
        if owned {
          raw := raw + {fd};
        }
      }
    }

    method Destruct(op: Op)
      requires Valid() && CanDo(View(), op) && op.Destroy?
      modifies this`fds, k, fds.Values
      ensures Valid() && fds == old(fds) - {op.id} && View() == Perform(old(View()), op)
    {
      ghost var before := Handles();
      fds[op.id].Destroy(k);
      fds := fds - {op.id};
      assert Handles() == before - {op.id};
    }

    /** One operation, carried out by the wrapper class. */
    method Do(op: Op)
      requires Valid() && CanDo(View(), op)
      modifies this, k, fds.Values
      ensures Valid() && fresh(fds.Values - old(fds.Values)) && View() == Perform(old(View()), op)
    {
      match op
      case Open(_) => ByCode(op);
      case RawClose(_) => ByCode(op);
      case Make(_, _) => Construct(op);
      case MakeBorrow(_, _) => Construct(op);
      case MoveMake(_, _) => MoveConstruct(op);
      case MoveAssign(_, _) => MoveAssigned(op);
      case Destroy(_) => Destruct(op);
      case _ => ResetOrRelease(op);
    }

    /** Any disciplined sequence of operations, carried out by the wrapper class,
        leaves descriptors conserved: no close() ever hit a closed one. */
    method Run(ops: seq<Op>)
      requires Valid() && View() == Result([]) && Orderly(ops)
      modifies this, k, fds.Values
      ensures View() == Result(ops) && Conserved(View())
    {
      for n := 0 to |ops|
        invariant Valid() && fresh(fds.Values - old(fds.Values))
        invariant Orderly(ops[..n]) && View() == Result(ops[..n])
      {
        OrderlyPrefix(ops, n + 1);
        assert ops[..n + 1][..n] == ops[..n];
        Do(ops[n]);
      }
      assert ops[..|ops|] == ops;
      DescriptorsAreConserved(ops);
    }
  }

  lemma {:induction false} OrderlyPrefix(ops: seq<Op>, n: nat)
    requires Orderly(ops) && n <= |ops|
    ensures Orderly(ops[..n])
    decreases |ops|
  {
    if n == |ops| {
      assert ops[..n] == ops;
    } else {
      var front := ops[..|ops| - 1];
      OrderlyPrefix(front, n);
      assert front[..n] == ops[..n];
    }
  }

  // ---- open_and_init ----------------------------------------------------------------

  /** HID_MAX_DESCRIPTOR_SIZE of the kernel's HID interface. */
  const MAX_DESCRIPTOR_SIZE := 4096

  /** What open() and the ioctls report to one InputReader. */
  datatype Replies = Replies(node: Option<int>, rawInfo: Option<int>, rawName: bool, rawPhys: bool,
                             descSize: Option<int>, desc: bool) {
    predicate AllWell() {
      && node.Some? && rawInfo.Some? && rawName && rawPhys
      && descSize.Some? && 0 <= descSize.value <= 4096 && desc
    }
  }

  class InputReader {
    const fd: UniqueFd
    var product: int

    /** The constructor: opens and initialises; leaves fd empty on failure. On
        every failure exit the descriptor opened is closed exactly once; on
        success it stays open and is the reader's. */
    constructor (k: Kernel, r: Replies)
      requires r.node.Some? ==> r.node.value >= 0 && r.node.value !in k.table.open
      modifies k
      ensures fresh(fd)
      ensures r.AllWell() ==>
                && fd.View() == Handle(r.node.value, true)
                && k.table == Table(old(k.table).open + {r.node.value}, old(k.table).closes)
      ensures !r.AllWell() ==>
                && fd.View() == EMPTY
                && k.table == if r.node.None? then old(k.table)
                              else Table(old(k.table).open, old(k.table).closes + [Close(r.node.value, true)])
      ensures product == if r.node.Some? && r.rawInfo.Some? then r.rawInfo.value else 0
    {
      fd := new UniqueFd(-1);
      product := 0;
      new;
      OpenAndInit(k, r);
    }

    method OpenAndInit(k: Kernel, r: Replies)
      requires fd.View() == EMPTY
      requires r.node.Some? ==> r.node.value >= 0 && r.node.value !in k.table.open
      modifies this, fd, k
      ensures r.AllWell() ==>
                && fd.View() == Handle(r.node.value, true)
                && k.table == Table(old(k.table).open + {r.node.value}, old(k.table).closes)
      ensures !r.AllWell() ==>
                && fd.View() == EMPTY
                && k.table == if r.node.None? then old(k.table)
                              else Table(old(k.table).open, old(k.table).closes + [Close(r.node.value, true)])
      ensures product == if r.node.Some? && r.rawInfo.Some? then r.rawInfo.value else old(product)
    {
      if r.node.None? {
        return;
      }
      k.Opened(r.node.value);
      assert k.table.open - {r.node.value} == old(k.table).open;
      var outer := new UniqueFd(r.node.value);
      var local := new UniqueFd.Move(outer);
      if r.rawInfo.None? {
        Leave(local, outer, k);
        return;
      }
      product := r.rawInfo.value;
      if !r.rawName {
        Leave(local, outer, k);
        return;
      }
      if !r.rawPhys {
        Leave(local, outer, k);
        return;
      }
      if r.descSize.None? {
        Leave(local, outer, k);
        return;
      }
      if r.descSize.value < 0 || r.descSize.value > MAX_DESCRIPTOR_SIZE {
        Leave(local, outer, k);
        return;
      }
      if !r.desc {
        Leave(local, outer, k);
        return;
      }
      fd.Assign(local, k);
      Leave(local, outer, k);
    }

    /** The destructors of the two locals, in reverse order of construction. */
    static method Leave(local: UniqueFd, outer: UniqueFd, k: Kernel)
      requires outer != local && outer.View() == EMPTY
      modifies local, outer, k
      ensures k.table == TableAfterReset(old(k.table), old(local.View()), -1)
    {
      local.Destroy(k);
      outer.Destroy(k);
    }
  }
}
