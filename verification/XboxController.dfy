/** The Xbox controller client: the maps it keeps in step with BlueZ and UPower
    signals, and the one InputReader it hands to the event loop and retires. */
module XboxControllers {
  import opened Seqs
  import opened EventQueues
  import opened LoopProtocol
  import opened LoopMemory
  import opened EventLoops
  import opened Text
  import opened Hidraws

  type Path = string

  const VENDOR_ID := "045E"
  const PRODUCT_ID0 := "02FD"
  const PRODUCT_ID1 := "0B13"
  const MAX_ADAPTERS := 64
  const MAX_DEVICES := 1024
  const MAX_INPUT_ENTRIES := 1024
  const MAX_UPOWER_CLIENTS := 256
  const POWER_PREFIX := "/org/freedesktop/UPower/devices/battery_ps_controller_battery_"

  datatype Modalias = Modalias(vid: string, pid: string, did: string)

  /** The Device1 properties that matter; a modalias that is missing or does not
      parse is None. */
  datatype Peer = Peer(modalias: Option<Modalias>, address: string, connected: bool, paired: bool, trusted: bool)

  /** One entry of an InterfacesAdded signal. */
  datatype Interface = Standard | Adapter1 | Device1(peer: Peer) | Input1 | Other

  /** An interface name in an InterfacesRemoved signal. */
  datatype Kind = AdapterKind | DeviceKind | InputKind | OtherKind

  /** What constructing an InputReader would give: where the allocator puts it
      and whether its device opens. */
  datatype Opening = Opening(addr: Addr, valid: bool)

  datatype Controller = Controller(adapters: set<Path>, devices: map<Path, Peer>, inputs: set<Path>,
                                   clients: set<string>, reader: Option<Addr>, hid: map<string, string>)

  /** A controller after a callback, with what the callback did to the heap and
      the loop. */
  datatype Outcome = Outcome(c: Controller, ls: seq<Label>)

  predicate IsXbox(m: Modalias) {
    m.vid == VENDOR_ID && (m.pid == PRODUCT_ID0 || m.pid == PRODUCT_ID1)
  }

  predicate Ours(p: Peer) { p.modalias.Some? && IsXbox(p.modalias.value) }

  function PowerPath(mac: string): string {
    POWER_PREFIX + Lower(Replaced(mac, ':', 'o'))
  }

  method ConvertMacToUPowerPath(mac: string) returns (path: string)
    ensures path == PowerPath(mac)
  {
    var local := new char[|mac|](i requires 0 <= i < |mac| => mac[i]);
    assert local[..] == mac;
    ReplaceInPlace(local, ':', 'o');
    LowerInPlace(local);
    path := POWER_PREFIX + local[..];
  }

  /** Two addresses share a UPower path exactly when they agree ignoring case:
      no hexadecimal digit lowers to the letter that stands for the colon. */
  lemma PowerPathIsInjective(a: string, b: string)
    requires MacLike(a) && MacLike(b)
    ensures PowerPath(a) == PowerPath(b) <==> Lower(a) == Lower(b)
  {
    var x, y := Lower(Replaced(a, ':', 'o')), Lower(Replaced(b, ':', 'o'));
    assert PowerPath(a)[|POWER_PREFIX|..] == x && PowerPath(b)[|POWER_PREFIX|..] == y;
    if x == y {
      forall i | 0 <= i < |a| ensures ToLower(a[i]) == ToLower(b[i]) {
        assert x[i] == y[i];
      }
      assert Lower(a) == Lower(b);
    }
    if Lower(a) == Lower(b) {
      forall i | 0 <= i < |a| ensures x[i] == y[i] {
        assert Lower(a)[i] == Lower(b)[i];
      }
      assert x == y;
    }
  }

  // ---- What the callbacks do -----------------------------------------------------

  function Node(hid: map<string, string>, key: string): string {
    if key in hid then hid[key] else ""
  }

  predicate WantsReader(c: Controller, p: Peer) {
    p.connected && p.paired && p.trusted && Node(c.hid, DeviceKey(p.address)) != "" && c.reader.None?
  }

  function OpenReader(c: Controller, p: Peer, o: Opening): Outcome {
    if !WantsReader(c, p) then Outcome(c, [])
    else Outcome(if o.valid then c.(reader := Some(o.addr)) else c,
                 [Alloc(o.addr), if o.valid then Add(o.addr) else Free(o.addr)])
  }

  function AddClient(c: Controller, path: string): Controller {
    if path in c.clients || |c.clients| >= MAX_UPOWER_CLIENTS then c else c.(clients := c.clients + {path})
  }

  function AddDevice(c: Controller, path: Path, p: Peer, o: Opening): Outcome {
    if !Ours(p) || path in c.devices || |c.devices| >= MAX_DEVICES then Outcome(c, [])
    else
      var outcome := OpenReader(c.(devices := c.devices[path := p]), p, o);
      outcome.(c := AddClient(outcome.c, PowerPath(p.address)))
  }

  function AddInterface(c: Controller, path: Path, i: Interface, o: Opening): Outcome {
    match i
    case Adapter1 =>
      Outcome(if path in c.adapters || |c.adapters| >= MAX_ADAPTERS then c else c.(adapters := c.adapters + {path}), [])
    case Device1(p) => AddDevice(c, path, p, o)
    case Input1 =>
      Outcome(if path in c.inputs || |c.inputs| >= MAX_INPUT_ENTRIES then c else c.(inputs := c.inputs + {path}), [])
    case _ => Outcome(c, [])
  }

  function AddInterfaces(c: Controller, path: Path, ifs: seq<Interface>, os: seq<Opening>): Outcome
    requires |ifs| == |os|
  {
    if ifs == [] then Outcome(c, []) else
    var n := |ifs| - 1;
    var before := AddInterfaces(c, path, ifs[..n], os[..n]);
    var last := AddInterface(before.c, path, ifs[n], os[n]);
    Outcome(last.c, before.ls + last.ls)
  }

  function RemoveInterface(c: Controller, path: Path, k: Kind): Controller {
    match k
    case AdapterKind => c.(adapters := c.adapters - {path})
    case InputKind => c.(inputs := c.inputs - {path})
    case DeviceKind =>
      if path !in c.devices then c
      else if !Ours(c.devices[path]) then c.(devices := c.devices - {path})
      else c.(devices := c.devices - {path}, clients := c.clients - {PowerPath(c.devices[path].address)})
    case OtherKind => c
  }

  function RemoveInterfaces(c: Controller, path: Path, ks: seq<Kind>): Controller {
    if ks == [] then c
    else RemoveInterface(RemoveInterfaces(c, path, ks[..|ks| - 1]), path, ks[|ks| - 1])
  }

  /** What a rescan of the hidraw nodes finds: Bluetooth first, then USB. */
  datatype Scan = Scan(inputs: seq<Device>, hidraws: seq<Device>)

  function Rescan(bt: Scan, usb: Scan): map<string, string> {
    if bt.inputs != [] then Join(bt.inputs, bt.hidraws) else Join(usb.inputs, usb.hidraws)
  }

  /** The scan that counts: the Bluetooth one if it found any input. */
  function Chosen(bt: Scan, usb: Scan): Scan {
    if bt.inputs == [] then usb else bt
  }

  /** After a scan the nodes are exactly what its pairs give. */
  lemma RescanAssociates(bt: Scan, usb: Scan)
    ensures Associates(Rescan(bt, usb), Chosen(bt, usb).inputs, Chosen(bt, usb).hidraws)
  {
    JoinAssociates(Chosen(bt, usb).inputs, Chosen(bt, usb).hidraws);
  }

  function OnUdev(c: Controller, remove: bool, hidraw: bool, hid: map<string, string>): Outcome {
    if !hidraw then Outcome(c, [])
    else if remove && c.reader.Some? then Outcome(c.(reader := None, hid := hid), [Retire(c.reader.value)])
    else Outcome(c.(hid := hid), [])
  }

  // ---- The class -------------------------------------------------------------------

  class XboxController {
    var adapters: set<Path>
    var devices: map<Path, Peer>
    var inputs: set<Path>
    var clients: set<string>
    var reader: Option<Addr>
    const hidraw: Hidraw
    const loop: EventLoop

    ghost function View(): Controller
      reads this, hidraw
    {
      Controller(adapters, devices, inputs, clients, reader, hidraw.devices)
    }

    constructor (loop: EventLoop, bt: Scan, usb: Scan)
      ensures View() == Controller({}, map[], {}, {}, None, Rescan(bt, usb))
      ensures Associates(View().hid, Chosen(bt, usb).inputs, Chosen(bt, usb).hidraws)
      ensures this.loop == loop && fresh(hidraw)
    {
      this.loop := loop;
      adapters, devices, inputs, clients, reader := {}, map[], {}, {}, None;
      hidraw := new Hidraw();
      new;
      RescanAssociates(bt, usb);
      var found := hidraw.GetHidrawDevices(bt.inputs, bt.hidraws);
      if !found {
        found := hidraw.GetHidrawDevices(usb.inputs, usb.hidraws);
      }
    }

    /** Constructs the InputReader and, if its device opened, keeps it and hands
        it to the loop; otherwise it is destroyed on the spot. */
    method MakeReader(o: Opening, ghost m: State)
      requires loop.Mirrors(m) && reader.None?
      requires Possible(m, [Alloc(o.addr), if o.valid then Add(o.addr) else Free(o.addr)])
      modifies this`reader, loop
      ensures loop.Mirrors(After(m, [Alloc(o.addr), if o.valid then Add(o.addr) else Free(o.addr)]))
      ensures reader == if o.valid then Some(o.addr) else None
    {
      TwoSteps(m, Alloc(o.addr), if o.valid then Add(o.addr) else Free(o.addr));
      if o.valid {
        loop.Add(o.addr);
        reader := Some(o.addr);
      }
    }

    /** The Device1 branch of onInterfacesAdded. */
    method DeviceAdded(path: Path, p: Peer, o: Opening, ghost m: State)
      requires loop.Mirrors(m) && Possible(m, AddDevice(View(), path, p, o).ls)
      modifies this, loop
      ensures View() == AddDevice(old(View()), path, p, o).c
      ensures loop.Mirrors(After(m, AddDevice(old(View()), path, p, o).ls))
    {
      if p.modalias.None? {
        return;
      }
      var vid, pid := p.modalias.value.vid, p.modalias.value.pid;
      if vid != VENDOR_ID || (pid != PRODUCT_ID0 && pid != PRODUCT_ID1) {
        return;
      }
      if path in devices {
        return;
      }
      if |devices| >= MAX_DEVICES {
        return;
      }
      DeviceAdmitted(path, p, o, m);
    }

    /** The rest of it, for a new device of ours. */
    method DeviceAdmitted(path: Path, p: Peer, o: Opening, ghost m: State)
      requires loop.Mirrors(m) && Possible(m, AddDevice(View(), path, p, o).ls)
      requires Ours(p) && path !in devices && |devices| < MAX_DEVICES
      modifies this, loop
      ensures View() == AddDevice(old(View()), path, p, o).c
      ensures loop.Mirrors(After(m, AddDevice(old(View()), path, p, o).ls))
    {
      devices := devices[path := p];
      ReaderWanted(p, o, m);
      var powerPath := ConvertMacToUPowerPath(p.address);
      PowerAdded(powerPath);
    }

    /** The reader for a device just stored, if it is to have one. */
    method ReaderWanted(p: Peer, o: Opening, ghost m: State)
      requires loop.Mirrors(m) && Possible(m, OpenReader(View(), p, o).ls)
      modifies this`reader, loop
      ensures View() == OpenReader(old(View()), p, o).c
      ensures loop.Mirrors(After(m, OpenReader(old(View()), p, o).ls))
    {
      var hidrawDeviceKey := "";
      if p.connected && p.paired && p.trusted {
        hidrawDeviceKey := CreateDeviceKey(p.address);
      }
      if hidrawDeviceKey != "" {
        var node := hidraw.FindHidDevice(hidrawDeviceKey);
        if node != "" && reader.None? {
          MakeReader(o, m);
        }
      }
    }

    /** The UPower branch of it. */
    method PowerAdded(powerPath: string)
      modifies this`clients
      ensures View() == AddClient(old(View()), powerPath)
    {
      if powerPath !in clients {
        if |clients| >= MAX_UPOWER_CLIENTS {
          return;
        }
        clients := clients + {powerPath};
      }
    }

    /** One round of the loop in onInterfacesAdded. */
    method InterfaceAdded(path: Path, i: Interface, o: Opening, ghost m: State)
      requires loop.Mirrors(m) && Possible(m, AddInterface(View(), path, i, o).ls)
      modifies this, loop
      ensures View() == AddInterface(old(View()), path, i, o).c
      ensures loop.Mirrors(After(m, AddInterface(old(View()), path, i, o).ls))
    {
      match i
      case Adapter1 =>
        if path !in adapters {
          if |adapters| >= MAX_ADAPTERS {
            return;
          }
          adapters := adapters + {path};
        }
      case Device1(p) => DeviceAdded(path, p, o, m);
      case Input1 =>
        if path !in inputs {
          if |inputs| >= MAX_INPUT_ENTRIES {
            return;
          }
          inputs := inputs + {path};
        }
      case _ =>
    }

    method OnInterfacesAdded(path: Path, ifs: seq<Interface>, os: seq<Opening>, ghost m0: State)
      requires |ifs| == |os| && loop.Mirrors(m0) && Possible(m0, AddInterfaces(View(), path, ifs, os).ls)
      modifies this, loop
      ensures View() == AddInterfaces(old(View()), path, ifs, os).c
      ensures loop.Mirrors(After(m0, AddInterfaces(old(View()), path, ifs, os).ls))
    {
      ghost var c0 := View();
      ghost var m := m0;
      for n := 0 to |ifs|
        invariant View() == AddInterfaces(c0, path, ifs[..n], os[..n]).c && loop.Mirrors(m)
        invariant var ls := AddInterfaces(c0, path, ifs[..n], os[..n]).ls; Possible(m0, ls) && m == After(m0, ls)
      {
        NextInterface(m0, c0, path, ifs, os, n);
        ghost var last := AddInterface(View(), path, ifs[n], os[n]);
        InterfaceAdded(path, ifs[n], os[n], m);
        m := After(m, last.ls);
      }
      assert ifs[..|ifs|] == ifs && os[..|os|] == os;
    }

    method OnInterfacesRemoved(path: Path, ks: seq<Kind>)
      modifies this
      ensures View() == RemoveInterfaces(old(View()), path, ks)
    {
      ghost var c0 := View();
      for n := 0 to |ks|
        invariant View() == RemoveInterfaces(c0, path, ks[..n])
      {
        assert ks[..n + 1][..n] == ks[..n];
        match ks[n]
        case AdapterKind =>
          if path in adapters {
            adapters := adapters - {path};
          }
        case DeviceKind =>
          var powerPath := "";
          if path in devices {
            var p := devices[path];
            if p.modalias.Some? && IsXbox(p.modalias.value) {
              powerPath := ConvertMacToUPowerPath(p.address);
            }
            devices := devices - {path};
          }
          if powerPath != "" {
            if powerPath in clients {
              clients := clients - {powerPath};
            }
          }
        case InputKind =>
          if path in inputs {
            inputs := inputs - {path};
          }
        case OtherKind =>
      }
      assert ks[..|ks|] == ks;
    }

    /** The udev callback. */
    method UdevEvent(remove: bool, isHidraw: bool, bt: Scan, usb: Scan, ghost m: State)
      requires loop.Mirrors(m) && Possible(m, OnUdev(View(), remove, isHidraw, Rescan(bt, usb)).ls)
      modifies this, loop, hidraw
      ensures View() == OnUdev(old(View()), remove, isHidraw, Rescan(bt, usb)).c
      ensures loop.Mirrors(After(m, OnUdev(old(View()), remove, isHidraw, Rescan(bt, usb)).ls))
    {
      if isHidraw {
        if remove {
          if reader.Some? {
            Snoc(m, [], Retire(reader.value));
            loop.Retire(reader.value);
            reader := None;
          }
        }
        var found := hidraw.GetHidrawDevices(bt.inputs, bt.hidraws);
        if !found {
          found := hidraw.GetHidrawDevices(usb.inputs, usb.hidraws);
        }
      }
    }
  }

  lemma TwoSteps(m: State, l1: Label, l2: Label)
    requires Possible(m, [l1, l2])
    ensures Enabled(m, l1) && Enabled(Exec(m, l1), l2) && After(m, [l1, l2]) == Exec(Exec(m, l1), l2)
  {
    assert [l1, l2] == [l1] + [l2] && [l1] == [] + [l1] && [l2] == [] + [l2];
    PossibleSplit(m, [l1], [l2]);
    PossibleOne(m, l1);
    PossibleOne(Exec(m, l1), l2);
  }

  lemma PossibleOne(m: State, l: Label)
    requires Possible(m, [l])
    ensures Enabled(m, l) && After(m, [l]) == Exec(m, l)
  {
  }

  lemma {:induction false} PossibleSplit(s: State, ls: seq<Label>, more: seq<Label>)
    requires Possible(s, ls + more)
    ensures Possible(s, ls) && Possible(After(s, ls), more) && After(s, ls + more) == After(After(s, ls), more)
  {
    if more == [] {
      assert ls + more == ls;
    } else {
      assert (ls + more)[..|ls + more| - 1] == ls + more[..|more| - 1];
      PossibleSplit(s, ls, more[..|more| - 1]);
    }
  }

  lemma {:induction false} AddedPrefix(c: Controller, path: Path, ifs: seq<Interface>, os: seq<Opening>, n: nat)
    requires |ifs| == |os| && n <= |ifs|
    ensures AddInterfaces(c, path, ifs[..n], os[..n]).ls <= AddInterfaces(c, path, ifs, os).ls
    decreases |ifs| - n
  {
    if n == |ifs| {
      assert ifs[..n] == ifs && os[..n] == os;
    } else {
      AddedPrefix(c, path, ifs, os, n + 1);
      assert ifs[..n + 1][..n] == ifs[..n] && os[..n + 1][..n] == os[..n];
    }
  }

  /** Handling interface n continues the run made by the ones before it. */
  lemma NextInterface(m0: State, c: Controller, path: Path, ifs: seq<Interface>, os: seq<Opening>, n: nat)
    requires |ifs| == |os| && n < |ifs|
    requires Possible(m0, AddInterfaces(c, path, ifs, os).ls)
    ensures var before := AddInterfaces(c, path, ifs[..n], os[..n]);
            var last := AddInterface(before.c, path, ifs[n], os[n]);
            && AddInterfaces(c, path, ifs[..n + 1], os[..n + 1]) == Outcome(last.c, before.ls + last.ls)
            && Possible(m0, before.ls) && Possible(After(m0, before.ls), last.ls)
            && Possible(m0, before.ls + last.ls)
            && After(m0, before.ls + last.ls) == After(After(m0, before.ls), last.ls)
  {
    assert ifs[..n + 1][..n] == ifs[..n] && os[..n + 1][..n] == os[..n];
    AddedPrefix(c, path, ifs, os, n + 1);
    var all := AddInterfaces(c, path, ifs, os).ls;
    var before := AddInterfaces(c, path, ifs[..n], os[..n]);
    var last := AddInterface(before.c, path, ifs[n], os[n]);
    var upTo := before.ls + last.ls;
    assert all == upTo + all[|upTo|..];
    PossibleSplit(m0, upTo, all[|upTo|..]);
    PossibleSplit(m0, before.ls, last.ls);
  }

  /** An added interface makes at most one reader, and only if there is none. */
  lemma AddInterfaceOnReader(c: Controller, path: Path, i: Interface, o: Opening)
    ensures var made := AddInterface(c, path, i, o);
            || (made.ls == [] && made.c.reader == c.reader)
            || (c.reader.None?
                && made.ls == [Alloc(o.addr), if o.valid then Add(o.addr) else Free(o.addr)]
                && made.c.reader == if o.valid then Some(o.addr) else None)
  {
  }
}
