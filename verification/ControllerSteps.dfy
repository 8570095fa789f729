/** What each callback of the controller does, said on the signal, the maps and the
    properties alone. */
module ControllerSteps {
  import opened Seqs
  import opened EventQueues
  import opened LoopProtocol
  import opened Text
  import opened Hidraws
  import opened XboxControllers
  import opened ControllerRuns

  /** A device of ours, by vendor and product. */
  predicate Xbox(p: Peer) {
    && p.modalias.Some? && p.modalias.value.vid == "045E"
    && (p.modalias.value.pid == "02FD" || p.modalias.value.pid == "0B13")
  }

  /** The signal brings a device that is to be stored. */
  predicate New(c: Controller, path: Path, p: Peer) {
    Xbox(p) && path !in c.devices && |c.devices| < 1024
  }

  /** ... and that is to have the reader. */
  predicate NeedsReader(c: Controller, path: Path, p: Peer) {
    && New(c, path, p)
    && p.connected && p.paired && p.trusted
    && DeviceKey(p.address) in c.hid && c.hid[DeviceKey(p.address)] != ""
    && c.reader == None
  }

  /** The UPower path of an address, character by character. */
  lemma PowerPathIsSpelled(mac: string)
    requires MacLike(mac)
    ensures var path, n := PowerPath(mac), |"/org/freedesktop/UPower/devices/battery_ps_controller_battery_"|;
            && "/org/freedesktop/UPower/devices/battery_ps_controller_battery_" <= path && |path| == n + |mac|
            && forall i :: 0 <= i < |mac| ==>
                 path[n + i] ==
                   if mac[i] == ':' then 'o' else if 'A' <= mac[i] <= 'F' then (mac[i] as int + 32) as char else mac[i]
  {
  }

  /** A Device1 entry makes a reader exactly if the device needs it, and keeps it and
      hands it to the loop exactly if it opens. */
  lemma DeviceMakesReaderIff(c: Controller, path: Path, p: Peer, o: Opening)
    ensures var made := AddInterface(c, path, Device1(p), o);
            && made.ls == (if !NeedsReader(c, path, p) then []
                           else if o.valid then [Alloc(o.addr), Add(o.addr)]
                           else [Alloc(o.addr), Free(o.addr)])
            && made.c.reader == if NeedsReader(c, path, p) && o.valid then Some(o.addr) else c.reader
  {
  }

  /** What a Device1 entry does to the maps. */
  lemma DeviceOnMaps(c: Controller, path: Path, p: Peer, o: Opening)
    ensures var c', key := AddInterface(c, path, Device1(p), o).c, PowerPath(p.address);
            && c'.adapters == c.adapters && c'.inputs == c.inputs && c'.hid == c.hid
            && c'.devices == (if New(c, path, p) then c.devices[path := p] else c.devices)
            && c'.clients == if New(c, path, p) && |c.clients| < 256 then c.clients + {key} else c.clients
  {
  }

  /** What the other entries do: an adapter or an input is stored below its limit. */
  lemma OtherEntries(c: Controller, path: Path, i: Interface, o: Opening)
    requires !i.Device1?
    ensures AddInterface(c, path, i, o).ls == []
    ensures var c' := AddInterface(c, path, i, o).c;
            && c' == c.(adapters := c'.adapters, inputs := c'.inputs)
            && (c'.adapters == if i.Adapter1? && |c.adapters| < 64 then c.adapters + {path} else c.adapters)
            && (c'.inputs == if i.Input1? && |c.inputs| < 1024 then c.inputs + {path} else c.inputs)
  {
  }

  // ---- Whole signals ---------------------------------------------------------------------

  /** The controller that entry n of the signal meets. */
  function Before(c: Controller, path: Path, ifs: seq<Interface>, os: seq<Opening>, n: nat): Controller
    requires n <= |ifs| == |os|
  {
    AddInterfaces(c, path, ifs[..n], os[..n]).c
  }

  /** Entry n of the signal makes a reader at `a`. */
  predicate EntryNeedsReader(c: Controller, path: Path, ifs: seq<Interface>, os: seq<Opening>, n: nat, a: Addr)
    requires |ifs| == |os|
  {
    n < |ifs| && ifs[n].Device1? && NeedsReader(Before(c, path, ifs, os, n), path, ifs[n].peer) && os[n].addr == a
  }

  lemma BeforeOfPrefix(c: Controller, path: Path, ifs: seq<Interface>, os: seq<Opening>, m: nat, n: nat)
    requires n <= m <= |ifs| == |os|
    ensures Before(c, path, ifs[..m], os[..m], n) == Before(c, path, ifs, os, n)
  {
    assert ifs[..m][..n] == ifs[..n] && os[..m][..n] == os[..n];
  }

  lemma LastEntry(c: Controller, path: Path, i: Interface, o: Opening, a: Addr)
    ensures Alloc(a) in AddInterface(c, path, i, o).ls <==>
              i.Device1? && NeedsReader(c, path, i.peer) && o.addr == a
  {
    if i.Device1? {
      DeviceMakesReaderIff(c, path, i.peer, o);
    } else {
      OtherEntries(c, path, i, o);
    }
  }

  lemma InEither<T>(x: T, s: seq<T>, t: seq<T>)
    ensures x in s + t <==> x in s || x in t
  {
  }

  lemma LastAllocates(c: Controller, path: Path, ifs: seq<Interface>, os: seq<Opening>, a: Addr)
    requires ifs != [] && |ifs| == |os|
    ensures var m := |ifs| - 1;
            Alloc(a) in AddInterfaces(c, path, ifs, os).ls <==>
              Alloc(a) in AddInterfaces(c, path, ifs[..m], os[..m]).ls || EntryNeedsReader(c, path, ifs, os, m, a)
  {
    var m := |ifs| - 1;
    var before := Before(c, path, ifs, os, m);
    LastEntry(before, path, ifs[m], os[m], a);
    InEither(Alloc(a), AddInterfaces(c, path, ifs[..m], os[..m]).ls, AddInterface(before, path, ifs[m], os[m]).ls);
  }

  /** An InterfacesAdded signal allocates a reader at `a` exactly if one of its
      entries needs one and gets it there. */
  lemma {:induction false} SignalMakesReaderIff(c: Controller, path: Path, ifs: seq<Interface>, os: seq<Opening>,
                                                a: Addr)
    requires |ifs| == |os|
    ensures Alloc(a) in AddInterfaces(c, path, ifs, os).ls <==>
              exists n: nat :: EntryNeedsReader(c, path, ifs, os, n, a)
  {
    if ifs != [] {
      var m := |ifs| - 1;
      SignalMakesReaderIff(c, path, ifs[..m], os[..m], a);
      LastAllocates(c, path, ifs, os, a);
      forall n: nat | n < m
        ensures EntryNeedsReader(c, path, ifs[..m], os[..m], n, a) <==> EntryNeedsReader(c, path, ifs, os, n, a)
      {
        BeforeOfPrefix(c, path, ifs, os, m, n);
      }
      EntriesUpTo(c, path, ifs, os, m, a);
    }
  }

  lemma EntriesUpTo(c: Controller, path: Path, ifs: seq<Interface>, os: seq<Opening>, m: nat, a: Addr)
    requires |ifs| == |os| == m + 1
    requires forall n: nat | n < m ::
               EntryNeedsReader(c, path, ifs[..m], os[..m], n, a) <==> EntryNeedsReader(c, path, ifs, os, n, a)
    ensures (exists n: nat :: EntryNeedsReader(c, path, ifs, os, n, a)) <==>
              (exists n: nat :: EntryNeedsReader(c, path, ifs[..m], os[..m], n, a))
              || EntryNeedsReader(c, path, ifs, os, m, a)
  {
    if n: nat :| EntryNeedsReader(c, path, ifs, os, n, a) {
      assert n < m ==> EntryNeedsReader(c, path, ifs[..m], os[..m], n, a);
    }
    if n: nat :| EntryNeedsReader(c, path, ifs[..m], os[..m], n, a) {
      assert n < m;
      assert EntryNeedsReader(c, path, ifs, os, n, a);
    }
  }

  /** After its start, the client allocates only for a Device1 entry of a signal whose
      device needs a reader, in any state and for any act. */
  lemma ClientAllocatesIff(s: System, act: Act, a: Addr)
    requires Can(s, act) && !act.Prepare?
    ensures Alloc(a) in Labels(s, act) <==>
              act.Added? && exists n: nat :: EntryNeedsReader(s.c, act.path, act.ifs, act.os, n, a)
  {
    if act.Added? {
      SignalMakesReaderIff(s.c, act.path, act.ifs, act.os, a);
    }
  }

  /** What an InterfacesRemoved signal does: a path named with an interface is no
      longer in the map of that interface, the client of a removed device of ours
      goes, and all else stays. */
  lemma {:induction false} RemovalIsSpelled(c: Controller, path: Path, ks: seq<Kind>)
    ensures var c' := RemoveInterfaces(c, path, ks);
            && c'.adapters == (if AdapterKind in ks then c.adapters - {path} else c.adapters)
            && c'.inputs == (if InputKind in ks then c.inputs - {path} else c.inputs)
            && c'.devices == (if DeviceKind in ks then c.devices - {path} else c.devices)
            && c'.clients == (if DeviceKind in ks && path in c.devices && Xbox(c.devices[path])
                              then c.clients - {PowerPath(c.devices[path].address)} else c.clients)
            && c'.reader == c.reader && c'.hid == c.hid
  {
    if ks != [] {
      RemovalIsSpelled(c, path, ks[..|ks| - 1]);
      assert ks == ks[..|ks| - 1] + [ks[|ks| - 1]];
    }
  }

  /** What a udev event does: any event of a hidraw device renews the nodes, a removal
      retires the reader, and nothing else changes. */
  lemma UdevIsSpelled(c: Controller, remove: bool, hidraw: bool, bt: Scan, usb: Scan)
    ensures var after := OnUdev(c, remove, hidraw, Rescan(bt, usb));
            && after.c == c.(reader := after.c.reader, hid := after.c.hid)
            && (hidraw ==> Associates(after.c.hid, Chosen(bt, usb).inputs, Chosen(bt, usb).hidraws))
            && (!hidraw ==> after.c.hid == c.hid)
            && after.c.reader == (if hidraw && remove then None else c.reader)
            && after.ls == (if hidraw && remove && c.reader.Some? then [Retire(c.reader.value)] else [])
  {
    RescanAssociates(bt, usb);
  }
}
