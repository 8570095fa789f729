/** The device and UPower maps of the controller over any run of signals. */
module ControllerMaps {
  import opened Seqs
  import opened Text
  import opened Hidraws
  import opened XboxControllers

  /** Signals, one interface at a time. */
  datatype Step =
    | Insert(path: Path, i: Interface, o: Opening)
    | Delete(path: Path, k: Kind)
    | Change(path: Path, peer: Peer)                // Device1 PropertiesChanged
    | Rescanned(remove: bool, hid: map<string, string>)

  function Take(c: Controller, s: Step): Controller {
    match s
    case Insert(path, i, o) => AddInterface(c, path, i, o).c
    case Delete(path, k) => RemoveInterface(c, path, k)
    case Change(path, peer) => if path in c.devices then c.(devices := c.devices[path := peer]) else c
    case Rescanned(remove, hid) => OnUdev(c, remove, true, hid).c
  }

  function Play(c: Controller, steps: seq<Step>): Controller {
    if steps == [] then c else Take(Play(c, steps[..|steps| - 1]), steps[|steps| - 1])
  }

  /** An InterfacesAdded signal is the insertion of its entries one by one. */
  lemma {:induction false} SignalIsInsertions(c: Controller, path: Path, ifs: seq<Interface>, os: seq<Opening>)
    requires |ifs| == |os|
    ensures AddInterfaces(c, path, ifs, os).c
            == Play(c, seq(|ifs|, n requires 0 <= n < |ifs| => Insert(path, ifs[n], os[n])))
  {
    if ifs != [] {
      var n := |ifs| - 1;
      SignalIsInsertions(c, path, ifs[..n], os[..n]);
      var steps := seq(|ifs|, k requires 0 <= k < |ifs| => Insert(path, ifs[k], os[k]));
      assert steps[..n] == seq(n, k requires 0 <= k < n => Insert(path, ifs[..n][k], os[..n][k]));
    }
  }

  /** An InterfacesRemoved signal is the deletion of its names one by one. */
  lemma {:induction false} SignalIsDeletions(c: Controller, path: Path, ks: seq<Kind>)
    ensures RemoveInterfaces(c, path, ks) == Play(c, seq(|ks|, n requires 0 <= n < |ks| => Delete(path, ks[n])))
  {
    if ks != [] {
      var n := |ks| - 1;
      SignalIsDeletions(c, path, ks[..n]);
      var steps := seq(|ks|, k requires 0 <= k < |ks| => Delete(path, ks[k]));
      assert steps[..n] == seq(n, k requires 0 <= k < n => Delete(path, ks[..n][k]));
    }
  }

  const EMPTY := Controller({}, map[], {}, {}, None, map[])

  /** Some step of the run, in the state it meets, is such a step. */
  ghost predicate Meets(steps: seq<Step>, such: (Controller, Step) -> bool) {
    exists n :: 0 <= n < |steps| && such(Play(EMPTY, steps[..n]), steps[n])
  }

  /** Every state of the run, from EMPTY on, is such a state. */
  ghost predicate Throughout(steps: seq<Step>, such: Controller -> bool) {
    forall n :: 0 <= n <= |steps| ==> such(Play(EMPTY, steps[..n]))
  }

  lemma OneMoreStep(steps: seq<Step>, n: nat)
    requires n < |steps|
    ensures Play(EMPTY, steps[..n + 1]) == Take(Play(EMPTY, steps[..n]), steps[n])
  {
    assert steps[..n + 1][..n] == steps[..n];
  }

  /** What a step keeps exactly when it is not a breaking one holds throughout a
      run exactly when the run meets no breaking step. */
  lemma {:induction false} ThroughoutUpTo(steps: seq<Step>, n: nat, kept: Controller -> bool,
                                          breaks: (Controller, Step) -> bool)
    requires n <= |steps| && kept(EMPTY) && !Meets(steps, breaks)
    requires forall c, s :: kept(c) ==> (kept(Take(c, s)) <==> !breaks(c, s))
    ensures kept(Play(EMPTY, steps[..n]))
  {
    if n > 0 {
      ThroughoutUpTo(steps, n - 1, kept, breaks);
      OneMoreStep(steps, n - 1);
    }
  }

  lemma ThroughoutIff(steps: seq<Step>, kept: Controller -> bool, breaks: (Controller, Step) -> bool)
    requires kept(EMPTY) && forall c, s :: kept(c) ==> (kept(Take(c, s)) <==> !breaks(c, s))
    ensures Throughout(steps, kept) <==> !Meets(steps, breaks)
  {
    if Meets(steps, breaks) {
      var n :| 0 <= n < |steps| && breaks(Play(EMPTY, steps[..n]), steps[n]);
      OneMoreStep(steps, n);
    } else {
      forall n | 0 <= n <= |steps| ensures kept(Play(EMPTY, steps[..n])) {
        ThroughoutUpTo(steps, n, kept, breaks);
      }
    }
  }

  // ---- The limits ------------------------------------------------------------------

  predicate Within(c: Controller) {
    |c.adapters| <= 64 && |c.devices| <= 1024 && |c.inputs| <= 1024 && |c.clients| <= 256
  }

  predicate Admitted(c: Controller, path: Path, p: Peer) {
    Ours(p) && path !in c.devices && |c.devices| < MAX_DEVICES
  }

  /** What AddDevice does apart from the reader. */
  lemma AddDeviceOnMaps(c: Controller, path: Path, p: Peer, o: Opening) returns (reader: Option<nat>)
    ensures AddDevice(c, path, p, o).c
            == if Admitted(c, path, p)
               then AddClient(c.(devices := c.devices[path := p], reader := reader), PowerPath(p.address)) else c
  {
    reader := AddDevice(c, path, p, o).c.reader;
  }

  lemma SmallerAfterRemoval<T>(s: set<T>, x: T)
    ensures |s - {x}| <= |s|
  {
  }

  lemma SmallerWithout<K, V>(m: map<K, V>, k: K)
    ensures |m - {k}| <= |m|
  {
    assert (m - {k}).Keys == m.Keys - {k};
    SmallerAfterRemoval(m.Keys, k);
    assert |m - {k}| == |(m - {k}).Keys| && |m| == |m.Keys|;
  }

  lemma SizeWith<K, V>(m: map<K, V>, k: K, v: V)
    ensures |m[k := v]| == if k in m then |m| else |m| + 1
  {
    assert m[k := v].Keys == m.Keys + {k};
    assert |m[k := v]| == |m[k := v].Keys| && |m| == |m.Keys|;
    assert k in m ==> m.Keys + {k} == m.Keys;
  }

  lemma AddedDeviceWithin(c: Controller, path: Path, p: Peer, o: Opening)
    requires Within(c)
    ensures Within(AddDevice(c, path, p, o).c)
  {
    var reader := AddDeviceOnMaps(c, path, p, o);
    SizeWith(c.devices, path, p);
  }

  lemma RemovedWithin(c: Controller, path: Path, k: Kind)
    requires Within(c)
    ensures Within(RemoveInterface(c, path, k))
  {
    match k
    case AdapterKind => SmallerAfterRemoval(c.adapters, path);
    case InputKind => SmallerAfterRemoval(c.inputs, path);
    case DeviceKind =>
      if path in c.devices {
        SmallerWithout(c.devices, path);
        SmallerAfterRemoval(c.clients, PowerPath(c.devices[path].address));
      }
    case OtherKind =>
  }

  lemma StepWithin(c: Controller, s: Step)
    requires Within(c)
    ensures Within(Take(c, s))
  {
    match s
    case Insert(path, i, o) =>
      if i.Device1? {
        AddedDeviceWithin(c, path, i.peer, o);
      }
    case Delete(path, k) => RemovedWithin(c, path, k);
    case Change(path, peer) => SizeWith(c.devices, path, peer);
    case Rescanned(_, _) =>
  }

  /** Over any run of signals no map outgrows its limit. */
  lemma {:induction false} LimitsHold(steps: seq<Step>)
    ensures Within(Play(EMPTY, steps))
  {
    if steps != [] {
      LimitsHold(steps[..|steps| - 1]);
      StepWithin(Play(EMPTY, steps[..|steps| - 1]), steps[|steps| - 1]);
    }
  }

  // ---- The paths of the devices ------------------------------------------------------

  function Key(p: Peer): string { PowerPath(p.address) }

  /** The UPower paths of the devices present. */
  function Image(devices: map<Path, Peer>): set<string> {
    set d | d in devices :: Key(devices[d])
  }

  /** Some device other than the one at `path` has this UPower path. */
  predicate Elsewhere(devices: map<Path, Peer>, path: Path, key: string) {
    exists d :: d in devices && d != path && Key(devices[d]) == key
  }

  /** The paths of all devices but the one at `path`. */
  function Rest(devices: map<Path, Peer>, path: Path): set<string> { Image(devices - {path}) }

  lemma RestIsElsewhere(devices: map<Path, Peer>, path: Path, key: string)
    ensures key in Rest(devices, path) <==> Elsewhere(devices, path, key)
  {
    var rest := devices - {path};
    if d :| d in devices && d != path && Key(devices[d]) == key {
      assert d in rest && rest[d] == devices[d];
    }
  }

  /** Whatever is stored at `path` adds its own path to those of the rest. */
  lemma ImageOfStored(devices: map<Path, Peer>, path: Path, p: Peer)
    ensures Image(devices[path := p]) == Rest(devices, path) + {Key(p)}
  {
    var devices', rest := devices[path := p], devices - {path};
    forall k | k in Rest(devices, path) + {Key(p)} ensures k in Image(devices') {
      if k != Key(p) {
        var d :| d in rest && Key(rest[d]) == k;
        assert d in devices' && devices'[d] == rest[d];
      } else {
        assert devices'[path] == p;
      }
    }
    forall k | k in Image(devices') ensures k in Rest(devices, path) + {Key(p)} {
      var d :| d in devices' && Key(devices'[d]) == k;
      if d != path {
        assert d in rest && rest[d] == devices'[d];
      }
    }
  }

  lemma ImageWith(devices: map<Path, Peer>, path: Path)
    requires path in devices
    ensures Image(devices) == Rest(devices, path) + {Key(devices[path])}
  {
    assert devices[path := devices[path]] == devices;
    ImageOfStored(devices, path, devices[path]);
  }

  lemma ImageWithout(devices: map<Path, Peer>, path: Path)
    requires path !in devices
    ensures Image(devices) == Rest(devices, path)
  {
    assert devices - {path} == devices;
  }

  // ---- Clients of devices present -----------------------------------------------------

  /** Every UPower client is that of some device present. */
  predicate Contained(c: Controller) { c.clients <= Image(c.devices) }

  /** The step leaves a client behind: a device's path changes, or a device goes
      whose modalias is no longer ours, and its client is nobody else's. */
  predicate Leaks(c: Controller, s: Step) {
    match s
    case Delete(path, DeviceKind) =>
      && path in c.devices && !Ours(c.devices[path])
      && Key(c.devices[path]) in c.clients && !Elsewhere(c.devices, path, Key(c.devices[path]))
    case Change(path, peer) =>
      && path in c.devices && Key(peer) != Key(c.devices[path])
      && Key(c.devices[path]) in c.clients && !Elsewhere(c.devices, path, Key(c.devices[path]))
    case _ => false
  }

  /** The clients are exactly those of the devices present. */
  predicate Exact(c: Controller) { c.clients == Image(c.devices) }

  /** The step opens a gap: the limit turns a new device's client away; a device of
      ours goes with a client that another one still needs, or one that is no longer
      ours without its client; or a path changes that another device does not have,
      or to one that no other device has. */
  predicate Spoils(c: Controller, s: Step) {
    match s
    case Insert(path, Device1(p), _) =>
      Admitted(c, path, p) && Key(p) !in c.clients && |c.clients| >= MAX_UPOWER_CLIENTS
    case Delete(path, DeviceKind) =>
      && path in c.devices
      && Ours(c.devices[path]) == Elsewhere(c.devices, path, Key(c.devices[path]))
    case Change(path, peer) =>
      && path in c.devices && Key(peer) != Key(c.devices[path])
      && !(Elsewhere(c.devices, path, Key(c.devices[path])) && Elsewhere(c.devices, path, Key(peer)))
    case _ => false
  }

  lemma InsertionIff(c: Controller, path: Path, p: Peer, o: Opening)
    ensures var s := Insert(path, Device1(p), o);
            && (Contained(c) ==> Contained(Take(c, s)))
            && (Exact(c) ==> (Exact(Take(c, s)) <==> !Spoils(c, s)))
  {
    var reader := AddDeviceOnMaps(c, path, p, o);
    if Admitted(c, path, p) {
      ImageWithout(c.devices, path);
      ImageOfStored(c.devices, path, p);
    }
  }

  lemma DeletionIff(c: Controller, path: Path)
    requires path in c.devices
    ensures var s := Delete(path, DeviceKind);
            && (Contained(c) ==> (Contained(Take(c, s)) <==> !Leaks(c, s)))
            && (Exact(c) ==> (Exact(Take(c, s)) <==> !Spoils(c, s)))
  {
    ImageWith(c.devices, path);
    RestIsElsewhere(c.devices, path, Key(c.devices[path]));
  }

  lemma ChangeIff(c: Controller, path: Path, peer: Peer)
    requires path in c.devices
    ensures var s := Change(path, peer);
            && (Contained(c) ==> (Contained(Take(c, s)) <==> !Leaks(c, s)))
            && (Exact(c) ==> (Exact(Take(c, s)) <==> !Spoils(c, s)))
  {
    ImageWith(c.devices, path);
    ImageOfStored(c.devices, path, peer);
    RestIsElsewhere(c.devices, path, Key(c.devices[path]));
    RestIsElsewhere(c.devices, path, Key(peer));
  }

  lemma StepIff(c: Controller, s: Step)
    ensures Contained(c) ==> (Contained(Take(c, s)) <==> !Leaks(c, s))
    ensures Exact(c) ==> (Exact(Take(c, s)) <==> !Spoils(c, s))
  {
    match s
    case Insert(path, i, o) =>
      if i.Device1? {
        InsertionIff(c, path, i.peer, o);
      }
    case Delete(path, k) =>
      if k.DeviceKind? && path in c.devices {
        DeletionIff(c, path);
      }
    case Change(path, peer) =>
      if path in c.devices {
        ChangeIff(c, path, peer);
      }
    case Rescanned(_, _) =>
  }

  /** One step keeps every client that of a device present if and only if it does
      not leak. */
  lemma StaysContainedIff(c: Controller, s: Step)
    requires Contained(c)
    ensures Contained(Take(c, s)) <==> !Leaks(c, s)
  {
    StepIff(c, s);
  }

  /** One step keeps the clients exact if and only if it does not spoil them. */
  lemma StaysExactIff(c: Controller, s: Step)
    requires Exact(c)
    ensures Exact(Take(c, s)) <==> !Spoils(c, s)
  {
    StepIff(c, s);
  }

  /** Throughout a run of signals every UPower client is that of a device present, if
      and only if no signal leaks a client. */
  lemma ClientsBelongToDevicesIff(steps: seq<Step>)
    ensures Throughout(steps, Contained) <==> !Meets(steps, Leaks)
  {
    forall c, s | Contained(c) ensures Contained(Take(c, s)) <==> !Leaks(c, s) {
      StepIff(c, s);
    }
    ThroughoutIff(steps, Contained, Leaks);
  }

  /** Throughout a run of signals the clients are exactly those of the devices, if
      and only if no signal spoils them. */
  lemma ClientsAreTheDevicesIff(steps: seq<Step>)
    ensures Throughout(steps, Exact) <==> !Meets(steps, Spoils)
  {
    forall c, s | Exact(c) ensures Exact(Take(c, s)) <==> !Spoils(c, s) {
      StepIff(c, s);
    }
    ThroughoutIff(steps, Exact, Spoils);
  }

  // ---- Runs that break it ---------------------------------------------------------------

  lemma PlayedTwice(s1: Step, s2: Step)
    ensures Play(EMPTY, [s1, s2]) == Take(Take(EMPTY, s1), s2)
  {
    var steps := [s1, s2];
    OneMoreStep(steps, 0);
    OneMoreStep(steps, 1);
    assert steps[..0] == [] && steps[..2] == steps;
  }

  lemma PlayedThrice(s1: Step, s2: Step, s3: Step)
    ensures Play(EMPTY, [s1, s2, s3]) == Take(Take(Take(EMPTY, s1), s2), s3)
  {
    var steps := [s1, s2, s3];
    OneMoreStep(steps, 2);
    assert steps[..2] == [s1, s2] && steps[..3] == steps;
    PlayedTwice(s1, s2);
  }

  lemma FirstDevice(path: Path, p: Peer, o: Opening)
    requires Ours(p)
    ensures var c := Take(EMPTY, Insert(path, Device1(p), o));
            c.devices == map[path := p] && c.clients == {Key(p)} && Exact(c)
  {
    var reader := AddDeviceOnMaps(EMPTY, path, p, o);
    assert Image(map[path := p]) == {Key(p)};
  }

  /** One controller paired on two adapters: two devices with one address. While
      both are there the clients are exact; when the first of them goes, the client
      that the second still needs goes with it. */
  lemma SharedAddressLosesItsClient(p1: Path, p2: Path, p: Peer, o1: Opening, o2: Opening)
    requires p1 != p2 && Ours(p)
    ensures var i1, i2 := Insert(p1, Device1(p), o1), Insert(p2, Device1(p), o2);
            && Exact(Play(EMPTY, [i1, i2]))
            && Play(EMPTY, [i1, i2, Delete(p1, DeviceKind)]).devices == map[p2 := p]
            && Play(EMPTY, [i1, i2, Delete(p1, DeviceKind)]).clients == {}
  {
    var i1, i2 := Insert(p1, Device1(p), o1), Insert(p2, Device1(p), o2);
    PlayedTwice(i1, i2);
    PlayedThrice(i1, i2, Delete(p1, DeviceKind));
    SecondDevice(p1, p2, p, o1, o2);
    FirstGoes(Take(Take(EMPTY, i1), i2), p1, p2, p);
  }

  lemma FirstGoes(c: Controller, p1: Path, p2: Path, p: Peer)
    requires p1 != p2 && Ours(p) && c.devices == map[p1 := p, p2 := p] && c.clients == {Key(p)}
    ensures var c' := Take(c, Delete(p1, DeviceKind)); c'.devices == map[p2 := p] && c'.clients == {}
  {
  }

  lemma SecondDevice(p1: Path, p2: Path, p: Peer, o1: Opening, o2: Opening)
    requires p1 != p2 && Ours(p)
    ensures var c := Take(Take(EMPTY, Insert(p1, Device1(p), o1)), Insert(p2, Device1(p), o2));
            c.devices == map[p1 := p, p2 := p] && c.clients == {Key(p)} && Exact(c)
  {
    FirstDevice(p1, p, o1);
    var c := Take(EMPTY, Insert(p1, Device1(p), o1));
    var reader := AddDeviceOnMaps(c, p2, p, o2);
    InsertionIff(c, p2, p, o2);
  }

  /** A device whose address, or modalias, is reported anew before it goes leaves its
      client behind. */
  lemma ChangedDeviceLeavesItsClient(path: Path, p: Peer, q: Peer, o: Opening)
    requires Ours(p) && (Key(q) != Key(p) || !Ours(q))
    ensures var i := Insert(path, Device1(p), o);
            && Exact(Play(EMPTY, [i]))
            && Play(EMPTY, [i, Change(path, q), Delete(path, DeviceKind)]).devices == map[]
            && Play(EMPTY, [i, Change(path, q), Delete(path, DeviceKind)]).clients == {Key(p)}
  {
    var i := Insert(path, Device1(p), o);
    OneMoreStep([i], 0);
    assert [i][..1] == [i];
    FirstDevice(path, p, o);
    PlayedThrice(i, Change(path, q), Delete(path, DeviceKind));
  }

  // ---- Runs in which devices keep their identity -------------------------------------------

  /** The signal does not change the address or modalias of a device present. */
  predicate Steady(c: Controller, s: Step) {
    s.Change? && s.path in c.devices ==>
      s.peer.address == c.devices[s.path].address && s.peer.modalias == c.devices[s.path].modalias
  }

  predicate Unsteady(c: Controller, s: Step) { !Steady(c, s) }

  predicate AllOurs(c: Controller) { forall d :: d in c.devices ==> Ours(c.devices[d]) }

  lemma SteadyStepsKeepOurs(c: Controller, s: Step)
    requires AllOurs(c) && Steady(c, s)
    ensures AllOurs(Take(c, s)) && !Leaks(c, s)
  {
    if s.Insert? && s.i.Device1? {
      AddedDeviceKeepsOurs(c, s.path, s.i.peer, s.o);
    }
  }

  lemma AddedDeviceKeepsOurs(c: Controller, path: Path, p: Peer, o: Opening)
    requires AllOurs(c)
    ensures AllOurs(AddDevice(c, path, p, o).c)
  {
    var reader := AddDeviceOnMaps(c, path, p, o);
    if Admitted(c, path, p) {
      OursWith(c.devices, path, p);
    }
  }

  lemma OursWith(devices: map<Path, Peer>, path: Path, p: Peer)
    requires Ours(p) && forall d :: d in devices ==> Ours(devices[d])
    ensures var devices' := devices[path := p]; forall d :: d in devices' ==> Ours(devices'[d])
  {
  }

  lemma {:induction false} SteadyRunsKeepOurs(steps: seq<Step>, n: nat)
    requires n <= |steps| && !Meets(steps, Unsteady)
    ensures AllOurs(Play(EMPTY, steps[..n]))
  {
    if n > 0 {
      SteadyRunsKeepOurs(steps, n - 1);
      assert !Unsteady(Play(EMPTY, steps[..n - 1]), steps[n - 1]);
      OneMoreStep(steps, n - 1);
      SteadyStepsKeepOurs(Play(EMPTY, steps[..n - 1]), steps[n - 1]);
    }
  }

  /** As long as no signal changes a device's address or modalias, every UPower
      client is that of a device present. */
  lemma ClientsBelongToDevices(steps: seq<Step>)
    requires !Meets(steps, Unsteady)
    ensures Throughout(steps, Contained)
  {
    forall n | 0 <= n < |steps| ensures !Leaks(Play(EMPTY, steps[..n]), steps[n]) {
      SteadyRunsKeepOurs(steps, n);
      assert !Unsteady(Play(EMPTY, steps[..n]), steps[n]);
      SteadyStepsKeepOurs(Play(EMPTY, steps[..n]), steps[n]);
    }
    ClientsBelongToDevicesIff(steps);
  }

  /** The devices present have Bluetooth addresses that differ by more than case. */
  predicate DistinctAddresses(devices: map<Path, Peer>) {
    && (forall d :: d in devices ==> MacLike(devices[d].address))
    && (forall d, e :: d in devices && e in devices && d != e ==>
          Lower(devices[d].address) != Lower(devices[e].address))
  }

  predicate Distinct(c: Controller) { DistinctAddresses(c.devices) }

  /** The limit turns the client of a new device away. */
  predicate TurnsAway(c: Controller, s: Step) {
    match s
    case Insert(path, Device1(p), _) =>
      Admitted(c, path, p) && Key(p) !in c.clients && |c.clients| >= MAX_UPOWER_CLIENTS
    case _ => false
  }

  lemma DistinctDoNotShare(devices: map<Path, Peer>, path: Path)
    requires DistinctAddresses(devices) && path in devices
    ensures !Elsewhere(devices, path, Key(devices[path]))
  {
    forall d | d in devices && d != path ensures Key(devices[d]) != Key(devices[path]) {
      PowerPathIsInjective(devices[d].address, devices[path].address);
    }
  }

  lemma SteadyAndDistinctDoNotSpoil(c: Controller, s: Step)
    requires AllOurs(c) && Distinct(c) && Steady(c, s) && !TurnsAway(c, s)
    ensures !Spoils(c, s)
  {
    if s.Delete? && s.path in c.devices {
      DistinctDoNotShare(c.devices, s.path);
    }
  }

  /** As long as no signal changes a device's address or modalias, addresses are
      distinct ignoring case and the limit turns no client away, the clients are
      exactly those of the devices. */
  lemma ClientsAreTheDevices(steps: seq<Step>)
    requires !Meets(steps, Unsteady) && !Meets(steps, TurnsAway) && Throughout(steps, Distinct)
    ensures Throughout(steps, Exact)
  {
    forall n | 0 <= n < |steps| ensures !Spoils(Play(EMPTY, steps[..n]), steps[n]) {
      SteadyRunsKeepOurs(steps, n);
      var c := Play(EMPTY, steps[..n]);
      assert !Unsteady(c, steps[n]) && !TurnsAway(c, steps[n]) && Distinct(c);
      SteadyAndDistinctDoNotSpoil(c, steps[n]);
    }
    ClientsAreTheDevicesIff(steps);
  }
}
