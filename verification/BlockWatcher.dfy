/** The UDisks2 monitor: one watcher per removable block device, and at most one
    report per watcher. */
module BlockWatchers {
  import opened Seqs

  type Path = string

  /** What a readiness check reads: IdUsage ("" if absent), or None if reading
      the Block properties throws; and whether the Filesystem interface could be
      read. */
  datatype Reading = Reading(usage: Option<string>, filesystem: bool)

  predicate Ready(r: Reading) {
    r.usage.Some? && (r.usage.value == "filesystem" || r.filesystem)
  }

  /** Signals, with what the handlers read while handling them. */
  datatype Signal =
    | Added(path: Path, block: Option<Option<Path>>,    // the Block interface and its Drive property, if present
            removable: Option<bool>,                    // the drive's Removable, None if reading it throws
            reading: Reading)
    | Removed(path: Path, blocks: seq<bool>)            // for each name, whether it is the Block interface
    | Changed(path: Path, ofBlock: bool, relevant: bool,  // Block properties; IdUsage or IdType among them
              reading: Reading)

  datatype Watch = Watch(drive: Path, reported: bool)

  datatype Event =
    | Created(path: Path, removable: bool)
    | Reported(path: Path, reading: Reading)
    | Dropped(path: Path)

  datatype Monitor = Monitor(watchers: map<Path, Watch>, log: seq<Event>)

  function Check(m: Monitor, path: Path, r: Reading): Monitor
    requires path in m.watchers
  {
    if m.watchers[path].reported || !Ready(r) then m
    else Monitor(m.watchers[path := m.watchers[path].(reported := true)], m.log + [Reported(path, r)])
  }

  function DriveOf(block: Option<Path>): Path {
    if block.Some? then block.value else "/"
  }

  /** A new watcher, with what was read of its drive. */
  function Watched(m: Monitor, path: Path, drive: Path, removable: bool): Monitor {
    Monitor(m.watchers[path := Watch(drive, false)], m.log + [Created(path, removable)])
  }

  function Handle(m: Monitor, s: Signal): Monitor {
    match s
    case Added(path, block, removable, reading) =>
      if block.None? || DriveOf(block.value) == "/" || removable != Some(true) || path in m.watchers then m
      else Check(Watched(m, path, DriveOf(block.value), removable.value), path, reading)
    case Removed(path, blocks) =>
      if true in blocks && path in m.watchers then Monitor(m.watchers - {path}, m.log + [Dropped(path)]) else m
    case Changed(path, block, relevant, reading) =>
      if block && relevant && path in m.watchers then Check(m, path, reading) else m
  }

  // ---- The classes -----------------------------------------------------------------

  class BlockDeviceWatcher {
    const drivePath: Path
    var reported: bool

    constructor (drivePath: Path, reading: Reading)
      ensures this.drivePath == drivePath && reported == Ready(reading)
    {
      this.drivePath := drivePath;
      reported := false;
      new;
      var report := CheckAndReportIfReady(reading);
    }

    /** `report`: the callback was called. */
    method CheckAndReportIfReady(reading: Reading) returns (report: bool)
      modifies this
      ensures report == (!old(reported) && reading.usage.Some?
                         && (reading.usage.value == "filesystem" || reading.filesystem))
      ensures reported == (old(reported) || report)
    {
      report := false;
      if reported {
        return;
      }
      if reading.usage.None? {
        return;
      }
      var isFilesystem := reading.usage.value == "filesystem";
      if isFilesystem || reading.filesystem {
        reported := true;
        report := true;
      }
    }

    method OnPropertiesChanged(block: bool, relevant: bool, reading: Reading) returns (report: bool)
      modifies this
      ensures report == (block && relevant && !old(reported) && Ready(reading))
      ensures reported == (old(reported) || report)
    {
      report := false;
      if block && !reported {
        if relevant {
          report := CheckAndReportIfReady(reading);
        }
      }
    }
  }

  class RemovableDeviceMonitor {
    var watchers: map<Path, BlockDeviceWatcher>
    ghost var log: seq<Event>

    ghost predicate Valid()
      reads this
    {
      forall p, q :: p in watchers && q in watchers && p != q ==> watchers[p] != watchers[q]
    }

    ghost function View(): Monitor
      reads this, watchers.Values
    {
      Monitor(map p | p in watchers :: Watch(watchers[p].drivePath, watchers[p].reported), log)
    }

    constructor ()
      ensures Valid() && View() == Monitor(map[], [])
    {
      watchers := map[];
      log := [];
    }

    method OnInterfacesAdded(path: Path, block: Option<Option<Path>>, removable: Option<bool>, reading: Reading)
      requires Valid()
      modifies this
      ensures Valid() && View() == Handle(old(View()), Added(path, block, removable, reading))
    {
      if block.None? {
        return;
      }
      var drivePath := "/";
      if block.value.Some? {
        drivePath := block.value.value;
      }
      if drivePath == "/" {
        return;
      }
      if removable.None? {
        return;
      }
      if removable.value {
        if path !in watchers {
          StartWatching(path, drivePath, removable.value, reading);
          assert View().watchers == old(View()).watchers[path := Watch(drivePath, Ready(reading))];
        }
      }
    }

    /** A watcher for a path that has none. */
    method StartWatching(path: Path, drivePath: Path, removable: bool, reading: Reading)
      requires Valid() && path !in watchers
      modifies this
      ensures path in watchers && fresh(watchers[path]) && watchers == old(watchers)[path := watchers[path]]
      ensures watchers[path].drivePath == drivePath && watchers[path].reported == Ready(reading)
      ensures log == old(log) + [Created(path, removable)] + (if Ready(reading) then [Reported(path, reading)] else [])
    {
      var w := new BlockDeviceWatcher(drivePath, reading);
      watchers := watchers[path := w];
      log := log + [Created(path, removable)];
      if w.reported {
        log := log + [Reported(path, reading)];
      }
    }

    method OnInterfacesRemoved(path: Path, blocks: seq<bool>)
      requires Valid()
      modifies this
      ensures Valid() && View() == Handle(old(View()), Removed(path, blocks))
    {
      for i := 0 to |blocks|
        invariant Valid() && View() == Handle(old(View()), Removed(path, blocks[..i]))
      {
        assert blocks[..i + 1] == blocks[..i] + [blocks[i]];
        if blocks[i] {
          if path in watchers {
            watchers := watchers - {path};
            log := log + [Dropped(path)];
          }
        }
      }
      assert blocks[..|blocks|] == blocks;
    }

    /** A PropertiesChanged signal reaches the watcher of its path, if any. */
    method PropertiesChanged(path: Path, block: bool, relevant: bool, reading: Reading)
      requires Valid()
      modifies this, watchers.Values
      ensures Valid() && View() == Handle(old(View()), Changed(path, block, relevant, reading))
    {
      if path in watchers {
        var report := watchers[path].OnPropertiesChanged(block, relevant, reading);
        if report {
          log := log + [Reported(path, reading)];
        }
      }
    }
  }

  // ---- Any run of signals ---------------------------------------------------------------

  function Handled(signals: seq<Signal>): Monitor {
    if signals == [] then Monitor(map[], [])
    else Handle(Handled(signals[..|signals| - 1]), signals[|signals| - 1])
  }

  datatype Phase = Absent | Watching | Done

  /** What the log says of a path. */
  function PhaseOf(log: seq<Event>, path: Path): Phase {
    if log == [] then Absent else
    var before := PhaseOf(log[..|log| - 1], path);
    match log[|log| - 1]
    case Created(p, _) => if p == path then Watching else before
    case Reported(p, _) => if p == path then Done else before
    case Dropped(p) => if p == path then Absent else before
  }

  /** The event comes at the right moment and for a reason. */
  predicate Timely(log: seq<Event>, e: Event) {
    match e
    case Created(p, removable) => PhaseOf(log, p).Absent? && removable
    case Reported(p, r) => PhaseOf(log, p).Watching? && Ready(r)
    case Dropped(p) => !PhaseOf(log, p).Absent?
  }

  predicate Orderly(log: seq<Event>) {
    log == [] || (Orderly(log[..|log| - 1]) && Timely(log[..|log| - 1], log[|log| - 1]))
  }

  ghost predicate Tracks(m: Monitor) {
    && Orderly(m.log)
    && forall p :: PhaseOf(m.log, p) ==
         if p !in m.watchers then Absent else if m.watchers[p].reported then Done else Watching
  }

  lemma Logged(log: seq<Event>, e: Event)
    ensures forall p :: PhaseOf(log + [e], p) ==
              if e.path != p then PhaseOf(log, p)
              else match e case Created(_, _) => Watching case Reported(_, _) => Done case Dropped(_) => Absent
    ensures Orderly(log + [e]) == (Orderly(log) && Timely(log, e))
  {
  }

  lemma CheckTracks(m: Monitor, path: Path, r: Reading)
    requires Tracks(m) && path in m.watchers
    ensures Tracks(Check(m, path, r))
  {
  }

  lemma AddedTracks(m: Monitor, path: Path, block: Option<Option<Path>>, removable: Option<bool>, reading: Reading)
    requires Tracks(m) && Handle(m, Added(path, block, removable, reading)) != m
    ensures Tracks(Handle(m, Added(path, block, removable, reading)))
  {
    Logged(m.log, Created(path, removable.value));
    CheckTracks(Watched(m, path, DriveOf(block.value), removable.value), path, reading);
  }

  lemma HandleTracks(m: Monitor, s: Signal)
    requires Tracks(m)
    ensures Tracks(Handle(m, s))
  {
    match s
    case Added(path, block, removable, reading) =>
      if Handle(m, s) != m {
        AddedTracks(m, path, block, removable, reading);
      }
    case Removed(path, blocks) => Logged(m.log, Dropped(path));
    case Changed(path, _, _, reading) =>
      if path in m.watchers {
        CheckTracks(m, path, reading);
      }
  }

  lemma {:induction false} RunsTrack(signals: seq<Signal>)
    ensures Tracks(Handled(signals))
  {
    if signals != [] {
      RunsTrack(signals[..|signals| - 1]);
      HandleTracks(Handled(signals[..|signals| - 1]), signals[|signals| - 1]);
    }
  }

  /** A path that is watched was created and, since then, neither dropped nor, if
      still waiting, reported. */
  lemma {:induction false} LastCreation(log: seq<Event>, path: Path) returns (c: nat)
    requires Orderly(log) && !PhaseOf(log, path).Absent?
    ensures c < |log| && log[c] == Created(path, true)
    ensures forall i :: c < i < |log| ==> log[i] != Dropped(path)
    ensures PhaseOf(log, path).Watching? ==> forall i :: c < i < |log| ==> !(log[i].Reported? && log[i].path == path)
  {
    var front, last := log[..|log| - 1], log[|log| - 1];
    if last.Created? && last.path == path {
      c := |log| - 1;
    } else {
      c := LastCreation(front, path);
    }
  }

  lemma {:induction false} OrderlyPrefix(log: seq<Event>, n: nat)
    requires Orderly(log) && n <= |log|
    ensures Orderly(log[..n])
    ensures n < |log| ==> Timely(log[..n], log[n])
    decreases |log|
  {
    if n == |log| {
      assert log[..n] == log;
    } else {
      var front := log[..|log| - 1];
      OrderlyPrefix(front, n);
      assert front[..n] == log[..n];
    }
  }

  /** Over any run of signals, each report is of a ready block whose drive was
      read as removable when its watcher was created, and since that creation the
      device was neither removed nor reported: one report per watcher at most. */
  lemma ReportedOncePerInsertion(signals: seq<Signal>, n: nat)
    requires n < |Handled(signals).log| && Handled(signals).log[n].Reported?
    ensures var log := Handled(signals).log;
            var path := log[n].path;
            && Ready(log[n].reading)
            && exists c :: 0 <= c < n && log[c] == Created(path, true)
                 && forall i :: c < i < n ==> log[i] != Dropped(path) && !(log[i].Reported? && log[i].path == path)
  {
    RunsTrack(signals);
    var log := Handled(signals).log;
    OrderlyPrefix(log, n);
    var c := CreationBefore(log, n, log[n].path);
  }

  /** Two reports for one path have a removal of that path between them. */
  lemma RemovalBetweenReports(signals: seq<Signal>, m: nat, n: nat)
    requires m < n < |Handled(signals).log|
    requires Handled(signals).log[m].Reported? && Handled(signals).log[n].Reported?
    requires Handled(signals).log[m].path == Handled(signals).log[n].path
    ensures exists i :: m < i < n && Handled(signals).log[i] == Dropped(Handled(signals).log[n].path)
  {
    RunsTrack(signals);
    DroppedBetween(Handled(signals).log, m, n);
  }

  lemma DroppedBetween(log: seq<Event>, m: nat, n: nat)
    requires Orderly(log) && m < n < |log|
    requires log[m].Reported? && log[n].Reported? && log[m].path == log[n].path
    ensures exists i :: m < i < n && log[i] == Dropped(log[n].path)
  {
    OrderlyPrefix(log, n);
    var c := CreationBefore(log, n, log[n].path);
    assert m != c && !(c < m < n);
    DroppedSince(log, m, c, log[n].path);
  }

  /** The creation of the watcher that is there before event n. */
  lemma CreationBefore(log: seq<Event>, n: nat, path: Path) returns (c: nat)
    requires Orderly(log) && n <= |log| && PhaseOf(log[..n], path).Watching?
    ensures c < n && log[c] == Created(path, true) && PhaseOf(log[..c], path).Absent?
    ensures forall i :: c < i < n ==> log[i] != Dropped(path) && !(log[i].Reported? && log[i].path == path)
  {
    OrderlyPrefix(log, n);
    c := LastCreation(log[..n], path);
    forall i | c <= i < n ensures log[..n][i] == log[i] {
    }
    OrderlyPrefix(log, c);
  }

  /** A path reported at m and absent by n has been dropped in between. */
  lemma {:induction false} DroppedSince(log: seq<Event>, m: nat, n: nat, path: Path)
    requires m < n <= |log| && log[m].Reported? && log[m].path == path && PhaseOf(log[..n], path).Absent?
    ensures exists i :: m < i < n && log[i] == Dropped(path)
    decreases n - m
  {
    var last := log[n - 1];
    assert log[..n][..n - 1] == log[..n - 1] && log[..n][n - 1] == last;
    if last != Dropped(path) {
      assert m < n - 1;
      DroppedSince(log, m, n - 1, path);
    }
  }

  // ---- What each signal does ----------------------------------------------------------------

  /** Block properties that could be read say "filesystem", or there is a Filesystem
      interface that could be read. */
  predicate ReadsReady(r: Reading) {
    r.usage.Some? && (r.usage.value == "filesystem" || r.filesystem)
  }

  /** A property change is reported exactly if it is a relevant one of the Block
      interface, of a path watched and not yet reported, that reads ready. */
  lemma ChangeReportsIff(m: Monitor, path: Path, ofBlock: bool, relevant: bool, r: Reading)
    ensures var m' := Handle(m, Changed(path, ofBlock, relevant, r));
            if ofBlock && relevant && path in m.watchers && !m.watchers[path].reported && ReadsReady(r)
            then m' == Monitor(m.watchers[path := m.watchers[path].(reported := true)], m.log + [Reported(path, r)])
            else m' == m
  {
  }

  /** An insertion is watched exactly if it brings a Block interface with a drive that
      reads as removable, of a path not yet watched; it is reported at once exactly if
      it reads ready. */
  lemma InsertionWatchesIff(m: Monitor, path: Path, block: Option<Option<Path>>, removable: Option<bool>, r: Reading)
    ensures var m' := Handle(m, Added(path, block, removable, r));
            if block.Some? && block.value.Some? && block.value.value != "/" && removable == Some(true)
               && path !in m.watchers
            then m' == Monitor(m.watchers[path := Watch(block.value.value, ReadsReady(r))],
                               m.log + [Created(path, true)] + (if ReadsReady(r) then [Reported(path, r)] else []))
            else m' == m
  {
  }

  /** A removal drops the watcher exactly if the Block interface is among the names. */
  lemma RemovalDropsIff(m: Monitor, path: Path, blocks: seq<bool>)
    ensures var m' := Handle(m, Removed(path, blocks));
            if true in blocks && path in m.watchers
            then m' == Monitor(m.watchers - {path}, m.log + [Dropped(path)]) else m' == m
  {
  }

  /** Over any run of signals: a device watched since it was inserted, and not reported
      yet, is reported by the next relevant change that reads ready. */
  lemma ReadyChangeIsReported(signals: seq<Signal>, path: Path, r: Reading)
    requires PhaseOf(Handled(signals).log, path).Watching? && ReadsReady(r)
    ensures Handled(signals + [Changed(path, true, true, r)]).log == Handled(signals).log + [Reported(path, r)]
  {
    RunsTrack(signals);
    assert (signals + [Changed(path, true, true, r)])[..|signals|] == signals;
    ChangeReportsIff(Handled(signals), path, true, true, r);
  }
}
