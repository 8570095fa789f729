/** The maps of the controller over any run of the client: every such run plays a
    sequence of map steps, so what is proved of those holds of the client. */
module ClientMaps {
  import opened Seqs
  import opened LoopProtocol
  import opened XboxControllers
  import opened ControllerMaps
  import opened ControllerRuns

  /** The map steps of an act. Destroying the controller drops its reader, as a
      removal does, and leaves the maps alone. */
  function StepsOf(s: System, a: Act): seq<Step>
    requires a.Added? ==> |a.ifs| == |a.os|
  {
    match a
    case Prepare(_, _, hid) => [Rescanned(false, hid)]
    case Added(path, ifs, os) => seq(|ifs|, n requires 0 <= n < |ifs| => Insert(path, ifs[n], os[n]))
    case Removed(path, ks) => seq(|ks|, n requires 0 <= n < |ks| => Delete(path, ks[n]))
    case Changed(path, peer) => [Change(path, peer)]
    case Udev(remove, hidraw, hid) => if hidraw then [Rescanned(remove, hid)] else []
    case DropClient => [Rescanned(true, s.c.hid)]
    case _ => []
  }

  function History(valid: bool, acts: seq<Act>): seq<Step>
    requires Feasible(valid, acts)
  {
    if acts == [] then [] else
    var front := acts[..|acts| - 1];
    History(valid, front) + StepsOf(Reached(valid, front), acts[|acts| - 1])
  }

  lemma {:induction false} PlayConcat(c: Controller, steps: seq<Step>, more: seq<Step>)
    ensures Play(c, steps + more) == Play(Play(c, steps), more)
  {
    if more == [] {
      assert steps + more == steps;
    } else {
      PlayConcat(c, steps, more[..|more| - 1]);
      assert (steps + more)[..|steps + more| - 1] == steps + more[..|more| - 1];
    }
  }

  lemma PlayOne(c: Controller, s: Step)
    ensures Play(c, [s]) == Take(c, s)
  {
  }

  lemma ActIsPlay(s: System, a: Act)
    requires Can(s, a)
    ensures Do(s, a).c == Play(s.c, StepsOf(s, a))
  {
    match a
    case Added(path, ifs, os) => SignalIsInsertions(s.c, path, ifs, os);
    case Removed(path, ks) => SignalIsDeletions(s.c, path, ks);
    case Prepare(_, _, hid) => PlayOne(s.c, Rescanned(false, hid));
    case Changed(path, peer) => PlayOne(s.c, Change(path, peer));
    case Udev(remove, _, hid) => PlayOne(s.c, Rescanned(remove, hid));
    case DropClient => PlayOne(s.c, Rescanned(true, s.c.hid));
    case _ =>
  }

  /** Every controller that a run of the client reaches is a play of map steps. */
  lemma {:induction false} ReachedIsPlay(valid: bool, acts: seq<Act>)
    requires Feasible(valid, acts)
    ensures Reached(valid, acts).c == Play(EMPTY, History(valid, acts))
  {
    if acts != [] {
      var front, last := acts[..|acts| - 1], acts[|acts| - 1];
      ReachedIsPlay(valid, front);
      ActIsPlay(Reached(valid, front), last);
      PlayConcat(EMPTY, History(valid, front), StepsOf(Reached(valid, front), last));
    }
  }

  /** The state a run reaches is the last of its history. */
  lemma LastOfHistory(valid: bool, acts: seq<Act>, such: Controller -> bool)
    requires Feasible(valid, acts) && Throughout(History(valid, acts), such)
    ensures such(Reached(valid, acts).c)
  {
    ReachedIsPlay(valid, acts);
    var steps := History(valid, acts);
    assert steps[..|steps|] == steps;
  }

  /** In every run of the client no map outgrows its limit. */
  lemma ClientMapsKeepTheirLimits(valid: bool, acts: seq<Act>)
    requires Feasible(valid, acts)
    ensures Within(Reached(valid, acts).c)
  {
    ReachedIsPlay(valid, acts);
    LimitsHold(History(valid, acts));
  }

  /** In a run of the client in which no step leaks a client, each client is that of
      a device present. */
  lemma ClientMapsAreContained(valid: bool, acts: seq<Act>)
    requires Feasible(valid, acts) && !Meets(History(valid, acts), Leaks)
    ensures Contained(Reached(valid, acts).c)
  {
    ClientsBelongToDevicesIff(History(valid, acts));
    LastOfHistory(valid, acts, Contained);
  }

  /** In a run of the client in which no step spoils them, the clients are exactly
      those of the devices. */
  lemma ClientMapsAreExact(valid: bool, acts: seq<Act>)
    requires Feasible(valid, acts) && !Meets(History(valid, acts), Spoils)
    ensures Exact(Reached(valid, acts).c)
  {
    ClientsAreTheDevicesIff(History(valid, acts));
    LastOfHistory(valid, acts, Exact);
  }
}
