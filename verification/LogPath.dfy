/** The LOG_FILE check: the cursor loop over path components refines a full
    split on '/'. */
module LogPaths {
  import opened Seqs
  import opened Text

  const DOTS := ".."

  function Components(path: string): seq<string> {
    Split(path, '/')
  }

  /** ".." with a slash or an end of the path on each side, at i. */
  predicate BoundedDots(path: string, i: int) {
    OccursAt(path, "..", i) && (i == 0 || path[i - 1] == '/') && (i + 2 == |path| || path[i + 2] == '/')
  }

  method IsLogFilePathSafe(path: string) returns (safe: bool)
    ensures safe <==>
              || path == ""
              || ('\0' !in path && '\n' !in path && '\r' !in path && path[0] != '-' && ".." !in Split(path, '/'))
  {
    if path == "" {
      return true;
    }
    if '\0' in path {
      return false;
    }
    if '\n' in path || '\r' in path {
      return false;
    }
    if path[0] == '-' {
      return false;
    }
    var pos := 0;
    assert path[0..] == path;
    while pos < |path|
      invariant pos <= |path|
      invariant DOTS in Components(path) <==> DOTS in Components(path[pos..])
      decreases |path| - pos
    {
      var slash := Find(path, "/", pos);
      var end := if slash.None? then |path| else slash.value;
      var component := path[pos..end];
      NextComponent(path, pos, slash);
      if component == DOTS {
        return false;
      }
      if slash.None? {
        break;
      }
      pos := slash.value + 1;
    }
    safe := true;
  }

  /** The component that begins at pos and what is left after it. */
  lemma NextComponent(path: string, pos: nat, slash: Option<nat>)
    requires pos <= |path| && slash == Find(path, "/", pos)
    ensures var end := if slash.None? then |path| else slash.value;
            && pos <= end <= |path|
            && (DOTS in Components(path[pos..]) <==>
                  path[pos..end] == DOTS || (slash.Some? && DOTS in Components(path[end + 1..])))
  {
    var end := if slash.None? then |path| else slash.value;
    NoSlashBefore(path, pos, end);
    SplitAt(path, '/', pos, end);
    InCons(DOTS, path[pos..end], if end < |path| then Split(path[end + 1..], '/') else []);
  }

  lemma InCons<T>(x: T, first: T, rest: seq<T>)
    ensures x in [first] + rest <==> x == first || x in rest
  {
  }

  lemma NoSlashBefore(path: string, pos: nat, end: nat)
    requires pos <= end <= |path| && forall i :: pos <= i < end ==> !OccursAt(path, "/", i)
    ensures forall i :: pos <= i < end ==> path[i] != '/'
  {
    forall i | pos <= i < end ensures path[i] != '/' {
      assert !OccursAt(path, "/", i);
      assert path[i..i + 1] == [path[i]];
    }
  }

  function NextSlash(path: string, pos: nat): (end: nat)
    requires pos <= |path|
    ensures pos <= end <= |path| && (end < |path| ==> path[end] == '/')
    ensures forall i :: pos <= i < end ==> path[i] != '/'
    decreases |path| - pos
  {
    if pos == |path| || path[pos] == '/' then pos else NextSlash(path, pos + 1)
  }

  /** Where bounded dots can be, seen from the start of a component. */
  lemma DotsHereOrLater(path: string, pos: nat, end: nat, i: nat)
    requires pos <= end <= |path| && (end < |path| ==> path[end] == '/')
    requires forall k :: pos <= k < end ==> path[k] != '/'
    requires pos <= i && BoundedDots(path, i)
    ensures if i == pos then path[pos..end] == DOTS else end < i
  {
  }

  lemma {:induction false} DotsFrom(path: string, pos: nat)
    requires pos <= |path| && (pos == 0 || path[pos - 1] == '/')
    ensures DOTS in Components(path[pos..]) ==> exists i :: pos <= i && BoundedDots(path, i)
    ensures forall i :: pos <= i && BoundedDots(path, i) ==> DOTS in Components(path[pos..])
    decreases |path| - pos
  {
    var end := NextSlash(path, pos);
    SplitAt(path, '/', pos, end);
    if path[pos..end] == DOTS {
      assert BoundedDots(path, pos);
    } else if end < |path| {
      DotsFrom(path, end + 1);
    }
    forall i | pos <= i && BoundedDots(path, i) ensures DOTS in Components(path[pos..]) {
      DotsHereOrLater(path, pos, end, i);
    }
  }

  /** A path that passes the character checks is refused exactly when ".." occurs
      in it with a slash or an end of the path on each side. */
  lemma RefusedIffBoundedDots(path: string)
    ensures ".." in Split(path, '/') <==> exists i :: BoundedDots(path, i)
  {
    assert path[0..] == path;
    DotsFrom(path, 0);
    assert forall i :: BoundedDots(path, i) ==> 0 <= i;
  }
}
