/** The three pending queues of the event loop and what one round of
    apply_pending makes of them. */
module EventQueues {
  import opened Seqs

  /** The address of an EventSource. Pointers are compared by address only. */
  type Addr = nat

  /** The source list after one round: everything registered or asked for, in
      order of first mention, except what was asked to go. */
  function Settle<T(==)>(sources: seq<T>, toAdd: seq<T>, toRemove: seq<T>): seq<T> {
    FirstOccurrences(Without(sources + toAdd, Elems(toRemove)))
  }

  // ---- What apply_pending promises ---------------------------------------

  /** One round is the set update (old + added) - removed, removal winning. */
  lemma SettleIsSetUpdate<T>(sources: seq<T>, toAdd: seq<T>, toRemove: seq<T>)
    ensures NoDup(Settle(sources, toAdd, toRemove))
    ensures Elems(Settle(sources, toAdd, toRemove)) == Elems(sources) + Elems(toAdd) - Elems(toRemove)
  {
    WithoutElems(sources + toAdd, Elems(toRemove));
    FirstOccurrencesElems(Without(sources + toAdd, Elems(toRemove)));
    assert Elems(sources + toAdd) == Elems(sources) + Elems(toAdd);
  }

  /** Survivors keep their order and come first; newcomers follow in the order
      in which they were first asked for. */
  lemma SettleKeepsOrder<T>(sources: seq<T>, toAdd: seq<T>, toRemove: seq<T>)
    requires NoDup(sources)
    ensures ByFirstMention(Settle(sources, toAdd, toRemove), sources + toAdd)
    ensures Settle(sources, toAdd, toRemove)
            == Without(sources, Elems(toRemove))
             + FirstOccurrences(Without(toAdd, Elems(toRemove) + Elems(sources)))
  {
    var gone := Elems(toRemove);
    FilteredByFirstMention(sources + toAdd, gone);
    WithoutConcat(sources, toAdd, gone);
    var kept, asked := Without(sources, gone), Without(toAdd, gone);
    FirstOccurrencesConcat(kept, asked);
    WithoutElems(sources, gone);
    FirstOccurrencesOfNoDup(kept);
    WithoutTwice(toAdd, gone, Elems(kept));
    assert gone + Elems(kept) == gone + Elems(sources);
  }

  /** One more source asked for. */
  lemma SettleOneMore<T>(sources: seq<T>, asked: seq<T>, x: T, toRemove: seq<T>)
    ensures var r := Settle(sources, asked, toRemove);
            Settle(sources, asked + [x], toRemove) == if x in toRemove || x in r then r else r + [x]
  {
    var gone := Elems(toRemove);
    assert x in gone <==> x in toRemove;
    var w := Without(sources + asked, gone);
    var r := FirstOccurrences(w);
    assert (sources + (asked + [x]))[..|sources + asked|] == sources + asked;
    FirstOccurrencesElems(w);
    assert x in w <==> x in Elems(w);
    assert x in r <==> x in Elems(r);
    assert (w + [x])[..|w|] == w;
  }

  /** The same, for the first k + 1 of a list. */
  lemma SettleNext<T>(sources: seq<T>, toAdd: seq<T>, k: nat, toRemove: seq<T>)
    requires k < |toAdd|
    ensures var r, x := Settle(sources, toAdd[..k], toRemove), toAdd[k];
            Settle(sources, toAdd[..k + 1], toRemove) == if x in toRemove || x in r then r else r + [x]
  {
    assert toAdd[..k + 1] == toAdd[..k] + [toAdd[k]];
    SettleOneMore(sources, toAdd[..k], toAdd[k], toRemove);
  }

  /** Nothing asked for: only the removals. */
  lemma SettleRemovals<T>(sources: seq<T>, toRemove: seq<T>)
    requires NoDup(sources)
    ensures Settle(sources, [], toRemove) == Without(sources, Elems(toRemove))
  {
    WithoutElems(sources, Elems(toRemove));
    FirstOccurrencesOfNoDup(Without(sources, Elems(toRemove)));
    assert sources + [] == sources;
  }

  /** The three properties above leave no choice: they determine the list. */
  lemma {:induction false} ByFirstMentionIsUnique<T>(r: seq<T>, r': seq<T>, s: seq<T>)
    requires ByFirstMention(r, s) && ByFirstMention(r', s)
    requires Elems(r) == Elems(r')
    ensures r == r'
    decreases |r|
  {
    if r == [] {
      assert forall k :: 0 <= k < |r'| ==> r'[k] in Elems(r');
    } else {
      assert r[0] in Elems(r);
      assert r'[0] in Elems(r') by { assert r[0] in r'; }
      var i :| 0 <= i < |r'| && r'[i] == r[0];
      var j :| 0 <= j < |r| && r[j] == r'[0];
      assert r[0] == r'[0];
      forall x ensures x in r[1..] <==> x in r'[1..] {
        assert x in r <==> x in Elems(r);
        assert x in r' <==> x in Elems(r');
        assert r == [r[0]] + r[1..];
        assert r' == [r'[0]] + r'[1..];
        assert r[0] !in r[1..];
        assert r'[0] !in r'[1..];
      }
      assert Elems(r[1..]) == Elems(r'[1..]);
      ByFirstMentionIsUnique(r[1..], r'[1..], s);
      assert r == [r[0]] + r[1..];
      assert r' == [r'[0]] + r'[1..];
    }
  }

  /** Settle is the only list that is the set update in order of first mention. */
  lemma SettleIsDetermined<T>(sources: seq<T>, toAdd: seq<T>, toRemove: seq<T>, r: seq<T>)
    requires NoDup(sources)
    requires Elems(r) == Elems(sources) + Elems(toAdd) - Elems(toRemove)
    requires ByFirstMention(r, sources + toAdd)
    ensures r == Settle(sources, toAdd, toRemove)
  {
    SettleIsSetUpdate(sources, toAdd, toRemove);
    SettleKeepsOrder(sources, toAdd, toRemove);
    ByFirstMentionIsUnique(r, Settle(sources, toAdd, toRemove), sources + toAdd);
  }
}
