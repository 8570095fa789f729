/** Sequences filtered in order, and what filtering keeps. */
module Seqs {
  datatype Option<+T> = None | Some(value: T)

  ghost predicate NoDup<T>(s: seq<T>) {
    forall i, j :: 0 <= i < j < |s| ==> s[i] != s[j]
  }

  function Elems<T>(s: seq<T>): set<T> {
    set x | x in s
  }

  /** `s` without the members of `gone`, in order. */
  function Without<T(==)>(s: seq<T>, gone: set<T>): seq<T> {
    if s == [] then [] else
    var front, last := s[..|s| - 1], s[|s| - 1];
    if last in gone then Without(front, gone) else Without(front, gone) + [last]
  }

  /** `s` with only the first occurrence of every element kept. */
  function FirstOccurrences<T(==)>(s: seq<T>): seq<T> {
    if s == [] then [] else
    var front, last := s[..|s| - 1], s[|s| - 1];
    if last in front then FirstOccurrences(front) else FirstOccurrences(front) + [last]
  }

  /** The position of the first mention of `x`. */
  function FirstIndex<T(==)>(s: seq<T>, x: T): (i: nat)
    requires x in s
    ensures i < |s| && s[i] == x && x !in s[..i]
  {
    if s[0] == x then 0 else 1 + FirstIndex(s[1..], x)
  }

  // ---- Without ----------------------------------------------------------

  lemma {:induction false} WithoutElems<T>(s: seq<T>, gone: set<T>)
    ensures Elems(Without(s, gone)) == Elems(s) - gone
    ensures NoDup(s) ==> NoDup(Without(s, gone))
  {
    if s != [] {
      WithoutElems(s[..|s| - 1], gone);
      assert s == s[..|s| - 1] + [s[|s| - 1]];
      forall x ensures x in Without(s, gone) <==> x in s && x !in gone {
        assert x in Without(s[..|s| - 1], gone) <==> x in Elems(Without(s[..|s| - 1], gone));
      }
      assert Elems(Without(s, gone)) == Elems(s) - gone;
      if NoDup(s) {
        assert s[|s| - 1] !in Elems(s[..|s| - 1]);
        assert s[|s| - 1] !in Elems(Without(s[..|s| - 1], gone));
      }
    }
  }

  lemma {:induction false} WithoutConcat<T>(s: seq<T>, t: seq<T>, gone: set<T>)
    ensures Without(s + t, gone) == Without(s, gone) + Without(t, gone)
  {
    if t == [] {
      assert s + t == s;
    } else {
      WithoutConcat(s, t[..|t| - 1], gone);
      assert (s + t)[..|s + t| - 1] == s + t[..|t| - 1];
    }
  }

  lemma {:induction false} WithoutTwice<T>(s: seq<T>, gone: set<T>, more: set<T>)
    ensures Without(Without(s, gone), more) == Without(s, gone + more)
  {
    if s != [] {
      var front, last := s[..|s| - 1], s[|s| - 1];
      WithoutTwice(front, gone, more);
      if last !in gone {
        assert (Without(front, gone) + [last])[..|Without(front, gone)|] == Without(front, gone);
      }
    }
  }

  lemma {:induction false} WithoutNothing<T>(s: seq<T>, gone: set<T>)
    requires Elems(s) !! gone
    ensures Without(s, gone) == s
  {
    if s != [] {
      var front, last := s[..|s| - 1], s[|s| - 1];
      assert s == front + [last];
      assert forall x :: x in front ==> x in s;
      assert last in s;
      WithoutNothing(front, gone);
    }
  }

  // ---- FirstOccurrences ---------------------------------------------------

  lemma {:induction false} FirstOccurrencesElems<T>(s: seq<T>)
    ensures Elems(FirstOccurrences(s)) == Elems(s)
    ensures NoDup(FirstOccurrences(s))
  {
    if s != [] {
      var front, last := s[..|s| - 1], s[|s| - 1];
      FirstOccurrencesElems(front);
      assert s == front + [last];
      forall x ensures x in FirstOccurrences(s) <==> x in s {
        assert x in FirstOccurrences(front) <==> x in Elems(FirstOccurrences(front));
      }
      assert last !in front ==> last !in Elems(FirstOccurrences(front));
    }
  }

  lemma {:induction false} FirstOccurrencesOfNoDup<T>(s: seq<T>)
    requires NoDup(s)
    ensures FirstOccurrences(s) == s
  {
    if s != [] {
      FirstOccurrencesOfNoDup(s[..|s| - 1]);
      assert s == s[..|s| - 1] + [s[|s| - 1]];
    }
  }

  lemma {:induction false} FirstOccurrencesConcat<T>(s: seq<T>, t: seq<T>)
    ensures FirstOccurrences(s + t) == FirstOccurrences(s) + FirstOccurrences(Without(t, Elems(s)))
  {
    if t == [] {
      assert s + t == s;
    } else {
      var front, last := t[..|t| - 1], t[|t| - 1];
      FirstOccurrencesConcat(s, front);
      assert (s + t)[..|s + t| - 1] == s + front;
      WithoutElems(front, Elems(s));
      assert last in front <==> last in Elems(front);
      assert last in Without(front, Elems(s)) <==> last in Elems(Without(front, Elems(s)));
      if last !in s {
        assert (Without(front, Elems(s)) + [last])[..|Without(front, Elems(s))|] == Without(front, Elems(s));
      }
    }
  }

  /** Elements kept by the two filters appear in the order of their first
      mention in the unfiltered sequence. */
  ghost predicate ByFirstMention<T>(r: seq<T>, s: seq<T>) {
    && (forall x :: x in r ==> x in s)
    && forall i, j :: 0 <= i < j < |r| ==> FirstIndex(s, r[i]) < FirstIndex(s, r[j])
  }

  lemma FirstIndexIsLeast<T>(s: seq<T>, x: T, i: nat)
    requires i < |s| && s[i] == x && x !in s[..i]
    ensures FirstIndex(s, x) == i
  {
  }

  lemma FirstIndexExtends<T>(s: seq<T>, t: seq<T>, x: T)
    requires x in s
    ensures FirstIndex(s + t, x) == FirstIndex(s, x)
  {
    var i := FirstIndex(s, x);
    assert (s + t)[..i] == s[..i];
    FirstIndexIsLeast(s + t, x, i);
  }

  lemma {:induction false} FilteredByFirstMention<T>(s: seq<T>, gone: set<T>)
    ensures ByFirstMention(FirstOccurrences(Without(s, gone)), s)
  {
    if s != [] {
      var front, last := s[..|s| - 1], s[|s| - 1];
      var w := Without(front, gone);
      var r := FirstOccurrences(w);
      FilteredByFirstMention(front, gone);
      assert s == front + [last];
      forall x | x in front ensures FirstIndex(s, x) == FirstIndex(front, x) {
        FirstIndexExtends(front, [last], x);
      }
      WithoutElems(front, gone);
      FirstOccurrencesElems(w);
      assert last in w <==> last in Elems(w);
      assert last in front <==> last in Elems(front);
      if last !in gone {
        assert (w + [last])[..|w|] == w;
        if last !in w {
          FirstIndexIsLeast(s, last, |front|);
          var full := r + [last];
          assert FirstOccurrences(Without(s, gone)) == full;
          forall i, j | 0 <= i < j < |full| ensures FirstIndex(s, full[i]) < FirstIndex(s, full[j]) {
            assert full[i] in r;
            assert j < |r| ==> full[j] in r;
          }
        }
      }
    }
  }
}
