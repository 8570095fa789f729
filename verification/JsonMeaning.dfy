/** What the printed lines of a JSON value mean, said on the value itself: the text of
    each scalar gives it back, and the lines read back show the whole value. */
module JsonMeaning {
  import opened Seqs
  import opened Text
  import opened JsonLines

  // ---- Reading numbers ----------------------------------------------------------------

  function Pow10(n: nat): (p: nat)
    ensures p > 0
  {
    if n == 0 then 1 else 10 * Pow10(n - 1)
  }

  predicate Digits(s: string) { forall c :: c in s ==> '0' <= c <= '9' }

  function Whole(s: string): nat { if Digits(s) then Value(s, 10) else 0 }

  function ReadUnsigned(s: string): real {
    var dot := Find(s, ".", 0);
    if dot.None? then Whole(s) as real
    else Whole(s[..dot.value]) as real + Whole(s[dot.value + 1..]) as real / Pow10(|s| - dot.value - 1) as real
  }

  /** A decimal number, with an optional sign and an optional fraction. */
  function ReadNumber(s: string): real {
    if s != "" && s[0] == '-' then 0.0 - ReadUnsigned(s[1..]) else ReadUnsigned(s)
  }

  lemma DigitsHaveNoDot(s: string)
    requires Digits(s)
    ensures Find(s, ".", 0).None?
  {
    forall k | 0 <= k < |s| ensures !OccursAt(s, ".", k) {
      assert s[k] in s && s[k..k + 1] == [s[k]];
    }
  }

  lemma DotAfterDigits(a: string, b: string)
    requires Digits(a)
    ensures Find(a + "." + b, ".", 0) == Some(|a|)
  {
    var s := a + "." + b;
    forall k | 0 <= k < |a| ensures !OccursAt(s, ".", k) {
      assert s[k] == a[k] && a[k] in a && s[k..k + 1] == [s[k]];
    }
    assert s[|a|..|a| + 1] == ".";
    assert OccursAt(s, ".", |a|);
  }

  lemma NumeralIsWhole(n: nat)
    ensures Digits(Numeral(n, 10)) && Whole(Numeral(n, 10)) == n && Numeral(n, 10)[0] != '-'
  {
    NumeralRoundTrip(n, 10);
    assert Numeral(n, 10)[0] in Numeral(n, 10);
  }

  lemma {:induction false} NumeralLength(n: nat, width: nat)
    requires n < Pow10(width) && width > 0
    ensures |Numeral(n, 10)| <= width
  {
    if n >= 10 {
      NumeralLength(n / 10, width - 1);
      assert Numeral(n, 10) == Numeral(n / 10, 10) + [Digit(n % 10)];
    }
  }

  lemma {:induction false} PaddedDigits(s: string, width: nat)
    requires Digits(s)
    ensures Digits(Padded(s, width))
    decreases width - |s|
  {
    if |s| < width {
      PaddedDigits("0" + s, width);
    }
  }

  lemma PaddedIsWhole(n: nat, width: nat)
    requires n < Pow10(width) && width > 0
    ensures var s := Padded(Numeral(n, 10), width); Digits(s) && Whole(s) == n && |s| == width
  {
    NumeralIsWhole(n);
    NumeralLength(n, width);
    PaddedDigits(Numeral(n, 10), width);
    PaddedValue(Numeral(n, 10), width, 10);
  }

  // ---- Scalars ------------------------------------------------------------------------

  /** The magnitude printed with six decimals. */
  lemma MicrosAreRead(n: nat)
    ensures var s := Numeral(n / 1000000, 10) + "." + Padded(Numeral(n % 1000000, 10), 6);
            s[0] != '-' && ReadUnsigned(s) * 1000000.0 == n as real
  {
    var a, b := Numeral(n / 1000000, 10), Padded(Numeral(n % 1000000, 10), 6);
    NumeralIsWhole(n / 1000000);
    assert Pow10(6) == 1000000;
    PaddedIsWhole(n % 1000000, 6);
    DotAfterDigits(a, b);
    var s := a + "." + b;
    assert s[..|a|] == a && s[|a| + 1..] == b && s[0] == a[0];
    assert n == n / 1000000 * 1000000 + n % 1000000;
  }

  lemma FixedIsNear(d: real)
    ensures -0.0000005 <= ReadNumber(Fixed(d)) - d <= 0.0000005
  {
    var n: int := Nearest((if d < 0.0 then -d else d) * MICRO as real);
    var s := Numeral(n / MICRO, 10) + "." + Padded(Numeral(n % MICRO, 10), 6);
    MicrosAreRead(n);
    if d < 0.0 {
      assert Fixed(d) == "-" + s && ("-" + s)[1..] == s;
    } else {
      assert Fixed(d) == "" + s == s;
    }
  }

  lemma DecimalIsRead(v: int)
    ensures ReadNumber(Decimal(v)) == v as real
  {
    var s := Numeral(if v < 0 then -v else v, 10);
    NumeralIsWhole(if v < 0 then -v else v);
    DigitsHaveNoDot(s);
    if v < 0 {
      assert ("-" + s)[1..] == s;
    }
  }

  /** The number is whole and small enough to be printed as an integer. */
  predicate SafeInteger(d: real) {
    d.Floor as real == d && -9007199254740992.0 <= d <= 9007199254740992.0
  }

  /** The text says this scalar: the words and strings exactly, safe integers exactly,
      other numbers to half a unit of the sixth decimal. */
  predicate Means(text: string, el: Json) {
    match el
    case Null => text == "\"\""
    case Str(s) => text == s
    case Bool(b) => text == if b then "true" else "false"
    case Num(d) =>
      && -0.0000005 <= ReadNumber(text) - d <= 0.0000005
      && (SafeInteger(d) ==> ReadNumber(text) == d && '.' !in text)
      && (!SafeInteger(d) ==> '.' in text)
    case _ => false
  }

  lemma ScalarMeansItself(el: Json)
    requires !el.Container()
    ensures Means(ScalarToString(el), el)
  {
    if el.Num? {
      if SafeInteger(el.d) {
        DecimalIsRead(el.d.Floor);
        NumeralIsWhole(if el.d.Floor < 0 then -el.d.Floor else el.d.Floor);
      } else {
        FixedIsNear(el.d);
      }
    }
  }

  // ---- Whole values ---------------------------------------------------------------------

  /** "[i]", with the index in decimal. */
  predicate LabelOf(key: string, i: nat) {
    && |key| >= 3 && key[0] == '[' && key[|key| - 1] == ']'
    && Digits(key[1..|key| - 1]) && Whole(key[1..|key| - 1]) == i
  }

  /** The tree shows this value: its members in order under their names, its elements
      in order under their indices, its scalars by a text that means them. */
  predicate Shows(t: Tree, el: Json)
    decreases el
  {
    match el
    case Obj(ms) =>
      && t.Node? && |t.children| == |ms|
      && forall i :: 0 <= i < |ms| ==> t.children[i].key == ms[i].0 && Shows(t.children[i].tree, ms[i].1)
    case Arr(items) =>
      && t.Node? && |t.children| == |items|
      && forall i :: 0 <= i < |items| ==> LabelOf(t.children[i].key, i) && Shows(t.children[i].tree, items[i])
    case _ => t.Leaf? && Means(t.text, el)
  }

  lemma IndexLabelIsRead(i: nat)
    ensures LabelOf(IndexLabel(i), i)
  {
    NumeralIsWhole(i);
    assert IndexLabel(i)[1..|IndexLabel(i)| - 1] == Numeral(i, 10);
  }

  lemma {:induction false} ShapeShows(el: Json)
    ensures Shows(ShapeOf(el), el)
  {
    match el
    case Obj(ms) =>
      forall i | 0 <= i < |ms| ensures Shows(ShapeOf(el).children[i].tree, ms[i].1) {
        ShapeShows(ms[i].1);
      }
    case Arr(items) =>
      forall i | 0 <= i < |items|
        ensures LabelOf(ShapeOf(el).children[i].key, i) && Shows(ShapeOf(el).children[i].tree, items[i])
      {
        IndexLabelIsRead(i);
        ShapeShows(items[i]);
      }
    case _ => ScalarMeansItself(el);
  }

  /** What is printed for a legible container, read back line by line, shows that very
      value. */
  lemma PrintedTextShowsTheValue(el: Json, depth: nat)
    requires el.Container() && Legible(el, PlainKey)
    ensures Shows(Node(ReadText(TextOf(el, depth), depth)), el)
  {
    TextRoundTripIffLegible(el, depth);
    ShapeShows(el);
  }

  /** A lone scalar is one line: the padding and a text that means it. */
  lemma PrintedScalarMeansIt(el: Json, depth: nat)
    requires !el.Container()
    ensures exists text :: TextOf(el, depth) == seq(2 * depth, _ => ' ') + text + "\n" && Means(text, el)
  {
    ScalarMeansItself(el);
    assert TextOf(el, depth) == seq(2 * depth, _ => ' ') + ScalarToString(el) + "\n";
  }
}
