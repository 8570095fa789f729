/** The JSON printer: one indented line per object member or array element. */
module JsonLines {
  import opened Seqs
  import opened Text

  /** A parsed JSON value. Members stand in the order the parser's map lists them. */
  datatype Json =
    | Null
    | Str(s: string)
    | Num(d: real)
    | Bool(b: bool)
    | Arr(items: seq<Json>)
    | Obj(members: seq<(string, Json)>)
  {
    predicate Container() { Arr? || Obj? }
  }

  // ---- Scalars ------------------------------------------------------------------

  const MAX_SAFE: int := 9007199254740992
  const MICRO: int := 1000000

  function Decimal(v: int): string {
    if v < 0 then "-" + Numeral(-v, 10) else Numeral(v, 10)
  }

  /** The integer nearest to `x`, the even one of two. */
  function Nearest(x: real): (r: int)
    ensures -0.5 <= r as real - x <= 0.5
  {
    var low := x.Floor;
    var over := x - low as real;
    if over < 0.5 || (over == 0.5 && low % 2 == 0) then low else low + 1
  }

  /** std::to_string of a double: rounded to six decimals. */
  function Fixed(d: real): string {
    var n: int := Nearest((if d < 0.0 then -d else d) * MICRO as real);
    (if d < 0.0 then "-" else "") + Numeral(n / MICRO, 10) + "." + Padded(Numeral(n % MICRO, 10), 6)
  }

  function ScalarToString(el: Json): string {
    match el
    case Null => "\"\""
    case Str(s) => s
    case Num(d) =>
      if -MAX_SAFE as real <= d <= MAX_SAFE as real && d == d.Floor as real then Decimal(d.Floor) else Fixed(d)
    case Bool(b) => if b then "true" else "false"
    case _ => "[complex]"
  }

  lemma DecimalIsPlain(n: nat, width: nat)
    ensures '\n' !in Numeral(n, 10) && ':' !in Numeral(n, 10) && '\n' !in Padded(Numeral(n, 10), width)
  {
    NumeralRoundTrip(n, 10);
    PaddedValue(Numeral(n, 10), width, 10);
  }

  predicate NoNewline(s: string) { '\n' !in s }

  /** Only a string can put a newline into a scalar's text. */
  lemma NewlinesComeFromStrings(el: Json)
    ensures NoNewline(ScalarToString(el)) <==> (el.Str? ==> NoNewline(el.s))
  {
    if el.Num? {
      var d := el.d;
      DecimalIsPlain(if d.Floor < 0 then -d.Floor else d.Floor, 0);
      var n: int := Nearest((if d < 0.0 then -d else d) * MICRO as real);
      DecimalIsPlain(n / MICRO, 0);
      DecimalIsPlain(n % MICRO, 6);
    }
  }

  /** What a printed integer says. */
  function Signed(s: string): int
    requires s != "" && forall c :: c in (if s[0] == '-' then s[1..] else s) ==> IsDigit(c)
  {
    if s[0] == '-' then 0 - Value(s[1..], 10) else Value(s, 10)
  }

  /** Whole numbers up to 2^53 are printed exactly. */
  lemma SafeIntegersAreExact(v: int)
    requires -9007199254740992 <= v <= 9007199254740992
    ensures var s := ScalarToString(Num(v as real));
            && s != "" && (forall c :: c in (if s[0] == '-' then s[1..] else s) ==> IsDigit(c))
            && Signed(s) == v
  {
    var s := ScalarToString(Num(v as real));
    assert (v as real).Floor == v;
    if v < 0 {
      NumeralRoundTrip(-v, 10);
      assert s[1..] == Numeral(-v, 10);
    } else {
      NumeralRoundTrip(v, 10);
      assert s[0] in s;
    }
  }

  // ---- Trees and lines ------------------------------------------------------------

  /** A value up to object/array labelling: an array's elements are labelled "[i]". */
  datatype Tree = Leaf(text: string) | Node(children: Forest)
  datatype Entry = Entry(key: string, tree: Tree)
  type Forest = seq<Entry>

  function IndexLabel(i: nat): string { "[" + Numeral(i, 10) + "]" }

  function ShapeOf(el: Json): Tree {
    match el
    case Obj(ms) => Node(seq(|ms|, i requires 0 <= i < |ms| => Entry(ms[i].0, ShapeOf(ms[i].1))))
    case Arr(items) => Node(seq(|items|, i requires 0 <= i < |items| => Entry(IndexLabel(i), ShapeOf(items[i]))))
    case _ => Leaf(ScalarToString(el))
  }

  function Below(t: Tree): Forest { if t.Node? then t.children else [] }

  /** A line: its depth, its key and what follows, if it is a scalar. */
  datatype Line = Line(depth: nat, key: string, text: Option<string>)

  function HeadLine(c: Entry, depth: nat): Line {
    Line(depth, c.key, if c.tree.Leaf? then Some(c.tree.text) else None)
  }

  function Lines(f: Forest, depth: nat): seq<Line> {
    if f == [] then [] else LinesOf(f[0], depth) + Lines(f[1..], depth)
  }

  /** One entry's line and those below it. */
  function LinesOf(c: Entry, depth: nat): seq<Line> {
    [HeadLine(c, depth)] + if c.tree.Node? then Lines(c.tree.children, depth + 1) else []
  }

  /** The number of values in the forest. */
  function Nodes(f: Forest): nat {
    if f == [] then 0
    else 1 + (if f[0].tree.Node? then Nodes(f[0].tree.children) else 0) + Nodes(f[1..])
  }

  function Pad(depth: nat): string { seq(2 * depth, _ => ' ') }

  function Render(l: Line): string {
    Pad(l.depth) + l.key + (if l.text.Some? then ": " + l.text.value else ":")
  }

  function Rendered(lines: seq<Line>): seq<string> {
    if lines == [] then [] else [Render(lines[0])] + Rendered(lines[1..])
  }

  function Printed(f: Forest, depth: nat): string { Unlines(Rendered(Lines(f, depth))) }

  /** What the printer makes of a value: a lone scalar is a line of its own. */
  function TextOf(el: Json, depth: nat): string {
    if el.Container() then Printed(Below(ShapeOf(el)), depth) else Pad(depth) + ScalarToString(el) + "\n"
  }

  lemma RenderedCons(l: Line, lines: seq<Line>)
    ensures Rendered([l] + lines) == [Render(l)] + Rendered(lines)
  {
    assert ([l] + lines)[1..] == lines;
  }

  lemma Opened<T>(a: seq<T>, b: seq<T>)
    requires a != []
    ensures a + b == [a[0]] + (a[1..] + b)
  {
  }

  lemma {:induction false} RenderedConcat(a: seq<Line>, b: seq<Line>)
    ensures Rendered(a + b) == Rendered(a) + Rendered(b)
  {
    if a == [] {
      assert a + b == b;
    } else {
      RenderedConcat(a[1..], b);
      Opened(a, b);
      RenderedCons(a[0], a[1..] + b);
    }
  }

  /** What one member or element adds: its line and, for a container, its lines. */
  function EntryText(c: Entry, depth: nat): string {
    Render(HeadLine(c, depth)) + "\n" + Printed(Below(c.tree), depth + 1)
  }

  /** What is printed for entries i and on. */
  lemma PrintedFrom(f: Forest, i: nat, depth: nat)
    requires i < |f|
    ensures Printed(f[i..], depth) == EntryText(f[i], depth) + Printed(f[i + 1..], depth)
  {
    assert f[i..][1..] == f[i + 1..];
    PrintedOpen(f[i..], depth);
  }

  lemma PrintedOpen(f: Forest, depth: nat)
    requires f != []
    ensures Printed(f, depth) == EntryText(f[0], depth) + Printed(f[1..], depth)
  {
    var below, rest := Lines(Below(f[0].tree), depth + 1), Lines(f[1..], depth);
    assert Lines(f, depth) == [HeadLine(f[0], depth)] + (below + rest);
    PrintedLines(HeadLine(f[0], depth), below, rest);
  }

  lemma PrintedLines(head: Line, below: seq<Line>, rest: seq<Line>)
    ensures Unlines(Rendered([head] + (below + rest)))
            == Render(head) + "\n" + Unlines(Rendered(below)) + Unlines(Rendered(rest))
  {
    assert ([head] + (below + rest))[1..] == below + rest;
    RenderedConcat(below, rest);
    UnlinesConcat(Rendered(below), Rendered(rest));
    UnlinesCons(Render(head), Rendered(below + rest));
  }

  lemma UnlinesCons(line: string, lines: seq<string>)
    ensures Unlines([line] + lines) == line + "\n" + Unlines(lines)
  {
  }

  /** One round of the loop over members or elements. */
  method EntryToLines(key: string, val: Json, indent: nat) returns (out: string)
    ensures out == EntryText(Entry(key, ShapeOf(val)), indent)
    decreases val, 2
  {
    var pad := Pad(indent);
    if val.Container() {
      var below := ElementToLines(val, indent + 1);
      out := pad + key + ":\n" + below;
      ContainerText(key, val, indent);
    } else {
      out := pad + key + ": " + ScalarToString(val) + "\n";
      ScalarText(key, val, indent);
    }
  }

  lemma ContainerText(key: string, val: Json, indent: nat)
    requires val.Container()
    ensures EntryText(Entry(key, ShapeOf(val)), indent) == Pad(indent) + key + ":\n" + TextOf(val, indent + 1)
  {
    var head := HeadLine(Entry(key, ShapeOf(val)), indent);
    assert Render(head) + "\n" == Pad(indent) + key + ":\n";
  }

  lemma ScalarText(key: string, val: Json, indent: nat)
    requires !val.Container()
    ensures EntryText(Entry(key, ShapeOf(val)), indent) == Pad(indent) + key + ": " + ScalarToString(val) + "\n"
  {
    var head := HeadLine(Entry(key, ShapeOf(val)), indent);
    assert Render(head) == Pad(indent) + key + ": " + ScalarToString(val);
    assert Printed([], indent + 1) == "";
  }

  /** The loop over the members of an object. */
  method MembersToLines(el: Json, indent: nat) returns (out: string)
    requires el.Obj?
    ensures out == TextOf(el, indent)
    decreases el, 0
  {
    out := "";
    ghost var below := Below(ShapeOf(el));
    for i := 0 to |el.members|
      invariant Printed(below, indent) == out + Printed(below[i..], indent)
    {
      var (key, val) := el.members[i];
      var text := EntryToLines(key, val, indent);
      PrintedFrom(below, i, indent);
      out := out + text;
    }
  }

  /** The loop over the elements of an array. */
  method ItemsToLines(el: Json, indent: nat) returns (out: string)
    requires el.Arr?
    ensures out == TextOf(el, indent)
    decreases el, 0
  {
    out := "";
    ghost var below := Below(ShapeOf(el));
    for i := 0 to |el.items|
      invariant Printed(below, indent) == out + Printed(below[i..], indent)
    {
      var text := EntryToLines(IndexLabel(i), el.items[i], indent);
      PrintedFrom(below, i, indent);
      out := out + text;
    }
  }

  /** elementToLines */
  method ElementToLines(el: Json, indent: nat) returns (out: string)
    ensures out == TextOf(el, indent)
    decreases el, 1
  {
    if el.Obj? {
      out := MembersToLines(el, indent);
    } else if el.Arr? {
      out := ItemsToLines(el, indent);
    } else {
      out := Pad(indent) + ScalarToString(el) + "\n";
    }
  }

  // ---- Reading the lines back -----------------------------------------------------

  /** The forest whose lines start here at `depth`, and the lines after it. */
  function Rebuild(lines: seq<Line>, depth: nat): (r: (Forest, seq<Line>))
    ensures |r.1| <= |lines|
    decreases |lines|
  {
    if lines == [] || lines[0].depth != depth then ([], lines)
    else
      var below := if lines[0].text.Some? then ([], lines[1..]) else Rebuild(lines[1..], depth + 1);
      var tree := if lines[0].text.Some? then Leaf(lines[0].text.value) else Node(below.0);
      var rest := Rebuild(below.1, depth);
      ([Entry(lines[0].key, tree)] + rest.0, rest.1)
  }

  /** The lines of one entry, if those below it rebuild its tree. */
  lemma RebuildEntry(c: Entry, depth: nat, rest: seq<Line>)
    requires c.tree.Node? ==>
               Rebuild(Lines(c.tree.children, depth + 1) + rest, depth + 1) == (c.tree.children, rest)
    ensures Rebuild(LinesOf(c, depth) + rest, depth) == ([c] + Rebuild(rest, depth).0, Rebuild(rest, depth).1)
  {
    if c.tree.Node? {
      assert (LinesOf(c, depth) + rest)[1..] == Lines(c.tree.children, depth + 1) + rest;
    } else {
      assert (LinesOf(c, depth) + rest)[1..] == rest;
    }
  }

  lemma LinesThen(f: Forest, depth: nat, tail: seq<Line>)
    requires f != []
    ensures Lines(f, depth) + tail == LinesOf(f[0], depth) + (Lines(f[1..], depth) + tail)
  {
  }

  lemma RebuildCons(f: Forest, depth: nat, tail: seq<Line>)
    requires f != []
    requires var rest := Lines(f[1..], depth) + tail;
             && Rebuild(rest, depth) == (f[1..], tail)
             && (f[0].tree.Node? ==>
                   Rebuild(Lines(f[0].tree.children, depth + 1) + rest, depth + 1) == (f[0].tree.children, rest))
    ensures Rebuild(Lines(f, depth) + tail, depth) == (f, tail)
  {
    var rest := Lines(f[1..], depth) + tail;
    RebuildEntry(f[0], depth, rest);
    LinesThen(f, depth, tail);
    assert [f[0]] + f[1..] == f;
  }

  lemma TailIsShallower(f: Forest, depth: nat, tail: seq<Line>)
    requires tail != [] ==> tail[0].depth < depth
    ensures var rest := Lines(f, depth) + tail; rest != [] ==> rest[0].depth <= depth
  {
  }

  /** The lines of a forest, whatever shallower ones follow, rebuild that forest. */
  lemma {:induction false} RebuildLines(f: Forest, depth: nat, tail: seq<Line>)
    requires tail != [] ==> tail[0].depth < depth
    ensures Rebuild(Lines(f, depth) + tail, depth) == (f, tail)
  {
    if f == [] {
      assert [] + tail == tail;
    } else {
      RebuildLines(f[1..], depth, tail);
      if f[0].tree.Node? {
        TailIsShallower(f[1..], depth, tail);
        RebuildLines(f[0].tree.children, depth + 1, Lines(f[1..], depth) + tail);
      }
      RebuildCons(f, depth, tail);
    }
  }

  /** There is a line for every value below the root. */
  lemma {:induction false} OneLineEach(f: Forest, depth: nat)
    ensures |Lines(f, depth)| == Nodes(f)
  {
    if f != [] {
      OneLineEach(f[1..], depth);
      if f[0].tree.Node? {
        OneLineEach(f[0].tree.children, depth + 1);
      }
    }
  }

  /** A container's lines rebuild it up to labelling, one line a value. */
  lemma LinesRoundTrip(el: Json, depth: nat)
    requires el.Container()
    ensures var lines := Lines(Below(ShapeOf(el)), depth);
            Node(Rebuild(lines, depth).0) == ShapeOf(el) && |lines| == Nodes(Below(ShapeOf(el)))
  {
    var f := Below(ShapeOf(el));
    RebuildLines(f, depth, []);
    assert Lines(f, depth) + [] == Lines(f, depth);
    OneLineEach(f, depth);
  }

  // ---- Values that can be read back -------------------------------------------------

  /** Every member name is `ok` and no string holds a newline. */
  predicate Legible(el: Json, ok: string -> bool) {
    match el
    case Str(s) => NoNewline(s)
    case Arr(items) => forall i :: 0 <= i < |items| ==> Legible(items[i], ok)
    case Obj(ms) => forall i :: 0 <= i < |ms| ==> ok(ms[i].0) && Legible(ms[i].1, ok)
    case _ => true
  }

  /** A key that ends where its line's first ": " or last ":" is, and begins after
      the padding. */
  predicate PlainKey(key: string) {
    Find(key, ": ", 0).None? && NoNewline(key) && (key != "" ==> key[0] != ' ')
  }

  /** The same of trees, forests and lines. */
  predicate PlainTree(t: Tree, ok: string -> bool) {
    match t
    case Leaf(text) => NoNewline(text)
    case Node(children) => Plain(children, ok)
  }

  predicate Plain(f: Forest, ok: string -> bool) {
    forall i :: 0 <= i < |f| ==> ok(f[i].key) && PlainTree(f[i].tree, ok)
  }

  predicate PlainLine(l: Line, ok: string -> bool) {
    ok(l.key) && (l.text.Some? ==> NoNewline(l.text.value))
  }

  predicate AllPlain(lines: seq<Line>, ok: string -> bool) {
    forall l :: l in lines ==> PlainLine(l, ok)
  }

  /** An array's elements are always plain to read. */
  lemma IndexLabelsArePlain(i: nat)
    ensures PlainKey(IndexLabel(i))
  {
    DecimalIsPlain(i, 0);
    NoColonNoCut(IndexLabel(i));
  }

  lemma NoColonNoCut(s: string)
    requires ':' !in s
    ensures Find(s, ": ", 0).None?
  {
    forall k | 0 <= k <= |s| - 2 ensures !OccursAt(s, ": ", k) {
      assert s[k..k + 2][0] == s[k] && s[k] in s;
    }
  }

  lemma {:induction false} ShapeIsPlainIff(el: Json, ok: string -> bool)
    requires forall i: nat :: ok(IndexLabel(i))
    ensures PlainTree(ShapeOf(el), ok) <==> Legible(el, ok)
  {
    match el
    case Obj(ms) =>
      var f := ShapeOf(el).children;
      forall i | 0 <= i < |ms|
        ensures ok(f[i].key) && PlainTree(f[i].tree, ok) <==> ok(ms[i].0) && Legible(ms[i].1, ok)
      {
        ShapeIsPlainIff(ms[i].1, ok);
      }
    case Arr(items) =>
      var f := ShapeOf(el).children;
      forall i | 0 <= i < |items|
        ensures ok(f[i].key) && PlainTree(f[i].tree, ok) <==> Legible(items[i], ok)
      {
        ShapeIsPlainIff(items[i], ok);
      }
    case _ => NewlinesComeFromStrings(el);
  }

  lemma PlainOpen(f: Forest, ok: string -> bool)
    requires f != []
    ensures Plain(f, ok) <==> ok(f[0].key) && PlainTree(f[0].tree, ok) && Plain(f[1..], ok)
  {
  }

  lemma AllPlainConcat(a: seq<Line>, b: seq<Line>, ok: string -> bool)
    ensures AllPlain(a + b, ok) <==> AllPlain(a, ok) && AllPlain(b, ok)
  {
  }

  lemma EntryLinesPlainIff(c: Entry, depth: nat, ok: string -> bool)
    requires c.tree.Node? ==> (AllPlain(Lines(c.tree.children, depth + 1), ok) <==> Plain(c.tree.children, ok))
    ensures AllPlain(LinesOf(c, depth), ok) <==> ok(c.key) && PlainTree(c.tree, ok)
  {
    var head := HeadLine(c, depth);
    assert AllPlain([head], ok) <==> PlainLine(head, ok) by {
      assert head in [head];
    }
    AllPlainConcat([head], if c.tree.Node? then Lines(c.tree.children, depth + 1) else [], ok);
  }

  lemma {:induction false} LinesPlainIff(f: Forest, depth: nat, ok: string -> bool)
    ensures AllPlain(Lines(f, depth), ok) <==> Plain(f, ok)
  {
    if f != [] {
      LinesPlainIff(f[1..], depth, ok);
      if f[0].tree.Node? {
        LinesPlainIff(f[0].tree.children, depth + 1, ok);
      }
      EntryLinesPlainIff(f[0], depth, ok);
      AllPlainConcat(LinesOf(f[0], depth), Lines(f[1..], depth), ok);
      PlainOpen(f, ok);
    }
  }

  /** A container is legible exactly when its lines are. */
  lemma LegibleIffLinesPlain(el: Json, depth: nat, ok: string -> bool)
    requires el.Container() && forall i: nat :: ok(IndexLabel(i))
    ensures Legible(el, ok) <==> AllPlain(Lines(Below(ShapeOf(el)), depth), ok)
  {
    ShapeIsPlainIff(el, ok);
    LinesPlainIff(Below(ShapeOf(el)), depth, ok);
  }

  // ---- Counting lines ---------------------------------------------------------------

  function Count(s: string, c: char): nat {
    if s == "" then 0 else (if s[0] == c then 1 else 0) + Count(s[1..], c)
  }

  lemma {:induction false} CountConcat(a: string, b: string, c: char)
    ensures Count(a + b, c) == Count(a, c) + Count(b, c)
  {
    if a == "" {
      assert a + b == b;
    } else {
      CountConcat(a[1..], b, c);
      assert (a + b)[1..] == a[1..] + b;
    }
  }

  lemma {:induction false} CountPad(depth: nat)
    ensures Count(Pad(depth), '\n') == 0
  {
    if depth > 0 {
      CountPad(depth - 1);
      assert Pad(depth)[1..][1..] == Pad(depth - 1);
    }
  }

  /** The newlines inside the keys and scalars themselves. */
  function Newlines(l: Line): nat {
    Count(l.key, '\n') + if l.text.Some? then Count(l.text.value, '\n') else 0
  }

  function NewlinesIn(lines: seq<Line>): nat {
    if lines == [] then 0 else Newlines(lines[0]) + NewlinesIn(lines[1..])
  }

  lemma CountLine(l: Line)
    ensures Count(Render(l), '\n') == Newlines(l)
  {
    CountPad(l.depth);
    CountConcat(Pad(l.depth), l.key, '\n');
    if l.text.Some? {
      CountConcat(Pad(l.depth) + l.key, ": " + l.text.value, '\n');
      CountConcat(": ", l.text.value, '\n');
    } else {
      CountConcat(Pad(l.depth) + l.key, ":", '\n');
    }
  }

  lemma {:induction false} CountLines(lines: seq<Line>)
    ensures Count(Unlines(Rendered(lines)), '\n') == |lines| + NewlinesIn(lines)
  {
    if lines != [] {
      var line, rest := Render(lines[0]), Unlines(Rendered(lines[1..]));
      CountLine(lines[0]);
      CountConcat(line, "\n", '\n');
      CountConcat(line + "\n", rest, '\n');
      CountLines(lines[1..]);
    }
  }

  lemma {:induction false} CountIsZeroIff(s: string, c: char)
    ensures Count(s, c) == 0 <==> c !in s
  {
    if s != "" {
      CountIsZeroIff(s[1..], c);
      assert s == [s[0]] + s[1..];
    }
  }

  lemma NewlinesIsZeroIff(l: Line)
    ensures Newlines(l) == 0 <==> PlainLine(l, NoNewline)
  {
    CountIsZeroIff(l.key, '\n');
    if l.text.Some? {
      CountIsZeroIff(l.text.value, '\n');
    }
  }

  lemma {:induction false} NoNewlinesIffAllPlain(lines: seq<Line>)
    ensures NewlinesIn(lines) == 0 <==> AllPlain(lines, NoNewline)
  {
    if lines != [] {
      NewlinesIsZeroIff(lines[0]);
      NoNewlinesIffAllPlain(lines[1..]);
      assert lines == [lines[0]] + lines[1..];
      AllPlainConcat([lines[0]], lines[1..], NoNewline);
      assert lines[0] in [lines[0]];
    }
  }

  /** The text has as many lines as there are values below the root, exactly when no
      member name and no string of the value holds a newline. */
  lemma LineCountIffNoNewlines(el: Json, depth: nat)
    requires el.Container()
    ensures Count(TextOf(el, depth), '\n') == Nodes(Below(ShapeOf(el))) <==> Legible(el, NoNewline)
  {
    var f := Below(ShapeOf(el));
    CountLines(Lines(f, depth));
    OneLineEach(f, depth);
    NoNewlinesIffAllPlain(Lines(f, depth));
    forall i: nat ensures NoNewline(IndexLabel(i)) {
      IndexLabelsArePlain(i);
    }
    LegibleIffLinesPlain(el, depth, NoNewline);
  }

  // ---- Reading the text back --------------------------------------------------------

  function Indent(s: string): (n: nat)
    ensures n <= |s|
  {
    if s != "" && s[0] == ' ' then 1 + Indent(s[1..]) else 0
  }

  /** A line taken apart: at its first ": ", or else before its last ":". */
  function ReadLine(s: string): Line {
    var depth, rest := Indent(s) / 2, s[Indent(s)..];
    var colon := Find(rest, ": ", 0);
    if colon.Some? then Line(depth, rest[..colon.value], Some(rest[colon.value + 2..]))
    else Line(depth, if rest != "" && rest[|rest| - 1] == ':' then rest[..|rest| - 1] else rest, None)
  }

  function ReadLines(lines: seq<string>): seq<Line> {
    if lines == [] then [] else [ReadLine(lines[0])] + ReadLines(lines[1..])
  }

  /** The forest that a text shows. */
  function ReadText(text: string, depth: nat): Forest {
    var lines := Split(text, '\n');
    Rebuild(ReadLines(lines[..|lines| - 1]), depth).0
  }

  lemma {:induction false} IndentOfPad(depth: nat, rest: string)
    requires rest != "" && rest[0] != ' '
    ensures Indent(Pad(depth) + rest) == 2 * depth
  {
    if depth == 0 {
      assert Pad(depth) + rest == rest;
    } else {
      IndentOfPad(depth - 1, rest);
      assert (Pad(depth) + rest)[1..][1..] == Pad(depth - 1) + rest;
    }
  }

  /** In a key without ": " that is followed by a colon, none begins either. */
  lemma NoneInKey(key: string, after: string)
    requires Find(key, ": ", 0).None?
    ensures forall i :: 0 <= i < |key| ==> !OccursAt(key + (":" + after), ": ", i)
  {
    var s := key + (":" + after);
    forall i | 0 <= i < |key| ensures !OccursAt(s, ": ", i) {
      CutIff(key, i);
      CutIff(s, i);
    }
  }

  /** Where ": " is, character by character. */
  lemma CutIff(s: string, i: nat)
    ensures OccursAt(s, ": ", i) <==> i + 2 <= |s| && s[i] == ':' && s[i + 1] == ' '
  {
    if i + 2 <= |s| {
      assert s[i..i + 2] == [s[i], s[i + 1]];
    }
  }

  lemma ReadScalar(key: string, text: string)
    requires Find(key, ": ", 0).None?
    ensures Find(key + ": " + text, ": ", 0) == Some(|key|)
  {
    NoneInKey(key, " " + text);
    var s := key + ": " + text;
    assert s == key + (":" + (" " + text));
    assert s[|key|..|key| + 2] == ": ";
    assert OccursAt(s, ": ", |key|);
  }

  lemma ReadContainer(key: string)
    requires Find(key, ": ", 0).None?
    ensures Find(key + ":", ": ", 0).None?
  {
    NoneInKey(key, "");
    assert key + (":" + "") == key + ":";
  }

  lemma ReadRender(l: Line)
    requires PlainLine(l, PlainKey)
    ensures ReadLine(Render(l)) == l
  {
    var rest := l.key + (if l.text.Some? then ": " + l.text.value else ":");
    assert Render(l) == Pad(l.depth) + rest;
    IndentOfPad(l.depth, rest);
    assert (Pad(l.depth) + rest)[2 * l.depth..] == rest;
    if l.text.Some? {
      ReadScalar(l.key, l.text.value);
      assert rest == l.key + ": " + l.text.value;
      assert rest[..|l.key|] == l.key && rest[|l.key| + 2..] == l.text.value;
    } else {
      ReadContainer(l.key);
      assert rest[..|rest| - 1] == l.key;
    }
  }

  lemma RenderHasNoNewline(l: Line)
    requires PlainLine(l, PlainKey)
    ensures NoNewline(Render(l))
  {
  }

  lemma {:induction false} ReadRendered(lines: seq<Line>)
    requires AllPlain(lines, PlainKey)
    ensures ReadLines(Rendered(lines)) == lines
    ensures forall s :: s in Rendered(lines) ==> '\n' !in s
  {
    if lines != [] {
      ReadRender(lines[0]);
      RenderHasNoNewline(lines[0]);
      assert forall l :: l in lines[1..] ==> l in lines;
      ReadRendered(lines[1..]);
      var rest := Rendered(lines[1..]);
      assert Rendered(lines) == [Render(lines[0])] + rest && ([Render(lines[0])] + rest)[1..] == rest;
      assert [lines[0]] + lines[1..] == lines;
    }
  }

  // ---- Whatever is read is plain ------------------------------------------------------

  lemma {:induction false} IndentStops(s: string)
    ensures Indent(s) < |s| ==> s[Indent(s)] != ' '
  {
    if s != "" && s[0] == ' ' {
      IndentStops(s[1..]);
    }
  }

  lemma NoneBefore(s: string, n: nat)
    requires n <= |s| && forall i :: 0 <= i < n ==> !OccursAt(s, ": ", i)
    ensures Find(s[..n], ": ", 0).None?
  {
    forall k | 0 <= k <= n - 2 ensures !OccursAt(s[..n], ": ", k) {
      assert !OccursAt(s, ": ", k);
      assert s[..n][k..k + 2] == s[k..k + 2];
    }
  }

  lemma ReadIsPlain(s: string)
    requires NoNewline(s)
    ensures PlainLine(ReadLine(s), PlainKey)
  {
    IndentStops(s);
    var rest := s[Indent(s)..];
    var colon := Find(rest, ": ", 0);
    NoneBefore(rest, |ReadLine(s).key|);
    assert rest[..|rest|] == rest;
  }

  lemma {:induction false} ReadLinesArePlain(lines: seq<string>)
    requires forall s :: s in lines ==> '\n' !in s
    ensures AllPlain(ReadLines(lines), PlainKey)
  {
    if lines != [] {
      assert lines[0] in lines && forall s :: s in lines[1..] ==> s in lines;
      ReadIsPlain(lines[0]);
      ReadLinesArePlain(lines[1..]);
      AllPlainConcat([ReadLine(lines[0])], ReadLines(lines[1..]), PlainKey);
    }
  }

  lemma PlainCons(c: Entry, f: Forest, ok: string -> bool)
    requires ok(c.key) && PlainTree(c.tree, ok) && Plain(f, ok)
    ensures Plain([c] + f, ok)
  {
  }

  lemma {:induction false} RebuildIsPlain(lines: seq<Line>, depth: nat, ok: string -> bool)
    requires AllPlain(lines, ok)
    ensures Plain(Rebuild(lines, depth).0, ok) && AllPlain(Rebuild(lines, depth).1, ok)
    decreases |lines|
  {
    if lines != [] && lines[0].depth == depth {
      assert lines[0] in lines && AllPlain(lines[1..], ok);
      var below := if lines[0].text.Some? then ([], lines[1..]) else Rebuild(lines[1..], depth + 1);
      if lines[0].text.None? {
        RebuildIsPlain(lines[1..], depth + 1, ok);
      }
      RebuildIsPlain(below.1, depth, ok);
      var tree := if lines[0].text.Some? then Leaf(lines[0].text.value) else Node(below.0);
      PlainCons(Entry(lines[0].key, tree), Rebuild(below.1, depth).0, ok);
    }
  }

  lemma ReadTextIsPlain(text: string, depth: nat)
    ensures Plain(ReadText(text, depth), PlainKey)
  {
    SplitJoins(text, '\n');
    var lines := Split(text, '\n');
    ReadLinesArePlain(lines[..|lines| - 1]);
    RebuildIsPlain(ReadLines(lines[..|lines| - 1]), depth, PlainKey);
  }

  lemma TextRoundTrip(el: Json, depth: nat)
    requires el.Container() && AllPlain(Lines(Below(ShapeOf(el)), depth), PlainKey)
    ensures Node(ReadText(TextOf(el, depth), depth)) == ShapeOf(el)
  {
    var lines := Lines(Below(ShapeOf(el)), depth);
    ReadRendered(lines);
    SplitUnlines(Rendered(lines));
    assert (Rendered(lines) + [""])[..|Rendered(lines)|] == Rendered(lines);
    LinesRoundTrip(el, depth);
  }

  /** The printed text of a container shows it again, up to labelling, if and only
      if no member name holds ": " or a newline or begins with a space, and no string
      holds a newline. */
  lemma TextRoundTripIffLegible(el: Json, depth: nat)
    requires el.Container()
    ensures Node(ReadText(TextOf(el, depth), depth)) == ShapeOf(el) <==> Legible(el, PlainKey)
  {
    forall i: nat ensures PlainKey(IndexLabel(i)) {
      IndexLabelsArePlain(i);
    }
    if Legible(el, PlainKey) {
      LegibleIffLinesPlain(el, depth, PlainKey);
      TextRoundTrip(el, depth);
    }
    if Node(ReadText(TextOf(el, depth), depth)) == ShapeOf(el) {
      ReadTextIsPlain(TextOf(el, depth), depth);
      ShapeIsPlainIff(el, PlainKey);
    }
  }

  lemma PrintedMember(key: string, t: string, depth: nat)
    ensures var el := Obj([(key, Str(t))]);
            ShapeOf(el) == Node([Entry(key, Leaf(t))]) && TextOf(el, depth) == Pad(depth) + (key + ": " + t) + "\n"
  {
    var el := Obj([(key, Str(t))]);
    var f := Below(ShapeOf(el));
    assert ShapeOf(el.members[0].1) == Leaf(t);
    assert f == [Entry(key, Leaf(t))];
    PrintedOpen(f, depth);
    assert Render(HeadLine(f[0], depth)) == Pad(depth) + (key + ": " + t);
  }

  /** Wherever a name holds a colon and a space, another value prints the same text:
      no reader can tell the two apart. */
  lemma ColonsAreAmbiguous(k1: string, k2: string, t: string, depth: nat)
    ensures var a, b := Obj([(k1 + ": " + k2, Str(t))]), Obj([(k1, Str(k2 + ": " + t))]);
            ShapeOf(a) != ShapeOf(b) && TextOf(a, depth) == TextOf(b, depth)
  {
    PrintedMember(k1 + ": " + k2, t, depth);
    PrintedMember(k1, k2 + ": " + t, depth);
    assert (k1 + ": " + k2) + ": " + t == k1 + ": " + (k2 + ": " + t);
    assert |k1 + ": " + k2| > |k1|;
    assert Entry(k1 + ": " + k2, Leaf(t)) != Entry(k1, Leaf(k2 + ": " + t));
    assert [Entry(k1 + ": " + k2, Leaf(t))][0] != [Entry(k1, Leaf(k2 + ": " + t))][0];
  }
}
