/** The few string operations the modelled code uses, in the C locale. */
module Text {
  import opened Seqs

  function ToLower(c: char): char {
    if 'A' <= c <= 'Z' then (c as int + 32) as char else c
  }

  function ToUpper(c: char): char {
    if 'a' <= c <= 'z' then (c as int - 32) as char else c
  }

  function Lower(s: string): (r: string)
    ensures |r| == |s|
  {
    seq(|s|, i requires 0 <= i < |s| => ToLower(s[i]))
  }

  function Upper(s: string): (r: string)
    ensures |r| == |s|
  {
    seq(|s|, i requires 0 <= i < |s| => ToUpper(s[i]))
  }

  /** `s` with every `what` turned into `with`. */
  function Replaced(s: string, what: char, with: char): (r: string)
    ensures |r| == |s|
  {
    seq(|s|, i requires 0 <= i < |s| => if s[i] == what then with else s[i])
  }

  predicate HexDigit(c: char) {
    '0' <= c <= '9' || 'a' <= c <= 'f' || 'A' <= c <= 'F'
  }

  /** Made of hexadecimal digits and colons, as a Bluetooth address is. */
  predicate MacLike(s: string) {
    forall i :: 0 <= i < |s| ==> HexDigit(s[i]) || s[i] == ':'
  }

  predicate OccursAt(s: string, pat: string, i: int) {
    0 <= i <= |s| - |pat| && s[i..i + |pat|] == pat
  }

  /** std::string::find. */
  function Find(s: string, pat: string, from: nat): (r: Option<nat>)
    requires from <= |s|
    ensures r.Some? ==> from <= r.value && OccursAt(s, pat, r.value)
    ensures forall i :: from <= i < (if r.Some? then r.value else |s| + 1) ==> !OccursAt(s, pat, i)
    decreases |s| - from
  {
    if OccursAt(s, pat, from) then Some(from)
    else if from == |s| then None
    else Find(s, pat, from + 1)
  }

  /** std::ranges::replace, in place. */
  method ReplaceInPlace(a: array<char>, what: char, with: char)
    modifies a
    ensures a[..] == Replaced(old(a[..]), what, with)
  {
    for i := 0 to a.Length
      invariant forall k :: 0 <= k < i ==> a[k] == if old(a[k]) == what then with else old(a[k])
      invariant forall k :: i <= k < a.Length ==> a[k] == old(a[k])
    {
      if a[i] == what {
        a[i] := with;
      }
    }
  }

  /** std::ranges::transform with tolower, in place. */
  method LowerInPlace(a: array<char>)
    modifies a
    ensures a[..] == Lower(old(a[..]))
  {
    for i := 0 to a.Length
      invariant forall k :: 0 <= k < i ==> a[k] == ToLower(old(a[k]))
      invariant forall k :: i <= k < a.Length ==> a[k] == old(a[k])
    {
      a[i] := ToLower(a[i]);
    }
  }

  /** std::ranges::transform with toupper, in place. */
  method UpperInPlace(a: array<char>)
    modifies a
    ensures a[..] == Upper(old(a[..]))
  {
    for i := 0 to a.Length
      invariant forall k :: 0 <= k < i ==> a[k] == ToUpper(old(a[k]))
      invariant forall k :: i <= k < a.Length ==> a[k] == old(a[k])
    {
      a[i] := ToUpper(a[i]);
    }
  }

  // ---- Splitting -----------------------------------------------------------------

  /** The pieces between separators, empty ones included: one more than there are
      separators. */
  function Split(s: string, sep: char): (r: seq<string>)
    ensures r != []
  {
    if s == "" then [""]
    else if s[0] == sep then [""] + Split(s[1..], sep)
    else var rest := Split(s[1..], sep); [[s[0]] + rest[0]] + rest[1..]
  }

  /** Putting the separators back. */
  function Joined(parts: seq<string>, sep: char): string {
    if parts == [] then "" else if |parts| == 1 then parts[0] else parts[0] + [sep] + Joined(parts[1..], sep)
  }

  /** Split undoes a join and leaves no separator in a piece. */
  lemma {:induction false} SplitJoins(s: string, sep: char)
    ensures Joined(Split(s, sep), sep) == s
    ensures forall c :: c in Split(s, sep) ==> sep !in c
  {
    if s != "" {
      SplitJoins(s[1..], sep);
      if s[0] == sep {
        assert Split(s, sep)[1..] == Split(s[1..], sep);
      } else {
        JoinedHead(s[0], Split(s[1..], sep), sep);
      }
      assert s == [s[0]] + s[1..];
    }
  }

  lemma JoinedHead(c: char, rest: seq<string>, sep: char)
    requires rest != []
    ensures Joined([[c] + rest[0]] + rest[1..], sep) == [c] + Joined(rest, sep)
    ensures c != sep && (forall r :: r in rest ==> sep !in r) ==>
              forall r :: r in [[c] + rest[0]] + rest[1..] ==> sep !in r
  {
  }

  /** The split of what is left at `pos`, when the next separator is at `end`. */
  lemma {:induction false} SplitAt(s: string, sep: char, pos: nat, end: nat)
    requires pos <= end <= |s| && (end < |s| ==> s[end] == sep)
    requires forall i :: pos <= i < end ==> s[i] != sep
    ensures Split(s[pos..], sep) == [s[pos..end]] + if end < |s| then Split(s[end + 1..], sep) else []
    decreases end - pos
  {
    var rest := s[pos..];
    if pos < end {
      SplitAt(s, sep, pos + 1, end);
      assert rest[0] == s[pos] && rest[1..] == s[pos + 1..];
      assert s[pos..end] == [s[pos]] + s[pos + 1..end];
    } else if end < |s| {
      assert rest[0] == sep && rest[1..] == s[pos + 1..] && s[pos..end] == "";
    } else {
      assert rest == "" && s[pos..end] == "";
    }
  }

  /** Lines, each ended by a newline. */
  function Unlines(lines: seq<string>): string {
    if lines == [] then "" else lines[0] + "\n" + Unlines(lines[1..])
  }

  lemma {:induction false} UnlinesConcat(a: seq<string>, b: seq<string>)
    ensures Unlines(a + b) == Unlines(a) + Unlines(b)
  {
    if a == [] {
      assert a + b == b;
    } else {
      UnlinesConcat(a[1..], b);
      assert (a + b)[1..] == a[1..] + b;
    }
  }

  lemma {:induction false} SplitUnlines(lines: seq<string>)
    requires forall l :: l in lines ==> '\n' !in l
    ensures Split(Unlines(lines), '\n') == lines + [""]
  {
    if lines != [] {
      SplitUnlines(lines[1..]);
      var s, n := Unlines(lines), |lines[0]|;
      assert s[n..][1..] == Unlines(lines[1..]) == s[n + 1..];
      assert s[0..n] == lines[0] && s[0..] == s;
      assert forall i :: 0 <= i < n ==> s[i] == lines[0][i] && lines[0][i] in lines[0];
      assert lines[0] in lines;
      SplitAt(s, '\n', 0, n);
      assert lines == [lines[0]] + lines[1..];
    }
  }

  /** f(0) + ... + f(n - 1). */
  function Concat(f: nat -> string, n: nat): string {
    if n == 0 then "" else Concat(f, n - 1) + f(n - 1)
  }

  lemma {:induction false} ConcatHasNo(f: nat -> string, n: nat, c: char)
    requires forall k :: c !in f(k)
    ensures c !in Concat(f, n)
  {
    if n > 0 {
      ConcatHasNo(f, n - 1, c);
    }
  }

  // ---- Numbers -----------------------------------------------------------------------

  function Digit(n: nat): char
    requires n < 16
  {
    if n < 10 then ('0' as int + n) as char else ('a' as int + n - 10) as char
  }

  /** `n` in base 10 or 16, without leading zeros. */
  function Numeral(n: nat, base: nat): (r: string)
    requires 2 <= base <= 16
    ensures r != ""
    decreases n
  {
    if n < base then [Digit(n)] else Numeral(n / base, base) + [Digit(n % base)]
  }

  predicate IsDigit(c: char) {
    '0' <= c <= '9' || 'a' <= c <= 'f'
  }

  function DigitValue(c: char): nat
    requires IsDigit(c)
  {
    if '0' <= c <= '9' then c as int - '0' as int else c as int - 'a' as int + 10
  }

  function Value(s: string, base: nat): nat
    requires forall c :: c in s ==> IsDigit(c)
  {
    if s == "" then 0 else Value(s[..|s| - 1], base) * base + DigitValue(s[|s| - 1])
  }

  /** A numeral is its value in digits of the base. */
  ghost predicate Denotes(s: string, n: nat, base: nat) {
    (forall c :: c in s ==> IsDigit(c) && (base <= 10 ==> c <= '9')) && Value(s, base) == n
  }

  lemma DenotesSnoc(s: string, q: nat, d: nat, base: nat)
    requires Denotes(s, q, base) && d < 16 && (base <= 10 ==> d < 10)
    ensures Denotes(s + [Digit(d)], q * base + d, base)
  {
  }

  lemma DivMod(n: nat, base: nat)
    requires base >= 2
    ensures (n / base) * base + n % base == n && 0 <= n % base < base
    ensures n >= base ==> n / base < n
  {
  }

  lemma {:induction false} NumeralRoundTrip(n: nat, base: nat)
    requires 2 <= base <= 16
    ensures Denotes(Numeral(n, base), n, base)
    decreases n
  {
    if n < base {
      assert Denotes("", 0, base);
      DenotesSnoc("", 0, n, base);
      assert "" + [Digit(n)] == [Digit(n)] == Numeral(n, base);
    } else {
      DivMod(n, base);
      var q, r := n / base, n % base;
      NumeralRoundTrip(q, base);
      var front := Numeral(q, base);
      assert Numeral(n, base) == front + [Digit(r)];
      DenotesSnoc(front, q, r, base);
    }
  }

  /** std::setw with a fill of '0'. */
  function Padded(s: string, width: nat): (r: string)
    ensures |r| == if |s| < width then width else |s|
    decreases width - |s|
  {
    if |s| < width then Padded("0" + s, width) else s
  }

  lemma {:induction false} LeadingZero(s: string, base: nat)
    requires forall c :: c in s ==> IsDigit(c)
    ensures Value("0" + s, base) == Value(s, base)
  {
    if s == "" {
      assert ("0" + s)[..0] == "";
    } else {
      LeadingZero(s[..|s| - 1], base);
      assert ("0" + s)[..|s|] == "0" + s[..|s| - 1];
    }
  }

  lemma {:induction false} PaddedValue(s: string, width: nat, base: nat)
    requires forall c :: c in s ==> IsDigit(c)
    ensures forall c :: c in Padded(s, width) ==> IsDigit(c)
    ensures Value(Padded(s, width), base) == Value(s, base)
    decreases width - |s|
  {
    if |s| < width {
      LeadingZero(s, base);
      PaddedValue("0" + s, width, base);
    }
  }
}
