/**
 * One output line: the integers of an adjusted row written in decimal and
 * joined by ',' (what `string.Join(',', adjusted)` produces), together with
 * a split-and-parse reader of such lines that serves as its inverse.
 */
module CsvLine {
  import opened Wrappers

  predicate IsDigit(c: char) {
    '0' <= c <= '9'
  }

  function DigitChar(d: int): (c: char)
    requires 0 <= d < 10
    ensures IsDigit(c) && c as int - '0' as int == d
  {
    ('0' as int + d) as char
  }

  /** Decimal digits of `n`, most significant first, without leading zeros. */
  function NatToString(n: nat): (s: string)
    ensures |s| >= 1
    ensures forall i :: 0 <= i < |s| ==> IsDigit(s[i])
    ensures s[0] == '0' ==> n == 0
    decreases n
  {
    if n < 10 then [DigitChar(n)] else NatToString(n / 10) + [DigitChar(n % 10)]
  }

  /** Decimal text of an integer, with a leading '-' when it is negative. */
  function IntToString(x: int): (s: string)
    ensures |s| >= 1 && ',' !in s
  {
    if x < 0 then "-" + NatToString(-x) else NatToString(x)
  }

  /** Value of a non-empty run of decimal digits. */
  function DigitsValue(s: string): nat
    requires forall i :: 0 <= i < |s| ==> IsDigit(s[i])
  {
    if s == [] then 0
    else
      assert IsDigit(s[|s| - 1]);
      DigitsValue(s[..|s| - 1]) * 10 + (s[|s| - 1] as int - '0' as int)
  }

  function ParseNat(s: string): Option<nat> {
    if s != [] && forall i :: 0 <= i < |s| ==> IsDigit(s[i]) then Some(DigitsValue(s)) else None
  }

  /** Reads an optional '-' followed by decimal digits. */
  function ParseInt(s: string): Option<int> {
    if |s| >= 1 && s[0] == '-' then
      match ParseNat(s[1..])
      case None => None
      case Some(v) => Some(0 - v)
    else
      match ParseNat(s)
      case None => None
      case Some(v) => Some(v)
  }

  lemma {:induction false} NatRoundTrip(n: nat)
    ensures ParseNat(NatToString(n)) == Some(n)
  {
    var s := NatToString(n);
    if n < 10 {
      assert s[..0] == [];
      assert DigitsValue(s) == DigitsValue(s[..0]) * 10 + (s[0] as int - '0' as int);
    } else {
      NatRoundTrip(n / 10);
      var prefix := NatToString(n / 10);
      assert s[..|s| - 1] == prefix;
      assert DigitsValue(prefix) == n / 10;
      assert DigitsValue(s) == DigitsValue(prefix) * 10 + (s[|s| - 1] as int - '0' as int);
    }
  }

  /** Printing an integer and reading it back gives the integer. */
  lemma IntRoundTrip(x: int)
    ensures ParseInt(IntToString(x)) == Some(x)
  {
    if x < 0 {
      NatRoundTrip(-x);
      assert IntToString(x)[1..] == NatToString(-x);
    } else {
      NatRoundTrip(x);
    }
  }

  /** `parts` separated by ','; no separator before the first or after the last. */
  function Join(parts: seq<string>): string {
    if |parts| == 0 then ""
    else if |parts| == 1 then parts[0]
    else parts[0] + "," + Join(parts[1..])
  }

  /** The pieces of `s` between the commas, in order; always at least one. */
  function Split(s: string): (parts: seq<string>)
    ensures |parts| >= 1
  {
    if s == [] then [""]
    else if s[0] == ',' then [""] + Split(s[1..])
    else
      var rest := Split(s[1..]);
      [[s[0]] + rest[0]] + rest[1..]
  }

  lemma {:induction false} SplitNoComma(a: string)
    requires ',' !in a
    ensures Split(a) == [a]
  {
    if a != [] {
      SplitNoComma(a[1..]);
      assert [a[0]] + a[1..] == a;
    }
  }

  lemma {:induction false} SplitAfterComma(a: string, b: string)
    requires ',' !in a
    ensures Split(a + "," + b) == [a] + Split(b)
  {
    var s := a + "," + b;
    if a == [] {
      assert s[1..] == b;
    } else {
      assert s[1..] == a[1..] + "," + b;
      SplitAfterComma(a[1..], b);
      assert [a[0]] + a[1..] == a;
    }
  }

  /** Splitting a join of comma-free pieces gives the pieces back. */
  lemma {:induction false} SplitJoin(parts: seq<string>)
    requires |parts| >= 1
    requires forall i :: 0 <= i < |parts| ==> ',' !in parts[i]
    ensures Split(Join(parts)) == parts
  {
    if |parts| == 1 {
      SplitNoComma(parts[0]);
    } else {
      SplitAfterComma(parts[0], Join(parts[1..]));
      SplitJoin(parts[1..]);
      assert [parts[0]] + parts[1..] == parts;
    }
  }

  /** The decimal text of each integer, in order. */
  function Texts(xs: seq<int>): (ts: seq<string>)
    ensures |ts| == |xs|
    ensures forall i :: 0 <= i < |xs| ==> ts[i] == IntToString(xs[i])
  {
    seq(|xs|, i requires 0 <= i < |xs| => IntToString(xs[i]))
  }

  /** The line written for an adjusted row: `string.Join(',', xs)`. */
  function JoinInts(xs: seq<int>): string {
    Join(Texts(xs))
  }

  function ParseAll(parts: seq<string>): Option<seq<int>> {
    if parts == [] then Some([])
    else
      match ParseInt(parts[0])
      case None => None
      case Some(v) =>
        match ParseAll(parts[1..])
        case None => None
        case Some(vs) => Some([v] + vs)
  }

  /** Reads a line of comma-separated integers; the empty line holds none. */
  function ParseLine(line: string): Option<seq<int>> {
    if line == [] then Some([]) else ParseAll(Split(line))
  }

  lemma {:induction false} ParseAllTexts(xs: seq<int>)
    ensures ParseAll(Texts(xs)) == Some(xs)
  {
    if xs != [] {
      IntRoundTrip(xs[0]);
      assert Texts(xs)[1..] == Texts(xs[1..]);
      ParseAllTexts(xs[1..]);
      assert [xs[0]] + xs[1..] == xs;
    }
  }

  /** A non-empty list of integers never joins to the empty line. */
  lemma JoinIntsNonEmpty(xs: seq<int>)
    requires xs != []
    ensures JoinInts(xs) != []
  {
    var ts := Texts(xs);
    if |ts| > 1 {
      assert |Join(ts)| >= |ts[0]|;
    }
  }

  /** Round trip: a written line reads back as exactly the integers it was made from. */
  lemma JoinIntsRoundTrip(xs: seq<int>)
    ensures ParseLine(JoinInts(xs)) == Some(xs)
  {
    if xs != [] {
      JoinIntsNonEmpty(xs);
      SplitJoin(Texts(xs));
      ParseAllTexts(xs);
    }
  }

  /** Two rows give the same line exactly when they hold the same integers. */
  lemma JoinIntsInjective(xs: seq<int>, ys: seq<int>)
    ensures JoinInts(xs) == JoinInts(ys) <==> xs == ys
  {
    JoinIntsRoundTrip(xs);
    JoinIntsRoundTrip(ys);
  }
}
