/**
 * The string side of the quarter buckets: the dictionary key `${year}-Q${quarter}`
 * is built from two numbers and taken apart again with `split('-Q')` and `parseInt`.
 * This module gives decimal rendering, JavaScript's `String.prototype.split` for a
 * non-empty separator, and `parseInt` in base 10, and proves the round trip.
 */
module KeyFormat {
  import opened Wrappers

  /** The separator between the year and the quarter in a bucket key. */
  const Separator: string := "-Q"

  predicate IsDigit(c: char) {
    '0' <= c <= '9'
  }

  predicate AllDigits(s: string) {
    forall i :: 0 <= i < |s| ==> IsDigit(s[i])
  }

  function DigitValue(c: char): (d: nat)
    requires IsDigit(c)
    ensures d < 10
  {
    c as int - '0' as int
  }

  function DigitChar(d: nat): (c: char)
    requires d < 10
    ensures IsDigit(c) && DigitValue(c) == d
  {
    ('0' as int + d) as char
  }

  /** The number a string of decimal digits denotes (most significant digit first). */
  function ValueOf(s: string): (v: nat)
    requires AllDigits(s)
  {
    if s == [] then 0 else 10 * ValueOf(s[..|s| - 1]) + DigitValue(s[|s| - 1])
  }

  /**
   * `${n}` for a natural number: its decimal digits, without leading zeros. The
   * digits denote `n` again.
   */
  function NatToString(n: nat): (s: string)
    ensures |s| > 0 && AllDigits(s) && ValueOf(s) == n
  {
    if n < 10 then [DigitChar(n)]
    else
      var prefix := NatToString(n / 10);
      var s := prefix + [DigitChar(n % 10)];
      assert s[..|s| - 1] == prefix;
      s
  }

  /**
   * `${n}` for an integer: a minus sign in front of a negative number's digits.
   * `parseInt` reads every such string back as `n`.
   */
  function IntToString(n: int): (s: string)
    ensures ParseInt(s) == Some(n)
  {
    if n < 0 then
      var digits := NatToString(-n);
      LeadingDigitsOfDigits(digits);
      assert ("-" + digits)[1..] == digits;
      "-" + digits
    else
      LeadingDigitsOfDigits(NatToString(n));
      NatToString(n)
  }

  /** The longest prefix of `s` made of decimal digits. */
  function LeadingDigits(s: string): (p: string)
    ensures p <= s && AllDigits(p)
    ensures |p| < |s| ==> !IsDigit(s[|p|])
  {
    if s == [] || !IsDigit(s[0]) then [] else [s[0]] + LeadingDigits(s[1..])
  }

  /** The length of the optional leading sign `parseInt` accepts: 1 for `-` or `+`, else 0. */
  function SignLength(s: string): (k: nat)
    ensures k <= |s|
  {
    if |s| > 0 && (s[0] == '-' || s[0] == '+') then 1 else 0
  }

  /**
   * `parseInt(s)` in base 10: an optional sign followed by the longest run of digits;
   * `None` (JavaScript's `NaN`) exactly when no digit follows the sign, and a
   * negative value only behind a minus sign.
   */
  function ParseInt(s: string): (r: Option<int>)
    ensures r.None? <==> !(SignLength(s) < |s| && IsDigit(s[SignLength(s)]))
    ensures r.Some? && r.value < 0 ==> s[0] == '-'
  {
    var digits := LeadingDigits(s[SignLength(s)..]);
    if digits == [] then None
    else
      var magnitude: int := ValueOf(digits);
      Some(if SignLength(s) == 1 && s[0] == '-' then -magnitude else magnitude)
  }

  /** Joins the pieces with `sep` between neighbours: the inverse of `Split`. */
  function Join(parts: seq<string>, sep: string): (s: string)
  {
    if |parts| == 0 then ""
    else if |parts| == 1 then parts[0]
    else parts[0] + sep + Join(parts[1..], sep)
  }

  /** `sep` occurs somewhere in `s`. */
  predicate Occurs(sep: string, s: string)
    requires |sep| > 0
    decreases |s|
  {
    |s| >= |sep| && (s[..|sep|] == sep || Occurs(sep, s[1..]))
  }

  /**
   * `s.split(sep)` for a non-empty separator: the pieces between the leftmost
   * non-overlapping occurrences of `sep`, scanning from the left. The pieces
   * joined with `sep` give back `s`, and no piece contains `sep`.
   */
  function Split(s: string, sep: string): (parts: seq<string>)
    requires |sep| > 0
    ensures |parts| >= 1
    ensures Join(parts, sep) == s
    ensures forall i :: 0 <= i < |parts| ==> !Occurs(sep, parts[i])
    decreases |s|
  {
    if |s| < |sep| then [s]
    else if s[..|sep|] == sep then
      var rest := Split(s[|sep|..], sep);
      assert s == sep + s[|sep|..];
      [""] + rest
    else
      var rest := Split(s[1..], sep);
      assert s == [s[0]] + s[1..];
      JoinStartsWithFirst(rest, sep);
      FirstPieceFree(s, sep, rest[0]);
      JoinExtendFirst(s[0], rest, sep);
      [[s[0]] + rest[0]] + rest[1..]
  }

  /** Putting a character in front of the first piece puts it in front of the joined string. */
  lemma JoinExtendFirst(c: char, parts: seq<string>, sep: string)
    requires |parts| >= 1
    ensures Join([[c] + parts[0]] + parts[1..], sep) == [c] + Join(parts, sep)
  {
    var moved := [[c] + parts[0]] + parts[1..];
    assert moved[1..] == parts[1..];
  }

  /** The joined string starts with the first piece. */
  lemma JoinStartsWithFirst(parts: seq<string>, sep: string)
    requires |parts| >= 1
    ensures parts[0] <= Join(parts, sep)
  {
    if |parts| > 1 {
      assert Join(parts, sep) == parts[0] + (sep + Join(parts[1..], sep));
    }
  }

  /**
   * A piece that starts at `s[0]`, where `sep` does not start, and continues with a
   * piece free of `sep` is itself free of `sep`.
   */
  lemma FirstPieceFree(s: string, sep: string, tail: string)
    requires |sep| > 0 && |s| >= |sep| && s[..|sep|] != sep
    requires tail <= s[1..] && !Occurs(sep, tail)
    ensures !Occurs(sep, [s[0]] + tail)
  {
    var first := [s[0]] + tail;
    assert first[1..] == tail;
    if |first| >= |sep| {
      assert first[..|sep|] == s[..|sep|];
    }
  }

  /**
   * The dictionary key of a bucket, `${year}-Q${quarter}`: splitting it at the
   * separator gives back exactly the year's and the quarter's decimal pieces.
   */
  function FormatKey(year: int, quarter: nat): (key: string)
    ensures Split(key, Separator) == [IntToString(year), NatToString(quarter)]
  {
    var y, q := IntToString(year), NatToString(quarter);
    IntToStringShape(year);
    NatToStringDigits(quarter);
    SplitAfterPrefix(y, q);
    SplitWithoutQ(q);
    y + Separator + q
  }

  /**
   * The label of a deviation record, `Q${quarter}`, from the key's second piece:
   * the piece behind a `Q`, so that dropping the `Q` gives the piece back.
   */
  function QuarterLabel(piece: string): (tag: string)
    ensures |tag| == |piece| + 1 && tag[0] == 'Q' && tag[1..] == piece
  {
    "Q" + piece
  }

  /** `${n}` is a non-empty run of digits, without a leading zero. */
  lemma {:induction false} NatToStringDigits(n: nat)
    ensures |NatToString(n)| > 0 && AllDigits(NatToString(n))
    ensures n > 0 ==> NatToString(n)[0] != '0'
  {
    if n >= 10 {
      NatToStringDigits(n / 10);
    }
  }

  /** `${n}` for an integer: digits, with a minus sign in front exactly when `n < 0`. */
  lemma IntToStringShape(n: int)
    ensures |IntToString(n)| > 0
    ensures forall i :: 0 <= i < |IntToString(n)| ==>
      IsDigit(IntToString(n)[i]) || (i == 0 && IntToString(n)[i] == '-')
    ensures (n < 0) == (IntToString(n)[0] == '-')
  {
    NatToStringDigits(if n < 0 then -n else n);
  }

  lemma {:induction false} LeadingDigitsOfDigits(s: string)
    requires AllDigits(s)
    ensures LeadingDigits(s) == s
  {
    if s != [] {
      LeadingDigitsOfDigits(s[1..]);
    }
  }

  /** A string without the separator's second character holds no separator. */
  lemma {:induction false} SplitWithoutQ(s: string)
    requires forall i :: 0 <= i < |s| ==> s[i] != 'Q'
    ensures Split(s, Separator) == [s]
  {
    if |s| >= |Separator| {
      assert s[..2][1] == s[1];
      SplitWithoutQ(s[1..]);
    }
  }

  /** A first piece without `Q` ends exactly at the first separator. */
  lemma {:induction false} SplitAfterPrefix(a: string, b: string)
    requires forall i :: 0 <= i < |a| ==> a[i] != 'Q'
    ensures Split(a + Separator + b, Separator) == [a] + Split(b, Separator)
  {
    var s := a + Separator + b;
    if a == [] {
      assert s[..2] == Separator && s[2..] == b;
    } else {
      assert s[..2][1] == s[1];
      assert s[1] != 'Q';
      assert s[1..] == a[1..] + Separator + b;
      SplitAfterPrefix(a[1..], b);
      assert [a[0]] + a[1..] == a;
    }
  }

  /**
   * The key round trip: splitting `${year}-Q${quarter}` at `-Q` gives back the two
   * pieces, and `parseInt` of the first gives back the year.
   */
  lemma KeyRoundTrip(year: int, quarter: nat)
    ensures Split(FormatKey(year, quarter), Separator) == [IntToString(year), NatToString(quarter)]
    ensures ParseInt(Split(FormatKey(year, quarter), Separator)[0]) == Some(year)
  {
  }

  /** Different (year, quarter) pairs never share a key. */
  lemma FormatKeyInjective(y1: int, q1: nat, y2: int, q2: nat)
    requires FormatKey(y1, q1) == FormatKey(y2, q2)
    ensures y1 == y2 && q1 == q2
  {
    KeyRoundTrip(y1, q1);
    KeyRoundTrip(y2, q2);
  }

  /** What the engine reads back from a key: the year, and the quarter's digits for the label. */
  lemma ParseKey(key: string, year: int, quarter: nat)
    requires key == FormatKey(year, quarter)
    ensures |Split(key, Separator)| == 2
    ensures ParseInt(Split(key, Separator)[0]) == Some(year)
    ensures Split(key, Separator)[1] == NatToString(quarter)
  {
    KeyRoundTrip(year, quarter);
  }
}
