/** The Kotlin standard-library string operations the puzzles rely on:
    `String.toInt`, `Char.digitToInt`, `substringBefore`, `substringAfter`,
    `startsWith` and `split`, over strings of characters. */
module Text {
  import opened Wrappers

  const MinInt := -0x8000_0000
  const MaxInt := 0x7fff_ffff

  predicate IsDigit(c: char) {
    '0' <= c <= '9'
  }

  function DigitValue(c: char): nat
    requires IsDigit(c)
  {
    c as int - '0' as int
  }

  function DigitChar(d: nat): (c: char)
    requires d < 10
    ensures IsDigit(c) && DigitValue(c) == d
  {
    ('0' as int + d) as char
  }

  /** `Char.digitToInt` for the decimal digits; other characters throw. */
  function DigitToInt(c: char): (r: Option<nat>)
    ensures r.Some? <==> IsDigit(c)
    ensures r.Some? ==> r.value < 10 && DigitChar(r.value) == c
  {
    if IsDigit(c) then Some(DigitValue(c)) else None
  }

  predicate AllDigits(s: string) {
    forall i | 0 <= i < |s| :: IsDigit(s[i])
  }

  /** The value of a run of decimal digits, most significant first. */
  function DigitsValue(s: string): nat
    requires AllDigits(s)
  {
    if s == [] then 0 else DigitsValue(s[..|s| - 1]) * 10 + DigitValue(s[|s| - 1])
  }

  /** `String.toInt`: an optional sign followed by at least one digit, whose
      value fits the 32-bit range; anything else throws (here: `None`). */
  function ParseInt(s: string): (r: Option<int>)
    ensures r.Some? ==> MinInt <= r.value <= MaxInt
    ensures r.Some? ==> s != [] && (AllDigits(s) || ((s[0] == '-' || s[0] == '+') && AllDigits(s[1..])))
  {
    if s == [] then None
    else if s[0] == '-' || s[0] == '+' then
      if |s| == 1 || !AllDigits(s[1..]) then None
      else
        var n: int := DigitsValue(s[1..]);
        var v := if s[0] == '-' then -n else n;
        if MinInt <= v <= MaxInt then Some(v) else None
    else if AllDigits(s) && DigitsValue(s) <= MaxInt then Some(DigitsValue(s))
    else None
  }

  /** The decimal form of a natural number, without leading zeros. */
  function NatToString(n: nat): (s: string)
    ensures s != [] && AllDigits(s)
  {
    if n < 10 then [DigitChar(n)] else NatToString(n / 10) + [DigitChar(n % 10)]
  }

  function IntToString(i: int): string {
    if i < 0 then "-" + NatToString(-i) else NatToString(i)
  }

  lemma {:induction false} NatToStringValue(n: nat)
    ensures DigitsValue(NatToString(n)) == n
  {
    if n >= 10 {
      var s := NatToString(n);
      NatToStringValue(n / 10);
      assert s[..|s| - 1] == NatToString(n / 10);
    }
  }

  /** `toInt` reads back every 32-bit value from its decimal form. */
  lemma ParseIntRoundTrip(i: int)
    requires MinInt <= i <= MaxInt
    ensures ParseInt(IntToString(i)) == Some(i)
  {
    if i < 0 {
      NatToStringValue(-i);
      assert IntToString(i)[1..] == NatToString(-i);
    } else {
      NatToStringValue(i);
    }
  }

  /** A run of digits never reads as a negative number. */
  lemma DigitsParseNonNegative(s: string)
    requires AllDigits(s)
    ensures ParseInt(s).Some? ==> ParseInt(s).value >= 0
  {
    if s != [] {
      assert IsDigit(s[0]);
    }
  }

  predicate StartsWith(s: string, prefix: string) {
    |prefix| <= |s| && s[..|prefix|] == prefix
  }

  predicate OccursAt(s: string, d: string, i: nat) {
    i + |d| <= |s| && s[i..i + |d|] == d
  }

  /** The first position at which `d` occurs in `s`, searching from `from`. */
  function IndexOf(s: string, d: string, from: nat): (r: Option<nat>)
    requires from <= |s|
    ensures r.Some? ==> from <= r.value && OccursAt(s, d, r.value)
    ensures forall j | from <= j && (r.None? || j < r.value) :: !OccursAt(s, d, j)
    decreases |s| - from
  {
    if OccursAt(s, d, from) then Some(from)
    else if from == |s| then None
    else IndexOf(s, d, from + 1)
  }

  /** `substringBefore(d)`: the text before the first `d`, or all of `s`. */
  function SubstringBefore(s: string, d: string): string {
    match IndexOf(s, d, 0)
    case Some(i) => s[..i]
    case None => s
  }

  /** `substringAfter(d)`: the text after the first `d`, or all of `s`. */
  function SubstringAfter(s: string, d: string): string {
    match IndexOf(s, d, 0)
    case Some(i) => s[i + |d|..]
    case None => s
  }

  /** With a one-character delimiter absent from `a`, both halves come back. */
  lemma SubstringsAround(a: string, c: char, b: string)
    requires c !in a
    ensures SubstringBefore(a + [c] + b, [c]) == a
    ensures SubstringAfter(a + [c] + b, [c]) == b
  {
    var s := a + [c] + b;
    assert OccursAt(s, [c], |a|);
    forall j: nat | j < |a| ensures !OccursAt(s, [c], j) {
      assert s[j] == a[j];
      assert s[j..j + 1][0] == s[j];
    }
    assert IndexOf(s, [c], 0) == Some(|a|);
  }

  /** `split(d)` for a non-empty delimiter: the pieces between occurrences, scanned left to right. */
  function Split(s: string, d: string): (parts: seq<string>)
    requires d != []
    ensures |parts| >= 1
    decreases |s|
  {
    match IndexOf(s, d, 0)
    case Some(i) => [s[..i]] + Split(s[i + |d|..], d)
    case None => [s]
  }

  function Join(parts: seq<string>, d: string): string
    requires |parts| >= 1
  {
    if |parts| == 1 then parts[0] else parts[0] + d + Join(parts[1..], d)
  }

  /** No piece of the text before the first occurrence of `d` contains `d`. */
  lemma PrefixAvoids(s: string, d: string, i: nat)
    requires d != [] && IndexOf(s, d, 0) == Some(i)
    ensures forall j: nat :: !OccursAt(s[..i], d, j)
  {
    forall j: nat ensures !OccursAt(s[..i], d, j) {
      if OccursAt(s[..i], d, j) {
        assert j + |d| <= i;
        assert s[j..j + |d|] == s[..i][j..j + |d|];
        assert OccursAt(s, d, j) && j < i;
        assert false;
      }
    }
  }

  lemma JoinCons(head: string, tail: seq<string>, d: string)
    requires |tail| >= 1
    ensures Join([head] + tail, d) == head + d + Join(tail, d)
  {
    assert ([head] + tail)[1..] == tail;
  }

  lemma Reassemble(s: string, i: nat, d: string)
    requires OccursAt(s, d, i)
    ensures s == s[..i] + d + s[i + |d|..]
  {
    assert s == s[..i] + s[i..i + |d|] + s[i + |d|..];
  }

  /** A written number holds only digits and perhaps a leading minus sign. */
  lemma IntToStringAvoids(i: int, c: char)
    requires !IsDigit(c) && c != '-'
    ensures c !in IntToString(i)
  {
    var s := IntToString(i);
    var digits := if i < 0 then NatToString(-i) else NatToString(i);
    assert forall k | 0 <= k < |digits| :: IsDigit(digits[k]);
    if i < 0 {
      assert s == "-" + digits;
      assert forall k | 0 < k < |s| :: s[k] == digits[k - 1];
    }
  }

  /** Text without the one-character delimiter splits into itself alone. */
  lemma SplitWithout(a: string, c: char)
    requires c !in a
    ensures Split(a, [c]) == [a]
  {
    forall j | 0 <= j <= |a| ensures !OccursAt(a, [c], j) {
      if j < |a| {
        assert a[j..j + 1][0] == a[j];
      }
    }
  }

  /** The first piece ends at the first delimiter. */
  lemma SplitFirst(a: string, c: char, b: string)
    requires c !in a
    ensures Split(a + [c] + b, [c]) == [a] + Split(b, [c])
  {
    var s := a + [c] + b;
    assert OccursAt(s, [c], |a|);
    forall j | 0 <= j < |a| ensures !OccursAt(s, [c], j) {
      assert s[j] == a[j];
      assert s[j..j + 1][0] == s[j];
    }
    assert IndexOf(s, [c], 0) == Some(|a|);
    assert s[..|a|] == a && s[|a| + 1..] == b;
  }

  /** Joining the pieces with the delimiter gives back the string. */
  lemma {:induction false} SplitJoin(s: string, d: string)
    requires d != []
    ensures Join(Split(s, d), d) == s
    decreases |s|
  {
    var r := IndexOf(s, d, 0);
    if r.Some? {
      var i := r.value;
      var rest := s[i + |d|..];
      var pieces := Split(rest, d);
      assert Split(s, d) == [s[..i]] + pieces;
      SplitJoin(rest, d);
      JoinCons(s[..i], pieces, d);
      Reassemble(s, i, d);
    } else {
      assert Split(s, d) == [s];
    }
  }

  /** No piece of a split contains the delimiter. */
  lemma {:induction false} SplitPiecesAvoid(s: string, d: string)
    requires d != []
    ensures forall k, j: nat | 0 <= k < |Split(s, d)| :: !OccursAt(Split(s, d)[k], d, j)
    decreases |s|
  {
    match IndexOf(s, d, 0)
    case Some(i) =>
      var rest := s[i + |d|..];
      SplitPiecesAvoid(rest, d);
      PrefixAvoids(s, d, i);
      var parts := Split(s, d);
      assert parts == [s[..i]] + Split(rest, d);
      forall k, j: nat | 0 <= k < |parts| ensures !OccursAt(parts[k], d, j) {
        if k > 0 {
          assert parts[k] == Split(rest, d)[k - 1];
        }
      }
    case None =>
  }
}
