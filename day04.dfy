/** Day 4, camp cleanup: pairs of section ranges, counted when one contains
    the other (part 1) or when they overlap (part 2). */
module Day04 {
  import opened Wrappers
  import opened Text

  /** Kotlin's `IntRange(first, last)`: the sections first..last, empty when first > last. */
  datatype IntRange = IntRange(first: int, last: int)

  predicate Contains(r: IntRange, x: int) {
    r.first <= x <= r.last
  }

  predicate NonEmpty(r: IntRange) {
    r.first <= r.last
  }

  /** `"a-b"`: the numbers before and after the first dash. */
  function ToIntRange(s: string): (r: Result<IntRange>)
    ensures r.Ok? <==> ParseInt(SubstringBefore(s, "-")).Some? && ParseInt(SubstringAfter(s, "-")).Some?
    ensures r.Ok? ==>
      ParseInt(SubstringBefore(s, "-")) == Some(r.value.first) && ParseInt(SubstringAfter(s, "-")) == Some(r.value.last)
  {
    match (ParseInt(SubstringBefore(s, "-")), ParseInt(SubstringAfter(s, "-")))
    case (Some(a), Some(b)) => Ok(IntRange(a, b))
    case _ => Err("NumberFormatException")
  }

  /** `"r1,r2"`: the ranges before and after the first comma. */
  function ToIntRangePair(s: string): (r: Result<(IntRange, IntRange)>)
    ensures r.Ok? <==> ToIntRange(SubstringBefore(s, ",")).Ok? && ToIntRange(SubstringAfter(s, ",")).Ok?
    ensures r.Ok? ==>
      ToIntRange(SubstringBefore(s, ",")) == Ok(r.value.0) && ToIntRange(SubstringAfter(s, ",")) == Ok(r.value.1)
  {
    match (ToIntRange(SubstringBefore(s, ",")), ToIntRange(SubstringAfter(s, ",")))
    case (Ok(a), Ok(b)) => Ok((a, b))
    case _ => Err("NumberFormatException")
  }

  /** The text of a range with natural ends, as the puzzle input writes it. */
  function RangeText(r: IntRange): string
    requires 0 <= r.first && 0 <= r.last
  {
    NatToString(r.first) + "-" + NatToString(r.last)
  }

  lemma NoSeparatorInNumber(n: nat, c: char)
    requires !IsDigit(c)
    ensures c !in NatToString(n)
  {
  }

  /** Parsing reads back any range whose ends are 32-bit naturals. */
  lemma RangeRoundTrip(r: IntRange)
    requires 0 <= r.first <= MaxInt && 0 <= r.last <= MaxInt
    ensures ToIntRange(RangeText(r)) == Ok(r)
  {
    NoSeparatorInNumber(r.first, '-');
    SubstringsAround(NatToString(r.first), '-', NatToString(r.last));
    ParseIntRoundTrip(r.first);
    ParseIntRoundTrip(r.last);
  }

  lemma PairRoundTrip(l: IntRange, r: IntRange)
    requires 0 <= l.first <= MaxInt && 0 <= l.last <= MaxInt
    requires 0 <= r.first <= MaxInt && 0 <= r.last <= MaxInt
    ensures ToIntRangePair(RangeText(l) + "," + RangeText(r)) == Ok((l, r))
  {
    NoSeparatorInNumber(l.first, ',');
    NoSeparatorInNumber(l.last, ',');
    assert ',' !in RangeText(l);
    SubstringsAround(RangeText(l), ',', RangeText(r));
    RangeRoundTrip(l);
    RangeRoundTrip(r);
  }

  /** `fullyContain`: compares the ends; for a non-empty inner range that is
      set inclusion. */
  function FullyContain(outer: IntRange, inner: IntRange): (b: bool)
    ensures NonEmpty(inner) ==> (b <==> forall x :: Contains(inner, x) ==> Contains(outer, x))
  {
    assert NonEmpty(inner) ==> Contains(inner, inner.first) && Contains(inner, inner.last);
    inner.first >= outer.first && inner.last <= outer.last
  }

  /** `overlaps`: one of the other range's ends lies in this one, so a
      non-empty other range shares a section with it. */
  function Overlaps(r: IntRange, other: IntRange): (b: bool)
    ensures b && NonEmpty(other) ==> exists x :: Contains(r, x) && Contains(other, x)
  {
    Contains(r, other.first) || Contains(r, other.last)
  }

  /** For non-empty ranges, testing both directions finds exactly the
      intersecting pairs. */
  lemma OverlapIsIntersection(l: IntRange, r: IntRange)
    requires NonEmpty(l) && NonEmpty(r)
    ensures Overlaps(l, r) || Overlaps(r, l) <==> exists x :: Contains(l, x) && Contains(r, x)
  {
    if exists x :: Contains(l, x) && Contains(r, x) {
      var x :| Contains(l, x) && Contains(r, x);
      if l.first <= r.first {
        assert Contains(l, r.first);
      } else {
        assert Contains(r, l.first);
      }
    }
  }

  /** Which pairs a part counts. */
  datatype Rule = Containment | Overlap

  predicate Counted(rule: Rule, l: IntRange, r: IntRange) {
    match rule
    case Containment => FullyContain(l, r) || FullyContain(r, l)
    case Overlap => Overlaps(l, r) || Overlaps(r, l)
  }

  /** Containment either way implies overlap for non-empty ranges. */
  lemma ContainmentImpliesOverlap(l: IntRange, r: IntRange)
    requires NonEmpty(l) && NonEmpty(r)
    ensures Counted(Containment, l, r) ==> Counted(Overlap, l, r)
  {
  }

  /** Every line parsed into its pair of ranges, or the error it raises. */
  function ParsedLines(input: seq<string>): (r: seq<Result<(IntRange, IntRange)>>)
    ensures |r| == |input| && forall k | 0 <= k < |r| :: r[k] == ToIntRangePair(input[k])
  {
    seq(|input|, k requires 0 <= k < |input| => ToIntRangePair(input[k]))
  }

  /** The number of pairs counted under the rule; the first unparsable line fails. */
  function CountParsed(parsed: seq<Result<(IntRange, IntRange)>>, rule: Rule): (r: Result<nat>)
    ensures r.Ok? ==> r.value <= |parsed|
    ensures r.Err? <==> exists k :: 0 <= k < |parsed| && parsed[k].Err?
  {
    if parsed == [] then Ok(0)
    else
      var init := parsed[..|parsed| - 1];
      var pair := parsed[|parsed| - 1];
      assert forall k | 0 <= k < |init| :: init[k] == parsed[k];
      match CountParsed(init, rule)
      case Err(e) => Err(e)
      case Ok(n) =>
        if pair.Err? then Err(pair.message)
        else Ok(if Counted(rule, pair.value.0, pair.value.1) then n + 1 else n)
  }

  function CountPairs(input: seq<string>, rule: Rule): Result<nat> {
    CountParsed(ParsedLines(input), rule)
  }

  /** The first failing line decides the failure of the whole count. */
  lemma {:induction false} FirstErrDecides(parsed: seq<Result<(IntRange, IntRange)>>, rule: Rule, i: nat)
    requires i < |parsed| && CountParsed(parsed[..i], rule).Ok? && parsed[i].Err?
    ensures CountParsed(parsed, rule) == Err(parsed[i].message)
  {
    var init := parsed[..|parsed| - 1];
    if i < |init| {
      assert init[..i] == parsed[..i];
      FirstErrDecides(init, rule, i);
    } else {
      assert init == parsed[..i];
    }
  }

  lemma CountStep(parsed: seq<Result<(IntRange, IntRange)>>, rule: Rule, i: nat, count: nat)
    requires i < |parsed| && CountParsed(parsed[..i], rule) == Ok(count) && parsed[i].Ok?
    ensures CountParsed(parsed[..i + 1], rule) ==
      Ok(if Counted(rule, parsed[i].value.0, parsed[i].value.1) then count + 1 else count)
  {
    assert parsed[..i + 1][..i] == parsed[..i];
  }

  /** The counting loop `part1` and `part2` share, with the test as a parameter. */
  method CountMatching(input: seq<string>, rule: Rule) returns (r: Result<nat>)
    ensures r == CountPairs(input, rule)
  {
    r := CountLoop(ParsedLines(input), rule);
  }

  /** The loop over the lines, each already parsed by `toIntRangePair`. */
  method CountLoop(parsed: seq<Result<(IntRange, IntRange)>>, rule: Rule) returns (r: Result<nat>)
    ensures r == CountParsed(parsed, rule)
  {
    var count := 0;
    var i := 0;
    while i < |parsed|
      invariant 0 <= i <= |parsed|
      invariant CountParsed(parsed[..i], rule) == Ok(count)
    {
      var pair := parsed[i];
      if pair.Err? {
        FirstErrDecides(parsed, rule, i);
        return Err(pair.message);
      }
      CountStep(parsed, rule, i, count);
      if Counted(rule, pair.value.0, pair.value.1) {
        count := count + 1;
      }
      i := i + 1;
    }
    assert parsed[..i] == parsed;
    r := Ok(count);
  }

  method Part1(input: seq<string>) returns (r: Result<nat>)
    ensures r == CountPairs(input, Containment)
  {
    r := CountMatching(input, Containment);
  }

  method Part2(input: seq<string>) returns (r: Result<nat>)
    ensures r == CountPairs(input, Overlap)
  {
    r := CountMatching(input, Overlap);
  }

  predicate ParsesNonEmpty(line: string) {
    var p := ToIntRangePair(line);
    p.Ok? ==> NonEmpty(p.value.0) && NonEmpty(p.value.1)
  }

  /** When every range is non-empty, part 1 never exceeds part 2. */
  lemma {:induction false} Part1AtMostPart2(input: seq<string>)
    requires forall k | 0 <= k < |input| :: ParsesNonEmpty(input[k])
    ensures CountPairs(input, Containment).Ok? <==> CountPairs(input, Overlap).Ok?
    ensures CountPairs(input, Containment).Ok? ==>
      CountPairs(input, Containment).value <= CountPairs(input, Overlap).value
  {
    Part1AtMostPart2Parsed(ParsedLines(input));
  }

  lemma {:induction false} Part1AtMostPart2Parsed(parsed: seq<Result<(IntRange, IntRange)>>)
    requires forall k | 0 <= k < |parsed| :: parsed[k].Ok? ==> NonEmpty(parsed[k].value.0) && NonEmpty(parsed[k].value.1)
    ensures CountParsed(parsed, Containment).Ok? <==> CountParsed(parsed, Overlap).Ok?
    ensures CountParsed(parsed, Containment).Ok? ==>
      CountParsed(parsed, Containment).value <= CountParsed(parsed, Overlap).value
  {
    if parsed != [] {
      var init := parsed[..|parsed| - 1];
      assert forall k | 0 <= k < |init| :: init[k] == parsed[k];
      Part1AtMostPart2Parsed(init);
    }
  }
}
