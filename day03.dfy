/** Day 3, rucksack reorganisation: item priorities, the item common to both
    compartments and the badge common to each group of three. */
module Day03 {
  import opened Wrappers
  import opened Lists

  predicate IsLower(c: char) { 'a' <= c <= 'z' }
  predicate IsUpper(c: char) { 'A' <= c <= 'Z' }

  /** a..z are 1..26 and A..Z are 27..52; anything else is rejected. */
  function PriorityOf(itemType: char): (r: Result<int>)
    ensures r.Ok? <==> IsLower(itemType) || IsUpper(itemType)
    ensures r.Ok? ==> 1 <= r.value <= 52
    ensures r.Ok? ==> (r.value <= 26 <==> IsLower(itemType))
  {
    if IsLower(itemType) then Ok(itemType as int - 'a' as int + 1)
    else if IsUpper(itemType) then Ok(itemType as int - 'A' as int + 27)
    else Err("Invalid item type")
  }

  /** The item type of a priority, the inverse of `PriorityOf`. */
  function ItemOfPriority(p: int): (c: char)
    requires 1 <= p <= 52
  {
    if p <= 26 then ('a' as int + p - 1) as char else ('A' as int + p - 27) as char
  }

  lemma PriorityRoundTrip(c: char, p: int)
    ensures PriorityOf(c) == Ok(p) <==> 1 <= p <= 52 && ItemOfPriority(p) == c
  {
  }

  /** Distinct letters have distinct priorities. */
  lemma PriorityInjective(c: char, d: char)
    requires PriorityOf(c).Ok? && PriorityOf(d).Ok? && PriorityOf(c) == PriorityOf(d)
    ensures c == d
  {
    PriorityRoundTrip(c, PriorityOf(c).value);
    PriorityRoundTrip(d, PriorityOf(d).value);
  }

  /** The first item of `a` that also occurs in every one of `others`. */
  function FirstCommon(a: string, others: seq<string>): (r: Option<char>)
    ensures r.Some? ==> r.value in Elements(a) && forall k | 0 <= k < |others| :: r.value in Elements(others[k])
    ensures r.None? ==> forall c | c in Elements(a) :: exists k :: 0 <= k < |others| && c !in Elements(others[k])
  {
    if a == [] then None
    else if forall k | 0 <= k < |others| :: a[0] in others[k] then
      assert a[0] in Elements(a);
      Some(a[0])
    else
      var r := FirstCommon(a[1..], others);
      assert forall c | c in Elements(a[1..]) :: c in Elements(a) by {
        forall c | c in Elements(a[1..]) ensures c in Elements(a) {
          var i :| 0 <= i < |a[1..]| && a[1..][i] == c;
          assert a[i + 1] == c;
        }
      }
      assert forall c | c in Elements(a) :: c == a[0] || c in Elements(a[1..]) by {
        forall c | c in Elements(a) ensures c == a[0] || c in Elements(a[1..]) {
          var i :| 0 <= i < |a| && a[i] == c;
          if i > 0 {
            assert a[1..][i - 1] == c;
          }
        }
      }
      r
  }

  function CommonItems(a: string, others: seq<string>): set<char> {
    set c | c in Elements(a) && forall k | 0 <= k < |others| :: c in Elements(others[k])
  }

  predicate SingleLetterInCommon(a: string, others: seq<string>) {
    exists c | IsLower(c) || IsUpper(c) :: CommonItems(a, others) == {c}
  }

  /** When exactly one item type is common, the scan finds that one. */
  lemma FirstCommonIsTheCommon(a: string, others: seq<string>)
    requires |CommonItems(a, others)| == 1
    ensures FirstCommon(a, others).Some?
    ensures CommonItems(a, others) == {FirstCommon(a, others).value}
  {
    var r := FirstCommon(a, others);
    var c :| c in CommonItems(a, others);
    assert r.value in CommonItems(a, others);
    assert |CommonItems(a, others) - {c}| == 0;
    assert CommonItems(a, others) == {c};
  }

  /** One rucksack for part 1: its length must be even and its halves must
      share exactly one item type, whose priority it contributes. */
  function CompartmentPriority(rucksack: string): (r: Result<int>)
    ensures r.Ok? ==> |rucksack| % 2 == 0
    ensures |rucksack| % 2 == 0 && SingleLetterInCommon(rucksack[..|rucksack| / 2], [rucksack[|rucksack| / 2..]]) ==> r.Ok?
    ensures r.Ok? ==> exists c ::
      CommonItems(rucksack[..|rucksack| / 2], [rucksack[|rucksack| / 2..]]) == {c} && PriorityOf(c) == r
  {
    if |rucksack| % 2 != 0 then Err("Check failed: odd rucksack")
    else
      var left := rucksack[..|rucksack| / 2];
      var right := rucksack[|rucksack| / 2..];
      if |CommonItems(left, [right])| != 1 then Err("Check failed: no single common item")
      else
        FirstCommonIsTheCommon(left, [right]);
        PriorityOf(FirstCommon(left, [right]).value)
  }

  /** One group for part 2: the three rucksacks must share exactly one item type. */
  function BadgePriority(elf1: string, elf2: string, elf3: string): (r: Result<int>)
    ensures r.Ok? ==> |CommonItems(elf1, [elf2, elf3])| == 1
    ensures SingleLetterInCommon(elf1, [elf2, elf3]) ==> r.Ok?
    ensures r.Ok? ==> exists c :: CommonItems(elf1, [elf2, elf3]) == {c} && PriorityOf(c) == r
  {
    if |CommonItems(elf1, [elf2, elf3])| != 1 then Err("Check failed: no single badge")
    else
      FirstCommonIsTheCommon(elf1, [elf2, elf3]);
      PriorityOf(FirstCommon(elf1, [elf2, elf3]).value)
  }

  /** Sums per-item results left to right; the first failure fails the whole. */
  function SumResults(rs: seq<Result<int>>): (r: Result<int>)
    ensures r.Err? <==> exists k :: 0 <= k < |rs| && rs[k].Err?
  {
    if rs == [] then Ok(0)
    else
      var init := rs[..|rs| - 1];
      assert forall k | 0 <= k < |init| :: init[k] == rs[k];
      match SumResults(init)
      case Err(e) => Err(e)
      case Ok(total) =>
        match rs[|rs| - 1]
        case Err(e) => Err(e)
        case Ok(v) => Ok(total + v)
  }

  /** The first failing item decides the failure of the whole sum. */
  lemma {:induction false} FirstErrDecides(rs: seq<Result<int>>, i: nat)
    requires i < |rs| && SumResults(rs[..i]).Ok? && rs[i].Err?
    ensures SumResults(rs) == rs[i]
  {
    var init := rs[..|rs| - 1];
    if i < |init| {
      assert init[..i] == rs[..i];
      FirstErrDecides(init, i);
    } else {
      assert init == rs[..i];
    }
  }

  lemma {:induction false} SumResultsBounds(rs: seq<Result<int>>, lo: int, hi: int)
    requires forall k | 0 <= k < |rs| :: rs[k].Ok? ==> lo <= rs[k].value <= hi
    requires SumResults(rs).Ok?
    ensures lo * |rs| <= SumResults(rs).value <= hi * |rs|
  {
    if rs != [] {
      SumResultsBounds(rs[..|rs| - 1], lo, hi);
    }
  }

  function CompartmentPriorities(input: seq<string>): (r: seq<Result<int>>)
    ensures |r| == |input| && forall k | 0 <= k < |r| :: r[k] == CompartmentPriority(input[k])
  {
    seq(|input|, k requires 0 <= k < |input| => CompartmentPriority(input[k]))
  }

  /** `part1`: the priorities of the common items, accumulated rucksack by rucksack. */
  method Part1(input: seq<string>) returns (r: Result<int>)
    ensures r == SumResults(CompartmentPriorities(input))
  {
    var totalPriority := 0;
    var i := 0;
    while i < |input|
      invariant 0 <= i <= |input|
      invariant SumResults(CompartmentPriorities(input)[..i]) == Ok(totalPriority)
    {
      assert CompartmentPriorities(input)[..i + 1][..i] == CompartmentPriorities(input)[..i];
      var p := CompartmentPriority(input[i]);
      if p.Err? {
        FirstErrDecides(CompartmentPriorities(input), i);
        return p;
      }
      totalPriority := totalPriority + p.value;
      i := i + 1;
    }
    assert CompartmentPriorities(input)[..i] == CompartmentPriorities(input);
    r := Ok(totalPriority);
  }

  /** Every rucksack scores between 1 and 52. */
  lemma Part1Bounds(input: seq<string>)
    requires SumResults(CompartmentPriorities(input)).Ok?
    ensures |input| <= SumResults(CompartmentPriorities(input)).value <= 52 * |input|
  {
    SumResultsBounds(CompartmentPriorities(input), 1, 52);
  }

  /** `windowed(3, 3)`: consecutive groups of three; a shorter tail is dropped. */
  function BadgePriorities(input: seq<string>): (r: seq<Result<int>>)
    ensures |r| == |input| / 3
    ensures forall g | 0 <= g < |r| :: r[g] == BadgePriority(input[3 * g], input[3 * g + 1], input[3 * g + 2])
  {
    seq(|input| / 3, g requires 0 <= g < |input| / 3 =>
      BadgePriority(input[3 * g], input[3 * g + 1], input[3 * g + 2]))
  }

  /** `part2`: the badge priorities, accumulated group by group. */
  method Part2(input: seq<string>) returns (r: Result<int>)
    ensures r == SumResults(BadgePriorities(input))
  {
    var totalPriority := 0;
    var g := 0;
    while g < |input| / 3
      invariant 0 <= g <= |input| / 3
      invariant SumResults(BadgePriorities(input)[..g]) == Ok(totalPriority)
    {
      assert BadgePriorities(input)[..g + 1][..g] == BadgePriorities(input)[..g];
      var p := BadgePriority(input[3 * g], input[3 * g + 1], input[3 * g + 2]);
      if p.Err? {
        FirstErrDecides(BadgePriorities(input), g);
        return p;
      }
      totalPriority := totalPriority + p.value;
      g := g + 1;
    }
    assert BadgePriorities(input)[..g] == BadgePriorities(input);
    r := Ok(totalPriority);
  }
}
