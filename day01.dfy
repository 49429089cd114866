/** Day 1, calorie counting: lines of numbers, one elf per blank-line
    separated group; the largest total and the sum of the three largest. */
module Day01 {
  import opened Wrappers
  import opened Text
  import opened Lists

  datatype CalorieEntry = CalorieEntry(elfId: int, calories: int)

  const NotANumber := "For input string: not a number"

  /** The number of blank lines, i.e. the elf id the next entry gets. */
  function CountBlank(lines: seq<string>): (r: nat)
    ensures r <= |lines|
    ensures r == multiset(lines)[[]]
  {
    if lines == [] then 0
    else
      assert lines == lines[..|lines| - 1] + [lines[|lines| - 1]];
      CountBlank(lines[..|lines| - 1]) + (if lines[|lines| - 1] == [] then 1 else 0)
  }

  function CountNonBlank(lines: seq<string>): nat {
    |lines| - CountBlank(lines)
  }

  /** One entry per non-blank line, under the number of blank lines before it;
      the first line that is not a number fails the whole input. */
  function EntriesOf(lines: seq<string>): Result<seq<CalorieEntry>> {
    if lines == [] then Ok([])
    else
      var init := lines[..|lines| - 1];
      var line := lines[|lines| - 1];
      match EntriesOf(init)
      case Err(e) => Err(e)
      case Ok(entries) =>
        if line == [] then Ok(entries)
        else
          match ParseInt(line)
          case None => Err(NotANumber)
          case Some(v) => Ok(entries + [CalorieEntry(CountBlank(init), v)])
  }

  /** One entry per non-blank line; elf ids never decrease and stay below the
      number of blank lines seen. */
  lemma {:induction false} EntriesShape(lines: seq<string>)
    requires EntriesOf(lines).Ok?
    ensures |EntriesOf(lines).value| == CountNonBlank(lines)
    ensures forall i, j | 0 <= i < j < |EntriesOf(lines).value| ::
      EntriesOf(lines).value[i].elfId <= EntriesOf(lines).value[j].elfId
    ensures forall i | 0 <= i < |EntriesOf(lines).value| ::
      0 <= EntriesOf(lines).value[i].elfId <= CountBlank(lines)
  {
    if lines != [] {
      EntriesShape(lines[..|lines| - 1]);
    }
  }

  /** A failing prefix fails the whole input. */
  lemma {:induction false} PrefixErrFails(lines: seq<string>, i: nat)
    requires i <= |lines| && EntriesOf(lines[..i]) == Err(NotANumber)
    ensures EntriesOf(lines) == Err(NotANumber)
    decreases |lines| - i
  {
    if i < |lines| {
      assert lines[..i + 1][..i] == lines[..i];
      PrefixErrFails(lines, i + 1);
    } else {
      assert lines[..i] == lines;
    }
  }

  /** The calories of one elf's entries added up. */
  function SumFor(entries: seq<CalorieEntry>, id: int): int {
    if entries == [] then 0
    else
      var last := entries[|entries| - 1];
      SumFor(entries[..|entries| - 1], id) + (if last.elfId == id then last.calories else 0)
  }

  function FindElf(totals: seq<CalorieEntry>, id: int): (r: Option<nat>)
    ensures r.Some? ==> r.value < |totals| && totals[r.value].elfId == id
    ensures r.None? ==> forall k | 0 <= k < |totals| :: totals[k].elfId != id
  {
    if totals == [] then None
    else if totals[0].elfId == id then Some(0)
    else
      match FindElf(totals[1..], id)
      case None => None
      case Some(k) => Some(k + 1)
  }

  function Ids(totals: seq<CalorieEntry>): set<int> {
    set k | 0 <= k < |totals| :: totals[k].elfId
  }

  predicate DistinctIds(totals: seq<CalorieEntry>) {
    forall k, l | 0 <= k < l < |totals| :: totals[k].elfId != totals[l].elfId
  }

  /** One step of the grouping: add the entry to its elf's total, or open a
      new total at the end for an elf not seen before. */
  function AddEntry(before: seq<CalorieEntry>, e: CalorieEntry): (r: seq<CalorieEntry>)
    requires DistinctIds(before)
    ensures DistinctIds(r) && Ids(r) == Ids(before) + {e.elfId}
    ensures |before| <= |r| <= |before| + 1
    ensures forall k | 0 <= k < |before| :: r[k].elfId == before[k].elfId
    ensures forall k | 0 <= k < |before| ::
      r[k].calories == before[k].calories + (if before[k].elfId == e.elfId then e.calories else 0)
    ensures |r| == |before| + 1 <==> e.elfId !in Ids(before)
    ensures |r| == |before| + 1 ==> r[|before|] == e
  {
    match FindElf(before, e.elfId)
    case Some(k) =>
      var r := before[k := CalorieEntry(e.elfId, before[k].calories + e.calories)];
      assert Ids(r) == Ids(before) by {
        forall id | id in Ids(before) ensures id in Ids(r) {
          var j :| 0 <= j < |before| && before[j].elfId == id;
          assert r[j].elfId == id;
        }
      }
      r
    case None =>
      var r := before + [e];
      assert Ids(r) == Ids(before) + {e.elfId} by {
        assert r[|before|].elfId == e.elfId;
        forall id | id in Ids(before) ensures id in Ids(r) {
          var j :| 0 <= j < |before| && before[j].elfId == id;
          assert r[j].elfId == id;
        }
      }
      r
  }

  function EntryIds(entries: seq<CalorieEntry>): set<int> {
    set i | 0 <= i < |entries| :: entries[i].elfId
  }

  /** `groupBy { elfId }` followed by `sumOf { calories }`: one total per elf
      id that has entries, in order of first appearance, each the sum of that
      elf's entries. */
  function Totals(entries: seq<CalorieEntry>): (r: seq<CalorieEntry>)
    ensures DistinctIds(r) && Ids(r) == EntryIds(entries)
    ensures forall k | 0 <= k < |r| :: r[k].calories == SumFor(entries, r[k].elfId)
  {
    if entries == [] then []
    else
      var init := entries[..|entries| - 1];
      var e := entries[|entries| - 1];
      var before := Totals(init);
      var r := AddEntry(before, e);
      assert EntryIds(entries) == EntryIds(init) + {e.elfId} by {
        assert forall i | 0 <= i < |init| :: init[i] == entries[i];
        forall id | id in EntryIds(entries) ensures id in EntryIds(init) + {e.elfId} {
          var i :| 0 <= i < |entries| && entries[i].elfId == id;
          if i < |init| {
            assert init[i].elfId == id;
          }
        }
      }
      assert |r| == |before| + 1 ==> SumFor(init, e.elfId) == 0 by {
        if |r| == |before| + 1 {
          forall i | 0 <= i < |init| ensures init[i].elfId != e.elfId {
            assert init[i].elfId in EntryIds(init);
          }
          SumForAbsent(init, e.elfId);
        }
      }
      r
  }

  /** An id with no entries sums to zero. */
  lemma {:induction false} SumForAbsent(entries: seq<CalorieEntry>, id: int)
    requires forall i | 0 <= i < |entries| :: entries[i].elfId != id
    ensures SumFor(entries, id) == 0
  {
    if entries != [] {
      SumForAbsent(entries[..|entries| - 1], id);
    }
  }

  /** `parseInput`: the entries, grouped and summed per elf. */
  method ParseInput(lines: seq<string>) returns (r: Result<seq<CalorieEntry>>)
    ensures EntriesOf(lines).Err? ==> r == EntriesOf(lines) == Err(NotANumber)
    ensures EntriesOf(lines).Ok? ==> r == Ok(Totals(EntriesOf(lines).value))
  {
    var entries: seq<CalorieEntry> := [];
    var elfId := 0;
    var i := 0;
    while i < |lines|
      invariant 0 <= i <= |lines|
      invariant elfId == CountBlank(lines[..i])
      invariant EntriesOf(lines[..i]) == Ok(entries)
    {
      var line := lines[i];
      assert lines[..i + 1][..i] == lines[..i];
      if line == [] {
        elfId := elfId + 1;
      } else {
        var v := ParseInt(line);
        if v.None? {
          PrefixErrFails(lines, i + 1);
          return Err(NotANumber);
        }
        entries := entries + [CalorieEntry(elfId, v.value)];
      }
      i := i + 1;
    }
    assert lines[..i] == lines;
    r := Ok(Totals(entries));
  }

  function Calories(totals: seq<CalorieEntry>): (r: seq<int>)
    ensures |r| == |totals| && forall k | 0 <= k < |r| :: r[k] == totals[k].calories
  {
    seq(|totals|, k requires 0 <= k < |totals| => totals[k].calories)
  }

  /** `maxBy { calories }`: the largest total; no elf at all throws. */
  function Part1(totals: seq<CalorieEntry>): (r: Result<int>)
    ensures r.Err? <==> totals == []
    ensures r.Ok? ==> forall k | 0 <= k < |totals| :: totals[k].calories <= r.value
    ensures r.Ok? ==> exists k :: 0 <= k < |totals| && totals[k].calories == r.value
  {
    match MaxOf(Calories(totals))
    case None => Err("Collection is empty")
    case Some(m) => Ok(m)
  }

  /** The three largest values (all of them when there are fewer): a
      sub-multiset that no left-out value exceeds. */
  function TopThree(values: seq<int>): (top: seq<int>)
    ensures |top| == if |values| < 3 then |values| else 3
    ensures multiset(top) <= multiset(values)
    ensures forall y, i | y in multiset(values) - multiset(top) && 0 <= i < |top| :: y <= top[i]
  {
    var sorted := SortDescending(values);
    TakeLargest(values, sorted, 3);
    Take(sorted, 3)
  }

  /** A prefix of a descending sort holds values no left-out value exceeds. */
  lemma TakeLargest(values: seq<int>, sorted: seq<int>, n: nat)
    requires SortedDescending(sorted) && multiset(sorted) == multiset(values)
    ensures var top := Take(sorted, n);
      |top| == (if |values| < n then |values| else n)
      && multiset(top) <= multiset(values)
      && forall y, i | y in multiset(values) - multiset(top) && 0 <= i < |top| :: y <= top[i]
  {
    var top := Take(sorted, n);
    var rest := sorted[|top|..];
    assert |sorted| == |multiset(sorted)| == |values|;
    assert sorted == top + rest;
    assert multiset(sorted) == multiset(top) + multiset(rest);
    forall y, i | y in multiset(values) - multiset(top) && 0 <= i < |top| ensures y <= top[i] {
      assert y in multiset(rest);
      var j :| 0 <= j < |rest| && rest[j] == y;
      assert sorted[|top| + j] == y && sorted[i] == top[i];
    }
  }

  /** `sortedByDescending { calories }.take(3).sumOf { calories }`: the sum of
      the three largest totals, which with three elves or fewer is every total. */
  function Part2(totals: seq<CalorieEntry>): (r: int)
    ensures |totals| <= 3 ==> r == Sum(Calories(totals))
  {
    var values := Calories(totals);
    var top := TopThree(values);
    if |totals| <= 3 then
      assert multiset(values) - multiset(top) == multiset{} by {
        assert |multiset(top)| == |multiset(values)|;
      }
      SumPermutation(top, values);
      Sum(top)
    else
      Sum(top)
  }
}
