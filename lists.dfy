/** The Kotlin collection operations the puzzles use on lists:
    `sum`/`sumOf`, `max`/`maxBy`, `sortedDescending`, `take`, and `map`
    with a parser that may throw. */
module Lists {
  import opened Wrappers

  /** Sum, accumulated from the front as a `for` loop does. */
  function Sum(s: seq<int>): int {
    if s == [] then 0 else Sum(s[..|s| - 1]) + s[|s| - 1]
  }

  lemma {:induction false} SumConcat(a: seq<int>, b: seq<int>)
    ensures Sum(a + b) == Sum(a) + Sum(b)
    decreases |b|
  {
    if b == [] {
      assert a + b == a;
    } else {
      assert (a + b)[..|a + b| - 1] == a + b[..|b| - 1];
      SumConcat(a, b[..|b| - 1]);
    }
  }

  /** Reordering a list does not change its sum. */
  lemma {:induction false} SumPermutation(s: seq<int>, t: seq<int>)
    requires multiset(s) == multiset(t)
    ensures Sum(s) == Sum(t)
    decreases |s|
  {
    if s != [] {
      var x := s[|s| - 1];
      assert s == s[..|s| - 1] + [x];
      assert x in multiset(t);
      var j :| 0 <= j < |t| && t[j] == x;
      var rest := t[..j] + t[j + 1..];
      assert t == t[..j] + [x] + t[j + 1..];
      assert multiset(rest) == multiset(t) - multiset{x};
      SumPermutation(s[..|s| - 1], rest);
      SumConcat(t[..j] + [x], t[j + 1..]);
      SumConcat(t[..j], [x]);
      SumConcat(t[..j], t[j + 1..]);
    }
  }

  /** Every element within [lo, hi] bounds the sum by the length. */
  lemma {:induction false} SumBounds(s: seq<int>, lo: int, hi: int)
    requires forall i | 0 <= i < |s| :: lo <= s[i] <= hi
    ensures lo * |s| <= Sum(s) <= hi * |s|
  {
    if s != [] {
      SumBounds(s[..|s| - 1], lo, hi);
    }
  }

  /** `max()`: the largest element; an empty list throws (here: `None`). */
  function MaxOf(s: seq<int>): (r: Option<int>)
    ensures r.None? <==> s == []
    ensures r.Some? ==> r.value in s && forall i | 0 <= i < |s| :: s[i] <= r.value
  {
    if s == [] then None
    else
      match MaxOf(s[1..])
      case None => Some(s[0])
      case Some(m) => Some(if s[0] >= m then s[0] else m)
  }

  /** `min()` / `minByOrNull`'s key: the smallest element, `None` for an empty list. */
  function MinOf(s: seq<int>): (r: Option<int>)
    ensures r.None? <==> s == []
    ensures r.Some? ==> r.value in s && forall i | 0 <= i < |s| :: r.value <= s[i]
  {
    if s == [] then None
    else
      match MinOf(s[1..])
      case None => Some(s[0])
      case Some(m) => Some(if s[0] <= m then s[0] else m)
  }

  predicate SortedDescending(s: seq<int>) {
    forall i, j | 0 <= i < j < |s| :: s[i] >= s[j]
  }

  function InsertDescending(x: int, s: seq<int>): (r: seq<int>)
    requires SortedDescending(s)
    ensures SortedDescending(r) && multiset(r) == multiset(s) + multiset{x}
  {
    if s == [] then [x]
    else if x >= s[0] then [x] + s
    else
      var rest := InsertDescending(x, s[1..]);
      HeadBoundsInsert(x, s, rest);
      [s[0]] + rest
  }

  /** Inserting below the head keeps the head in front of everything. */
  lemma HeadBoundsInsert(x: int, s: seq<int>, rest: seq<int>)
    requires SortedDescending(s) && s != [] && x < s[0]
    requires SortedDescending(rest) && multiset(rest) == multiset(s[1..]) + multiset{x}
    ensures SortedDescending([s[0]] + rest) && multiset([s[0]] + rest) == multiset(s) + multiset{x}
  {
    forall k | 0 <= k < |rest| ensures rest[k] <= s[0] {
      assert rest[k] in multiset(rest);
      if rest[k] != x {
        assert rest[k] in multiset(s[1..]);
        var j :| 0 <= j < |s[1..]| && s[1..][j] == rest[k];
        assert s[1 + j] == rest[k];
      }
    }
    var r := [s[0]] + rest;
    forall i, j | 0 <= i < j < |r| ensures r[i] >= r[j] {
      assert r[j] == rest[j - 1];
      if i > 0 {
        assert r[i] == rest[i - 1];
      }
    }
    assert s == [s[0]] + s[1..];
  }

  /** `sortedDescending()`: the same elements, largest first. */
  function SortDescending(s: seq<int>): (r: seq<int>)
    ensures SortedDescending(r) && multiset(r) == multiset(s)
  {
    if s == [] then []
    else
      assert s == [s[0]] + s[1..];
      InsertDescending(s[0], SortDescending(s[1..]))
  }

  /**
   * The first two entries of the descending order are the two largest
   * elements, a repeated maximum counted twice.
   */
  lemma TopTwo(s: seq<int>)
    requires |s| >= 2
    ensures |SortDescending(s)| == |s|
    ensures var t := SortDescending(s);
      multiset{t[0], t[1]} <= multiset(s) && t[1] <= t[0]
      && forall x | x in multiset(s) - multiset{t[0], t[1]} :: x <= t[1]
  {
    var t := SortDescending(s);
    assert |multiset(t)| == |multiset(s)|;
    assert t == [t[0], t[1]] + t[2..];
    assert multiset(t) == multiset{t[0], t[1]} + multiset(t[2..]);
    forall x | x in multiset(s) - multiset{t[0], t[1]} ensures x <= t[1] {
      assert x in multiset(t[2..]);
      var k :| 0 <= k < |t[2..]| && t[2..][k] == x;
      assert t[2 + k] == x;
    }
  }

  /** `take(n)`: the first n elements, or all of them if there are fewer. */
  function Take<T>(s: seq<T>, n: nat): (r: seq<T>)
    ensures |r| == if |s| < n then |s| else n
    ensures r <= s
  {
    if |s| <= n then s else s[..n]
  }

  /** `toSet()`: the distinct elements of a list. */
  function Elements<T>(s: seq<T>): set<T> {
    set i | 0 <= i < |s| :: s[i]
  }

  predicate AllDistinct<T(==)>(s: seq<T>) {
    forall i, j | 0 <= i < j < |s| :: s[i] != s[j]
  }

  /** A list has as many distinct elements as entries exactly when no
      element repeats; otherwise it has fewer. */
  lemma {:induction false} ElementsCount<T>(s: seq<T>)
    ensures |Elements(s)| <= |s|
    ensures |Elements(s)| == |s| <==> AllDistinct(s)
  {
    if s != [] {
      var init := s[..|s| - 1];
      var x := s[|s| - 1];
      ElementsCount(init);
      assert Elements(s) == Elements(init) + {x} by {
        forall y | y in Elements(s) ensures y in Elements(init) + {x} {
          var i :| 0 <= i < |s| && s[i] == y;
          if i < |init| {
            assert init[i] == y;
          }
        }
        forall y | y in Elements(init) ensures y in Elements(s) {
          var i :| 0 <= i < |init| && init[i] == y;
          assert s[i] == y;
        }
      }
      if x in Elements(init) {
        var i :| 0 <= i < |init| && init[i] == x;
        assert s[i] == s[|s| - 1];
      } else {
        if AllDistinct(init) {
          forall i, j | 0 <= i < j < |s| ensures s[i] != s[j] {
            if j == |s| - 1 {
              assert init[i] in Elements(init);
            } else {
              assert init[i] == s[i] && init[j] == s[j];
            }
          }
        } else {
          var i, j :| 0 <= i < j < |init| && init[i] == init[j];
          assert s[i] == s[j];
        }
      }
    }
  }

  /** `map` with a parser that may throw: every line parsed in order, the first failure thrown. */
  function ParseEach<T>(parse: string -> Result<T>, lines: seq<string>): (r: Result<seq<T>>)
    ensures r.Ok? ==> |r.value| == |lines|
  {
    if lines == [] then Ok([])
    else
      match parse(lines[0])
      case Err(e) => Err(e)
      case Ok(v) =>
        match ParseEach(parse, lines[1..])
        case Err(e) => Err(e)
        case Ok(rest) => Ok([v] + rest)
  }

  /** Every line is parsed, and a single unreadable line fails the whole input with the first failure. */
  lemma {:induction false} ParseEachMeaning<T>(parse: string -> Result<T>, lines: seq<string>)
    ensures ParseEach(parse, lines).Ok? <==> forall i | 0 <= i < |lines| :: parse(lines[i]).Ok?
    ensures ParseEach(parse, lines).Ok? ==>
      forall i | 0 <= i < |lines| :: ParseEach(parse, lines).value[i] == parse(lines[i]).value
    ensures ParseEach(parse, lines).Err? ==> exists i | 0 <= i < |lines| ::
      parse(lines[i]).Err? && parse(lines[i]).message == ParseEach(parse, lines).message && forall j | 0 <= j < i :: parse(lines[j]).Ok?
  {
    if lines != [] {
      ParseEachMeaning(parse, lines[1..]);
      assert forall i | 1 <= i < |lines| :: lines[1..][i - 1] == lines[i];
      if parse(lines[0]).Ok? && ParseEach(parse, lines[1..]).Err? {
        var i :| 0 <= i < |lines[1..]| && parse(lines[1..][i]).Err?
          && parse(lines[1..][i]).message == ParseEach(parse, lines[1..]).message
          && forall j | 0 <= j < i :: parse(lines[1..][j]).Ok?;
        assert parse(lines[i + 1]).message == ParseEach(parse, lines).message;
      }
    }
  }

  /** When every line is readable, the values read are the lines' values in order. */
  lemma ParseEachAllOk<T>(parse: string -> Result<T>, lines: seq<string>, values: seq<T>)
    requires |values| == |lines|
    requires forall j | 0 <= j < |lines| :: parse(lines[j]).Ok? && values[j] == parse(lines[j]).value
    ensures ParseEach(parse, lines) == Ok(values)
  {
    ParseEachMeaning(parse, lines);
    assert ParseEach(parse, lines).value == values;
  }

  /** The first unreadable line decides the error of the whole input. */
  lemma ParseEachFirstErr<T>(parse: string -> Result<T>, lines: seq<string>, i: nat)
    requires i < |lines| && parse(lines[i]).Err?
    requires forall j | 0 <= j < i :: parse(lines[j]).Ok?
    ensures ParseEach(parse, lines) == Err(parse(lines[i]).message)
  {
    ParseEachMeaning(parse, lines);
    var k :| 0 <= k < |lines| && parse(lines[k]).Err?
      && parse(lines[k]).message == ParseEach(parse, lines).message
      && forall j | 0 <= j < k :: parse(lines[j]).Ok?;
    assert k == i;
  }

  /** Multiplication of naturals by repeated addition (keeps the solver off non-linear arithmetic). */
  function Mul(a: nat, b: nat): nat {
    if a == 0 then 0 else b + Mul(a - 1, b)
  }

  lemma {:induction false} MulIsProduct(a: nat, b: nat)
    ensures Mul(a, b) == a * b
  {
    if a > 0 {
      MulIsProduct(a - 1, b);
    }
  }

  lemma {:induction false} MulZero(a: nat, b: nat)
    ensures Mul(a, b) == 0 <==> a == 0 || b == 0
  {
    if a > 0 {
      MulZero(a - 1, b);
    }
  }
}
