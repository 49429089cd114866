/** Day 8, treetop tree house: a grid of tree heights. Part 1 counts the
    trees visible from outside the grid, found by four scanning passes that
    each fill a Boolean mask; part 2 finds the best scenic score, the product
    of the four viewing distances from a tree. */
module Day08 {
  import opened Wrappers
  import opened Text
  import opened Grids
  import Lists

  type Heights = Grid<int>

  // ----- Index progressions -----

  /** `from..to`: the indices from `from` up to `to`, empty when `from > to`. */
  function Ascending(from: int, to: int): (r: seq<int>)
    ensures |r| == (if from <= to then to - from + 1 else 0)
    ensures forall k | 0 <= k < |r| :: r[k] == from + k
  {
    if from > to then [] else seq(to - from + 1, k => from + k)
  }

  /** `from downTo to`: the indices from `from` down to `to`, empty when `from < to`. */
  function Descending(from: int, to: int): (r: seq<int>)
    ensures |r| == (if from >= to then from - to + 1 else 0)
    ensures forall k | 0 <= k < |r| :: r[k] == from - k
  {
    if from < to then [] else seq(from - to + 1, k => from - k)
  }

  /** Every row at least as long as the first: the passes read the first row's
      width of every row. */
  predicate WideEnough(grid: Heights) {
    |grid| > 0 && forall y | 0 <= y < |grid| :: |grid[0]| <= |grid[y]|
  }

  /** The heights met along row `y` when walking the columns `xs`. */
  function RowAlong(grid: Heights, y: nat, xs: seq<int>): (r: seq<int>)
    requires y < |grid| && forall k | 0 <= k < |xs| :: 0 <= xs[k] < |grid[y]|
    ensures |r| == |xs| && forall k | 0 <= k < |xs| :: r[k] == grid[y][xs[k]]
  {
    seq(|xs|, k requires 0 <= k < |xs| => grid[y][xs[k]])
  }

  /** The heights met along column `x` when walking the rows `ys`. */
  function ColumnAlong(grid: Heights, x: nat, ys: seq<int>): (r: seq<int>)
    requires forall k | 0 <= k < |ys| :: 0 <= ys[k] < |grid| && x < |grid[ys[k]]|
    ensures |r| == |ys| && forall k | 0 <= k < |ys| :: r[k] == grid[ys[k]][x]
  {
    seq(|ys|, k requires 0 <= k < |ys| => grid[ys[k]][x])
  }

  predicate Distinct(s: seq<int>) {
    forall i, j | 0 <= i < j < |s| :: s[i] != s[j]
  }

  // ----- The visibility passes -----

  /** `previousTreeHeight` after a scan: the start value or the tallest tree met. */
  function Tallest(start: int, hs: seq<int>, k: nat): int
    requires k <= |hs|
  {
    if k == 0 then start
    else
      var m := Tallest(start, hs, k - 1);
      if hs[k - 1] > m then hs[k - 1] else m
  }

  /** The running height is at least the start value and every tree met,
      and is the start value or one of those trees. */
  lemma {:induction false} TallestBounds(start: int, hs: seq<int>, k: nat)
    requires k <= |hs|
    ensures start <= Tallest(start, hs, k) && forall j | 0 <= j < k :: hs[j] <= Tallest(start, hs, k)
    ensures Tallest(start, hs, k) == start || exists j | 0 <= j < k :: hs[j] == Tallest(start, hs, k)
  {
    if k > 0 {
      TallestBounds(start, hs, k - 1);
    }
  }

  /** Whether a pass marks the `k`-th tree of its scan. */
  predicate Marked(start: int, hs: seq<int>, k: nat)
    requires k < |hs|
  {
    hs[k] > Tallest(start, hs, k)
  }

  /** A pass marks a tree exactly when it is taller than the start value and
      than every tree before it in the scan. */
  lemma MarkedIff(start: int, hs: seq<int>, k: nat)
    requires k < |hs|
    ensures Marked(start, hs, k) <==> start < hs[k] && forall j | 0 <= j < k :: hs[j] < hs[k]
  {
    TallestBounds(start, hs, k);
  }

  /** The inner loop of `visibilityHorizontally`: row `y` scanned along the
      columns `xs`, marking each tree taller than all before it. */
  method ScanRow(mask: array2<bool>, grid: Heights, y: nat, xs: seq<int>, start: int)
    requires WideEnough(grid) && Distinct(xs) && y < |grid|
    requires mask.Length0 == |grid| && mask.Length1 == |grid[0]|
    requires forall k | 0 <= k < |xs| :: 0 <= xs[k] < |grid[0]|
    requires forall x | 0 <= x < mask.Length1 :: !mask[y, x]
    modifies mask
    ensures forall yy, x | 0 <= yy < mask.Length0 && 0 <= x < mask.Length1 && yy != y :: mask[yy, x] == old(mask[yy, x])
    ensures forall k | 0 <= k < |xs| :: mask[y, xs[k]] == Marked(start, RowAlong(grid, y, xs), k)
    ensures forall x | 0 <= x < mask.Length1 && mask[y, x] :: x in xs
  {
    var previousTreeHeight := start;
    ghost var row := RowAlong(grid, y, xs);
    for k := 0 to |xs|
      invariant previousTreeHeight == Tallest(start, row, k)
      invariant forall yy, x | 0 <= yy < mask.Length0 && 0 <= x < mask.Length1 && yy != y :: mask[yy, x] == old(mask[yy, x])
      invariant forall j | 0 <= j < k :: mask[y, xs[j]] == Marked(start, row, j)
      invariant forall j | k <= j < |xs| :: !mask[y, xs[j]]
      invariant forall x | 0 <= x < mask.Length1 && mask[y, x] :: x in xs
    {
      var currentHeight := grid[y][xs[k]];
      if currentHeight > previousTreeHeight {
        mask[y, xs[k]] := true;
        previousTreeHeight := currentHeight;
      }
    }
  }

  /** `visibilityHorizontally`: every row scanned along the columns `xs`. */
  method VisibilityHorizontally(grid: Heights, xs: seq<int>, start: int) returns (mask: array2<bool>)
    requires WideEnough(grid) && Distinct(xs)
    requires forall k | 0 <= k < |xs| :: 0 <= xs[k] < |grid[0]|
    ensures fresh(mask) && mask.Length0 == |grid| && mask.Length1 == |grid[0]|
    ensures forall y, k | 0 <= y < |grid| && 0 <= k < |xs| :: mask[y, xs[k]] == Marked(start, RowAlong(grid, y, xs), k)
    ensures forall y, x | 0 <= y < |grid| && 0 <= x < |grid[0]| && mask[y, x] :: x in xs
  {
    mask := new bool[|grid|, |grid[0]|]((y, x) => false);
    for y := 0 to |grid|
      invariant forall yy, k | 0 <= yy < y && 0 <= k < |xs| :: mask[yy, xs[k]] == Marked(start, RowAlong(grid, yy, xs), k)
      invariant forall yy, x | 0 <= yy < |grid| && 0 <= x < |grid[0]| && mask[yy, x] :: yy < y && x in xs
    {
      ScanRow(mask, grid, y, xs, start);
    }
  }

  /** The inner loop of `visibilityVertically`: column `x` scanned along the rows `ys`. */
  method ScanColumn(mask: array2<bool>, grid: Heights, x: nat, ys: seq<int>, start: int)
    requires WideEnough(grid) && Distinct(ys) && x < |grid[0]|
    requires mask.Length0 == |grid| && mask.Length1 == |grid[0]|
    requires forall k | 0 <= k < |ys| :: 0 <= ys[k] < |grid|
    requires forall y | 0 <= y < mask.Length0 :: !mask[y, x]
    modifies mask
    ensures forall y, xx | 0 <= y < mask.Length0 && 0 <= xx < mask.Length1 && xx != x :: mask[y, xx] == old(mask[y, xx])
    ensures forall k | 0 <= k < |ys| :: mask[ys[k], x] == Marked(start, ColumnAlong(grid, x, ys), k)
    ensures forall y | 0 <= y < mask.Length0 && mask[y, x] :: y in ys
  {
    var previousTreeHeight := start;
    ghost var column := ColumnAlong(grid, x, ys);
    for k := 0 to |ys|
      invariant previousTreeHeight == Tallest(start, column, k)
      invariant forall y, xx | 0 <= y < mask.Length0 && 0 <= xx < mask.Length1 && xx != x :: mask[y, xx] == old(mask[y, xx])
      invariant forall j | 0 <= j < k :: mask[ys[j], x] == Marked(start, column, j)
      invariant forall j | k <= j < |ys| :: !mask[ys[j], x]
      invariant forall y | 0 <= y < mask.Length0 && mask[y, x] :: y in ys
    {
      var currentHeight := grid[ys[k]][x];
      if currentHeight > previousTreeHeight {
        mask[ys[k], x] := true;
        previousTreeHeight := currentHeight;
      }
    }
  }

  /** `visibilityVertically`: every column scanned along the rows `ys`. */
  method VisibilityVertically(grid: Heights, ys: seq<int>, start: int) returns (mask: array2<bool>)
    requires WideEnough(grid) && Distinct(ys)
    requires forall k | 0 <= k < |ys| :: 0 <= ys[k] < |grid|
    ensures fresh(mask) && mask.Length0 == |grid| && mask.Length1 == |grid[0]|
    ensures forall x, k | 0 <= x < |grid[0]| && 0 <= k < |ys| :: mask[ys[k], x] == Marked(start, ColumnAlong(grid, x, ys), k)
    ensures forall y, x | 0 <= y < |grid| && 0 <= x < |grid[0]| && mask[y, x] :: y in ys
  {
    mask := new bool[|grid|, |grid[0]|]((y, x) => false);
    for x := 0 to |grid[0]|
      invariant forall xx, k | 0 <= xx < x && 0 <= k < |ys| :: mask[ys[k], xx] == Marked(start, ColumnAlong(grid, xx, ys), k)
      invariant forall y, xx | 0 <= y < |grid| && 0 <= xx < |grid[0]| && mask[y, xx] :: xx < x && y in ys
    {
      ScanColumn(mask, grid, x, ys, start);
    }
  }

  /** One mask OR-ed into the merged mask, cell by cell. */
  method MergeInto(merged: array2<bool>, m: array2<bool>)
    requires merged != m && m.Length0 == merged.Length0 && m.Length1 == merged.Length1
    modifies merged
    ensures forall y, x | 0 <= y < merged.Length0 && 0 <= x < merged.Length1 :: merged[y, x] == (old(merged[y, x]) || m[y, x])
  {
    for y := 0 to merged.Length0
      invariant forall yy, x | 0 <= yy < merged.Length0 && 0 <= x < merged.Length1 ::
        merged[yy, x] == if yy < y then old(merged[yy, x]) || m[yy, x] else old(merged[yy, x])
    {
      for x := 0 to merged.Length1
        invariant forall yy, xx | 0 <= yy < merged.Length0 && 0 <= xx < merged.Length1 ::
          merged[yy, xx] == if yy < y || (yy == y && xx < x) then old(merged[yy, xx]) || m[yy, xx] else old(merged[yy, xx])
      {
        merged[y, x] := merged[y, x] || m[y, x];
      }
    }
  }

  /** `mergeVisibilityMasks`: the cell-wise OR of masks of the first mask's size. */
  method MergeVisibilityMasks(masks: seq<array2<bool>>) returns (merged: array2<bool>)
    requires |masks| > 0 && masks[0].Length0 > 0
    requires forall i | 0 <= i < |masks| :: masks[i].Length0 == masks[0].Length0 && masks[i].Length1 == masks[0].Length1
    ensures fresh(merged) && merged.Length0 == masks[0].Length0 && merged.Length1 == masks[0].Length1
    ensures forall y, x | 0 <= y < merged.Length0 && 0 <= x < merged.Length1 ::
      merged[y, x] == exists i | 0 <= i < |masks| :: masks[i][y, x]
  {
    merged := new bool[masks[0].Length0, masks[0].Length1]((y, x) => false);
    for i := 0 to |masks|
      invariant forall y, x | 0 <= y < merged.Length0 && 0 <= x < merged.Length1 ::
        merged[y, x] == exists j | 0 <= j < i :: masks[j][y, x]
    {
      MergeInto(merged, masks[i]);
      assert forall y, x | 0 <= y < merged.Length0 && 0 <= x < merged.Length1 ::
        merged[y, x] == exists j | 0 <= j < i + 1 :: masks[j][y, x] by {
        forall y, x | 0 <= y < merged.Length0 && 0 <= x < merged.Length1
          ensures merged[y, x] == exists j | 0 <= j < i + 1 :: masks[j][y, x]
        {
          if masks[i][y, x] {
            assert merged[y, x];
          }
        }
      }
    }
  }

  // ----- Counting -----

  /** `mask[y].count { it }` over the first `n` cells of row `y`. */
  function CountRow(mask: array2<bool>, y: nat, n: nat): nat
    requires y < mask.Length0 && n <= mask.Length1
    reads mask
  {
    if n == 0 then 0 else CountRow(mask, y, n - 1) + (if mask[y, n - 1] then 1 else 0)
  }

  /** The true cells of the first `m` rows, row by row. */
  function CountRows(mask: array2<bool>, m: nat): nat
    requires m <= mask.Length0
    reads mask
  {
    if m == 0 then 0 else CountRows(mask, m - 1) + CountRow(mask, m - 1, mask.Length1)
  }

  function RowCells(mask: array2<bool>, y: nat, n: nat): set<(int, int)>
    requires y < mask.Length0 && n <= mask.Length1
    reads mask
  {
    set x | 0 <= x < n && mask[y, x] :: (y, x)
  }

  /** The positions of the true cells of the first `m` rows. */
  function TrueCells(mask: array2<bool>, m: nat): set<(int, int)>
    requires m <= mask.Length0
    reads mask
  {
    set y, x | 0 <= y < m && 0 <= x < mask.Length1 && mask[y, x] :: (y, x)
  }

  lemma {:induction false} CountRowCells(mask: array2<bool>, y: nat, n: nat)
    requires y < mask.Length0 && n <= mask.Length1
    ensures CountRow(mask, y, n) == |RowCells(mask, y, n)|
  {
    if n > 0 {
      CountRowCells(mask, y, n - 1);
      if mask[y, n - 1] {
        assert RowCells(mask, y, n) == RowCells(mask, y, n - 1) + {(y, n - 1)};
      } else {
        assert RowCells(mask, y, n) == RowCells(mask, y, n - 1);
      }
    }
  }

  /** The running count is the number of true cells. */
  lemma {:induction false} CountRowsCells(mask: array2<bool>, m: nat)
    requires m <= mask.Length0
    ensures CountRows(mask, m) == |TrueCells(mask, m)|
  {
    if m > 0 {
      CountRowsCells(mask, m - 1);
      CountRowCells(mask, m - 1, mask.Length1);
      var row := RowCells(mask, m - 1, mask.Length1);
      assert TrueCells(mask, m) == TrueCells(mask, m - 1) + row;
      assert TrueCells(mask, m - 1) !! row;
    }
  }

  /** `countAllVisible`: the number of true cells of the mask. */
  method CountAllVisible(mask: array2<bool>) returns (visibleCount: nat)
    ensures visibleCount == |TrueCells(mask, mask.Length0)|
  {
    visibleCount := 0;
    for y := 0 to mask.Length0
      invariant visibleCount == CountRows(mask, y)
    {
      visibleCount := visibleCount + CountRow(mask, y, mask.Length1);
    }
    CountRowsCells(mask, mask.Length0);
  }

  // ----- Lines of sight -----

  /** How many trees a tree of height `h` sees along `hs`: up to and including
      the first that is at least as tall, or all of them. */
  function ViewingDistance(hs: seq<int>, h: int): (r: nat)
    ensures r <= |hs| && (r == 0 <==> hs == [])
  {
    if hs == [] then 0
    else if hs[0] >= h then 1
    else 1 + ViewingDistance(hs[1..], h)
  }

  /** The loop's exit: after `k` shorter trees, stopping at a tall one or the edge. */
  lemma {:induction false} ViewingDistanceAt(hs: seq<int>, h: int, k: nat)
    requires k <= |hs| && forall j | 0 <= j < k :: hs[j] < h
    ensures k == |hs| ==> ViewingDistance(hs, h) == k
    ensures k < |hs| && hs[k] >= h ==> ViewingDistance(hs, h) == k + 1
  {
    if k > 0 {
      ViewingDistanceAt(hs[1..], h, k - 1);
    }
  }

  /** `calculateLineOfSightVertically`: looking along column `x` over the rows `ys`. */
  method LineOfSightVertically(grid: Heights, x: nat, ys: seq<int>, currentTreeHeight: int) returns (visibleTreeCount: nat)
    requires forall k | 0 <= k < |ys| :: 0 <= ys[k] < |grid| && x < |grid[ys[k]]|
    ensures visibleTreeCount == ViewingDistance(ColumnAlong(grid, x, ys), currentTreeHeight)
  {
    ghost var hs := ColumnAlong(grid, x, ys);
    visibleTreeCount := 0;
    while visibleTreeCount < |ys|
      invariant visibleTreeCount <= |ys|
      invariant forall j | 0 <= j < visibleTreeCount :: hs[j] < currentTreeHeight
    {
      if grid[ys[visibleTreeCount]][x] >= currentTreeHeight {
        ViewingDistanceAt(hs, currentTreeHeight, visibleTreeCount);
        visibleTreeCount := visibleTreeCount + 1;
        return;
      }
      visibleTreeCount := visibleTreeCount + 1;
    }
    ViewingDistanceAt(hs, currentTreeHeight, visibleTreeCount);
  }

  /** `calculateLineOfSightHorizontally`: looking along row `y` over the columns `xs`. */
  method LineOfSightHorizontally(grid: Heights, xs: seq<int>, y: nat, currentTreeHeight: int) returns (visibleTreeCount: nat)
    requires y < |grid| && forall k | 0 <= k < |xs| :: 0 <= xs[k] < |grid[y]|
    ensures visibleTreeCount == ViewingDistance(RowAlong(grid, y, xs), currentTreeHeight)
  {
    ghost var hs := RowAlong(grid, y, xs);
    visibleTreeCount := 0;
    while visibleTreeCount < |xs|
      invariant visibleTreeCount <= |xs|
      invariant forall j | 0 <= j < visibleTreeCount :: hs[j] < currentTreeHeight
    {
      if grid[y][xs[visibleTreeCount]] >= currentTreeHeight {
        ViewingDistanceAt(hs, currentTreeHeight, visibleTreeCount);
        visibleTreeCount := visibleTreeCount + 1;
        return;
      }
      visibleTreeCount := visibleTreeCount + 1;
    }
    ViewingDistanceAt(hs, currentTreeHeight, visibleTreeCount);
  }

  // ----- Scenic scores -----

  /** The cell at column `x`, row `y` of a rectangular grid. */
  predicate InGrid(grid: Heights, x: int, y: int) {
    0 <= y < |grid| && 0 <= x < |grid[y]|
  }

  /** The trees seen looking left from column `k` on: `k downTo 0`. */
  function LeftDistance(row: seq<int>, k: int, h: int): (r: nat)
    requires -1 <= k < |row|
    ensures r == 0 <==> k < 0
    decreases k + 1
  {
    if k < 0 then 0 else if row[k] >= h then 1 else 1 + LeftDistance(row, k - 1, h)
  }

  /** The trees seen looking right from column `k` on: `k..row.lastIndex`. */
  function RightDistance(row: seq<int>, k: nat, h: int): (r: nat)
    requires k <= |row|
    ensures r == 0 <==> k == |row|
    decreases |row| - k
  {
    if k == |row| then 0 else if row[k] >= h then 1 else 1 + RightDistance(row, k + 1, h)
  }

  /** The trees seen looking up column `x` from row `k` on: `k downTo 0`. */
  function UpDistance(grid: Heights, x: nat, k: int, h: int): (r: nat)
    requires Rectangular(grid) && -1 <= k < |grid| && (|grid| > 0 ==> x < |grid[0]|)
    ensures r == 0 <==> k < 0
    decreases k + 1
  {
    if k < 0 then 0 else if grid[k][x] >= h then 1 else 1 + UpDistance(grid, x, k - 1, h)
  }

  /** The trees seen looking down column `x` from row `k` on: `k..input.lastIndex`. */
  function DownDistance(grid: Heights, x: nat, k: nat, h: int): (r: nat)
    requires Rectangular(grid) && k <= |grid| && (|grid| > 0 ==> x < |grid[0]|)
    ensures r == 0 <==> k == |grid|
    decreases |grid| - k
  {
    if k == |grid| then 0 else if grid[k][x] >= h then 1 else 1 + DownDistance(grid, x, k + 1, h)
  }

  lemma AscendingTail(from: int, to: int)
    requires from <= to
    ensures Ascending(from, to)[1..] == Ascending(from + 1, to)
  {
  }

  lemma DescendingTail(from: int, to: int)
    requires from >= to
    ensures Descending(from, to)[1..] == Descending(from - 1, to)
  {
  }

  lemma RowAlongTail(grid: Heights, y: nat, xs: seq<int>)
    requires y < |grid| && |xs| > 0 && forall k | 0 <= k < |xs| :: 0 <= xs[k] < |grid[y]|
    ensures RowAlong(grid, y, xs)[1..] == RowAlong(grid, y, xs[1..])
  {
  }

  lemma ColumnAlongTail(grid: Heights, x: nat, ys: seq<int>)
    requires |ys| > 0 && forall k | 0 <= k < |ys| :: 0 <= ys[k] < |grid| && x < |grid[ys[k]]|
    ensures ColumnAlong(grid, x, ys)[1..] == ColumnAlong(grid, x, ys[1..])
  {
  }

  /** Walking the progression `k downTo 0` of a row is looking left from `k`. */
  lemma {:induction false} LeftAlong(grid: Heights, y: nat, k: int, h: int)
    requires y < |grid| && -1 <= k < |grid[y]|
    ensures ViewingDistance(RowAlong(grid, y, Descending(k, 0)), h) == LeftDistance(grid[y], k, h)
    decreases k + 1
  {
    if k >= 0 {
      var xs := Descending(k, 0);
      DescendingTail(k, 0);
      RowAlongTail(grid, y, xs);
      LeftAlong(grid, y, k - 1, h);
    }
  }

  /** Walking the progression `k..lastIndex` of a row is looking right from `k`. */
  lemma {:induction false} RightAlong(grid: Heights, y: nat, k: nat, h: int)
    requires y < |grid| && k <= |grid[y]|
    ensures ViewingDistance(RowAlong(grid, y, Ascending(k, |grid[y]| - 1)), h) == RightDistance(grid[y], k, h)
    decreases |grid[y]| - k
  {
    if k < |grid[y]| {
      var xs := Ascending(k, |grid[y]| - 1);
      AscendingTail(k, |grid[y]| - 1);
      RowAlongTail(grid, y, xs);
      RightAlong(grid, y, k + 1, h);
    }
  }

  /** Walking the progression `k downTo 0` of a column is looking up from `k`. */
  lemma {:induction false} UpAlong(grid: Heights, x: nat, k: int, h: int)
    requires Rectangular(grid) && -1 <= k < |grid| && (|grid| > 0 ==> x < |grid[0]|)
    ensures ViewingDistance(ColumnAlong(grid, x, Descending(k, 0)), h) == UpDistance(grid, x, k, h)
    decreases k + 1
  {
    if k >= 0 {
      var ys := Descending(k, 0);
      DescendingTail(k, 0);
      ColumnAlongTail(grid, x, ys);
      UpAlong(grid, x, k - 1, h);
    }
  }

  /** Walking the progression `k..lastIndex` of a column is looking down from `k`. */
  lemma {:induction false} DownAlong(grid: Heights, x: nat, k: nat, h: int)
    requires Rectangular(grid) && k <= |grid| && (|grid| > 0 ==> x < |grid[0]|)
    ensures ViewingDistance(ColumnAlong(grid, x, Ascending(k, |grid| - 1)), h) == DownDistance(grid, x, k, h)
    decreases |grid| - k
  {
    if k < |grid| {
      var ys := Ascending(k, |grid| - 1);
      AscendingTail(k, |grid| - 1);
      ColumnAlongTail(grid, x, ys);
      var column := ColumnAlong(grid, x, ys);
      assert column[0] == grid[k][x];
      assert column[1..] == ColumnAlong(grid, x, Ascending(k + 1, |grid| - 1));
      DownAlong(grid, x, k + 1, h);
    }
  }

  /** `a * b * c * d`, multiplied left to right. */
  function Product(a: nat, b: nat, c: nat, d: nat): nat {
    Lists.Mul(Lists.Mul(Lists.Mul(a, b), c), d)
  }

  /** The product of the four viewing distances. */
  function ScenicScore(grid: Heights, x: nat, y: nat): nat
    requires Rectangular(grid) && InGrid(grid, x, y)
  {
    var h := grid[y][x];
    Product(RightDistance(grid[y], x + 1, h), LeftDistance(grid[y], x - 1, h), DownDistance(grid, x, y + 1, h), UpDistance(grid, x, y - 1, h))
  }

  lemma ProductOfFour(a: nat, b: nat, c: nat, d: nat)
    ensures Product(a, b, c, d) == a * b * c * d
    ensures Product(a, b, c, d) == 0 <==> a == 0 || b == 0 || c == 0 || d == 0
  {
    Lists.MulIsProduct(a, b);
    Lists.MulIsProduct(a * b, c);
    Lists.MulIsProduct(a * b * c, d);
    Lists.MulZero(a, b);
    Lists.MulZero(Lists.Mul(a, b), c);
    Lists.MulZero(Lists.Mul(Lists.Mul(a, b), c), d);
  }

  /** Scores are never negative, and a tree scores zero exactly when it
      stands on the edge of the grid. */
  lemma ScenicScoreZeroOnEdge(grid: Heights, x: nat, y: nat)
    requires Rectangular(grid) && InGrid(grid, x, y)
    ensures ScenicScore(grid, x, y) >= 0
    ensures ScenicScore(grid, x, y) == 0 <==> x == 0 || y == 0 || x == |grid[y]| - 1 || y == |grid| - 1
  {
    var h := grid[y][x];
    ProductOfFour(RightDistance(grid[y], x + 1, h), LeftDistance(grid[y], x - 1, h), DownDistance(grid, x, y + 1, h), UpDistance(grid, x, y - 1, h));
  }

  /** `calculateScenicScore(input, x, y)`. */
  method CalculateScenicScore(grid: Heights, x: nat, y: nat) returns (score: int)
    requires Rectangular(grid) && InGrid(grid, x, y)
    ensures score == ScenicScore(grid, x, y)
  {
    var currentTreeHeight := grid[y][x];
    var visibleToLeft := LineOfSightHorizontally(grid, Descending(x - 1, 0), y, currentTreeHeight);
    var visibleToRight := LineOfSightHorizontally(grid, Ascending(x + 1, |grid[y]| - 1), y, currentTreeHeight);
    var visibleToTop := LineOfSightVertically(grid, x, Descending(y - 1, 0), currentTreeHeight);
    var visibleToBottom := LineOfSightVertically(grid, x, Ascending(y + 1, |grid| - 1), currentTreeHeight);
    LeftAlong(grid, y, x - 1, currentTreeHeight);
    RightAlong(grid, y, x + 1, currentTreeHeight);
    UpAlong(grid, x, y - 1, currentTreeHeight);
    DownAlong(grid, x, y + 1, currentTreeHeight);
    score := Product(visibleToRight, visibleToLeft, visibleToBottom, visibleToTop);
  }

  /** `maxScenicScore` with the row and column passed in their intended
      places: zero or more, at least every tree's score, and, unless zero,
      the score of some tree. */
  method MaxScenicScore(grid: Heights) returns (maxScore: int)
    requires Rectangular(grid)
    ensures maxScore >= 0
    ensures forall y, x | 0 <= y < |grid| && 0 <= x < |grid[y]| :: ScenicScore(grid, x, y) <= maxScore
    ensures maxScore == 0 || exists y, x | 0 <= y < |grid| && 0 <= x < |grid[y]| :: ScenicScore(grid, x, y) == maxScore
  {
    maxScore := 0;
    ghost var bestX, bestY := 0, 0;
    for y := 0 to |grid|
      invariant maxScore >= 0
      invariant forall yy, x | 0 <= yy < y && 0 <= x < |grid[yy]| :: ScenicScore(grid, x, yy) <= maxScore
      invariant maxScore == 0 || (InGrid(grid, bestX, bestY) && ScenicScore(grid, bestX, bestY) == maxScore)
    {
      var rowBest, rowX := MaxInRow(grid, y, maxScore);
      if rowBest != maxScore {
        bestX, bestY := rowX, y;
      }
      maxScore := rowBest;
    }
    if maxScore != 0 {
      assert InGrid(grid, bestX, bestY) && ScenicScore(grid, bestX, bestY) == maxScore;
    }
  }

  /** The inner loop of `maxScenicScore`: row `y` raises the running maximum `current`. */
  method MaxInRow(grid: Heights, y: nat, current: int) returns (best: int, ghost bestX: nat)
    requires Rectangular(grid) && y < |grid|
    ensures best >= current
    ensures forall x | 0 <= x < |grid[y]| :: ScenicScore(grid, x, y) <= best
    ensures best == current || (bestX < |grid[y]| && ScenicScore(grid, bestX, y) == best)
  {
    best, bestX := current, 0;
    for x := 0 to |grid[y]|
      invariant best >= current
      invariant forall xx | 0 <= xx < x :: ScenicScore(grid, xx, y) <= best
      invariant best == current || (bestX < |grid[y]| && ScenicScore(grid, bestX, y) == best)
    {
      var scenicScore := CalculateScenicScore(grid, x, y);
      if scenicScore > best {
        best, bestX := scenicScore, x;
      }
    }
  }

  // ----- maxScenicScore as written: the row index is passed as `x` -----

  /** The cells in the order the loops of `maxScenicScore` visit them, as (y, x). */
  function RowMajor(grid: Heights): (r: seq<(nat, nat)>)
    ensures forall k | 0 <= k < |r| :: r[k].0 < |grid| && r[k].1 < |grid[r[k].0]|
  {
    if grid == [] then []
    else
      var last := |grid| - 1;
      RowMajor(grid[..last]) + seq(|grid[last]|, x requires 0 <= x < |grid[last]| => (last, x))
  }

  /** `calculateScenicScore(input, x, y)` where the grid may not have that
      cell: `input[y][x]` throws, here `None`. */
  function ScoreOrThrow(grid: Heights, x: nat, y: nat): (r: Option<int>)
    requires Rectangular(grid)
  {
    if InGrid(grid, x, y) then Some(ScenicScore(grid, x, y)) else None
  }

  /** The loop of `maxScenicScore` as written: the cell (y, x) is scored by
      `calculateScenicScore(input, y, x)`, so the row index lands in the
      column parameter. */
  function MaxScenicScoreAsWritten(grid: Heights, cells: seq<(nat, nat)>): Option<int>
    requires Rectangular(grid)
  {
    if cells == [] then Some(0)
    else
      match MaxScenicScoreAsWritten(grid, cells[..|cells| - 1])
      case None => None
      case Some(best) =>
        var (y, x) := cells[|cells| - 1];
        match ScoreOrThrow(grid, y, x)
        case None => None
        case Some(score) => Some(if score > best then score else best)
  }

  /** Every cell of the grid is visited, row by row. */
  lemma {:induction false} RowMajorComplete(grid: Heights, y: nat, x: nat)
    requires y < |grid| && x < |grid[y]|
    ensures (y, x) in RowMajor(grid)
  {
    var last := |grid| - 1;
    var tail := seq(|grid[last]|, c requires 0 <= c < |grid[last]| => (last, c));
    assert RowMajor(grid) == RowMajor(grid[..last]) + tail;
    if y == last {
      assert tail[x] == (y, x);
    } else {
      assert grid[..last][y] == grid[y];
      RowMajorComplete(grid[..last], y, x);
    }
  }

  /** One cell the loop as written cannot score makes the whole loop throw. */
  lemma {:induction false} AsWrittenFailureStays(grid: Heights, cells: seq<(nat, nat)>, k: nat)
    requires Rectangular(grid) && k < |cells| && ScoreOrThrow(grid, cells[k].0, cells[k].1).None?
    ensures MaxScenicScoreAsWritten(grid, cells).None?
  {
    var init := cells[..|cells| - 1];
    if k < |init| {
      assert init[k] == cells[k];
      AsWrittenFailureStays(grid, init, k);
    }
  }

  /** When every visited pair (y, x) names an existing cell once swapped, the
      loop as written returns the largest score of those swapped cells, or 0. */
  lemma {:induction false} AsWrittenMax(grid: Heights, cells: seq<(nat, nat)>)
    requires Rectangular(grid) && forall k | 0 <= k < |cells| :: InGrid(grid, cells[k].0, cells[k].1)
    ensures var r := MaxScenicScoreAsWritten(grid, cells);
      r.Some? && r.value >= 0 &&
      (forall k | 0 <= k < |cells| :: ScenicScore(grid, cells[k].0, cells[k].1) <= r.value) &&
      (r.value == 0 || exists k | 0 <= k < |cells| :: ScenicScore(grid, cells[k].0, cells[k].1) == r.value)
  {
    if cells != [] {
      var init := cells[..|cells| - 1];
      assert forall k | 0 <= k < |init| :: init[k] == cells[k];
      AsWrittenMax(grid, init);
    }
  }

  /** On a square grid the loop as written scores every cell, each under its
      mirror position, so it returns what the intended loop returns: zero or
      more, at least every tree's score, and, unless zero, some tree's score. */
  lemma AsWrittenSquare(grid: Heights)
    requires Rectangular(grid) && (|grid| == 0 || |grid[0]| == |grid|)
    ensures var r := MaxScenicScoreAsWritten(grid, RowMajor(grid));
      r.Some? && r.value >= 0 &&
      (forall y, x | 0 <= y < |grid| && 0 <= x < |grid[y]| :: ScenicScore(grid, x, y) <= r.value) &&
      (r.value == 0 || exists y, x | 0 <= y < |grid| && 0 <= x < |grid[y]| :: ScenicScore(grid, x, y) == r.value)
  {
    var cells := RowMajor(grid);
    AsWrittenMax(grid, cells);
    var r := MaxScenicScoreAsWritten(grid, cells).value;
    forall y, x | 0 <= y < |grid| && 0 <= x < |grid[y]| ensures ScenicScore(grid, x, y) <= r {
      RowMajorComplete(grid, x, y);
      var k :| 0 <= k < |cells| && cells[k] == (x, y);
    }
    if r != 0 {
      var k :| 0 <= k < |cells| && ScenicScore(grid, cells[k].0, cells[k].1) == r;
      var (x, y) := cells[k];
      assert 0 <= y < |grid| && 0 <= x < |grid[y]| && ScenicScore(grid, x, y) == r;
    }
  }

  /** On a rectangular grid with at least one tree that is not square, the
      loop as written reaches a swapped cell outside the grid and throws. */
  lemma AsWrittenNonSquare(grid: Heights)
    requires Rectangular(grid) && |grid| > 0 && |grid[0]| > 0 && |grid[0]| != |grid|
    ensures MaxScenicScoreAsWritten(grid, RowMajor(grid)).None?
  {
    var cells := RowMajor(grid);
    var (y, x) := if |grid[0]| > |grid| then (0, |grid|) else (|grid[0]|, 0);
    RowMajorComplete(grid, y, x);
    var k :| 0 <= k < |cells| && cells[k] == (y, x);
    AsWrittenFailureStays(grid, cells, k);
  }

  // ----- The two answers -----

  /** `it.map { char -> char.digitToInt() }` for every row. */
  function ParseHeights(raw: seq<string>): (r: Option<Heights>)
    ensures r.Some? ==> |r.value| == |raw| && forall y | 0 <= y < |raw| :: |r.value[y]| == |raw[y]|
    ensures r.Some? ==> forall y, x | 0 <= y < |raw| && 0 <= x < |raw[y]| :: 0 <= r.value[y][x] < 10
    ensures r.None? <==> exists y, x | 0 <= y < |raw| && 0 <= x < |raw[y]| :: !IsDigit(raw[y][x])
  {
    if forall y, x | 0 <= y < |raw| && 0 <= x < |raw[y]| :: IsDigit(raw[y][x]) then
      Some(seq(|raw|, y requires 0 <= y < |raw| =>
        seq(|raw[y]|, x requires 0 <= x < |raw[y]| => DigitValue(raw[y][x]))))
    else None
  }

  predicate VisibleFromLeft(grid: Heights, x: nat, y: nat)
    requires InGrid(grid, x, y)
  {
    forall j | 0 <= j < x :: grid[y][j] < grid[y][x]
  }

  predicate VisibleFromRight(grid: Heights, x: nat, y: nat)
    requires InGrid(grid, x, y)
  {
    forall j | x < j < |grid[y]| :: grid[y][j] < grid[y][x]
  }

  predicate VisibleFromTop(grid: Heights, x: nat, y: nat)
    requires Rectangular(grid) && InGrid(grid, x, y)
  {
    forall i | 0 <= i < y :: grid[i][x] < grid[y][x]
  }

  predicate VisibleFromBottom(grid: Heights, x: nat, y: nat)
    requires Rectangular(grid) && InGrid(grid, x, y)
  {
    forall i | y < i < |grid| :: grid[i][x] < grid[y][x]
  }

  /** A tree is visible when every tree between it and some edge is shorter. */
  predicate VisibleFromOutside(grid: Heights, x: nat, y: nat)
    requires Rectangular(grid) && InGrid(grid, x, y)
  {
    VisibleFromLeft(grid, x, y) || VisibleFromRight(grid, x, y) ||
    VisibleFromTop(grid, x, y) || VisibleFromBottom(grid, x, y)
  }

  /** The positions (y, x) of the trees visible from outside. */
  function VisibleTrees(grid: Heights): set<(int, int)>
    requires Rectangular(grid) && |grid| > 0
  {
    set y, x | 0 <= y < |grid| && 0 <= x < |grid[0]| && VisibleFromOutside(grid, x, y) :: (y, x)
  }

  predicate NonNegative(grid: Heights) {
    forall y, x | 0 <= y < |grid| && 0 <= x < |grid[y]| :: grid[y][x] >= 0
  }

  /** What the left-to-right pass marks: the trees visible from the left. */
  lemma LeftPass(grid: Heights, x: nat, y: nat)
    requires Rectangular(grid) && NonNegative(grid) && InGrid(grid, x, y)
    ensures Marked(-1, RowAlong(grid, y, Ascending(0, |grid[0]| - 1)), x) <==> VisibleFromLeft(grid, x, y)
  {
    var hs := RowAlong(grid, y, Ascending(0, |grid[0]| - 1));
    MarkedIff(-1, hs, x);
    assert forall j | 0 <= j < |hs| :: hs[j] == grid[y][j];
  }

  /** What the right-to-left pass marks at scan step `|row| - 1 - x`. */
  lemma RightPass(grid: Heights, x: nat, y: nat)
    requires Rectangular(grid) && NonNegative(grid) && InGrid(grid, x, y)
    ensures Marked(-1, RowAlong(grid, y, Descending(|grid[0]| - 1, 0)), |grid[0]| - 1 - x) <==> VisibleFromRight(grid, x, y)
  {
    var w := |grid[0]|;
    var hs := RowAlong(grid, y, Descending(w - 1, 0));
    var k := w - 1 - x;
    MarkedIff(-1, hs, k);
    assert forall j | 0 <= j < |hs| :: hs[j] == grid[y][w - 1 - j];
    if forall j | 0 <= j < k :: hs[j] < hs[k] {
      forall c | x < c < w ensures grid[y][c] < grid[y][x] {
        assert hs[w - 1 - c] == grid[y][c];
      }
    }
  }

  lemma TopPass(grid: Heights, x: nat, y: nat)
    requires Rectangular(grid) && NonNegative(grid) && InGrid(grid, x, y)
    ensures Marked(-1, ColumnAlong(grid, x, Ascending(0, |grid| - 1)), y) <==> VisibleFromTop(grid, x, y)
  {
    var hs := ColumnAlong(grid, x, Ascending(0, |grid| - 1));
    MarkedIff(-1, hs, y);
    assert forall j | 0 <= j < |hs| :: hs[j] == grid[j][x];
  }

  lemma ColumnUpwards(grid: Heights, x: nat)
    requires Rectangular(grid) && |grid| > 0 && x < |grid[0]|
    ensures var hs := ColumnAlong(grid, x, Descending(|grid| - 1, 0));
      |hs| == |grid| && forall j | 0 <= j < |grid| :: hs[j] == grid[|grid| - 1 - j][x]
  {
  }

  lemma BottomPass(grid: Heights, x: nat, y: nat)
    requires Rectangular(grid) && NonNegative(grid) && InGrid(grid, x, y)
    ensures Marked(-1, ColumnAlong(grid, x, Descending(|grid| - 1, 0)), |grid| - 1 - y) <==> VisibleFromBottom(grid, x, y)
  {
    var h := |grid|;
    var hs := ColumnAlong(grid, x, Descending(h - 1, 0));
    ColumnUpwards(grid, x);
    var k := h - 1 - y;
    MarkedIff(-1, hs, k);
    if forall j | 0 <= j < k :: hs[j] < hs[k] {
      forall i | y < i < h ensures grid[i][x] < grid[y][x] {
        var j := h - 1 - i;
        assert 0 <= j < k;
        assert hs[j] < hs[k];
        assert h - 1 - j == i;
      }
    }
  }

  predicate MaskShaped(mask: array2<bool>, grid: Heights)
    requires |grid| > 0
  {
    mask.Length0 == |grid| && mask.Length1 == |grid[0]|
  }

  lemma LeftMask(grid: Heights, mask: array2<bool>, xs: seq<int>)
    requires Rectangular(grid) && NonNegative(grid) && |grid| > 0 && MaskShaped(mask, grid)
    requires xs == Ascending(0, |grid[0]| - 1)
    requires forall y, k | 0 <= y < |grid| && 0 <= k < |xs| :: mask[y, xs[k]] == Marked(-1, RowAlong(grid, y, xs), k)
    ensures forall y, x | 0 <= y < |grid| && 0 <= x < |grid[0]| :: mask[y, x] == VisibleFromLeft(grid, x, y)
  {
    forall y, x | 0 <= y < |grid| && 0 <= x < |grid[0]| ensures mask[y, x] == VisibleFromLeft(grid, x, y) {
      LeftPass(grid, x, y);
      assert xs[x] == x;
      assert mask[y, xs[x]] == Marked(-1, RowAlong(grid, y, xs), x);
    }
  }

  lemma RightMask(grid: Heights, mask: array2<bool>, xs: seq<int>)
    requires Rectangular(grid) && NonNegative(grid) && |grid| > 0 && MaskShaped(mask, grid)
    requires xs == Descending(|grid[0]| - 1, 0)
    requires forall y, k | 0 <= y < |grid| && 0 <= k < |xs| :: mask[y, xs[k]] == Marked(-1, RowAlong(grid, y, xs), k)
    ensures forall y, x | 0 <= y < |grid| && 0 <= x < |grid[0]| :: mask[y, x] == VisibleFromRight(grid, x, y)
  {
    forall y, x | 0 <= y < |grid| && 0 <= x < |grid[0]| ensures mask[y, x] == VisibleFromRight(grid, x, y) {
      RightPass(grid, x, y);
      var k := |grid[0]| - 1 - x;
      assert xs[k] == x;
      assert mask[y, xs[k]] == Marked(-1, RowAlong(grid, y, xs), k);
    }
  }

  lemma TopMask(grid: Heights, mask: array2<bool>, ys: seq<int>)
    requires Rectangular(grid) && NonNegative(grid) && |grid| > 0 && MaskShaped(mask, grid)
    requires ys == Ascending(0, |grid| - 1)
    requires forall x, k | 0 <= x < |grid[0]| && 0 <= k < |ys| :: mask[ys[k], x] == Marked(-1, ColumnAlong(grid, x, ys), k)
    ensures forall y, x | 0 <= y < |grid| && 0 <= x < |grid[0]| :: mask[y, x] == VisibleFromTop(grid, x, y)
  {
    forall y, x | 0 <= y < |grid| && 0 <= x < |grid[0]| ensures mask[y, x] == VisibleFromTop(grid, x, y) {
      TopPass(grid, x, y);
      assert ys[y] == y;
      assert mask[ys[y], x] == Marked(-1, ColumnAlong(grid, x, ys), y);
    }
  }

  lemma BottomMask(grid: Heights, mask: array2<bool>, ys: seq<int>)
    requires Rectangular(grid) && NonNegative(grid) && |grid| > 0 && MaskShaped(mask, grid)
    requires ys == Descending(|grid| - 1, 0)
    requires forall x, k | 0 <= x < |grid[0]| && 0 <= k < |ys| :: mask[ys[k], x] == Marked(-1, ColumnAlong(grid, x, ys), k)
    ensures forall y, x | 0 <= y < |grid| && 0 <= x < |grid[0]| :: mask[y, x] == VisibleFromBottom(grid, x, y)
  {
    forall y, x | 0 <= y < |grid| && 0 <= x < |grid[0]| ensures mask[y, x] == VisibleFromBottom(grid, x, y) {
      var k := |grid| - 1 - y;
      assert ys[k] == y;
      assert mask[y, x] == Marked(-1, ColumnAlong(grid, x, ys), k);
      BottomCell(grid, mask, ys, x, y, k);
    }
  }

  lemma BottomCell(grid: Heights, mask: array2<bool>, ys: seq<int>, x: nat, y: nat, k: nat)
    requires Rectangular(grid) && NonNegative(grid) && InGrid(grid, x, y) && MaskShaped(mask, grid)
    requires ys == Descending(|grid| - 1, 0) && k == |grid| - 1 - y
    requires mask[y, x] == Marked(-1, ColumnAlong(grid, x, ys), k)
    ensures mask[y, x] == VisibleFromBottom(grid, x, y)
  {
    BottomPass(grid, x, y);
  }

  lemma MaskCellsVisible(grid: Heights, mask: array2<bool>)
    requires Rectangular(grid) && |grid| > 0 && MaskShaped(mask, grid)
    requires forall y, x | 0 <= y < |grid| && 0 <= x < |grid[0]| :: mask[y, x] == VisibleFromOutside(grid, x, y)
    ensures TrueCells(mask, mask.Length0) == VisibleTrees(grid)
  {
  }

  /** The four passes merged mark exactly the trees visible from outside. */
  method VisibleMask(grid: Heights) returns (merged: array2<bool>)
    requires Rectangular(grid) && NonNegative(grid) && |grid| > 0
    ensures merged.Length0 == |grid| && merged.Length1 == |grid[0]|
    ensures TrueCells(merged, merged.Length0) == VisibleTrees(grid)
  {
    var w := |grid[0]|;
    var h := |grid|;
    var maskFromLeft := VisibilityHorizontally(grid, Ascending(0, w - 1), -1);
    LeftMask(grid, maskFromLeft, Ascending(0, w - 1));
    var maskFromRight := VisibilityHorizontally(grid, Descending(w - 1, 0), -1);
    RightMask(grid, maskFromRight, Descending(w - 1, 0));
    var maskFromTop := VisibilityVertically(grid, Ascending(0, h - 1), -1);
    TopMask(grid, maskFromTop, Ascending(0, h - 1));
    var maskFromBottom := VisibilityVertically(grid, Descending(h - 1, 0), -1);
    BottomMask(grid, maskFromBottom, Descending(h - 1, 0));
    var masks := [maskFromLeft, maskFromRight, maskFromTop, maskFromBottom];
    merged := MergeVisibilityMasks(masks);
    forall y, x | 0 <= y < h && 0 <= x < w
      ensures merged[y, x] == VisibleFromOutside(grid, x, y)
    {
      assert merged[y, x] == (masks[0][y, x] || masks[1][y, x] || masks[2][y, x] || masks[3][y, x]);
    }
    MaskCellsVisible(grid, merged);
  }

  /** Part 1: the number of trees visible from outside the grid. */
  method Part1(raw: seq<string>) returns (r: Result<nat>)
    ensures r.Ok? ==> ParseHeights(raw).Some? && Rectangular(ParseHeights(raw).value) && |raw| > 0
    ensures r.Ok? ==> r.value == |VisibleTrees(ParseHeights(raw).value)|
    ensures r.Err? <==> ParseHeights(raw).None? || |raw| == 0 || !Rectangular(ParseHeights(raw).value)
  {
    var parsed := ParseHeights(raw);
    if parsed.None? {
      return Err("Char is not a decimal digit");
    }
    var grid := parsed.value;
    if |grid| == 0 || !Rectangular(grid) {
      return Err("Index out of bounds");
    }
    var merged := VisibleMask(grid);
    var count := CountAllVisible(merged);
    return Ok(count);
  }

  /** Part 2: the best scenic score of the grid. */
  method Part2(raw: seq<string>) returns (r: Result<int>)
    ensures r.Err? <==> ParseHeights(raw).None? || !Rectangular(ParseHeights(raw).value)
    ensures r.Ok? ==> var grid := ParseHeights(raw).value;
      forall y, x | 0 <= y < |grid| && 0 <= x < |grid[y]| :: ScenicScore(grid, x, y) <= r.value
    ensures r.Ok? ==> var grid := ParseHeights(raw).value;
      r.value >= 0 && (r.value == 0 || exists y, x | 0 <= y < |grid| && 0 <= x < |grid[y]| :: ScenicScore(grid, x, y) == r.value)
  {
    var parsed := ParseHeights(raw);
    if parsed.None? {
      return Err("Char is not a decimal digit");
    }
    if !Rectangular(parsed.value) {
      return Err("Index out of bounds");
    }
    var best := MaxScenicScore(parsed.value);
    return Ok(best);
  }
}
