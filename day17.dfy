/**
 * Day 17: rocks of five shapes fall into a chamber seven cells wide. Each
 * rock appears two cells from the left wall with three empty rows between
 * its bottom and the top of the tower, is pushed sideways by the next jet
 * of gas and then falls one row, over and over, until it cannot fall any
 * more and comes to rest. The answer is the height of the tower.
 *
 * The board is a list of rows with row 0 at the top; it grows by adding
 * empty rows in front. Positions are (column, row) with rows counted
 * downwards from the top of the board.
 */
module Day17 {
  import opened Wrappers
  import opened Positions

  const BoardWidth := 7

  type Row = seq<bool>

  /** Every row of the board is exactly as wide as the chamber. */
  predicate ValidRows(rows: seq<Row>) {
    forall r | 0 <= r < |rows| :: |rows[r]| == BoardWidth
  }

  function BlankRow(): Row {
    seq(BoardWidth, _ => false)
  }

  function BlankRows(n: nat): seq<Row> {
    seq(n, _ => BlankRow())
  }

  // ---------------------------------------------------------------------
  // Height of the tower
  // ---------------------------------------------------------------------

  /** The number of rows above the topmost row holding any rock. */
  function FreeRows(rows: seq<Row>): (r: nat)
    ensures r <= |rows|
  {
    if rows == [] || true in rows[0] then 0 else 1 + FreeRows(rows[1..])
  }

  /** `FreeRows` is the index of the first row with a filled cell, or the height. */
  lemma {:induction false} FreeRowsMeaning(rows: seq<Row>)
    ensures forall i | 0 <= i < FreeRows(rows) :: true !in rows[i]
    ensures FreeRows(rows) < |rows| ==> true in rows[FreeRows(rows)]
  {
    if rows != [] && true !in rows[0] {
      FreeRowsMeaning(rows[1..]);
      forall i | 0 <= i < FreeRows(rows)
        ensures true !in rows[i]
      {
        if i > 0 {
          assert rows[i] == rows[1..][i - 1];
        }
      }
    }
  }

  /** Empty rows above `k` make at least `k` free rows. */
  lemma FreeRowsAtLeast(rows: seq<Row>, k: nat)
    requires k <= |rows|
    requires forall i | 0 <= i < k :: true !in rows[i]
    ensures FreeRows(rows) >= k
  {
    FreeRowsMeaning(rows);
  }

  /** A filled cell in row `k` leaves at most `k` free rows. */
  lemma FreeRowsAtMost(rows: seq<Row>, k: nat)
    requires k < |rows| && true in rows[k]
    ensures FreeRows(rows) <= k
  {
    FreeRowsMeaning(rows);
  }

  /** `occupiedHeight`: the height of the tower of settled rock. */
  function TowerHeight(rows: seq<Row>): nat {
    |rows| - FreeRows(rows)
  }

  /** Adding empty rows on top adds as many free rows and leaves the tower alone. */
  lemma {:induction false} AddRowsKeepHeight(rows: seq<Row>, n: nat)
    ensures FreeRows(BlankRows(n) + rows) == n + FreeRows(rows)
    ensures TowerHeight(BlankRows(n) + rows) == TowerHeight(rows)
  {
    if n > 0 {
      AddRowsKeepHeight(rows, n - 1);
      var grown := BlankRows(n) + rows;
      assert grown[0] == BlankRow();
      assert true !in BlankRow();
      assert grown[1..] == BlankRows(n - 1) + rows;
      assert FreeRows(grown) == 1 + FreeRows(grown[1..]);
    } else {
      assert BlankRows(0) + rows == rows;
    }
  }

  // ---------------------------------------------------------------------
  // Rock shapes
  // ---------------------------------------------------------------------

  type Mask = seq<Row>

  /** A rectangular, non-empty picture of a rock; row 0 is its top. */
  predicate ValidMask(mask: Mask) {
    |mask| >= 1 && |mask[0]| >= 1 && forall y | 0 <= y < |mask| :: |mask[y]| == |mask[0]|
  }

  function MaskWidth(mask: Mask): nat
    requires ValidMask(mask)
  {
    |mask[0]|
  }

  /** A rock that fits two cells from the left wall. */
  predicate ValidShape(mask: Mask) {
    ValidMask(mask) && MaskWidth(mask) <= BoardWidth - 2
  }

  /** One row of a rock drawn with `#` for rock and `.` for air. */
  function MaskRow(picture: string): Row {
    seq(|picture|, i requires 0 <= i < |picture| => picture[i] == '#')
  }

  /** The five rocks in the order they fall. */
  const Shapes: seq<Mask> := [
    [MaskRow("####")],
    [MaskRow(".#."), MaskRow("###"), MaskRow(".#.")],
    [MaskRow("..#"), MaskRow("..#"), MaskRow("###")],
    [MaskRow("#"), MaskRow("#"), MaskRow("#"), MaskRow("#")],
    [MaskRow("##"), MaskRow("##")]
  ]

  lemma ShapesValid()
    ensures |Shapes| == 5
    ensures forall k | 0 <= k < |Shapes| :: ValidShape(Shapes[k]) && |Shapes[k]| <= 4
  {
    assert ValidShape(Shapes[0]);
    assert ValidShape(Shapes[1]);
    assert ValidShape(Shapes[2]);
    assert ValidShape(Shapes[3]);
    assert ValidShape(Shapes[4]);
  }

  /** The shape of the rock dropped in round `k + 1`: the five shapes repeat. */
  function ShapeOf(k: nat): (mask: Mask)
    ensures ValidShape(mask) && |mask| <= 4
  {
    ShapesValid();
    Shapes[k % |Shapes|]
  }

  // ---------------------------------------------------------------------
  // Where a rock may be
  // ---------------------------------------------------------------------

  predicate InColumns(mask: Mask, p: Position)
    requires ValidMask(mask)
  {
    0 <= p.x && p.x + MaskWidth(mask) <= BoardWidth
  }

  /** The rock lies wholly on the board (rows are never negative here). */
  predicate OnBoard(rows: seq<Row>, mask: Mask, p: Position) {
    ValidRows(rows) && ValidMask(mask) && 0 <= p.y && InColumns(mask, p) && p.y + |mask| <= |rows|
  }

  /** Some rock cell of the mask lands on a filled cell of the board. */
  predicate OverlapsAt(rows: seq<Row>, mask: Mask, p: Position)
    requires OnBoard(rows, mask, p)
  {
    exists y, x | 0 <= y < |mask| && 0 <= x < MaskWidth(mask) :: mask[y][x] && rows[p.y + y][p.x + x]
  }

  /** `canMove`: inside the seven columns, not past the bottom, and overlapping nothing. */
  predicate Fits(rows: seq<Row>, mask: Mask, p: Position)
    requires ValidRows(rows) && ValidMask(mask)
  {
    0 <= p.y && InColumns(mask, p) && p.y + |mask| <= |rows| && !OverlapsAt(rows, mask, p)
  }

  /** The cell (x, y) of the board is a rock cell of the mask placed at `p`. */
  predicate Covers(mask: Mask, p: Position, x: int, y: int)
    requires ValidMask(mask)
  {
    p.y <= y < p.y + |mask| && p.x <= x < p.x + MaskWidth(mask) && mask[y - p.y][x - p.x]
  }

  /** The board after a rock at `p` comes to rest: its cells are ORed in. */
  function Settled(rows: seq<Row>, mask: Mask, p: Position): (r: seq<Row>)
    requires ValidMask(mask)
  {
    seq(|rows|, y requires 0 <= y < |rows| =>
      seq(|rows[y]|, x requires 0 <= x < |rows[y]| => rows[y][x] || Covers(mask, p, x, y)))
  }

  /** Settling only fills cells: nothing is cleared and nothing outside the rock changes. */
  lemma SettleOnlyAdds(rows: seq<Row>, mask: Mask, p: Position)
    requires OnBoard(rows, mask, p)
    ensures ValidRows(Settled(rows, mask, p)) && |Settled(rows, mask, p)| == |rows|
    ensures forall y, x | 0 <= y < |rows| && 0 <= x < BoardWidth ::
      Settled(rows, mask, p)[y][x] == (rows[y][x] || Covers(mask, p, x, y))
  {
  }

  /**
   * Settling a rock never lowers the tower, and never raises its top above
   * the rock's own top row.
   */
  lemma SettleRaises(rows: seq<Row>, mask: Mask, p: Position)
    requires OnBoard(rows, mask, p)
    ensures FreeRows(Settled(rows, mask, p)) <= FreeRows(rows)
    ensures FreeRows(Settled(rows, mask, p)) >= (if p.y < FreeRows(rows) then p.y else FreeRows(rows))
  {
    var settled := Settled(rows, mask, p);
    var free := FreeRows(rows);
    FreeRowsMeaning(rows);
    if free < |rows| {
      assert rows[free][..] == rows[free];
      var x :| 0 <= x < |rows[free]| && rows[free][x];
      assert settled[free][x];
      FreeRowsAtMost(settled, free);
    }
    var low := if p.y < free then p.y else free;
    forall i | 0 <= i < low
      ensures true !in settled[i]
    {
      assert settled[i] == rows[i];
    }
    FreeRowsAtLeast(settled, low);
  }

  // ---------------------------------------------------------------------
  // One rock falling
  // ---------------------------------------------------------------------

  datatype Placement = Placement(rows: seq<Row>, at: Position)

  /**
   * The rock appears at column 2 with its bottom three rows above the
   * tower; the board first grows on top when it is not tall enough.
   */
  function Place(rows: seq<Row>, mask: Mask): (r: Placement)
    requires ValidRows(rows) && ValidShape(mask)
    ensures ValidRows(r.rows)
  {
    var required := |mask| + 3 + TowerHeight(rows);
    var grown := if required >= |rows| then BlankRows(required - |rows|) + rows else rows;
    Placement(grown, Position(2, |grown| - (|mask| + 3 + TowerHeight(grown))))
  }

  /**
   * The board keeps its rows under any new empty ones and its tower; the
   * rock fits where it appears, with exactly three empty rows between its
   * bottom and the tower.
   */
  lemma PlaceMeaning(rows: seq<Row>, mask: Mask)
    requires ValidRows(rows) && ValidShape(mask)
    ensures var r := Place(rows, mask);
      |r.rows| >= |rows| && r.rows[|r.rows| - |rows|..] == rows &&
      TowerHeight(r.rows) == TowerHeight(rows) &&
      r.at.x == 2 && r.at.y + |mask| + 3 == FreeRows(r.rows) && Fits(r.rows, mask, r.at)
  {
    var required := |mask| + 3 + TowerHeight(rows);
    var added := if required >= |rows| then required - |rows| else 0;
    var r := Place(rows, mask);
    assert r.rows == BlankRows(added) + rows;
    AddRowsKeepHeight(rows, added);
    PlaceFits(r.rows, mask, r.at);
  }

  /** A rock wholly above the tower overlaps nothing. */
  lemma PlaceFits(rows: seq<Row>, mask: Mask, at: Position)
    requires OnBoard(rows, mask, at)
    requires at.y + |mask| <= FreeRows(rows)
    ensures Fits(rows, mask, at)
  {
    FreeRowsMeaning(rows);
    forall y | 0 <= y < |mask|
      ensures forall x | 0 <= x < MaskWidth(mask) :: !(mask[y][x] && rows[at.y + y][at.x + x])
    {
      assert true !in rows[at.y + y];
    }
  }

  /** The column a jet would push the rock to. */
  function Shifted(p: Position, jet: char): Position {
    if jet == '<' then Position(p.x - 1, p.y)
    else if jet == '>' then Position(p.x + 1, p.y)
    else p
  }

  /** A jet moves the rock one column when the rock fits there, and otherwise leaves it. */
  function Push(rows: seq<Row>, mask: Mask, p: Position, jet: char): (r: Position)
    requires ValidRows(rows) && ValidMask(mask)
    ensures r.y == p.y
    ensures Fits(rows, mask, p) ==> Fits(rows, mask, r)
  {
    if Fits(rows, mask, Shifted(p, jet)) then Shifted(p, jet) else p
  }

  function Below(p: Position): Position {
    Position(p.x, p.y + 1)
  }

  /** Where a rock comes to rest, and the index of the jet after its last push. */
  datatype Landing = Landing(at: Position, nextJet: nat)

  /**
   * The rock is pushed by jet `j` (the jets repeat), then falls a row if it
   * fits. It comes to rest no higher than it started, where it cannot fall,
   * and still fitting if it fitted, having used at least one jet.
   */
  function Fall(rows: seq<Row>, mask: Mask, p: Position, jets: seq<char>, j: nat): (r: Landing)
    requires ValidRows(rows) && ValidMask(mask) && |jets| > 0
    ensures r.at.y >= p.y && r.nextJet > j
    ensures !Fits(rows, mask, Below(r.at))
    ensures Fits(rows, mask, p) ==> Fits(rows, mask, r.at)
    decreases |rows| - p.y
  {
    var pushed := Push(rows, mask, p, jets[j % |jets|]);
    if Fits(rows, mask, Below(pushed)) then Fall(rows, mask, Below(pushed), jets, j + 1)
    else Landing(pushed, j + 1)
  }

  /**
   * A rock that cannot fall further rests on the floor or on the tower: its
   * bottom row reaches down to the tower's top.
   */
  lemma StuckRestsOnTower(rows: seq<Row>, mask: Mask, p: Position)
    requires ValidRows(rows) && ValidMask(mask) && Fits(rows, mask, p)
    requires !Fits(rows, mask, Below(p))
    ensures p.y + |mask| >= FreeRows(rows)
  {
    var q := Below(p);
    if q.y + |mask| <= |rows| {
      var y, x :| 0 <= y < |mask| && 0 <= x < MaskWidth(mask) && mask[y][x] && rows[q.y + y][q.x + x];
      assert rows[q.y + y][q.x + x] in rows[q.y + y];
      FreeRowsAtMost(rows, q.y + y);
    }
  }

  /** The rock comes to rest touching the tower or the floor. */
  lemma {:induction false} FallLands(rows: seq<Row>, mask: Mask, p: Position, jets: seq<char>, j: nat)
    requires ValidRows(rows) && ValidMask(mask) && Fits(rows, mask, p)
    requires |jets| > 0
    ensures Fall(rows, mask, p, jets, j).at.y + |mask| >= FreeRows(rows)
    decreases |rows| - p.y
  {
    var pushed := Push(rows, mask, p, jets[j % |jets|]);
    if Fits(rows, mask, Below(pushed)) {
      FallLands(rows, mask, Below(pushed), jets, j + 1);
    } else {
      StuckRestsOnTower(rows, mask, pushed);
    }
  }

  /** The board and the index of the next jet between rocks. */
  datatype State = State(rows: seq<Row>, nextJet: nat)

  /** One round: place the rock, let it fall, and settle it. */
  function DropRock(s: State, mask: Mask, jets: seq<char>): (r: State)
    requires ValidRows(s.rows) && ValidShape(mask) && |jets| > 0
    ensures ValidRows(r.rows)
  {
    var placed := Place(s.rows, mask);
    var landing := Fall(placed.rows, mask, placed.at, jets, s.nextJet);
    State(Settled(placed.rows, mask, landing.at), landing.nextJet)
  }

  /** A rock never lowers the tower and raises it by at most its own height. */
  lemma RoundHeight(s: State, mask: Mask, jets: seq<char>)
    requires ValidRows(s.rows) && ValidShape(mask) && |jets| > 0
    ensures TowerHeight(s.rows) <= TowerHeight(DropRock(s, mask, jets).rows) <= TowerHeight(s.rows) + |mask|
    ensures DropRock(s, mask, jets).nextJet > s.nextJet
  {
    var placed := Place(s.rows, mask);
    var landing := Fall(placed.rows, mask, placed.at, jets, s.nextJet);
    PlaceMeaning(s.rows, mask);
    FallLands(placed.rows, mask, placed.at, jets, s.nextJet);
    SettleRaises(placed.rows, mask, landing.at);
    SettleOnlyAdds(placed.rows, mask, landing.at);
  }

  /** `simulate`: the board after `rounds` rocks, the shapes taken in cyclic order. */
  function Run(jets: seq<char>, rounds: nat): (s: State)
    requires |jets| > 0
    ensures ValidRows(s.rows)
  {
    if rounds == 0 then State(BlankRows(4), 0)
    else DropRock(Run(jets, rounds - 1), ShapeOf(rounds - 1), jets)
  }

  /** The tower never shrinks: it is at least as tall after `n` rounds as after `m <= n`. */
  lemma RunGrows(jets: seq<char>, m: nat, n: nat)
    requires |jets| > 0 && m <= n
    ensures TowerHeight(Run(jets, m).rows) <= TowerHeight(Run(jets, n).rows)
    decreases n
  {
    if m != n {
      RunGrows(jets, m, n - 1);
      RunStep(jets, n);
    }
  }

  /** Each rock raises the tower by at most four rows. */
  lemma RunBound(jets: seq<char>, n: nat)
    requires |jets| > 0
    ensures TowerHeight(Run(jets, n).rows) <= 4 * n
  {
    if n == 0 {
      AddRowsKeepHeight([], 4);
      assert BlankRows(4) + [] == BlankRows(4);
    } else {
      RunBound(jets, n - 1);
      RunStep(jets, n);
    }
  }

  /** Each rock uses at least one jet. */
  lemma RunUsesJets(jets: seq<char>, n: nat)
    requires |jets| > 0
    ensures Run(jets, n).nextJet >= n
  {
    if n > 0 {
      RunUsesJets(jets, n - 1);
      RunStep(jets, n);
    }
  }

  /** Round `n` drops shape `(n - 1) mod 5` onto the board left by round `n - 1`. */
  lemma RunUnfold(jets: seq<char>, n: nat)
    requires |jets| > 0 && n >= 1
    ensures Run(jets, n) == DropRock(Run(jets, n - 1), ShapeOf(n - 1), jets)
  {
  }

  lemma RunStep(jets: seq<char>, n: nat)
    requires |jets| > 0 && n >= 1
    ensures TowerHeight(Run(jets, n - 1).rows) <= TowerHeight(Run(jets, n).rows) <= TowerHeight(Run(jets, n - 1).rows) + 4
    ensures Run(jets, n).nextJet > Run(jets, n - 1).nextJet
  {
    RunUnfold(jets, n);
    RoundHeight(Run(jets, n - 1), ShapeOf(n - 1), jets);
  }

  // ---------------------------------------------------------------------
  // The board and the falling block
  // ---------------------------------------------------------------------

  /** The chamber: a deque of rows, row 0 on top. */
  class Board {
    var rows: seq<Row>

    predicate Valid()
      reads this
    {
      ValidRows(rows)
    }

    constructor()
      ensures rows == []
    {
      rows := [];
    }

    /** `addTopRows`: pushes empty rows in front, one at a time. */
    method AddTopRows(rowCount: int)
      modifies this
      ensures rows == BlankRows(if rowCount < 0 then 0 else rowCount) + old(rows)
    {
      var row := 0;
      while row < rowCount
        invariant 0 <= row && (row <= rowCount || row == 0)
        invariant rows == BlankRows(row) + old(rows)
      {
        rows := [BlankRow()] + rows;
        row := row + 1;
        assert BlankRows(row) == [BlankRow()] + BlankRows(row - 1);
      }
    }

    /** `freeRowsFromTop`: the index of the first row with a filled cell, or the height. */
    method FreeRowsFromTop() returns (r: nat)
      ensures r == FreeRows(rows)
    {
      FreeRowsMeaning(rows);
      var row := 0;
      while row < |rows|
        invariant row <= |rows|
        invariant forall i | 0 <= i < row :: true !in rows[i]
      {
        if true in rows[row] {
          FreeRowsAtLeast(rows, row);
          FreeRowsAtMost(rows, row);
          return row;
        }
        row := row + 1;
      }
      FreeRowsAtLeast(rows, row);
      return |rows|;
    }

    /** `occupiedHeight`: the height minus the free rows on top. */
    method OccupiedHeight() returns (h: int)
      ensures h == TowerHeight(rows)
    {
      var free := FreeRowsFromTop();
      h := |rows| - free;
    }
  }

  /** A rock: its fixed mask and its current position on the board. */
  class Block {
    const mask: Mask
    var position: Position

    constructor(mask: Mask)
      ensures this.mask == mask && position == Position(0, 0)
    {
      this.mask := mask;
      position := Position(0, 0);
    }

    function Width(): nat
      requires ValidMask(mask)
    {
      MaskWidth(mask)
    }

    function Height(): nat {
      |mask|
    }

    /** `overlapsWithAnythingAt`: scans the mask row by row for a clash. */
    method OverlapsWithAnythingAt(board: Board, newPosition: Position) returns (r: bool)
      requires OnBoard(board.rows, mask, newPosition)
      ensures r == OverlapsAt(board.rows, mask, newPosition)
    {
      var y := 0;
      while y < |mask|
        invariant y <= |mask|
        invariant forall y', x' | 0 <= y' < y && 0 <= x' < MaskWidth(mask) ::
          !(mask[y'][x'] && board.rows[newPosition.y + y'][newPosition.x + x'])
      {
        var x := 0;
        while x < |mask[0]|
          invariant x <= |mask[0]|
          invariant forall y', x' | 0 <= y' < y && 0 <= x' < MaskWidth(mask) ::
            !(mask[y'][x'] && board.rows[newPosition.y + y'][newPosition.x + x'])
          invariant forall x' | 0 <= x' < x ::
            !(mask[y][x'] && board.rows[newPosition.y + y][newPosition.x + x'])
        {
          if board.rows[newPosition.y + y][newPosition.x + x] && mask[y][x] {
            return true;
          }
          x := x + 1;
        }
        y := y + 1;
      }
      return false;
    }

    /** `canMove`: false when the rock would leave the columns, pass the bottom, or overlap. */
    method CanMove(board: Board, newPosition: Position) returns (r: bool)
      requires board.Valid() && ValidMask(mask) && 0 <= newPosition.y
      ensures r == Fits(board.rows, mask, newPosition)
    {
      if newPosition.x < 0 || newPosition.x + Width() > BoardWidth {
        return false;
      }
      if newPosition.y + Height() > |board.rows| {
        return false;
      }
      var overlaps := OverlapsWithAnythingAt(board, newPosition);
      return !overlaps;
    }

    /** `move`: takes the new position only when the rock fits there, and says whether it moved. */
    method Move(board: Board, newPosition: Position) returns (moved: bool)
      requires board.Valid() && ValidMask(mask) && 0 <= newPosition.y
      modifies this
      ensures moved == Fits(board.rows, mask, newPosition)
      ensures position == if moved then newPosition else old(position)
    {
      var can := CanMove(board, newPosition);
      if !can {
        return false;
      }
      position := newPosition;
      return true;
    }

    method MoveLeft(board: Board) returns (moved: bool)
      requires board.Valid() && ValidMask(mask) && 0 <= position.y
      modifies this
      ensures moved == Fits(board.rows, mask, Position(old(position).x - 1, old(position).y))
      ensures position == if moved then Position(old(position).x - 1, old(position).y) else old(position)
    {
      moved := Move(board, Position(position.x - 1, position.y));
    }

    method MoveRight(board: Board) returns (moved: bool)
      requires board.Valid() && ValidMask(mask) && 0 <= position.y
      modifies this
      ensures moved == Fits(board.rows, mask, Position(old(position).x + 1, old(position).y))
      ensures position == if moved then Position(old(position).x + 1, old(position).y) else old(position)
    {
      moved := Move(board, Position(position.x + 1, position.y));
    }

    /** The steam gust: `<` tries a move left, `>` a move right, anything else does nothing. */
    method Gust(board: Board, jet: char)
      requires board.Valid() && ValidMask(mask) && 0 <= position.y
      modifies this
      ensures position == Push(board.rows, mask, old(position), jet)
    {
      var pushed;
      if jet == '<' {
        pushed := MoveLeft(board);
      } else if jet == '>' {
        pushed := MoveRight(board);
      }
    }

    method MoveDown(board: Board) returns (moved: bool)
      requires board.Valid() && ValidMask(mask) && 0 <= position.y
      modifies this
      ensures moved == Fits(board.rows, mask, Below(old(position)))
      ensures position == if moved then Below(old(position)) else old(position)
    {
      moved := Move(board, Below(position));
    }

    /** `settleOn`: ORs every cell of the mask into the board at the rock's position. */
    method SettleOn(board: Board)
      requires OnBoard(board.rows, mask, position)
      modifies board
      ensures board.rows == Settled(old(board.rows), mask, position)
    {
      ghost var before := board.rows;
      var y := 0;
      while y < |mask|
        invariant y <= |mask|
        invariant |board.rows| == |before| && ValidRows(board.rows)
        invariant forall r, c | 0 <= r < |before| && 0 <= c < BoardWidth ::
          board.rows[r][c] == (before[r][c] || (Covers(mask, position, c, r) && r < position.y + y))
      {
        var x := 0;
        while x < |mask[0]|
          invariant x <= |mask[0]|
          invariant |board.rows| == |before| && ValidRows(board.rows)
          invariant forall r, c | 0 <= r < |before| && 0 <= c < BoardWidth ::
            board.rows[r][c] == (before[r][c] || (Covers(mask, position, c, r) &&
              (r < position.y + y || (r == position.y + y && c < position.x + x))))
        {
          var row := board.rows[position.y + y];
          board.rows := board.rows[position.y + y := row[position.x + x := row[position.x + x] || mask[y][x]]];
          x := x + 1;
        }
        y := y + 1;
      }
      assert forall r | 0 <= r < |before| :: board.rows[r] == Settled(before, mask, position)[r];
    }
  }

  // ---------------------------------------------------------------------
  // The simulation
  // ---------------------------------------------------------------------

  /** Places the block at column 2 with three empty rows below it, growing the board first when needed. */
  method PlaceBlock(board: Board, block: Block)
    requires board.Valid() && ValidShape(block.mask)
    modifies board, block
    ensures board.Valid()
    ensures Placement(board.rows, block.position) == Place(old(board.rows), block.mask)
  {
    ghost var placed := Place(board.rows, block.mask);
    var occupied := board.OccupiedHeight();
    var requiredHeight := block.Height() + 3 + occupied;
    if requiredHeight >= |board.rows| {
      board.AddTopRows(requiredHeight - |board.rows|);
    }
    assert board.rows == placed.rows;
    occupied := board.OccupiedHeight();
    block.position := Position(2, |board.rows| - (block.Height() + 3 + occupied));
  }

  /**
   * Alternates jet pushes and one-row falls until the block cannot fall,
   * then settles it on the board.
   */
  method FallBlock(board: Board, block: Block, jets: seq<char>, firstJet: nat) returns (nextJet: nat)
    requires board.Valid() && ValidMask(block.mask) && |jets| > 0
    requires Fits(board.rows, block.mask, block.position)
    modifies board, block
    ensures board.Valid()
    ensures var landing := Fall(old(board.rows), block.mask, old(block.position), jets, firstJet);
      nextJet == landing.nextJet && board.rows == Settled(old(board.rows), block.mask, landing.at)
  {
    ghost var rows := board.rows;
    ghost var landing := Fall(rows, block.mask, block.position, jets, firstJet);
    FallLands(rows, block.mask, block.position, jets, firstJet);
    nextJet := firstJet;
    while true
      invariant board.rows == rows && board.Valid()
      invariant Fits(rows, block.mask, block.position)
      invariant Fall(rows, block.mask, block.position, jets, nextJet) == landing
      decreases |rows| - block.position.y
    {
      var jet := jets[nextJet % |jets|];
      ghost var pushedTo := Push(rows, block.mask, block.position, jet);
      assert Fall(rows, block.mask, block.position, jets, nextJet) ==
        if Fits(rows, block.mask, Below(pushedTo)) then Fall(rows, block.mask, Below(pushedTo), jets, nextJet + 1)
        else Landing(pushedTo, nextJet + 1);
      nextJet := nextJet + 1;
      block.Gust(board, jet);
      var fell := block.MoveDown(board);
      if !fell {
        assert landing == Landing(block.position, nextJet);
        block.SettleOn(board);
        SettleOnlyAdds(rows, block.mask, landing.at);
        return;
      }
    }
  }

  /** One round of `simulate`: place the block, let it fall, and settle it. */
  method DropBlock(board: Board, block: Block, jets: seq<char>, firstJet: nat) returns (nextJet: nat)
    requires board.Valid() && ValidShape(block.mask) && |jets| > 0
    modifies board, block
    ensures board.Valid()
    ensures State(board.rows, nextJet) == DropRock(State(old(board.rows), firstJet), block.mask, jets)
  {
    PlaceMeaning(board.rows, block.mask);
    PlaceBlock(board, block);
    nextJet := FallBlock(board, block, jets, firstJet);
  }

  /**
   * `simulate`: an empty board of four rows, then `iterationCount` rocks;
   * the result is the height of the tower.
   */
  method Simulate(jets: seq<char>, iterationCount: int) returns (height: int)
    requires |jets| > 0
    ensures height == TowerHeight(Run(jets, if iterationCount < 0 then 0 else iterationCount).rows)
  {
    var board := new Board();
    board.AddTopRows(4);
    var start := board.OccupiedHeight();
    AddRowsKeepHeight([], 4);
    assert start == 0;
    assert BlankRows(4) + [] == BlankRows(4);
    ghost var rounds: nat := if iterationCount < 0 then 0 else iterationCount;
    var nextJet := 0;
    var round := 1;
    while round <= iterationCount
      invariant 1 <= round <= rounds + 1
      invariant board.Valid() && State(board.rows, nextJet) == Run(jets, round - 1)
    {
      RunUnfold(jets, round);
      var block := new Block(ShapeOf(round - 1));
      nextJet := DropBlock(board, block, jets, nextJet);
      assert State(board.rows, nextJet) == Run(jets, round);
      round := round + 1;
    }
    assert round - 1 == rounds;
    height := board.OccupiedHeight();
  }

  /**
   * Part 1: the tower after 2022 rocks, with the jets taken from the first
   * line. An empty input fails like `first()` does; an empty first line is
   * excluded because the source would then wait forever for a jet.
   */
  method Part1(rawInput: seq<string>) returns (r: Result<int>)
    requires rawInput != [] ==> rawInput[0] != []
    ensures r.Err? <==> rawInput == []
    ensures r.Ok? ==> r.value == TowerHeight(Run(rawInput[0], 2022).rows)
  {
    if rawInput == [] {
      return Err("NoSuchElementException");
    }
    var height := Simulate(rawInput[0], 2022);
    return Ok(height);
  }
}
