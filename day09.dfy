/**
 * Day 9: a rope of knots on an unbounded grid. The head is moved one
 * cell at a time, every other knot follows the knot in front of it, and
 * the simulation remembers every cell the tail has visited.
 */
module Day09 {
  import opened Wrappers
  import opened Text

  // ---------------------------------------------------------------------
  // Positions and moves
  // ---------------------------------------------------------------------

  datatype Offset = Offset(x: int, y: int)

  datatype Direction = Up | Down | Left | Right

  /** The unit offset of each direction; `y` grows upwards. */
  function OffsetOf(d: Direction): (o: Offset)
    ensures Abs(o.x) + Abs(o.y) == 1
  {
    match d
    case Up => Offset(0, 1)
    case Down => Offset(0, -1)
    case Left => Offset(-1, 0)
    case Right => Offset(1, 0)
  }

  datatype Knot = Knot(x: int, y: int)

  function Abs(v: int): nat {
    if v < 0 then -v else v
  }

  /** `coerceIn(-1, 1)`. */
  function Clamp(v: int): (r: int)
    ensures -1 <= r <= 1
    ensures v <= -1 ==> r == -1
    ensures v >= 1 ==> r == 1
    ensures -1 <= v <= 1 ==> r == v
  {
    if v < -1 then -1 else if v > 1 then 1 else v
  }

  /** Chebyshev distance: the larger of the two coordinate gaps. */
  function Gap(a: Knot, b: Knot): nat {
    if Abs(a.x - b.x) < Abs(a.y - b.y) then Abs(a.y - b.y) else Abs(a.x - b.x)
  }

  /** Two knots touch when they share a cell or are adjacent, diagonals included. */
  function Touches(a: Knot, b: Knot): (t: bool)
    ensures t <==> Gap(a, b) <= 1
  {
    Abs(a.x - b.x) <= 1 && Abs(a.y - b.y) <= 1
  }

  /** Touching does not depend on which knot is asked. */
  lemma TouchesSymmetric(a: Knot, b: Knot)
    ensures Touches(a, b) <==> Touches(b, a)
  {
  }

  function Plus(k: Knot, o: Offset): (r: Knot)
    ensures r.x - k.x == o.x && r.y - k.y == o.y
  {
    Knot(k.x + o.x, k.y + o.y)
  }

  /** A move shifts exactly one coordinate by exactly one. */
  function Move(k: Knot, d: Direction): (r: Knot)
    ensures Gap(r, k) == 1
    ensures Abs(r.x - k.x) + Abs(r.y - k.y) == 1
  {
    Plus(k, OffsetOf(d))
  }

  /**
   * A knot that no longer touches its target steps towards it by at most
   * one cell per coordinate; a touching knot stays put. In terms of the
   * distance to the target: a knot that moves closes the gap by one.
   */
  function Follow(k: Knot, target: Knot): (r: Knot)
    ensures r == k <==> Touches(k, target)
    ensures Gap(r, k) <= 1
    ensures !Touches(k, target) ==> Gap(r, target) == Gap(k, target) - 1
    ensures Gap(k, target) <= 2 ==> Touches(r, target)
  {
    if Touches(k, target) then k
    else Knot(k.x + Clamp(target.x - k.x), k.y + Clamp(target.y - k.y))
  }

  /** Moving one of two knots by at most one cell changes their gap by at most one. */
  lemma GapTriangle(a: Knot, a': Knot, b: Knot)
    requires Gap(a, a') <= 1
    ensures Gap(a', b) <= Gap(a, b) + 1
  {
  }

  // ---------------------------------------------------------------------
  // The rope as a value
  // ---------------------------------------------------------------------

  /** Every knot touches the knot in front of it. */
  ghost predicate Chain(rope: seq<Knot>) {
    forall i | 1 <= i < |rope| :: Touches(rope[i], rope[i - 1])
  }

  /** Knots `k`, `k + 1`, … in turn follow the knot in front of them. */
  function Pull(rope: seq<Knot>, k: nat): (r: seq<Knot>)
    requires 1 <= k <= |rope|
    ensures |r| == |rope|
    ensures r[..k] == rope[..k]
    decreases |rope| - k
  {
    if k == |rope| then rope
    else Pull(rope[k := Follow(rope[k], rope[k - 1])], k + 1)
  }

  /** One step of `moveRope`: the head moves, then the rest follow. */
  function Step(rope: seq<Knot>, d: Direction): (r: seq<Knot>)
    requires |rope| >= 1
    ensures |r| == |rope|
    ensures r[0] == Move(rope[0], d)
  {
    Pull(rope[0 := Move(rope[0], d)], 1)
  }

  /**
   * Pulling from knot `k` restores the chain when everything before `k`
   * already touches, knot `k` is at most two cells from its leader, and
   * everything after `k` still touches as before.
   */
  lemma {:induction false} PullChain(rope: seq<Knot>, k: nat)
    requires 1 <= k <= |rope|
    requires forall i | 1 <= i < k :: Touches(rope[i], rope[i - 1])
    requires k < |rope| ==> Gap(rope[k], rope[k - 1]) <= 2
    requires forall i | k < i < |rope| :: Touches(rope[i], rope[i - 1])
    ensures Chain(Pull(rope, k))
    decreases |rope| - k
  {
    if k < |rope| {
      FollowOne(rope, k);
      PullChain(rope[k := Follow(rope[k], rope[k - 1])], k + 1);
    }
  }

  /** One knot of `PullChain`: after knot `k` follows, the same holds from `k + 1`. */
  lemma FollowOne(rope: seq<Knot>, k: nat)
    requires 1 <= k < |rope|
    requires forall i | 1 <= i < k :: Touches(rope[i], rope[i - 1])
    requires Gap(rope[k], rope[k - 1]) <= 2
    requires forall i | k < i < |rope| :: Touches(rope[i], rope[i - 1])
    ensures var next := rope[k := Follow(rope[k], rope[k - 1])];
      && (forall i | 1 <= i < k + 1 :: Touches(next[i], next[i - 1]))
      && (k + 1 < |rope| ==> Gap(next[k + 1], next[k]) <= 2)
      && (forall i | k + 1 < i < |rope| :: Touches(next[i], next[i - 1]))
  {
    var next := rope[k := Follow(rope[k], rope[k - 1])];
    if k + 1 < |rope| {
      GapTriangle(rope[k], next[k], rope[k + 1]);
      assert Gap(next[k], next[k + 1]) == Gap(next[k + 1], next[k]);
    }
  }

  /** A step keeps every knot touching the knot in front of it. */
  lemma StepKeepsChain(rope: seq<Knot>, d: Direction)
    requires |rope| >= 1 && Chain(rope)
    ensures Chain(Step(rope, d))
  {
    var moved := rope[0 := Move(rope[0], d)];
    if |rope| > 1 {
      assert Gap(rope[0], moved[0]) == Gap(moved[0], rope[0]);
      GapTriangle(rope[0], moved[0], rope[1]);
      assert Gap(moved[1], moved[0]) == Gap(moved[0], moved[1]);
    }
    PullChain(moved, 1);
  }

  function Last(rope: seq<Knot>): Knot
    requires |rope| >= 1
  {
    rope[|rope| - 1]
  }

  /**
   * `steps` steps in one direction: the final rope and the tail's
   * position after each step.
   */
  function Walk(rope: seq<Knot>, d: Direction, steps: int): (r: (seq<Knot>, set<Knot>))
    requires |rope| >= 1
    ensures |r.0| == |rope|
    ensures steps <= 0 ==> r == (rope, {})
    ensures steps > 0 ==> Last(r.0) in r.1 && |r.1| <= steps
    decreases steps
  {
    if steps <= 0 then (rope, {})
    else
      var (before, seen) := Walk(rope, d, steps - 1);
      var after := Step(before, d);
      (after, seen + {Last(after)})
  }

  /** A walk keeps every knot touching the knot in front of it. */
  lemma {:induction false} WalkChain(rope: seq<Knot>, d: Direction, steps: int)
    requires |rope| >= 1 && Chain(rope)
    ensures Chain(Walk(rope, d, steps).0)
    decreases steps
  {
    if steps > 0 {
      WalkChain(rope, d, steps - 1);
      StepKeepsChain(Walk(rope, d, steps - 1).0, d);
    }
  }

  /** One more step extends a walk by one step of the rope and one tail cell. */
  lemma WalkStep(rope: seq<Knot>, d: Direction, steps: nat)
    requires |rope| >= 1
    ensures Walk(rope, d, steps + 1).0 == Step(Walk(rope, d, steps).0, d)
    ensures Walk(rope, d, steps + 1).1 == Walk(rope, d, steps).1 + {Last(Walk(rope, d, steps + 1).0)}
  {
  }

  datatype Movement = Movement(direction: Direction, steps: int)

  /**
   * Every movement in turn: the final rope and every cell the tail visited
   * on the way, at most one new cell per step.
   */
  function RunAll(rope: seq<Knot>, movements: seq<Movement>): (r: (seq<Knot>, set<Knot>))
    requires |rope| >= 1
    ensures |r.0| == |rope|
    ensures |r.1| <= TotalSteps(movements)
  {
    if movements == [] then (rope, {})
    else
      var (before, seen) := RunAll(rope, movements[..|movements| - 1]);
      var m := movements[|movements| - 1];
      var (after, visited) := Walk(before, m.direction, m.steps);
      UnionSize(seen, visited);
      (after, seen + visited)
  }

  /** The total number of single steps in a list of movements. */
  function TotalSteps(movements: seq<Movement>): nat {
    if movements == [] then 0
    else
      var m := movements[|movements| - 1];
      TotalSteps(movements[..|movements| - 1]) + (if m.steps < 0 then 0 else m.steps)
  }

  /** A run keeps the rope a chain. */
  lemma {:induction false} RunAllChain(rope: seq<Knot>, movements: seq<Movement>)
    requires |rope| >= 1 && Chain(rope)
    ensures Chain(RunAll(rope, movements).0)
  {
    if movements != [] {
      var init := movements[..|movements| - 1];
      var m := movements[|movements| - 1];
      RunAllChain(rope, init);
      WalkChain(RunAll(rope, init).0, m.direction, m.steps);
    }
  }

  lemma {:induction false} UnionSize<T>(a: set<T>, b: set<T>)
    ensures |a + b| <= |a| + |b|
    decreases |b|
  {
    if b != {} {
      var x :| x in b;
      UnionSize(a, b - {x});
      assert a + b == (a + (b - {x})) + {x};
    }
  }

  /** The starting rope: every knot at the origin. */
  function Start(ropeKnots: nat): (r: seq<Knot>)
    ensures |r| == ropeKnots
  {
    seq(ropeKnots, _ => Knot(0, 0))
  }

  lemma StartIsChain(ropeKnots: nat)
    ensures Chain(Start(ropeKnots))
  {
  }

  // ---------------------------------------------------------------------
  // The simulation object
  // ---------------------------------------------------------------------

  class Simulation {
    const rope: array<Knot>
    var uniqueTailPositions: set<Knot>

    ghost predicate Valid()
      reads this, rope
    {
      rope.Length >= 1 && Chain(rope[..]) && Knot(0, 0) in uniqueTailPositions
      && rope[rope.Length - 1] in uniqueTailPositions
    }

    /** A rope of `ropeKnots` knots at the origin; the tail's cell is already visited. */
    constructor(ropeKnots: nat)
      requires ropeKnots >= 1
      ensures Valid() && fresh(rope)
      ensures rope[..] == Start(ropeKnots)
      ensures uniqueTailPositions == {Knot(0, 0)}
    {
      rope := new Knot[ropeKnots](_ => Knot(0, 0));
      new;
      uniqueTailPositions := {rope[rope.Length - 1]};
      assert rope[..] == Start(ropeKnots);
    }

    /** One step of `moveRope`'s outer loop. */
    method StepOnce(d: Direction)
      requires rope.Length >= 1
      modifies this, rope
      ensures rope[..] == Step(old(rope[..]), d)
      ensures uniqueTailPositions == old(uniqueTailPositions) + {rope[rope.Length - 1]}
    {
      rope[0] := Move(rope[0], d);
      ghost var moved := rope[..];
      var knotId := 1;
      while knotId < rope.Length
        invariant 1 <= knotId <= rope.Length
        invariant Pull(rope[..], knotId) == Pull(moved, 1)
        invariant uniqueTailPositions == old(uniqueTailPositions)
      {
        rope[knotId] := Follow(rope[knotId], rope[knotId - 1]);
        knotId := knotId + 1;
      }
      uniqueTailPositions := uniqueTailPositions + {rope[rope.Length - 1]};
    }

    /**
     * The simulation stands `step` steps into a walk from `start`, having
     * seen `seen` before the walk began.
     */
    ghost predicate Walked(start: seq<Knot>, seen: set<Knot>, direction: Direction, step: nat)
      reads this, rope
    {
      Valid() && |start| >= 1 && Chain(start)
      && rope[..] == Walk(start, direction, step).0
      && uniqueTailPositions == seen + Walk(start, direction, step).1
    }

    /** One pass of `moveRope`'s loop: the walk from `start` grows by one step. */
    method Advance(ghost start: seq<Knot>, ghost seen: set<Knot>, direction: Direction, step: nat)
      requires Walked(start, seen, direction, step)
      modifies this, rope
      ensures Walked(start, seen, direction, step + 1)
    {
      StepOnce(direction);
      WalkStep(start, direction, step);
      WalkChain(start, direction, step + 1);
    }

    /** `moveRope`: `steps` single steps, recording the tail after each. */
    method MoveRope(direction: Direction, steps: int)
      requires Valid()
      modifies this, rope
      ensures Valid()
      ensures rope[..] == Walk(old(rope[..]), direction, steps).0
      ensures uniqueTailPositions == old(uniqueTailPositions) + Walk(old(rope[..]), direction, steps).1
    {
      ghost var start := rope[..];
      var step := 0;
      while step < steps
        invariant 0 <= step <= (if steps < 0 then 0 else steps)
        invariant Walked(start, old(uniqueTailPositions), direction, step)
      {
        Advance(start, old(uniqueTailPositions), direction, step);
        step := step + 1;
      }
      if steps <= 0 {
        assert step == 0;
        assert Walk(start, direction, steps) == (start, {});
      }
    }

    /** `run`: every movement in order. */
    method Run(movements: seq<Movement>)
      requires Valid()
      modifies this, rope
      ensures Valid()
      ensures rope[..] == RunAll(old(rope[..]), movements).0
      ensures uniqueTailPositions == old(uniqueTailPositions) + RunAll(old(rope[..]), movements).1
    {
      ghost var start := rope[..];
      var i := 0;
      while i < |movements|
        invariant 0 <= i <= |movements| && Valid()
        invariant rope[..] == RunAll(start, movements[..i]).0
        invariant uniqueTailPositions == old(uniqueTailPositions) + RunAll(start, movements[..i]).1
      {
        MoveRope(movements[i].direction, movements[i].steps);
        assert movements[..i + 1][..i] == movements[..i];
        i := i + 1;
      }
      assert movements[..i] == movements;
    }
  }

  // ---------------------------------------------------------------------
  // Input
  // ---------------------------------------------------------------------

  /** `toDirection`: one letter per direction; anything else is rejected. */
  function ToDirection(s: string): (r: Result<Direction>)
    ensures r.Ok? <==> s in {"U", "D", "L", "R"}
  {
    if s == "U" then Ok(Up)
    else if s == "D" then Ok(Down)
    else if s == "L" then Ok(Left)
    else if s == "R" then Ok(Right)
    else Err("Invalid direction: " + s)
  }

  function Letter(d: Direction): string {
    match d
    case Up => "U"
    case Down => "D"
    case Left => "L"
    case Right => "R"
  }

  /** A line `<direction> <steps>`: direction before the first space, count after it. */
  function ParseMovement(line: string): (r: Result<Movement>)
    ensures r.Ok? <==>
      ToDirection(SubstringBefore(line, " ")).Ok? && ParseInt(SubstringAfter(line, " ")).Some?
    ensures r.Ok? ==>
      ToDirection(SubstringBefore(line, " ")) == Ok(r.value.direction)
      && ParseInt(SubstringAfter(line, " ")) == Some(r.value.steps)
  {
    match ToDirection(SubstringBefore(line, " "))
    case Err(e) => Err(e)
    case Ok(d) =>
      match ParseInt(SubstringAfter(line, " "))
      case None => Err("Invalid step count: " + SubstringAfter(line, " "))
      case Some(n) => Ok(Movement(d, n))
  }

  function Render(m: Movement): string {
    Letter(m.direction) + " " + IntToString(m.steps)
  }

  /** Every movement whose count fits an `Int` is read back from its line. */
  lemma ParseRender(m: Movement)
    requires MinInt <= m.steps <= MaxInt
    ensures ParseMovement(Render(m)) == Ok(m)
  {
    SubstringsAround(Letter(m.direction), ' ', IntToString(m.steps));
    assert Render(m) == Letter(m.direction) + [' '] + IntToString(m.steps);
    ParseIntRoundTrip(m.steps);
  }

  /** `toMovementList`: the first unreadable line aborts the whole list. */
  function ToMovementList(lines: seq<string>): (r: Result<seq<Movement>>)
    ensures r.Ok? <==> forall i | 0 <= i < |lines| :: ParseMovement(lines[i]).Ok?
    ensures r.Ok? ==> |r.value| == |lines|
    ensures r.Ok? ==> forall i | 0 <= i < |lines| :: r.value[i] == ParseMovement(lines[i]).value
  {
    if lines == [] then Ok([])
    else
      match ParseMovement(lines[0])
      case Err(e) => Err(e)
      case Ok(m) =>
        match ToMovementList(lines[1..])
        case Err(e) => Err(e)
        case Ok(rest) => Ok([m] + rest)
  }

  // ---------------------------------------------------------------------
  // Answers
  // ---------------------------------------------------------------------

  /** Cells the tail of a `ropeKnots`-knot rope visits, the origin included. */
  function TailCells(ropeKnots: nat, movements: seq<Movement>): set<Knot>
    requires ropeKnots >= 1
  {
    {Knot(0, 0)} + RunAll(Start(ropeKnots), movements).1
  }

  /** The tail visits at least the origin and at most one new cell per step. */
  lemma TailCellsBounds(ropeKnots: nat, movements: seq<Movement>)
    requires ropeKnots >= 1
    ensures Knot(0, 0) in TailCells(ropeKnots, movements)
    ensures 1 <= |TailCells(ropeKnots, movements)| <= 1 + TotalSteps(movements)
  {
    UnionSize({Knot(0, 0)}, RunAll(Start(ropeKnots), movements).1);
  }

  method CountTailCells(ropeKnots: nat, movements: seq<Movement>) returns (count: nat)
    requires ropeKnots >= 1
    ensures count == |TailCells(ropeKnots, movements)|
  {
    var simulation := new Simulation(ropeKnots);
    simulation.Run(movements);
    count := |simulation.uniqueTailPositions|;
  }

  /** A two-knot rope: how many cells the tail visits. */
  method Part1(input: seq<string>) returns (r: Result<nat>)
    ensures r.Ok? <==> ToMovementList(input).Ok?
    ensures r.Ok? ==> r.value == |TailCells(2, ToMovementList(input).value)|
  {
    match ToMovementList(input)
    case Err(e) => r := Err(e);
    case Ok(movements) =>
      var count := CountTailCells(2, movements);
      r := Ok(count);
  }

  /** A ten-knot rope: how many cells the tail visits. */
  method Part2(input: seq<string>) returns (r: Result<nat>)
    ensures r.Ok? <==> ToMovementList(input).Ok?
    ensures r.Ok? ==> r.value == |TailCells(10, ToMovementList(input).value)|
  {
    match ToMovementList(input)
    case Err(e) => r := Err(e);
    case Ok(movements) =>
      var count := CountTailCells(10, movements);
      r := Ok(count);
  }
}
