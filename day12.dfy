/**
 * Day 12: climbing a height map. Letters are heights, `S` marks the start
 * (height `a`) and `E` the end (height `z`). `findWay` fills a map of step
 * counts outwards from the start: a visited cell takes one more step than
 * the cheapest already-reached neighbour it can be climbed to from.
 */
module Day12 {
  import opened Wrappers
  import opened Grids
  import Lists

  datatype Position = Position(x: int, y: int)

  type HeightMap = Grid<char>

  // ---------------------------------------------------------------------
  // Parsing
  // ---------------------------------------------------------------------

  function Normalized(c: char): char {
    if c == 'S' then 'a' else if c == 'E' then 'z' else c
  }

  /** The map with `S` read as `a` and `E` as `z`. */
  function Heights(raw: seq<string>): (m: HeightMap)
    ensures |m| == |raw| && forall y | 0 <= y < |raw| :: |m[y]| == |raw[y]|
  {
    seq(|raw|, y requires 0 <= y < |raw| => seq(|raw[y]|, x requires 0 <= x < |raw[y]| => Normalized(raw[y][x])))
  }

  predicate InGrid<T>(m: Grid<T>, p: Position) {
    0 <= p.y < |m| && 0 <= p.x < |m[p.y]|
  }

  /** Cell (`y`, `x`) comes after `p` in row-major order. */
  predicate After(y: int, x: int, p: Position) {
    y > p.y || (y == p.y && x > p.x)
  }

  /**
   * `p` is where the row-major scan leaves the marker `c`: the last cell
   * holding `c`, or (0, 0) when there is none.
   */
  predicate LastMarker(raw: seq<string>, c: char, p: Position) {
    (p == Position(0, 0) && forall y, x | 0 <= y < |raw| && 0 <= x < |raw[y]| :: raw[y][x] != c)
    || (InGrid(raw, p) && raw[p.y][p.x] == c
        && forall y, x | 0 <= y < |raw| && 0 <= x < |raw[y]| && After(y, x, p) :: raw[y][x] != c)
  }

  /** Scan state for one marker: `found` once a `c` was seen among the first cells. */
  predicate Tracked(raw: seq<string>, c: char, p: Position, found: bool, Y: int, X: int)
    requires 0 <= Y < |raw| && 0 <= X <= |raw[Y]|
  {
    (!found ==>
      (p == Position(0, 0)
       && (forall y, x | 0 <= y < Y && 0 <= x < |raw[y]| :: raw[y][x] != c)
       && (forall x | 0 <= x < X :: raw[Y][x] != c)))
    && (found ==>
      (InGrid(raw, p) && raw[p.y][p.x] == c && (p.y < Y || (p.y == Y && p.x < X))
       && (forall y, x | 0 <= y < Y && 0 <= x < |raw[y]| && After(y, x, p) :: raw[y][x] != c)
       && (forall x | 0 <= x < X && After(Y, x, p) :: raw[Y][x] != c)))
  }

  /** One row of `parseMap`'s inner loop: normalises the row and moves the markers. */
  method ScanRow(raw: seq<string>, y: int, start: Position, foundStart: bool, end: Position, foundEnd: bool)
    returns (row: string, start': Position, foundStart': bool, end': Position, foundEnd': bool)
    requires 0 <= y < |raw|
    requires Tracked(raw, 'S', start, foundStart, y, 0) && Tracked(raw, 'E', end, foundEnd, y, 0)
    ensures row == Heights(raw)[y]
    ensures Tracked(raw, 'S', start', foundStart', y, |raw[y]|) && Tracked(raw, 'E', end', foundEnd', y, |raw[y]|)
  {
    row, start', foundStart', end', foundEnd' := raw[y], start, foundStart, end, foundEnd;
    var x := 0;
    while x < |row|
      invariant 0 <= x <= |row| == |raw[y]|
      invariant forall k | 0 <= k < x :: row[k] == Normalized(raw[y][k])
      invariant forall k | x <= k < |row| :: row[k] == raw[y][k]
      invariant Tracked(raw, 'S', start', foundStart', y, x) && Tracked(raw, 'E', end', foundEnd', y, x)
    {
      TrackStep(raw, 'S', start', foundStart', y, x);
      TrackStep(raw, 'E', end', foundEnd', y, x);
      if row[x] == 'S' {
        start', foundStart' := Position(x, y), true;
        row := row[x := 'a'];
      } else if row[x] == 'E' {
        end', foundEnd' := Position(x, y), true;
        row := row[x := 'z'];
      }
      x := x + 1;
    }
    RowOfHeights(raw, y, row);
  }

  lemma RowOfHeights(raw: seq<string>, y: int, row: string)
    requires 0 <= y < |raw| && |row| == |raw[y]|
    requires forall k | 0 <= k < |row| :: row[k] == Normalized(raw[y][k])
    ensures row == Heights(raw)[y]
  {
  }

  /** One more cell scanned: a `c` there becomes the tracked marker. */
  lemma TrackStep(raw: seq<string>, c: char, p: Position, found: bool, y: int, x: int)
    requires 0 <= y < |raw| && 0 <= x < |raw[y]| && Tracked(raw, c, p, found, y, x)
    ensures raw[y][x] == c ==> Tracked(raw, c, Position(x, y), true, y, x + 1)
    ensures raw[y][x] != c ==> Tracked(raw, c, p, found, y, x + 1)
  {
  }

  lemma TrackedNextRow(raw: seq<string>, c: char, p: Position, found: bool, y: int)
    requires 0 <= y < |raw| && Tracked(raw, c, p, found, y, |raw[y]|)
    ensures y + 1 < |raw| ==> Tracked(raw, c, p, found, y + 1, 0)
    ensures y + 1 == |raw| ==> LastMarker(raw, c, p)
  {
  }

  /** `parseMap`: the normalised map and the last `S` and `E`, each (0, 0) when absent. */
  method ParseMap(raw: seq<string>) returns (heightMap: HeightMap, start: Position, end: Position)
    ensures heightMap == Heights(raw)
    ensures LastMarker(raw, 'S', start) && LastMarker(raw, 'E', end)
  {
    heightMap := [];
    start, end := Position(0, 0), Position(0, 0);
    var foundStart, foundEnd := false, false;
    for y := 0 to |raw|
      invariant heightMap == Heights(raw)[..y]
      invariant y < |raw| ==> Tracked(raw, 'S', start, foundStart, y, 0) && Tracked(raw, 'E', end, foundEnd, y, 0)
      invariant y == |raw| ==> LastMarker(raw, 'S', start) && LastMarker(raw, 'E', end)
    {
      var row;
      row, start, foundStart, end, foundEnd := ScanRow(raw, y, start, foundStart, end, foundEnd);
      heightMap := heightMap + [row];
      TrackedNextRow(raw, 'S', start, foundStart, y);
      TrackedNextRow(raw, 'E', end, foundEnd, y);
    }
  }

  // ---------------------------------------------------------------------
  // Neighbours and climbing
  // ---------------------------------------------------------------------

  function Abs(v: int): nat {
    if v < 0 then -v else v
  }

  predicate Adjacent(a: Position, b: Position) {
    Abs(a.x - b.x) + Abs(a.y - b.y) == 1
  }

  function InBounds(ps: seq<Position>, width: int, height: int): (r: seq<Position>)
    ensures forall p :: p in r <==> p in ps && 0 <= p.x < width && 0 <= p.y < height
    ensures forall i | 0 <= i < |r| :: exists j | 0 <= j < |ps| :: r[i] == ps[j]
    ensures (forall i, j | 0 <= i < j < |ps| :: ps[i] != ps[j]) ==> forall i, j | 0 <= i < j < |r| :: r[i] != r[j]
  {
    if ps == [] then []
    else
      var rest := InBounds(ps[1..], width, height);
      if 0 <= ps[0].x < width && 0 <= ps[0].y < height then [ps[0]] + rest else rest
  }

  /** The four orthogonal neighbours, left, right, up, down. */
  function Candidates(pos: Position): seq<Position> {
    [Position(pos.x - 1, pos.y), Position(pos.x + 1, pos.y), Position(pos.x, pos.y - 1), Position(pos.x, pos.y + 1)]
  }

  lemma CandidatesAdjacent(pos: Position)
    ensures forall p :: p in Candidates(pos) <==> Adjacent(p, pos)
    ensures forall i, j | 0 <= i < j < 4 :: Candidates(pos)[i] != Candidates(pos)[j]
  {
    forall p ensures p in Candidates(pos) <==> Adjacent(p, pos) {
      if Adjacent(p, pos) {
        if p.x == pos.x {
          assert p.y == pos.y - 1 || p.y == pos.y + 1;
        } else {
          assert p.y == pos.y && (p.x == pos.x - 1 || p.x == pos.x + 1);
        }
      }
    }
  }

  /** `neighboursOf`: the orthogonal neighbours inside a `width` x `height` map, left, right, up, down. */
  function NeighboursOf(width: int, height: int, pos: Position): (r: seq<Position>)
    ensures forall p :: p in r <==> Adjacent(p, pos) && 0 <= p.x < width && 0 <= p.y < height
    ensures forall i, j | 0 <= i < j < |r| :: r[i] != r[j]
  {
    CandidatesAdjacent(pos);
    InBounds(Candidates(pos), width, height)
  }

  /** One may step from `from` to `to` when `to` is at most one higher. */
  predicate CanClimb(m: HeightMap, from: Position, to: Position) {
    InGrid(m, from) && InGrid(m, to) && m[to.y][to.x] as int <= m[from.y][from.x] as int + 1
  }

  /** A walk over adjacent cells, each step a legal climb. */
  predicate ClimbPath(m: HeightMap, path: seq<Position>) {
    |path| >= 1
    && (forall i | 0 <= i < |path| :: InGrid(m, path[i]))
    && forall i | 1 <= i < |path| :: Adjacent(path[i - 1], path[i]) && CanClimb(m, path[i - 1], path[i])
  }

  /** `path` climbs from `start` to `p` in exactly `steps` steps. */
  predicate SoundPath(m: HeightMap, start: Position, path: seq<Position>, p: Position, steps: int) {
    ClimbPath(m, path) && path[0] == start && path[|path| - 1] == p && |path| == steps + 1
  }

  lemma ExtendPath(m: HeightMap, start: Position, path: seq<Position>, p: Position, steps: int, q: Position)
    requires SoundPath(m, start, path, p, steps) && Adjacent(p, q) && CanClimb(m, p, q)
    ensures SoundPath(m, start, path + [q], q, steps + 1)
  {
  }

  /** The neighbours from which `current` can be climbed to. */
  function Reachable(m: HeightMap, ns: seq<Position>, current: Position): (r: seq<Position>)
    ensures forall p :: p in r <==> p in ns && CanClimb(m, p, current)
    ensures (forall i, j | 0 <= i < j < |ns| :: ns[i] != ns[j]) ==> forall i, j | 0 <= i < j < |r| :: r[i] != r[j]
  {
    if ns == [] then []
    else
      var rest := Reachable(m, ns[1..], current);
      if CanClimb(m, ns[0], current) then [ns[0]] + rest else rest
  }

  // ---------------------------------------------------------------------
  // The step map
  // ---------------------------------------------------------------------

  predicate OnMap(steps: array2<int>, p: Position) {
    0 <= p.y < steps.Length0 && 0 <= p.x < steps.Length1
  }

  /** Step counts of the already-reached cells among `ps` (those not at -1). */
  function AssignedSteps(steps: array2<int>, ps: seq<Position>): (r: seq<int>)
    requires forall p | p in ps :: OnMap(steps, p)
    reads steps
  {
    if ps == [] then []
    else
      assert ps[0] in ps && OnMap(steps, ps[0]);
      var rest := AssignedSteps(steps, ps[1..]);
      if steps[ps[0].y, ps[0].x] != -1 then [steps[ps[0].y, ps[0].x]] + rest else rest
  }

  /** Every reached count comes from some cell among `ps`. */
  lemma AssignedWitness(steps: array2<int>, ps: seq<Position>, v: int) returns (p: Position)
    requires forall q | q in ps :: OnMap(steps, q)
    requires v in AssignedSteps(steps, ps)
    ensures p in ps && steps[p.y, p.x] == v && v != -1
  {
    assert ps[0] in ps;
    if steps[ps[0].y, ps[0].x] != -1 && v == steps[ps[0].y, ps[0].x] {
      p := ps[0];
    } else {
      p := AssignedWitness(steps, ps[1..], v);
    }
  }

  /** Cells among `ps` not yet reached and not already waiting in `queue`. */
  function Unvisited(steps: array2<int>, ps: seq<Position>, queue: seq<Position>): (r: seq<Position>)
    requires forall p | p in ps :: OnMap(steps, p)
    reads steps
    ensures forall p :: p in r <==> (p in ps && OnMap(steps, p) && steps[p.y, p.x] == -1 && p !in queue)
    ensures (forall i, j | 0 <= i < j < |ps| :: ps[i] != ps[j]) ==> forall i, j | 0 <= i < j < |r| :: r[i] != r[j]
  {
    if ps == [] then []
    else
      assert ps[0] in ps && OnMap(steps, ps[0]);
      var rest := Unvisited(steps, ps[1..], queue);
      if steps[ps[0].y, ps[0].x] == -1 && ps[0] !in queue then [ps[0]] + rest else rest
  }

  /** A count is -1 (unreached) or the length of a climb from the start, recorded in `paths`. */
  ghost predicate SoundCell(m: HeightMap, v: int, start: Position, paths: map<Position, seq<Position>>, p: Position) {
    v >= -1 && (v >= 0 ==> p in paths && SoundPath(m, start, paths[p], p, v))
  }

  ghost predicate Sound(m: HeightMap, steps: array2<int>, start: Position, paths: map<Position, seq<Position>>)
    reads steps
  {
    forall y, x | 0 <= y < steps.Length0 && 0 <= x < steps.Length1 :: SoundCell(m, steps[y, x], start, paths, Position(x, y))
  }

  /** Queued cells are on the map, unreached, and queued once. */
  predicate QueueOk(steps: array2<int>, queue: seq<Position>)
    reads steps
  {
    (forall i | 0 <= i < |queue| :: OnMap(steps, queue[i]) && steps[queue[i].y, queue[i].x] == -1)
    && forall i, j | 0 <= i < j < |queue| :: queue[i] != queue[j]
  }

  /** Cells appended to a well-kept queue keep it well kept when they are new, distinct and unreached. */
  lemma QueueAppend(steps: array2<int>, rest: seq<Position>, added: seq<Position>)
    requires QueueOk(steps, rest)
    requires forall p | p in added :: p !in rest && OnMap(steps, p) && steps[p.y, p.x] == -1
    requires forall i, j | 0 <= i < j < |added| :: added[i] != added[j]
    ensures QueueOk(steps, rest + added)
  {
    var q := rest + added;
    forall i, j | 0 <= i < j < |q| ensures q[i] != q[j] {
      if j >= |rest| {
        assert q[j] == added[j - |rest|] && q[j] in added;
        if i >= |rest| {
          assert q[i] == added[i - |rest|];
        } else {
          assert q[i] == rest[i];
        }
      }
    }
    forall i | 0 <= i < |q| ensures OnMap(steps, q[i]) && steps[q[i].y, q[i].x] == -1 {
      if i >= |rest| {
        assert q[i] == added[i - |rest|] && q[i] in added;
      }
    }
  }

  predicate MapShaped(m: HeightMap, steps: array2<int>) {
    |m| >= 1 && Rectangular(m) && steps.Length0 == |m| && steps.Length1 == |m[0]|
  }

  /** The initial step map: the start at 0, every other cell at -1. */
  method InitialSteps(m: HeightMap, start: Position) returns (steps: array2<int>)
    requires |m| >= 1 && Rectangular(m) && InGrid(m, start)
    ensures fresh(steps) && MapShaped(m, steps)
    ensures forall y, x | 0 <= y < steps.Length0 && 0 <= x < steps.Length1 ::
      steps[y, x] == if Position(x, y) == start then 0 else -1
  {
    steps := new int[|m|, |m[0]|]((y, x) => -1);
    steps[start.y, start.x] := 0;
  }

  /**
   * Lines 83-90 of `findWay`: the cell takes one more step than its
   * cheapest reached neighbour, when it has one; nothing else changes.
   */
  method SetFromCheapest(m: HeightMap, steps: array2<int>, current: Position, reachable: seq<Position>,
                         ghost start: Position, ghost paths: map<Position, seq<Position>>)
    returns (ghost paths': map<Position, seq<Position>>)
    requires MapShaped(m, steps) && OnMap(steps, current) && Sound(m, steps, start, paths)
    requires forall p | p in reachable :: OnMap(steps, p) && Adjacent(p, current) && CanClimb(m, p, current)
    modifies steps
    ensures Sound(m, steps, start, paths')
    ensures forall y, x | 0 <= y < steps.Length0 && 0 <= x < steps.Length1 && Position(x, y) != current ::
      steps[y, x] == old(steps[y, x])
    ensures var known := old(AssignedSteps(steps, reachable));
      steps[current.y, current.x] == if known == [] then old(steps[current.y, current.x]) else Lists.MinOf(known).value + 1
  {
    var neighbourSteps := AssignedSteps(steps, reachable);
    paths' := paths;
    if neighbourSteps != [] {
      var newMinSteps := Lists.MinOf(neighbourSteps).value;
      ghost var from := AssignedWitness(steps, reachable, newMinSteps);
      assert SoundCell(m, steps[from.y, from.x], start, paths, Position(from.x, from.y));
      ExtendPath(m, start, paths[from], from, steps[from.y, from.x], current);
      paths' := paths[current := paths[from] + [current]];
      steps[current.y, current.x] := newMinSteps + 1;
      forall y, x | 0 <= y < steps.Length0 && 0 <= x < steps.Length1
        ensures SoundCell(m, steps[y, x], start, paths', Position(x, y))
      {
        if Position(x, y) != current {
          assert steps[y, x] == old(steps[y, x]);
          assert SoundCell(m, old(steps[y, x]), start, paths, Position(x, y));
        }
      }
    }
  }

  /**
   * One iteration of `findWay`'s loop: the first queued cell is updated
   * from its cheapest reached neighbour it can be climbed to from, and its
   * unreached climbable neighbours not already queued join the back of the
   * queue.
   */
  method Visit(m: HeightMap, steps: array2<int>, queue: seq<Position>,
               ghost start: Position, ghost paths: map<Position, seq<Position>>)
    returns (queue': seq<Position>, ghost paths': map<Position, seq<Position>>)
    requires MapShaped(m, steps) && queue != []
    requires Sound(m, steps, start, paths) && QueueOk(steps, queue)
    modifies steps
    ensures Sound(m, steps, start, paths') && QueueOk(steps, queue')
    ensures var current := queue[0];
      var reachable := Reachable(m, NeighboursOf(steps.Length1, steps.Length0, current), current);
      var known := old(AssignedSteps(steps, reachable));
      (forall y, x | 0 <= y < steps.Length0 && 0 <= x < steps.Length1 && Position(x, y) != current ::
        steps[y, x] == old(steps[y, x]))
      && steps[current.y, current.x] == (if known == [] then old(steps[current.y, current.x])
                                         else Lists.MinOf(known).value + 1)
      && queue' == queue[1..] + Unvisited(steps, reachable, queue[1..])
  {
    var current := queue[0];
    var rest := queue[1..];
    var neighbours := NeighboursOf(steps.Length1, steps.Length0, current);
    var reachable := Reachable(m, neighbours, current);
    paths' := SetFromCheapest(m, steps, current, reachable, start, paths);
    var added := Unvisited(steps, reachable, rest);
    queue' := rest + added;
    forall i | 0 <= i < |rest| ensures OnMap(steps, rest[i]) && steps[rest[i].y, rest[i].x] == -1 {
      assert rest[i] == queue[i + 1] != current;
    }
    assert QueueOk(steps, rest);
    QueueAppend(steps, rest, added);
  }

  /**
   * `findWay` with at most `fuel` iterations: the end cell's count, or
   * `None` when the fuel runs out first. A count of at least 0 is the
   * length of a real climb from the start to the end.
   */
  method FindWay(m: HeightMap, start: Position, end: Position, fuel: nat) returns (r: Option<int>, ghost path: seq<Position>)
    requires |m| >= 1 && Rectangular(m) && InGrid(m, start) && InGrid(m, end)
    ensures r.Some? ==> r.value >= -1
    ensures r.Some? && r.value >= 0 ==> SoundPath(m, start, path, end, r.value)
  {
    path := [];
    var steps := InitialSteps(m, start);
    ghost var paths := map[start := [start]];
    var queue := NeighboursOf(steps.Length1, steps.Length0, start);
    InitiallySound(m, steps, start, queue);
    var left := fuel;
    while queue != []
      invariant MapShaped(m, steps)
      invariant Sound(m, steps, start, paths) && QueueOk(steps, queue)
      decreases left
    {
      if left == 0 {
        return None, [];
      }
      queue, paths := Visit(m, steps, queue, start, paths);
      left := left - 1;
    }
    SoundAt(m, steps, start, paths, end);
    r := Some(steps[end.y, end.x]);
    if r.value >= 0 {
      path := paths[end];
    }
  }

  /** Before the loop: only the start is reached, by the one-cell path, and
      the queue holds the start's neighbours once each. */
  lemma InitiallySound(m: HeightMap, steps: array2<int>, start: Position, queue: seq<Position>)
    requires MapShaped(m, steps) && InGrid(m, start)
    requires forall y, x | 0 <= y < steps.Length0 && 0 <= x < steps.Length1 ::
      steps[y, x] == if Position(x, y) == start then 0 else -1
    requires forall p :: p in queue <==> Adjacent(p, start) && 0 <= p.x < steps.Length1 && 0 <= p.y < steps.Length0
    requires forall i, j | 0 <= i < j < |queue| :: queue[i] != queue[j]
    ensures Sound(m, steps, start, map[start := [start]]) && QueueOk(steps, queue)
  {
    var paths := map[start := [start]];
    assert SoundPath(m, start, [start], start, 0);
    forall i | 0 <= i < |queue| ensures OnMap(steps, queue[i]) && steps[queue[i].y, queue[i].x] == -1 {
      assert queue[i] in queue;
    }
  }

  /** A sound table's entry at a cell is -1 or the length of a path to it. */
  lemma SoundAt(m: HeightMap, steps: array2<int>, start: Position, paths: map<Position, seq<Position>>, p: Position)
    requires Sound(m, steps, start, paths) && OnMap(steps, p)
    ensures steps[p.y, p.x] >= -1
    ensures steps[p.y, p.x] >= 0 ==> SoundPath(m, start, paths[p], p, steps[p.y, p.x])
  {
    assert SoundCell(m, steps[p.y, p.x], start, paths, Position(p.x, p.y));
  }

  /** The step count `findWay` leaves at `E`, -1 when unreached; an error where the source throws. */
  method Part1(raw: seq<string>, fuel: nat) returns (r: Result<Option<int>>)
    ensures r.Err? <==> !Rectangular(Heights(raw)) || raw == [] || raw[0] == []
    ensures r.Ok? && r.value.Some? && r.value.value >= 0 ==>
      exists path, start, end :: LastMarker(raw, 'S', start) && LastMarker(raw, 'E', end)
        && SoundPath(Heights(raw), start, path, end, r.value.value)
  {
    var heightMap, start, end := ParseMap(raw);
    if !Rectangular(heightMap) {
      return Err("ragged height map");
    }
    if !InGrid(heightMap, start) || !InGrid(heightMap, end) {
      return Err("ArrayIndexOutOfBoundsException");
    }
    var steps, path := FindWay(heightMap, start, end, fuel);
    r := Ok(steps);
  }
}
