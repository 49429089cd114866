/** Day 14: rock paths drawn into a cave map, and grains of sand that fall
    down, down-left or down-right until they rest or leave the map. */
module Day14 {
  import opened Wrappers
  import opened Text
  import opened Positions

  // ---------------------------------------------------------------------
  // Rock segments
  // ---------------------------------------------------------------------

  /** A rock segment; the constructor only admits straight segments with `start < end`. */
  datatype Line = Line(start: Position, end: Position)

  predicate ValidLine(l: Line) {
    CompareTo(l.start, l.end) < 0 && (l.start.x == l.end.x || l.start.y == l.end.y)
  }

  /** `Line`'s `init` block: the order check comes first, then the straightness check. */
  function MakeLine(start: Position, end: Position): (r: Result<Line>)
    ensures r.Ok? <==> ValidLine(Line(start, end))
    ensures r.Ok? ==> r.value == Line(start, end)
    ensures CompareTo(start, end) >= 0 ==> r == Err("Start cannot be greater than end")
  {
    if CompareTo(start, end) >= 0 then Err("Start cannot be greater than end")
    else if start.x != end.x && start.y != end.y then Err("Segment is not straight")
    else Ok(Line(start, end))
  }

  /** A valid vertical segment runs downwards; a valid non-vertical one is a row running right. */
  function IsVertical(l: Line): (b: bool)
    ensures ValidLine(l) && b ==> l.start.y < l.end.y
    ensures ValidLine(l) && !b ==> l.start.y == l.end.y && l.start.x < l.end.x
  {
    l.start.x == l.end.x
  }

  /** The cells `fillWithRocks` turns to rock for one segment. */
  predicate OnLine(l: Line, x: int, y: int) {
    if IsVertical(l) then x == l.start.x && l.start.y <= y <= l.end.y
    else y == l.start.y && l.start.x <= x <= l.end.x
  }

  function Min(a: int, b: int): int {
    if a <= b then a else b
  }

  function Max(a: int, b: int): int {
    if a >= b then a else b
  }

  /** On a valid segment, the drawn cells are exactly the cells of the segment's bounding box. */
  lemma OnLineIsBox(l: Line, x: int, y: int)
    requires ValidLine(l)
    ensures OnLine(l, x, y) <==>
      Min(l.start.x, l.end.x) <= x <= Max(l.start.x, l.end.x) && Min(l.start.y, l.end.y) <= y <= Max(l.start.y, l.end.y)
  {
  }

  /** Whether one of the segments covers the cell. */
  predicate Covered(lines: seq<Line>, x: int, y: int)
    decreases |lines|
  {
    lines != [] && (Covered(lines[..|lines| - 1], x, y) || OnLine(lines[|lines| - 1], x, y))
  }

  lemma {:induction false} CoveredIff(lines: seq<Line>, x: int, y: int)
    ensures Covered(lines, x, y) <==> exists k | 0 <= k < |lines| :: OnLine(lines[k], x, y)
    decreases |lines|
  {
    if lines != [] {
      var init := lines[..|lines| - 1];
      CoveredIff(init, x, y);
      if Covered(init, x, y) {
        var k :| 0 <= k < |init| && OnLine(init[k], x, y);
        assert lines[k] == init[k];
      }
      if exists k | 0 <= k < |lines| :: OnLine(lines[k], x, y) {
        var k :| 0 <= k < |lines| && OnLine(lines[k], x, y);
        if k < |init| {
          assert init[k] == lines[k];
        }
      }
    }
  }

  // ---------------------------------------------------------------------
  // Parsing
  // ---------------------------------------------------------------------

  /** `x,y` read as a position one up and one left of the written coordinates. */
  function ParsePoint(coords: string): (r: Result<Position>)
    ensures r.Ok? <==> ParseInt(SubstringBefore(coords, ",")).Some? && ParseInt(SubstringAfter(coords, ",")).Some?
    ensures r.Ok? ==>
      r.value == Position(ParseInt(SubstringBefore(coords, ",")).value - 1, ParseInt(SubstringAfter(coords, ",")).value - 1)
  {
    match ParseInt(SubstringBefore(coords, ","))
    case None => Err("NumberFormatException")
    case Some(x) =>
      match ParseInt(SubstringAfter(coords, ","))
      case None => Err("NumberFormatException")
      case Some(y) => Ok(Position(x - 1, y - 1))
  }

  function RenderPoint(p: Position): string {
    IntToString(p.x + 1) + "," + IntToString(p.y + 1)
  }

  /** A written point is read back shifted by one in each coordinate. */
  lemma ParseRenderPoint(p: Position)
    requires MinInt <= p.x + 1 <= MaxInt && MinInt <= p.y + 1 <= MaxInt
    ensures ParsePoint(RenderPoint(p)) == Ok(p)
  {
    var xs, ys := IntToString(p.x + 1), IntToString(p.y + 1);
    var s := RenderPoint(p);
    assert s == xs + [','] + ys;
    IntToStringAvoids(p.x + 1, ',');
    SubstringsAround(xs, ',', ys);
    assert SubstringBefore(s, ",") == xs && SubstringAfter(s, ",") == ys;
    ParseIntRoundTrip(p.x + 1);
    ParseIntRoundTrip(p.y + 1);
    assert ParseInt(xs) == Some(p.x + 1) && ParseInt(ys) == Some(p.y + 1);
  }

  /** The list `map` builds: every piece parsed in order, the first failure thrown. */
  function ParsePoints(parts: seq<string>): (r: Result<seq<Position>>)
    ensures r.Ok? ==> |r.value| == |parts|
  {
    if parts == [] then Ok([])
    else
      match ParsePoint(parts[0])
      case Err(e) => Err(e)
      case Ok(p) =>
        match ParsePoints(parts[1..])
        case Err(e) => Err(e)
        case Ok(ps) => Ok([p] + ps)
  }

  /** Every piece is parsed, and a single unreadable piece fails the whole path. */
  lemma {:induction false} ParsePointsMeaning(parts: seq<string>)
    ensures ParsePoints(parts).Ok? <==> forall i | 0 <= i < |parts| :: ParsePoint(parts[i]).Ok?
    ensures ParsePoints(parts).Ok? ==>
      forall i | 0 <= i < |parts| :: ParsePoints(parts).value[i] == ParsePoint(parts[i]).value
  {
    if parts != [] {
      ParsePointsMeaning(parts[1..]);
      assert forall i | 1 <= i < |parts| :: parts[1..][i - 1] == parts[i];
    }
  }

  /**
   * The segment between two consecutive points, smaller point first: there
   * is one iff the points differ and share a row or a column.
   */
  function Segment(a: Position, b: Position): (r: Result<Line>)
    ensures r.Ok? <==> a != b && (a.x == b.x || a.y == b.y)
    ensures r.Ok? ==> ValidLine(r.value) && ((r.value.start == a && r.value.end == b) || (r.value.start == b && r.value.end == a))
  {
    CompareZeroIffEqual(a, b);
    CompareAntisymmetric(a, b);
    if CompareTo(a, b) < 0 then MakeLine(a, b) else MakeLine(b, a)
  }

  /** The segments of the first `n` points of a path, as the loop collects them. */
  function PathSegments(points: seq<Position>, n: nat): (r: Result<seq<Line>>)
    requires 1 <= n <= |points|
    ensures r.Ok? ==> |r.value| == n - 1
  {
    if n == 1 then Ok([])
    else
      match PathSegments(points, n - 1)
      case Err(e) => Err(e)
      case Ok(segments) =>
        match Segment(points[n - 2], points[n - 1])
        case Err(e) => Err(e)
        case Ok(l) => Ok(segments + [l])
  }

  /** The path's segments: one per consecutive pair, each one valid, in path order. */
  lemma {:induction false} PathSegmentsMeaning(points: seq<Position>, n: nat)
    requires 1 <= n <= |points|
    ensures PathSegments(points, n).Ok? <==> forall i | 1 <= i < n :: Segment(points[i - 1], points[i]).Ok?
    ensures PathSegments(points, n).Ok? ==>
      forall i | 1 <= i < n :: PathSegments(points, n).value[i - 1] == Segment(points[i - 1], points[i]).value
  {
    if n > 1 {
      PathSegmentsMeaning(points, n - 1);
      var prefix := PathSegments(points, n - 1);
      var last := Segment(points[n - 2], points[n - 1]);
      if prefix.Ok? && last.Ok? {
        assert PathSegments(points, n).value == prefix.value + [last.value];
      }
    }
  }

  /** `parseSegments`: the points of a ` -> ` separated path and the segments between them. */
  method ParseSegments(line: string) returns (r: Result<seq<Line>>)
    ensures r == (match ParsePoints(Split(line, " -> "))
                  case Err(e) => Err(e)
                  case Ok(points) => PathSegments(points, |points|))
  {
    var parsed := ParsePoints(Split(line, " -> "));
    if parsed.Err? {
      return Err(parsed.message);
    }
    var points := parsed.value;
    var rockSegments := [];
    var i := 1;
    while i < |points|
      invariant 1 <= i <= |points|
      invariant PathSegments(points, i) == Ok(rockSegments)
    {
      var segment := Segment(points[i - 1], points[i]);
      PathSegmentsStep(points, i, rockSegments);
      if segment.Err? {
        PathSegmentsFailureStays(points, i + 1, |points|);
        return Err(segment.message);
      }
      rockSegments := rockSegments + [segment.value];
      i := i + 1;
    }
    r := Ok(rockSegments);
  }

  /** One more point adds the segment it makes with the previous one. */
  lemma PathSegmentsStep(points: seq<Position>, i: nat, segments: seq<Line>)
    requires 1 <= i < |points| && PathSegments(points, i) == Ok(segments)
    ensures PathSegments(points, i + 1) == match Segment(points[i - 1], points[i])
      case Err(e) => Err(e)
      case Ok(l) => Ok(segments + [l])
  {
  }

  lemma {:induction false} PathSegmentsFailureStays(points: seq<Position>, k: nat, n: nat)
    requires 1 <= k <= n <= |points| && PathSegments(points, k).Err?
    ensures PathSegments(points, n) == PathSegments(points, k)
    decreases n - k
  {
    if k < n {
      PathSegmentsFailureStays(points, k + 1, n);
    }
  }

  // ---------------------------------------------------------------------
  // The cave map
  // ---------------------------------------------------------------------

  datatype SpaceType = Air | Rock | Sand

  /** `containsPosition`: the position indexes a cell of the map. */
  function ContainsPosition(fallMap: array2<SpaceType>, p: Position): (b: bool)
    ensures b <==> 0 <= p.y < fallMap.Length0 && 0 <= p.x < fallMap.Length1
  {
    p.y < fallMap.Length0 && p.x < fallMap.Length1 && p.y >= 0 && p.x >= 0
  }

  /** The cells of column `x` from row `y0` to row `y1` become rock. */
  method FillColumn(fallMap: array2<SpaceType>, x: int, y0: int, y1: int)
    requires 0 <= x < fallMap.Length1 && 0 <= y0 && y1 < fallMap.Length0
    modifies fallMap
    ensures forall y, c | 0 <= y < fallMap.Length0 && 0 <= c < fallMap.Length1 ::
      fallMap[y, c] == if c == x && y0 <= y <= y1 then Rock else old(fallMap[y, c])
  {
    var y := y0;
    while y <= y1
      invariant y0 <= y <= Max(y0, y1 + 1)
      invariant forall r, c | 0 <= r < fallMap.Length0 && 0 <= c < fallMap.Length1 ::
        fallMap[r, c] == if c == x && y0 <= r < y then Rock else old(fallMap[r, c])
    {
      fallMap[y, x] := Rock;
      y := y + 1;
    }
  }

  /** The cells of row `y` from column `x0` to column `x1` become rock. */
  method FillRow(fallMap: array2<SpaceType>, y: int, x0: int, x1: int)
    requires 0 <= y < fallMap.Length0 && 0 <= x0 && x1 < fallMap.Length1
    modifies fallMap
    ensures forall r, x | 0 <= r < fallMap.Length0 && 0 <= x < fallMap.Length1 ::
      fallMap[r, x] == if r == y && x0 <= x <= x1 then Rock else old(fallMap[r, x])
  {
    var x := x0;
    while x <= x1
      invariant x0 <= x <= Max(x0, x1 + 1)
      invariant forall r, c | 0 <= r < fallMap.Length0 && 0 <= c < fallMap.Length1 ::
        fallMap[r, c] == if r == y && x0 <= c < x then Rock else old(fallMap[r, c])
    {
      fallMap[y, x] := Rock;
      x := x + 1;
    }
  }

  /** `fillWithRocks`: exactly the cells on some segment become rock; the rest keep their contents. */
  method FillWithRocks(fallMap: array2<SpaceType>, rockLines: seq<Line>)
    requires forall i | 0 <= i < |rockLines| ::
      ContainsPosition(fallMap, rockLines[i].start) && ContainsPosition(fallMap, rockLines[i].end)
    modifies fallMap
    ensures forall y, x | 0 <= y < fallMap.Length0 && 0 <= x < fallMap.Length1 ::
      fallMap[y, x] == if Covered(rockLines, x, y) then Rock else old(fallMap[y, x])
  {
    var i := 0;
    while i < |rockLines|
      invariant 0 <= i <= |rockLines|
      invariant forall y, x | 0 <= y < fallMap.Length0 && 0 <= x < fallMap.Length1 ::
        fallMap[y, x] == if Covered(rockLines[..i], x, y) then Rock else old(fallMap[y, x])
    {
      var line := rockLines[i];
      if IsVertical(line) {
        FillColumn(fallMap, line.start.x, line.start.y, line.end.y);
      } else {
        FillRow(fallMap, line.start.y, line.start.x, line.end.x);
      }
      assert rockLines[..i + 1][..i] == rockLines[..i];
      i := i + 1;
    }
    assert rockLines[..i] == rockLines;
  }

  /** `addFloor`: the whole bottom row becomes rock. */
  method AddFloor(fallMap: array2<SpaceType>)
    requires fallMap.Length0 >= 1
    modifies fallMap
    ensures forall y, x | 0 <= y < fallMap.Length0 && 0 <= x < fallMap.Length1 ::
      fallMap[y, x] == if y == fallMap.Length0 - 1 then Rock else old(fallMap[y, x])
  {
    var width := fallMap.Length1;
    var y := fallMap.Length0 - 1;
    FillRow(fallMap, y, 0, width - 1);
  }

  // ---------------------------------------------------------------------
  // Falling sand
  // ---------------------------------------------------------------------

  /** The cells a grain tries, in order: straight down, down-left, down-right. */
  function FallPositions(p: Position): (r: seq<Position>)
    ensures |r| == 3
    ensures forall i | 0 <= i < 3 :: r[i].y == p.y + 1 && ManhattanDistanceTo(r[i], Position(p.x, p.y + 1)) <= 1
  {
    [Position(p.x, p.y + 1), Position(p.x - 1, p.y + 1), Position(p.x + 1, p.y + 1)]
  }

  /** What one pass over the candidates decides. */
  datatype Move = OffMap | FallTo(next: Position) | Rests

  /** The first candidate off the map ends the fall; the first air cell is taken; otherwise the grain rests. */
  function FirstMove(fallMap: array2<SpaceType>, candidates: seq<Position>): (m: Move)
    reads fallMap
    ensures m.FallTo? ==>
      m.next in candidates && ContainsPosition(fallMap, m.next) && fallMap[m.next.y, m.next.x] == Air
  {
    if candidates == [] then Rests
    else if !ContainsPosition(fallMap, candidates[0]) then OffMap
    else if fallMap[candidates[0].y, candidates[0].x] == Air then FallTo(candidates[0])
    else FirstMove(fallMap, candidates[1..])
  }

  /** The candidates before the deciding one are all on the map and not air. */
  predicate Blocked(fallMap: array2<SpaceType>, p: Position)
    reads fallMap
  {
    ContainsPosition(fallMap, p) && fallMap[p.y, p.x] != Air
  }

  /** The index of the first candidate that is off the map or air, or the count when all are blocked. */
  function FirstOpen(fallMap: array2<SpaceType>, candidates: seq<Position>): (k: nat)
    reads fallMap
    ensures k <= |candidates|
    ensures forall j | 0 <= j < k :: Blocked(fallMap, candidates[j])
    ensures k < |candidates| ==> !Blocked(fallMap, candidates[k])
  {
    if candidates == [] || !Blocked(fallMap, candidates[0]) then 0
    else 1 + FirstOpen(fallMap, candidates[1..])
  }

  /** The candidates are tried strictly in order: the first open one decides. */
  lemma {:induction false} FirstMoveOrder(fallMap: array2<SpaceType>, candidates: seq<Position>)
    ensures var k := FirstOpen(fallMap, candidates);
      FirstMove(fallMap, candidates) ==
        if k == |candidates| then Rests
        else if !ContainsPosition(fallMap, candidates[k]) then OffMap
        else FallTo(candidates[k])
    decreases |candidates|
  {
    if candidates != [] && Blocked(fallMap, candidates[0]) {
      FirstMoveOrder(fallMap, candidates[1..]);
    }
  }

  /** The remaining fall height: how many rows are left below `p` on the map. */
  function Room(fallMap: array2<SpaceType>, p: Position): nat {
    if p.y < fallMap.Length0 then fallMap.Length0 - p.y else 0
  }

  /**
   * Where a grain dropped at `p` comes to rest, or `None` once it leaves the
   * map. A grain at rest has all three candidates on the map and not air;
   * it never rises; and unless it rests where it was dropped, it rests in
   * an air cell of the map.
   */
  function Settle(fallMap: array2<SpaceType>, p: Position): (r: Option<Position>)
    reads fallMap
    ensures r.Some? ==> r.value.y >= p.y
    ensures r.Some? ==> forall j | 0 <= j < 3 :: Blocked(fallMap, FallPositions(r.value)[j])
    ensures r.Some? && r.value != p ==> ContainsPosition(fallMap, r.value) && fallMap[r.value.y, r.value.x] == Air
    decreases Room(fallMap, p)
  {
    FirstMoveOrder(fallMap, FallPositions(p));
    match FirstMove(fallMap, FallPositions(p))
    case OffMap => None
    case Rests => Some(p)
    case FallTo(q) => Settle(fallMap, q)
  }

  /** One pass of `dropSandAt`'s `for` loop over the candidates. */
  method TryCandidates(fallMap: array2<SpaceType>, candidates: seq<Position>) returns (m: Move)
    ensures m == FirstMove(fallMap, candidates)
  {
    var i := 0;
    while i < |candidates|
      invariant 0 <= i <= |candidates|
      invariant FirstMove(fallMap, candidates[i..]) == FirstMove(fallMap, candidates)
    {
      var candidatePos := candidates[i];
      assert candidates[i..][1..] == candidates[i + 1..];
      if !ContainsPosition(fallMap, candidatePos) {
        return OffMap;
      }
      if fallMap[candidatePos.y, candidatePos.x] == Air {
        return FallTo(candidatePos);
      }
      i := i + 1;
    }
    m := Rests;
  }

  /** `dropSandAt`: follow the grain until it rests (its position) or leaves the map (`null`). */
  method DropSandAt(fallMap: array2<SpaceType>, start: Position) returns (r: Option<Position>)
    ensures r == Settle(fallMap, start)
  {
    var current := start;
    while true
      invariant Settle(fallMap, current) == Settle(fallMap, start)
      decreases Room(fallMap, current)
    {
      var m := TryCandidates(fallMap, FallPositions(current));
      match m {
        case OffMap => return None;
        case Rests => return Some(current);
        case FallTo(next) => current := next;
      }
    }
  }
}
