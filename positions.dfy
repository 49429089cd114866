/** The shared two-dimensional `Position` value: lexicographic ordering,
    Manhattan distance and component-wise arithmetic. */
module Positions {
  datatype Position = Position(x: int, y: int)

  function Abs(a: int): (r: nat)
    ensures r == a || r == -a
  {
    if a < 0 then -a else a
  }

  /** `Int.compareTo`: -1, 0 or 1 by the sign of `a - b`. */
  function CompareInts(a: int, b: int): (r: int)
    ensures r in {-1, 0, 1}
    ensures r < 0 <==> a < b
    ensures r == 0 <==> a == b
    ensures r > 0 <==> a > b
  {
    if a < b then -1 else if a == b then 0 else 1
  }

  /** x decides first; y breaks the tie. */
  function CompareTo(p: Position, q: Position): (r: int)
    ensures r in {-1, 0, 1}
    ensures r < 0 <==> p.x < q.x || (p.x == q.x && p.y < q.y)
    ensures r > 0 <==> p.x > q.x || (p.x == q.x && p.y > q.y)
  {
    var xCompare := CompareInts(p.x, q.x);
    if xCompare != 0 then xCompare else CompareInts(p.y, q.y)
  }

  lemma CompareZeroIffEqual(p: Position, q: Position)
    ensures CompareTo(p, q) == 0 <==> p == q
  {
  }

  lemma CompareAntisymmetric(p: Position, q: Position)
    ensures CompareTo(p, q) == -CompareTo(q, p)
  {
  }

  lemma CompareTransitive(p: Position, q: Position, s: Position)
    requires CompareTo(p, q) < 0 && CompareTo(q, s) < 0
    ensures CompareTo(p, s) < 0
  {
  }

  function ManhattanDistanceTo(p: Position, q: Position): (r: nat)
    ensures r == 0 <==> p == q
    ensures r == Abs(p.x - q.x) + Abs(p.y - q.y)
  {
    Abs(p.x - q.x) + Abs(p.y - q.y)
  }

  lemma DistanceSymmetric(p: Position, q: Position)
    ensures ManhattanDistanceTo(p, q) == ManhattanDistanceTo(q, p)
  {
  }

  lemma DistanceTriangle(p: Position, q: Position, s: Position)
    ensures ManhattanDistanceTo(p, s) <= ManhattanDistanceTo(p, q) + ManhattanDistanceTo(q, s)
  {
  }

  /** Moving both points by the same offset keeps their distance. */
  lemma DistanceTranslationInvariant(p: Position, q: Position, offset: Position)
    ensures ManhattanDistanceTo(Plus(p, offset), Plus(q, offset)) == ManhattanDistanceTo(p, q)
  {
  }

  function Plus(p: Position, q: Position): (r: Position)
    ensures r.x - q.x == p.x && r.y - q.y == p.y
  {
    Position(p.x + q.x, p.y + q.y)
  }

  function Minus(p: Position, q: Position): (r: Position)
    ensures Plus(r, q) == p
    ensures ManhattanDistanceTo(r, Position(0, 0)) == ManhattanDistanceTo(p, q)
  {
    Position(p.x - q.x, p.y - q.y)
  }
}
