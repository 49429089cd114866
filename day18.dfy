/**
 * Day 18: a droplet of lava scanned as unit cubes on a 3D grid. The
 * surface area counts every face of a cube that does not touch another
 * cube of the droplet.
 */
module Day18 {
  import opened Wrappers
  import opened Text
  import opened Lists

  datatype Position3D = Position3D(x: int, y: int, z: int)

  // ---------------------------------------------------------------------
  // Neighbours
  // ---------------------------------------------------------------------

  /** The six cubes sharing a face with `p`: ±x, ±y, ±z in that order. */
  function Neighbours(p: Position3D): (r: seq<Position3D>)
    ensures |r| == 6
  {
    [
      Position3D(p.x + 1, p.y, p.z),
      Position3D(p.x - 1, p.y, p.z),
      Position3D(p.x, p.y + 1, p.z),
      Position3D(p.x, p.y - 1, p.z),
      Position3D(p.x, p.y, p.z + 1),
      Position3D(p.x, p.y, p.z - 1)
    ]
  }

  function Abs(v: int): nat {
    if v < 0 then -v else v
  }

  function Distance(p: Position3D, q: Position3D): nat {
    Abs(p.x - q.x) + Abs(p.y - q.y) + Abs(p.z - q.z)
  }

  /**
   * The neighbours are six different cubes, and they are exactly the cubes
   * at Manhattan distance one.
   */
  lemma NeighboursMeaning(p: Position3D)
    ensures forall i, j | 0 <= i < j < |Neighbours(p)| :: Neighbours(p)[i] != Neighbours(p)[j]
    ensures forall q :: q in Neighbours(p) <==> Distance(p, q) == 1
  {
    var ns := Neighbours(p);
    forall q | Distance(p, q) == 1
      ensures q in ns
    {
      if q.x != p.x {
        assert q == ns[0] || q == ns[1];
      } else if q.y != p.y {
        assert q == ns[2] || q == ns[3];
      } else {
        assert q == ns[4] || q == ns[5];
      }
    }
  }

  /** Being neighbours is symmetric, and no cube is its own neighbour. */
  lemma NeighbourSymmetric(p: Position3D, q: Position3D)
    ensures q in Neighbours(p) <==> p in Neighbours(q)
    ensures p !in Neighbours(p)
  {
    NeighboursMeaning(p);
    NeighboursMeaning(q);
    assert Distance(p, q) == Distance(q, p);
  }

  // ---------------------------------------------------------------------
  // Parsing
  // ---------------------------------------------------------------------

  /**
   * `Position3D.parse`: the first three comma-separated fields as
   * integers. Fewer than three fields throw; further fields are ignored.
   */
  function Parse(line: string): (r: Result<Position3D>)
    ensures |Split(line, ",")| < 3 ==> r.Err?
    ensures |Split(line, ",")| >= 3 ==>
      var parts := Split(line, ",");
      (r.Ok? <==> ParseInt(parts[0]).Some? && ParseInt(parts[1]).Some? && ParseInt(parts[2]).Some?)
      && (r.Ok? ==> r.value == Position3D(ParseInt(parts[0]).value, ParseInt(parts[1]).value, ParseInt(parts[2]).value))
  {
    var parts := Split(line, ",");
    if |parts| < 3 then Err("IndexOutOfBoundsException")
    else
      match (ParseInt(parts[0]), ParseInt(parts[1]), ParseInt(parts[2]))
      case (Some(x), Some(y), Some(z)) => Ok(Position3D(x, y, z))
      case _ => Err("NumberFormatException")
  }

  function Render(p: Position3D): string {
    IntToString(p.x) + "," + IntToString(p.y) + "," + IntToString(p.z)
  }

  /** A written position whose coordinates are 32-bit integers is read back. */
  lemma ParseRender(p: Position3D)
    requires MinInt <= p.x <= MaxInt && MinInt <= p.y <= MaxInt && MinInt <= p.z <= MaxInt
    ensures Parse(Render(p)) == Ok(p)
  {
    ParseRenderFields(p, []);
    assert Render(p) + [] == Render(p);
  }

  /** Anything after a third comma does not change the position read. */
  lemma ParseIgnoresExtraFields(p: Position3D, rest: string)
    requires MinInt <= p.x <= MaxInt && MinInt <= p.y <= MaxInt && MinInt <= p.z <= MaxInt
    ensures Parse(Render(p) + "," + rest) == Ok(p)
  {
    ParseRenderFields(p, "," + rest);
    assert Render(p) + "," + rest == Render(p) + ("," + rest);
  }

  lemma ParseRenderFields(p: Position3D, tail: string)
    requires MinInt <= p.x <= MaxInt && MinInt <= p.y <= MaxInt && MinInt <= p.z <= MaxInt
    requires tail == [] || tail[0] == ','
    ensures Parse(Render(p) + tail) == Ok(p)
  {
    SplitRendered(p, tail);
    ParseIntRoundTrip(p.x);
    ParseIntRoundTrip(p.y);
    ParseIntRoundTrip(p.z);
  }

  /** The first three fields of a written position are its three coordinates. */
  lemma SplitRendered(p: Position3D, tail: string)
    requires tail == [] || tail[0] == ','
    ensures var parts := Split(Render(p) + tail, ",");
      |parts| >= 3 && parts[0] == IntToString(p.x) && parts[1] == IntToString(p.y) && parts[2] == IntToString(p.z)
  {
    IntToStringAvoids(p.x, ',');
    IntToStringAvoids(p.y, ',');
    IntToStringAvoids(p.z, ',');
    SplitThree(IntToString(p.x), IntToString(p.y), IntToString(p.z), tail);
  }

  lemma SplitThree(xs: string, ys: string, zs: string, tail: string)
    requires ',' !in xs && ',' !in ys && ',' !in zs
    requires tail == [] || tail[0] == ','
    ensures var parts := Split(xs + "," + ys + "," + zs + tail, ",");
      |parts| >= 3 && parts[0] == xs && parts[1] == ys && parts[2] == zs
  {
    var third := zs + tail;
    var second := ys + [','] + third;
    assert xs + "," + ys + "," + zs + tail == xs + [','] + second;
    SplitFirst(xs, ',', second);
    SplitFirst(ys, ',', third);
    LastField(zs, tail);
  }

  lemma LastField(zs: string, tail: string)
    requires ',' !in zs
    requires tail == [] || tail[0] == ','
    ensures Split(zs + tail, ",")[0] == zs
  {
    if tail == [] {
      assert zs + tail == zs;
      SplitWithout(zs, ',');
    } else {
      assert zs + tail == zs + [','] + tail[1..];
      SplitFirst(zs, ',', tail[1..]);
    }
  }

  // ---------------------------------------------------------------------
  // The point cloud
  // ---------------------------------------------------------------------

  /** Insertion into an insertion-ordered set: a new cube goes at the end, a known one is ignored. */
  function Inserted(voxels: seq<Position3D>, v: Position3D): seq<Position3D> {
    if v in voxels then voxels else voxels + [v]
  }

  /** Insertion keeps the cubes distinct, adds exactly `v`, and is idempotent. */
  lemma InsertedMeaning(voxels: seq<Position3D>, v: Position3D)
    ensures AllDistinct(voxels) ==> AllDistinct(Inserted(voxels, v))
    ensures forall w :: w in Inserted(voxels, v) <==> w in voxels || w == v
    ensures Inserted(Inserted(voxels, v), v) == Inserted(voxels, v)
  {
  }

  /**
   * The cloud built by adding `points` in order: it holds every added cube
   * exactly once and nothing else.
   */
  function Deduplicated(points: seq<Position3D>): (r: seq<Position3D>)
    ensures AllDistinct(r)
    ensures forall w :: w in r <==> w in points
  {
    if points == [] then []
    else
      var init := points[..|points| - 1];
      InsertedMeaning(Deduplicated(init), points[|points| - 1]);
      assert points == init + [points[|points| - 1]];
      Inserted(Deduplicated(init), points[|points| - 1])
  }

  /** How many of `cubes` are not in the cloud. */
  function CountAbsent(cubes: seq<Position3D>, cloud: seq<Position3D>): (r: nat)
    ensures r <= |cubes|
  {
    if cubes == [] then 0
    else CountAbsent(cubes[..|cubes| - 1], cloud) + (if cubes[|cubes| - 1] in cloud then 0 else 1)
  }

  /** The free faces of every cube of `cubes`: pairs (cube, neighbour) with the neighbour outside the cloud. */
  function FreeFaces(cubes: seq<Position3D>, cloud: seq<Position3D>): (r: nat)
    ensures r <= 6 * |cubes|
  {
    if cubes == [] then 0
    else FreeFaces(cubes[..|cubes| - 1], cloud) + CountAbsent(Neighbours(cubes[|cubes| - 1]), cloud)
  }

  /** `calculateSurfaceArea`: the free faces of the whole cloud. */
  function SurfaceArea(voxels: seq<Position3D>): (r: nat)
    ensures r <= 6 * |voxels|
  {
    FreeFaces(voxels, voxels)
  }

  /** Counting cubes none of which, or all but one of which, lie outside the cloud. */
  lemma {:induction false} CountAbsentAllButOne(cubes: seq<Position3D>, cloud: seq<Position3D>, present: int)
    requires forall i | 0 <= i < |cubes| :: (cubes[i] in cloud <==> i == present)
    ensures CountAbsent(cubes, cloud) == if 0 <= present < |cubes| then |cubes| - 1 else |cubes|
  {
    if cubes != [] {
      var init := cubes[..|cubes| - 1];
      assert forall i | 0 <= i < |init| :: init[i] == cubes[i];
      CountAbsentAllButOne(init, cloud, present);
    }
  }

  /** A lone cube shows all six faces. */
  lemma SingleCube(v: Position3D)
    ensures SurfaceArea([v]) == 6
  {
    NeighbourSymmetric(v, v);
    var ns := Neighbours(v);
    CountAbsentAllButOne(ns, [v], -1);
    assert [v][..0] == [];
  }

  /** Only membership in the cloud matters when counting absent cubes. */
  lemma {:induction false} CountAbsentSameMembers(cubes: seq<Position3D>, a: seq<Position3D>, b: seq<Position3D>)
    requires forall w :: w in a <==> w in b
    ensures CountAbsent(cubes, a) == CountAbsent(cubes, b)
  {
    if cubes != [] {
      CountAbsentSameMembers(cubes[..|cubes| - 1], a, b);
    }
  }

  lemma {:induction false} FreeFacesSameMembers(cubes: seq<Position3D>, a: seq<Position3D>, b: seq<Position3D>)
    requires forall w :: w in a <==> w in b
    ensures FreeFaces(cubes, a) == FreeFaces(cubes, b)
  {
    if cubes != [] {
      FreeFacesSameMembers(cubes[..|cubes| - 1], a, b);
      CountAbsentSameMembers(Neighbours(cubes[|cubes| - 1]), a, b);
    }
  }

  lemma {:induction false} FreeFacesConcat(s: seq<Position3D>, t: seq<Position3D>, cloud: seq<Position3D>)
    ensures FreeFaces(s + t, cloud) == FreeFaces(s, cloud) + FreeFaces(t, cloud)
    decreases |t|
  {
    if t == [] {
      assert s + t == s;
    } else {
      assert (s + t)[..|s + t| - 1] == s + t[..|t| - 1];
      FreeFacesConcat(s, t[..|t| - 1], cloud);
    }
  }

  /** Counting the cubes in another order gives the same total. */
  lemma {:induction false} FreeFacesPermutation(s: seq<Position3D>, t: seq<Position3D>, cloud: seq<Position3D>)
    requires multiset(s) == multiset(t)
    ensures FreeFaces(s, cloud) == FreeFaces(t, cloud)
    decreases |s|
  {
    if s != [] {
      var v := s[|s| - 1];
      assert s == s[..|s| - 1] + [v];
      assert v in multiset(t);
      var j :| 0 <= j < |t| && t[j] == v;
      var rest := t[..j] + t[j + 1..];
      assert t == t[..j] + [v] + t[j + 1..];
      assert multiset(rest) == multiset(t) - multiset{v};
      FreeFacesPermutation(s[..|s| - 1], rest, cloud);
      FreeFacesConcat(t[..j] + [v], t[j + 1..], cloud);
      FreeFacesConcat(t[..j], [v], cloud);
      FreeFacesConcat(t[..j], t[j + 1..], cloud);
      assert FreeFaces([v], cloud) == CountAbsent(Neighbours(v), cloud) by {
        assert [v][..0] == [];
      }
    }
  }

  /** A list without repeats counts each of its members once. */
  lemma {:induction false} DistinctMultiplicity(s: seq<Position3D>, w: Position3D)
    requires AllDistinct(s)
    ensures multiset(s)[w] == if w in s then 1 else 0
  {
    if s != [] {
      var init := s[..|s| - 1];
      assert s == init + [s[|s| - 1]];
      DistinctMultiplicity(init, w);
    }
  }

  /**
   * The surface area is a property of the set of cubes: any two
   * duplicate-free lists of the same cubes have the same surface area,
   * whatever order the cubes were added in.
   */
  lemma SurfaceAreaOfSet(a: seq<Position3D>, b: seq<Position3D>)
    requires AllDistinct(a) && AllDistinct(b)
    requires forall w :: w in a <==> w in b
    ensures SurfaceArea(a) == SurfaceArea(b)
  {
    forall w
      ensures multiset(a)[w] == multiset(b)[w]
    {
      DistinctMultiplicity(a, w);
      DistinctMultiplicity(b, w);
    }
    assert multiset(a) == multiset(b);
    FreeFacesPermutation(a, b, a);
    FreeFacesSameMembers(b, a, b);
  }

  /** Two cubes sharing a face hide that face on both: ten faces remain. */
  lemma TwoTouchingCubes(v: Position3D, w: Position3D)
    requires w in Neighbours(v)
    ensures SurfaceArea([v, w]) == 10
  {
    NeighbourSymmetric(v, w);
    NeighbourSymmetric(v, v);
    NeighbourSymmetric(w, w);
    NeighboursMeaning(v);
    NeighboursMeaning(w);
    OneNeighbourPresent(v, w, [v, w]);
    OneNeighbourPresent(w, v, [v, w]);
    var cloud := [v, w];
    assert cloud[..1] == [v] && [v][..0] == [];
    assert FreeFaces([v], cloud) == CountAbsent(Neighbours(v), cloud);
    assert FreeFaces(cloud, cloud) == FreeFaces([v], cloud) + CountAbsent(Neighbours(w), cloud);
  }

  /** Exactly one neighbour of `v`, namely `w`, lies in a cloud of `v` and `w`. */
  lemma OneNeighbourPresent(v: Position3D, w: Position3D, cloud: seq<Position3D>)
    requires w in Neighbours(v) && v !in Neighbours(v)
    requires forall u :: u in cloud <==> u == v || u == w
    ensures CountAbsent(Neighbours(v), cloud) == 5
  {
    var ns := Neighbours(v);
    NeighboursMeaning(v);
    var k :| 0 <= k < 6 && ns[k] == w;
    assert forall i | 0 <= i < 6 :: (ns[i] in cloud <==> i == k);
    CountAbsentAllButOne(ns, cloud, k);
  }

  /** The lava droplet: cubes kept in insertion order without repeats. */
  class PointCloud {
    var voxels: seq<Position3D>

    predicate Valid()
      reads this
    {
      AllDistinct(voxels)
    }

    constructor()
      ensures Valid() && voxels == []
    {
      voxels := [];
    }

    /** `add`: set insertion. */
    method Add(voxelPosition: Position3D)
      requires Valid()
      modifies this
      ensures Valid()
      ensures voxels == Inserted(old(voxels), voxelPosition)
    {
      InsertedMeaning(voxels, voxelPosition);
      if voxelPosition !in voxels {
        voxels := voxels + [voxelPosition];
      }
    }

    /** `calculateSurfaceArea`: for every cube, one per neighbour missing from the cloud. */
    method CalculateSurfaceArea() returns (totalFreeSides: int)
      ensures totalFreeSides == SurfaceArea(voxels)
    {
      totalFreeSides := 0;
      var i := 0;
      while i < |voxels|
        invariant i <= |voxels|
        invariant totalFreeSides == FreeFaces(voxels[..i], voxels)
      {
        var voxel := voxels[i];
        var neighbours := Neighbours(voxel);
        var base := totalFreeSides;
        var k := 0;
        while k < |neighbours|
          invariant k <= |neighbours|
          invariant totalFreeSides == base + CountAbsent(neighbours[..k], voxels)
        {
          if neighbours[k] !in voxels {
            totalFreeSides := totalFreeSides + 1;
          }
          assert neighbours[..k + 1][..k] == neighbours[..k];
          k := k + 1;
        }
        assert neighbours[..k] == neighbours;
        assert voxels[..i + 1][..i] == voxels[..i];
        i := i + 1;
      }
      assert voxels[..i] == voxels;
    }
  }

  /** The first `|points|` lines read as `points`. */
  ghost predicate ReadAs(lines: seq<string>, points: seq<Position3D>) {
    |points| <= |lines| && forall j | 0 <= j < |points| :: Parse(lines[j]) == Ok(points[j])
  }

  /** Reading one more line adds its cube to the points read. */
  lemma ReadOneMore(lines: seq<string>, points: seq<Position3D>, voxel: Position3D)
    requires ReadAs(lines, points) && |points| < |lines| && Parse(lines[|points|]) == Ok(voxel)
    ensures ReadAs(lines, points + [voxel])
  {
    forall j | 0 <= j < |points| + 1 ensures Parse(lines[j]) == Ok((points + [voxel])[j]) {
      if j < |points| {
        assert (points + [voxel])[j] == points[j];
      }
    }
  }

  /** Adding one more cube to the cloud inserts it. */
  lemma DeduplicatedSnoc(points: seq<Position3D>, voxel: Position3D)
    ensures Deduplicated(points + [voxel]) == Inserted(Deduplicated(points), voxel)
  {
    var ps := points + [voxel];
    assert ps[..|ps| - 1] == points;
  }

  /**
   * Part 1: every line parsed and added to the cloud, then its surface
   * area; the first unreadable line fails the whole input.
   */
  method Part1(rawInput: seq<string>) returns (r: Result<int>)
    ensures ParseEach(Parse, rawInput).Err? ==> r == Err(ParseEach(Parse, rawInput).message)
    ensures ParseEach(Parse, rawInput).Ok? ==> r == Ok(SurfaceArea(Deduplicated(ParseEach(Parse, rawInput).value)))
  {
    var pointCloud := new PointCloud();
    ghost var points: seq<Position3D> := [];
    var i := 0;
    while i < |rawInput|
      invariant i <= |rawInput| && |points| == i && ReadAs(rawInput, points)
      invariant pointCloud.Valid() && pointCloud.voxels == Deduplicated(points)
    {
      var parsed := Parse(rawInput[i]);
      if parsed.Err? {
        ParseEachFirstErr(Parse, rawInput, i);
        return Err(parsed.message);
      }
      var voxel := parsed.value;
      pointCloud.Add(voxel);
      ReadOneMore(rawInput, points, voxel);
      DeduplicatedSnoc(points, voxel);
      points := points + [voxel];
      i := i + 1;
    }
    ParseEachAllOk(Parse, rawInput, points);
    var area := pointCloud.CalculateSurfaceArea();
    return Ok(area);
  }
}
