/** Day 15: sensors, each of which knows its closest beacon, and the positions
    on one row where no beacon can be. */
module Day15 {
  import opened Wrappers
  import opened Text
  import opened Positions
  import opened Lists

  // ---------------------------------------------------------------------
  // Sensors
  // ---------------------------------------------------------------------

  datatype Sensor = Sensor(sensorPosition: Position, beaconPosition: Position)

  /** Kotlin's `IntRange(first, last)`, both ends included. */
  datatype Range = Range(first: int, last: int)

  /** The beacon's distance from the sensor, measured either way; zero only when they coincide. */
  function DistanceToBeacon(s: Sensor): (r: nat)
    ensures r == ManhattanDistanceTo(s.beaconPosition, s.sensorPosition)
    ensures r == 0 <==> s.sensorPosition == s.beaconPosition
  {
    ManhattanDistanceTo(s.sensorPosition, s.beaconPosition)
  }

  /** The columns the sensor can reach, centred on it. */
  function XSensingRange(s: Sensor): (r: Range)
    ensures r.first <= s.sensorPosition.x <= r.last
    ensures r.last - r.first == 2 * DistanceToBeacon(s)
  {
    Range(s.sensorPosition.x - DistanceToBeacon(s), s.sensorPosition.x + DistanceToBeacon(s))
  }

  /**
   * No beacon can be closer to the sensor than its own closest one. The
   * sensor's own beacon is always within reach, and the sensor itself is
   * too; every position it can sense lies in its `xSensingRange`.
   */
  function CouldSense(s: Sensor, p: Position): (b: bool)
    ensures p == s.beaconPosition || p == s.sensorPosition ==> b
    ensures b ==> XSensingRange(s).first <= p.x <= XSensingRange(s).last
  {
    ManhattanDistanceTo(s.sensorPosition, p) <= DistanceToBeacon(s)
  }

  /** On the sensor's own row, the range is exactly the sensed columns. */
  lemma RangeIsTight(s: Sensor, x: int)
    requires XSensingRange(s).first <= x <= XSensingRange(s).last
    ensures CouldSense(s, Position(x, s.sensorPosition.y))
  {
  }

  // ---------------------------------------------------------------------
  // Parsing
  // ---------------------------------------------------------------------

  /** The length of the run of decimal digits at the start of `s`. */
  function DigitRun(s: string): (n: nat)
    ensures n <= |s|
    ensures forall i | 0 <= i < n :: IsDigit(s[i])
    ensures n < |s| ==> !IsDigit(s[n])
  {
    if s != [] && IsDigit(s[0]) then 1 + DigitRun(s[1..]) else 0
  }

  /** A run of digits followed by a non-digit is read in full. */
  lemma {:induction false} DigitRunOf(digits: string, rest: string)
    requires AllDigits(digits)
    requires rest == [] || !IsDigit(rest[0])
    ensures DigitRun(digits + rest) == |digits|
  {
    if digits != [] {
      assert (digits + rest)[1..] == digits[1..] + rest;
      DigitRunOf(digits[1..], rest);
    }
  }

  /** The group `-?\d+`, matched greedily, and the text after it. */
  function SignedNumber(s: string): (r: Option<(string, string)>)
    ensures r.Some? ==> r.value.0 + r.value.1 == s && r.value.0 != []
  {
    var sign := if s != [] && s[0] == '-' then 1 else 0;
    var n := DigitRun(s[sign..]);
    if n == 0 then None else Some((s[..sign + n], s[sign + n..]))
  }

  /** A literal, then a `-?\d+` group: the group and the text after it. */
  function Field(s: string, literal: string): (r: Option<(string, string)>)
  {
    if StartsWith(s, literal) then SignedNumber(s[|literal|..]) else None
  }

  /**
   * Alternating literals and `-?\d+` groups, ending at the end of the line:
   * the groups. A greedy digit run is the only possible match when each
   * following literal starts with a non-digit.
   */
  function MatchFields(s: string, literals: seq<string>): (r: Option<seq<string>>)
    ensures r.Some? ==> |r.value| == |literals|
    decreases |literals|
  {
    if literals == [] then (if s == [] then Some([]) else None)
    else
      match Field(s, literals[0])
      case None => None
      case Some(field) =>
        match MatchFields(field.1, literals[1..])
        case None => None
        case Some(groups) => Some([field.0] + groups)
  }

  /** The literal parts of the sensor line pattern. */
  const SensorLiterals := ["Sensor at x=", ", y=", ": closest beacon is at x=", ", y="]

  /** `matchEntire` with the sensor line pattern: the four number groups. */
  function MatchSensorLine(line: string): (r: Option<seq<string>>)
    ensures r.Some? ==> |r.value| == 4
  {
    MatchFields(line, SensorLiterals)
  }

  /** `parseSensor`: a line that does not match, or a group `toInt` rejects, throws. */
  function ParseSensor(line: string): (r: Result<Sensor>)
    ensures MatchSensorLine(line).None? ==> r.Err?
    ensures MatchSensorLine(line).Some? ==>
      var g := MatchSensorLine(line).value;
      (r.Ok? <==> ParseInt(g[0]).Some? && ParseInt(g[1]).Some? && ParseInt(g[2]).Some? && ParseInt(g[3]).Some?)
      && (r.Ok? ==>
        r.value == Sensor(Position(ParseInt(g[0]).value, ParseInt(g[1]).value), Position(ParseInt(g[2]).value, ParseInt(g[3]).value)))
  {
    match MatchSensorLine(line)
    case None => Err("Invalid input line: " + line)
    case Some(g) =>
      var sensorX := ParseInt(g[0]);
      var sensorY := ParseInt(g[1]);
      var beaconX := ParseInt(g[2]);
      var beaconY := ParseInt(g[3]);
      if sensorX.None? || sensorY.None? || beaconX.None? || beaconY.None? then Err("NumberFormatException")
      else Ok(Sensor(Position(sensorX.value, sensorY.value), Position(beaconX.value, beaconY.value)))
  }

  /** Literals interleaved with written numbers, one number after each literal. */
  function RenderFields(literals: seq<string>, values: seq<int>): string
    requires |literals| == |values|
  {
    if literals == [] then [] else literals[0] + IntToString(values[0]) + RenderFields(literals[1..], values[1..])
  }

  function WrittenNumbers(values: seq<int>): (r: seq<string>)
    ensures |r| == |values|
  {
    if values == [] then [] else [IntToString(values[0])] + WrittenNumbers(values[1..])
  }

  /** The input line that describes a sensor. */
  function RenderSensor(s: Sensor): string {
    RenderFields(SensorLiterals, [s.sensorPosition.x, s.sensorPosition.y, s.beaconPosition.x, s.beaconPosition.y])
  }

  /** A literal followed by a written number is matched up to the next non-digit. */
  lemma FieldOfRendered(literal: string, i: int, rest: string)
    requires rest == [] || !IsDigit(rest[0])
    ensures Field(literal + IntToString(i) + rest, literal) == Some((IntToString(i), rest))
  {
    var s := literal + IntToString(i) + rest;
    assert s[..|literal|] == literal;
    assert s[|literal|..] == IntToString(i) + rest;
    SignedNumberOfRendered(i, rest);
  }

  /** A written number followed by a non-digit is matched in full by `-?\d+`. */
  lemma SignedNumberOfRendered(i: int, rest: string)
    requires rest == [] || !IsDigit(rest[0])
    ensures SignedNumber(IntToString(i) + rest) == Some((IntToString(i), rest))
  {
    var digits := NatToString(if i < 0 then -i else i);
    if i < 0 {
      SignedNumberOfDigits("-", digits, rest);
    } else {
      SignedNumberOfDigits([], digits, rest);
      assert [] + digits == digits;
    }
  }

  lemma SignedNumberOfDigits(sign: string, digits: string, rest: string)
    requires sign == [] || sign == "-"
    requires digits != [] && AllDigits(digits)
    requires rest == [] || !IsDigit(rest[0])
    ensures SignedNumber(sign + digits + rest) == Some((sign + digits, rest))
  {
    var t := sign + digits + rest;
    DigitRunOf(digits, rest);
    assert t[|sign|..] == digits + rest;
    assert t[..|sign| + |digits|] == sign + digits;
    assert t[|sign| + |digits|..] == rest;
    if sign == [] {
      assert IsDigit(t[0]);
    }
  }

  /** Written numbers are matched back, provided every later literal starts with a non-digit. */
  lemma {:induction false} MatchRendered(literals: seq<string>, values: seq<int>)
    requires |literals| == |values|
    requires forall k | 1 <= k < |literals| :: literals[k] != [] && !IsDigit(literals[k][0])
    ensures MatchFields(RenderFields(literals, values), literals) == Some(WrittenNumbers(values))
    decreases |literals|
  {
    if literals != [] {
      var rest := RenderFields(literals[1..], values[1..]);
      assert forall k | 1 <= k < |literals| - 1 :: literals[1..][k] == literals[k + 1];
      MatchRendered(literals[1..], values[1..]);
      if literals[1..] != [] {
        assert rest == literals[1] + IntToString(values[1]) + RenderFields(literals[2..], values[2..]);
        assert rest[0] == literals[1][0];
      }
      FieldOfRendered(literals[0], values[0], rest);
    }
  }

  lemma {:induction false} WrittenNumbersAt(values: seq<int>, k: nat)
    requires k < |values|
    ensures WrittenNumbers(values)[k] == IntToString(values[k])
  {
    if k > 0 {
      WrittenNumbersAt(values[1..], k - 1);
    }
  }

  lemma SensorLiteralsStartNonDigit()
    ensures forall k | 1 <= k < |SensorLiterals| :: SensorLiterals[k] != [] && !IsDigit(SensorLiterals[k][0])
  {
    assert SensorLiterals[1][0] == ',';
    assert SensorLiterals[2][0] == ':';
    assert SensorLiterals[3][0] == ',';
  }

  /** Every sensor with 32-bit coordinates is read back from its line. */
  lemma ParseRenderSensor(s: Sensor)
    requires MinInt <= s.sensorPosition.x <= MaxInt && MinInt <= s.sensorPosition.y <= MaxInt
    requires MinInt <= s.beaconPosition.x <= MaxInt && MinInt <= s.beaconPosition.y <= MaxInt
    ensures ParseSensor(RenderSensor(s)) == Ok(s)
  {
    var values := [s.sensorPosition.x, s.sensorPosition.y, s.beaconPosition.x, s.beaconPosition.y];
    SensorLiteralsStartNonDigit();
    MatchRendered(SensorLiterals, values);
    var g := WrittenNumbers(values);
    assert MatchSensorLine(RenderSensor(s)) == Some(g);
    forall k | 0 <= k < 4
      ensures ParseInt(g[k]) == Some(values[k])
    {
      WrittenNumbersAt(values, k);
      ParseIntRoundTrip(values[k]);
    }
  }

  /** `rawInput.map { parseSensor(it) }`. */
  function ParseSensors(lines: seq<string>): Result<seq<Sensor>> {
    ParseEach(ParseSensor, lines)
  }

  // ---------------------------------------------------------------------
  // Part 1: the row scan
  // ---------------------------------------------------------------------

  /** `minOfOrNull { it.xSensingRange.first }`. */
  function MinFirst(sensors: seq<Sensor>): (r: Option<int>)
    ensures r.Some? <==> sensors != []
    ensures r.Some? ==> forall k | 0 <= k < |sensors| :: r.value <= XSensingRange(sensors[k]).first
    ensures r.Some? ==> exists k | 0 <= k < |sensors| :: r.value == XSensingRange(sensors[k]).first
  {
    if sensors == [] then None
    else
      var head := XSensingRange(sensors[0]).first;
      match MinFirst(sensors[1..])
      case None => Some(head)
      case Some(m) => Some(if head <= m then head else m)
  }

  /** `maxOfOrNull { it.xSensingRange.last }`. */
  function MaxLast(sensors: seq<Sensor>): (r: Option<int>)
    ensures r.Some? <==> sensors != []
    ensures r.Some? ==> forall k | 0 <= k < |sensors| :: XSensingRange(sensors[k]).last <= r.value
    ensures r.Some? ==> exists k | 0 <= k < |sensors| :: r.value == XSensingRange(sensors[k]).last
  {
    if sensors == [] then None
    else
      var head := XSensingRange(sensors[0]).last;
      match MaxLast(sensors[1..])
      case None => Some(head)
      case Some(m) => Some(if head >= m then head else m)
  }

  /** A position the sensor rules out: sensed, and not the sensor's own beacon. */
  predicate RulesOut(s: Sensor, p: Position) {
    CouldSense(s, p) && p != s.beaconPosition
  }

  /** The positions of row `y` in columns `lo..hi` that the sensor rules out. */
  function RowRuledOut(s: Sensor, y: int, lo: int, hi: int): set<Position> {
    set x | lo <= x <= hi && RulesOut(s, Position(x, y)) :: Position(x, y)
  }

  lemma RowRuledOutMember(s: Sensor, y: int, lo: int, hi: int, p: Position)
    ensures p in RowRuledOut(s, y, lo, hi) <==> p.y == y && lo <= p.x <= hi && RulesOut(s, p)
  {
    if p.y == y && lo <= p.x <= hi && RulesOut(s, p) {
      assert p == Position(p.x, y);
    }
  }

  lemma RowRuledOutStep(s: Sensor, y: int, lo: int, x: int)
    requires lo <= x
    ensures RowRuledOut(s, y, lo, x) ==
      RowRuledOut(s, y, lo, x - 1) + if RulesOut(s, Position(x, y)) then {Position(x, y)} else {}
  {
  }

  lemma RowRuledOutEmpty(s: Sensor, y: int, lo: int, hi: int)
    requires hi < lo
    ensures RowRuledOut(s, y, lo, hi) == {}
  {
  }

  /** Scanning `lo..hi` finds every position the sensor rules out on the row, once the window holds its range. */
  lemma RowWindow(s: Sensor, y: int, lo: int, hi: int)
    requires lo <= XSensingRange(s).first && XSensingRange(s).last <= hi
    ensures RowRuledOut(s, y, lo, hi) == RowRuledOut(s, y, XSensingRange(s).first, XSensingRange(s).last)
  {
    forall p | p in RowRuledOut(s, y, lo, hi)
      ensures p in RowRuledOut(s, y, XSensingRange(s).first, XSensingRange(s).last)
    {
    }
  }

  /** What the scan over columns `lo..hi` collects for the given sensors. */
  function Scanned(sensors: seq<Sensor>, y: int, lo: int, hi: int): set<Position>
    decreases |sensors|
  {
    if sensors == [] then {}
    else Scanned(sensors[..|sensors| - 1], y, lo, hi) + RowRuledOut(sensors[|sensors| - 1], y, lo, hi)
  }

  /** The positions of row `y` where some sensor rules a beacon out, each sensor over its own range. */
  function NoBeaconRow(sensors: seq<Sensor>, y: int): (r: set<Position>)
    ensures forall p | p in r :: p.y == y
    decreases |sensors|
  {
    if sensors == [] then {}
    else
      var last := sensors[|sensors| - 1];
      NoBeaconRow(sensors[..|sensors| - 1], y) + RowRuledOut(last, y, XSensingRange(last).first, XSensingRange(last).last)
  }

  /** A position is counted iff it is on row `y` and some sensor rules it out. */
  lemma {:induction false} NoBeaconRowMeaning(sensors: seq<Sensor>, y: int, p: Position)
    ensures p in NoBeaconRow(sensors, y) <==> p.y == y && exists k | 0 <= k < |sensors| :: RulesOut(sensors[k], p)
    decreases |sensors|
  {
    if sensors != [] {
      var init, last := sensors[..|sensors| - 1], sensors[|sensors| - 1];
      NoBeaconRowMeaning(init, y, p);
      RowRuledOutMember(last, y, XSensingRange(last).first, XSensingRange(last).last, p);
      RulesOutSnoc(sensors, p);
    }
  }

  /** Some sensor of a list rules `p` out iff one before the last does or the last does. */
  lemma RulesOutSnoc(sensors: seq<Sensor>, p: Position)
    requires sensors != []
    ensures var init, last := sensors[..|sensors| - 1], sensors[|sensors| - 1];
      (exists k | 0 <= k < |sensors| :: RulesOut(sensors[k], p))
      <==> (exists k | 0 <= k < |init| :: RulesOut(init[k], p)) || RulesOut(last, p)
  {
    var init := sensors[..|sensors| - 1];
    if exists k | 0 <= k < |sensors| :: RulesOut(sensors[k], p) {
      var k :| 0 <= k < |sensors| && RulesOut(sensors[k], p);
      if k < |init| {
        assert init[k] == sensors[k];
      }
    }
    if exists k | 0 <= k < |init| :: RulesOut(init[k], p) {
      var k :| 0 <= k < |init| && RulesOut(init[k], p);
      assert sensors[k] == init[k];
    }
  }

  /** A window that holds every sensor's range scans exactly the ruled-out positions. */
  lemma {:induction false} WindowCovers(sensors: seq<Sensor>, y: int, lo: int, hi: int)
    requires forall k | 0 <= k < |sensors| :: lo <= XSensingRange(sensors[k]).first && XSensingRange(sensors[k]).last <= hi
    ensures Scanned(sensors, y, lo, hi) == NoBeaconRow(sensors, y)
    decreases |sensors|
  {
    if sensors != [] {
      var init := sensors[..|sensors| - 1];
      assert forall k | 0 <= k < |init| :: init[k] == sensors[k];
      WindowCovers(init, y, lo, hi);
      RowWindow(sensors[|sensors| - 1], y, lo, hi);
    }
  }

  function Max(a: int, b: int): int {
    if a >= b then a else b
  }

  /** The outer loop of `part1`: every sensor scanned over the window, in order. */
  method ScanAll(sensors: seq<Sensor>, y: int, minX: int, maxX: int) returns (emptyPositions: set<Position>)
    ensures emptyPositions == Scanned(sensors, y, minX, maxX)
  {
    emptyPositions := {};
    var i := 0;
    while i < |sensors|
      invariant 0 <= i <= |sensors|
      invariant emptyPositions == Scanned(sensors[..i], y, minX, maxX)
    {
      emptyPositions := ScanRow(sensors[i], y, minX, maxX, emptyPositions);
      assert sensors[..i + 1][..i] == sensors[..i];
      i := i + 1;
    }
    assert sensors[..i] == sensors;
  }

  /** `part1`'s window, one column beyond the outermost ranges on each side, holds every range. */
  lemma ScanWindow(sensors: seq<Sensor>, y: int, minX: int, maxX: int)
    requires sensors != []
    requires minX == MinFirst(sensors).value - 1 && maxX == MaxLast(sensors).value + 1
    ensures Scanned(sensors, y, minX, maxX) == NoBeaconRow(sensors, y)
  {
    WindowCovers(sensors, y, minX, maxX);
  }

  /** The inner `for (x in minX..maxX)` loop for one sensor. */
  method ScanRow(sensor: Sensor, y: int, minX: int, maxX: int, emptyPositions: set<Position>) returns (found: set<Position>)
    ensures found == emptyPositions + RowRuledOut(sensor, y, minX, maxX)
  {
    found := emptyPositions;
    var x := minX;
    while x <= maxX
      invariant minX <= x <= Max(minX, maxX + 1)
      invariant found == emptyPositions + RowRuledOut(sensor, y, minX, x - 1)
    {
      var candidate := Position(x, y);
      RowRuledOutStep(sensor, y, minX, x);
      if CouldSense(sensor, candidate) && candidate != sensor.beaconPosition {
        found := found + {candidate};
      }
      x := x + 1;
    }
    if maxX < minX {
      RowRuledOutEmpty(sensor, y, minX, x - 1);
      RowRuledOutEmpty(sensor, y, minX, maxX);
    }
  }

  /**
   * `part1`: the number of positions on row `y` where some sensor rules a
   * beacon out; unreadable input throws, and so does an empty input (`!!`
   * on the missing minimum).
   */
  method Part1(rawInput: seq<string>, y: int) returns (r: Result<int>)
    ensures r.Ok? <==> ParseSensors(rawInput).Ok? && rawInput != []
    ensures r.Ok? ==> r.value == |NoBeaconRow(ParseSensors(rawInput).value, y)|
  {
    var parsed := ParseSensors(rawInput);
    if parsed.Err? {
      return Err(parsed.message);
    }
    var sensors := parsed.value;
    var lowest, highest := MinFirst(sensors), MaxLast(sensors);
    if lowest.None? {
      return Err("null dereference");
    }
    var minX := lowest.value - 1;
    var maxX := highest.value + 1;
    var emptyPositions := ScanAll(sensors, y, minX, maxX);
    ScanWindow(sensors, y, minX, maxX);
    r := Ok(|emptyPositions|);
  }
}
