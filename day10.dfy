/**
 * Day 10: a one-register CPU driving a 40 x 6 screen. Every instruction
 * takes a number of cycles; during each cycle the pixel with the cycle's
 * index is lit when the three-pixel sprite centred on `X` covers its
 * column, and watched cycles record the value of `X` they see.
 */
module Day10 {
  import opened Wrappers
  import opened Text
  import Lists

  const ScreenWidth: int := 40
  const ScreenSize: int := 240

  datatype Operation = Operation(opcode: string, cost: int, arg: Option<int>)

  /** Kotlin's `%`: the remainder takes the sign of the dividend. */
  function Rem(a: int, b: int): (r: int)
    requires b > 0
    ensures a >= 0 ==> r == a % b
    ensures a < 0 ==> r == -((-a) % b)
  {
    if a >= 0 then a % b else -((-a) % b)
  }

  /** Pixel `k` is lit under register `x` when its column is within the sprite `x-1 .. x+1`. */
  predicate Lit(k: int, x: int) {
    x - 1 <= Rem(k, ScreenWidth) <= x + 1
  }

  // ---------------------------------------------------------------------
  // One instruction, as a value
  // ---------------------------------------------------------------------

  /** What the simulator can observe: register, elapsed cycles, recorded watches and screen. */
  datatype Cpu = Cpu(x: int, cycle: int, watchValues: seq<(int, int)>, screen: seq<bool>)

  function Initial(): (c: Cpu)
    ensures |c.screen| == ScreenSize
  {
    Cpu(1, 0, [], seq(ScreenSize, _ => false))
  }

  /** Every pixel that `updateScreen` would light lies on the screen. */
  predicate ScreenFits(cycle: int, x: int, cost: int) {
    forall k | cycle <= k < cycle + cost :: Lit(k, x) ==> 0 <= k < ScreenSize
  }

  /**
   * The screen after `cost` cycles starting at `cycle`: the pixels the
   * sprite covers are added; `None` when one of them is off the screen.
   */
  function ScreenWith(screen: seq<bool>, cycle: int, x: int, cost: int): (r: Option<seq<bool>>)
    requires |screen| == ScreenSize
    ensures r.Some? <==> ScreenFits(cycle, x, cost)
    ensures r.Some? ==> |r.value| == ScreenSize
  {
    if ScreenFits(cycle, x, cost) then
      Some(seq(ScreenSize, i requires 0 <= i < ScreenSize => screen[i] || (cycle <= i < cycle + cost && Lit(i, x))))
    else None
  }

  /** The records `updateWatch` appends: each watched cycle in `cycle+1 .. cycle+cost`, in order. */
  function WatchHits(watchPoints: set<int>, cycle: int, count: int, x: int): (r: seq<(int, int)>)
    decreases count
  {
    if count <= 0 then []
    else WatchHits(watchPoints, cycle, count - 1, x) + (if cycle + count in watchPoints then [(cycle + count, x)] else [])
  }

  /** Exactly the watched cycles of the interval are recorded, with `x`, in increasing order. */
  lemma {:induction false} WatchHitsFacts(watchPoints: set<int>, cycle: int, count: int, x: int)
    ensures forall j | 0 <= j < |WatchHits(watchPoints, cycle, count, x)| ::
      var (c, v) := WatchHits(watchPoints, cycle, count, x)[j];
      c in watchPoints && cycle < c <= cycle + count && v == x
    ensures forall j, k | 0 <= j < k < |WatchHits(watchPoints, cycle, count, x)| ::
      WatchHits(watchPoints, cycle, count, x)[j].0 < WatchHits(watchPoints, cycle, count, x)[k].0
    ensures forall c | c in watchPoints && cycle < c <= cycle + count ::
      (c, x) in WatchHits(watchPoints, cycle, count, x)
    decreases count
  {
    if count > 0 {
      WatchHitsFacts(watchPoints, cycle, count - 1, x);
    }
  }

  /** `execute(operation)`: screen, then watches, then the cycle counter, then the register. */
  function ExecOne(cpu: Cpu, watchPoints: set<int>, op: Operation): (r: Result<Cpu>)
    requires |cpu.screen| == ScreenSize
    ensures r.Ok? ==> |r.value.screen| == ScreenSize
    ensures r.Ok? ==> r.value.cycle == cpu.cycle + op.cost
    ensures op.opcode != "noop" && op.opcode != "addx" ==> r.Err?
    ensures op.opcode == "addx" && op.arg.None? ==> r.Err?
  {
    match ScreenWith(cpu.screen, cpu.cycle, cpu.x, op.cost)
    case None => Err("Index out of bounds")
    case Some(screen) =>
      var watched := cpu.watchValues + WatchHits(watchPoints, cpu.cycle, op.cost, cpu.x);
      var cycle := cpu.cycle + op.cost;
      if op.opcode == "noop" then Ok(Cpu(cpu.x, cycle, watched, screen))
      else if op.opcode == "addx" then
        if op.arg.None? then Err("null dereference")
        else Ok(Cpu(cpu.x + op.arg.value, cycle, watched, screen))
      else Err("Unknown opcode: " + op.opcode)
  }

  /** `execute(operations)`: each instruction in order; the first failure stops the run. */
  function ExecAll(cpu: Cpu, watchPoints: set<int>, ops: seq<Operation>): (r: Result<Cpu>)
    requires |cpu.screen| == ScreenSize
    ensures r.Ok? ==> |r.value.screen| == ScreenSize
    ensures r.Ok? ==> r.value.cycle == cpu.cycle + Cycles(ops)
  {
    if ops == [] then Ok(cpu)
    else
      match ExecAll(cpu, watchPoints, ops[..|ops| - 1])
      case Err(e) => Err(e)
      case Ok(before) => ExecOne(before, watchPoints, ops[|ops| - 1])
  }

  lemma {:induction false} ExecFailureStays(cpu: Cpu, watchPoints: set<int>, ops: seq<Operation>, n: nat)
    requires |cpu.screen| == ScreenSize
    requires n <= |ops| && ExecAll(cpu, watchPoints, ops[..n]).Err?
    ensures ExecAll(cpu, watchPoints, ops).Err?
    decreases |ops| - n
  {
    if n < |ops| {
      assert ops[..n + 1][..n] == ops[..n];
      ExecFailureStays(cpu, watchPoints, ops, n + 1);
    } else {
      assert ops[..n] == ops;
    }
  }

  // ---------------------------------------------------------------------
  // The meaning of a program
  // ---------------------------------------------------------------------

  /** Instructions the simulator accepts, with a cost that does not run time backwards. */
  predicate WellFormed(op: Operation) {
    (op.opcode == "noop" || (op.opcode == "addx" && op.arg.Some?)) && op.cost >= 0
  }

  function Delta(op: Operation): int {
    if op.opcode == "addx" && op.arg.Some? then op.arg.value else 0
  }

  /** Cycles taken by a program. */
  function Cycles(ops: seq<Operation>): (r: int)
    ensures (forall i | 0 <= i < |ops| :: ops[i].cost >= 0) ==> r >= 0
  {
    if ops == [] then 0 else Cycles(ops[..|ops| - 1]) + ops[|ops| - 1].cost
  }

  /** The value of `X` during cycle `c`: 1 plus every change completed before `c`. */
  function XDuring(ops: seq<Operation>, c: int): int {
    if ops == [] then 1
    else XDuring(ops[..|ops| - 1], c) + (if Cycles(ops) < c then Delta(ops[|ops| - 1]) else 0)
  }

  /** The value of `X` while pixel `k` is drawn, during cycle `k + 1`. */
  function PixelX(ops: seq<Operation>, k: int): int {
    XDuring(ops, k + 1)
  }

  /** Reference records for the watched cycles `1 .. n`, each with `X` during that cycle. */
  function ReferenceWatch(ops: seq<Operation>, watchPoints: set<int>, n: int): seq<(int, int)>
    decreases n
  {
    if n <= 0 then []
    else ReferenceWatch(ops, watchPoints, n - 1) + (if n in watchPoints then [(n, XDuring(ops, n))] else [])
  }

  /** Reference screen: pixel `k` is lit iff it is drawn (`k` < cycles) and the sprite covers it then. */
  function ReferenceScreen(ops: seq<Operation>): (r: seq<bool>)
    ensures |r| == ScreenSize
  {
    seq(ScreenSize, k => k < Cycles(ops) && Lit(k, PixelX(ops, k)))
  }

  predicate AllWellFormed(ops: seq<Operation>) {
    forall i | 0 <= i < |ops| :: WellFormed(ops[i])
  }

  /** A run fails only when a lit pixel is off the screen. */
  predicate Drawable(ops: seq<Operation>) {
    forall k | 0 <= k < Cycles(ops) :: Lit(k, PixelX(ops, k)) ==> k < ScreenSize
  }

  /** Once a program has finished, `X` no longer changes. */
  lemma {:induction false} XSettled(ops: seq<Operation>, c: int)
    requires AllWellFormed(ops) && c > Cycles(ops)
    ensures XDuring(ops, c) == XDuring(ops, Cycles(ops) + 1)
  {
    if ops != [] {
      var init := ops[..|ops| - 1];
      assert AllWellFormed(init) by {
        forall i | 0 <= i < |init| ensures WellFormed(init[i]) {
          assert init[i] == ops[i];
        }
      }
      XSettled(init, c);
      XSettled(init, Cycles(ops) + 1);
    }
  }

  /** Before the last instruction ends, `X` is what the earlier ones left. */
  lemma LastNotYet(ops: seq<Operation>, c: int)
    requires ops != [] && c <= Cycles(ops)
    ensures XDuring(ops, c) == XDuring(ops[..|ops| - 1], c)
  {
  }

  lemma InitWellFormed(ops: seq<Operation>)
    requires ops != [] && AllWellFormed(ops)
    ensures AllWellFormed(ops[..|ops| - 1]) && WellFormed(ops[|ops| - 1])
    ensures Cycles(ops[..|ops| - 1]) <= Cycles(ops)
  {
    var init := ops[..|ops| - 1];
    forall i | 0 <= i < |init| ensures WellFormed(init[i]) {
      assert init[i] == ops[i];
    }
  }

  /** Watch records of the earlier instructions do not change when one is appended. */
  lemma {:induction false} ReferenceWatchAgrees(ops: seq<Operation>, watchPoints: set<int>, n: int)
    requires ops != [] && n <= Cycles(ops[..|ops| - 1]) && AllWellFormed(ops)
    ensures ReferenceWatch(ops, watchPoints, n) == ReferenceWatch(ops[..|ops| - 1], watchPoints, n)
    decreases n
  {
    if n > 0 {
      InitWellFormed(ops);
      ReferenceWatchAgrees(ops, watchPoints, n - 1);
      LastNotYet(ops, n);
    }
  }

  /** The records of the last instruction are the watched cycles it spans, with `X` before it. */
  lemma {:induction false} ReferenceWatchSplit(ops: seq<Operation>, watchPoints: set<int>, n: int)
    requires ops != [] && AllWellFormed(ops)
    requires Cycles(ops[..|ops| - 1]) <= n <= Cycles(ops)
    ensures var init := ops[..|ops| - 1];
      ReferenceWatch(ops, watchPoints, n)
      == ReferenceWatch(init, watchPoints, Cycles(init))
        + WatchHits(watchPoints, Cycles(init), n - Cycles(init), XDuring(init, Cycles(init) + 1))
    decreases n
  {
    var init := ops[..|ops| - 1];
    InitWellFormed(ops);
    if n == Cycles(init) {
      ReferenceWatchAgrees(ops, watchPoints, n);
    } else {
      ReferenceWatchSplit(ops, watchPoints, n - 1);
      LastNotYet(ops, n);
      XSettled(init, n);
      assert Cycles(init) + (n - Cycles(init)) == n;
    }
  }

  lemma ScreenStep(ops: seq<Operation>, screen: seq<bool>)
    requires ops != [] && AllWellFormed(ops)
    requires screen == ReferenceScreen(ops[..|ops| - 1])
    ensures var init := ops[..|ops| - 1];
      var x := XDuring(init, Cycles(init) + 1);
      (ScreenFits(Cycles(init), x, ops[|ops| - 1].cost) && Drawable(init) <==> Drawable(ops))
      && (ScreenFits(Cycles(init), x, ops[|ops| - 1].cost) ==>
          ScreenWith(screen, Cycles(init), x, ops[|ops| - 1].cost).value == ReferenceScreen(ops))
  {
    var init := ops[..|ops| - 1];
    var c0 := Cycles(init);
    var cost := ops[|ops| - 1].cost;
    var x := XDuring(init, c0 + 1);
    InitWellFormed(ops);
    forall k | 0 <= k < Cycles(ops)
      ensures PixelX(ops, k) == if k < c0 then PixelX(init, k) else x
    {
      LastNotYet(ops, k + 1);
      if k >= c0 {
        XSettled(init, k + 1);
      }
    }
    if ScreenFits(c0, x, cost) && Drawable(init) {
      forall k | 0 <= k < Cycles(ops) && Lit(k, PixelX(ops, k)) ensures k < ScreenSize {
        if k >= c0 {
          assert Lit(k, x);
        } else {
          assert Lit(k, PixelX(init, k));
        }
      }
    }
    if Drawable(ops) {
      forall k | 0 <= k < c0 && Lit(k, PixelX(init, k)) ensures k < ScreenSize {
        assert Lit(k, PixelX(ops, k));
      }
      forall k | c0 <= k < c0 + cost && Lit(k, x) ensures 0 <= k < ScreenSize {
        assert Lit(k, PixelX(ops, k));
      }
    }
  }

  /**
   * What a well-formed program does to a fresh simulator: it fails iff a
   * lit pixel falls off the screen; otherwise the cycle counter is the
   * program's length, `X` its final value, the records are exactly the
   * watched cycles with the value of `X` during each, and the screen is
   * the reference screen.
   */
  lemma {:induction false} ExecMeaning(watchPoints: set<int>, ops: seq<Operation>)
    requires AllWellFormed(ops)
    ensures ExecAll(Initial(), watchPoints, ops).Ok? <==> Drawable(ops)
    ensures ExecAll(Initial(), watchPoints, ops).Ok? ==>
      ExecAll(Initial(), watchPoints, ops).value
      == Cpu(XDuring(ops, Cycles(ops) + 1), Cycles(ops), ReferenceWatch(ops, watchPoints, Cycles(ops)), ReferenceScreen(ops))
  {
    if ops == [] {
      assert ReferenceScreen(ops) == Initial().screen;
    } else {
      InitWellFormed(ops);
      ExecMeaning(watchPoints, ops[..|ops| - 1]);
      ExecMeaningStep(watchPoints, ops);
    }
  }

  /** The inductive step of `ExecMeaning`: one more instruction at the end. */
  lemma ExecMeaningStep(watchPoints: set<int>, ops: seq<Operation>)
    requires ops != [] && AllWellFormed(ops) && AllWellFormed(ops[..|ops| - 1])
    requires var init := ops[..|ops| - 1];
      (ExecAll(Initial(), watchPoints, init).Ok? <==> Drawable(init))
      && (ExecAll(Initial(), watchPoints, init).Ok? ==>
        ExecAll(Initial(), watchPoints, init).value
        == Cpu(XDuring(init, Cycles(init) + 1), Cycles(init), ReferenceWatch(init, watchPoints, Cycles(init)), ReferenceScreen(init)))
    ensures ExecAll(Initial(), watchPoints, ops).Ok? <==> Drawable(ops)
    ensures ExecAll(Initial(), watchPoints, ops).Ok? ==>
      ExecAll(Initial(), watchPoints, ops).value
      == Cpu(XDuring(ops, Cycles(ops) + 1), Cycles(ops), ReferenceWatch(ops, watchPoints, Cycles(ops)), ReferenceScreen(ops))
  {
    var init := ops[..|ops| - 1];
    ExecAllLast(Initial(), watchPoints, ops);
    if Drawable(init) {
      ExecOneMeaning(watchPoints, ops, ExecAll(Initial(), watchPoints, init).value);
    } else {
      ScreenStep(ops, ReferenceScreen(init));
    }
  }

  /** The last instruction, run on the state the reference gives for the others. */
  lemma ExecOneMeaning(watchPoints: set<int>, ops: seq<Operation>, before: Cpu)
    requires ops != [] && AllWellFormed(ops)
    requires var init := ops[..|ops| - 1];
      Drawable(init) &&
      before == Cpu(XDuring(init, Cycles(init) + 1), Cycles(init), ReferenceWatch(init, watchPoints, Cycles(init)), ReferenceScreen(init))
    ensures ExecOne(before, watchPoints, ops[|ops| - 1]).Ok? <==> Drawable(ops)
    ensures ExecOne(before, watchPoints, ops[|ops| - 1]).Ok? ==>
      ExecOne(before, watchPoints, ops[|ops| - 1]).value
      == Cpu(XDuring(ops, Cycles(ops) + 1), Cycles(ops), ReferenceWatch(ops, watchPoints, Cycles(ops)), ReferenceScreen(ops))
  {
    var init := ops[..|ops| - 1];
    var op := ops[|ops| - 1];
    ScreenStep(ops, ReferenceScreen(init));
    ExecOneWellFormed(before, watchPoints, op);
    ReferenceWatchSplit(ops, watchPoints, Cycles(ops));
    InitWellFormed(ops);
    XSettled(init, Cycles(ops) + 1);
    assert Cycles(ops) - Cycles(init) == op.cost;
  }

  lemma ExecAllLast(cpu: Cpu, watchPoints: set<int>, ops: seq<Operation>)
    requires |cpu.screen| == ScreenSize && ops != []
    ensures var before := ExecAll(cpu, watchPoints, ops[..|ops| - 1]);
      ExecAll(cpu, watchPoints, ops) == if before.Err? then before else ExecOne(before.value, watchPoints, ops[|ops| - 1])
  {
  }

  /** Running one more instruction of `ops` after its first `i`. */
  lemma ExecAllSnoc(cpu: Cpu, watchPoints: set<int>, ops: seq<Operation>, i: nat, before: Cpu)
    requires |cpu.screen| == ScreenSize && i < |ops|
    requires ExecAll(cpu, watchPoints, ops[..i]) == Ok(before)
    ensures ExecAll(cpu, watchPoints, ops[..i + 1]) == ExecOne(before, watchPoints, ops[i])
  {
    assert ops[..i + 1][..i] == ops[..i];
  }

  /** A well-formed instruction fails only when it would draw off the screen. */
  lemma ExecOneWellFormed(cpu: Cpu, watchPoints: set<int>, op: Operation)
    requires |cpu.screen| == ScreenSize && WellFormed(op)
    ensures ExecOne(cpu, watchPoints, op).Ok? <==> ScreenFits(cpu.cycle, cpu.x, op.cost)
    ensures ExecOne(cpu, watchPoints, op).Ok? ==>
      var watched := cpu.watchValues + WatchHits(watchPoints, cpu.cycle, op.cost, cpu.x);
      var screen := ScreenWith(cpu.screen, cpu.cycle, cpu.x, op.cost).value;
      ExecOne(cpu, watchPoints, op).value == Cpu(cpu.x + Delta(op), cpu.cycle + op.cost, watched, screen)
  {
  }

  // ---------------------------------------------------------------------
  // The simulator object
  // ---------------------------------------------------------------------

  class Simulator {
    var registerX: int
    var currentCycle: int
    var watchValues: seq<(int, int)>
    var watchPoints: set<int>
    const screen: array<bool>

    function State(): Cpu
      reads this, screen
    {
      Cpu(registerX, currentCycle, watchValues, screen[..])
    }

    constructor()
      ensures State() == Initial() && watchPoints == {} && fresh(screen)
    {
      registerX := 1;
      currentCycle := 0;
      watchValues := [];
      watchPoints := {};
      screen := new bool[ScreenSize](_ => false);
      new;
      assert screen[..] == Initial().screen;
    }

    method AddWatch(cycle: int)
      modifies this
      ensures watchPoints == old(watchPoints) + {cycle}
      ensures registerX == old(registerX) && currentCycle == old(currentCycle) && watchValues == old(watchValues)
    {
      watchPoints := watchPoints + {cycle};
    }

    /** `updateScreen`: lights the covered pixels of the next `cost` cycles; `false` if one is off the screen. */
    method UpdateScreen(cost: int) returns (ok: bool)
      requires screen.Length == ScreenSize
      modifies screen
      ensures ok <==> ScreenWith(old(screen[..]), currentCycle, registerX, cost).Some?
      ensures ok ==> screen[..] == ScreenWith(old(screen[..]), currentCycle, registerX, cost).value
    {
      var offset := 0;
      while offset < cost
        invariant 0 <= offset <= (if cost < 0 then 0 else cost)
        invariant forall k | currentCycle <= k < currentCycle + offset :: Lit(k, registerX) ==> 0 <= k < ScreenSize
        invariant forall i | 0 <= i < ScreenSize ::
          screen[i] == (old(screen[i]) || (currentCycle <= i < currentCycle + offset && Lit(i, registerX)))
      {
        if Lit(currentCycle + offset, registerX) {
          if !(0 <= currentCycle + offset < ScreenSize) {
            return false;
          }
          screen[currentCycle + offset] := true;
        }
        offset := offset + 1;
      }
      ok := true;
      ghost var expected := ScreenWith(old(screen[..]), currentCycle, registerX, cost).value;
      forall i | 0 <= i < ScreenSize ensures screen[i] == expected[i] {
      }
      assert screen[..] == expected;
    }

    /** `updateWatch`: records `X` for every watched cycle among the next `cost`. */
    method UpdateWatch(cost: int)
      modifies this
      ensures watchValues == old(watchValues) + WatchHits(watchPoints, currentCycle, cost, registerX)
      ensures registerX == old(registerX) && currentCycle == old(currentCycle) && watchPoints == old(watchPoints)
    {
      var count := 0;
      while count < cost
        invariant 0 <= count <= (if cost < 0 then 0 else cost)
        invariant watchValues == old(watchValues) + WatchHits(watchPoints, currentCycle, count, registerX)
        invariant registerX == old(registerX) && currentCycle == old(currentCycle) && watchPoints == old(watchPoints)
      {
        count := count + 1;
        if currentCycle + count in watchPoints {
          watchValues := watchValues + [(currentCycle + count, registerX)];
        }
      }
      if cost <= 0 {
        assert WatchHits(watchPoints, currentCycle, cost, registerX) == [];
      }
    }

    /** `execute(operation)`; `false` where the source throws. */
    method ExecuteOne(op: Operation) returns (ok: bool)
      requires screen.Length == ScreenSize
      modifies this, screen
      ensures watchPoints == old(watchPoints)
      ensures ok <==> ExecOne(old(State()), watchPoints, op).Ok?
      ensures ok ==> State() == ExecOne(old(State()), watchPoints, op).value
    {
      ok := UpdateScreen(op.cost);
      if !ok {
        return;
      }
      UpdateWatch(op.cost);
      currentCycle := currentCycle + op.cost;
      if op.opcode == "noop" {
      } else if op.opcode == "addx" {
        if op.arg.None? {
          return false;
        }
        registerX := registerX + op.arg.value;
      } else {
        return false;
      }
    }

    /** `execute(operations)`; `false` where the source throws. */
    method Execute(ops: seq<Operation>) returns (ok: bool)
      requires screen.Length == ScreenSize
      modifies this, screen
      ensures watchPoints == old(watchPoints)
      ensures ok <==> ExecAll(old(State()), watchPoints, ops).Ok?
      ensures ok ==> State() == ExecAll(old(State()), watchPoints, ops).value
    {
      ghost var start := State();
      var i := 0;
      while i < |ops|
        invariant 0 <= i <= |ops| && watchPoints == old(watchPoints)
        invariant ExecAll(start, watchPoints, ops[..i]) == Ok(State())
      {
        ghost var before := State();
        ok := ExecuteOne(ops[i]);
        ExecAllSnoc(start, watchPoints, ops, i, before);
        if !ok {
          ExecFailureStays(start, watchPoints, ops, i + 1);
          return;
        }
        i := i + 1;
      }
      assert ops[..i] == ops;
      ok := true;
    }
  }

  // ---------------------------------------------------------------------
  // Input and answers
  // ---------------------------------------------------------------------

  /** A line starting with `noop` is a one-cycle no-op; any other is `addx` with the number after the space. */
  function ParseLine(line: string): (r: Result<Operation>)
    ensures r.Ok? ==> WellFormed(r.value) && (r.value.cost == 1 || r.value.cost == 2)
  {
    if StartsWith(line, "noop") then Ok(Operation("noop", 1, None))
    else
      match ParseInt(SubstringAfter(line, " "))
      case None => Err("NumberFormatException")
      case Some(n) => Ok(Operation("addx", 2, Some(n)))
  }

  function Render(op: Operation): string {
    if op.opcode == "addx" && op.arg.Some? then "addx " + IntToString(op.arg.value) else "noop"
  }

  /** The two instructions of the puzzle are read back from their text. */
  lemma ParseRender(op: Operation)
    requires op == Operation("noop", 1, None)
      || (op.opcode == "addx" && op.cost == 2 && op.arg.Some? && MinInt <= op.arg.value <= MaxInt)
    ensures ParseLine(Render(op)) == Ok(op)
  {
    if op.opcode == "addx" {
      var digits := IntToString(op.arg.value);
      SubstringsAround("addx", ' ', digits);
      assert Render(op) == "addx" + [' '] + digits;
      assert Render(op)[0] == 'a';
      ParseIntRoundTrip(op.arg.value);
    }
  }

  function Program(input: seq<string>): (r: Result<seq<Operation>>)
    ensures r.Ok? <==> forall i | 0 <= i < |input| :: ParseLine(input[i]).Ok?
    ensures r.Ok? ==> |r.value| == |input| && AllWellFormed(r.value)
    ensures r.Ok? ==> forall i | 0 <= i < |input| :: r.value[i] == ParseLine(input[i]).value
  {
    if input == [] then Ok([])
    else
      match ParseLine(input[0])
      case Err(e) => Err(e)
      case Ok(op) =>
        match Program(input[1..])
        case Err(e) => Err(e)
        case Ok(rest) => Ok([op] + rest)
  }

  /** `parseProgram`: one instruction per line, in order. */
  method ParseProgram(input: seq<string>) returns (r: Result<seq<Operation>>)
    ensures r.Ok? <==> Program(input).Ok?
    ensures r.Ok? ==> r.value == Program(input).value
  {
    var program: seq<Operation> := [];
    var i := 0;
    while i < |input|
      invariant 0 <= i <= |input| && |program| == i
      invariant forall j | 0 <= j < i :: ParseLine(input[j]).Ok? && program[j] == ParseLine(input[j]).value
    {
      match ParseLine(input[i])
      case Err(e) =>
        return Err(e);
      case Ok(op) =>
        program := program + [op];
      i := i + 1;
    }
    return Ok(program);
  }

  const Checkpoints: seq<int> := [20, 60, 100, 140, 180, 220]

  /** Each record's cycle times its `X`. */
  function Products(records: seq<(int, int)>): (r: seq<int>)
    ensures |r| == |records|
  {
    seq(|records|, i requires 0 <= i < |records| => records[i].0 * records[i].1)
  }

  /** `sumOf { it.first * it.second }`, accumulated record by record. */
  function SignalStrength(records: seq<(int, int)>): (r: int)
    ensures r == Lists.Sum(Products(records))
  {
    if records == [] then 0
    else
      assert Products(records)[..|records| - 1] == Products(records[..|records| - 1]);
      SignalStrength(records[..|records| - 1]) + records[|records| - 1].0 * records[|records| - 1].1
  }

  /**
   * Sum of cycle times `X` over the checkpoints the program reaches; an
   * error where parsing fails or a lit pixel falls off the screen.
   */
  method Part1(input: seq<string>) returns (r: Result<int>)
    ensures r.Ok? <==> Program(input).Ok? && Drawable(Program(input).value)
    ensures r.Ok? ==> r.value == SignalStrength(ReferenceWatch(Program(input).value, {20, 60, 100, 140, 180, 220}, Cycles(Program(input).value)))
  {
    var parsed := ParseProgram(input);
    if parsed.Err? {
      return Err(parsed.message);
    }
    var program := parsed.value;
    var simulator := new Simulator();
    var k := 0;
    while k < |Checkpoints|
      invariant 0 <= k <= |Checkpoints|
      invariant simulator.watchPoints == set c | c in Checkpoints[..k]
      invariant simulator.State() == Initial()
      modifies simulator
    {
      assert Checkpoints[..k + 1] == Checkpoints[..k] + [Checkpoints[k]];
      simulator.AddWatch(Checkpoints[k]);
      k := k + 1;
    }
    assert Checkpoints[..k] == Checkpoints;
    assert simulator.watchPoints == {20, 60, 100, 140, 180, 220};
    ExecMeaning(simulator.watchPoints, program);
    var ok := simulator.Execute(program);
    if !ok {
      return Err("Index out of bounds");
    }
    return Ok(SignalStrength(simulator.watchValues));
  }

  /** The screen after the whole program (the source prints it and returns 0). */
  method Part2(input: seq<string>) returns (r: Result<seq<bool>>)
    ensures r.Ok? <==> Program(input).Ok? && Drawable(Program(input).value)
    ensures r.Ok? ==> r.value == ReferenceScreen(Program(input).value)
  {
    var parsed := ParseProgram(input);
    if parsed.Err? {
      return Err(parsed.message);
    }
    var simulator := new Simulator();
    ExecMeaning({}, parsed.value);
    var ok := simulator.Execute(parsed.value);
    if !ok {
      return Err("Index out of bounds");
    }
    return Ok(simulator.screen[..]);
  }
}
