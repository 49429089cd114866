/** Day 19: the robot-factory schedule search.

    A state holds the resource stock, the per-minute production and the minutes
    left. Each minute the factory either buys one robot or nothing; the search
    explores all states the pruned successor function allows and keeps the best
    geode count among the states whose time ran out. */
module Day19 {

  datatype Resources = Resources(ore: int, clay: int, obsidian: int, geode: int)

  datatype Kind = Ore | Clay | Obsidian | Geode

  /** `output` is the robot's production vector (`yield` in Kotlin, a keyword here). */
  datatype RobotBlueprint = RobotBlueprint(name: string, cost: Resources, output: Resources)

  /** `production` is the state's current per-minute yield. */
  datatype SimulationState = SimulationState(resources: Resources, production: Resources, minutesLeft: int)

  datatype FactoryBlueprint = FactoryBlueprint(
    id: int,
    oreRobot: RobotBlueprint,
    clayRobot: RobotBlueprint,
    obsidianRobot: RobotBlueprint,
    geodeRobot: RobotBlueprint)

  /** The horizon `MINUTES` of the search. */
  const Minutes := 24

  // ---------------------------------------------------------------------------
  // Resource vectors

  function Coord(r: Resources, k: Kind): int {
    match k
    case Ore => r.ore
    case Clay => r.clay
    case Obsidian => r.obsidian
    case Geode => r.geode
  }

  predicate NonNegative(r: Resources) {
    r.ore >= 0 && r.clay >= 0 && r.obsidian >= 0 && r.geode >= 0
  }

  /** Component-wise addition (`Resources.plus`). */
  function Plus(a: Resources, b: Resources): (r: Resources)
    ensures forall k :: Coord(r, k) == Coord(a, k) + Coord(b, k)
  {
    Resources(a.ore + b.ore, a.clay + b.clay, a.obsidian + b.obsidian, a.geode + b.geode)
  }

  /** Component-wise subtraction (`Resources.minus`); adding the subtrahend back undoes it. */
  function Minus(a: Resources, b: Resources): (r: Resources)
    ensures Plus(r, b) == a
    ensures forall k :: Coord(r, k) == Coord(a, k) - Coord(b, k)
  {
    Resources(a.ore - b.ore, a.clay - b.clay, a.obsidian - b.obsidian, a.geode - b.geode)
  }

  /** Subtracting the addend again undoes an addition. */
  lemma PlusThenMinus(a: Resources, b: Resources)
    ensures Minus(Plus(a, b), b) == a
  {
  }

  /** `canBuy`: the stock covers the robot's cost in every coordinate, which is
      exactly when paying for it leaves no coordinate negative. */
  predicate CanBuy(stock: Resources, robot: RobotBlueprint)
    ensures CanBuy(stock, robot) <==> NonNegative(Minus(stock, robot.cost))
  {
    stock.ore >= robot.cost.ore && stock.clay >= robot.cost.clay
    && stock.obsidian >= robot.cost.obsidian && stock.geode >= robot.cost.geode
  }

  // ---------------------------------------------------------------------------
  // Blueprints

  function Robots(bp: FactoryBlueprint): seq<RobotBlueprint> {
    [bp.oreRobot, bp.clayRobot, bp.obsidianRobot, bp.geodeRobot]
  }

  function Robot(bp: FactoryBlueprint, k: Kind): RobotBlueprint {
    match k
    case Ore => bp.oreRobot
    case Clay => bp.clayRobot
    case Obsidian => bp.obsidianRobot
    case Geode => bp.geodeRobot
  }

  function Max(a: int, b: int): int {
    if a < b then b else a
  }

  /** `maxYield`: for ore, clay and obsidian the largest cost coordinate over the
      four robots; the geode coordinate keeps its default 0. */
  function MaxYield(bp: FactoryBlueprint): (r: Resources)
    ensures forall robot | robot in Robots(bp) ::
      robot.cost.ore <= r.ore && robot.cost.clay <= r.clay && robot.cost.obsidian <= r.obsidian
    ensures exists robot | robot in Robots(bp) :: robot.cost.ore == r.ore
    ensures exists robot | robot in Robots(bp) :: robot.cost.clay == r.clay
    ensures exists robot | robot in Robots(bp) :: robot.cost.obsidian == r.obsidian
    ensures r.geode == 0
  {
    var robots := Robots(bp);
    Resources(
      Max(Max(robots[0].cost.ore, robots[1].cost.ore), Max(robots[2].cost.ore, robots[3].cost.ore)),
      Max(Max(robots[0].cost.clay, robots[1].cost.clay), Max(robots[2].cost.clay, robots[3].cost.clay)),
      Max(Max(robots[0].cost.obsidian, robots[1].cost.obsidian), Max(robots[2].cost.obsidian, robots[3].cost.obsidian)),
      0)
  }

  /** The blueprint `parseFactoryBlueprint` builds from the seven numbers its
      pattern captures (the pattern matching itself is not modelled). */
  function BlueprintFromCosts(id: nat, oreRobotOre: nat, clayRobotOre: nat, obsidianRobotOre: nat,
                              obsidianRobotClay: nat, geodeRobotOre: nat, geodeRobotObsidian: nat): FactoryBlueprint
  {
    FactoryBlueprint(
      id,
      RobotBlueprint("Ore", Resources(oreRobotOre, 0, 0, 0), Resources(1, 0, 0, 0)),
      RobotBlueprint("Clay", Resources(clayRobotOre, 0, 0, 0), Resources(0, 1, 0, 0)),
      RobotBlueprint("Obsidian", Resources(obsidianRobotOre, obsidianRobotClay, 0, 0), Resources(0, 0, 1, 0)),
      RobotBlueprint("Geode", Resources(geodeRobotOre, 0, geodeRobotObsidian, 0), Resources(0, 0, 0, 1)))
  }

  /** Every robot produces a non-negative vector, as every parsed blueprint does. */
  predicate WellFormed(bp: FactoryBlueprint) {
    forall k :: NonNegative(Robot(bp, k).output)
  }

  /** A parsed blueprint is well formed, each robot yields one unit of its own
      resource, and its caps are the ore maximum, the obsidian robot's clay cost
      and the geode robot's obsidian cost. */
  lemma ParsedBlueprint(id: nat, a: nat, b: nat, c: nat, d: nat, e: nat, f: nat)
    ensures var bp := BlueprintFromCosts(id, a, b, c, d, e, f);
      && WellFormed(bp)
      && (forall k, j :: Coord(Robot(bp, k).output, j) == if k == j then 1 else 0)
      && MaxYield(bp) == Resources(Max(Max(a, b), Max(c, e)), d, f, 0)
  {
    var bp := BlueprintFromCosts(id, a, b, c, d, e, f);
    forall k ensures NonNegative(Robot(bp, k).output) {
      match k
      case Ore =>
      case Clay =>
      case Obsidian =>
      case Geode =>
    }
  }

  // ---------------------------------------------------------------------------
  // States and successors

  function StartState(): SimulationState {
    SimulationState(Resources(0, 0, 0, 0), Resources(1, 0, 0, 0), Minutes)
  }

  predicate ValidState(s: SimulationState) {
    NonNegative(s.resources) && NonNegative(s.production)
  }

  /** `buyRobot`: pay the cost and add the robot's yield; the clock does not move. */
  function BuyRobot(s: SimulationState, robot: RobotBlueprint): (r: SimulationState)
    ensures Plus(r.resources, robot.cost) == s.resources
    ensures r.production == Plus(s.production, robot.output)
    ensures r.minutesLeft == s.minutesLeft
  {
    SimulationState(Minus(s.resources, robot.cost), Plus(s.production, robot.output), s.minutesLeft)
  }

  /** The final `map` of `possibleStatesFrom`: one minute of production at the
      parent's yield, so a robot bought this minute only produces from the next. */
  function Produce(parent: SimulationState, chosen: SimulationState): SimulationState {
    SimulationState(Plus(chosen.resources, parent.production), chosen.production, parent.minutesLeft - 1)
  }

  /** A non-geode robot is offered when it is affordable and its resource's yield
      is still below the blueprint's cap. */
  predicate Admitted(bp: FactoryBlueprint, s: SimulationState, k: Kind) {
    CanBuy(s.resources, Robot(bp, k)) && Coord(s.production, k) < Coord(MaxYield(bp), k)
  }

  /** The local list `possibleStates` before the final `map`: the geode robot
      alone when it is affordable; otherwise doing nothing, followed by each
      admitted obsidian, clay and ore robot in that order. */
  function Chosen(bp: FactoryBlueprint, s: SimulationState): (r: seq<SimulationState>)
    ensures 1 <= |r| <= 4
    ensures forall t | t in r :: t.minutesLeft == s.minutesLeft
  {
    if CanBuy(s.resources, bp.geodeRobot) then [BuyRobot(s, bp.geodeRobot)]
    else
      [s]
      + (if Admitted(bp, s, Obsidian) then [BuyRobot(s, bp.obsidianRobot)] else [])
      + (if Admitted(bp, s, Clay) then [BuyRobot(s, bp.clayRobot)] else [])
      + (if Admitted(bp, s, Ore) then [BuyRobot(s, bp.oreRobot)] else [])
  }

  function ProduceAll(parent: SimulationState, chosen: seq<SimulationState>): (r: seq<SimulationState>)
    ensures |r| == |chosen|
    ensures forall i | 0 <= i < |r| :: r[i] == Produce(parent, chosen[i])
  {
    seq(|chosen|, i requires 0 <= i < |chosen| => Produce(parent, chosen[i]))
  }

  /** `possibleStatesFrom`: no successor once the time is up; otherwise one
      minute of production applied to each chosen state. Every successor has one
      minute less, and there are at most four. */
  function PossibleStatesFrom(bp: FactoryBlueprint, s: SimulationState): (r: seq<SimulationState>)
    ensures s.minutesLeft <= 0 ==> r == []
    ensures s.minutesLeft > 0 ==> 1 <= |r| <= 4
    ensures forall t | t in r :: t.minutesLeft == s.minutesLeft - 1
    ensures s.minutesLeft > 0 && CanBuy(s.resources, bp.geodeRobot) ==>
      r == [Produce(s, BuyRobot(s, bp.geodeRobot))]
    ensures s.minutesLeft > 0 && !CanBuy(s.resources, bp.geodeRobot) ==> r[0] == Produce(s, s)
  {
    if s.minutesLeft <= 0 then [] else ProduceAll(s, Chosen(bp, s))
  }

  /** When the geode robot is not affordable, the chosen states after "do
      nothing" are exactly the admitted non-geode purchases. */
  lemma NonGeodeChoices(bp: FactoryBlueprint, s: SimulationState, t: SimulationState)
    requires !CanBuy(s.resources, bp.geodeRobot)
    ensures t in Chosen(bp, s)[1..] <==>
      exists k :: k != Geode && Admitted(bp, s, k) && t == BuyRobot(s, Robot(bp, k))
  {
    var tail := Chosen(bp, s)[1..];
    var obsidian := if Admitted(bp, s, Obsidian) then [BuyRobot(s, bp.obsidianRobot)] else [];
    var clay := if Admitted(bp, s, Clay) then [BuyRobot(s, bp.clayRobot)] else [];
    var ore := if Admitted(bp, s, Ore) then [BuyRobot(s, bp.oreRobot)] else [];
    assert tail == obsidian + clay + ore;
    if t in tail {
      if t in obsidian {
        assert Robot(bp, Obsidian) == bp.obsidianRobot;
      } else if t in clay {
        assert Robot(bp, Clay) == bp.clayRobot;
      } else {
        assert Robot(bp, Ore) == bp.oreRobot;
      }
    } else {
      forall k | k != Geode && Admitted(bp, s, k) ensures t != BuyRobot(s, Robot(bp, k)) {
        match k
        case Obsidian => assert BuyRobot(s, Robot(bp, k)) in obsidian;
        case Clay => assert BuyRobot(s, Robot(bp, k)) in clay;
        case Ore => assert BuyRobot(s, Robot(bp, k)) in ore;
      }
    }
  }

  /** Purchases happen only after `canBuy`, so stock and yield stay non-negative. */
  lemma SuccessorsStayValid(bp: FactoryBlueprint, s: SimulationState)
    requires WellFormed(bp) && ValidState(s)
    ensures forall t | t in PossibleStatesFrom(bp, s) :: ValidState(t)
  {
    if s.minutesLeft > 0 {
      var c := Chosen(bp, s);
      forall i | 0 <= i < |c| ensures ValidState(Produce(s, c[i])) {
        if CanBuy(s.resources, bp.geodeRobot) {
          assert NonNegative(Robot(bp, Geode).output);
        } else if i > 0 {
          assert c[1..][i - 1] == c[i];
          NonGeodeChoices(bp, s, c[i]);
          var k :| k != Geode && Admitted(bp, s, k) && c[i] == BuyRobot(s, Robot(bp, k));
          assert NonNegative(Robot(bp, k).output);
        }
      }
    }
  }

  // ---------------------------------------------------------------------------
  // The specification of the search

  function Clamp(m: int): nat {
    if m > 0 then m else 0
  }

  /** The largest clamped `minutesLeft` in a frontier (0 for an empty one). */
  function MaxMinutes(ss: seq<SimulationState>): (r: nat)
    ensures forall i | 0 <= i < |ss| :: Clamp(ss[i].minutesLeft) <= r
    ensures ss == [] ==> r == 0
    ensures ss != [] ==> exists i | 0 <= i < |ss| :: r == Clamp(ss[i].minutesLeft)
  {
    if ss == [] then 0
    else
      var rest := MaxMinutes(ss[1..]);
      assert forall i | 1 <= i < |ss| :: ss[i] == ss[1..][i - 1];
      if Clamp(ss[0].minutesLeft) < rest then rest else Clamp(ss[0].minutesLeft)
  }

  /** The larger of `floor` and the geode count of every state with no time left
      that the search reaches from `s`. */
  function BestFrom(bp: FactoryBlueprint, s: SimulationState, floor: int): (r: int)
    ensures r >= floor
    decreases Clamp(s.minutesLeft), 0, 0
  {
    if s.minutesLeft == 0 then Max(floor, s.resources.geode)
    else if s.minutesLeft < 0 then floor
    else BestOfAll(bp, PossibleStatesFrom(bp, s), floor)
  }

  /** `BestFrom` folded over a frontier, left to right. */
  function BestOfAll(bp: FactoryBlueprint, ss: seq<SimulationState>, floor: int): (r: int)
    ensures r >= floor
    decreases MaxMinutes(ss), 1, |ss|
  {
    if ss == [] then floor
    else BestOfAll(bp, ss[1..], BestFrom(bp, ss[0], floor))
  }

  /** The floor acts as a running maximum: raising it by `a` raises the result by `a` too. */
  lemma {:induction false} FloorShift(bp: FactoryBlueprint, s: SimulationState, a: int, b: int)
    ensures BestFrom(bp, s, Max(a, b)) == Max(a, BestFrom(bp, s, b))
    decreases Clamp(s.minutesLeft), 0, 0
  {
    if s.minutesLeft > 0 {
      FloorShiftAll(bp, PossibleStatesFrom(bp, s), a, b);
    }
  }

  lemma {:induction false} FloorShiftAll(bp: FactoryBlueprint, ss: seq<SimulationState>, a: int, b: int)
    ensures BestOfAll(bp, ss, Max(a, b)) == Max(a, BestOfAll(bp, ss, b))
    decreases MaxMinutes(ss), 1, |ss|
  {
    if ss != [] {
      FloorShift(bp, ss[0], a, b);
      FloorShiftAll(bp, ss[1..], a, BestFrom(bp, ss[0], b));
    }
  }

  /** Exploring one state before or after a frontier gives the same best. */
  lemma StateCommutes(bp: FactoryBlueprint, x: SimulationState, ss: seq<SimulationState>, b: int)
    ensures BestFrom(bp, x, BestOfAll(bp, ss, b)) == BestOfAll(bp, ss, BestFrom(bp, x, b))
  {
    FloorShift(bp, x, BestOfAll(bp, ss, b), b);
    FloorShiftAll(bp, ss, BestFrom(bp, x, b), b);
  }

  lemma {:induction false} BestOfAllConcat(bp: FactoryBlueprint, xs: seq<SimulationState>, ys: seq<SimulationState>, b: int)
    ensures BestOfAll(bp, xs + ys, b) == BestOfAll(bp, ys, BestOfAll(bp, xs, b))
    decreases |xs|
  {
    if xs == [] {
      assert xs + ys == ys;
    } else {
      assert (xs + ys)[0] == xs[0];
      assert (xs + ys)[1..] == xs[1..] + ys;
      BestOfAllConcat(bp, xs[1..], ys, BestFrom(bp, xs[0], b));
    }
  }

  /** Taking any element out of the frontier first does not change the result. */
  lemma RemoveAt(bp: FactoryBlueprint, q: seq<SimulationState>, i: int, b: int)
    requires 0 <= i < |q|
    ensures BestOfAll(bp, q, b) == BestOfAll(bp, q[..i] + q[i + 1..], BestFrom(bp, q[i], b))
  {
    assert q == q[..i] + ([q[i]] + q[i + 1..]);
    BestOfAllConcat(bp, q[..i], [q[i]] + q[i + 1..], b);
    var c := BestOfAll(bp, q[..i], b);
    assert ([q[i]] + q[i + 1..])[1..] == q[i + 1..];
    StateCommutes(bp, q[i], q[..i], b);
    BestOfAllConcat(bp, q[..i], q[i + 1..], BestFrom(bp, q[i], b));
  }

  /** The order of the frontier does not change the best geode count. */
  lemma {:induction false} OrderIrrelevant(bp: FactoryBlueprint, p: seq<SimulationState>, q: seq<SimulationState>, b: int)
    requires multiset(p) == multiset(q)
    ensures BestOfAll(bp, p, b) == BestOfAll(bp, q, b)
    decreases |p|
  {
    if p != [] {
      assert p[0] in multiset(q);
      var i :| 0 <= i < |q| && q[i] == p[0];
      RemoveAt(bp, q, i, b);
      var q' := q[..i] + q[i + 1..];
      assert q == q[..i] + [q[i]] + q[i + 1..];
      assert multiset(q) == multiset(q[..i]) + multiset{q[i]} + multiset(q[i + 1..]);
      assert p == [p[0]] + p[1..];
      assert multiset(p) == multiset{p[0]} + multiset(p[1..]);
      assert multiset(q') == multiset(q[..i]) + multiset(q[i + 1..]);
      assert multiset(q') == multiset(q) - multiset{q[i]};
      assert multiset(p[1..]) == multiset(p) - multiset{p[0]};
      OrderIrrelevant(bp, p[1..], q', BestFrom(bp, p[0], b));
    }
  }

  // ---------------------------------------------------------------------------
  // The worklist search

  function Pow5(n: nat): (r: nat)
    ensures r >= 1
  {
    if n == 0 then 1 else 5 * Pow5(n - 1)
  }

  /** The termination measure of the frontier: a state with m minutes left
      weighs 5^m, more than its at most four successors together. */
  function Weight(q: seq<SimulationState>): nat {
    if q == [] then 0 else Pow5(Clamp(q[0].minutesLeft)) + Weight(q[1..])
  }

  lemma {:induction false} WeightConcat(a: seq<SimulationState>, b: seq<SimulationState>)
    ensures Weight(a + b) == Weight(a) + Weight(b)
    decreases |a|
  {
    if a == [] {
      assert a + b == b;
    } else {
      assert (a + b)[0] == a[0];
      assert (a + b)[1..] == a[1..] + b;
      WeightConcat(a[1..], b);
    }
  }

  lemma {:induction false} WeightUniform(ss: seq<SimulationState>, m: int)
    requires forall t | t in ss :: t.minutesLeft == m
    ensures Weight(ss) == |ss| * Pow5(Clamp(m))
    decreases |ss|
  {
    if ss != [] {
      WeightUniform(ss[1..], m);
    }
  }

  lemma SuccessorsWeighLess(bp: FactoryBlueprint, s: SimulationState)
    ensures Weight(PossibleStatesFrom(bp, s)) < Pow5(Clamp(s.minutesLeft))
  {
    var r := PossibleStatesFrom(bp, s);
    if s.minutesLeft > 0 {
      var w := Pow5(Clamp(s.minutesLeft - 1));
      WeightUniform(r, s.minutesLeft - 1);
      assert Pow5(Clamp(s.minutesLeft)) == 5 * w;
      assert Weight(r) <= 4 * w by {
        if |r| == 1 {} else if |r| == 2 {} else if |r| == 3 {} else {}
      }
    }
  }

  /** One iteration of the search: popping state `i` and either scoring it (no
      time left) or replacing it by its successors keeps the best geode count and
      lowers the weight of the frontier. */
  lemma PopStep(bp: FactoryBlueprint, queue: seq<SimulationState>, i: int, g: int)
    requires 0 <= i < |queue|
    ensures var rest := queue[..i] + queue[i + 1..];
      var x := queue[i];
      var next := if x.minutesLeft == 0 then rest else rest + PossibleStatesFrom(bp, x);
      var g' := if x.minutesLeft == 0 then Max(g, x.resources.geode) else g;
      BestOfAll(bp, next, g') == BestOfAll(bp, queue, g) && Weight(next) < Weight(queue)
  {
    var rest := queue[..i] + queue[i + 1..];
    var x := queue[i];
    RemoveAt(bp, queue, i, g);
    assert queue == queue[..i] + [x] + queue[i + 1..];
    WeightConcat(queue[..i] + [x], queue[i + 1..]);
    WeightConcat(queue[..i], [x]);
    WeightConcat(queue[..i], queue[i + 1..]);
    if x.minutesLeft != 0 {
      var succ := PossibleStatesFrom(bp, x);
      SuccessorsWeighLess(bp, x);
      WeightConcat(rest, succ);
      BestOfAllConcat(bp, rest, succ, g);
      FoldsCommute(bp, rest, succ, g);
    }
  }

  /** The `PriorityQueue` pops a state with the fewest minutes left. */
  method IndexOfFewestMinutes(q: seq<SimulationState>) returns (i: nat)
    requires q != []
    ensures i < |q|
    ensures forall j | 0 <= j < |q| :: q[i].minutesLeft <= q[j].minutesLeft
  {
    i := 0;
    var j := 1;
    while j < |q|
      invariant i < j <= |q|
      invariant forall k | 0 <= k < j :: q[i].minutesLeft <= q[k].minutesLeft
    {
      if q[j].minutesLeft < q[i].minutesLeft {
        i := j;
      }
      j := j + 1;
    }
  }

  /** `simulate`: explore the frontier until it is empty, replacing the best state
      only by a strictly better state with no time left. The result's geode count
      is the specification's best from the start state (with the start's own 0 as
      the floor), the result is the start state or a finished state, and every
      state stays non-negative. */
  method Simulate(bp: FactoryBlueprint) returns (best: SimulationState)
    ensures best.resources.geode == BestFrom(bp, StartState(), 0)
    ensures best == StartState() || best.minutesLeft == 0
    ensures WellFormed(bp) ==> ValidState(best)
  {
    var start := StartState();
    var queue := [start];
    best := start;
    while queue != []
      invariant BestOfAll(bp, queue, best.resources.geode) == BestFrom(bp, start, 0)
      invariant best == start || best.minutesLeft == 0
      invariant WellFormed(bp) ==> ValidState(best) && AllValid(queue)
      decreases Weight(queue)
    {
      var i := IndexOfFewestMinutes(queue);
      var state := queue[i];
      PopStep(bp, queue, i, best.resources.geode);
      if WellFormed(bp) {
        NextQueueValid(bp, queue, i);
      }
      queue := queue[..i] + queue[i + 1..];
      if state.minutesLeft == 0 {
        if best.resources.geode < state.resources.geode {
          best := state;
        }
      } else {
        queue := queue + PossibleStatesFrom(bp, state);
      }
    }
  }

  predicate AllValid(queue: seq<SimulationState>) {
    forall q | q in queue :: ValidState(q)
  }

  /** The queue after a pop, and after its successors are added, holds valid states only. */
  lemma NextQueueValid(bp: FactoryBlueprint, queue: seq<SimulationState>, i: nat)
    requires WellFormed(bp) && AllValid(queue) && i < |queue|
    ensures ValidState(queue[i]) && AllValid(queue[..i] + queue[i + 1..])
    ensures AllValid(queue[..i] + queue[i + 1..] + PossibleStatesFrom(bp, queue[i]))
  {
    assert queue[i] in queue;
    var rest := queue[..i] + queue[i + 1..];
    assert forall q | q in rest :: q in queue;
    SuccessorsStayValid(bp, queue[i]);
  }

  lemma FoldsCommute(bp: FactoryBlueprint, xs: seq<SimulationState>, ys: seq<SimulationState>, b: int)
    ensures BestOfAll(bp, ys, BestOfAll(bp, xs, b)) == BestOfAll(bp, xs, BestOfAll(bp, ys, b))
  {
    FloorShiftAll(bp, ys, BestOfAll(bp, xs, b), b);
    FloorShiftAll(bp, xs, BestOfAll(bp, ys, b), b);
  }
}
