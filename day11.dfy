/**
 * Day 11: monkeys passing items. Each monkey in turn inspects every item
 * it holds, which raises the item's worry level by its operation and then
 * divides it by three, and throws the item to one of two monkeys
 * depending on a divisibility test.
 */
module Day11 {
  import opened Wrappers
  import opened Text
  import Lists

  // ---------------------------------------------------------------------
  // Operations and tests
  // ---------------------------------------------------------------------

  /** `new = <left> <op> <right>`, where a token is `old` or a number. */
  datatype Operation = Operation(left: string, op: string, right: string)

  function TokenToValue(token: string, level: int): (r: Result<int>)
    ensures token == "old" ==> r == Ok(level)
    ensures token != "old" ==> (r.Ok? <==> ParseInt(token).Some?)
  {
    if token == "old" then Ok(level)
    else
      match ParseInt(token)
      case None => Err("NumberFormatException: " + token)
      case Some(v) => Ok(v)
  }

  /** `Operation.run`: both tokens are read first, then `+` or `*` is applied. */
  function RunOperation(operation: Operation, level: int): (r: Result<int>)
    ensures r.Ok? <==> (TokenToValue(operation.left, level).Ok? && TokenToValue(operation.right, level).Ok?
      && (operation.op == "+" || operation.op == "*"))
  {
    match TokenToValue(operation.left, level)
    case Err(e) => Err(e)
    case Ok(a) =>
      match TokenToValue(operation.right, level)
      case Err(e) => Err(e)
      case Ok(b) =>
        if operation.op == "+" then Ok(a + b)
        else if operation.op == "*" then Ok(a * b)
        else Err("Invalid operand " + operation.op)
  }

  /** `old` stands for the input level on either side. */
  lemma RunOperationOld(level: int, n: int)
    requires MinInt <= n <= MaxInt
    ensures RunOperation(Operation("old", "*", "old"), level) == Ok(level * level)
    ensures RunOperation(Operation("old", "+", IntToString(n)), level) == Ok(level + n)
    ensures RunOperation(Operation("old", "*", IntToString(n)), level) == Ok(level * n)
  {
    ParseIntRoundTrip(n);
    assert IntToString(n) != "old" by {
      if n < 0 {
        assert IntToString(n)[0] == '-';
      } else {
        assert AllDigits(IntToString(n)) by {
          NatToStringValue(n);
        }
        assert IntToString(n)[0] != 'o';
      }
    }
  }

  datatype TestOperation = TestOperation(number: int)

  /** `TestOperation.run`: divisibility; a zero divisor throws. */
  function RunTest(test: TestOperation, value: int): (r: Result<bool>)
    ensures r.Ok? <==> test.number != 0
  {
    if test.number == 0 then Err("ArithmeticException: / by zero")
    else Ok(value % test.number == 0)
  }

  /** The test passes exactly for the multiples of its number. */
  lemma RunTestDivisible(test: TestOperation, value: int)
    requires test.number != 0
    ensures RunTest(test, value).value <==> value == (value / test.number) * test.number
  {
  }

  /** Kotlin's `/` on `Int`: the quotient is rounded towards zero. */
  function Div(a: int, b: int): (r: int)
    requires b > 0
    ensures a >= 0 ==> r == a / b
    ensures a < 0 ==> r == -((-a) / b)
  {
    if a >= 0 then a / b else -((-a) / b)
  }

  // ---------------------------------------------------------------------
  // Inspection
  // ---------------------------------------------------------------------

  datatype Rule = Rule(operation: Operation, test: TestOperation, successTarget: int, failureTarget: int)

  /**
   * `inspect`'s result: the new level and the monkey it is thrown to. An
   * inspection fails exactly where the operation or the test throws;
   * otherwise the level is the operation's result divided by three, and
   * with two distinct targets the item goes to the success target iff the
   * new level is a multiple of the test's number.
   */
  function InspectSpec(rule: Rule, level: int): (r: Result<(int, int)>)
    ensures r.Ok? <==> RunOperation(rule.operation, level).Ok? && rule.test.number != 0
    ensures r.Ok? ==>
      var (newLevel, target) := r.value;
      newLevel == Div(RunOperation(rule.operation, level).value, 3)
      && (target == rule.successTarget || target == rule.failureTarget)
      && (rule.successTarget != rule.failureTarget ==>
            (target == rule.successTarget <==> newLevel == (newLevel / rule.test.number) * rule.test.number))
  {
    match RunOperation(rule.operation, level)
    case Err(e) => Err(e)
    case Ok(raised) =>
      var newLevel := Div(raised, 3);
      match RunTest(rule.test, newLevel)
      case Err(e) => Err(e)
      case Ok(pass) =>
        RunTestDivisible(rule.test, newLevel);
        Ok((newLevel, if pass then rule.successTarget else rule.failureTarget))
  }

  class Monkey {
    const id: int
    var items: seq<int>
    var inspectionCounter: int
    const operation: Operation
    const test: TestOperation
    const successTarget: int
    const failureTarget: int

    constructor(id: int, startingItems: seq<int>, operation: Operation, test: TestOperation,
                successTarget: int, failureTarget: int)
      ensures this.id == id && items == startingItems && inspectionCounter == 0
      ensures this.operation == operation && this.test == test
      ensures this.successTarget == successTarget && this.failureTarget == failureTarget
    {
      this.id := id;
      items := startingItems;
      inspectionCounter := 0;
      this.operation := operation;
      this.test := test;
      this.successTarget := successTarget;
      this.failureTarget := failureTarget;
    }

    function RuleOf(): Rule {
      Rule(operation, test, successTarget, failureTarget)
    }

    /** `inspect`: counts the inspection first, then computes where the item goes. */
    method Inspect(level: int) returns (r: Result<(int, int)>)
      modifies this
      ensures inspectionCounter == old(inspectionCounter) + 1 && items == old(items)
      ensures r == InspectSpec(RuleOf(), level)
    {
      inspectionCounter := inspectionCounter + 1;
      var raised := RunOperation(operation, level);
      if raised.Err? {
        return Err(raised.message);
      }
      var newLevel := Div(raised.value, 3);
      var pass := RunTest(test, newLevel);
      if pass.Err? {
        return Err(pass.message);
      }
      if pass.value {
        r := Ok((newLevel, successTarget));
      } else {
        r := Ok((newLevel, failureTarget));
      }
    }
  }

  // ---------------------------------------------------------------------
  // A round, as a value
  // ---------------------------------------------------------------------

  /** The part of a monkey a round changes. */
  datatype MonkeyState = MonkeyState(items: seq<int>, counter: int)

  /** No monkey throws to itself, as in the puzzle inputs. */
  predicate NoSelfTarget(rules: seq<Rule>) {
    forall i | 0 <= i < |rules| :: rules[i].successTarget != i && rules[i].failureTarget != i
  }

  function TotalItems(states: seq<MonkeyState>): nat {
    if states == [] then 0 else TotalItems(states[..|states| - 1]) + |states[|states| - 1].items|
  }

  lemma {:induction false} TotalItemsUpdate(states: seq<MonkeyState>, j: nat, s: MonkeyState)
    requires j < |states|
    ensures TotalItems(states[j := s]) == TotalItems(states) - |states[j].items| + |s.items|
  {
    var n := |states| - 1;
    var updated := states[j := s];
    if j < n {
      assert updated[..n] == states[..n][j := s];
      TotalItemsUpdate(states[..n], j, s);
    } else {
      assert updated[..n] == states[..n];
    }
  }

  /** The first item of monkey `i` is inspected and thrown. */
  function ThrowFirst(states: seq<MonkeyState>, rules: seq<Rule>, i: nat): (r: Result<seq<MonkeyState>>)
    requires |states| == |rules| && i < |states| && states[i].items != []
    ensures r.Ok? ==> |r.value| == |states|
  {
    var popped := states[i := MonkeyState(states[i].items[1..], states[i].counter + 1)];
    match InspectSpec(rules[i], states[i].items[0])
    case Err(e) => Err(e)
    case Ok((level, target)) =>
      if 0 <= target < |states| then
        Ok(popped[target := MonkeyState(popped[target].items + [level], popped[target].counter)])
      else Err("IndexOutOfBoundsException")
  }

  /** A throw given the outcome of its inspection. */
  lemma ThrowFirstBy(states: seq<MonkeyState>, rules: seq<Rule>, i: nat, inspected: Result<(int, int)>)
    requires |states| == |rules| && i < |states| && states[i].items != []
    requires inspected == InspectSpec(rules[i], states[i].items[0])
    ensures ThrowFirst(states, rules, i).Ok? <==> inspected.Ok? && 0 <= inspected.value.1 < |states|
    ensures ThrowFirst(states, rules, i).Ok? ==>
      var popped := states[i := MonkeyState(states[i].items[1..], states[i].counter + 1)];
      var (level, target) := inspected.value;
      ThrowFirst(states, rules, i).value == popped[target := MonkeyState(popped[target].items + [level], popped[target].counter)]
  {
  }

  /**
   * A throw takes monkey `i`'s first item, counts one inspection for it,
   * appends the item to one other monkey and keeps the number of items.
   */
  lemma {:induction false} ThrowFirstEffect(states: seq<MonkeyState>, rules: seq<Rule>, i: nat)
    requires |states| == |rules| && i < |states| && states[i].items != [] && NoSelfTarget(rules)
    ensures ThrowFirst(states, rules, i).Ok? ==>
      var after := ThrowFirst(states, rules, i).value;
      after[i] == MonkeyState(states[i].items[1..], states[i].counter + 1)
      && TotalItems(after) == TotalItems(states)
      && (forall j | 0 <= j < |states| && j != i :: after[j].counter == states[j].counter)
      && (forall j | 0 <= j < |states| && j != i :: states[j].items <= after[j].items)
  {
    if ThrowFirst(states, rules, i).Ok? {
      var popped := states[i := MonkeyState(states[i].items[1..], states[i].counter + 1)];
      var (level, target) := InspectSpec(rules[i], states[i].items[0]).value;
      TotalItemsUpdate(states, i, popped[i]);
      TotalItemsUpdate(popped, target, MonkeyState(popped[target].items + [level], popped[target].counter));
    }
  }

  /** A monkey's turn: it throws every item it holds, one at a time. */
  function Turn(states: seq<MonkeyState>, rules: seq<Rule>, i: nat): (r: Result<seq<MonkeyState>>)
    requires |states| == |rules| && i < |states| && NoSelfTarget(rules)
    ensures r.Ok? ==> |r.value| == |states|
    decreases |states[i].items|
  {
    if states[i].items == [] then Ok(states)
    else
      match ThrowFirst(states, rules, i)
      case Err(e) => Err(e)
      case Ok(next) =>
        ThrowFirstEffect(states, rules, i);
        Turn(next, rules, i)
  }

  /**
   * After its turn a monkey holds nothing and has counted one inspection
   * per item it held; nobody else's counter moves, nobody else loses an
   * item, and no item is lost or created.
   */
  lemma {:induction false} TurnEffect(states: seq<MonkeyState>, rules: seq<Rule>, i: nat)
    requires |states| == |rules| && i < |states| && NoSelfTarget(rules)
    ensures Turn(states, rules, i).Ok? ==>
      var after := Turn(states, rules, i).value;
      after[i] == MonkeyState([], states[i].counter + |states[i].items|)
      && TotalItems(after) == TotalItems(states)
      && (forall j | 0 <= j < |states| && j != i :: after[j].counter == states[j].counter)
      && (forall j | 0 <= j < |states| && j != i :: states[j].items <= after[j].items)
    decreases |states[i].items|
  {
    if states[i].items != [] && ThrowFirst(states, rules, i).Ok? {
      var next := ThrowFirst(states, rules, i).value;
      ThrowFirstEffect(states, rules, i);
      TurnEffect(next, rules, i);
      if Turn(next, rules, i).Ok? {
        var after := Turn(next, rules, i).value;
        forall j | 0 <= j < |states| && j != i ensures states[j].items <= after[j].items {
          assert states[j].items <= next[j].items <= after[j].items;
        }
      }
    }
  }

  /** `simulateRound` over the first `n` monkeys: their turns in list order. */
  function Round(states: seq<MonkeyState>, rules: seq<Rule>, n: nat): (r: Result<seq<MonkeyState>>)
    requires |states| == |rules| && n <= |states| && NoSelfTarget(rules)
    ensures r.Ok? ==> |r.value| == |states|
  {
    if n == 0 then Ok(states)
    else
      match Round(states, rules, n - 1)
      case Err(e) => Err(e)
      case Ok(before) => Turn(before, rules, n - 1)
  }

  /** A round keeps the number of items and never lowers a counter. */
  lemma {:induction false} RoundConserves(states: seq<MonkeyState>, rules: seq<Rule>, n: nat)
    requires |states| == |rules| && n <= |states| && NoSelfTarget(rules)
    ensures Round(states, rules, n).Ok? ==>
      TotalItems(Round(states, rules, n).value) == TotalItems(states)
      && forall j | 0 <= j < |states| :: Round(states, rules, n).value[j].counter >= states[j].counter
  {
    if n > 0 {
      RoundConserves(states, rules, n - 1);
      if Round(states, rules, n - 1).Ok? {
        TurnEffect(Round(states, rules, n - 1).value, rules, n - 1);
      }
    }
  }

  lemma RoundStep(states: seq<MonkeyState>, rules: seq<Rule>, n: nat, before: seq<MonkeyState>)
    requires |states| == |rules| && n < |states| && NoSelfTarget(rules)
    requires Round(states, rules, n) == Ok(before)
    ensures Round(states, rules, n + 1) == Turn(before, rules, n)
  {
  }

  lemma {:induction false} RoundFailureStays(states: seq<MonkeyState>, rules: seq<Rule>, k: nat, n: nat)
    requires |states| == |rules| && k <= n <= |states| && NoSelfTarget(rules)
    requires Round(states, rules, k).Err?
    ensures Round(states, rules, n).Err?
    decreases n - k
  {
    if k < n {
      RoundFailureStays(states, rules, k + 1, n);
    }
  }

  // ---------------------------------------------------------------------
  // A round on the monkey objects
  // ---------------------------------------------------------------------

  /** `parseInput` builds a fresh object per monkey. */
  predicate Distinct(monkeys: seq<Monkey>) {
    forall a, b | 0 <= a < b < |monkeys| :: monkeys[a] != monkeys[b]
  }

  function Rules(monkeys: seq<Monkey>): (r: seq<Rule>)
    ensures |r| == |monkeys|
  {
    if monkeys == [] then [] else Rules(monkeys[..|monkeys| - 1]) + [monkeys[|monkeys| - 1].RuleOf()]
  }

  lemma {:induction false} RulesAt(monkeys: seq<Monkey>)
    ensures forall j | 0 <= j < |monkeys| :: Rules(monkeys)[j] == monkeys[j].RuleOf()
    decreases |monkeys|
  {
    if monkeys != [] {
      RulesAt(monkeys[..|monkeys| - 1]);
    }
  }

  function Snapshot(monkeys: seq<Monkey>): (r: seq<MonkeyState>)
    reads set m | m in monkeys
    ensures |r| == |monkeys|
  {
    if monkeys == [] then []
    else
      var last := monkeys[|monkeys| - 1];
      Snapshot(monkeys[..|monkeys| - 1]) + [MonkeyState(last.items, last.inspectionCounter)]
  }

  lemma {:induction false} SnapshotAt(monkeys: seq<Monkey>)
    ensures forall j | 0 <= j < |monkeys| ::
      Snapshot(monkeys)[j] == MonkeyState(monkeys[j].items, monkeys[j].inspectionCounter)
    decreases |monkeys|
  {
    if monkeys != [] {
      SnapshotAt(monkeys[..|monkeys| - 1]);
    }
  }

  /** Two snapshots that differ at most at monkey `k`, which holds `s`. */
  lemma SnapshotOthers(monkeys: seq<Monkey>, before: seq<MonkeyState>, after: seq<MonkeyState>, k: nat, s: MonkeyState)
    requires |before| == |after| == |monkeys| && k < |monkeys| && after[k] == s
    requires forall j | 0 <= j < |monkeys| && j != k :: after[j] == before[j]
    ensures after == before[k := s]
  {
  }

  /** One iteration of the inner loop of `simulateRound`. */
  method ThrowOne(monkeys: seq<Monkey>, i: nat) returns (ok: bool)
    requires Distinct(monkeys) && i < |monkeys| && Snapshot(monkeys)[i].items != []
    modifies set m | m in monkeys
    ensures ok <==> ThrowFirst(old(Snapshot(monkeys)), Rules(monkeys), i).Ok?
    ensures ok ==> Snapshot(monkeys) == ThrowFirst(old(Snapshot(monkeys)), Rules(monkeys), i).value
  {
    SnapshotAt(monkeys);
    ghost var s0 := Snapshot(monkeys);
    var monkey := monkeys[i];
    var itemLevel := monkey.items[0];
    monkey.items := monkey.items[1..];
    var r := monkey.Inspect(itemLevel);
    ghost var popped := s0[i := MonkeyState(s0[i].items[1..], s0[i].counter + 1)];
    SnapshotAt(monkeys);
    SnapshotOthers(monkeys, s0, Snapshot(monkeys), i, popped[i]);
    RulesAt(monkeys);
    ThrowFirstBy(s0, Rules(monkeys), i, r);
    if r.Err? {
      return false;
    }
    var (newItemLevel, target) := r.value;
    if !(0 <= target < |monkeys|) {
      return false;
    }
    monkeys[target].items := monkeys[target].items + [newItemLevel];
    SnapshotAt(monkeys);
    SnapshotOthers(monkeys, popped, Snapshot(monkeys), target,
      MonkeyState(popped[target].items + [newItemLevel], popped[target].counter));
    ok := true;
  }

  /** One monkey's turn: it throws until its list is empty. */
  method TakeTurn(monkeys: seq<Monkey>, i: nat) returns (ok: bool)
    requires Distinct(monkeys) && i < |monkeys| && NoSelfTarget(Rules(monkeys))
    modifies set m | m in monkeys
    ensures ok <==> Turn(old(Snapshot(monkeys)), Rules(monkeys), i).Ok?
    ensures ok ==> Snapshot(monkeys) == Turn(old(Snapshot(monkeys)), Rules(monkeys), i).value
  {
    ghost var rules := Rules(monkeys);
    ghost var start := Snapshot(monkeys);
    while monkeys[i].items != []
      invariant Turn(Snapshot(monkeys), rules, i) == Turn(start, rules, i)
      decreases |monkeys[i].items|
    {
      SnapshotAt(monkeys);
      ghost var before := Snapshot(monkeys);
      ok := ThrowOne(monkeys, i);
      if !ok {
        return;
      }
      ThrowFirstEffect(before, rules, i);
      SnapshotAt(monkeys);
    }
    SnapshotAt(monkeys);
    ok := true;
  }

  /** One pass of `simulateRound`'s loop: monkey `i` takes its turn. */
  method RoundTurn(monkeys: seq<Monkey>, ghost start: seq<MonkeyState>, i: nat) returns (ok: bool)
    requires Distinct(monkeys) && NoSelfTarget(Rules(monkeys))
    requires |start| == |monkeys| && i < |monkeys|
    requires Round(start, Rules(monkeys), i) == Ok(Snapshot(monkeys))
    modifies set m | m in monkeys
    ensures ok <==> Round(start, Rules(monkeys), i + 1).Ok?
    ensures ok ==> Round(start, Rules(monkeys), i + 1) == Ok(Snapshot(monkeys))
    ensures !ok ==> Round(start, Rules(monkeys), |monkeys|).Err?
  {
    RoundStep(start, Rules(monkeys), i, Snapshot(monkeys));
    ok := TakeTurn(monkeys, i);
    if !ok {
      RoundFailureStays(start, Rules(monkeys), i + 1, |monkeys|);
    }
  }

  /** `simulateRound`: every monkey takes its turn, in list order. */
  method SimulateRound(monkeys: seq<Monkey>) returns (ok: bool)
    requires Distinct(monkeys) && NoSelfTarget(Rules(monkeys))
    modifies set m | m in monkeys
    ensures ok <==> Round(old(Snapshot(monkeys)), Rules(monkeys), |monkeys|).Ok?
    ensures ok ==> Snapshot(monkeys) == Round(old(Snapshot(monkeys)), Rules(monkeys), |monkeys|).value
  {
    ghost var rules := Rules(monkeys);
    ghost var start := Snapshot(monkeys);
    var i := 0;
    while i < |monkeys|
      invariant 0 <= i <= |monkeys|
      invariant Round(start, rules, i) == Ok(Snapshot(monkeys))
    {
      ok := RoundTurn(monkeys, start, i);
      if !ok {
        return;
      }
      i := i + 1;
    }
    assert start == old(Snapshot(monkeys)) && rules == Rules(monkeys) && i == |monkeys|;
    ok := true;
  }

  // ---------------------------------------------------------------------
  // Part 1
  // ---------------------------------------------------------------------

  /** `rounds` rounds in a row. */
  function Rounds(states: seq<MonkeyState>, rules: seq<Rule>, rounds: nat): (r: Result<seq<MonkeyState>>)
    requires |states| == |rules| && NoSelfTarget(rules)
    ensures r.Ok? ==> |r.value| == |states|
  {
    if rounds == 0 then Ok(states)
    else
      match Rounds(states, rules, rounds - 1)
      case Err(e) => Err(e)
      case Ok(before) => Round(before, rules, |states|)
  }

  lemma RoundsStep(states: seq<MonkeyState>, rules: seq<Rule>, n: nat, before: seq<MonkeyState>)
    requires |states| == |rules| && NoSelfTarget(rules)
    requires Rounds(states, rules, n) == Ok(before)
    ensures Rounds(states, rules, n + 1) == Round(before, rules, |before|)
  {
  }

  lemma {:induction false} RoundsFailureStays(states: seq<MonkeyState>, rules: seq<Rule>, k: nat, n: nat)
    requires |states| == |rules| && k <= n && NoSelfTarget(rules)
    requires Rounds(states, rules, k).Err?
    ensures Rounds(states, rules, n).Err?
    decreases n - k
  {
    if k < n {
      RoundsFailureStays(states, rules, k + 1, n);
    }
  }

  /** Items are neither lost nor created over any number of rounds. */
  lemma {:induction false} RoundsConserve(states: seq<MonkeyState>, rules: seq<Rule>, rounds: nat)
    requires |states| == |rules| && NoSelfTarget(rules)
    ensures Rounds(states, rules, rounds).Ok? ==> TotalItems(Rounds(states, rules, rounds).value) == TotalItems(states)
  {
    if rounds > 0 {
      RoundsConserve(states, rules, rounds - 1);
      if Rounds(states, rules, rounds - 1).Ok? {
        RoundConserves(Rounds(states, rules, rounds - 1).value, rules, |states|);
      }
    }
  }

  function Counters(states: seq<MonkeyState>): (r: seq<int>)
    ensures |r| == |states| && forall i | 0 <= i < |states| :: r[i] == states[i].counter
  {
    seq(|states|, i requires 0 <= i < |states| => states[i].counter)
  }

  /** `v` is the product of the two largest counters, a repeated maximum counted twice. */
  ghost predicate IsTopTwoProduct(counters: seq<int>, v: int) {
    exists a, b :: multiset{a, b} <= multiset(counters) && b <= a && v == a * b
      && forall x | x in multiset(counters) - multiset{a, b} :: x <= b
  }

  /** The first two counters after a descending sort are the two largest. */
  lemma TopTwoSorted(counters: seq<int>)
    requires |counters| >= 2
    ensures |Lists.SortDescending(counters)| >= 2
    ensures var t := Lists.SortDescending(counters); IsTopTwoProduct(counters, t[0] * t[1])
  {
    Lists.TopTwo(counters);
    var t := Lists.SortDescending(counters);
    assert multiset{t[0], t[1]} <= multiset(counters);
  }

  /** One pass of the rounds loop: one more call of `simulateRound`. */
  method PlayRound(monkeys: seq<Monkey>, ghost start: seq<MonkeyState>, round: nat) returns (ok: bool)
    requires Distinct(monkeys) && NoSelfTarget(Rules(monkeys)) && |start| == |monkeys|
    requires Rounds(start, Rules(monkeys), round) == Ok(Snapshot(monkeys))
    modifies set m | m in monkeys
    ensures ok <==> Rounds(start, Rules(monkeys), round + 1).Ok?
    ensures ok ==> Rounds(start, Rules(monkeys), round + 1) == Ok(Snapshot(monkeys))
  {
    RoundsStep(start, Rules(monkeys), round, Snapshot(monkeys));
    ok := SimulateRound(monkeys);
  }

  /** `rounds` calls of `simulateRound`. */
  method SimulateRounds(monkeys: seq<Monkey>, rounds: nat) returns (ok: bool)
    requires Distinct(monkeys) && NoSelfTarget(Rules(monkeys))
    modifies set m | m in monkeys
    ensures ok <==> Rounds(old(Snapshot(monkeys)), Rules(monkeys), rounds).Ok?
    ensures ok ==> Snapshot(monkeys) == Rounds(old(Snapshot(monkeys)), Rules(monkeys), rounds).value
  {
    ghost var start := Snapshot(monkeys);
    var round := 1;
    while round <= rounds
      invariant 1 <= round <= rounds + 1
      invariant Rounds(start, Rules(monkeys), round - 1) == Ok(Snapshot(monkeys))
    {
      ok := PlayRound(monkeys, start, round - 1);
      if !ok {
        RoundsFailureStays(start, Rules(monkeys), round, rounds);
        assert start == old(Snapshot(monkeys));
        return;
      }
      round := round + 1;
    }
    assert start == old(Snapshot(monkeys)) && round - 1 == rounds;
    ok := true;
  }

  /** The monkey business after `rounds` rounds: product of the two largest counters. */
  method MonkeyBusiness(monkeys: seq<Monkey>, rounds: nat) returns (r: Result<int>)
    requires Distinct(monkeys) && NoSelfTarget(Rules(monkeys))
    modifies set m | m in monkeys
    ensures r.Ok? <==> Rounds(old(Snapshot(monkeys)), Rules(monkeys), rounds).Ok? && |monkeys| >= 2
    ensures r.Ok? ==> IsTopTwoProduct(Counters(Rounds(old(Snapshot(monkeys)), Rules(monkeys), rounds).value), r.value)
  {
    var ok := SimulateRounds(monkeys, rounds);
    if !ok {
      return Err("simulateRound failed");
    }
    var counters := Counters(Snapshot(monkeys));
    var inspections := Lists.SortDescending(counters);
    if |monkeys| < 2 {
      return Err("IndexOutOfBoundsException");
    }
    TopTwoSorted(counters);
    r := Ok(inspections[0] * inspections[1]);
  }

  method Part1(monkeys: seq<Monkey>) returns (r: Result<int>)
    requires Distinct(monkeys) && NoSelfTarget(Rules(monkeys))
    modifies set m | m in monkeys
    ensures r.Ok? <==> Rounds(old(Snapshot(monkeys)), Rules(monkeys), 20).Ok? && |monkeys| >= 2
    ensures r.Ok? ==> IsTopTwoProduct(Counters(Rounds(old(Snapshot(monkeys)), Rules(monkeys), 20).value), r.value)
  {
    r := MonkeyBusiness(monkeys, 20);
  }

  /** The same rounds, 10000 of them (the worry level is still divided by three). */
  method Part2(monkeys: seq<Monkey>) returns (r: Result<int>)
    requires Distinct(monkeys) && NoSelfTarget(Rules(monkeys))
    modifies set m | m in monkeys
    ensures r.Ok? <==> Rounds(old(Snapshot(monkeys)), Rules(monkeys), 10000).Ok? && |monkeys| >= 2
    ensures r.Ok? ==> IsTopTwoProduct(Counters(Rounds(old(Snapshot(monkeys)), Rules(monkeys), 10000).value), r.value)
  {
    r := MonkeyBusiness(monkeys, 10000);
  }
}
