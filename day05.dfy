/** Day 5, supply stacks: a drawing of crate stacks followed by crane
    commands; the crane moves crates one at a time (part 1) or several at
    once (part 2), and the answer lists the top crate of every stack. */
module Day05 {
  import opened Wrappers
  import opened Text

  type Crate = char

  /** A command as the crane executes it: the source and destination are
      0-based indices into the stacks (the input numbers them from 1). */
  datatype CraneCommand = CraneCommand(cratesCount: nat, source: nat, destination: nat)

  // ----- The drawing -----

  /** `takeWhile { it.isNotEmpty() }`: the drawing above the first blank line. */
  function StateLines(input: seq<string>): (r: seq<string>)
    ensures r <= input
    ensures forall k | 0 <= k < |r| :: r[k] != []
    ensures |r| < |input| ==> input[|r|] == []
  {
    if input == [] || input[0] == [] then []
    else [input[0]] + StateLines(input[1..])
  }

  /** The number of stacks: the digit just before the last character of the
      index line (the last line of the drawing). */
  function StackCount(state: seq<string>): (r: Result<nat>)
    ensures r.Ok? <==> (state != [] && |state[|state| - 1]| >= 2
                        && IsDigit(state[|state| - 1][|state[|state| - 1]| - 2]))
    ensures r.Ok? ==> r.value < 10
    ensures r.Ok? ==> DigitChar(r.value) == state[|state| - 1][|state[|state| - 1]| - 2]
  {
    if state == [] then Err("List is empty")
    else
      var indexLine := state[|state| - 1];
      if |indexLine| < 2 then Err("String index out of range")
      else
        match DigitToInt(indexLine[|indexLine| - 2])
        case None => Err("Char is not a decimal digit")
        case Some(d) => Ok(d)
  }

  /** The text column holding the crates of stack `stackId`. */
  function ColumnOf(stackId: nat): nat {
    1 + stackId * 4
  }

  /** The crate a row shows in text column `col`: none for a blank. */
  function CrateAt(row: string, col: nat): seq<Crate> {
    if col < |row| && row[col] != ' ' then [row[col]] else []
  }

  /** The crates of one column, read from the bottom row up; blanks are skipped. */
  function Column(rows: seq<string>, col: nat): seq<Crate> {
    if rows == [] then []
    else Column(rows[1..], col) + CrateAt(rows[0], col)
  }

  /** Every crate row is wide enough for every stack's column. */
  predicate Fits(rows: seq<string>, stackCount: nat) {
    forall k, s | 0 <= k < |rows| && 0 <= s < stackCount :: ColumnOf(s) < |rows[k]|
  }

  /** The stacks a drawing describes, bottom crate first. */
  function DiagramOf(state: seq<string>): (r: Result<seq<seq<Crate>>>)
    ensures r.Ok? ==> StackCount(state).Ok? && |r.value| == StackCount(state).value
  {
    match StackCount(state)
    case Err(e) => Err(e)
    case Ok(count) =>
      var rows := state[..|state| - 1];
      if !Fits(rows, count) then Err("String index out of range")
      else Ok(seq(count, s requires 0 <= s < count => Column(rows, ColumnOf(s))))
  }

  /** A crate sits in a stack's column exactly when it is in that stack, and
      a higher row puts it nearer the top. */
  lemma {:induction false} ColumnContents(rows: seq<string>, col: nat)
    ensures forall c :: c in Column(rows, col) <==>
      c != ' ' && exists k :: 0 <= k < |rows| && col < |rows[k]| && rows[k][col] == c
  {
    if rows != [] {
      ColumnContents(rows[1..], col);
      forall c ensures c in Column(rows, col) <==>
        c != ' ' && exists k :: 0 <= k < |rows| && col < |rows[k]| && rows[k][col] == c
      {
        if exists k :: 0 <= k < |rows| && col < |rows[k]| && rows[k][col] == c {
          var k :| 0 <= k < |rows| && col < |rows[k]| && rows[k][col] == c;
          if k > 0 {
            assert rows[1..][k - 1] == rows[k];
          }
        }
        if c in Column(rows[1..], col) {
          var k :| 0 <= k < |rows[1..]| && col < |rows[1..][k]| && rows[1..][k][col] == c;
          assert rows[k + 1] == rows[1..][k];
        }
      }
    }
  }

  /** The drawing parsed into a fresh array of stacks, level by level from
      the bottom row up, each level left to right. */
  method ParseDiagram(state: seq<string>) returns (r: Result<array<seq<Crate>>>)
    ensures r.Err? <==> DiagramOf(state).Err?
    ensures r.Ok? ==> fresh(r.value) && r.value[..] == DiagramOf(state).value
  {
    var countResult := StackCount(state);
    if countResult.Err? {
      return Err(countResult.message);
    }
    var stackCount := countResult.value;
    var rows := state[..|state| - 1];
    var stacks := new seq<Crate>[stackCount](_ => []);
    var level := |rows|;
    while level > 0
      invariant 0 <= level <= |rows|
      invariant Fits(rows[level..], stackCount)
      invariant forall s | 0 <= s < stackCount :: stacks[s] == Column(rows[level..], ColumnOf(s))
    {
      level := level - 1;
      var ok := AddLevel(stacks, rows[level]);
      if !ok {
        var s :| 0 <= s < stackCount && ColumnOf(s) >= |rows[level]|;
        assert !Fits(rows, stackCount);
        return Err("String index out of range");
      }
      assert rows[level..][1..] == rows[level + 1..] && rows[level..][0] == rows[level];
      assert Fits(rows[level..], stackCount) by {
        forall k, s | 0 <= k < |rows[level..]| && 0 <= s < stackCount
          ensures ColumnOf(s) < |rows[level..][k]|
        {
          if k > 0 {
            assert rows[level..][k] == rows[level + 1..][k - 1];
          }
        }
      }
    }
    assert rows[0..] == rows;
    return Ok(stacks);
  }

  /** One level of the drawing: each stack, left to right, takes the crate
      its column shows in `row`; a row too short for a column fails. */
  method AddLevel(stacks: array<seq<Crate>>, row: string) returns (ok: bool)
    modifies stacks
    ensures ok <==> forall s | 0 <= s < stacks.Length :: ColumnOf(s) < |row|
    ensures ok ==> forall s | 0 <= s < stacks.Length :: stacks[s] == old(stacks[s]) + CrateAt(row, ColumnOf(s))
  {
    var stackId := 0;
    while stackId < stacks.Length
      invariant 0 <= stackId <= stacks.Length
      invariant forall s | 0 <= s < stackId :: ColumnOf(s) < |row|
      invariant forall s | 0 <= s < stackId :: stacks[s] == old(stacks[s]) + CrateAt(row, ColumnOf(s))
      invariant forall s | stackId <= s < stacks.Length :: stacks[s] == old(stacks[s])
    {
      if ColumnOf(stackId) >= |row| {
        return false;
      }
      var crate := row[ColumnOf(stackId)];
      if crate != ' ' {
        stacks[stackId] := stacks[stackId] + [crate];
      }
      stackId := stackId + 1;
    }
    return true;
  }

  // ----- The commands -----

  /** The longest run of digits at the start of `s`. */
  function DigitRun(s: string): (r: string)
    ensures r <= s && AllDigits(r)
    ensures |r| < |s| ==> !IsDigit(s[|r|])
  {
    if s != [] && IsDigit(s[0]) then [s[0]] + DigitRun(s[1..]) else []
  }

  lemma {:induction false} DigitRunOfDigits(a: string, rest: string)
    requires AllDigits(a)
    requires rest == [] || !IsDigit(rest[0])
    ensures DigitRun(a + rest) == a
  {
    if a != [] {
      assert (a + rest)[1..] == a[1..] + rest;
      DigitRunOfDigits(a[1..], rest);
    } else {
      assert a + rest == rest;
    }
  }

  /** The literal `word` followed by a digit run: the run and what follows it. */
  function WordThenNumber(s: string, word: string): (r: Option<(string, string)>)
  {
    if !StartsWith(s, word) then None
    else
      var run := DigitRun(s[|word|..]);
      if run == [] then None else Some((run, s[|word|..][|run|..]))
  }

  lemma WordThenNumberComplete(word: string, a: string, rest: string)
    requires IsNumeral(a) && (rest == [] || !IsDigit(rest[0]))
    ensures WordThenNumber(word + a + rest, word) == Some((a, rest))
  {
    var s := word + a + rest;
    assert s[..|word|] == word;
    assert s[|word|..] == a + rest;
    DigitRunOfDigits(a, rest);
    assert (a + rest)[|a|..] == rest;
  }

  lemma WordThenNumberSound(s: string, word: string, run: string, rest: string)
    requires WordThenNumber(s, word) == Some((run, rest))
    ensures IsNumeral(run) && s == word + run + rest
  {
    var tail := s[|word|..];
    assert tail == run + tail[|run|..];
    assert s == s[..|word|] + tail;
  }

  /** The captured groups of `move (\d+) from (\d+) to (\d+)`: a digit run
      can only end where the following space starts, so the runs are maximal. */
  function MatchCommand(line: string): Option<(string, string, string)> {
    match WordThenNumber(line, "move ")
    case None => None
    case Some((a, rest1)) =>
      match WordThenNumber(rest1, " from ")
      case None => None
      case Some((b, rest2)) =>
        match WordThenNumber(rest2, " to ")
        case None => None
        case Some((c, rest3)) => if rest3 == [] then Some((a, b, c)) else None
  }

  function CommandText(a: string, b: string, c: string): string {
    "move " + a + " from " + b + " to " + c
  }

  predicate IsNumeral(s: string) {
    s != [] && AllDigits(s)
  }

  /** Every command text of three digit runs matches, with those runs as groups. */
  lemma MatchCommandComplete(a: string, b: string, c: string)
    requires IsNumeral(a) && IsNumeral(b) && IsNumeral(c)
    ensures MatchCommand(CommandText(a, b, c)) == Some((a, b, c))
  {
    var tail2 := " to " + c;
    var tail1 := " from " + b + tail2;
    assert CommandText(a, b, c) == "move " + a + tail1;
    WordThenNumberComplete("move ", a, tail1);
    WordThenNumberComplete(" from ", b, tail2);
    assert tail2 == " to " + c + [];
    WordThenNumberComplete(" to ", c, []);
  }

  lemma CommandTextShape(a: string, b: string, c: string)
    ensures CommandText(a, b, c) == "move " + a + (" from " + b + (" to " + c + []))
  {
    assert " to " + c + [] == " to " + c;
  }

  /** Only command texts of three digit runs match, and they match as those runs. */
  lemma MatchCommandSound(line: string, a: string, b: string, c: string)
    requires MatchCommand(line) == Some((a, b, c))
    ensures IsNumeral(a) && IsNumeral(b) && IsNumeral(c)
    ensures line == CommandText(a, b, c)
  {
    var (a1, rest1) := WordThenNumber(line, "move ").value;
    WordThenNumberSound(line, "move ", a1, rest1);
    var (b1, rest2) := WordThenNumber(rest1, " from ").value;
    WordThenNumberSound(rest1, " from ", b1, rest2);
    var (c1, rest3) := WordThenNumber(rest2, " to ").value;
    WordThenNumberSound(rest2, " to ", c1, rest3);
    assert a1 == a && b1 == b && c1 == c && rest3 == [];
    CommandTextShape(a, b, c);
  }

  /** One command line: the captured numbers read as `toInt`, and the stack
      numbers looked up among `stackCount` stacks. */
  function CommandOf(line: string, stackCount: nat): (r: Result<CraneCommand>)
    ensures r.Ok? ==> r.value.source < stackCount && r.value.destination < stackCount
  {
    match MatchCommand(line)
    case None => Err("Incorrect command line")
    case Some((a, b, c)) =>
      MatchCommandSound(line, a, b, c);
      CommandOfGroups(a, b, c, stackCount)
  }

  /** The three captured groups as crate count, source and destination. */
  function CommandOfGroups(a: string, b: string, c: string, stackCount: nat): (r: Result<CraneCommand>)
    requires IsNumeral(a) && IsNumeral(b) && IsNumeral(c)
    ensures r.Ok? ==> r.value.source < stackCount && r.value.destination < stackCount
  {
    DigitsParseNonNegative(a);
    match (ParseInt(a), ParseInt(b), ParseInt(c))
    case (Some(n), Some(s), Some(d)) =>
      if 1 <= s <= stackCount && 1 <= d <= stackCount then Ok(CraneCommand(n, s - 1, d - 1))
      else Err("Index out of bounds")
    case _ => Err("NumberFormatException")
  }

  /** A command written with in-range numbers reads back as that command. */
  lemma CommandRoundTrip(cmd: CraneCommand, stackCount: nat)
    requires cmd.cratesCount <= MaxInt && cmd.source < stackCount && cmd.destination < stackCount
    requires stackCount <= MaxInt
    ensures CommandOf(CommandText(NatToString(cmd.cratesCount), NatToString(cmd.source + 1),
      NatToString(cmd.destination + 1)), stackCount) == Ok(cmd)
  {
    var a := NatToString(cmd.cratesCount);
    var b := NatToString(cmd.source + 1);
    var c := NatToString(cmd.destination + 1);
    MatchCommandComplete(a, b, c);
    GroupsRoundTrip(cmd, stackCount);
  }

  lemma GroupsRoundTrip(cmd: CraneCommand, stackCount: nat)
    requires cmd.cratesCount <= MaxInt && cmd.source < stackCount && cmd.destination < stackCount
    requires stackCount <= MaxInt
    ensures CommandOfGroups(NatToString(cmd.cratesCount), NatToString(cmd.source + 1),
      NatToString(cmd.destination + 1), stackCount) == Ok(cmd)
  {
    ParseIntRoundTrip(cmd.cratesCount);
    ParseIntRoundTrip(cmd.source + 1);
    ParseIntRoundTrip(cmd.destination + 1);
  }

  /** The lines below the blank line that ends the drawing (`drop(size + 1)`). */
  function CommandLines(input: seq<string>): seq<string> {
    var skip := |StateLines(input)| + 1;
    if skip <= |input| then input[skip..] else []
  }

  /** Every command line parsed in order; the first bad line fails. */
  function CommandsOf(lines: seq<string>, stackCount: nat): (r: Result<seq<CraneCommand>>)
    ensures r.Ok? ==> |r.value| == |lines|
    ensures r.Ok? ==> forall j | 0 <= j < |r.value| ::
      r.value[j].source < stackCount && r.value[j].destination < stackCount
  {
    if lines == [] then Ok([])
    else
      var init := lines[..|lines| - 1];
      match CommandsOf(init, stackCount)
      case Err(e) => Err(e)
      case Ok(cmds) =>
        match CommandOf(lines[|lines| - 1], stackCount)
        case Err(e) => Err(e)
        case Ok(cmd) => Ok(cmds + [cmd])
  }

  lemma {:induction false} CommandsPrefixErr(lines: seq<string>, stackCount: nat, i: nat)
    requires i <= |lines| && CommandsOf(lines[..i], stackCount).Err?
    ensures CommandsOf(lines, stackCount).Err?
    decreases |lines| - i
  {
    if i < |lines| {
      assert lines[..i + 1][..i] == lines[..i];
      CommandsPrefixErr(lines, stackCount, i + 1);
    } else {
      assert lines[..i] == lines;
    }
  }

  lemma CommandsStep(lines: seq<string>, i: nat, stackCount: nat, cmds: seq<CraneCommand>)
    requires i < |lines| && CommandsOf(lines[..i], stackCount) == Ok(cmds)
    ensures CommandsOf(lines[..i + 1], stackCount) ==
      match CommandOf(lines[i], stackCount)
      case Err(e) => Err(e)
      case Ok(cmd) => Ok(cmds + [cmd])
  {
    assert lines[..i + 1][..i] == lines[..i];
  }

  /** The command list built line by line. */
  method ParseCommands(lines: seq<string>, stackCount: nat) returns (r: Result<seq<CraneCommand>>)
    ensures r.Err? <==> CommandsOf(lines, stackCount).Err?
    ensures r.Ok? ==> r == CommandsOf(lines, stackCount)
  {
    var craneCommands: seq<CraneCommand> := [];
    var i := 0;
    while i < |lines|
      invariant 0 <= i <= |lines|
      invariant CommandsOf(lines[..i], stackCount) == Ok(craneCommands)
    {
      CommandsStep(lines, i, stackCount, craneCommands);
      var cmd := CommandOf(lines[i], stackCount);
      if cmd.Err? {
        CommandsPrefixErr(lines, stackCount, i + 1);
        return Err(cmd.message);
      }
      craneCommands := craneCommands + [cmd.value];
      i := i + 1;
    }
    assert lines[..i] == lines;
    r := Ok(craneCommands);
  }

  // ----- The crane -----

  type Stacks = seq<seq<Crate>>

  predicate Valid(stacks: Stacks, cmd: CraneCommand) {
    cmd.source < |stacks| && cmd.destination < |stacks|
  }

  function Reverse(s: seq<Crate>): (r: seq<Crate>)
    ensures |r| == |s|
  {
    if s == [] then [] else Reverse(s[1..]) + [s[0]]
  }

  lemma {:induction false} ReverseReverse(s: seq<Crate>)
    ensures Reverse(Reverse(s)) == s
  {
    if s != [] {
      ReverseReverse(s[1..]);
      ReverseAppend(Reverse(s[1..]), [s[0]]);
      assert Reverse([s[0]]) == [s[0]];
    }
  }

  lemma {:induction false} ReverseAppend(a: seq<Crate>, b: seq<Crate>)
    ensures Reverse(a + b) == Reverse(b) + Reverse(a)
  {
    if a == [] {
      assert a + b == b;
    } else {
      assert (a + b)[1..] == a[1..] + b;
      ReverseAppend(a[1..], b);
    }
  }

  /** All crates on all stacks, as a multiset. */
  function AllCrates(stacks: Stacks): multiset<Crate> {
    if stacks == [] then multiset{}
    else AllCrates(stacks[..|stacks| - 1]) + multiset(stacks[|stacks| - 1])
  }

  lemma {:induction false} AllCratesUpdate(stacks: Stacks, i: nat, v: seq<Crate>)
    requires i < |stacks|
    ensures AllCrates(stacks[i := v]) + multiset(stacks[i]) == AllCrates(stacks) + multiset(v)
  {
    var updated := stacks[i := v];
    if i < |stacks| - 1 {
      var prefix := stacks[..|stacks| - 1];
      var last := multiset(stacks[|stacks| - 1]);
      assert updated[..|stacks| - 1] == prefix[i := v];
      assert updated[|stacks| - 1] == stacks[|stacks| - 1];
      assert prefix[i] == stacks[i];
      AllCratesUpdate(prefix, i, v);
      var lhs := AllCrates(updated) + multiset(stacks[i]);
      var rhs := AllCrates(stacks) + multiset(v);
      assert AllCrates(updated) == AllCrates(prefix[i := v]) + last;
      assert AllCrates(stacks) == AllCrates(prefix) + last;
      forall x ensures lhs[x] == rhs[x] {
        assert (AllCrates(prefix[i := v]) + multiset(prefix[i]))[x] == (AllCrates(prefix) + multiset(v))[x];
      }
      assert lhs == rhs;
    } else {
      assert updated[..|stacks| - 1] == stacks[..|stacks| - 1];
    }
  }

  /** The top `k` crates of the source lifted together onto the destination. */
  function MoveTop(stacks: Stacks, source: nat, destination: nat, k: nat): Stacks
    requires source < |stacks| && destination < |stacks| && k <= |stacks[source]|
  {
    var s := stacks[source];
    var removed := stacks[source := s[..|s| - k]];
    removed[destination := removed[destination] + s[|s| - k..]]
  }

  lemma MoveTopConserves(stacks: Stacks, source: nat, destination: nat, k: nat)
    requires source < |stacks| && destination < |stacks| && k <= |stacks[source]|
    ensures AllCrates(MoveTop(stacks, source, destination, k)) == AllCrates(stacks)
  {
    var s := stacks[source];
    var kept := s[..|s| - k];
    var moved := s[|s| - k..];
    var removed := stacks[source := kept];
    var landed := removed[destination] + moved;
    var result := removed[destination := landed];
    assert s == kept + moved;
    AllCratesUpdate(stacks, source, kept);
    AllCratesUpdate(removed, destination, landed);
    forall x ensures AllCrates(result)[x] == AllCrates(stacks)[x] {
      assert (AllCrates(removed) + multiset(s))[x] == (AllCrates(stacks) + multiset(kept))[x];
      assert (AllCrates(result) + multiset(removed[destination]))[x] == (AllCrates(removed) + multiset(landed))[x];
      assert multiset(s)[x] == multiset(kept)[x] + multiset(moved)[x];
      assert multiset(landed)[x] == multiset(removed[destination])[x] + multiset(moved)[x];
    }
    assert AllCrates(result) == AllCrates(stacks);
  }

  /** One crate off the top of the source onto the top of the destination;
      an empty source fails (`removeLast` on an empty deque). */
  function MoveOne(stacks: Stacks, source: nat, destination: nat): (r: Option<Stacks>)
    requires source < |stacks| && destination < |stacks|
    ensures r.Some? <==> stacks[source] != []
    ensures r.Some? ==> |r.value| == |stacks|
  {
    if stacks[source] == [] then None
    else
      var s := stacks[source];
      var removed := stacks[source := s[..|s| - 1]];
      Some(removed[destination := removed[destination] + [s[|s| - 1]]])
  }

  /** Taking the top crate off one stack and putting it on another keeps every crate. */
  lemma MoveOneConserves(stacks: Stacks, source: nat, destination: nat)
    requires source < |stacks| && destination < |stacks| && MoveOne(stacks, source, destination).Some?
    ensures AllCrates(MoveOne(stacks, source, destination).value) == AllCrates(stacks)
  {
    var s := stacks[source];
    MoveTopConserves(stacks, source, destination, 1);
    assert s[|s| - 1..] == [s[|s| - 1]];
    assert MoveOne(stacks, source, destination).value == MoveTop(stacks, source, destination, 1);
  }

  /** The CrateMover 9000: `k` single-crate moves in a row. */
  function Moves9000(stacks: Stacks, source: nat, destination: nat, k: nat): (r: Option<Stacks>)
    requires source < |stacks| && destination < |stacks|
    ensures r.Some? ==> |r.value| == |stacks|
  {
    if k == 0 then Some(stacks)
    else
      match Moves9000(stacks, source, destination, k - 1)
      case None => None
      case Some(t) => MoveOne(t, source, destination)
  }

  lemma {:induction false} MovesFailureStays(stacks: Stacks, source: nat, destination: nat, i: nat, k: nat)
    requires source < |stacks| && destination < |stacks| && i <= k
    requires Moves9000(stacks, source, destination, i).None?
    ensures Moves9000(stacks, source, destination, k).None?
    decreases k - i
  {
    if i < k {
      MovesFailureStays(stacks, source, destination, i + 1, k);
    }
  }

  /** One more single move: the crate at height `j` joins the reversed run. */
  lemma MoveOneReversed(stacks: Stacks, source: nat, destination: nat, j: nat)
    requires source < |stacks| && destination < |stacks| && source != destination
    requires j < |stacks[source]|
    ensures var s := stacks[source];
      MoveOne(stacks[source := s[..j + 1]][destination := stacks[destination] + Reverse(s[j + 1..])], source, destination) ==
        Some(stacks[source := s[..j]][destination := stacks[destination] + Reverse(s[j..])])
  {
    var s := stacks[source];
    var t := stacks[source := s[..j + 1]][destination := stacks[destination] + Reverse(s[j + 1..])];
    assert t[source] == s[..j + 1] && t[source][j] == s[j];
    assert s[..j + 1][..j] == s[..j];
    assert s[j..][1..] == s[j + 1..];
    assert Reverse(s[j..]) == Reverse(s[j + 1..]) + [s[j]];
    var removed := t[source := s[..j]];
    assert removed[destination] == stacks[destination] + Reverse(s[j + 1..]);
    var result := removed[destination := removed[destination] + [s[j]]];
    assert MoveOne(t, source, destination) == Some(result);
    var expected := stacks[source := s[..j]][destination := stacks[destination] + Reverse(s[j..])];
    assert |result| == |expected|;
    forall x | 0 <= x < |result| ensures result[x] == expected[x] {
      if x == destination {
        assert result[x] == stacks[destination] + Reverse(s[j + 1..]) + [s[j]];
      }
    }
    assert result == expected;
  }

  /** Between two different stacks, `k` single moves land the top `k` crates
      in reversed order; other stacks are untouched; too few crates fail. */
  lemma {:induction false} Moves9000Reverse(stacks: Stacks, source: nat, destination: nat, k: nat)
    requires source < |stacks| && destination < |stacks| && source != destination
    ensures var s := stacks[source];
      Moves9000(stacks, source, destination, k) ==
        if k <= |s| then Some(stacks[source := s[..|s| - k]][destination := stacks[destination] + Reverse(s[|s| - k..])])
        else None
  {
    var s := stacks[source];
    if k > 0 {
      Moves9000Reverse(stacks, source, destination, k - 1);
      if k <= |s| {
        var j := |s| - k;
        var t := stacks[source := s[..j + 1]][destination := stacks[destination] + Reverse(s[j + 1..])];
        assert Moves9000(stacks, source, destination, k - 1) == Some(t);
        MoveOneReversed(stacks, source, destination, j);
        assert Moves9000(stacks, source, destination, k) == MoveOne(t, source, destination);
      } else if k - 1 == |s| {
        var t := stacks[source := s[..0]][destination := stacks[destination] + Reverse(s[0..])];
        assert Moves9000(stacks, source, destination, k - 1) == Some(t);
        assert t[source] == [];
        assert Moves9000(stacks, source, destination, k) == MoveOne(t, source, destination);
      } else {
        assert Moves9000(stacks, source, destination, k - 1) == None;
      }
    } else {
      assert s[..|s|] == s && s[|s|..] == [];
      assert stacks[destination] + Reverse([]) == stacks[destination];
      assert stacks[source := s][destination := stacks[destination]] == stacks;
    }
  }

  /** On one stack, single moves put each crate straight back. */
  lemma {:induction false} Moves9000SameStack(stacks: Stacks, source: nat, k: nat)
    requires source < |stacks|
    ensures Moves9000(stacks, source, source, k) ==
      if k == 0 || stacks[source] != [] then Some(stacks) else None
  {
    if k > 0 {
      Moves9000SameStack(stacks, source, k - 1);
      var s := stacks[source];
      if s != [] {
        assert s[..|s| - 1] + [s[|s| - 1]] == s;
        var removed := stacks[source := s[..|s| - 1]];
        assert removed[source := removed[source] + [s[|s| - 1]]] == stacks;
        assert MoveOne(stacks, source, source) == Some(stacks);
      }
    }
  }

  /** The CrateMover 9001: the top `k` crates keep their order; too few crates fail. */
  function Move9001(stacks: Stacks, source: nat, destination: nat, k: nat): (r: Option<Stacks>)
    requires source < |stacks| && destination < |stacks|
    ensures r.Some? <==> k <= |stacks[source]|
    ensures r.Some? ==> |r.value| == |stacks|
  {
    if k > |stacks[source]| then None
    else Some(MoveTop(stacks, source, destination, k))
  }

  datatype Crane = CrateMover9000 | CrateMover9001

  function Apply(crane: Crane, stacks: Stacks, cmd: CraneCommand): (r: Option<Stacks>)
    requires Valid(stacks, cmd)
    ensures r.Some? ==> |r.value| == |stacks|
  {
    match crane
    case CrateMover9000 => Moves9000(stacks, cmd.source, cmd.destination, cmd.cratesCount)
    case CrateMover9001 => Move9001(stacks, cmd.source, cmd.destination, cmd.cratesCount)
  }

  /** Every command in order; the first failing command fails the run. */
  function RunAll(crane: Crane, stacks: Stacks, cmds: seq<CraneCommand>): (r: Option<Stacks>)
    requires forall j | 0 <= j < |cmds| :: Valid(stacks, cmds[j])
    ensures r.Some? ==> |r.value| == |stacks|
  {
    if cmds == [] then Some(stacks)
    else
      match RunAll(crane, stacks, cmds[..|cmds| - 1])
      case None => None
      case Some(t) =>
        assert Valid(stacks, cmds[|cmds| - 1]);
        Apply(crane, t, cmds[|cmds| - 1])
  }

  /** Single moves keep every crate. */
  lemma {:induction false} Moves9000Conserves(stacks: Stacks, source: nat, destination: nat, k: nat)
    requires source < |stacks| && destination < |stacks| && Moves9000(stacks, source, destination, k).Some?
    ensures AllCrates(Moves9000(stacks, source, destination, k).value) == AllCrates(stacks)
  {
    if k > 0 {
      Moves9000Conserves(stacks, source, destination, k - 1);
      MoveOneConserves(Moves9000(stacks, source, destination, k - 1).value, source, destination);
    }
  }

  /** Moving several crates at once keeps every crate. */
  lemma Move9001Conserves(stacks: Stacks, source: nat, destination: nat, k: nat)
    requires source < |stacks| && destination < |stacks| && Move9001(stacks, source, destination, k).Some?
    ensures AllCrates(Move9001(stacks, source, destination, k).value) == AllCrates(stacks)
  {
    MoveTopConserves(stacks, source, destination, k);
  }

  /** A whole run of commands keeps every crate, with either crane. */
  lemma {:induction false} RunAllConserves(crane: Crane, stacks: Stacks, cmds: seq<CraneCommand>)
    requires forall j | 0 <= j < |cmds| :: Valid(stacks, cmds[j])
    requires RunAll(crane, stacks, cmds).Some?
    ensures AllCrates(RunAll(crane, stacks, cmds).value) == AllCrates(stacks)
  {
    if cmds != [] {
      var init := cmds[..|cmds| - 1];
      RunAllConserves(crane, stacks, init);
      var t := RunAll(crane, stacks, init).value;
      var cmd := cmds[|cmds| - 1];
      match crane
      case CrateMover9000 => Moves9000Conserves(t, cmd.source, cmd.destination, cmd.cratesCount);
      case CrateMover9001 => Move9001Conserves(t, cmd.source, cmd.destination, cmd.cratesCount);
    }
  }

  lemma {:induction false} RunFailureStays(crane: Crane, stacks: Stacks, cmds: seq<CraneCommand>, i: nat)
    requires forall j | 0 <= j < |cmds| :: Valid(stacks, cmds[j])
    requires i <= |cmds| && RunAll(crane, stacks, cmds[..i]).None?
    ensures RunAll(crane, stacks, cmds).None?
    decreases |cmds| - i
  {
    if i < |cmds| {
      assert cmds[..i + 1][..i] == cmds[..i];
      RunFailureStays(crane, stacks, cmds, i + 1);
    } else {
      assert cmds[..i] == cmds;
    }
  }

  /** A part 1 command on the stack array, one crate at a time. */
  method CraneMove9000(stacks: array<seq<Crate>>, cmd: CraneCommand) returns (ok: bool)
    requires Valid(stacks[..], cmd)
    modifies stacks
    ensures ok <==> Moves9000(old(stacks[..]), cmd.source, cmd.destination, cmd.cratesCount).Some?
    ensures ok ==> stacks[..] == Moves9000(old(stacks[..]), cmd.source, cmd.destination, cmd.cratesCount).value
  {
    var i := 0;
    while i < cmd.cratesCount
      invariant 0 <= i <= cmd.cratesCount
      invariant Moves9000(old(stacks[..]), cmd.source, cmd.destination, i) == Some(stacks[..])
    {
      if stacks[cmd.source] == [] {
        MovesFailureStays(old(stacks[..]), cmd.source, cmd.destination, i + 1, cmd.cratesCount);
        return false;
      }
      var source := stacks[cmd.source];
      var movedCrate := source[|source| - 1];
      stacks[cmd.source] := source[..|source| - 1];
      stacks[cmd.destination] := stacks[cmd.destination] + [movedCrate];
      i := i + 1;
    }
    return true;
  }

  /** A part 2 command: the crates pass through a temporary list, which is
      then added to the destination reversed. */
  method CraneMove9001(stacks: array<seq<Crate>>, cmd: CraneCommand) returns (ok: bool)
    requires Valid(stacks[..], cmd)
    modifies stacks
    ensures ok <==> Move9001(old(stacks[..]), cmd.source, cmd.destination, cmd.cratesCount).Some?
    ensures ok ==> stacks[..] == Move9001(old(stacks[..]), cmd.source, cmd.destination, cmd.cratesCount).value
  {
    ghost var s := stacks[cmd.source];
    assert s[..|s| - 0] == s && s[|s| - 0..] == [];
    var tempStack: seq<Crate> := [];
    var i := 0;
    while i < cmd.cratesCount
      invariant 0 <= i <= cmd.cratesCount && i <= |s|
      invariant stacks[..] == old(stacks[..])[cmd.source := s[..|s| - i]]
      invariant tempStack == Reverse(s[|s| - i..])
    {
      if stacks[cmd.source] == [] {
        return false;
      }
      var source := stacks[cmd.source];
      var movedCrate := source[|source| - 1];
      stacks[cmd.source] := source[..|source| - 1];
      assert s[|s| - i - 1..][1..] == s[|s| - i..];
      assert s[..|s| - i][..|s| - i - 1] == s[..|s| - i - 1];
      tempStack := tempStack + [movedCrate];
      i := i + 1;
    }
    ReverseReverse(s[|s| - i..]);
    stacks[cmd.destination] := stacks[cmd.destination] + Reverse(tempStack);
    return true;
  }

  /** The top crate of every stack; an empty stack fails (`last()`). */
  function TopCrates(stacks: Stacks): (r: Result<string>)
    ensures r.Err? <==> exists j :: 0 <= j < |stacks| && stacks[j] == []
    ensures r.Ok? ==> |r.value| == |stacks|
    ensures r.Ok? ==> forall j | 0 <= j < |stacks| :: r.value[j] == stacks[j][|stacks[j]| - 1]
  {
    if stacks == [] then Ok("")
    else
      var init := stacks[..|stacks| - 1];
      var top := stacks[|stacks| - 1];
      assert forall j | 0 <= j < |init| :: init[j] == stacks[j];
      match TopCrates(init)
      case Err(e) => Err(e)
      case Ok(s) => if top == [] then Err("ArrayDeque is empty.") else Ok(s + [top[|top| - 1]])
  }

  /** `listTopCreates`: the top crates appended stack by stack. */
  method ListTopCreates(stacks: array<seq<Crate>>) returns (r: Result<string>)
    ensures r.Err? <==> TopCrates(stacks[..]).Err?
    ensures r.Ok? ==> r == TopCrates(stacks[..])
  {
    var stacksTop := "";
    var j := 0;
    while j < stacks.Length
      invariant 0 <= j <= stacks.Length
      invariant TopCrates(stacks[..j]) == Ok(stacksTop)
    {
      assert stacks[..j + 1][..j] == stacks[..j];
      if stacks[j] == [] {
        assert stacks[..][j] == [];
        return Err("ArrayDeque is empty.");
      }
      stacksTop := stacksTop + [stacks[j][|stacks[j]| - 1]];
      j := j + 1;
    }
    assert stacks[..j] == stacks[..];
    r := Ok(stacksTop);
  }

  /** The whole puzzle for one crane: parse, run every command, read the tops. */
  function Solve(crane: Crane, input: seq<string>): Result<string> {
    match DiagramOf(StateLines(input))
    case Err(e) => Err(e)
    case Ok(stacks) =>
      match CommandsOf(CommandLines(input), |stacks|)
      case Err(e) => Err(e)
      case Ok(cmds) =>
        match RunAll(crane, stacks, cmds)
        case None => Err("ArrayDeque is empty.")
        case Some(final) => TopCrates(final)
  }

  /** One command on the stack array with the given crane. */
  method ApplyCommand(crane: Crane, stacks: array<seq<Crate>>, cmd: CraneCommand) returns (ok: bool)
    requires Valid(stacks[..], cmd)
    modifies stacks
    ensures ok <==> Apply(crane, old(stacks[..]), cmd).Some?
    ensures ok ==> stacks[..] == Apply(crane, old(stacks[..]), cmd).value
  {
    if crane == CrateMover9000 {
      ok := CraneMove9000(stacks, cmd);
    } else {
      ok := CraneMove9001(stacks, cmd);
    }
  }

  lemma RunStep(crane: Crane, stacks: Stacks, cmds: seq<CraneCommand>, j: nat, t: Stacks)
    requires forall i | 0 <= i < |cmds| :: Valid(stacks, cmds[i])
    requires j < |cmds| && RunAll(crane, stacks, cmds[..j]) == Some(t)
    ensures Valid(t, cmds[j])
    ensures RunAll(crane, stacks, cmds[..j + 1]) == Apply(crane, t, cmds[j])
  {
    assert cmds[..j + 1][..j] == cmds[..j];
    assert Valid(stacks, cmds[j]);
  }

  /** Parse, then run every command on the stack array, then read the tops. */
  method Run(crane: Crane, input: seq<string>) returns (r: Result<string>)
    ensures r.Err? <==> Solve(crane, input).Err?
    ensures r.Ok? ==> r == Solve(crane, input)
  {
    var diagram := ParseDiagram(StateLines(input));
    if diagram.Err? {
      return Err(diagram.message);
    }
    var stacks := diagram.value;
    ghost var initial := stacks[..];
    var parsed := ParseCommands(CommandLines(input), stacks.Length);
    if parsed.Err? {
      return Err(parsed.message);
    }
    var craneCommands := parsed.value;
    assert CommandsOf(CommandLines(input), |initial|) == Ok(craneCommands);
    var ok := RunCommands(crane, stacks, craneCommands);
    if !ok {
      return Err("ArrayDeque is empty.");
    }
    r := ListTopCreates(stacks);
  }

  /** The command loop of `solve`: every command applied to the stack array in turn. */
  method RunCommands(crane: Crane, stacks: array<seq<Crate>>, craneCommands: seq<CraneCommand>) returns (ok: bool)
    requires forall j | 0 <= j < |craneCommands| :: Valid(stacks[..], craneCommands[j])
    modifies stacks
    ensures ok <==> RunAll(crane, old(stacks[..]), craneCommands).Some?
    ensures ok ==> stacks[..] == RunAll(crane, old(stacks[..]), craneCommands).value
  {
    ghost var initial := stacks[..];
    var j := 0;
    while j < |craneCommands|
      invariant 0 <= j <= |craneCommands|
      invariant stacks.Length == |initial|
      invariant RunAll(crane, initial, craneCommands[..j]) == Some(stacks[..])
    {
      RunStep(crane, initial, craneCommands, j, stacks[..]);
      ok := ApplyCommand(crane, stacks, craneCommands[j]);
      if !ok {
        RunFailureStays(crane, initial, craneCommands, j + 1);
        return false;
      }
      j := j + 1;
    }
    assert craneCommands[..j] == craneCommands;
    return true;
  }

  method Part1(input: seq<string>) returns (r: Result<string>)
    ensures r.Err? <==> Solve(CrateMover9000, input).Err?
    ensures r.Ok? ==> r == Solve(CrateMover9000, input)
  {
    r := Run(CrateMover9000, input);
  }

  method Part2(input: seq<string>) returns (r: Result<string>)
    ensures r.Err? <==> Solve(CrateMover9001, input).Err?
    ensures r.Ok? ==> r == Solve(CrateMover9001, input)
  {
    r := Run(CrateMover9001, input);
  }
}
