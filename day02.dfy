/** Day 2, rock paper scissors: decode the strategy guide and score it. */
module Day02 {
  import opened Wrappers
  import opened Lists

  datatype RPS = Rock | Paper | Scissors

  function Points(c: RPS): (r: int)
    ensures 1 <= r <= 3
  {
    match c
    case Rock => 1
    case Paper => 2
    case Scissors => 3
  }

  datatype TournamentPair = TournamentPair(opponentChoice: RPS, myChoice: RPS)

  /** The opponent's column: only A, B and C decode, each to the choice it names. */
  function DecodeOpponent(letter: string): (r: Result<RPS>)
    ensures r.Ok? <==> letter in {"A", "B", "C"}
    ensures r.Ok? ==> OpponentLetter(r.value) == letter
  {
    if letter == "A" then Ok(Rock)
    else if letter == "B" then Ok(Paper)
    else if letter == "C" then Ok(Scissors)
    else Err("Incorrect opponent choice " + letter)
  }

  /** My column: only X, Y and Z decode, each to the choice it names. */
  function DecodeMine(letter: string): (r: Result<RPS>)
    ensures r.Ok? <==> letter in {"X", "Y", "Z"}
    ensures r.Ok? ==> MyLetter(r.value) == letter
  {
    if letter == "X" then Ok(Rock)
    else if letter == "Y" then Ok(Paper)
    else if letter == "Z" then Ok(Scissors)
    else Err("Incorrect my choice " + letter)
  }

  /** The letter each column uses for a choice: A/B/C and X/Y/Z in order. */
  function OpponentLetter(c: RPS): string {
    [(('A' as int) + Points(c) - 1) as char]
  }

  function MyLetter(c: RPS): string {
    [(('X' as int) + Points(c) - 1) as char]
  }

  /** Decoding inverts the letter assignment, and only those letters decode. */
  lemma DecodeInvertsLetters(letter: string, c: RPS)
    ensures DecodeOpponent(letter) == Ok(c) <==> letter == OpponentLetter(c)
    ensures DecodeMine(letter) == Ok(c) <==> letter == MyLetter(c)
    ensures DecodeOpponent(letter).Ok? <==> letter in {"A", "B", "C"}
    ensures DecodeMine(letter).Ok? <==> letter in {"X", "Y", "Z"}
  {
  }

  /** The line shape `([ABC]) ([XYZ])`, then the two letters decoded. */
  function ParseLine(line: string): (r: Result<TournamentPair>)
    ensures r.Ok? <==> |line| == 3 && line[1] == ' ' && line[0] in "ABC" && line[2] in "XYZ"
    ensures r.Ok? ==> line == OpponentLetter(r.value.opponentChoice) + " " + MyLetter(r.value.myChoice)
  {
    if |line| != 3 || line[1] != ' ' || line[0] !in "ABC" || line[2] !in "XYZ" then
      Err("Incorrect input line " + line)
    else
      match (DecodeOpponent(line[..1]), DecodeMine(line[2..]))
      case (Err(e), _) => Err(e)
      case (_, Err(e)) => Err(e)
      case (Ok(o), Ok(m)) => Ok(TournamentPair(o, m))
  }

  /** `parseInput`: one pair per line, appended in order; the first bad line fails the input. */
  method ParseInput(lines: seq<string>) returns (r: Result<seq<TournamentPair>>)
    ensures r == ParseEach(ParseLine, lines)
  {
    var pairs: seq<TournamentPair> := [];
    var i := 0;
    while i < |lines|
      invariant 0 <= i <= |lines| && |pairs| == i
      invariant forall j | 0 <= j < i :: ParseLine(lines[j]).Ok? && pairs[j] == ParseLine(lines[j]).value
    {
      var p := ParseLine(lines[i]);
      if p.Err? {
        ParseEachFirstErr(ParseLine, lines, i);
        return Err(p.message);
      }
      pairs := pairs + [p.value];
      i := i + 1;
    }
    ParseEachAllOk(ParseLine, lines, pairs);
    r := Ok(pairs);
  }

  /** The rule of the game, independent of the scoring table: each choice
      beats the one just below it in the cycle Rock, Paper, Scissors. */
  predicate Beats(winner: RPS, loser: RPS) {
    (Points(winner) - Points(loser)) % 3 == 1
  }

  function ResultPoints(pair: TournamentPair): (r: int) {
    match (pair.opponentChoice, pair.myChoice)
    case (Rock, Paper) => 6
    case (Paper, Scissors) => 6
    case (Scissors, Rock) => 6
    case (Rock, Rock) => 3
    case (Paper, Paper) => 3
    case (Scissors, Scissors) => 3
    case _ => 0
  }

  /** The table awards a win exactly when my choice beats the opponent's, a
      draw exactly on equal choices and nothing exactly on a loss, and exactly
      one of the three applies. */
  lemma ScoringFollowsRules(pair: TournamentPair)
    ensures ResultPoints(pair) == 6 <==> Beats(pair.myChoice, pair.opponentChoice)
    ensures ResultPoints(pair) == 3 <==> pair.myChoice == pair.opponentChoice
    ensures ResultPoints(pair) == 0 <==> Beats(pair.opponentChoice, pair.myChoice)
    ensures ResultPoints(pair) in {0, 3, 6}
  {
  }

  function CalculateScore(pair: TournamentPair): (r: int)
    ensures 1 <= r <= 9
    ensures r - Points(pair.myChoice) in {0, 3, 6}
  {
    ResultPoints(pair) + Points(pair.myChoice)
  }

  function Scores(pairs: seq<TournamentPair>): (r: seq<int>)
    ensures |r| == |pairs| && forall k | 0 <= k < |r| :: r[k] == CalculateScore(pairs[k])
  {
    seq(|pairs|, k requires 0 <= k < |pairs| => CalculateScore(pairs[k]))
  }

  /** `part1`: the total score of all rounds; every round scores between 1
      and 9, so the total does too, per round. */
  function Part1(pairs: seq<TournamentPair>): (r: int)
    ensures |pairs| <= r <= 9 * |pairs|
  {
    SumBounds(Scores(pairs), 1, 9);
    Sum(Scores(pairs))
  }
}
