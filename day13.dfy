/**
 * Day 13: distress-signal packets. A packet is an integer or a list of
 * packets, written with brackets and commas. The text is split into
 * tokens, the tokens are folded into packets with a stack, and packets are
 * ordered by a recursive comparison in which an integer met by a list
 * counts as a one-element list.
 */
module Day13 {
  import opened Wrappers
  import opened Text
  import Lists

  // ---------------------------------------------------------------------
  // Packets
  // ---------------------------------------------------------------------

  /** `Packet` holds either a `value` or a list of `elements`, never both. */
  datatype Packet = Value(v: int) | List(elements: seq<Packet>)

  /** `Packet.add`: appends to the element list; a value packet has none (`elements!!` throws). */
  function Add(p: Packet, q: Packet): (r: Result<Packet>)
    ensures r.Ok? <==> p.List?
    ensures r.Ok? ==>
      (r.value.List? && |r.value.elements| == |p.elements| + 1
       && r.value.elements[..|p.elements|] == p.elements && r.value.elements[|p.elements|] == q)
  {
    if p.Value? then Err("null: a value packet has no elements")
    else Ok(List(p.elements + [q]))
  }

  /** Every integer is one `toInt` can produce from a digit run: 0 ..= `Int.MAX_VALUE`. */
  predicate Readable(p: Packet) {
    match p
    case Value(v) => 0 <= v <= MaxInt
    case List(es) => forall i | 0 <= i < |es| :: Readable(es[i])
  }

  /** The input syntax: brackets around comma-separated elements, no spaces. */
  function Serialize(p: Packet): string
    requires Readable(p)
    decreases p
  {
    match p
    case Value(v) => NatToString(v)
    case List(es) => "[" + SerializeElements(es) + "]"
  }

  function SerializeElements(es: seq<Packet>): string
    requires forall i | 0 <= i < |es| :: Readable(es[i])
    decreases es
  {
    if es == [] then ""
    else if |es| == 1 then Serialize(es[0])
    else Serialize(es[0]) + "," + SerializeElements(es[1..])
  }

  // ---------------------------------------------------------------------
  // tokenize
  // ---------------------------------------------------------------------

  /** The token list built so far and the digits of the token in progress. */
  datatype Scanner = Scanner(tokens: seq<string>, builder: string)

  /** `finishToken`: the pending digits become a token unless there are none. */
  function Flush(tokens: seq<string>, builder: string): seq<string> {
    if builder == [] then tokens else tokens + [builder]
  }

  /** One character of `tokenize`'s loop. */
  function Scan(st: Scanner, c: char): (r: Result<Scanner>)
    ensures r.Err? <==> !(c in "[]," || IsDigit(c))
  {
    if c == '[' then Ok(Scanner(st.tokens + ["["], st.builder))
    else if c == ']' then Ok(Scanner(Flush(st.tokens, st.builder) + ["]"], ""))
    else if IsDigit(c) then Ok(Scanner(st.tokens, st.builder + [c]))
    else if c == ',' then Ok(Scanner(Flush(st.tokens, st.builder), ""))
    else Err("IllegalArgumentException: Unknown packet symbol")
  }

  /** `tokenize`'s loop from scanner state `st` over the characters of `s`. */
  function ScanAll(st: Scanner, s: string): Result<Scanner>
    decreases |s|
  {
    if s == [] then Ok(st)
    else
      match Scan(st, s[0])
      case Err(e) => Err(e)
      case Ok(next) => ScanAll(next, s[1..])
  }

  /**
   * `tokenize`: the finished tokens; digits after the last separator are
   * dropped. It throws exactly on an unknown character and never emits an
   * empty token.
   */
  function Tokens(s: string): (r: Result<seq<string>>)
    ensures r.Err? <==> exists i | 0 <= i < |s| :: !(s[i] in "[]," || IsDigit(s[i]))
    ensures r.Ok? ==> forall i | 0 <= i < |r.value| :: GoodToken(r.value[i])
  {
    ScanAllFacts(Scanner([], ""), s);
    match ScanAll(Scanner([], ""), s)
    case Err(e) => Err(e)
    case Ok(st) => Ok(st.tokens)
  }

  /** A token is a bracket or a non-empty run of digits. */
  predicate GoodToken(t: string) {
    t == "[" || t == "]" || (t != [] && AllDigits(t))
  }

  predicate GoodScanner(st: Scanner) {
    (forall i | 0 <= i < |st.tokens| :: GoodToken(st.tokens[i])) && AllDigits(st.builder)
  }

  lemma AllDigitsAppend(s: string, c: char)
    requires AllDigits(s) && IsDigit(c)
    ensures AllDigits(s + [c])
  {
    assert forall i | 0 <= i < |s + [c]| :: (s + [c])[i] == if i < |s| then s[i] else c;
  }

  /** Scanning fails exactly at an unknown character and only ever builds good tokens. */
  lemma {:induction false} ScanAllFacts(st: Scanner, s: string)
    requires GoodScanner(st)
    ensures ScanAll(st, s).Err? <==> exists i | 0 <= i < |s| :: !(s[i] in "[]," || IsDigit(s[i]))
    ensures ScanAll(st, s).Ok? ==> GoodScanner(ScanAll(st, s).value)
    decreases |s|
  {
    if s != [] {
      var r := Scan(st, s[0]);
      if r.Ok? {
        var next := r.value;
        if IsDigit(s[0]) {
          AllDigitsAppend(st.builder, s[0]);
        }
        assert GoodScanner(next);
        ScanAllFacts(next, s[1..]);
        if ScanAll(st, s).Err? {
          var i :| 0 <= i < |s[1..]| && !(s[1..][i] in "[]," || IsDigit(s[1..][i]));
          assert s[i + 1] == s[1..][i];
        }
        if exists i | 0 <= i < |s| :: !(s[i] in "[]," || IsDigit(s[i])) {
          var i :| 0 <= i < |s| && !(s[i] in "[]," || IsDigit(s[i]));
          assert i != 0;
          assert s[1..][i - 1] == s[i];
        }
      }
    }
  }

  lemma {:induction false} ScanAllConcat(st: Scanner, a: string, b: string)
    ensures ScanAll(st, a + b) == match ScanAll(st, a) case Err(e) => Err(e) case Ok(mid) => ScanAll(mid, b)
    decreases |a|
  {
    if a != [] {
      assert (a + b)[0] == a[0] && (a + b)[1..] == a[1..] + b;
      match Scan(st, a[0])
      case Err(_) =>
      case Ok(next) => ScanAllConcat(next, a[1..], b);
    } else {
      assert a + b == b;
    }
  }

  lemma {:induction false} ScanDigits(st: Scanner, d: string)
    requires AllDigits(d)
    ensures ScanAll(st, d) == Ok(Scanner(st.tokens, st.builder + d))
    decreases |d|
  {
    if d != [] {
      assert IsDigit(d[0]) && AllDigits(d[1..]);
      ScanDigits(Scanner(st.tokens, st.builder + [d[0]]), d[1..]);
      assert st.builder + [d[0]] + d[1..] == st.builder + d;
    } else {
      assert st.builder + d == st.builder;
    }
  }

  /** A digit run at the end of the text never becomes a token. */
  lemma TrailingDigitsDropped(s: string, d: string)
    requires AllDigits(d)
    ensures Tokens(s + d) == Tokens(s)
  {
    ScanAllConcat(Scanner([], ""), s, d);
    if ScanAll(Scanner([], ""), s).Ok? {
      ScanDigits(ScanAll(Scanner([], ""), s).value, d);
    }
  }

  /** The tokens a packet is written as. */
  function TokensOf(p: Packet): seq<string>
    requires Readable(p)
    decreases p
  {
    match p
    case Value(v) => [NatToString(v)]
    case List(es) => ["["] + TokensOfElements(es) + ["]"]
  }

  function TokensOfElements(es: seq<Packet>): seq<string>
    requires forall i | 0 <= i < |es| :: Readable(es[i])
    decreases es
  {
    if es == [] then [] else TokensOf(es[0]) + TokensOfElements(es[1..])
  }

  /** The tokens a scanner has produced once its pending digits are flushed. */
  function View(st: Scanner): seq<string> {
    Flush(st.tokens, st.builder)
  }

  /** Scanning a written packet from a clean state adds exactly its tokens (after a flush). */
  lemma {:induction false} ScanPacket(st: Scanner, p: Packet)
    requires Readable(p) && st.builder == []
    ensures ScanAll(st, Serialize(p)).Ok?
    ensures View(ScanAll(st, Serialize(p)).value) == st.tokens + TokensOf(p)
    ensures p.List? ==> ScanAll(st, Serialize(p)).value.builder == []
    decreases p, 1
  {
    match p
    case Value(v) =>
      ScanDigits(st, NatToString(v));
      assert st.builder + NatToString(v) == NatToString(v);
    case List(es) =>
      var begun := Scanner(st.tokens + ["["], "");
      ScanAllConcat(st, "[", SerializeElements(es) + "]");
      assert ScanAll(st, "[") == Ok(begun);
      assert "[" + SerializeElements(es) + "]" == "[" + (SerializeElements(es) + "]");
      ScanElements(begun, es);
      ScanAllConcat(begun, SerializeElements(es), "]");
  }

  lemma {:induction false} ScanElements(st: Scanner, es: seq<Packet>)
    requires (forall i | 0 <= i < |es| :: Readable(es[i])) && st.builder == []
    ensures ScanAll(st, SerializeElements(es)).Ok?
    ensures View(ScanAll(st, SerializeElements(es)).value) == st.tokens + TokensOfElements(es)
    decreases es, 0
  {
    if es == [] {
    } else if |es| == 1 {
      ScanPacket(st, es[0]);
      assert TokensOfElements(es[1..]) == [];
    } else {
      ScanPacket(st, es[0]);
      var mid := ScanAll(st, Serialize(es[0])).value;
      var next := Scanner(View(mid), "");
      ScanAllConcat(st, Serialize(es[0]), "," + SerializeElements(es[1..]));
      ScanAllConcat(mid, ",", SerializeElements(es[1..]));
      assert ScanAll(mid, ",") == Ok(next);
      ScanElements(next, es[1..]);
      assert Serialize(es[0]) + "," + SerializeElements(es[1..]) == Serialize(es[0]) + ("," + SerializeElements(es[1..]));
    }
  }

  /** `tokenize` reads a written list packet back as that packet's tokens. */
  lemma TokensOfSerialize(p: Packet)
    requires Readable(p) && p.List?
    ensures Tokens(Serialize(p)) == Ok(TokensOf(p))
  {
    ScanPacket(Scanner([], ""), p);
    var st := ScanAll(Scanner([], ""), Serialize(p)).value;
    assert st.builder == [] && View(st) == st.tokens;
    assert [] + TokensOf(p) == TokensOf(p);
  }

  /** `tokenize` as its loop runs. */
  method Tokenize(expr: string) returns (r: Result<seq<string>>)
    ensures r == Tokens(expr)
  {
    var tokenList: seq<string> := [];
    var builder: string := "";
    var i := 0;
    while i < |expr|
      invariant 0 <= i <= |expr|
      invariant ScanAll(Scanner([], ""), expr) == ScanAll(Scanner(tokenList, builder), expr[i..])
    {
      var c := expr[i];
      assert expr[i..][0] == c && expr[i..][1..] == expr[i + 1..];
      if c == '[' {
        tokenList := tokenList + ["["];
      } else if c == ']' {
        if builder != [] {
          tokenList := tokenList + [builder];
          builder := "";
        }
        tokenList := tokenList + ["]"];
      } else if IsDigit(c) {
        builder := builder + [c];
      } else if c == ',' {
        if builder != [] {
          tokenList := tokenList + [builder];
          builder := "";
        }
      } else {
        return Err("IllegalArgumentException: Unknown packet symbol");
      }
      i := i + 1;
    }
    return Ok(tokenList);
  }

  // ---------------------------------------------------------------------
  // parseList
  // ---------------------------------------------------------------------

  /** The stack with `q` added to its top packet. */
  function AddToTop(stack: seq<Packet>, q: Packet): Result<seq<Packet>>
    requires stack != []
  {
    match Add(stack[|stack| - 1], q)
    case Err(e) => Err(e)
    case Ok(top) => Ok(stack[..|stack| - 1] + [top])
  }

  /**
   * One token of `parseList`: `[` opens a packet, `]` closes the top one
   * into its parent (the outermost is kept), anything else is read with
   * `toInt` into the top packet. The receiver `packetStack.last()` is
   * evaluated before `toInt`, so an empty stack throws first.
   */
  function Feed(stack: seq<Packet>, token: string): Result<seq<Packet>> {
    if token == "[" then Ok(stack + [List([])])
    else if token == "]" then
      if |stack| > 1 then AddToTop(stack[..|stack| - 1], stack[|stack| - 1]) else Ok(stack)
    else if stack == [] then Err("NoSuchElementException: ArrayDeque is empty")
    else
      match ParseInt(token)
      case None => Err("NumberFormatException")
      case Some(n) => AddToTop(stack, Value(n))
  }

  function FeedAll(stack: seq<Packet>, tokens: seq<string>): Result<seq<Packet>>
    decreases |tokens|
  {
    if tokens == [] then Ok(stack)
    else
      match Feed(stack, tokens[0])
      case Err(e) => Err(e)
      case Ok(next) => FeedAll(next, tokens[1..])
  }

  /** `parseList` after tokenising: exactly one packet must be left on the stack. */
  function ParseTokens(tokens: seq<string>): Result<Packet> {
    match FeedAll([], tokens)
    case Err(e) => Err(e)
    case Ok(stack) => if |stack| == 1 then Ok(stack[0]) else Err("IllegalStateException: Check failed")
  }

  /** `parseList`: only text made of brackets, commas and digits can be read. */
  function ParsePacket(repr: string): (r: Result<Packet>)
    ensures r.Ok? ==> forall i | 0 <= i < |repr| :: repr[i] in "[]," || IsDigit(repr[i])
  {
    match Tokens(repr)
    case Err(e) => Err(e)
    case Ok(tokens) => ParseTokens(tokens)
  }

  predicate AllLists(stack: seq<Packet>) {
    forall i | 0 <= i < |stack| :: stack[i].List?
  }

  lemma {:induction false} FeedAllConcat(stack: seq<Packet>, a: seq<string>, b: seq<string>)
    ensures FeedAll(stack, a + b) == match FeedAll(stack, a) case Err(e) => Err(e) case Ok(mid) => FeedAll(mid, b)
    decreases |a|
  {
    if a != [] {
      assert (a + b)[0] == a[0] && (a + b)[1..] == a[1..] + b;
      match Feed(stack, a[0])
      case Err(_) =>
      case Ok(next) => FeedAllConcat(next, a[1..], b);
    } else {
      assert a + b == b;
    }
  }

  /** A value's digit run is not a bracket and reads back as the value. */
  lemma ValueToken(v: int)
    requires 0 <= v <= MaxInt
    ensures NatToString(v) != "[" && NatToString(v) != "]" && ParseInt(NatToString(v)) == Some(v)
  {
    ParseIntRoundTrip(v);
    var s := NatToString(v);
    assert s[0] in s;
  }

  /** Feeding a packet's tokens onto a stack of open lists adds that packet to the top one. */
  lemma {:induction false} FeedPacket(stack: seq<Packet>, p: Packet)
    requires Readable(p) && stack != [] && AllLists(stack)
    ensures FeedAll(stack, TokensOf(p)) == Ok(stack[..|stack| - 1] + [List(stack[|stack| - 1].elements + [p])])
    decreases p, 1
  {
    match p
    case Value(v) =>
      ValueToken(v);
      assert FeedAll(stack, TokensOf(p)) == Feed(stack, NatToString(v));
    case List(es) =>
      var begun := stack + [List([])];
      FeedAllConcat(stack, ["["], TokensOfElements(es) + ["]"]);
      assert ["["] + TokensOfElements(es) + ["]"] == ["["] + (TokensOfElements(es) + ["]"]);
      FeedElements(begun, es);
      FeedAllConcat(begun, TokensOfElements(es), ["]"]);
      var filled := begun[..|begun| - 1] + [List([] + es)];
      assert filled[..|filled| - 1] == stack && filled[|filled| - 1] == List(es);
      assert FeedAll(filled, ["]"]) == Feed(filled, "]");
  }

  lemma {:induction false} FeedElements(stack: seq<Packet>, es: seq<Packet>)
    requires (forall i | 0 <= i < |es| :: Readable(es[i])) && stack != [] && AllLists(stack)
    ensures FeedAll(stack, TokensOfElements(es)) == Ok(stack[..|stack| - 1] + [List(stack[|stack| - 1].elements + es)])
    decreases es, 0
  {
    var top := stack[|stack| - 1];
    if es == [] {
      assert top.elements + es == top.elements;
      assert stack[..|stack| - 1] + [List(top.elements)] == stack;
    } else {
      FeedPacket(stack, es[0]);
      FeedAllConcat(stack, TokensOf(es[0]), TokensOfElements(es[1..]));
      var next := stack[..|stack| - 1] + [List(top.elements + [es[0]])];
      assert AllLists(next);
      FeedElements(next, es[1..]);
      assert next[..|next| - 1] == stack[..|stack| - 1];
      assert top.elements + [es[0]] + es[1..] == top.elements + es;
    }
  }

  /** `parseList` reads a written list packet back as that same packet. */
  lemma ParseSerialize(p: Packet)
    requires Readable(p) && p.List?
    ensures ParsePacket(Serialize(p)) == Ok(p)
  {
    TokensOfSerialize(p);
    var empty: seq<Packet> := [];
    var begun := [List([])];
    assert empty + [List([])] == begun;
    assert Feed(empty, "[") == Ok(begun);
    assert ["["][1..] == [];
    assert FeedAll([], ["["]) == Ok(begun);
    FeedAllConcat([], ["["], TokensOfElements(p.elements) + ["]"]);
    assert TokensOf(p) == ["["] + (TokensOfElements(p.elements) + ["]"]);
    FeedElements(begun, p.elements);
    FeedAllConcat(begun, TokensOfElements(p.elements), ["]"]);
    assert [] + p.elements == p.elements;
    assert List(p.elements) == p;
    assert begun[..0] + [List(begun[0].elements + p.elements)] == [p];
    assert FeedAll([p], ["]"]) == Feed([p], "]") == Ok([p]);
    assert FeedAll([], TokensOf(p)) == Ok([p]);
  }

  /** `parseList` as its loop runs over the tokens with a packet stack. */
  method ParseList(repr: string) returns (r: Result<Packet>)
    ensures r == ParsePacket(repr)
  {
    var tokens := Tokenize(repr);
    if tokens.Err? {
      return Err(tokens.message);
    }
    var ts := tokens.value;
    var packetStack: seq<Packet> := [];
    var i := 0;
    while i < |ts|
      invariant 0 <= i <= |ts|
      invariant FeedAll([], ts) == FeedAll(packetStack, ts[i..])
    {
      var token := ts[i];
      assert ts[i..][0] == token && ts[i..][1..] == ts[i + 1..];
      var next := Feed(packetStack, token);
      if next.Err? {
        return Err(next.message);
      }
      packetStack := next.value;
      i := i + 1;
    }
    if |packetStack| != 1 {
      return Err("IllegalStateException: Check failed");
    }
    return Ok(packetStack[0]);
  }

  // ---------------------------------------------------------------------
  // compareTo
  // ---------------------------------------------------------------------

  function Size(p: Packet): (n: nat)
    ensures n >= 1
    decreases p
  {
    match p
    case Value(_) => 1
    case List(es) => 1 + SizeElements(es)
  }

  function SizeElements(es: seq<Packet>): nat
    decreases es
  {
    if es == [] then 0 else Size(es[0]) + SizeElements(es[1..])
  }

  /** `Int.compareTo`: -1, 0 or 1. */
  function Sign(d: int): int {
    if d < 0 then -1 else if d > 0 then 1 else 0
  }

  /** The list `compareTo` walks: a value packet stands for the list holding only itself. */
  function Elements(p: Packet): (es: seq<Packet>)
    ensures SizeElements(es) <= Size(p) && (p.List? ==> SizeElements(es) < Size(p))
  {
    if p.List? then p.elements
    else
      assert [p][1..] == [];
      [p]
  }

  /**
   * `compareTo`: two values compare as integers; otherwise the element
   * lists are compared at the first pair that is not `equals`, then by
   * length.
   */
  function Compare(l: Packet, r: Packet): (c: int)
    ensures -1 <= c <= 1
    decreases Size(l) + Size(r), 0
  {
    if l.Value? && r.Value? then Sign(l.v - r.v)
    else CompareElements(Elements(l), Elements(r))
  }

  function CompareElements(ls: seq<Packet>, rs: seq<Packet>): (c: int)
    ensures -1 <= c <= 1
    decreases SizeElements(ls) + SizeElements(rs), 1
  {
    if ls == [] || rs == [] then Sign(|ls| - |rs|)
    else
      var c := Compare(ls[0], rs[0]);
      if c != 0 then c else CompareElements(ls[1..], rs[1..])
  }

  /** `equals`: packets are equal when `compareTo` finds no difference. */
  function Equals(l: Packet, r: Packet): (b: bool)
    ensures b <==> Compare(r, l) == 0
  {
    CompareAntisymmetric(l, r);
    Compare(l, r) == 0
  }

  /** Two values compare as integers; a value met by a list is that value in a one-element list. */
  lemma CompareCases(a: int, b: int, es: seq<Packet>)
    ensures Compare(Value(a), Value(b)) < 0 <==> a < b
    ensures Compare(Value(a), Value(b)) == 0 <==> a == b
    ensures Compare(Value(a), List(es)) == Compare(List([Value(a)]), List(es))
    ensures Compare(List(es), Value(b)) == Compare(List(es), List([Value(b)]))
  {
  }

  /** `equals` is not structural equality: 1 equals [1]. */
  lemma EqualsWrapped()
    ensures Equals(Value(1), List([Value(1)])) && Value(1) != List([Value(1)])
  {
    assert Compare(Value(1), Value(1)) == 0;
    assert CompareElements([Value(1)], [Value(1)]) == CompareElements([], []);
  }

  /** `compareTo` is antisymmetric. */
  lemma {:induction false} CompareAntisymmetric(l: Packet, r: Packet)
    ensures Compare(l, r) == -Compare(r, l)
    decreases Size(l) + Size(r), 0
  {
    if !(l.Value? && r.Value?) {
      CompareElementsAntisymmetric(Elements(l), Elements(r));
    }
  }

  lemma {:induction false} CompareElementsAntisymmetric(ls: seq<Packet>, rs: seq<Packet>)
    ensures CompareElements(ls, rs) == -CompareElements(rs, ls)
    decreases SizeElements(ls) + SizeElements(rs), 1
  {
    if ls != [] && rs != [] {
      CompareAntisymmetric(ls[0], rs[0]);
      CompareElementsAntisymmetric(ls[1..], rs[1..]);
    }
  }

  /** Every packet `equals` itself. */
  lemma {:induction false} CompareReflexive(p: Packet)
    ensures Compare(p, p) == 0
    decreases Size(p), 0
  {
    if p.List? {
      CompareElementsReflexive(p.elements);
    }
  }

  lemma {:induction false} CompareElementsReflexive(ps: seq<Packet>)
    ensures CompareElements(ps, ps) == 0
    decreases SizeElements(ps), 1
  {
    if ps != [] {
      CompareReflexive(ps[0]);
      CompareElementsReflexive(ps[1..]);
    }
  }

  /** Two values compare like their one-element lists. */
  lemma ValuesAsElements(a: Packet, b: Packet)
    requires a.Value? && b.Value?
    ensures Compare(a, b) == CompareElements([a], [b])
  {
    assert [a][1..] == [] && [b][1..] == [];
  }

  /** Every comparison goes through the element lists. */
  lemma CompareViaElements(a: Packet, b: Packet)
    ensures Compare(a, b) == CompareElements(Elements(a), Elements(b))
  {
    if a.Value? && b.Value? {
      ValuesAsElements(a, b);
    }
  }

  /** `compareTo` orders packets transitively, as `sorted()` relies on. */
  lemma {:induction false} CompareTransitive(a: Packet, b: Packet, c: Packet)
    ensures Compare(a, b) <= 0 && Compare(b, c) <= 0 ==> Compare(a, c) <= 0
    ensures Compare(a, b) < 0 && Compare(b, c) <= 0 ==> Compare(a, c) < 0
    ensures Compare(a, b) <= 0 && Compare(b, c) < 0 ==> Compare(a, c) < 0
    ensures Compare(a, b) == 0 && Compare(b, c) == 0 ==> Compare(a, c) == 0
    decreases Size(a) + Size(b) + Size(c), 0
  {
    if !(a.Value? && b.Value? && c.Value?) {
      CompareViaElements(a, b);
      CompareViaElements(b, c);
      CompareViaElements(a, c);
      CompareElementsTransitive(Elements(a), Elements(b), Elements(c));
    }
  }

  lemma {:induction false} CompareElementsTransitive(xs: seq<Packet>, ys: seq<Packet>, zs: seq<Packet>)
    ensures CompareElements(xs, ys) <= 0 && CompareElements(ys, zs) <= 0 ==> CompareElements(xs, zs) <= 0
    ensures CompareElements(xs, ys) < 0 && CompareElements(ys, zs) <= 0 ==> CompareElements(xs, zs) < 0
    ensures CompareElements(xs, ys) <= 0 && CompareElements(ys, zs) < 0 ==> CompareElements(xs, zs) < 0
    ensures CompareElements(xs, ys) == 0 && CompareElements(ys, zs) == 0 ==> CompareElements(xs, zs) == 0
    decreases SizeElements(xs) + SizeElements(ys) + SizeElements(zs), 1
  {
    if xs != [] && ys != [] && zs != [] {
      CompareTransitive(xs[0], ys[0], zs[0]);
      CompareElementsTransitive(xs[1..], ys[1..], zs[1..]);
    }
  }

  // ---------------------------------------------------------------------
  // parseFile and the answers
  // ---------------------------------------------------------------------

  /**
   * `parseFile` from line `i` on: two packet lines, then one separator line
   * when any is left. A missing second line throws `NoSuchElementException`.
   */
  function PairsFrom(parsed: seq<Result<Packet>>, i: nat): Result<seq<(Packet, Packet)>>
    decreases |parsed| - i
  {
    if i >= |parsed| then Ok([])
    else
      match parsed[i]
      case Err(e) => Err(e)
      case Ok(first) =>
        if i + 1 >= |parsed| then Err("NoSuchElementException")
        else
          match parsed[i + 1]
          case Err(e) => Err(e)
          case Ok(second) =>
            var next := if i + 2 < |parsed| then i + 3 else i + 2;
            match PairsFrom(parsed, next)
            case Err(e) => Err(e)
            case Ok(rest) => Ok([(first, second)] + rest)
  }

  /** Every line read by `parseList`; `parseFile` reads them in order and
      stops at the first that fails, which is the first failure here. */
  function ParsedLines(lines: seq<string>): (r: seq<Result<Packet>>)
    ensures |r| == |lines| && forall j | 0 <= j < |lines| :: r[j] == ParsePacket(lines[j])
  {
    seq(|lines|, j requires 0 <= j < |lines| => ParsePacket(lines[j]))
  }

  function Pairs(lines: seq<string>): Result<seq<(Packet, Packet)>> {
    PairsFrom(ParsedLines(lines), 0)
  }

  function Prepend(done: seq<(Packet, Packet)>, r: Result<seq<(Packet, Packet)>>): Result<seq<(Packet, Packet)>> {
    match r
    case Err(e) => Err(e)
    case Ok(rest) => Ok(done + rest)
  }

  lemma {:induction false} PairsFromParsed(parsed: seq<Result<Packet>>, i: nat)
    ensures PairsFrom(parsed, i).Ok? ==>
      forall k | 0 <= k < |PairsFrom(parsed, i).value| :: exists j | i <= j < |parsed| - 1 ::
        parsed[j] == Ok(PairsFrom(parsed, i).value[k].0) && parsed[j + 1] == Ok(PairsFrom(parsed, i).value[k].1)
    decreases |parsed| - i
  {
    if i < |parsed| && PairsFrom(parsed, i).Ok? {
      var next := if i + 2 < |parsed| then i + 3 else i + 2;
      PairsFromParsed(parsed, next);
      var ps := PairsFrom(parsed, i).value;
      forall k | 0 <= k < |ps| ensures exists j | i <= j < |parsed| - 1 ::
        parsed[j] == Ok(ps[k].0) && parsed[j + 1] == Ok(ps[k].1)
      {
        if k == 0 {
          assert parsed[i] == Ok(ps[0].0) && parsed[i + 1] == Ok(ps[0].1);
        } else {
          assert ps[k] == PairsFrom(parsed, next).value[k - 1];
        }
      }
    }
  }

  /** Every pair comes from two consecutive packet lines, each read by `parseList`. */
  lemma PairsParsed(lines: seq<string>)
    ensures Pairs(lines).Ok? ==>
      forall k | 0 <= k < |Pairs(lines).value| :: exists j | 0 <= j < |lines| - 1 ::
        ParsePacket(lines[j]) == Ok(Pairs(lines).value[k].0) && ParsePacket(lines[j + 1]) == Ok(Pairs(lines).value[k].1)
  {
    var parsed := ParsedLines(lines);
    PairsFromParsed(parsed, 0);
    if Pairs(lines).Ok? {
      var ps := Pairs(lines).value;
      forall k | 0 <= k < |ps| ensures exists j | 0 <= j < |lines| - 1 ::
        ParsePacket(lines[j]) == Ok(ps[k].0) && ParsePacket(lines[j + 1]) == Ok(ps[k].1)
      {
        var j :| 0 <= j < |parsed| - 1 && parsed[j] == Ok(ps[k].0) && parsed[j + 1] == Ok(ps[k].1);
        assert ParsePacket(lines[j]) == parsed[j] && ParsePacket(lines[j + 1]) == parsed[j + 1];
      }
    }
  }

  lemma PrependTwice(a: seq<(Packet, Packet)>, b: seq<(Packet, Packet)>, r: Result<seq<(Packet, Packet)>>)
    ensures Prepend(a, Prepend(b, r)) == Prepend(a + b, r)
  {
    if r.Ok? {
      assert a + (b + r.value) == (a + b) + r.value;
    }
  }

  /** `parseFile` as its loop runs. */
  method ParseFile(lines: seq<string>) returns (r: Result<seq<(Packet, Packet)>>)
    ensures r == Pairs(lines)
  {
    var pairList: seq<(Packet, Packet)> := [];
    var i := 0;
    ghost var parsed := ParsedLines(lines);
    assert Prepend([], PairsFrom(parsed, 0)) == PairsFrom(parsed, 0) by {
      assert forall rest: seq<(Packet, Packet)> :: [] + rest == rest;
    }
    while i < |lines|
      invariant i <= |lines|
      invariant Pairs(lines) == Prepend(pairList, PairsFrom(parsed, i))
      decreases |lines| - i
    {
      var first := ParseList(lines[i]);
      assert first == parsed[i];
      if first.Err? {
        return Err(first.message);
      }
      if i + 1 >= |lines| {
        return Err("NoSuchElementException");
      }
      var second := ParseList(lines[i + 1]);
      assert second == parsed[i + 1];
      if second.Err? {
        return Err(second.message);
      }
      var next := if i + 2 < |lines| then i + 3 else i + 2;
      assert PairsFrom(parsed, i) == Prepend([(first.value, second.value)], PairsFrom(parsed, next));
      PrependTwice(pairList, [(first.value, second.value)], PairsFrom(parsed, next));
      pairList := pairList + [(first.value, second.value)];
      i := next;
    }
    assert pairList + [] == pairList;
    return Ok(pairList);
  }

  /** The sum of the 1-based positions of the pairs whose left packet is smaller. */
  function IndexSum(pairs: seq<(Packet, Packet)>): int
    decreases |pairs|
  {
    if pairs == [] then 0
    else
      var n := |pairs|;
      IndexSum(pairs[..n - 1]) + (if Compare(pairs[n - 1].0, pairs[n - 1].1) < 0 then n else 0)
  }

  /** At most 1 + 2 + ... + n, reached exactly when every pair is in order. */
  lemma {:induction false} IndexSumBounds(pairs: seq<(Packet, Packet)>)
    ensures 0 <= IndexSum(pairs) <= |pairs| * (|pairs| + 1) / 2
    ensures IndexSum(pairs) == |pairs| * (|pairs| + 1) / 2 <==>
      forall k | 0 <= k < |pairs| :: Compare(pairs[k].0, pairs[k].1) < 0
    decreases |pairs|
  {
    if pairs != [] {
      var n := |pairs|;
      IndexSumBounds(pairs[..n - 1]);
      assert n * (n + 1) / 2 == (n - 1) * n / 2 + n;
      if forall k | 0 <= k < n :: Compare(pairs[k].0, pairs[k].1) < 0 {
        assert forall k | 0 <= k < n - 1 :: pairs[..n - 1][k] == pairs[k];
      }
      if IndexSum(pairs) == n * (n + 1) / 2 {
        forall k | 0 <= k < n ensures Compare(pairs[k].0, pairs[k].1) < 0 {
          if k < n - 1 {
            assert pairs[..n - 1][k] == pairs[k];
          }
        }
      }
    }
  }

  /** `part1` as its loop runs over the pairs. */
  method Part1(lines: seq<string>) returns (r: Result<int>)
    ensures r.Ok? <==> Pairs(lines).Ok?
    ensures r.Ok? ==> r.value == IndexSum(Pairs(lines).value)
  {
    var parsed := ParseFile(lines);
    if parsed.Err? {
      return Err(parsed.message);
    }
    var pairList := parsed.value;
    var indexSum := 0;
    for index := 0 to |pairList|
      invariant indexSum == IndexSum(pairList[..index])
    {
      assert pairList[..index + 1][..index] == pairList[..index];
      var (left, right) := pairList[index];
      if Compare(left, right) < 0 {
        indexSum := indexSum + index + 1;
      }
    }
    assert pairList[..|pairList|] == pairList;
    return Ok(indexSum);
  }

  // ---------------------------------------------------------------------
  // part2: sorting with `compareTo`
  // ---------------------------------------------------------------------

  predicate Sorted(t: seq<Packet>) {
    forall i, j | 0 <= i < j < |t| :: Compare(t[i], t[j]) <= 0
  }

  /** Inserts `x` after every element not greater than it (a stable insertion). */
  function Insert(t: seq<Packet>, x: Packet): (r: seq<Packet>)
    ensures |r| == |t| + 1
    decreases |t|
  {
    if t == [] then [x]
    else if Compare(t[|t| - 1], x) <= 0 then t + [x]
    else Insert(t[..|t| - 1], x) + [t[|t| - 1]]
  }

  /** Inserting adds exactly the one packet. */
  lemma {:induction false} InsertPermutation(t: seq<Packet>, x: Packet)
    ensures multiset(Insert(t, x)) == multiset(t) + multiset{x}
    decreases |t|
  {
    if t != [] && Compare(t[|t| - 1], x) > 0 {
      assert t == t[..|t| - 1] + [t[|t| - 1]];
      InsertPermutation(t[..|t| - 1], x);
    }
  }

  /** `sorted()`, as an insertion sort ordered by `compareTo`. */
  function Sort(s: seq<Packet>): (r: seq<Packet>)
    ensures |r| == |s|
    decreases |s|
  {
    if s == [] then [] else Insert(Sort(s[..|s| - 1]), s[|s| - 1])
  }

  /** `sorted()` keeps every packet, as many times as it occurs. */
  lemma {:induction false} SortPermutation(s: seq<Packet>)
    ensures multiset(Sort(s)) == multiset(s)
    decreases |s|
  {
    if s != [] {
      assert s == s[..|s| - 1] + [s[|s| - 1]];
      SortPermutation(s[..|s| - 1]);
      InsertPermutation(Sort(s[..|s| - 1]), s[|s| - 1]);
    }
  }

  lemma {:induction false} InsertSorted(t: seq<Packet>, x: Packet)
    requires Sorted(t)
    ensures Sorted(Insert(t, x))
    decreases |t|
  {
    if t != [] {
      var front, last := t[..|t| - 1], t[|t| - 1];
      SortedSplit(t);
      if Compare(last, x) <= 0 {
        assert t == front + [last];
        AllBelowTransitive(front, last, x);
        AllBelowAppend(front, last, x);
        SortedAppend(t, x);
      } else {
        InsertSorted(front, x);
        InsertPermutation(front, x);
        CompareAntisymmetric(last, x);
        AllBelowAppend(front, x, last);
        AllBelowPermutation(Insert(front, x), front + [x], last);
        SortedAppend(Insert(front, x), last);
      }
    }
  }

  /** Every packet of `u` is ordered no later than `y`. */
  predicate AllBelow(u: seq<Packet>, y: Packet) {
    forall i | 0 <= i < |u| :: Compare(u[i], y) <= 0
  }

  /** A sorted list is a sorted front followed by a packet no smaller than the front. */
  lemma SortedSplit(t: seq<Packet>)
    requires Sorted(t) && t != []
    ensures Sorted(t[..|t| - 1]) && AllBelow(t[..|t| - 1], t[|t| - 1])
  {
    var front := t[..|t| - 1];
    forall i, j | 0 <= i < j < |front| ensures Compare(front[i], front[j]) <= 0 {
      assert front[i] == t[i] && front[j] == t[j];
    }
    forall i | 0 <= i < |front| ensures Compare(front[i], t[|t| - 1]) <= 0 {
      assert front[i] == t[i];
    }
  }

  lemma AllBelowTransitive(u: seq<Packet>, y: Packet, z: Packet)
    requires AllBelow(u, y) && Compare(y, z) <= 0
    ensures AllBelow(u, z)
  {
    forall i | 0 <= i < |u| ensures Compare(u[i], z) <= 0 {
      CompareTransitive(u[i], y, z);
    }
  }

  lemma AllBelowAppend(u: seq<Packet>, x: Packet, y: Packet)
    requires AllBelow(u, y) && Compare(x, y) <= 0
    ensures AllBelow(u + [x], y)
  {
    var v := u + [x];
    forall i | 0 <= i < |v| ensures Compare(v[i], y) <= 0 {
      if i < |u| {
        assert v[i] == u[i];
      }
    }
  }

  lemma AllBelowPermutation(u: seq<Packet>, w: seq<Packet>, y: Packet)
    requires multiset(u) == multiset(w) && AllBelow(w, y)
    ensures AllBelow(u, y)
  {
    forall i | 0 <= i < |u| ensures Compare(u[i], y) <= 0 {
      assert u[i] in multiset(w);
      var j :| 0 <= j < |w| && w[j] == u[i];
    }
  }

  /** A sorted list stays sorted when a packet no smaller than all of it is appended. */
  lemma SortedAppend(u: seq<Packet>, y: Packet)
    requires Sorted(u) && AllBelow(u, y)
    ensures Sorted(u + [y])
  {
    var v := u + [y];
    forall i, j | 0 <= i < j < |v| ensures Compare(v[i], v[j]) <= 0 {
      assert v[i] == u[i];
      if j < |u| {
        assert v[j] == u[j];
      } else {
        assert v[j] == y;
      }
    }
  }

  /** `sorted()` yields its input reordered by `compareTo`. */
  lemma {:induction false} SortSorted(s: seq<Packet>)
    ensures Sorted(Sort(s))
    decreases |s|
  {
    if s != [] {
      SortSorted(s[..|s| - 1]);
      InsertSorted(Sort(s[..|s| - 1]), s[|s| - 1]);
    }
  }

  /** `indexOf`: the first position holding a packet that `equals` the key, or -1. */
  function IndexOf(t: seq<Packet>, key: Packet): (r: int)
    ensures -1 <= r < |t|
    decreases |t|
  {
    if t == [] then -1
    else if Equals(t[0], key) then 0
    else
      var r := IndexOf(t[1..], key);
      if r == -1 then -1 else r + 1
  }

  /** `indexOf` finds the first packet that `equals` the key, and -1 means there is none. */
  lemma {:induction false} IndexOfMeaning(t: seq<Packet>, key: Packet)
    ensures var r := IndexOf(t, key);
      (r >= 0 ==> Equals(t[r], key) && forall j | 0 <= j < r :: !Equals(t[j], key))
      && (r == -1 ==> forall j | 0 <= j < |t| :: !Equals(t[j], key))
    decreases |t|
  {
    if t != [] && !Equals(t[0], key) {
      IndexOfMeaning(t[1..], key);
      var r := IndexOf(t[1..], key);
      if r == -1 {
        forall j | 0 <= j < |t| ensures !Equals(t[j], key) {
          if j > 0 {
            assert t[j] == t[1..][j - 1];
          }
        }
      } else {
        assert t[r + 1] == t[1..][r];
        forall j | 0 <= j < r + 1 ensures !Equals(t[j], key) {
          if j > 0 {
            assert t[j] == t[1..][j - 1];
          }
        }
      }
    }
  }

  /** How many packets are ordered before `key`. */
  function CountLess(s: seq<Packet>, key: Packet): nat
    decreases |s|
  {
    if s == [] then 0
    else CountLess(s[..|s| - 1], key) + (if Compare(s[|s| - 1], key) < 0 then 1 else 0)
  }

  lemma {:induction false} CountLessConcat(a: seq<Packet>, b: seq<Packet>, key: Packet)
    ensures CountLess(a + b, key) == CountLess(a, key) + CountLess(b, key)
    decreases |b|
  {
    if b == [] {
      assert a + b == a;
    } else {
      assert (a + b)[..|a + b| - 1] == a + b[..|b| - 1];
      CountLessConcat(a, b[..|b| - 1], key);
    }
  }

  /** Taking one packet out of a list lowers the count by that packet's own contribution. */
  lemma CountLessRemove(t: seq<Packet>, j: int, key: Packet)
    requires 0 <= j < |t|
    ensures CountLess(t, key) == CountLess(t[..j] + t[j + 1..], key) + (if Compare(t[j], key) < 0 then 1 else 0)
  {
    assert t == t[..j] + [t[j]] + t[j + 1..];
    CountLessConcat(t[..j] + [t[j]], t[j + 1..], key);
    CountLessConcat(t[..j], [t[j]], key);
    CountLessConcat(t[..j], t[j + 1..], key);
    assert [t[j]][..0] == [];
  }

  lemma {:induction false} CountLessPermutation(s: seq<Packet>, t: seq<Packet>, key: Packet)
    requires multiset(s) == multiset(t)
    ensures CountLess(s, key) == CountLess(t, key)
    decreases |s|
  {
    if s != [] {
      var x := s[|s| - 1];
      assert s == s[..|s| - 1] + [x];
      assert x in multiset(t);
      var j :| 0 <= j < |t| && t[j] == x;
      var rest := t[..j] + t[j + 1..];
      assert t == t[..j] + [x] + t[j + 1..];
      assert multiset(rest) == multiset(t) - multiset{x};
      CountLessPermutation(s[..|s| - 1], rest, key);
      CountLessRemove(t, j, key);
    }
  }

  /** A count over elements that are all (or none) ordered before `key`. */
  lemma {:induction false} CountLessUniform(s: seq<Packet>, key: Packet, less: bool)
    requires forall j | 0 <= j < |s| :: (Compare(s[j], key) < 0) == less
    ensures CountLess(s, key) == if less then |s| else 0
    decreases |s|
  {
    if s != [] {
      CountLessUniform(s[..|s| - 1], key, less);
    }
  }

  /** Every packet before the first equal one is ordered before the key. */
  lemma LessBeforeFirstEqual(t: seq<Packet>, key: Packet, i: int)
    requires Sorted(t) && 0 <= i < |t| && Equals(t[i], key)
    requires forall j | 0 <= j < i :: !Equals(t[j], key)
    ensures CountLess(t[..i], key) == i
  {
    var front := t[..i];
    forall j | 0 <= j < |front| ensures (Compare(front[j], key) < 0) == true {
      assert front[j] == t[j];
      CompareTransitive(t[j], t[i], key);
    }
    CountLessUniform(front, key, true);
  }

  /** No packet from an equal one onwards is ordered before the key. */
  lemma NotLessFromEqual(t: seq<Packet>, key: Packet, i: int)
    requires Sorted(t) && 0 <= i < |t| && Equals(t[i], key)
    ensures CountLess(t[i..], key) == 0
  {
    var back := t[i..];
    CompareAntisymmetric(t[i], key);
    forall j | 0 <= j < |back| ensures (Compare(back[j], key) < 0) == false {
      assert back[j] == t[i + j];
      if j > 0 {
        CompareTransitive(key, t[i], t[i + j]);
      }
      CompareAntisymmetric(key, t[i + j]);
    }
    CountLessUniform(back, key, false);
  }

  lemma CountLessSplit(t: seq<Packet>, i: int, key: Packet)
    requires 0 <= i <= |t|
    ensures CountLess(t, key) == CountLess(t[..i], key) + CountLess(t[i..], key)
  {
    assert t == t[..i] + t[i..];
    CountLessConcat(t[..i], t[i..], key);
  }

  /** A key that is in the list is found. */
  lemma IndexOfPresent(t: seq<Packet>, key: Packet)
    requires key in t
    ensures IndexOf(t, key) >= 0
  {
    var k :| 0 <= k < |t| && t[k] == key;
    CompareReflexive(key);
    assert Equals(t[k], key);
    IndexOfMeaning(t, key);
  }

  /** In a sorted list, the first packet equal to a present key sits after exactly the smaller ones. */
  lemma IndexOfSorted(t: seq<Packet>, key: Packet)
    requires Sorted(t) && key in t
    ensures IndexOf(t, key) == CountLess(t, key)
  {
    IndexOfPresent(t, key);
    IndexOfMeaning(t, key);
    var i := IndexOf(t, key);
    LessBeforeFirstEqual(t, key, i);
    NotLessFromEqual(t, key, i);
    CountLessSplit(t, i, key);
  }

  /** A packet's position in the sorted list is the number of packets ordered before it. */
  lemma SortRank(all: seq<Packet>, key: Packet)
    requires key in all
    ensures IndexOf(Sort(all), key) == CountLess(all, key)
  {
    var sorted := Sort(all);
    SortSorted(all);
    SortPermutation(all);
    assert key in multiset(all);
    IndexOfSorted(sorted, key);
    CountLessPermutation(sorted, all, key);
  }

  /** The divider packets [[2]] and [[6]]. */
  const FirstKey := List([List([Value(2)])])
  const SecondKey := List([List([Value(6)])])

  /** `flatMap { it.toList() }`: each pair's left packet, then its right one. */
  function Flatten(pairs: seq<(Packet, Packet)>): (flat: seq<Packet>)
    ensures |flat| == 2 * |pairs|
  {
    if pairs == [] then [] else [pairs[0].0, pairs[0].1] + Flatten(pairs[1..])
  }

  /** Pair `k` sits at positions `2k` and `2k + 1`, left packet first. */
  lemma {:induction false} FlattenAt(pairs: seq<(Packet, Packet)>, k: nat)
    requires k < |pairs|
    ensures Flatten(pairs)[2 * k] == pairs[k].0 && Flatten(pairs)[2 * k + 1] == pairs[k].1
  {
    if k > 0 {
      FlattenAt(pairs[1..], k - 1);
      assert Flatten(pairs) == [pairs[0].0, pairs[0].1] + Flatten(pairs[1..]);
      assert Flatten(pairs)[2 * k] == Flatten(pairs[1..])[2 * (k - 1)];
      assert Flatten(pairs)[2 * k + 1] == Flatten(pairs[1..])[2 * (k - 1) + 1];
    }
  }

  /** The 1-based position of a present packet in the sorted list: one more
      than the number of packets ordered before it. */
  function Position(all: seq<Packet>, key: Packet): (r: int)
    requires key in all
    ensures r == 1 + CountLess(all, key)
  {
    SortRank(all, key);
    1 + IndexOf(Sort(all), key)
  }

  /** The decoder key of a list of pairs: every packet plus the two dividers,
      sorted, and the dividers' 1-based positions multiplied. */
  function DecoderKey(pairList: seq<(Packet, Packet)>): (r: int)
    ensures var all := Flatten(pairList) + [FirstKey, SecondKey];
      r == Lists.Mul(1 + CountLess(all, FirstKey), 1 + CountLess(all, SecondKey))
  {
    var all := Flatten(pairList) + [FirstKey, SecondKey];
    assert all[|all| - 2] == FirstKey && all[|all| - 1] == SecondKey;
    Lists.Mul(Position(all, FirstKey), Position(all, SecondKey))
  }

  /** `part2`: the decoder key of the parsed pairs; a file that does not parse fails. */
  function Part2(lines: seq<string>): (r: Result<int>)
    ensures r.Ok? <==> Pairs(lines).Ok?
    ensures r.Ok? ==> var all := Flatten(Pairs(lines).value) + [FirstKey, SecondKey];
      r.value == Lists.Mul(1 + CountLess(all, FirstKey), 1 + CountLess(all, SecondKey))
  {
    match Pairs(lines)
    case Err(e) => Err(e)
    case Ok(pairList) => Ok(DecoderKey(pairList))
  }
}
