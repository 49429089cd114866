/** Day 7, no space left on device: a terminal transcript (`cd`, `ls` and the
    listing lines) rebuilds a directory tree, whose directory sizes are then
    searched. Directory objects are kept in an arena: a node's identity is its
    slot, and a directory names its parent and its children by slot, so the
    sharing between a directory and its parent's child list is explicit. */
module Day07 {
  import opened Wrappers
  import opened Text
  import opened Lists

  /** A file, or a directory with its parent and its children in the order
      they were added. */
  datatype Node =
    | File(size: int, name: string)
    | Directory(name: string, parent: nat, children: seq<nat>)

  type Arena = seq<Node>

  /** The slot of the root directory `/`. */
  const Root: nat := 0

  const FileSystemSize := 70000000
  const MinimumFreeSpace := 30000000
  const SmallDirectoryLimit := 100000

  predicate IsDirectory(nodes: Arena, i: nat) {
    i < |nodes| && nodes[i].Directory?
  }

  /** Every child slot comes after its directory and exists. */
  predicate ChildrenAfter(nodes: Arena, parent: nat, cs: seq<nat>) {
    forall k | 0 <= k < |cs| :: parent < cs[k] < |nodes|
  }

  /** The shape every transcript keeps: slot 0 is the root, which is its own
      parent; every other directory's parent is an earlier directory; children
      come after their directory. */
  predicate WellFormed(nodes: Arena) {
    IsDirectory(nodes, Root) && nodes[Root].parent == Root &&
    forall i | 0 <= i < |nodes| && nodes[i].Directory? ::
      IsDirectory(nodes, nodes[i].parent) && (i > 0 ==> nodes[i].parent < i) &&
      ChildrenAfter(nodes, i, nodes[i].children)
  }

  // ----- Sizes and subtrees -----

  /** No file has a negative size. */
  predicate NonNegativeFiles(nodes: Arena) {
    forall i | 0 <= i < |nodes| && nodes[i].File? :: nodes[i].size >= 0
  }

  /** `size`: a file's own size; a directory's is the sum of its children's. */
  function Size(nodes: Arena, i: nat): (r: int)
    requires WellFormed(nodes) && i < |nodes|
    ensures NonNegativeFiles(nodes) ==> r >= 0
    decreases |nodes| - i, 1
  {
    match nodes[i]
    case File(size, _) => size
    case Directory(_, _, children) => ChildrenSize(nodes, i, children)
  }

  function ChildrenSize(nodes: Arena, parent: nat, cs: seq<nat>): (r: int)
    requires WellFormed(nodes) && ChildrenAfter(nodes, parent, cs)
    ensures NonNegativeFiles(nodes) ==> r >= 0
    decreases |nodes| - parent, 0, |cs|
  {
    if cs == [] then 0 else Size(nodes, cs[0]) + ChildrenSize(nodes, parent, cs[1..])
  }

  /** The slots reachable from `i` through child lists, `i` included. */
  function Subtree(nodes: Arena, i: nat): (r: set<nat>)
    requires WellFormed(nodes) && i < |nodes|
    ensures i in r && forall x | x in r :: i <= x < |nodes|
    decreases |nodes| - i, 1
  {
    match nodes[i]
    case File(_, _) => {i}
    case Directory(_, _, children) => {i} + ChildrenSubtrees(nodes, i, children)
  }

  function ChildrenSubtrees(nodes: Arena, parent: nat, cs: seq<nat>): (r: set<nat>)
    requires WellFormed(nodes) && ChildrenAfter(nodes, parent, cs)
    ensures forall x | x in r :: parent < x < |nodes|
    decreases |nodes| - parent, 0, |cs|
  {
    if cs == [] then {} else Subtree(nodes, cs[0]) + ChildrenSubtrees(nodes, parent, cs[1..])
  }

  // ----- filterRecursive -----

  /** Whether the predicate accepts slot `x`; the predicate sees the node and its size. */
  predicate Selected(nodes: Arena, pred: (Node, int) -> bool, x: nat)
    requires WellFormed(nodes)
  {
    x < |nodes| && pred(nodes[x], Size(nodes, x))
  }

  /** `filterRecursive`: the directory itself if accepted, then its accepted
      files, then the results of every subdirectory in child order. */
  function FilterRecursive(nodes: Arena, i: nat, pred: (Node, int) -> bool): (r: seq<nat>)
    requires WellFormed(nodes) && IsDirectory(nodes, i)
    ensures forall k | 0 <= k < |r| :: i <= r[k] < |nodes|
    decreases |nodes| - i, 1
  {
    (if pred(nodes[i], Size(nodes, i)) then [i] else [])
      + FilterFiles(nodes, i, nodes[i].children, pred)
      + FilterSubdirectories(nodes, i, nodes[i].children, pred)
  }

  /** `files.filterTo(results, predicate)`. */
  function FilterFiles(nodes: Arena, parent: nat, cs: seq<nat>, pred: (Node, int) -> bool): (r: seq<nat>)
    requires WellFormed(nodes) && ChildrenAfter(nodes, parent, cs)
    ensures forall k | 0 <= k < |r| :: parent < r[k] < |nodes|
  {
    if cs == [] then []
    else
      (if nodes[cs[0]].File? && pred(nodes[cs[0]], Size(nodes, cs[0])) then [cs[0]] else [])
        + FilterFiles(nodes, parent, cs[1..], pred)
  }

  /** `for (subdir in subdirectories) results.addAll(subdir.filterRecursive(predicate))`. */
  function FilterSubdirectories(nodes: Arena, parent: nat, cs: seq<nat>, pred: (Node, int) -> bool): (r: seq<nat>)
    requires WellFormed(nodes) && ChildrenAfter(nodes, parent, cs)
    ensures forall k | 0 <= k < |r| :: parent < r[k] < |nodes|
    decreases |nodes| - parent, 0, |cs|
  {
    if cs == [] then []
    else
      (if nodes[cs[0]].Directory? then FilterRecursive(nodes, cs[0], pred) else [])
        + FilterSubdirectories(nodes, parent, cs[1..], pred)
  }

  /** `filterRecursive` returns exactly the accepted nodes of the subtree. */
  lemma {:induction false} FilterExact(nodes: Arena, i: nat, pred: (Node, int) -> bool, x: nat)
    requires WellFormed(nodes) && IsDirectory(nodes, i)
    ensures x in FilterRecursive(nodes, i, pred) <==> x in Subtree(nodes, i) && Selected(nodes, pred, x)
    decreases |nodes| - i, 1
  {
    ChildrenExact(nodes, i, nodes[i].children, pred, x);
  }

  lemma {:induction false} ChildrenExact(nodes: Arena, parent: nat, cs: seq<nat>, pred: (Node, int) -> bool, x: nat)
    requires WellFormed(nodes) && ChildrenAfter(nodes, parent, cs)
    ensures x in FilterFiles(nodes, parent, cs, pred) + FilterSubdirectories(nodes, parent, cs, pred)
      <==> x in ChildrenSubtrees(nodes, parent, cs) && Selected(nodes, pred, x)
    decreases |nodes| - parent, 0, |cs|
  {
    if cs != [] {
      ChildrenExact(nodes, parent, cs[1..], pred, x);
      if nodes[cs[0]].Directory? {
        FilterExact(nodes, cs[0], pred, x);
      }
    }
  }

  /** With no negative file size, a node's size bounds the size of everything
      in its subtree, so the root is the largest directory of the tree. */
  lemma {:induction false} SizeBoundsSubtree(nodes: Arena, i: nat, x: nat)
    requires WellFormed(nodes) && i < |nodes| && NonNegativeFiles(nodes)
    requires x in Subtree(nodes, i)
    ensures 0 <= Size(nodes, x) <= Size(nodes, i)
    decreases |nodes| - i, 1
  {
    if x != i {
      ChildrenBoundSubtrees(nodes, i, nodes[i].children, x);
    }
  }

  lemma {:induction false} ChildrenBoundSubtrees(nodes: Arena, parent: nat, cs: seq<nat>, x: nat)
    requires WellFormed(nodes) && ChildrenAfter(nodes, parent, cs) && NonNegativeFiles(nodes)
    requires x in ChildrenSubtrees(nodes, parent, cs)
    ensures 0 <= Size(nodes, x) <= ChildrenSize(nodes, parent, cs)
    decreases |nodes| - parent, 0, |cs|
  {
    if x in Subtree(nodes, cs[0]) {
      SizeBoundsSubtree(nodes, cs[0], x);
    } else {
      ChildrenBoundSubtrees(nodes, parent, cs[1..], x);
    }
  }

  // ----- Changing the tree -----

  /** Whether directory `dir` has a child of the given name. */
  predicate HasChildNamed(nodes: Arena, dir: nat, name: string)
    requires WellFormed(nodes) && IsDirectory(nodes, dir)
  {
    exists k | 0 <= k < |nodes[dir].children| :: nodes[nodes[dir].children[k]].name == name
  }

  /** `subdirectories.find { it.name == name }`: the first child directory of that name. */
  function FindSubdirectory(nodes: Arena, cs: seq<nat>, name: string): (r: Option<nat>)
    requires forall k | 0 <= k < |cs| :: cs[k] < |nodes|
    ensures r.Some? ==> r.value in cs && IsDirectory(nodes, r.value) && nodes[r.value].name == name
    ensures r.None? <==> forall k | 0 <= k < |cs| :: !(nodes[cs[k]].Directory? && nodes[cs[k]].name == name)
  {
    if cs == [] then None
    else if nodes[cs[0]].Directory? && nodes[cs[0]].name == name then Some(cs[0])
    else FindSubdirectory(nodes, cs[1..], name)
  }

  /** A node that may be added under `dir`: a new directory starts empty with `dir` as parent. */
  predicate Addable(dir: nat, node: Node) {
    node.Directory? ==> node.parent == dir && node.children == []
  }

  /** `children.add(node)`: the node takes the next free slot and joins the end of the child list. */
  function Adopt(nodes: Arena, dir: nat, node: Node): (r: Arena)
    requires WellFormed(nodes) && IsDirectory(nodes, dir) && Addable(dir, node)
    ensures WellFormed(r)
  {
    var r := nodes[dir := nodes[dir].(children := nodes[dir].children + [|nodes|])] + [node];
    forall i | 0 <= i < |r| && r[i].Directory?
      ensures IsDirectory(r, r[i].parent) && (i > 0 ==> r[i].parent < i) && ChildrenAfter(r, i, r[i].children)
    {
      if i < |nodes| {
        assert nodes[i].Directory?;
        if i != dir {
          assert r[i] == nodes[i];
        }
      }
    }
    r
  }

  /** `cd`: `/` goes to the root, `..` to the parent, any other name to the
      child directory of that name, created when missing. */
  function CdTo(nodes: Arena, current: nat, name: string): (r: (Arena, nat))
    requires WellFormed(nodes) && IsDirectory(nodes, current)
    ensures WellFormed(r.0) && IsDirectory(r.0, r.1)
  {
    if name == "/" then (nodes, Root)
    else if name == ".." then (nodes, nodes[current].parent)
    else
      match FindSubdirectory(nodes, nodes[current].children, name)
      case Some(d) => (nodes, d)
      case None => (Adopt(nodes, current, Directory(name, current, [])), |nodes|)
  }

  /** `tryAddChild`: add the node unless a child of the same name exists. */
  function TryAdopt(nodes: Arena, dir: nat, node: Node): (r: Arena)
    requires WellFormed(nodes) && IsDirectory(nodes, dir) && Addable(dir, node)
    ensures WellFormed(r)
  {
    if HasChildNamed(nodes, dir, node.name) then nodes else Adopt(nodes, dir, node)
  }

  /** `cd` lands on the root, the parent, or a child directory of the given
      name; the tree grows by one new directory exactly when no such child
      existed, and the directory left is always a directory. */
  lemma CdLands(nodes: Arena, current: nat, name: string)
    requires WellFormed(nodes) && IsDirectory(nodes, current)
    ensures name == "/" ==> CdTo(nodes, current, name) == (nodes, Root)
    ensures name == ".." ==> CdTo(nodes, current, name) == (nodes, nodes[current].parent)
    ensures name != "/" && name != ".." ==>
      var (after, dir) := CdTo(nodes, current, name);
      dir in after[current].children && after[dir].Directory? && after[dir].name == name
    ensures name != "/" && name != ".." ==>
      var (after, dir) := CdTo(nodes, current, name);
      var existed := exists k | 0 <= k < |nodes[current].children| ::
        IsDirectory(nodes, nodes[current].children[k]) && nodes[nodes[current].children[k]].name == name;
      (existed ==> after == nodes) &&
      (!existed ==> (|after| == |nodes| + 1 && dir == |nodes| && after[dir] == Directory(name, current, []) &&
                     after[current].children == nodes[current].children + [dir]))
  {
    if name != "/" && name != ".." {
      var found := FindSubdirectory(nodes, nodes[current].children, name);
      if found.None? {
        var after := Adopt(nodes, current, Directory(name, current, []));
        assert after[|nodes|] == Directory(name, current, []);
        assert after[current].children == nodes[current].children + [|nodes|];
      }
    }
  }

  /** `tryAddChild` leaves the tree alone exactly when a child of that name
      exists; otherwise the node becomes the last child, in a new slot. */
  lemma TryAdoptEffect(nodes: Arena, dir: nat, node: Node)
    requires WellFormed(nodes) && IsDirectory(nodes, dir) && Addable(dir, node)
    ensures HasChildNamed(nodes, dir, node.name) ==> TryAdopt(nodes, dir, node) == nodes
    ensures !HasChildNamed(nodes, dir, node.name) ==>
      var after := TryAdopt(nodes, dir, node);
      |after| == |nodes| + 1 && after[|nodes|] == node &&
      after[dir].children == nodes[dir].children + [|nodes|] &&
      forall i | 0 <= i < |nodes| && i != dir :: after[i] == nodes[i]
  {
    if !HasChildNamed(nodes, dir, node.name) {
      var after := Adopt(nodes, dir, node);
      assert after[|nodes|] == node;
      assert after[dir].children == nodes[dir].children + [|nodes|];
    }
  }

  /** The directory tree of a session, rebuilt step by step; `Cd`,
      `TryAddChild` and `Adopt` change `nodes` in place. */
  class FileSystem {
    var nodes: Arena

    ghost predicate Valid()
      reads this
    {
      WellFormed(nodes)
    }

    /** A fresh tree holding only the root, `Directory("/", null)`. */
    constructor()
      ensures nodes == [Directory("/", Root, [])] && Valid()
    {
      nodes := [Directory("/", Root, [])];
    }

    /** `children.add(node)` on directory `dir`. */
    method AddChild(dir: nat, node: Node) returns (id: nat)
      requires Valid() && IsDirectory(nodes, dir) && Addable(dir, node)
      modifies this
      ensures nodes == Adopt(old(nodes), dir, node) && id == |old(nodes)|
      ensures Valid()
    {
      id := |nodes|;
      nodes := nodes[dir := nodes[dir].(children := nodes[dir].children + [id])];
      nodes := nodes + [node];
    }

    method Cd(current: nat, name: string) returns (dir: nat)
      requires Valid() && IsDirectory(nodes, current)
      modifies this
      ensures (nodes, dir) == CdTo(old(nodes), current, name)
      ensures Valid() && IsDirectory(nodes, dir)
    {
      if name == "/" {
        dir := Root;
      } else if name == ".." {
        dir := nodes[current].parent;
      } else {
        var found := FindSubdirectory(nodes, nodes[current].children, name);
        if found.Some? {
          dir := found.value;
        } else {
          dir := AddChild(current, Directory(name, current, []));
        }
      }
    }

    method TryAddChild(dir: nat, node: Node)
      requires Valid() && IsDirectory(nodes, dir) && Addable(dir, node)
      modifies this
      ensures nodes == TryAdopt(old(nodes), dir, node)
      ensures Valid()
    {
      if !HasChildNamed(nodes, dir, node.name) {
        var _ := AddChild(dir, node);
      }
    }
  }

  // ----- The transcript -----

  /** One line of the transcript, as `parseFileTree` tells them apart. */
  datatype TerminalLine =
    | ChangeDirectory(target: string)
    | ListedDirectory(name: string)
    | ListCommand
    | ListedFile(size: Option<int>, name: string)

  /** The tests of `parseFileTree` in their order: `$ cd`, `dir `, `$ ls`,
      and anything else is a file line whose size may fail to parse. */
  function Classify(line: string): TerminalLine {
    if StartsWith(line, "$ cd") then ChangeDirectory(SubstringAfter(line, "$ cd "))
    else if StartsWith(line, "dir ") then ListedDirectory(SubstringAfter(line, "dir "))
    else if line == "$ ls" then ListCommand
    else ListedFile(ParseInt(SubstringBefore(line, " ")), SubstringAfter(line, " "))
  }

  /** How the shell prints each kind of line. */
  function Render(line: TerminalLine): string
    requires line.ListedFile? ==> line.size.Some?
  {
    match line
    case ChangeDirectory(target) => "$ cd " + target
    case ListedDirectory(name) => "dir " + name
    case ListCommand => "$ ls"
    case ListedFile(size, name) => IntToString(size.value) + " " + name
  }

  lemma AfterPrefix(prefix: string, rest: string)
    requires prefix != []
    ensures StartsWith(prefix + rest, prefix)
    ensures SubstringAfter(prefix + rest, prefix) == rest
  {
    var s := prefix + rest;
    assert s[..|prefix|] == prefix;
    assert OccursAt(s, prefix, 0);
  }

  /** Every printed line is read back as the line it was printed from. */
  lemma ClassifyRender(line: TerminalLine)
    requires line.ListedFile? ==> line.size.Some? && MinInt <= line.size.value <= MaxInt
    ensures Classify(Render(line)) == line
  {
    match line
    case ChangeDirectory(target) =>
      AfterPrefix("$ cd ", target);
      assert ("$ cd " + target)[..4] == "$ cd";
    case ListedDirectory(name) =>
      AfterPrefix("dir ", name);
      assert ("dir " + name)[0] == 'd';
    case ListCommand =>
      assert "$ ls"[..4][2] == 'l';
    case ListedFile(size, name) =>
      var number := IntToString(size.value);
      var s := number + " " + name;
      assert number == [number[0]] + number[1..];
      assert s[0] == number[0] && (number[0] == '-' || IsDigit(number[0]));
      assert !StartsWith(s, "$ cd");
      assert !StartsWith(s, "dir ");
      IntToStringAvoids(size.value, ' ');
      SubstringsAround(number, ' ', name);
      ParseIntRoundTrip(size.value);
  }

  /** The state between lines: the tree and the current directory. */
  datatype Session = Session(nodes: Arena, current: nat)

  predicate ValidSession(s: Session) {
    WellFormed(s.nodes) && IsDirectory(s.nodes, s.current)
  }

  function StartSession(): (s: Session)
    ensures ValidSession(s)
  {
    Session([Directory("/", Root, [])], Root)
  }

  /** One line applied to the session; a file line whose size does not parse fails. */
  function Step(s: Session, line: TerminalLine): (r: Result<Session>)
    requires ValidSession(s)
    ensures r.Ok? ==> ValidSession(r.value)
    ensures r.Err? <==> line.ListedFile? && line.size.None?
  {
    match line
    case ChangeDirectory(target) =>
      var (nodes, dir) := CdTo(s.nodes, s.current, target);
      Ok(Session(nodes, dir))
    case ListedDirectory(name) =>
      Ok(Session(TryAdopt(s.nodes, s.current, Directory(name, s.current, [])), s.current))
    case ListCommand => Ok(s)
    case ListedFile(size, name) =>
      if size.None? then Err("NumberFormatException")
      else Ok(Session(TryAdopt(s.nodes, s.current, File(size.value, name)), s.current))
  }

  /** The lines replayed in order from the start session. */
  function Replay(lines: seq<TerminalLine>): (r: Result<Session>)
    ensures r.Ok? ==> ValidSession(r.value)
  {
    if lines == [] then Ok(StartSession())
    else
      match Replay(lines[..|lines| - 1])
      case Err(m) => Err(m)
      case Ok(s) => Step(s, lines[|lines| - 1])
  }

  /** A file line whose size did not parse. */
  predicate Unreadable(line: TerminalLine) {
    line.ListedFile? && line.size.None?
  }

  lemma ReplayLast(lines: seq<TerminalLine>)
    requires lines != []
    ensures Replay(lines).Err? <==> Replay(lines[..|lines| - 1]).Err? || Unreadable(lines[|lines| - 1])
  {
  }

  /** A replay succeeds exactly when every file line carries a size that parses. */
  lemma {:induction false} ReplayFails(lines: seq<TerminalLine>)
    ensures Replay(lines).Ok? <==> forall k | 0 <= k < |lines| :: !Unreadable(lines[k])
  {
    if lines != [] {
      var init := lines[..|lines| - 1];
      ReplayFails(init);
      ReplayLast(lines);
      ReadableSplit(lines);
    }
  }

  predicate AllReadable(lines: seq<TerminalLine>) {
    forall k | 0 <= k < |lines| :: !Unreadable(lines[k])
  }

  lemma ReadableSplit(lines: seq<TerminalLine>)
    requires lines != []
    ensures AllReadable(lines) <==> AllReadable(lines[..|lines| - 1]) && !Unreadable(lines[|lines| - 1])
  {
    var init := lines[..|lines| - 1];
    assert forall k | 0 <= k < |init| :: init[k] == lines[k];
  }

  lemma {:induction false} ReplayFailureStays(lines: seq<TerminalLine>, i: nat)
    requires i <= |lines| && Replay(lines[..i]).Err?
    ensures Replay(lines).Err?
  {
    if i < |lines| {
      var init := lines[..|lines| - 1];
      assert init[..i] == lines[..i];
      ReplayFailureStays(init, i);
      ReplayLast(lines);
    } else {
      assert lines[..i] == lines;
    }
  }

  lemma ReplayStep(lines: seq<TerminalLine>, i: nat, s: Session)
    requires i < |lines| && Replay(lines[..i]) == Ok(s)
    ensures Replay(lines[..i + 1]) == Step(s, lines[i])
  {
    assert lines[..i + 1][..i] == lines[..i];
  }

  function Classified(input: seq<string>): (r: seq<TerminalLine>)
    ensures |r| == |input|
  {
    seq(|input|, k requires 0 <= k < |input| => Classify(input[k]))
  }

  /** The tree `parseFileTree` builds from a transcript: a well-formed tree,
      unless some file line's size does not parse. */
  function FileTreeOf(input: seq<string>): (r: Result<Arena>)
    ensures r.Ok? ==> WellFormed(r.value)
    ensures r.Err? <==> exists k | 0 <= k < |input| :: Unreadable(Classified(input)[k])
  {
    ReplayFails(Classified(input));
    match Replay(Classified(input))
    case Err(m) => Err(m)
    case Ok(s) => Ok(s.nodes)
  }

  /** The body of `parseFileTree`'s loop: one line applied to the tree in place. */
  method ApplyLine(fs: FileSystem, current: nat, line: TerminalLine) returns (next: nat, ok: bool)
    requires fs.Valid() && IsDirectory(fs.nodes, current)
    modifies fs
    ensures ok <==> Step(Session(old(fs.nodes), current), line).Ok?
    ensures ok ==> Step(Session(old(fs.nodes), current), line) == Ok(Session(fs.nodes, next))
    ensures fs.Valid()
  {
    next, ok := current, true;
    match line
    case ChangeDirectory(target) =>
      next := fs.Cd(current, target);
    case ListedDirectory(name) =>
      fs.TryAddChild(current, Directory(name, current, []));
    case ListCommand =>
    case ListedFile(size, name) =>
      if size.None? {
        ok := false;
      } else {
        fs.TryAddChild(current, File(size.value, name));
      }
  }

  /** `parseFileTree`: a fresh root, then every line applied in order. */
  method ParseFileTree(input: seq<string>) returns (r: Result<FileSystem>)
    ensures r.Err? <==> FileTreeOf(input).Err?
    ensures r.Ok? ==> r.value.nodes == FileTreeOf(input).value && r.value.Valid()
  {
    var lines := Classified(input);
    var fs := new FileSystem();
    var current := Root;
    var i := 0;
    while i < |lines|
      invariant 0 <= i <= |lines|
      invariant Replay(lines[..i]) == Ok(Session(fs.nodes, current))
      invariant fs.Valid() && IsDirectory(fs.nodes, current)
    {
      ReplayStep(lines, i, Session(fs.nodes, current));
      var ok;
      current, ok := ApplyLine(fs, current, lines[i]);
      if !ok {
        ReplayFailureStays(lines, i + 1);
        return Err("NumberFormatException");
      }
      i := i + 1;
    }
    assert lines[..i] == lines;
    return Ok(fs);
  }

  // ----- The two answers -----

  function Sizes(nodes: Arena, ids: seq<nat>): (r: seq<int>)
    requires WellFormed(nodes) && forall k | 0 <= k < |ids| :: ids[k] < |nodes|
    ensures |r| == |ids|
  {
    seq(|ids|, k requires 0 <= k < |ids| => Size(nodes, ids[k]))
  }

  predicate IsSmallDirectory(node: Node, size: int) {
    node.Directory? && size <= SmallDirectoryLimit
  }

  /** Part 1: the total size of the directories of size at most 100000. */
  function Part1(input: seq<string>): (r: Result<int>)
    ensures r.Err? <==> FileTreeOf(input).Err?
  {
    match FileTreeOf(input)
    case Err(m) => Err(m)
    case Ok(nodes) =>
      Ok(Sum(Sizes(nodes, FilterRecursive(nodes, Root, IsSmallDirectory))))
  }

  /** How much must be freed for the update to fit. */
  function ToFreeAtLeast(nodes: Arena): int
    requires WellFormed(nodes)
  {
    MinimumFreeSpace - (FileSystemSize - Size(nodes, Root))
  }

  /** Part 2: after `check(toFreeAtLeast > 0)`, the size of the smallest
      directory that frees enough. It fails only when parsing or the `check`
      call fails, since the root always frees enough. */
  function Part2(input: seq<string>): (r: Result<int>)
    ensures FileTreeOf(input).Err? ==> r.Err?
    ensures FileTreeOf(input).Ok? ==>
      var nodes := FileTreeOf(input).value;
      var toFree := ToFreeAtLeast(nodes);
      (r.Ok? <==> toFree > 0) &&
      (r.Ok? ==>
        (exists d | d in Subtree(nodes, Root) :: IsDirectory(nodes, d) && Size(nodes, d) >= toFree && Size(nodes, d) == r.value) &&
        forall d | d in Subtree(nodes, Root) && IsDirectory(nodes, d) && Size(nodes, d) >= toFree :: r.value <= Size(nodes, d))
  {
    match FileTreeOf(input)
    case Err(m) => Err(m)
    case Ok(nodes) =>
      var toFree := ToFreeAtLeast(nodes);
      if toFree <= 0 then Err("Check failed.")
      else
        var freesEnough := (node: Node, size: int) => node.Directory? && size >= toFree;
        SmallestFreeing(nodes, toFree, freesEnough);
        var candidates := FilterRecursive(nodes, Root, freesEnough);
        match MinOf(Sizes(nodes, candidates))
        case None => Err("null dereference")
        case Some(smallest) => Ok(smallest)
  }

  /** Part 1 sums the sizes of exactly the small directories of the tree. */
  lemma Part1Selects(input: seq<string>, x: nat)
    requires FileTreeOf(input).Ok?
    ensures var nodes := FileTreeOf(input).value;
      x in FilterRecursive(nodes, Root, IsSmallDirectory) <==>
        x in Subtree(nodes, Root) && IsDirectory(nodes, x) && Size(nodes, x) <= SmallDirectoryLimit
  {
    FilterExact(FileTreeOf(input).value, Root, IsSmallDirectory, x);
  }

  /** The smallest size among the directories `pred` selects, all of size at least `toFree`. */
  lemma SmallestFreeing(nodes: Arena, toFree: int, pred: (Node, int) -> bool)
    requires WellFormed(nodes) && IsDirectory(nodes, Root) && Size(nodes, Root) >= toFree
    requires forall node, size :: pred(node, size) == (node.Directory? && size >= toFree)
    ensures var sizes := Sizes(nodes, FilterRecursive(nodes, Root, pred));
      MinOf(sizes).Some? &&
      (exists d | d in Subtree(nodes, Root) :: IsDirectory(nodes, d) && Size(nodes, d) >= toFree && Size(nodes, d) == MinOf(sizes).value) &&
      forall d | d in Subtree(nodes, Root) && IsDirectory(nodes, d) && Size(nodes, d) >= toFree :: MinOf(sizes).value <= Size(nodes, d)
  {
    var candidates := FilterRecursive(nodes, Root, pred);
    var sizes := Sizes(nodes, candidates);
    FilterExact(nodes, Root, pred, Root);
    assert Root in candidates;
    var k0 :| 0 <= k0 < |candidates| && candidates[k0] == Root;
    assert sizes[k0] == Size(nodes, Root);
    var smallest := MinOf(sizes).value;
    var k :| 0 <= k < |sizes| && sizes[k] == smallest;
    FilterExact(nodes, Root, pred, candidates[k]);
    assert IsDirectory(nodes, candidates[k]) && Size(nodes, candidates[k]) == smallest;
    forall d | d in Subtree(nodes, Root) && IsDirectory(nodes, d) && Size(nodes, d) >= toFree
      ensures smallest <= Size(nodes, d)
    {
      FilterExact(nodes, Root, pred, d);
      var j :| 0 <= j < |candidates| && candidates[j] == d;
      assert sizes[j] == Size(nodes, d);
    }
  }
}
