/** Collecting the files below every directory named "crds" of an unpacked chart into one stream. */
module HelmBundle {
  import opened Basics
  import opened Manifest
  import Semver

  /** A symlink-free directory tree; children stand in the order a directory walk visits them. */
  datatype Node = File(name: string, content: string) | Dir(name: string, children: seq<Node>)

  /** A file with its path from the root of the walk, the root's own name first. */
  datatype Entry = Entry(path: seq<string>, content: string)

  type Path = seq<string>

  // ------------------------------------------------------------------ walk

  /** All files at or below n, in walk order; `at` is the path of n. */
  function Files(n: Node, at: Path): seq<Entry>
    decreases n, 1
  {
    match n
    case File(_, content) => [Entry(at, content)]
    case Dir(_, children) => FilesOf(children, at)
  }

  function FilesOf(nodes: seq<Node>, at: Path): seq<Entry>
    decreases nodes, 0
  {
    if nodes == [] then [] else Files(nodes[0], at + [nodes[0].name]) + FilesOf(nodes[1..], at)
  }

  /** What the outer walk writes: all files below each directory named "crds", as it is met. */
  function Bundle(n: Node, at: Path): seq<Entry>
    decreases n, 1
  {
    match n
    case File(_, _) => []
    case Dir(name, children) => (if name == "crds" then Files(n, at) else []) + BundleOf(children, at)
  }

  function BundleOf(nodes: seq<Node>, at: Path): seq<Entry>
    decreases nodes, 0
  {
    if nodes == [] then [] else Bundle(nodes[0], at + [nodes[0].name]) + BundleOf(nodes[1..], at)
  }

  function Contents(entries: seq<Entry>): (r: seq<string>)
    ensures |r| == |entries|
  {
    seq(|entries|, i requires 0 <= i < |entries| => entries[i].content)
  }

  /** The text of the bundle file of a chart unpacked into `root`. */
  function BundleText(root: Node): string {
    Stream(Contents(Bundle(root, [root.name])))
  }

  lemma ContentsAppend(a: seq<Entry>, b: seq<Entry>)
    ensures Stream(Contents(a + b)) == Stream(Contents(a)) + Stream(Contents(b))
  {
    assert Contents(a + b) == Contents(a) + Contents(b);
    StreamAppend(Contents(a), Contents(b));
  }

  // ---------------------------------------------------------------- writer

  /** The open bundle file. */
  class BundleFile {
    var text: string

    constructor ()
      ensures text == ""
    {
      text := "";
    }

    method WriteString(s: string)
      modifies this
      ensures text == old(text) + s
    {
      text := text + s;
    }
  }

  lemma StreamOne(content: string)
    ensures Stream([content]) == MARKER + content
  {
    assert [content][1..] == [];
  }

  lemma FilesOfSnoc(nodes: seq<Node>, last: Node, at: Path)
    ensures FilesOf(nodes + [last], at) == FilesOf(nodes, at) + Files(last, at + [last.name])
  {
    if nodes == [] {
      assert [last][1..] == [];
      assert nodes + [last] == [last];
    } else {
      assert (nodes + [last])[1..] == nodes[1..] + [last];
      FilesOfSnoc(nodes[1..], last, at);
    }
  }

  lemma BundleOfSnoc(nodes: seq<Node>, last: Node, at: Path)
    ensures BundleOf(nodes + [last], at) == BundleOf(nodes, at) + Bundle(last, at + [last.name])
  {
    if nodes == [] {
      assert [last][1..] == [];
      assert nodes + [last] == [last];
    } else {
      assert (nodes + [last])[1..] == nodes[1..] + [last];
      BundleOfSnoc(nodes[1..], last, at);
    }
  }

  function FilesText(n: Node, at: Path): string { Stream(Contents(Files(n, at))) }

  function BundledText(nodes: seq<Node>, at: Path): string { Stream(Contents(BundleOf(nodes, at))) }

  function AppendedText(nodes: seq<Node>, at: Path): string { Stream(Contents(FilesOf(nodes, at))) }

  lemma FileText(n: Node, at: Path)
    requires n.File?
    ensures FilesText(n, at) == MARKER + n.content
  {
    assert Contents(Files(n, at)) == [n.content];
    StreamOne(n.content);
  }

  lemma AppendedTextNext(nodes: seq<Node>, i: nat, at: Path)
    requires i < |nodes|
    ensures AppendedText(nodes[..i + 1], at)
         == AppendedText(nodes[..i], at) + FilesText(nodes[i], at + [nodes[i].name])
  {
    assert nodes[..i + 1] == nodes[..i] + [nodes[i]];
    FilesOfSnoc(nodes[..i], nodes[i], at);
    ContentsAppend(FilesOf(nodes[..i], at), Files(nodes[i], at + [nodes[i].name]));
  }

  lemma BundledTextNext(nodes: seq<Node>, i: nat, at: Path)
    requires i < |nodes|
    ensures BundledText(nodes[..i + 1], at)
         == BundledText(nodes[..i], at) + Stream(Contents(Bundle(nodes[i], at + [nodes[i].name])))
  {
    assert nodes[..i + 1] == nodes[..i] + [nodes[i]];
    BundleOfSnoc(nodes[..i], nodes[i], at);
    ContentsAppend(BundleOf(nodes[..i], at), Bundle(nodes[i], at + [nodes[i].name]));
  }

  lemma DirectoryText(n: Node, at: Path)
    requires n.Dir?
    ensures Stream(Contents(Bundle(n, at)))
         == (if n.name == "crds" then FilesText(n, at) else "") + BundledText(n.children, at)
  {
    ContentsAppend(if n.name == "crds" then Files(n, at) else [], BundleOf(n.children, at));
    assert Contents([]) == [];
  }

  lemma Regroup(a: string, b: string, c: string)
    ensures a + b + c == a + (b + c)
  {
  }

  /** The inner walk: a marker and the content for every file at or below `node`. */
  method AppendFilesToCrds(node: Node, crds: BundleFile, ghost at: Path)
    modifies crds
    ensures crds.text == old(crds.text) + FilesText(node, at)
    decreases node
  {
    ghost var before := crds.text;
    if node.File? {
      crds.WriteString(MARKER);
      crds.WriteString(node.content);
      FileText(node, at);
      assert before + MARKER + node.content == before + (MARKER + node.content);
      return;
    }
    for i := 0 to |node.children|
      invariant crds.text == before + AppendedText(node.children[..i], at)
    {
      var child := node.children[i];
      AppendFilesToCrds(child, crds, at + [child.name]);
      AppendedTextNext(node.children, i, at);
      Regroup(before, AppendedText(node.children[..i], at), FilesText(child, at + [child.name]));
    }
    assert node.children[..|node.children|] == node.children;
  }

  /** The outer walk over the unpacked chart. */
  method WalkChart(node: Node, crds: BundleFile, ghost at: Path)
    modifies crds
    ensures crds.text == old(crds.text) + Stream(Contents(Bundle(node, at)))
    decreases node, 1
  {
    if node.File? {
      assert Contents(Bundle(node, at)) == [];
      return;
    }
    if node.name == "crds" {
      AppendFilesToCrds(node, crds, at);
    }
    WalkChildren(node, crds, at);
    DirectoryText(node, at);
  }

  method WalkChildren(node: Node, crds: BundleFile, ghost at: Path)
    requires node.Dir?
    modifies crds
    ensures crds.text == old(crds.text) + BundledText(node.children, at)
    decreases node, 0
  {
    ghost var before := crds.text;
    for i := 0 to |node.children|
      invariant crds.text == before + BundledText(node.children[..i], at)
    {
      ghost var below := Stream(Contents(Bundle(node.children[i], at + [node.children[i].name])));
      WalkChart(node.children[i], crds, at + [node.children[i].name]);
      BundledTextNext(node.children, i, at);
      Regroup(before, BundledText(node.children[..i], at), below);
    }
    assert node.children[..|node.children|] == node.children;
  }

  method CreateCrdYaml(root: Node) returns (text: string)
    ensures text == BundleText(root)
  {
    var crds := new BundleFile();
    WalkChart(root, crds, [root.name]);
    text := crds.text;
  }

  // --------------------------------------------------------- multiplicity

  /** Names within a directory ascend strictly, as a directory listing delivers them. */
  predicate Lexical(n: Node) {
    n.Dir? ==>
      && (forall i, j :: 0 <= i < j < |n.children| ==> Semver.CompareText(n.children[i].name, n.children[j].name) < 0)
      && (forall c :: c in n.children ==> Lexical(c))
  }

  predicate AllLexical(nodes: seq<Node>) {
    && (forall i, j :: 0 <= i < j < |nodes| ==> Semver.CompareText(nodes[i].name, nodes[j].name) < 0)
    && (forall c :: c in nodes ==> Lexical(c))
  }

  /** The walk order on paths: the first name that differs decides. */
  function ComparePaths(a: Path, b: Path): int { Semver.CompareLists(Semver.CompareText, a, b) }

  predicate Ascending(entries: seq<Entry>) {
    forall i, j :: 0 <= i < j < |entries| ==> ComparePaths(entries[i].path, entries[j].path) < 0
  }

  lemma {:induction false} ComparePathsAfter(at: Path, a: Path, b: Path)
    ensures ComparePaths(at + a, at + b) == ComparePaths(a, b)
  {
    if at == [] {
      assert at + a == a && at + b == b;
    } else {
      Semver.TextIsOrdered();
      assert (at + a)[1..] == at[1..] + a && (at + b)[1..] == at[1..] + b;
      assert (at + a)[0] == at[0] == (at + b)[0];
      assert Semver.CompareText(at[0], at[0]) == 0;
      ComparePathsAfter(at[1..], a, b);
    }
  }

  lemma {:induction false} FilesStartAt(n: Node, at: Path, e: Entry)
    requires e in Files(n, at)
    ensures at <= e.path
    decreases n, 1
  {
    if n.Dir? {
      var name := FilesOfStartAt(n.children, at, e);
    }
  }

  /** A file of a list of nodes lies at or below one of them. */
  lemma {:induction false} FilesOfStartAt(nodes: seq<Node>, at: Path, e: Entry) returns (i: nat)
    requires e in FilesOf(nodes, at)
    ensures i < |nodes| && e in Files(nodes[i], at + [nodes[i].name]) && at + [nodes[i].name] <= e.path
    decreases nodes, 0
  {
    if e in Files(nodes[0], at + [nodes[0].name]) {
      FilesStartAt(nodes[0], at + [nodes[0].name], e);
      i := 0;
    } else {
      i := FilesOfStartAt(nodes[1..], at, e);
      i := i + 1;
    }
  }

  lemma SiblingPaths(at: Path, m: string, n: string, a: Path, b: Path)
    requires Semver.CompareText(m, n) < 0 && at + [m] <= a && at + [n] <= b
    ensures ComparePaths(a, b) < 0
  {
    var k := |at|;
    assert a == at + a[k..] && b == at + b[k..];
    assert a[k..][0] == a[k] == (at + [m])[k] && b[k..][0] == b[k] == (at + [n])[k];
    ComparePathsAfter(at, a[k..], b[k..]);
  }

  /** The files at or below a node come in strictly ascending path order, so none comes twice. */
  lemma {:induction false} FilesAscend(n: Node, at: Path)
    requires Lexical(n)
    ensures Ascending(Files(n, at))
    decreases n, 1
  {
    if n.Dir? {
      FilesOfAscend(n.children, at);
    }
  }

  lemma {:induction false} FilesOfAscend(nodes: seq<Node>, at: Path)
    requires AllLexical(nodes)
    ensures Ascending(FilesOf(nodes, at))
    decreases nodes, 0
  {
    if nodes != [] {
      var head, tail := Files(nodes[0], at + [nodes[0].name]), FilesOf(nodes[1..], at);
      FilesAscend(nodes[0], at + [nodes[0].name]);
      FilesOfAscend(nodes[1..], at);
      forall i, j | 0 <= i < |head| && 0 <= j < |tail|
        ensures ComparePaths(head[i].path, tail[j].path) < 0
      {
        FilesStartAt(nodes[0], at + [nodes[0].name], head[i]);
        var k := FilesOfStartAt(nodes[1..], at, tail[j]);
        SiblingPaths(at, nodes[0].name, nodes[k + 1].name, head[i].path, tail[j].path);
      }
      AscendingConcat(head, tail);
    }
  }

  lemma AscendingConcat(a: seq<Entry>, b: seq<Entry>)
    requires Ascending(a) && Ascending(b)
    requires forall i, j :: 0 <= i < |a| && 0 <= j < |b| ==> ComparePaths(a[i].path, b[j].path) < 0
    ensures Ascending(a + b)
  {
    var c := a + b;
    forall i, j | 0 <= i < j < |c| ensures ComparePaths(c[i].path, c[j].path) < 0 {
      if i < |a| <= j {
        assert c[i] == a[i] && c[j] == b[j - |a|];
      } else if i >= |a| {
        assert c[i] == b[i - |a|] && c[j] == b[j - |a|];
      }
    }
  }

  lemma {:induction false} AscendingOnce(entries: seq<Entry>, e: Entry)
    requires Ascending(entries)
    ensures multiset(entries)[e] == if e in entries then 1 else 0
  {
    if entries != [] {
      var front, last := entries[..|entries| - 1], entries[|entries| - 1];
      assert entries == front + [last];
      AscendingOnce(front, e);
      if e in front && e == last {
        var i :| 0 <= i < |front| && front[i] == e;
        assert ComparePaths(entries[i].path, entries[|entries| - 1].path) < 0;
        Semver.TextIsOrdered();
        Semver.ListsZero(Semver.CompareText, e.path, e.path);
      }
    }
  }

  /** How many of the names in a list are "crds". */
  function CrdsNames(names: Path): nat {
    if names == [] then 0 else (if names[0] == "crds" then 1 else 0) + CrdsNames(names[1..])
  }

  /** The names of the directories above a path, from depth `from` down. */
  function Above(path: Path, from: nat): Path
    requires from < |path|
  {
    path[from..|path| - 1]
  }

  lemma SiblingsShareNothing(nodes: seq<Node>, at: Path, e: Entry)
    requires nodes != [] && AllLexical(nodes)
    requires e in Files(nodes[0], at + [nodes[0].name])
    ensures e !in FilesOf(nodes[1..], at)
  {
    if e in FilesOf(nodes[1..], at) {
      FilesStartAt(nodes[0], at + [nodes[0].name], e);
      var k := FilesOfStartAt(nodes[1..], at, e);
      SiblingPaths(at, nodes[0].name, nodes[k + 1].name, e.path, e.path);
      Semver.TextIsOrdered();
      Semver.ListsZero(Semver.CompareText, e.path, e.path);
    }
  }

  lemma {:induction false} BundleCounts(n: Node, at: Path, e: Entry)
    requires Lexical(n) && at != [] && at[|at| - 1] == n.name
    requires e in Files(n, at)
    ensures |at| <= |e.path|
    ensures multiset(Bundle(n, at))[e] == CrdsNames(Above(e.path, |at| - 1))
    decreases n, 1
  {
    FilesStartAt(n, at, e);
    var d := |at| - 1;
    if n.File? {
      assert Above(e.path, d) == [];
    } else {
      BundleOfCounts(n.children, at, e);
      var i := FilesOfStartAt(n.children, at, e);
      assert Above(e.path, d) == [n.name] + Above(e.path, d + 1);
      FilesAscend(n, at);
      AscendingOnce(Files(n, at), e);
    }
  }

  lemma {:induction false} BundleOfCounts(nodes: seq<Node>, at: Path, e: Entry)
    requires AllLexical(nodes) && e in FilesOf(nodes, at)
    ensures |at| < |e.path|
    ensures multiset(BundleOf(nodes, at))[e] == CrdsNames(Above(e.path, |at|))
    decreases nodes, 0
  {
    var i := FilesOfStartAt(nodes, at, e);
    var below := at + [nodes[0].name];
    if e in Files(nodes[0], below) {
      BundleCounts(nodes[0], below, e);
      SiblingsShareNothing(nodes, at, e);
      BundledAreFilesOf(nodes[1..], at, e);
    } else {
      BundleOfCounts(nodes[1..], at, e);
      BundledAreFiles(nodes[0], below, e);
    }
  }

  lemma {:induction false} BundledAreFiles(n: Node, at: Path, e: Entry)
    ensures e in Bundle(n, at) ==> e in Files(n, at)
    decreases n, 1
  {
    if n.Dir? {
      BundledAreFilesOf(n.children, at, e);
    }
  }

  lemma {:induction false} BundledAreFilesOf(nodes: seq<Node>, at: Path, e: Entry)
    ensures e in BundleOf(nodes, at) ==> e in FilesOf(nodes, at)
    decreases nodes, 0
  {
    if nodes != [] {
      BundledAreFiles(nodes[0], at + [nodes[0].name], e);
      BundledAreFilesOf(nodes[1..], at, e);
    }
  }

  /**
   The bundle holds each file of the chart exactly as many times as it has ancestor directories
   named "crds", and nothing else.
   */
  lemma BundleMultiplicity(root: Node, e: Entry)
    requires Lexical(root)
    ensures e in Files(root, [root.name]) ==>
      e.path != [] && multiset(Bundle(root, [root.name]))[e] == CrdsNames(Above(e.path, 0))
    ensures e !in Files(root, [root.name]) ==> multiset(Bundle(root, [root.name]))[e] == 0
  {
    if e in Files(root, [root.name]) {
      BundleCounts(root, [root.name], e);
    } else {
      BundledAreFiles(root, [root.name], e);
    }
  }

  // ----------------------------------------------------------------- order

  /** A directory with its path. */
  datatype Place = Place(dir: Node, path: Path)

  /** The directories named "crds" at or below n, as the walk meets them. */
  function CrdsDirs(n: Node, at: Path): seq<Place>
    decreases n, 1
  {
    match n
    case File(_, _) => []
    case Dir(name, children) => (if name == "crds" then [Place(n, at)] else []) + CrdsDirsOf(children, at)
  }

  function CrdsDirsOf(nodes: seq<Node>, at: Path): seq<Place>
    decreases nodes, 0
  {
    if nodes == [] then [] else CrdsDirs(nodes[0], at + [nodes[0].name]) + CrdsDirsOf(nodes[1..], at)
  }

  predicate InOrder(places: seq<Place>) {
    forall i, j :: 0 <= i < j < |places| ==> ComparePaths(places[i].path, places[j].path) < 0
  }

  function FilesIn(places: seq<Place>): seq<seq<Entry>> {
    seq(|places|, i requires 0 <= i < |places| => Files(places[i].dir, places[i].path))
  }

  lemma FilesInConcat(a: seq<Place>, b: seq<Place>)
    ensures Flatten(FilesIn(a + b)) == Flatten(FilesIn(a)) + Flatten(FilesIn(b))
  {
    assert FilesIn(a + b) == FilesIn(a) + FilesIn(b);
    FlattenAppend(FilesIn(a), FilesIn(b));
  }

  lemma FilesInOne(place: Place)
    ensures Flatten(FilesIn([place])) == Files(place.dir, place.path)
  {
    assert FilesIn([place])[1..] == [];
  }

  lemma {:induction false} BundleIsByDirectory(n: Node, at: Path)
    ensures Bundle(n, at) == Flatten(FilesIn(CrdsDirs(n, at)))
    decreases n, 1
  {
    assert FilesIn([]) == [];
    if n.Dir? {
      BundleOfIsByDirectory(n.children, at);
      var own := if n.name == "crds" then [Place(n, at)] else [];
      FilesInConcat(own, CrdsDirsOf(n.children, at));
      if n.name == "crds" {
        FilesInOne(Place(n, at));
      }
    }
  }

  lemma {:induction false} BundleOfIsByDirectory(nodes: seq<Node>, at: Path)
    ensures BundleOf(nodes, at) == Flatten(FilesIn(CrdsDirsOf(nodes, at)))
    decreases nodes, 0
  {
    if nodes == [] {
      assert FilesIn([]) == [];
    } else {
      BundleIsByDirectory(nodes[0], at + [nodes[0].name]);
      BundleOfIsByDirectory(nodes[1..], at);
      FilesInConcat(CrdsDirs(nodes[0], at + [nodes[0].name]), CrdsDirsOf(nodes[1..], at));
    }
  }

  lemma {:induction false} DirsStartAt(n: Node, at: Path, p: Place)
    requires p in CrdsDirs(n, at)
    ensures at <= p.path && p.dir.Dir? && p.dir.name == "crds" && (Lexical(n) ==> Lexical(p.dir))
    decreases n, 1
  {
    if n.Dir? && p in CrdsDirsOf(n.children, at) {
      var i := DirsOfStartAt(n.children, at, p);
    }
  }

  lemma {:induction false} DirsOfStartAt(nodes: seq<Node>, at: Path, p: Place) returns (i: nat)
    requires p in CrdsDirsOf(nodes, at)
    ensures i < |nodes| && at + [nodes[i].name] <= p.path && p.dir.Dir? && p.dir.name == "crds"
    ensures AllLexical(nodes) ==> Lexical(p.dir)
    decreases nodes, 0
  {
    if p in CrdsDirs(nodes[0], at + [nodes[0].name]) {
      DirsStartAt(nodes[0], at + [nodes[0].name], p);
      i := 0;
    } else {
      i := DirsOfStartAt(nodes[1..], at, p);
      i := i + 1;
    }
  }

  lemma BelowComesLater(at: Path, name: string, path: Path)
    requires at + [name] <= path
    ensures ComparePaths(at, path) < 0
  {
    var rest := path[|at|..];
    assert at == at + [] && path == at + rest && rest != [];
    ComparePathsAfter(at, [], rest);
  }

  lemma PlacesConcat(a: seq<Place>, b: seq<Place>)
    requires InOrder(a) && InOrder(b)
    requires forall i, j :: 0 <= i < |a| && 0 <= j < |b| ==> ComparePaths(a[i].path, b[j].path) < 0
    ensures InOrder(a + b)
  {
    var c := a + b;
    forall i, j | 0 <= i < j < |c| ensures ComparePaths(c[i].path, c[j].path) < 0 {
      if i < |a| <= j {
        assert c[i] == a[i] && c[j] == b[j - |a|];
      } else if i >= |a| {
        assert c[i] == b[i - |a|] && c[j] == b[j - |a|];
      }
    }
  }

  lemma {:induction false} DirsAscend(n: Node, at: Path)
    requires Lexical(n)
    ensures InOrder(CrdsDirs(n, at))
    decreases n, 1
  {
    if n.Dir? {
      DirsOfAscend(n.children, at);
      var own, below := if n.name == "crds" then [Place(n, at)] else [], CrdsDirsOf(n.children, at);
      forall i, j | 0 <= i < |own| && 0 <= j < |below| ensures ComparePaths(own[i].path, below[j].path) < 0 {
        var k := DirsOfStartAt(n.children, at, below[j]);
        BelowComesLater(at, n.children[k].name, below[j].path);
      }
      PlacesConcat(own, below);
    }
  }

  lemma {:induction false} DirsOfAscend(nodes: seq<Node>, at: Path)
    requires AllLexical(nodes)
    ensures InOrder(CrdsDirsOf(nodes, at))
    decreases nodes, 0
  {
    if nodes != [] {
      var head, tail := CrdsDirs(nodes[0], at + [nodes[0].name]), CrdsDirsOf(nodes[1..], at);
      DirsAscend(nodes[0], at + [nodes[0].name]);
      DirsOfAscend(nodes[1..], at);
      forall i, j | 0 <= i < |head| && 0 <= j < |tail| ensures ComparePaths(head[i].path, tail[j].path) < 0 {
        DirsStartAt(nodes[0], at + [nodes[0].name], head[i]);
        var k := DirsOfStartAt(nodes[1..], at, tail[j]);
        SiblingPaths(at, nodes[0].name, nodes[k + 1].name, head[i].path, tail[j].path);
      }
      PlacesConcat(head, tail);
    }
  }

  /**
   The order of the bundle: it is the files of one directory named "crds" after the other, the directories
   in strictly ascending order of their paths, one above another first, and the files of each in
   strictly ascending order of theirs.
   */
  lemma BundleIsInOrder(root: Node)
    requires Lexical(root)
    ensures var dirs := CrdsDirs(root, [root.name]);
      && Bundle(root, [root.name]) == Flatten(FilesIn(dirs)) && InOrder(dirs)
      && (forall p :: p in dirs ==> p.dir.Dir? && p.dir.name == "crds" && Ascending(Files(p.dir, p.path)))
  {
    var dirs := CrdsDirs(root, [root.name]);
    BundleIsByDirectory(root, [root.name]);
    DirsAscend(root, [root.name]);
    forall p | p in dirs ensures p.dir.Dir? && p.dir.name == "crds" && Ascending(Files(p.dir, p.path)) {
      DirsStartAt(root, [root.name], p);
      FilesAscend(p.dir, p.path);
    }
  }

  /**
   Reading a bundle back: its documents are the bundled contents, in walk order, exactly when those
   contents are separable.
   */
  lemma BundleDocuments(root: Node)
    ensures Documents(BundleText(root)) == Contents(Bundle(root, [root.name]))
       <==> Separable(Contents(Bundle(root, [root.name])))
  {
    RoundTripExactly(Contents(Bundle(root, [root.name])));
  }
}
