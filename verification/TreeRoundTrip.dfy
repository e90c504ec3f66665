/** Reading back a printed tree. */
module TreeRoundTrip {
  import opened Options
  import opened Metadata
  import opened NodeText
  import opened TreeText

  /** The reader over a list of lines. */
  function Run(c: Cursor, lines: seq<string>, addr: Option<Address>): (r: Result)
    requires c.Valid()
    ensures r.Reading? ==> r.at.Valid()
    decreases |lines|
  {
    if lines == [] then Reading(c)
    else
      StepValid(c, lines[0], addr);
      var r := Step(c, lines[0], addr);
      if r.Reading? then Run(r.at, lines[1..], addr) else r
  }

  lemma {:induction false} RunPlus(c: Cursor, a: seq<string>, b: seq<string>, addr: Option<Address>)
    requires c.Valid()
    ensures Run(c, a + b, addr) ==
      if Run(c, a, addr).Reading? then Run(Run(c, a, addr).at, b, addr) else Run(c, a, addr)
    decreases |a|
  {
    if a == [] {
      assert a + b == b;
    } else {
      assert (a + b)[1..] == a[1..] + b;
      StepValid(c, a[0], addr);
      var r := Step(c, a[0], addr);
      if r.Reading? {
        RunPlus(r.at, a[1..], b, addr);
      }
    }
  }

  ghost predicate ShortLine(line: string) { |line| < LINE && Free(line, '\n') }

  ghost predicate AllShort(lines: seq<string>) { forall i :: 0 <= i < |lines| ==> ShortLine(lines[i]) }

  /** A file of short lines is read line by line. */
  lemma {:induction false} FileRead(c: Cursor, lines: seq<string>, addr: Option<Address>)
    requires c.Valid() && AllShort(lines)
    ensures ReadAll(c, File(lines), addr) == Run(c, lines, addr)
    decreases |lines|
  {
    if lines == [] {
      LastIs("", '\n');
    } else {
      FieldIs(lines[0], File(lines[1..]), '\n');
      assert ShortLine(lines[0]);
      StepValid(c, lines[0], addr);
      var r := Step(c, lines[0], addr);
      if r.Reading? {
        FileRead(r.at, lines[1..], addr);
      }
    }
  }

  // ----- One line

  ghost predicate LineFits(b: Branch, level: int) {
    1 <= level < DEPTH && ShortLine(Line(b, level)) && NoCommaIps(Elements(b.locs))
  }

  /** What a line says about its node. */
  ghost function Bare(b: Branch): Node { b.node.(locs := Elements(b.locs), dir := map[]) }

  lemma LineRead(c: Cursor, b: Branch, level: int, addr: Option<Address>)
    requires c.Valid() && LineFits(b, level)
    ensures Step(c, Line(b, level), addr) == StepTo(c, level, Placed(Bare(b), addr))
  {
    FieldIs(Printed(level), Text(b.node, b.locs), ' ');
    AtoiBack(level);
    ReadText(b.node, Fresh, b.locs);
    assert {} + Elements(b.locs) == Elements(b.locs);
  }

  /** The reader is about to add children to the directory at path p. */
  ghost predicate Ready(c: Cursor, p: seq<string>) {
    && c.Valid() && |p| + 1 < DEPTH && At(c.tree, p).Some? && c.dirs[1..|p| + 1] == p
    && 1 <= c.level && |p| <= c.level
    && (c.level == |p| + 1 ==> c.path == p)
    && (c.level == |p| ==> c.path + [p[|p| - 1]] == p)
  }

  ghost function Added(c: Cursor, p: seq<string>, n: Node): Cursor
    requires Ready(c, p)
  {
    Cursor(SetAt(c.tree, p, At(c.tree, p).value[n.name := n]), p, |p| + 1, c.dirs[|p| + 1 := n.name])
  }

  /** Whichever of the three ways the reader takes, the node goes to where it belongs. */
  lemma NodeAdded(c: Cursor, p: seq<string>, n: Node)
    requires Ready(c, p)
    ensures StepTo(c, |p| + 1, n) == Reading(Added(c, p, n))
  {
    if c.level == |p| {
      assert p[|p| - 1] == c.dirs[1..|p| + 1][|p| - 1] == c.dirs[c.level];
      AtPlus(c.tree, c.path, c.dirs[c.level]);
    }
  }

  lemma NameSet(dirs: seq<string>, p: seq<string>, k: string)
    requires |p| + 1 < |dirs| && dirs[1..|p| + 1] == p
    ensures dirs[|p| + 1 := k][1..|p| + 1] == p && dirs[|p| + 1 := k][1..|p| + 2] == p + [k]
  {
    var e := dirs[|p| + 1 := k];
    assert e[1..|p| + 1] == dirs[1..|p| + 1];
    assert e[1..|p| + 2] == e[1..|p| + 1] + [e[|p| + 1]];
  }

  lemma AddedAt(c: Cursor, p: seq<string>, n: Node)
    requires Ready(c, p)
    ensures At(Added(c, p, n).tree, p) == Some(At(c.tree, p).value[n.name := n])
    ensures At(Added(c, p, n).tree, p + [n.name]) == Some(n.dir)
  {
    AtSet(c.tree, p, At(c.tree, p).value[n.name := n]);
    AtPlus(Added(c, p, n).tree, p, n.name);
  }

  lemma AddedReady(c: Cursor, p: seq<string>, n: Node)
    requires Ready(c, p)
    ensures Ready(Added(c, p, n), p)
    ensures |p| + 2 < DEPTH ==> Ready(Added(c, p, n), p + [n.name])
    ensures At(Added(c, p, n).tree, p) == Some(At(c.tree, p).value[n.name := n])
    ensures At(Added(c, p, n).tree, p + [n.name]) == Some(n.dir)
  {
    AddedAt(c, p, n);
    NameSet(c.dirs, p, n.name);
    ReadyHere(Added(c, p, n), p);
    if |p| + 2 < DEPTH {
      ReadyBelow(Added(c, p, n), p, n.name);
    }
  }

  lemma ReadyHere(c: Cursor, p: seq<string>)
    requires c.Valid() && |p| + 1 < DEPTH && c.path == p && c.level == |p| + 1 && c.dirs[1..|p| + 1] == p
    ensures Ready(c, p)
  {
  }

  lemma ReadyBelow(c: Cursor, p: seq<string>, k: string)
    requires c.Valid() && |p| + 2 < DEPTH && c.path == p && c.level == |p| + 1 && c.dirs[1..|p| + 2] == p + [k]
    requires At(c.tree, p + [k]).Some?
    ensures Ready(c, p + [k])
  {
  }

  lemma ReadyParent(c: Cursor, p: seq<string>, k: string)
    requires Ready(c, p + [k]) && At(c.tree, p).Some?
    ensures Ready(c, p)
  {
    assert (p + [k])[|p|] == k;
    assert c.dirs[1..|p| + 1] == c.dirs[1..|p| + 2][..|p|];
    if c.level == |p| + 1 {
      assert c.path == (c.path + [k])[..|c.path|] && p == (p + [k])[..|p|];
    }
  }

  // ----- All lines

  /** Every line fits into the reader's buffer and table. */
  ghost predicate Fits(s: seq<Branch>, level: int) {
    s != [] ==>
      var b := s[|s| - 1];
      Fits(s[..|s| - 1], level) && LineFits(b, level) && Fits(b.kids, level + 1)
  }

  /** The directory that the lines describe. */
  ghost function Build(s: seq<Branch>, addr: Option<Address>): Dir {
    if s == [] then map[]
    else
      var b := s[|s| - 1];
      Build(s[..|s| - 1], addr)[b.node.name := Placed(Bare(b), addr).(dir := Build(b.kids, addr))]
  }

  /** The reader has put the directory x at path p of the tree it started with. */
  ghost predicate Has(r: Result, c: Cursor, p: seq<string>, x: Dir)
    requires At(c.tree, p).Some?
  {
    r.Reading? && Ready(r.at, p) && r.at.tree == SetAt(c.tree, p, x)
  }

  /** Reading one node into a directory that holds x so far, up to its children. */
  lemma NodeRead(c: Cursor, c1: Cursor, p: seq<string>, x: Dir, b: Branch, addr: Option<Address>)
    requires At(c.tree, p).Some? && Has(Reading(c1), c, p, x) && LineFits(b, |p| + 1)
    ensures var n := Placed(Bare(b), addr);
      Has(Run(c1, [Line(b, |p| + 1)], addr), c, p, x[n.name := n])
    ensures Run(c1, [Line(b, |p| + 1)], addr) == Reading(Added(c1, p, Placed(Bare(b), addr)))
  {
    var n := Placed(Bare(b), addr);
    LineRead(c1, b, |p| + 1, addr);
    NodeAdded(c1, p, n);
    AddedReady(c1, p, n);
    AtSet(c.tree, p, x);
    SetSet(c.tree, p, x, x[n.name := n]);
    assert [Line(b, |p| + 1)][1..] == [];
  }

  lemma KidsPut(c: Cursor, c2: Cursor, r: Result, p: seq<string>, x: Dir, k: string, d: Dir)
    requires At(c.tree, p).Some? && Has(Reading(c2), c, p, x) && k in x && At(c2.tree, p + [k]).Some?
    requires Has(r, c2, p + [k], d)
    ensures Has(r, c, p, x[k := x[k].(dir := d)])
  {
    var y := x[k := x[k].(dir := d)];
    AtSet(c.tree, p, x);
    SetPlus(c2.tree, p, k, d);
    SetSet(c.tree, p, x, y);
    AtSet(c.tree, p, y);
    ReadyParent(r.at, p, k);
  }

  ghost predicate KidsRead(c: Cursor, b: Branch, p: seq<string>, addr: Option<Address>) {
    && c.Valid() && At(c.tree, p).Some?
    && Has(Run(c, Lines(b.kids, |p| + 1), addr), c, p, Build(b.kids, addr))
  }

  lemma PutTwice(x: Dir, k: string, n: Node, d: Dir)
    ensures x[k := n][k := x[k := n][k].(dir := d)] == x[k := n.(dir := d)]
  {
  }

  lemma ParentRead(c: Cursor, c2: Cursor, p: seq<string>, x: Dir, n: Node, b: Branch, addr: Option<Address>)
    requires At(c.tree, p).Some? && Has(Reading(c2), c, p, x[n.name := n]) && KidsRead(c2, b, p + [n.name], addr)
    ensures Has(Run(c2, Lines(b.kids, |p| + 2), addr), c, p, x[n.name := n.(dir := Build(b.kids, addr))])
  {
    KidsPut(c, c2, Run(c2, Lines(b.kids, |p| + 2), addr), p, x[n.name := n], n.name, Build(b.kids, addr));
    PutTwice(x, n.name, n, Build(b.kids, addr));
  }

  /** Reading one node and its children into a directory that holds x so far. */
  lemma BranchRead(c: Cursor, c1: Cursor, p: seq<string>, x: Dir, b: Branch, addr: Option<Address>)
    requires At(c.tree, p).Some? && Has(Reading(c1), c, p, x) && LineFits(b, |p| + 1)
    requires b.kids != [] ==> KidsRead(Added(c1, p, Placed(Bare(b), addr)), b, p + [b.node.name], addr)
    ensures Has(Run(c1, [Line(b, |p| + 1)] + Lines(b.kids, |p| + 2), addr), c, p,
                x[b.node.name := Placed(Bare(b), addr).(dir := Build(b.kids, addr))])
  {
    var n := Placed(Bare(b), addr);
    NodeRead(c, c1, p, x, b, addr);
    RunPlus(c1, [Line(b, |p| + 1)], Lines(b.kids, |p| + 2), addr);
    if b.kids != [] {
      ParentRead(c, Added(c1, p, n), p, x, n, b, addr);
    } else {
      assert n.(dir := Build(b.kids, addr)) == n;
    }
  }

  /** The lines of some siblings, read into an empty directory, build what they describe. */
  lemma {:induction false} SiblingsRead(c: Cursor, s: seq<Branch>, p: seq<string>, addr: Option<Address>)
    requires Ready(c, p) && At(c.tree, p) == Some(map[]) && Fits(s, |p| + 1)
    ensures Has(Run(c, Lines(s, |p| + 1), addr), c, p, Build(s, addr))
    decreases s
  {
    if s == [] {
      SetBack(c.tree, p);
    } else {
      var b, s0 := s[|s| - 1], s[..|s| - 1];
      SiblingsRead(c, s0, p, addr);
      var c1 := Run(c, Lines(s0, |p| + 1), addr).at;
      if b.kids != [] {
        ChildrenRead(c1, b, p, addr);
      }
      BranchRead(c, c1, p, Build(s0, addr), b, addr);
      RunPlus(c, Lines(s0, |p| + 1), [Line(b, |p| + 1)] + Lines(b.kids, |p| + 2), addr);
    }
  }

  lemma {:induction false} ChildrenRead(c: Cursor, b: Branch, p: seq<string>, addr: Option<Address>)
    requires Ready(c, p) && b.kids != [] && Fits(b.kids, |p| + 2)
    ensures KidsRead(Added(c, p, Placed(Bare(b), addr)), b, p + [b.node.name], addr)
    decreases b
  {
    var n := Placed(Bare(b), addr);
    KidsFit(b.kids, |p| + 2);
    AddedReady(c, p, n);
    SiblingsRead(Added(c, p, n), b.kids, p + [n.name], addr);
  }

  lemma KidsFit(s: seq<Branch>, level: int)
    requires s != [] && Fits(s, level)
    ensures level < DEPTH
  {
  }

  lemma {:induction false} SetBack(d: Dir, p: seq<string>)
    requires At(d, p).Some?
    ensures SetAt(d, p, At(d, p).value) == d
    decreases |p|
  {
    if p != [] {
      SetBack(d[p[0]].dir, p[1..]);
    }
  }

  // ----- The round trip

  /** The tree with every file on the given slave only; without one, the tree itself. */
  ghost function Moved(d: Dir, addr: Option<Address>, h: nat): Dir
    requires Tree(d, h)
    decreases h
  {
    map k | k in d :: Placed(d[k], addr).(dir := Moved(d[k].dir, addr, h - 1))
  }

  /** Directories are as they were. */
  lemma {:induction false} MovedDirs(d: Dir, addr: Option<Address>, h: nat, path: seq<string>)
    requires Tree(d, h)
    ensures DirAt(Moved(d, addr, h), path) == DirAt(d, path)
    decreases h
  {
    if path != [] && path[0] in d && |path| > 1 {
      MovedDirs(d[path[0]].dir, addr, h - 1, path[1..]);
    }
  }

  /** Each file has its size and time, and its locations or just the given one. */
  lemma {:induction false} MovedAt(d: Dir, addr: Option<Address>, h: nat, path: seq<string>)
    requires Tree(d, h)
    ensures FileAt(Moved(d, addr, h), path) ==
      if FileAt(d, path).Some? && addr.Some? then Some(FileAt(d, path).value.(locs := {addr.value}))
      else FileAt(d, path)
    decreases h
  {
    if path != [] && path[0] in d {
      MovedAt(d[path[0]].dir, addr, h - 1, path[1..]);
    }
  }

  lemma {:induction false} MovedNowhere(d: Dir, h: nat)
    requires Tree(d, h)
    ensures Moved(d, None, h) == d
    decreases h
  {
    forall k | k in d ensures Moved(d, None, h)[k] == d[k] {
      MovedNowhere(d[k].dir, h - 1);
    }
  }

  lemma NamesFront(s: seq<Branch>)
    requires s != []
    ensures Names(s) == Names(s[..|s| - 1]) + {s[|s| - 1].node.name}
  {
    NamesPlus(s[..|s| - 1], s[|s| - 1]);
    assert s[..|s| - 1] + [s[|s| - 1]] == s;
  }

  ghost predicate Covers(s: seq<Branch>, d: Dir, addr: Option<Address>, h: nat)
    requires Tree(d, h)
  {
    Build(s, addr).Keys == Names(s) <= d.Keys && forall k :: k in Names(s) ==> Build(s, addr)[k] == Moved(d, addr, h)[k]
  }

  /** What the printed lines describe is the tree that was printed. */
  lemma {:induction false} BuildIs(s: seq<Branch>, d: Dir, addr: Option<Address>, h: nat)
    requires Tree(d, h) && Listing(s, d, h)
    ensures Covers(s, d, addr, h)
    decreases h, |s|
  {
    if s != [] {
      var b := s[|s| - 1];
      var k := b.node.name;
      assert Stands(b, d[k], h - 1);
      BuildIs(s[..|s| - 1], d, addr, h);
      BuildIs(b.kids, d[k].dir, addr, h - 1);
      CoversAll(b.kids, d[k].dir, addr, h - 1);
      SameLocs(b, d[k]);
      NamesFront(s);
    }
  }

  /** A directory that is covered whole. */
  lemma CoversAll(s: seq<Branch>, d: Dir, addr: Option<Address>, h: nat)
    requires Tree(d, h) && Names(s) == d.Keys && Covers(s, d, addr, h)
    ensures Build(s, addr) == Moved(d, addr, h)
  {
    assert Build(s, addr).Keys == Moved(d, addr, h).Keys;
  }

  lemma SameLocs(b: Branch, n: Node)
    requires b.node == n && Lists(b.locs, n.locs)
    ensures Bare(b) == n.(dir := map[])
  {
    assert Elements(b.locs) == n.locs;
  }

  lemma FileBuilds(s: seq<Branch>, addr: Option<Address>)
    requires Fits(s, 1)
    ensures var r := ReadAll(Start(map[]), File(Lines(s, 1)), addr);
      r.Reading? && r.at.tree == Build(s, addr)
  {
    SiblingsRead(Start(map[]), s, [], addr);
    LinesFit(s, 1);
    FileRead(Start(map[]), Lines(s, 1), addr);
  }

  /** A printed tree reads back, into an empty one, as the same tree; and on behalf of a slave, as
      the tree with every file on that slave. */
  lemma RoundTrip(d: Dir, h: nat, s: seq<Branch>, addr: Option<Address>)
    requires Tree(d, h) && Listing(s, d, h) && Names(s) == d.Keys && Fits(s, 1)
    ensures var r := ReadAll(Start(map[]), File(Lines(s, 1)), addr);
      r.Reading? && r.at.tree == if addr.None? then d else Moved(d, addr, h)
  {
    FileBuilds(s, addr);
    BuildIs(s, d, addr, h);
    BuiltIsMoved(s, d, addr, h);
    if addr.None? {
      MovedNowhere(d, h);
    }
  }

  lemma BuiltIsMoved(s: seq<Branch>, d: Dir, addr: Option<Address>, h: nat)
    requires Tree(d, h) && Covers(s, d, addr, h) && Names(s) == d.Keys
    ensures Build(s, addr) == Moved(d, addr, h)
  {
  }

  lemma ShortPlus(a: seq<string>, x: string, b: seq<string>)
    requires AllShort(a) && AllShort(b) && ShortLine(x)
    ensures AllShort(a + ([x] + b))
  {
  }

  lemma {:induction false} LinesFit(s: seq<Branch>, level: int)
    requires Fits(s, level)
    ensures AllShort(Lines(s, level))
    decreases s
  {
    if s != [] {
      var b := s[|s| - 1];
      LinesFit(s[..|s| - 1], level);
      LinesFit(b.kids, level + 1);
      ShortPlus(Lines(s[..|s| - 1], level), Line(b, level), Lines(b.kids, level + 1));
    }
  }
}
