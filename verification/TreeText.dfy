/** The text form of a metadata tree: one line per node, in preorder, each with its level. */
module TreeText {
  import opened Options
  import opened Seqs
  import opened Metadata
  import opened NodeText

  /** The subtree at a path of directories. */
  function At(d: Dir, path: seq<string>): Option<Dir>
    decreases |path|
  {
    if path == [] then Some(d)
    else if path[0] !in d then None
    else At(d[path[0]].dir, path[1..])
  }

  /** The tree with another subtree at a path. */
  function SetAt(d: Dir, path: seq<string>, x: Dir): Dir
    requires At(d, path).Some?
    decreases |path|
  {
    if path == [] then x else d[path[0] := d[path[0]].(dir := SetAt(d[path[0]].dir, path[1..], x))]
  }

  lemma {:induction false} AtSet(d: Dir, path: seq<string>, x: Dir)
    requires At(d, path).Some?
    ensures At(SetAt(d, path, x), path) == Some(x)
    decreases |path|
  {
    if path != [] {
      AtSet(d[path[0]].dir, path[1..], x);
    }
  }

  lemma {:induction false} SetSet(d: Dir, path: seq<string>, x: Dir, y: Dir)
    requires At(d, path).Some? && At(SetAt(d, path, x), path).Some?
    ensures SetAt(SetAt(d, path, x), path, y) == SetAt(d, path, y)
    decreases |path|
  {
    if path != [] {
      SetSet(d[path[0]].dir, path[1..], x, y);
    }
  }

  lemma {:induction false} AtPlus(d: Dir, path: seq<string>, k: string)
    requires At(d, path).Some?
    ensures At(d, path + [k]) == if k in At(d, path).value then Some(At(d, path).value[k].dir) else None
    decreases |path|
  {
    if path != [] {
      assert (path + [k])[1..] == path[1..] + [k];
      AtPlus(d[path[0]].dir, path[1..], k);
    } else {
      assert (path + [k])[1..] == [];
    }
  }

  lemma {:induction false} SetPlus(d: Dir, path: seq<string>, k: string, x: Dir)
    requires At(d, path).Some? && k in At(d, path).value && At(d, path + [k]).Some?
    ensures SetAt(d, path + [k], x) == SetAt(d, path, At(d, path).value[k := At(d, path).value[k].(dir := x)])
    decreases |path|
  {
    if path != [] {
      assert (path + [k])[1..] == path[1..] + [k];
      SetPlus(d[path[0]].dir, path[1..], k, x);
    } else {
      assert (path + [k])[1..] == [];
    }
  }

  // ----- The reader

  const DEPTH := 1024
  const LINE := 4095

  /** The reader between two lines: the tree so far, the directory that it stands in, its level,
      and the last name seen at each level. */
  datatype Cursor = Cursor(tree: Dir, path: seq<string>, level: int, dirs: seq<string>) {
    predicate Valid() { At(tree, path).Some? && |dirs| == DEPTH && 0 <= level < DEPTH }

    function Here(): Dir
      requires Valid()
    {
      At(tree, path).value
    }

    /** Puts a node into the current directory. */
    function Insert(n: Node): Cursor
      requires Valid()
    {
      Cursor(SetAt(tree, path, Here()[n.name := n]), path, level, dirs[level := n.name])
    }
  }

  /** Some texts make the reader follow a missing entry or leave its table of names, and a line that
      does not fit into its buffer makes it loop for ever. */
  datatype Result = Reading(at: Cursor) | Undefined | Endless

  const Fresh := Node("", false, 0, 0, {}, map[])

  /** A node that is read on behalf of a slave lives on that slave, if it is a file. */
  function Placed(n: Node, addr: Option<Address>): Node {
    if !n.isDir && addr.Some? then n.(locs := {addr.value}) else n
  }

  function Step(c: Cursor, line: string, addr: Option<Address>): (r: Result)
    requires c.Valid()
  {
    if line == "" || |line| >= LINE then Reading(c)
    else
      var f := Split(line, ' ');
      StepTo(c, Atoi(f.text), Placed(Read(Fresh, f.rest).node, addr))
  }

  function StepTo(c: Cursor, level: int, n: Node): (r: Result)
    requires c.Valid()
  {
    if level == c.level then Reading(c.Insert(n))
    else if level == c.level + 1 then
      if c.dirs[c.level] !in c.Here() || level >= DEPTH then Undefined
      else
        AtPlus(c.tree, c.path, c.dirs[c.level]);
        Reading(c.(path := c.path + [c.dirs[c.level]], level := level).Insert(n))
    else if level < c.level then
      var path := if level < 1 then [] else c.dirs[1..level];
      if level < 0 || At(c.tree, path).None? then Undefined
      else Reading(c.(path := path, level := level).Insert(n))
    else Reading(c)
  }

  lemma StepToValid(c: Cursor, level: int, n: Node)
    requires c.Valid() && StepTo(c, level, n).Reading?
    ensures StepTo(c, level, n).at.Valid()
  {
    AtSet(c.tree, c.path, c.Here()[n.name := n]);
    if level == c.level + 1 {
      var c' := c.(path := c.path + [c.dirs[c.level]], level := level);
      AtPlus(c.tree, c.path, c.dirs[c.level]);
      AtSet(c.tree, c'.path, c'.Here()[n.name := n]);
    } else if level < c.level {
      var c' := c.(path := if level < 1 then [] else c.dirs[1..level], level := level);
      AtSet(c.tree, c'.path, c'.Here()[n.name := n]);
    }
  }

  /** Reading a file, line by line, up to its end. */
  function ReadAll(c: Cursor, text: string, addr: Option<Address>): (r: Result)
    requires c.Valid()
    ensures r.Reading? ==> r.at.Valid()
    decreases |text|
  {
    var f := Split(text, '\n');
    if |f.text| > LINE then Endless
    else
      StepValid(c, f.text, addr);
      var r := Step(c, f.text, addr);
      if !r.Reading? || f.stop then r else ReadAll(r.at, f.rest, addr)
  }

  lemma StepValid(c: Cursor, line: string, addr: Option<Address>)
    requires c.Valid()
    ensures Step(c, line, addr).Reading? ==> Step(c, line, addr).at.Valid()
  {
    if Step(c, line, addr).Reading? && line != "" && |line| < LINE {
      var f := Split(line, ' ');
      StepToValid(c, Atoi(f.text), Placed(Read(Fresh, f.rest).node, addr));
    }
  }

  function Start(tree: Dir): (c: Cursor)
    ensures c.Valid()
  {
    Cursor(tree, [], 1, seq(DEPTH, i => ""))
  }

  lemma PrefixPlus(dirs: seq<string>, i: nat)
    requires 1 <= i < |dirs|
    ensures dirs[1..i] + [dirs[i]] == dirs[1..i + 1]
  {
    var a, b := dirs[1..i] + [dirs[i]], dirs[1..i + 1];
    assert |a| == |b|;
    assert forall k :: 0 <= k < |a| ==> a[k] == b[k];
  }

  lemma PrefixRest(dirs: seq<string>, i: nat, level: nat)
    requires 1 <= i <= level <= |dirs|
    ensures dirs[1..i] + dirs[i..level] == dirs[1..level]
  {
    var a, b := dirs[1..i] + dirs[i..level], dirs[1..level];
    assert |a| == |b|;
    assert forall k :: 0 <= k < |a| ==> a[k] == b[k];
  }

  /** The walk from the root to the directory that a line of a lower level belongs to. */
  method Descend(tree: Dir, dirs: seq<string>, level: int) returns (path: seq<string>, currdir: Dir, ok: bool)
    requires |dirs| == DEPTH && level < DEPTH
    ensures var p := if level < 1 then [] else dirs[1..level];
      ok == At(tree, p).Some? && (ok ==> path == p && currdir == At(tree, p).value)
  {
    path, currdir := [], tree;
    var i := 1;
    while i < level
      invariant 1 <= i && (i <= level || i == 1) && path == dirs[1..i]
      invariant At(tree, path) == Some(currdir)
    {
      AtPlus(tree, path, dirs[i]);
      if dirs[i] !in currdir {
        Missing(tree, path, dirs[i..level]);
        PrefixRest(dirs, i, level);
        return path, currdir, false;
      }
      PrefixPlus(dirs, i);
      path, currdir := path + [dirs[i]], currdir[dirs[i]].dir;
      i := i + 1;
    }
    ok := true;
  }

  lemma {:induction false} Missing(d: Dir, path: seq<string>, more: seq<string>)
    requires At(d, path).Some? && more != [] && more[0] !in At(d, path).value
    ensures At(d, path + more).None?
    decreases |path|
  {
    if path != [] {
      assert (path + more)[1..] == path[1..] + more;
      Missing(d[path[0]].dir, path[1..], more);
    } else {
      assert path + more == more;
    }
  }

  /** One line of deserialize. */
  method ReadLine(c: Cursor, buf: string, addr: Option<Address>) returns (r: Result)
    requires c.Valid()
    ensures r == Step(c, buf, addr)
  {
    if buf == "" || |buf| >= LINE {
      return Reading(c);
    }
    var text, rest, _ := Field(buf, ' ');
    var level := Atoi(text);
    var _, sn := Deserialize(Fresh, rest);
    if !sn.isDir && addr.Some? {
      sn := sn.(locs := {addr.value});
    }
    var currdir := At(c.tree, c.path).value;
    if level == c.level {
      return Reading(Cursor(SetAt(c.tree, c.path, currdir[sn.name := sn]), c.path, level, c.dirs[level := sn.name]));
    } else if level == c.level + 1 {
      if c.dirs[c.level] !in currdir || level >= DEPTH {
        return Undefined;
      }
      var path := c.path + [c.dirs[c.level]];
      AtPlus(c.tree, c.path, c.dirs[c.level]);
      currdir := currdir[c.dirs[c.level]].dir;
      return Reading(Cursor(SetAt(c.tree, path, currdir[sn.name := sn]), path, level, c.dirs[level := sn.name]));
    } else if level < c.level {
      var path, dir, ok := Descend(c.tree, c.dirs, level);
      if !ok || level < 0 {
        return Undefined;
      }
      return Reading(Cursor(SetAt(c.tree, path, dir[sn.name := sn]), path, level, c.dirs[level := sn.name]));
    }
    return Reading(c);
  }

  /** deserialize: reads lines until the end of the file. */
  method DeserializeTree(metadata: Dir, file: string, addr: Option<Address>) returns (r: Result)
    ensures r == ReadAll(Start(metadata), file, addr)
  {
    var c, text, eof := Start(metadata), file, false;
    while !eof
      invariant c.Valid()
      invariant ReadAll(Start(metadata), file, addr) == if eof then Reading(c) else ReadAll(c, text, addr)
      decreases !eof, |text|
    {
      var line, rest, last := Field(text, '\n');
      if |line| > LINE {
        return Endless;
      }
      StepValid(c, line, addr);
      var s := ReadLine(c, line, addr);
      if !s.Reading? {
        return s;
      }
      c, text, eof := s.at, rest, last;
    }
    r := Reading(c);
  }

  // ----- The printer

  /** A node as it is printed: its locations in some order, its children in some order. */
  datatype Branch = Branch(node: Node, locs: seq<Address>, kids: seq<Branch>)

  function Line(b: Branch, level: int): string { Printed(level) + " " + Text(b.node, b.locs) }

  /** The lines of some siblings and of what is below them. */
  function Lines(s: seq<Branch>, level: int): seq<string> {
    if s == [] then []
    else
      var b := s[|s| - 1];
      Lines(s[..|s| - 1], level) + ([Line(b, level)] + Lines(b.kids, level + 1))
  }

  /** The lines of a file, each ended by a newline. */
  function File(lines: seq<string>): string {
    if lines == [] then "" else lines[0] + "\n" + File(lines[1..])
  }

  lemma {:induction false} FilePlus(a: seq<string>, b: seq<string>)
    ensures File(a + b) == File(a) + File(b)
  {
    if a == [] {
      assert a + b == b;
    } else {
      assert (a + b)[1..] == a[1..] + b;
      FilePlus(a[1..], b);
      Assoc(a[0] + "\n", File(a[1..]), File(b));
    }
  }

  /** The siblings stand for entries of d. */
  ghost predicate Listing(s: seq<Branch>, d: Dir, h: nat)
    requires Tree(d, h)
    decreases h, 1, |s|
  {
    forall i :: 0 <= i < |s| ==> s[i].node.name in d && Stands(s[i], d[s[i].node.name], h - 1)
  }

  ghost predicate Stands(b: Branch, n: Node, h: nat)
    requires Tree(n.dir, h)
    decreases h, 2
  {
    && b.node == n && Lists(b.locs, n.locs) && Names(b.kids) == n.dir.Keys && Listing(b.kids, n.dir, h)
  }

  ghost function Names(s: seq<Branch>): set<string> { set i | 0 <= i < |s| :: s[i].node.name }

  /** The file of a tree, with its entries in some order. */
  ghost predicate IsFile(text: string, d: Dir, level: int, h: nat)
    requires Tree(d, h)
  {
    exists s :: Listing(s, d, h) && Names(s) == d.Keys && text == File(Lines(s, level))
  }

  lemma NamesPlus(s: seq<Branch>, b: Branch)
    ensures Names(s + [b]) == Names(s) + {b.node.name}
  {
    var t := s + [b];
    forall x | x in Names(s) + {b.node.name} ensures x in Names(t) {
      if x in Names(s) {
        var i :| 0 <= i < |s| && s[i].node.name == x;
        assert t[i].node.name == x;
      } else {
        assert t[|s|].node.name == x;
      }
    }
  }

  /** One round of serialize: an entry and what is below it. */
  method SerializeEntry(n: Node, level: int, ghost h: nat) returns (text: string, ghost b: Branch)
    requires Tree(n.dir, h) && (!n.isDir ==> n.dir == map[])
    ensures Stands(b, n, h) && text == Line(b, level) + "\n" + File(Lines(b.kids, level + 1))
    decreases h, 3
  {
    var buf, locs := Serialize(n);
    text := Printed(level) + " " + buf + "\n";
    b := Branch(n, locs, []);
    if n.isDir {
      var more, kids := SerializeTree(n.dir, level + 1, h);
      text := text + more;
      b := Branch(n, locs, kids);
    }
  }

  /** Between two rounds of serialize. */
  ghost predicate PrintedSoFar(d: Dir, h: nat, level: int, done: set<string>, text: string, s: seq<Branch>)
    requires Tree(d, h)
  {
    Listing(s, d, h) && Names(s) == done && text == File(Lines(s, level))
  }

  lemma PrintedPlus(d: Dir, h: nat, level: int, done: set<string>, text: string, s: seq<Branch>,
                    i: string, b: Branch, buf: string)
    requires Tree(d, h) && PrintedSoFar(d, h, level, done, text, s)
    requires i in d && Stands(b, d[i], h - 1) && buf == Line(b, level) + "\n" + File(Lines(b.kids, level + 1))
    ensures PrintedSoFar(d, h, level, done + {i}, text + buf, s + [b])
  {
    Assoc(text, Line(b, level) + "\n", File(Lines(b.kids, level + 1)));
    EntryText(s, b, level);
    NamesPlus(s, b);
    ListingPlus(d, h, s, i, b);
  }

  lemma ListingPlus(d: Dir, h: nat, s: seq<Branch>, i: string, b: Branch)
    requires Tree(d, h) && Listing(s, d, h) && i in d && Stands(b, d[i], h - 1)
    ensures Listing(s + [b], d, h) && b.node.name == i
  {
  }

  /** serialize: prints the entries of a directory, and below each directory its children. */
  method SerializeTree(currdir: Dir, level: int, ghost h: nat) returns (text: string, ghost s: seq<Branch>)
    requires Tree(currdir, h)
    ensures Listing(s, currdir, h) && Names(s) == currdir.Keys && text == File(Lines(s, level))
    ensures IsFile(text, currdir, level, h)
    decreases h, 2
  {
    text, s := "", [];
    var todo := currdir.Keys;
    ghost var done: set<string> := {};
    while todo != {}
      invariant todo <= currdir.Keys && done == currdir.Keys - todo
      invariant PrintedSoFar(currdir, h, level, done, text, s)
      decreases todo
    {
      var i :| i in todo;
      var buf, b := SerializeEntry(currdir[i], level, h - 1);
      PrintedPlus(currdir, h, level, done, text, s, i, b, buf);
      text, s, todo, done := text + buf, s + [b], todo - {i}, done + {i};
    }
  }

  lemma EntryText(s: seq<Branch>, b: Branch, level: int)
    ensures File(Lines(s + [b], level)) ==
      File(Lines(s, level)) + (Line(b, level) + "\n") + File(Lines(b.kids, level + 1))
  {
    var kids, one := Lines(b.kids, level + 1), [Line(b, level)];
    assert (s + [b])[..|s|] == s;
    FilePlus(Lines(s, level), one + kids);
    FilePlus(one, kids);
    assert File(one) == Line(b, level) + "\n" by {
      assert one[1..] == [];
      assert File([]) == "";
    }
    Assoc(File(Lines(s, level)), File(one), File(kids));
  }
}
