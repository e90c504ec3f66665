/** The metadata tree of a master: directories and files, each file with the slaves that hold it. */
module Metadata {
  import opened Options
  import opened Sums

  datatype Address = Address(ip: string, port: int)

  datatype Node = Node(name: string, isDir: bool, time: int, size: int, locs: set<Address>, dir: map<string, Node>)

  type Dir = map<string, Node>

  /** A tree of at most h levels: entries are filed under their own names, and files have no
      children. Every tree has some height. */
  ghost predicate Tree(d: Dir, h: nat)
    decreases h
  {
    forall k :: k in d ==>
      h > 0 && d[k].name == k && Tree(d[k].dir, h - 1) && (!d[k].isDir ==> d[k].dir == map[])
  }

  // ----- Merging a slave's branch

  /** Branch file b can become a replica of file c. */
  predicate Joins(c: Node, b: Node, replica: nat) {
    !b.isDir && !c.isDir && b.size == c.size && b.time == c.time && |c.locs| < replica
  }

  /** The tree after a merge. */
  ghost function Merged(c: Dir, b: Dir, replica: nat, h: nat): Dir
    requires Tree(c, h) && Tree(b, h)
    decreases h, 0
  {
    map k | k in c.Keys + b.Keys ::
      if k !in b then c[k] else if k !in c then b[k] else MergedNode(c[k], b[k], replica, h - 1)
  }

  ghost function MergedNode(c: Node, b: Node, replica: nat, h: nat): Node
    requires Tree(c.dir, h) && Tree(b.dir, h)
    decreases h, 1
  {
    if b.isDir && c.isDir then c.(dir := Merged(c.dir, b.dir, replica, h))
    else if Joins(c, b, replica) then c.(locs := c.locs + b.locs)
    else c
  }

  /** What is left of the branch. */
  ghost function Rest(c: Dir, b: Dir, replica: nat, h: nat): Dir
    requires Tree(c, h) && Tree(b, h)
    decreases h, 0
  {
    map k | k in b && k in c && !Joins(c[k], b[k], replica) :: RestNode(c[k], b[k], replica, h - 1)
  }

  ghost function RestNode(c: Node, b: Node, replica: nat, h: nat): Node
    requires Tree(c.dir, h) && Tree(b.dir, h)
    decreases h, 1
  {
    if b.isDir && c.isDir then b.(dir := Rest(c.dir, b.dir, replica, h)) else b
  }

  lemma MergedTree(c: Dir, b: Dir, replica: nat, h: nat)
    requires Tree(c, h) && Tree(b, h)
    ensures Tree(Merged(c, b, replica, h), h) && Tree(Rest(c, b, replica, h), h)
    decreases h, 0
  {
    forall k | k in c && k in b
      ensures h > 0 && Tree(MergedNode(c[k], b[k], replica, h - 1).dir, h - 1)
      ensures h > 0 && Tree(RestNode(c[k], b[k], replica, h - 1).dir, h - 1)
    {
      NodeTree(c[k], b[k], replica, h - 1);
    }
  }

  lemma NodeTree(c: Node, b: Node, replica: nat, h: nat)
    requires Tree(c.dir, h) && Tree(b.dir, h)
    ensures Tree(MergedNode(c, b, replica, h).dir, h) && Tree(RestNode(c, b, replica, h).dir, h)
    decreases h, 1
  {
    MergedTree(c.dir, b.dir, replica, h);
  }

  /** Two entries of the same name. `gone` says that the branch gives its entry up. */
  method MergeEntry(c: Node, b: Node, replica: nat, ghost h: nat) returns (c': Node, b': Node, gone: bool)
    requires Tree(c.dir, h) && Tree(b.dir, h)
    ensures c' == MergedNode(c, b, replica, h) && b' == RestNode(c, b, replica, h) && gone == Joins(c, b, replica)
    decreases h, 4
  {
    c', b', gone := c, b, false;
    if b.isDir && c.isDir {
      var d, e := Merge(c.dir, b.dir, replica, h);
      c', b' := c.(dir := d), b.(dir := e);
    } else if Joins(c, b, replica) {
      c', gone := c.(locs := c.locs + b.locs), true;
    }
  }

  /** Between two rounds of merge, in the tree: the entries still to do are as they were, the
      others are those of m. */
  ghost predicate TreePart(c0: Dir, keys: set<string>, m: Dir, todo: set<string>, c: Dir) {
    && todo <= keys && c.Keys == c0.Keys + (keys - todo) && c.Keys <= m.Keys
    && (forall k :: k in c ==> c[k] == if k in todo then c0[k] else m[k])
  }

  /** ... and in the branch: of the entries done, those of r are kept and the others marked. */
  ghost predicate BranchPart(b0: Dir, r: Dir, todo: set<string>, tbd: set<string>, b: Dir) {
    && todo <= b0.Keys && tbd <= b0.Keys - todo && b.Keys == b0.Keys
    && (forall k :: k in todo ==> b[k] == b0[k])
    && (forall k :: k in b0.Keys - todo ==> (k in tbd <==> k !in r))
    && (forall k :: k in b0.Keys - todo - tbd ==> b[k] == r[k])
  }

  lemma TreeRound(c0: Dir, keys: set<string>, m: Dir, todo: set<string>, c: Dir, i: string, n: Node)
    requires TreePart(c0, keys, m, todo, c) && i in todo && i in m && n == m[i]
    ensures TreePart(c0, keys, m, todo - {i}, c[i := n])
  {
  }

  lemma BranchRound(b0: Dir, r: Dir, todo: set<string>, tbd: set<string>, b: Dir, i: string, n: Node, gone: bool)
    requires BranchPart(b0, r, todo, tbd, b) && i in todo && gone == (i !in r) && (!gone ==> n == r[i])
    ensures BranchPart(b0, r, todo - {i}, if gone then tbd + {i} else tbd, b[i := n])
  {
  }

  /** One round of merge: the entry of name i. */
  method MergeOne(c0: Dir, b0: Dir, replica: nat, ghost h: nat, i: string) returns (c: Node, b: Node, gone: bool)
    requires Tree(c0, h) && Tree(b0, h) && i in b0
    ensures c == Merged(c0, b0, replica, h)[i] && gone == (i !in Rest(c0, b0, replica, h))
    ensures !gone ==> b == Rest(c0, b0, replica, h)[i]
    decreases h, 2
  {
    if i !in c0 {
      c, b, gone := b0[i], b0[i], true;
    } else {
      c, b, gone := MergeEntry(c0[i], b0[i], replica, h - 1);
    }
  }

  /** Between two rounds of merge. */
  ghost predicate Merging(c0: Dir, b0: Dir, m: Dir, r: Dir, todo: set<string>, tbd: set<string>, c: Dir, b: Dir) {
    TreePart(c0, b0.Keys, m, todo, c) && BranchPart(b0, r, todo, tbd, b)
  }

  lemma MergeStart(c0: Dir, b0: Dir, m: Dir, r: Dir)
    requires c0.Keys <= m.Keys && forall k :: k in c0 && k !in b0 ==> m[k] == c0[k]
    ensures Merging(c0, b0, m, r, b0.Keys, {}, c0, b0)
  {
  }

  lemma MergeRound(c0: Dir, b0: Dir, m: Dir, r: Dir, todo: set<string>, tbd: set<string>, c: Dir, b: Dir,
                   i: string, d: Node, e: Node, gone: bool)
    requires Merging(c0, b0, m, r, todo, tbd, c, b) && i in todo && i in m && d == m[i]
    requires gone == (i !in r) && (!gone ==> e == r[i])
    ensures Merging(c0, b0, m, r, todo - {i}, if gone then tbd + {i} else tbd, c[i := d], b[i := e])
  {
    TreeRound(c0, b0.Keys, m, todo, c, i, d);
    BranchRound(b0, r, todo, tbd, b, i, e, gone);
  }

  lemma MergeEnd(c0: Dir, b0: Dir, m: Dir, r: Dir, tbd: set<string>, c: Dir, b: Dir)
    requires Merging(c0, b0, m, r, {}, tbd, c, b) && r.Keys <= b0.Keys && m.Keys == c0.Keys + b0.Keys
    ensures c == m && b - tbd == r
  {
    BranchEnd(b0, r, tbd, b);
  }

  lemma BranchEnd(b0: Dir, r: Dir, tbd: set<string>, b: Dir)
    requires BranchPart(b0, r, {}, tbd, b) && r.Keys <= b0.Keys
    ensures b - tbd == r
  {
    assert (b - tbd).Keys == r.Keys;
  }

  /** merge: walks over the branch and changes both trees. */
  method Merge(currdir: Dir, branch: Dir, replica: nat, ghost h: nat) returns (c: Dir, b: Dir)
    requires Tree(currdir, h) && Tree(branch, h)
    ensures c == Merged(currdir, branch, replica, h) && b == Rest(currdir, branch, replica, h)
    decreases h, 3
  {
    c, b := currdir, branch;
    var tbd, todo := {}, branch.Keys;
    ghost var m, r := Merged(currdir, branch, replica, h), Rest(currdir, branch, replica, h);
    MergeStart(currdir, branch, m, r);
    while todo != {}
      invariant todo <= branch.Keys && Merging(currdir, branch, m, r, todo, tbd, c, b)
      decreases todo
    {
      var i :| i in todo;
      var d, e, gone := MergeOne(currdir, branch, replica, h, i);
      MergeRound(currdir, branch, m, r, todo, tbd, c, b, i, d, e, gone);
      c, b, todo := c[i := d], b[i := e], todo - {i};
      if gone {
        tbd := tbd + {i};
      }
    }
    MergeEnd(currdir, branch, m, r, tbd, c, b);
    b := b - tbd;
  }

  // ----- Taking a lost slave out

  ghost function Subtracted(d: Dir, a: Address, h: nat): Dir
    requires Tree(d, h)
    decreases h
  {
    map k | k in d && (d[k].isDir || d[k].locs - {a} != {}) ::
      if d[k].isDir then d[k].(dir := Subtracted(d[k].dir, a, h - 1)) else d[k].(locs := d[k].locs - {a})
  }

  lemma SubtractedTree(d: Dir, a: Address, h: nat)
    requires Tree(d, h)
    ensures Tree(Subtracted(d, a, h), h)
    decreases h
  {
    forall k | k in d ensures Tree(Subtracted(d[k].dir, a, h - 1), h - 1) {
      SubtractedTree(d[k].dir, a, h - 1);
    }
  }

  /** One entry. `gone` says that nobody holds it any more. */
  method SubtractEntry(n: Node, a: Address, ghost h: nat) returns (n': Node, gone: bool)
    requires Tree(n.dir, h)
    ensures gone <==> !n.isDir && n.locs - {a} == {}
    ensures n' == if n.isDir then n.(dir := Subtracted(n.dir, a, h)) else n.(locs := n.locs - {a})
    decreases h, 1
  {
    n', gone := n, false;
    if !n.isDir {
      n' := n.(locs := n.locs - {a});
      gone := n'.locs == {};
    } else {
      var c' := Subtract(n.dir, a, h);
      n' := n.(dir := c');
    }
  }

  /** substract: drops the address from every file and removes the files that nobody holds. */
  method Subtract(currdir: Dir, a: Address, ghost h: nat) returns (c: Dir)
    requires Tree(currdir, h)
    ensures c == Subtracted(currdir, a, h)
    decreases h, 0
  {
    c := currdir;
    var tbd, todo := {}, currdir.Keys;
    ghost var s := Subtracted(currdir, a, h);
    while todo != {}
      invariant BranchPart(currdir, s, todo, tbd, c)
      decreases todo
    {
      var i :| i in todo;
      var n, gone := SubtractEntry(currdir[i], a, h - 1);
      BranchRound(currdir, s, todo, tbd, c, i, n, gone);
      c, todo := c[i := n], todo - {i};
      if gone {
        tbd := tbd + {i};
      }
    }
    BranchEnd(currdir, s, tbd, c);
    c := c - tbd;
  }

  // ----- What the tree says about one path

  /** A file as its readers see it. */
  datatype Info = Info(size: int, time: int, locs: set<Address>)

  /** The file at a path, if there is one. */
  function FileAt(d: Dir, path: seq<string>): Option<Info>
    decreases |path|
  {
    if path == [] || path[0] !in d then None
    else
      var n := d[path[0]];
      if |path| == 1 then if n.isDir then None else Some(Info(n.size, n.time, n.locs))
      else if n.isDir then FileAt(n.dir, path[1..]) else None
  }

  /** Something in the tree is in the way of a new entry at the path: an entry there, or a file
      where a directory would have to be. */
  predicate Blocks(d: Dir, path: seq<string>)
    decreases |path|
  {
    path != [] && path[0] in d && (|path| == 1 || !d[path[0]].isDir || Blocks(d[path[0]].dir, path[1..]))
  }

  /** The branch file at the path goes into the tree. */
  predicate Absorbs(c: Dir, b: Dir, replica: nat, path: seq<string>) {
    FileAt(b, path).Some? &&
      (!Blocks(c, path) ||
       (FileAt(c, path).Some? &&
        var x, y := FileAt(c, path).value, FileAt(b, path).value;
        x.size == y.size && x.time == y.time && |x.locs| < replica))
  }

  /** merge, file by file: an absorbed file is in the tree, with its locations, and gone from the
      branch; any other branch file stays as it is; a file of the tree keeps size and time and
      only gains the locations of an absorbed one. */
  lemma {:induction false} MergeAt(c: Dir, b: Dir, replica: nat, h: nat, path: seq<string>)
    requires Tree(c, h) && Tree(b, h)
    ensures FileAt(Merged(c, b, replica, h), path) ==
      if !Absorbs(c, b, replica, path) then FileAt(c, path)
      else if FileAt(c, path).Some? then
        Some(FileAt(c, path).value.(locs := FileAt(c, path).value.locs + FileAt(b, path).value.locs))
      else FileAt(b, path)
    ensures FileAt(Rest(c, b, replica, h), path) ==
      if Absorbs(c, b, replica, path) then None else FileAt(b, path)
    decreases h
  {
    if path != [] && path[0] in c && path[0] in b {
      MergeAt(c[path[0]].dir, b[path[0]].dir, replica, h - 1, path[1..]);
    }
  }

  lemma {:induction false} SubtractAt(d: Dir, a: Address, h: nat, path: seq<string>)
    requires Tree(d, h)
    ensures FileAt(Subtracted(d, a, h), path) ==
      if FileAt(d, path).Some? && FileAt(d, path).value.locs - {a} != {} then
        Some(FileAt(d, path).value.(locs := FileAt(d, path).value.locs - {a}))
      else None
    decreases h
  {
    if path != [] && path[0] in d {
      SubtractAt(d[path[0]].dir, a, h - 1, path[1..]);
    }
  }

  // ----- What the tree says about directories

  /** The directory at a path without its entries, if there is one. */
  function DirAt(d: Dir, path: seq<string>): Option<Node>
    decreases |path|
  {
    if path == [] || path[0] !in d || !d[path[0]].isDir then None
    else if |path| == 1 then Some(d[path[0]].(dir := map[]))
    else DirAt(d[path[0]].dir, path[1..])
  }

  /** substract keeps every directory as it is, empty ones too, and makes none. */
  lemma {:induction false} SubtractDirs(d: Dir, a: Address, h: nat, path: seq<string>)
    requires Tree(d, h)
    ensures DirAt(Subtracted(d, a, h), path) == DirAt(d, path)
    decreases h
  {
    if path != [] && path[0] in d && |path| > 1 && d[path[0]].isDir {
      SubtractDirs(d[path[0]].dir, a, h - 1, path[1..]);
    }
  }

  /** merge keeps every directory of the tree as it is, and adds those of the branch where nothing is in the way;
      the rest of the branch keeps the directories that met something. */
  lemma {:induction false} MergeDirs(c: Dir, b: Dir, replica: nat, h: nat, path: seq<string>)
    requires Tree(c, h) && Tree(b, h)
    ensures DirAt(Merged(c, b, replica, h), path) == if Blocks(c, path) then DirAt(c, path) else DirAt(b, path)
    ensures DirAt(Rest(c, b, replica, h), path) == if Blocks(c, path) then DirAt(b, path) else None
    decreases h
  {
    NothingThere(c, path);
    if path != [] && path[0] in c && path[0] in b && |path| > 1 {
      MergeDirs(c[path[0]].dir, b[path[0]].dir, replica, h - 1, path[1..]);
    }
  }

  lemma {:induction false} NothingThere(c: Dir, path: seq<string>)
    ensures !Blocks(c, path) ==> DirAt(c, path) == None && FileAt(c, path) == None
    decreases |path|
  {
    if |path| > 1 && path[0] in c {
      NothingThere(c[path[0]].dir, path[1..]);
    }
  }

  /** All files of the branch live at address a, and nowhere else. */
  ghost predicate OnlyAt(b: Dir, a: Address) {
    forall path :: FileAt(b, path).Some? ==> FileAt(b, path).value.locs == {a}
  }

  /** The tree does not know address a, and every file of it is held by somebody. */
  ghost predicate Without(c: Dir, a: Address) {
    forall path :: FileAt(c, path).Some? ==> a !in FileAt(c, path).value.locs && FileAt(c, path).value.locs != {}
  }

  ghost predicate KeptAt(c: Dir, a: Address, path: seq<string>) {
    FileAt(c, path).Some? ==> a !in FileAt(c, path).value.locs && FileAt(c, path).value.locs != {}
  }

  /** Two trees with the same files. */
  ghost predicate SameFiles(c: Dir, d: Dir) { forall path :: FileAt(c, path) == FileAt(d, path) }

  lemma CancelsAt(c: Dir, b: Dir, replica: nat, h: nat, a: Address, path: seq<string>)
    requires Tree(c, h) && Tree(b, h) && OnlyAt(b, a)
    ensures Tree(Merged(c, b, replica, h), h)
    ensures FileAt(Subtracted(Merged(c, b, replica, h), a, h), path) == FileAt(c, path) <==> KeptAt(c, a, path)
  {
    MergedTree(c, b, replica, h);
    MergeAt(c, b, replica, h, path);
    SubtractAt(Merged(c, b, replica, h), a, h, path);
    if FileAt(c, path).Some? {
      var x := FileAt(c, path).value.locs;
      assert (x + {a}) - {a} == x - {a};
      assert a !in x ==> x - {a} == x;
    }
  }

  /** A slave that joins and is lost again leaves the file table as it was, if and only if the
      table did not know the slave before and every file in it was held by somebody. */
  lemma JoinAndLoss(c: Dir, b: Dir, replica: nat, h: nat, a: Address)
    requires Tree(c, h) && Tree(b, h) && OnlyAt(b, a)
    ensures Tree(Merged(c, b, replica, h), h)
    ensures SameFiles(Subtracted(Merged(c, b, replica, h), a, h), c) <==> Without(c, a)
  {
    MergedTree(c, b, replica, h);
    var s := Subtracted(Merged(c, b, replica, h), a, h);
    forall path ensures FileAt(s, path) == FileAt(c, path) <==> KeptAt(c, a, path) {
      CancelsAt(c, b, replica, h, a, path);
    }
    assert Without(c, a) <==> forall path :: KeptAt(c, a, path);
  }

  // ----- Totals

  function Under(k: string, p: seq<string>): seq<string> { [k] + p }

  ghost function Prefixed(k: string, paths: set<seq<string>>): set<seq<string>> {
    set p | p in paths :: Under(k, p)
  }

  /** The paths of the files. */
  ghost function Paths(d: Dir, h: nat): set<seq<string>>
    requires Tree(d, h)
    decreases h, 1
  {
    PathsOf(d, d.Keys, h)
  }

  ghost function PathsOf(d: Dir, keys: set<string>, h: nat): set<seq<string>>
    requires Tree(d, h) && keys <= d.Keys
    decreases h, 0
  {
    set k, p | k in keys && p in PathsAt(d[k], h - 1) :: Under(k, p)
  }

  /** The paths, below its own name, of the files that an entry stands for. */
  ghost function PathsAt(n: Node, h: nat): set<seq<string>>
    requires Tree(n.dir, h)
    decreases h, 2
  {
    if n.isDir then Paths(n.dir, h) else {[]}
  }

  lemma UnderOnce(k: string, p: seq<string>, j: string, q: seq<string>)
    ensures Under(k, p) == Under(j, q) <==> k == j && p == q
  {
    assert Under(k, p)[0] == k && Under(k, p)[1..] == p;
    assert Under(j, q)[0] == j && Under(j, q)[1..] == q;
  }

  lemma InPathsOf(d: Dir, keys: set<string>, h: nat, k: string, p: seq<string>)
    requires Tree(d, h) && keys <= d.Keys
    ensures Under(k, p) in PathsOf(d, keys, h) <==> k in keys && p in PathsAt(d[k], h - 1)
  {
    if Under(k, p) in PathsOf(d, keys, h) {
      var j, q :| j in keys && q in PathsAt(d[j], h - 1) && Under(k, p) == Under(j, q);
      UnderOnce(k, p, j, q);
    }
  }

  lemma {:induction false} PathsAreFiles(d: Dir, h: nat, path: seq<string>)
    requires Tree(d, h)
    ensures path in Paths(d, h) <==> FileAt(d, path).Some?
    decreases h
  {
    if path != [] {
      var k, p := path[0], path[1..];
      assert path == Under(k, p);
      InPathsOf(d, d.Keys, h, k, p);
      if k in d && d[k].isDir {
        PathsAreFiles(d[k].dir, h - 1, p);
      }
    }
  }

  /** What file p adds to the total data size. */
  ghost function SizeAt(d: Dir): (f: seq<string> -> int) {
    p => if FileAt(d, p).Some? then FileAt(d, p).value.size else 0
  }

  lemma PrefixedSum(k: string, s: set<seq<string>>, f: seq<string> -> int, g: seq<string> -> int)
    requires forall p :: p in s ==> g(p) == f(Under(k, p))
    ensures Sum(Prefixed(k, s), f) == Sum(s, g)
  {
    var m := p => Under(k, p);
    forall p, q | p in s && q in s && m(p) == m(q) ensures p == q {
      UnderOnce(k, p, k, q);
    }
    SumImage(s, Prefixed(k, s), m, f, g);
  }

  lemma AddEntry(d: Dir, keys: set<string>, k: string, h: nat, f: seq<string> -> int)
    requires Tree(d, h) && keys <= d.Keys && k in d && k !in keys
    ensures Sum(PathsOf(d, keys + {k}, h), f) == Sum(PathsOf(d, keys, h), f) + Sum(Prefixed(k, PathsAt(d[k], h - 1)), f)
  {
    var s, t := PathsOf(d, keys, h), Prefixed(k, PathsAt(d[k], h - 1));
    forall p | p in s ensures p !in t {
      var j, q :| j in keys && q in PathsAt(d[j], h - 1) && p == Under(j, q);
      assert p[0] == j;
    }
    assert PathsOf(d, keys + {k}, h) == s + t;
    SumUnion(s, t, f);
  }

  lemma DirSize(d: Dir, k: string, h: nat)
    requires Tree(d, h) && k in d && d[k].isDir
    ensures Sum(Prefixed(k, Paths(d[k].dir, h - 1)), SizeAt(d)) == Sum(Paths(d[k].dir, h - 1), SizeAt(d[k].dir))
  {
    var s := Paths(d[k].dir, h - 1);
    forall p | p in s ensures SizeAt(d[k].dir)(p) == SizeAt(d)(Under(k, p)) {
      PathsAreFiles(d[k].dir, h - 1, p);
      assert Under(k, p)[1..] == p;
    }
    PrefixedSum(k, s, SizeAt(d), SizeAt(d[k].dir));
  }

  lemma FileSize(d: Dir, k: string)
    requires k in d && !d[k].isDir
    ensures Sum(Prefixed(k, {[]}), SizeAt(d)) == d[k].size
  {
    var p: seq<string> := [];
    var f := (q: seq<string>) => d[k].size;
    PrefixedSum(k, {p}, SizeAt(d), f);
    SumAny({p}, f, p);
    assert {p} - {p} == {};
  }

  /** What entry k adds to the total data size. */
  lemma EntrySize(d: Dir, k: string, keys: set<string>, h: nat)
    requires Tree(d, h) && keys <= d.Keys && k in d && k !in keys
    ensures Sum(PathsOf(d, keys + {k}, h), SizeAt(d)) == Sum(PathsOf(d, keys, h), SizeAt(d)) +
      if d[k].isDir then Sum(Paths(d[k].dir, h - 1), SizeAt(d[k].dir)) else d[k].size
  {
    AddEntry(d, keys, k, h, SizeAt(d));
    if d[k].isDir {
      DirSize(d, k, h);
    } else {
      FileSize(d, k);
    }
  }

  lemma EntryCount(d: Dir, k: string, keys: set<string>, h: nat)
    requires Tree(d, h) && keys <= d.Keys && k in d && k !in keys
    ensures |PathsOf(d, keys + {k}, h)| == |PathsOf(d, keys, h)| + |PathsAt(d[k], h - 1)|
  {
    var f := (p: seq<string>) => 1;
    AddEntry(d, keys, k, h, f);
    PrefixedSum(k, PathsAt(d[k], h - 1), f, f);
    SumIsSize(PathsOf(d, keys, h), f);
    SumIsSize(PathsOf(d, keys + {k}, h), f);
    SumIsSize(PathsAt(d[k], h - 1), f);
  }

  lemma SumIsSize(s: set<seq<string>>, f: seq<string> -> int)
    requires forall p :: f(p) == 1
    ensures Sum(s, f) == |s|
  {
    SumOnes(s, f);
  }

  /** getTotalDataSize adds up the sizes of all files of the tree. */
  method TotalDataSize(currdir: Dir, ghost h: nat) returns (size: int)
    requires Tree(currdir, h)
    ensures size == Sum(Paths(currdir, h), SizeAt(currdir))
    decreases h
  {
    size := 0;
    var todo := currdir.Keys;
    ghost var done: set<string> := {};
    while todo != {}
      invariant todo <= currdir.Keys && done == currdir.Keys - todo
      invariant size == Sum(PathsOf(currdir, done, h), SizeAt(currdir))
      decreases todo
    {
      var i :| i in todo;
      EntrySize(currdir, i, done, h);
      if !currdir[i].isDir {
        size := size + currdir[i].size;
      } else {
        var n := TotalDataSize(currdir[i].dir, h - 1);
        size := size + n;
      }
      todo, done := todo - {i}, done + {i};
    }
    assert done == currdir.Keys;
  }

  /** getTotalFileNum counts the files of the tree. */
  method TotalFileNum(currdir: Dir, ghost h: nat) returns (num: int)
    requires Tree(currdir, h)
    ensures num == |Paths(currdir, h)|
    decreases h
  {
    num := 0;
    var todo := currdir.Keys;
    ghost var done: set<string> := {};
    while todo != {}
      invariant todo <= currdir.Keys && done == currdir.Keys - todo
      invariant num == |PathsOf(currdir, done, h)|
      decreases todo
    {
      var i :| i in todo;
      EntryCount(currdir, i, done, h);
      if !currdir[i].isDir {
        num := num + 1;
      } else {
        var n := TotalFileNum(currdir[i].dir, h - 1);
        num := num + n;
      }
      todo, done := todo - {i}, done + {i};
    }
    assert done == currdir.Keys;
  }
}
