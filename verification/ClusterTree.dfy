/** The hierarchy of clusters that a master keeps, and which slaves are in which cluster. */
module ClusterTree {

  /** A cluster at a path from the root. The maps say how much traffic its slaves have with each
      address outside the cluster. */
  datatype Cluster = Cluster(path: seq<int>, totalNodes: int, disk: int, file: int, input: int, output: int,
                             sysIn: map<string, int>, sysOut: map<string, int>, sub: map<int, Cluster>, nodes: set<int>)

  function NewCluster(path: seq<int>): Cluster { Cluster(path, 0, 0, 0, 0, 0, map[], map[], map[], {}) }

  /** The path of each slave. */
  type Paths = map<int, seq<int>>

  /** The slaves whose path extends p. */
  function Members(paths: Paths, p: seq<int>): set<int> { set id | id in paths && p <= paths[id] }

  /** The tree below c has h levels; every slave of c is in one of its leaves, and the counts and
      leaf sets are exact. (No one counts the nodes of the root.) */
  ghost predicate Exact(c: Cluster, paths: Paths, h: nat)
    decreases h, 0
  {
    if h == 0 then c.sub == map[] && c.nodes == Members(paths, c.path)
    else
      && c.sub != map[] && c.nodes == {}
      && (forall id :: id in Members(paths, c.path) ==> |paths[id]| > |c.path| && paths[id][|c.path|] in c.sub)
      && (forall k :: k in c.sub ==> ExactSub(c.sub[k], c.path + [k], paths, h - 1))
  }

  ghost predicate ExactSub(c: Cluster, p: seq<int>, paths: Paths, h: nat)
    decreases h, 1
  {
    c.path == p && c.totalNodes == |Members(paths, p)| && Exact(c, paths, h)
  }

  /** There is a cluster at a path below c. */
  predicate Has(c: Cluster, path: seq<int>)
    decreases |path|
  {
    path == [] || (path[0] in c.sub && Has(c.sub[path[0]], path[1..]))
  }

  function At(c: Cluster, path: seq<int>): Cluster
    requires Has(c, path)
    decreases |path|
  {
    if path == [] then c else At(c.sub[path[0]], path[1..])
  }

  // ----- Adding and removing a slave

  /** The two differ at most in slave id, which is on path q. */
  ghost predicate OnlyAt(paths: Paths, paths': Paths, id: int, q: seq<int>) {
    && (forall j :: j != id ==> (j in paths <==> j in paths') && (j in paths ==> paths[j] == paths'[j]))
    && (id in paths ==> paths[id] == q) && (id in paths' ==> paths'[id] == q)
  }

  lemma PrefixUp(p: seq<int>, k: int, q: seq<int>)
    ensures p + [k] <= q <==> p <= q && |p| < |q| && q[|p|] == k
  {
    if p + [k] <= q {
      assert (p + [k])[|p|] == k;
      assert p == (p + [k])[..|p|];
    }
    if p <= q && |p| < |q| && q[|p|] == k {
      assert q[..|p| + 1] == p + [k];
    }
  }

  lemma MembersBeside(paths: Paths, paths': Paths, id: int, q: seq<int>, p: seq<int>)
    requires OnlyAt(paths, paths', id, q) && !(p <= q)
    ensures Members(paths', p) == Members(paths, p)
  {
    forall j ensures j in Members(paths', p) <==> j in Members(paths, p) {
      assert j != id ==> (j in paths <==> j in paths');
    }
  }

  /** A cluster that the slave is not in. */
  lemma {:induction false} ExactBeside(c: Cluster, paths: Paths, paths': Paths, id: int, q: seq<int>, h: nat)
    requires Exact(c, paths, h) && OnlyAt(paths, paths', id, q) && !(c.path <= q)
    ensures Exact(c, paths', h)
    decreases h, 0
  {
    MembersBeside(paths, paths', id, q, c.path);
    if h > 0 {
      forall k | k in c.sub ensures ExactSub(c.sub[k], c.path + [k], paths', h - 1) {
        PrefixUp(c.path, k, q);
        SubBeside(c.sub[k], c.path + [k], paths, paths', id, q, h - 1);
      }
    }
  }

  lemma {:induction false} SubBeside(c: Cluster, p: seq<int>, paths: Paths, paths': Paths, id: int, q: seq<int>, h: nat)
    requires ExactSub(c, p, paths, h) && OnlyAt(paths, paths', id, q) && !(p <= q)
    ensures ExactSub(c, p, paths', h)
    decreases h, 1
  {
    MembersBeside(paths, paths', id, q, p);
    ExactBeside(c, paths, paths', id, q, h);
  }

  /** The cluster on the way to the slave is replaced by one that is exact for the new list. */
  lemma ExactReplaced(c: Cluster, paths: Paths, paths': Paths, id: int, q: seq<int>, h: nat, d: Cluster)
    requires h > 0 && Exact(c, paths, h) && OnlyAt(paths, paths', id, q)
    requires c.path <= q && |q| > |c.path| && q[|c.path|] in c.sub
    requires ExactSub(d, c.path + [q[|c.path|]], paths', h - 1)
    ensures Exact(c.(sub := c.sub[q[|c.path|] := d]), paths', h)
  {
    var k0 := q[|c.path|];
    var c' := c.(sub := c.sub[k0 := d]);
    forall k | k in c'.sub ensures ExactSub(c'.sub[k], c'.path + [k], paths', h - 1) {
      if k != k0 {
        PrefixUp(c.path, k, q);
        SubBeside(c.sub[k], c.path + [k], paths, paths', id, q, h - 1);
      }
    }
  }

  // ----- What insert and remove do to the tree

  /** A slave's share in the totals of the clusters that it is in; sign is 1 when it comes and -1
      when it goes. */
  datatype Share = Share(id: int, sign: int, disk: int, file: int)

  function Changed(nodes: set<int>, s: Share): set<int> { if s.sign > 0 then nodes + {s.id} else nodes - {s.id} }

  function Took(c: Cluster, s: Share): Cluster {
    c.(totalNodes := c.totalNodes + s.sign, disk := c.disk + s.sign * s.disk, file := c.file + s.sign * s.file)
  }

  /** The clusters on the path take the share, and the last one lists the slave or no longer does. */
  function Walked(c: Cluster, path: seq<int>, s: Share): Cluster
    requires path != [] && Has(c, path)
    decreases |path|
  {
    var d := Took(c.sub[path[0]], s);
    HasSame(c.sub[path[0]], d, path[1..]);
    c.(sub := c.sub[path[0] := if |path| == 1 then d.(nodes := Changed(d.nodes, s)) else Walked(d, path[1..], s)])
  }

  /** The list of slaves changes by the share. */
  ghost predicate Follows(paths: Paths, paths': Paths, s: Share, q: seq<int>) {
    && OnlyAt(paths, paths', s.id, q)
    && if s.sign > 0 then s.sign == 1 && s.id !in paths && s.id in paths'
       else s.sign == -1 && s.id in paths && s.id !in paths'
  }

  lemma MembersChange(paths: Paths, paths': Paths, s: Share, q: seq<int>, p: seq<int>)
    requires Follows(paths, paths', s, q) && p <= q
    ensures Members(paths', p) == Changed(Members(paths, p), s)
    ensures |Members(paths', p)| == |Members(paths, p)| + s.sign
  {
    forall j ensures j in Members(paths', p) <==> j in Changed(Members(paths, p), s) {
      assert j != s.id ==> (j in paths <==> j in paths');
    }
    assert s.id in paths ==> s.id in Members(paths, p);
  }

  /** insert and remove keep the counts and the leaf sets exact. */
  lemma {:induction false} WalkExact(c: Cluster, paths: Paths, paths': Paths, s: Share, q: seq<int>, h: nat)
    requires h > 0 && Exact(c, paths, h) && Follows(paths, paths', s, q)
    requires c.path <= q && |q| == |c.path| + h && Has(c, q[|c.path|..])
    ensures Exact(Walked(c, q[|c.path|..], s), paths', h)
    decreases h
  {
    var path := q[|c.path|..];
    var k := path[0];
    var d := c.sub[k];
    var d' := Took(d, s);
    assert ExactSub(d, c.path + [k], paths, h - 1);
    PrefixUp(c.path, k, q);
    MembersChange(paths, paths', s, q, c.path + [k]);
    if h == 1 {
      LeafExact(d'.(nodes := Changed(d'.nodes, s)), paths', c.path + [k]);
      ExactReplaced(c, paths, paths', s.id, q, h, d'.(nodes := Changed(d'.nodes, s)));
    } else {
      SameBelow(d, d', paths, h - 1);
      assert path[1..] == q[|d'.path|..];
      WalkExact(d', paths, paths', s, q, h - 1);
      ExactReplaced(c, paths, paths', s.id, q, h, Walked(d', path[1..], s));
    }
  }

  /** Members of the cluster below the root on the way to q, when slave id is put at r. */
  lemma MembersMoved(paths: Paths, id: int, r: seq<int>, k: int)
    requires id in paths && paths[id] != [] && r != []
    ensures var was, now := Members(paths, [k]), Members(paths[id := r], [k]);
      |now| == |was| + (if r[0] == k then 1 else 0) - if paths[id][0] == k then 1 else 0
  {
    var was, now := Members(paths, [k]), Members(paths[id := r], [k]);
    assert now - {id} == was - {id};
    assert id in was <==> paths[id][0] == k;
    assert id in now <==> r[0] == k;
    assert now == if r[0] == k then (now - {id}) + {id} else now - {id};
    assert was == if paths[id][0] == k then (was - {id}) + {id} else was - {id};
  }

  /** A slave that is listed already is counted once too often. */
  lemma WalkTwice(c: Cluster, paths: Paths, s: Share, q: seq<int>, h: nat)
    requires h > 0 && c.path == [] && Exact(c, paths, h) && s.sign == 1 && s.id in paths
    requires |q| == h && Has(c, q)
    ensures !Exact(Walked(c, q, s), paths[s.id := q], h)
  {
    var k := paths[s.id][0];
    assert s.id in Members(paths, c.path);
    assert c.path + [k] == [k];
    assert ExactSub(c.sub[k], [k], paths, h - 1);
    MembersMoved(paths, s.id, q, k);
    var c' := Walked(c, q, s);
    WalkedCount(c, q, s);
    assert c'.sub[k].totalNodes != |Members(paths[s.id := q], [k])|;
    assert c'.path + [k] == [k];
  }

  lemma WalkedCount(c: Cluster, path: seq<int>, s: Share)
    requires path != [] && Has(c, path)
    ensures var c' := Walked(c, path, s);
      && c'.path == c.path && c'.sub.Keys == c.sub.Keys
      && forall k :: k in c.sub ==>
        c'.sub[k].totalNodes == c.sub[k].totalNodes + if k == path[0] then s.sign else 0
  {
    if |path| > 1 {
      HasSame(c.sub[path[0]], Took(c.sub[path[0]], s), path[1..]);
    }
  }

  lemma LeafExact(c: Cluster, paths: Paths, p: seq<int>)
    requires c.path == p && c.sub == map[] && c.nodes == Members(paths, p) && c.totalNodes == |Members(paths, p)|
    ensures ExactSub(c, p, paths, 0)
  {
  }

  lemma SameBelow(c: Cluster, d: Cluster, paths: Paths, h: nat)
    requires Exact(c, paths, h) && d.path == c.path && d.sub == c.sub && d.nodes == c.nodes
    ensures Exact(d, paths, h)
  {
  }

  /** All paths that were there are there afterwards. */
  lemma {:induction false} WalkHas(c: Cluster, path: seq<int>, s: Share, other: seq<int>)
    requires path != [] && Has(c, path) && Has(c, other)
    ensures Has(Walked(c, path, s), other)
    decreases |path|
  {
    if other != [] && other[0] == path[0] && |path| > 1 {
      var d := c.sub[path[0]];
      var d' := Took(d, s);
      HasSame(d, d', path[1..]);
      HasSame(d, d', other[1..]);
      WalkHas(d', path[1..], s, other[1..]);
    } else if other != [] && other[0] == path[0] {
      var d := c.sub[path[0]];
      HasSame(d, Walked(c, path, s).sub[path[0]], other[1..]);
    }
  }

  lemma HasSame(c: Cluster, d: Cluster, path: seq<int>)
    requires c.sub == d.sub && Has(c, path)
    ensures Has(d, path)
  {
  }

  // ----- Building the tree

  /** The tree with the clusters of a path, new ones where they are missing. */
  function Grown(c: Cluster, path: seq<int>): Cluster
    decreases |path|
  {
    if path == [] then c
    else
      var d := if path[0] in c.sub then c.sub[path[0]] else NewCluster(c.path + [path[0]]);
      c.(sub := c.sub[path[0] := Grown(d, path[1..])])
  }

  lemma {:induction false} GrownKeeps(c: Cluster, path: seq<int>)
    ensures var d := Grown(c, path);
      d.path == c.path && d.totalNodes == c.totalNodes && d.nodes == c.nodes && c.sub.Keys <= d.sub.Keys
  {
  }

  /** Before any slave has come, the tree is exact once it has a path, and stays so. */
  lemma {:induction false} GrownExact(c: Cluster, none: Paths, path: seq<int>, h: nat)
    requires none == map[] && |path| == h && (c == NewCluster(c.path) || Exact(c, none, h))
    ensures Exact(Grown(c, path), none, h) && Has(Grown(c, path), path)
    decreases h
  {
    assert Members(none, c.path) == {};
    if h > 0 {
      var k, p := path[0], c.path + [path[0]];
      var d := if k in c.sub then c.sub[k] else NewCluster(p);
      assert Members(none, p) == {};
      assert d.path == p && d.totalNodes == 0 && (d == NewCluster(p) || Exact(d, none, h - 1)) by {
        if k in c.sub {
          assert ExactSub(c.sub[k], p, none, h - 1);
        }
      }
      GrownExact(d, none, path[1..], h - 1);
      GrownKeeps(d, path[1..]);
      assert ExactSub(Grown(d, path[1..]), p, none, h - 1);
    }
  }

  lemma {:induction false} GrownHas(c: Cluster, path: seq<int>, other: seq<int>)
    requires Has(c, other)
    ensures Has(Grown(c, path), other)
    decreases |path|
  {
    if path != [] && other != [] && path[0] == other[0] {
      GrownHas(c.sub[path[0]], path[1..], other[1..]);
    }
  }

  /** The counts and leaf sets of any cluster of an exact tree. */
  lemma {:induction false} ExactAt(c: Cluster, paths: Paths, h: nat, path: seq<int>)
    requires Exact(c, paths, h) && Has(c, path)
    ensures var d := At(c, path);
      && d.path == c.path + path && |path| <= h
      && (path != [] ==> d.totalNodes == |Members(paths, c.path + path)|)
      && d.nodes == if |path| == h then Members(paths, c.path + path) else {}
    decreases h
  {
    if path != [] {
      var k := path[0];
      assert ExactSub(c.sub[k], c.path + [k], paths, h - 1);
      ExactAt(c.sub[k], paths, h - 1, path[1..]);
      assert c.path + path == c.path + [k] + path[1..];
    } else {
      assert c.path + path == c.path;
    }
  }

  /** The same clusters. */
  ghost predicate SameShape(c: Cluster, c': Cluster) { forall path :: Has(c, path) == Has(c', path) }

  lemma SubShape(c: Cluster, c': Cluster)
    requires c'.sub.Keys == c.sub.Keys && forall k :: k in c.sub ==> SameShape(c.sub[k], c'.sub[k])
    ensures SameShape(c, c')
  {
    forall path ensures Has(c, path) == Has(c', path) {
      if path != [] {
        var k := path[0];
        if k in c.sub {
          assert SameShape(c.sub[k], c'.sub[k]);
        }
      }
    }
  }
}
