/** The slave manager of a master: slaves come and go, and every cluster knows what is in it. */
module Clusters {
  import opened Sets
  import opened Sums
  import opened Topology
  import opened ClusterTree
  import opened ClusterStats

  datatype Slave = Slave(ip: string, disk: int, file: int, sysIn: map<string, int>, sysOut: map<string, int>)

  type Slaves = map<int, Slave>

  function PathsOf(slaves: Slaves, topo: Topology): Paths { map id | id in slaves :: topo.PathOf(slaves[id].ip) }

  function InOf(slaves: Slaves): Io { map id | id in slaves :: slaves[id].sysIn }

  function OutOf(slaves: Slaves): Io { map id | id in slaves :: slaves[id].sysOut }

  function DiskOf(slaves: Slaves): int -> int { id => if id in slaves then slaves[id].disk else 0 }

  function FileOf(slaves: Slaves): int -> int { id => if id in slaves then slaves[id].file else 0 }

  // ----- Totals of one cluster

  /** What a cluster says of itself holds of these slaves. */
  ghost predicate Tally(c: Cluster, slaves: Slaves, ids: set<int>, w: string -> bool) {
    && c.disk == Sum(ids, DiskOf(slaves)) && c.file == Sum(ids, FileOf(slaves))
    && Totals(c.sysIn, InOf(slaves), ids, w) && Totals(c.sysOut, OutOf(slaves), ids, w)
  }

  ghost predicate IoTotals(c: Cluster) { c.input == TotalOf(c.sysIn) && c.output == TotalOf(c.sysOut) }

  function Cleared(c: Cluster): Cluster {
    c.(disk := 0, file := 0, input := 0, output := 0, sysIn := map[], sysOut := map[])
  }

  lemma ClearedTally(c: Cluster, slaves: Slaves, w: string -> bool)
    ensures Tally(Cleared(c), slaves, {}, w) && IoTotals(Cleared(c))
  {
  }

  /** A slave seen as a cluster of its own, with no traffic inside. */
  function Single(s: Slave): Cluster {
    NewCluster([]).(disk := s.disk, file := s.file, sysIn := s.sysIn, sysOut := s.sysOut)
  }

  lemma SingleTally(slaves: Slaves, id: int)
    requires id in slaves
    ensures Tally(Single(slaves[id]), slaves, {id}, a => true)
  {
    SumAny({id}, DiskOf(slaves), id);
    SumAny({id}, FileOf(slaves), id);
    assert {id} - {id} == {};
    OwnTotals(InOf(slaves), id);
    OwnTotals(OutOf(slaves), id);
  }

  /** d's totals come on top of c's; traffic inside c does not count. */
  ghost predicate Absorbed(c: Cluster, d: Cluster, topo: Topology, c': Cluster) {
    var w := Outside(topo, c.path);
    && c'.path == c.path && c'.totalNodes == c.totalNodes && c'.sub == c.sub && c'.nodes == c.nodes
    && c'.disk == c.disk + d.disk && c'.file == c.file + d.file
    && c'.sysIn == Merged(c.sysIn, d.sysIn, w) && c'.sysOut == Merged(c.sysOut, d.sysOut, w)
    && (IoTotals(c) ==> IoTotals(c'))
  }

  lemma AbsorbedTally(c: Cluster, d: Cluster, topo: Topology, c': Cluster, slaves: Slaves,
                      ids: set<int>, ids2: set<int>, w2: string -> bool)
    requires Absorbed(c, d, topo, c') && Tally(c, slaves, ids, Outside(topo, c.path)) && Tally(d, slaves, ids2, w2)
    requires ids !! ids2 && forall a :: Outside(topo, c.path)(a) ==> w2(a)
    ensures Tally(c', slaves, ids + ids2, Outside(topo, c.path))
  {
    SumUnion(ids, ids2, DiskOf(slaves));
    SumUnion(ids, ids2, FileOf(slaves));
    MergedTotals(c.sysIn, d.sysIn, InOf(slaves), ids, ids2, Outside(topo, c.path), w2);
    MergedTotals(c.sysOut, d.sysOut, OutOf(slaves), ids, ids2, Outside(topo, c.path), w2);
  }

  /** One round of updateclusterstat_, for a slave of a leaf or for a subcluster. */
  method Absorb(c: Cluster, d: Cluster, topo: Topology) returns (c': Cluster)
    ensures Absorbed(c, d, topo, c')
  {
    c' := c.(disk := c.disk + d.disk, file := c.file + d.file);
    var m, t := UpdateClusterIo(topo, c.path, d.sysIn, c'.sysIn, c'.input);
    c' := c'.(sysIn := m, input := t);
    m, t := UpdateClusterIo(topo, c.path, d.sysOut, c'.sysOut, c'.output);
    c' := c'.(sysOut := m, output := t);
  }

  // ----- Totals of a tree

  ghost predicate Right(c: Cluster, slaves: Slaves, topo: Topology) {
    Tally(c, slaves, Members(PathsOf(slaves, topo), c.path), Outside(topo, c.path)) && IoTotals(c)
  }

  /** Every cluster's totals are those of the slaves in it: sums of disk and file sizes, and of the
      traffic with addresses outside it. */
  ghost predicate Summed(c: Cluster, slaves: Slaves, topo: Topology, h: nat)
    decreases h
  {
    && Right(c, slaves, topo)
    && (h > 0 ==> forall k :: k in c.sub ==> Summed(c.sub[k], slaves, topo, h - 1))
  }

  /** The slaves of some subclusters. */
  function MembersBelow(paths: Paths, p: seq<int>, keys: set<int>): set<int> {
    set id | id in Members(paths, p) && |paths[id]| > |p| && paths[id][|p|] in keys
  }

  lemma MembersBelowPlus(paths: Paths, p: seq<int>, keys: set<int>, k: int)
    requires k !in keys
    ensures MembersBelow(paths, p, keys + {k}) == MembersBelow(paths, p, keys) + Members(paths, p + [k])
    ensures MembersBelow(paths, p, keys) !! Members(paths, p + [k])
  {
    forall id | id in paths ensures id in Members(paths, p + [k]) <==> id in MembersBelow(paths, p, {k}) {
      PrefixUp(p, k, paths[id]);
    }
  }

  /** An address outside a cluster is outside its subclusters. */
  lemma OutsideUp(topo: Topology, p: seq<int>, k: int, a: string)
    requires Outside(topo, p)(a)
    ensures Outside(topo, p + [k])(a)
  {
    PrefixUp(p, k, topo.PathOf(a));
  }

  ghost predicate Kept(c: Cluster, c': Cluster) {
    c'.path == c.path && c'.totalNodes == c.totalNodes && c'.nodes == c.nodes
  }

  /** One slave of a leaf. */
  method UpdateSlave(c: Cluster, was: Cluster, i: int, slaves: Slaves, topo: Topology, ghost done: set<int>)
    returns (c': Cluster)
    requires Kept(c, was) && was.sub == c.sub && IoTotals(was) && Tally(was, slaves, done, Outside(topo, c.path))
    requires i in slaves && i !in done
    ensures Kept(c, c') && c'.sub == c.sub && IoTotals(c') && Tally(c', slaves, done + {i}, Outside(topo, c.path))
  {
    SingleTally(slaves, i);
    c' := Absorb(was, Single(slaves[i]), topo);
    AbsorbedTally(was, Single(slaves[i]), topo, c', slaves, done, {i}, a => true);
  }

  /** updateclusterstat_ for a cluster without subclusters. */
  method UpdateLeaf(c: Cluster, slaves: Slaves, topo: Topology) returns (c': Cluster)
    requires c.nodes <= slaves.Keys
    ensures Kept(c, c') && c'.sub == c.sub && IoTotals(c')
    ensures Tally(c', slaves, c.nodes, Outside(topo, c.path))
  {
    c' := Cleared(c);
    var todo := c.nodes;
    ghost var done: set<int> := {};
    ClearedTally(c, slaves, Outside(topo, c.path));
    while todo != {}
      invariant Parted(c.nodes, todo, done)
      invariant Kept(c, c') && c'.sub == c.sub && IoTotals(c') && Tally(c', slaves, done, Outside(topo, c.path))
      decreases todo
    {
      ghost var some := Pick(todo);
      assert some in todo;
      var i :| i in todo;
      PartedNext(c.nodes, todo, done, i);
      c' := UpdateSlave(c, c', i, slaves, topo, done);
      todo, done := todo - {i}, done + {i};
    }
    assert done == c.nodes;
  }

  /** Between two rounds of updateclusterstat_ for a cluster with subclusters. */
  ghost predicate Updating(c: Cluster, c': Cluster, slaves: Slaves, topo: Topology, h: nat, done: set<int>) {
    var paths := PathsOf(slaves, topo);
    && Kept(c, c') && IoTotals(c') && c'.sub.Keys == c.sub.Keys
    && Tally(c', slaves, MembersBelow(paths, c.path, done), Outside(topo, c.path))
    && (forall k :: k in c.sub ==> ExactSub(c'.sub[k], c.path + [k], paths, h))
    && (forall k :: k in c.sub ==> SameShape(c.sub[k], c'.sub[k]))
    && (forall k :: k in c.sub && k in done ==> Summed(c'.sub[k], slaves, topo, h))
  }

  /** One subcluster. */
  method UpdateSub(c: Cluster, was: Cluster, k: int, slaves: Slaves, topo: Topology, ghost h: nat, ghost done: set<int>)
    returns (c': Cluster)
    requires Updating(c, was, slaves, topo, h, done) && k in c.sub && k !in done
    ensures Updating(c, c', slaves, topo, h, done + {k})
    decreases h, 1
  {
    var d := UpdateClusterStat(was.sub[k], slaves, topo, h);
    c' := Absorb(was.(sub := was.sub[k := d]), d, topo);
    UpdatingNext(c, was, d, c', k, slaves, topo, h, done);
  }

  lemma UpdatingNext(c: Cluster, was: Cluster, d: Cluster, c': Cluster, k: int, slaves: Slaves, topo: Topology,
                     h: nat, done: set<int>)
    requires Updating(c, was, slaves, topo, h, done) && k in c.sub && k !in done
    requires Exact(d, PathsOf(slaves, topo), h) && Summed(d, slaves, topo, h)
    requires Kept(was.sub[k], d) && SameShape(was.sub[k], d)
    requires Absorbed(was.(sub := was.sub[k := d]), d, topo, c')
    ensures Updating(c, c', slaves, topo, h, done + {k})
  {
    assert Right(d, slaves, topo);
    JoinTally(c, was.(sub := was.sub[k := d]), d, c', k, slaves, topo, done);
    SubsNext(c, was, d, c', k, slaves, topo, h, done);
  }

  lemma SubsNext(c: Cluster, was: Cluster, d: Cluster, c': Cluster, k: int, slaves: Slaves, topo: Topology,
                 h: nat, done: set<int>)
    requires Updating(c, was, slaves, topo, h, done) && k in c.sub && c'.sub == was.sub[k := d]
    requires Exact(d, PathsOf(slaves, topo), h) && Summed(d, slaves, topo, h)
    requires Kept(was.sub[k], d) && SameShape(was.sub[k], d)
    ensures forall i :: i in c.sub ==>
      && ExactSub(c'.sub[i], c.path + [i], PathsOf(slaves, topo), h)
      && SameShape(c.sub[i], c'.sub[i])
      && (i in done + {k} ==> Summed(c'.sub[i], slaves, topo, h))
  {
  }

  lemma JoinTally(c: Cluster, was: Cluster, d: Cluster, c': Cluster, k: int, slaves: Slaves,
                  topo: Topology, done: set<int>)
    requires was.path == c.path && d.path == c.path + [k] && k !in done && Absorbed(was, d, topo, c')
    requires Tally(was, slaves, MembersBelow(PathsOf(slaves, topo), c.path, done), Outside(topo, c.path))
    requires Tally(d, slaves, Members(PathsOf(slaves, topo), d.path), Outside(topo, d.path))
    ensures Tally(c', slaves, MembersBelow(PathsOf(slaves, topo), c.path, done + {k}), Outside(topo, c.path))
  {
    var paths := PathsOf(slaves, topo);
    MembersBelowPlus(paths, c.path, done, k);
    forall a | Outside(topo, c.path)(a) ensures Outside(topo, d.path)(a) {
      OutsideUp(topo, c.path, k, a);
    }
    AbsorbedTally(was, d, topo, c', slaves, MembersBelow(paths, c.path, done),
                  Members(paths, d.path), Outside(topo, d.path));
  }

  /** updateclusterstat_. */
  method UpdateClusterStat(c: Cluster, slaves: Slaves, topo: Topology, ghost h: nat) returns (c': Cluster)
    requires Exact(c, PathsOf(slaves, topo), h)
    ensures Exact(c', PathsOf(slaves, topo), h) && Summed(c', slaves, topo, h) && Kept(c, c') && SameShape(c, c')
    decreases h, 0
  {
    if c.sub == map[] {
      c' := UpdateLeaf(c, slaves, topo);
      SubShape(c, c');
    } else {
      c' := UpdateInner(c, slaves, topo, h - 1);
    }
  }

  method UpdateInner(c: Cluster, slaves: Slaves, topo: Topology, ghost h: nat) returns (c': Cluster)
    requires Exact(c, PathsOf(slaves, topo), h + 1)
    ensures Exact(c', PathsOf(slaves, topo), h + 1) && Summed(c', slaves, topo, h + 1) && Kept(c, c')
    ensures SameShape(c, c')
    decreases h, 2
  {
    c' := Cleared(c);
    var todo := c.sub.Keys;
    ghost var done: set<int> := {};
    UpdatingStart(c, slaves, topo, h);
    while todo != {}
      invariant Parted(c.sub.Keys, todo, done) && Updating(c, c', slaves, topo, h, done)
      decreases todo
    {
      ghost var some := Pick(todo);
      assert some in todo;
      var i :| i in todo;
      PartedNext(c.sub.Keys, todo, done, i);
      c' := UpdateSub(c, c', i, slaves, topo, h, done);
      todo, done := todo - {i}, done + {i};
    }
    UpdatingEnd(c, c', slaves, topo, h);
  }

  lemma UpdatingStart(c: Cluster, slaves: Slaves, topo: Topology, h: nat)
    requires Exact(c, PathsOf(slaves, topo), h + 1)
    ensures Updating(c, Cleared(c), slaves, topo, h, {})
  {
    assert MembersBelow(PathsOf(slaves, topo), c.path, {}) == {};
    ClearedTally(c, slaves, Outside(topo, c.path));
  }

  lemma UpdatingEnd(c: Cluster, c': Cluster, slaves: Slaves, topo: Topology, h: nat)
    requires Exact(c, PathsOf(slaves, topo), h + 1) && Updating(c, c', slaves, topo, h, c.sub.Keys)
    ensures Exact(c', PathsOf(slaves, topo), h + 1) && Summed(c', slaves, topo, h + 1) && SameShape(c, c')
  {
    SubShape(c, c');
    AllBelow(c, PathsOf(slaves, topo), h);
    SameExact(c, c', PathsOf(slaves, topo), h);
  }

  lemma AllBelow(c: Cluster, paths: Paths, h: nat)
    requires Exact(c, paths, h + 1)
    ensures MembersBelow(paths, c.path, c.sub.Keys) == Members(paths, c.path)
  {
    forall id | id in Members(paths, c.path) ensures id in MembersBelow(paths, c.path, c.sub.Keys) {
    }
  }

  lemma SameExact(c: Cluster, c': Cluster, paths: Paths, h: nat)
    requires Exact(c, paths, h + 1) && Kept(c, c') && c'.sub.Keys == c.sub.Keys
    requires forall k :: k in c.sub ==> ExactSub(c'.sub[k], c.path + [k], paths, h)
    ensures Exact(c', paths, h + 1)
  {
    assert forall k :: k in c'.sub ==> ExactSub(c'.sub[k], c'.path + [k], paths, h);
  }

  /** The totals of a cluster are the flat sums over the slaves whose path extends q. */
  ghost predicate Flat(d: Cluster, slaves: Slaves, topo: Topology, q: seq<int>) {
    var ids := Members(PathsOf(slaves, topo), q);
    && d.disk == Sum(ids, DiskOf(slaves)) && d.file == Sum(ids, FileOf(slaves))
    && d.input == Sum(Flows(InOf(slaves), ids, Outside(topo, q)), Bytes(InOf(slaves)))
    && d.output == Sum(Flows(OutOf(slaves), ids, Outside(topo, q)), Bytes(OutOf(slaves)))
  }

  lemma FlatHere(c: Cluster, slaves: Slaves, topo: Topology)
    requires Right(c, slaves, topo)
    ensures Flat(c, slaves, topo, c.path)
  {
    var ids := Members(PathsOf(slaves, topo), c.path);
    TotalOfFlows(c.sysIn, InOf(slaves), ids, Outside(topo, c.path));
    TotalOfFlows(c.sysOut, OutOf(slaves), ids, Outside(topo, c.path));
  }

  lemma SummedSub(c: Cluster, slaves: Slaves, topo: Topology, h: nat, k: int)
    requires h > 0 && Summed(c, slaves, topo, h) && k in c.sub
    ensures Summed(c.sub[k], slaves, topo, h - 1)
  {
  }

  lemma {:induction false} RightAt(c: Cluster, slaves: Slaves, topo: Topology, h: nat, path: seq<int>)
    requires Summed(c, slaves, topo, h) && Exact(c, PathsOf(slaves, topo), h) && Has(c, path)
    ensures Right(At(c, path), slaves, topo)
    decreases h
  {
    if path != [] {
      var k := path[0];
      assert ExactSub(c.sub[k], c.path + [k], PathsOf(slaves, topo), h - 1);
      SummedSub(c, slaves, topo, h, k);
      RightAt(c.sub[k], slaves, topo, h - 1, path[1..]);
    }
  }

  /** In an updated tree this holds of the cluster at every path. */
  lemma FlatTotals(c: Cluster, slaves: Slaves, topo: Topology, h: nat, path: seq<int>)
    requires Summed(c, slaves, topo, h) && Exact(c, PathsOf(slaves, topo), h) && Has(c, path)
    ensures Flat(At(c, path), slaves, topo, c.path + path)
  {
    RightAt(c, slaves, topo, h, path);
    ExactAt(c, PathsOf(slaves, topo), h, path);
    FlatHere(At(c, path), slaves, topo);
  }

  // ----- The manager

  class SlaveManager {
    var slaves: Slaves
    var cluster: Cluster
    const topo: Topology

    ghost predicate Valid()
      reads this
    {
      topo.Valid() && cluster.path == [] && Exact(cluster, PathsOf(slaves, topo), topo.level) && Covers(topo, cluster)
    }

    /** init: the clusters of 0/0/... and of every path of the topology, all empty. */
    constructor (topo: Topology)
      requires topo.Valid()
      ensures Valid() && slaves == map[] && this.topo == topo
    {
      var c := Grown(NewCluster([]), seq(topo.level, k => 0));
      GrownExact(NewCluster([]), map[], seq(topo.level, k => 0), topo.level);
      GrownKeeps(NewCluster([]), seq(topo.level, k => 0));
      for i := 0 to |topo.maps|
        invariant c.path == [] && Exact(c, map[], topo.level) && Has(c, seq(topo.level, k => 0))
        invariant forall k :: 0 <= k < i ==> Has(c, topo.maps[k].path)
      {
        ghost var was := c;
        c := Grown(c, topo.maps[i].path);
        GrownExact(was, map[], topo.maps[i].path, topo.level);
        GrownKeeps(was, topo.maps[i].path);
        GrownHas(was, topo.maps[i].path, seq(topo.level, k => 0));
        forall k | 0 <= k < i ensures Has(c, topo.maps[k].path) {
          GrownHas(was, topo.maps[i].path, topo.maps[k].path);
        }
      }
      slaves, cluster, this.topo := map[], c, topo;
      new;
      assert PathsOf(slaves, topo) == map[];
    }

    /** insert: a slave is counted in every cluster on the path of its address. The tree stays exact if and
        only if the slave was not listed yet. */
    method Insert(id: int, sn: Slave)
      requires Valid()
      modifies this
      ensures slaves == old(slaves)[id := sn] && Has(old(cluster), topo.PathOf(sn.ip))
      ensures cluster == Walked(old(cluster), topo.PathOf(sn.ip), Share(id, 1, sn.disk, sn.file))
      ensures Valid() <==> id !in old(slaves)
    {
      ghost var was := slaves;
      slaves := slaves[id := sn];
      var _, path := topo.Lookup(sn.ip);
      var s := Share(id, 1, sn.disk, sn.file);
      PathFound(topo, sn.ip, 0, cluster);
      InsertValid(was, topo, cluster, id, sn);
      cluster := Walked(cluster, path, s);
    }

    /** remove. */
    method Remove(id: int) returns (rc: int)
      requires Valid()
      modifies this
      ensures Valid() && slaves == old(slaves) - {id} && rc == if id in old(slaves) then 1 else -1
    {
      if id !in slaves {
        return -1;
      }
      ghost var was := slaves;
      var sn := slaves[id];
      var _, path := topo.Lookup(sn.ip);
      var s := Share(id, -1, sn.disk, sn.file);
      slaves := slaves - {id};
      PathFound(topo, sn.ip, 0, cluster);
      WalkValid(was, slaves, topo, cluster, s, path);
      cluster := Walked(cluster, path, s);
      rc := 1;
    }

    /** A slave reports its sizes and its traffic. */
    method Report(id: int, disk: int, file: int, sysIn: map<string, int>, sysOut: map<string, int>)
      requires Valid() && id in slaves
      modifies this`slaves
      ensures Valid() && slaves == old(slaves)[id := Slave(old(slaves)[id].ip, disk, file, sysIn, sysOut)]
    {
      ghost var was := slaves;
      slaves := slaves[id := Slave(slaves[id].ip, disk, file, sysIn, sysOut)];
      assert PathsOf(slaves, topo) == PathsOf(was, topo);
    }

    /** updateClusterStat: afterwards the totals of every cluster are right. */
    method UpdateStat()
      requires Valid()
      modifies this`cluster
      ensures Valid() && Summed(cluster, slaves, topo, topo.level)
    {
      ghost var was := cluster;
      cluster := UpdateClusterStat(cluster, slaves, topo, topo.level);
    }
  }

  /** Every path that lookup can give is in the tree. */
  lemma {:induction false} PathFound(topo: Topology, ip: string, i: nat, c: Cluster)
    requires i <= |topo.maps| && Covers(topo, c)
    ensures Has(c, topo.PathFrom(ip, i))
    decreases |topo.maps| - i
  {
    if i < |topo.maps| && !topo.InRange(ip, i) {
      PathFound(topo, ip, i + 1, c);
    }
  }

  ghost predicate Covers(topo: Topology, c: Cluster) {
    Has(c, seq(topo.level, k => 0)) && forall i :: 0 <= i < |topo.maps| ==> Has(c, topo.maps[i].path)
  }

  lemma InsertValid(slaves: Slaves, topo: Topology, c: Cluster, id: int, sn: Slave)
    requires topo.Valid() && c.path == [] && Exact(c, PathsOf(slaves, topo), topo.level) && Covers(topo, c)
    requires Has(c, topo.PathOf(sn.ip))
    ensures var c' := Walked(c, topo.PathOf(sn.ip), Share(id, 1, sn.disk, sn.file));
      if id in slaves then !Exact(c', PathsOf(slaves[id := sn], topo), topo.level)
      else c'.path == [] && Exact(c', PathsOf(slaves[id := sn], topo), topo.level) && Covers(topo, c')
  {
    var path, s := topo.PathOf(sn.ip), Share(id, 1, sn.disk, sn.file);
    PathsInsert(slaves, topo, id, sn);
    if id in slaves {
      WalkTwice(c, PathsOf(slaves, topo), s, path, topo.level);
    } else {
      WalkValid(slaves, slaves[id := sn], topo, c, s, path);
    }
  }

  lemma PathsInsert(slaves: Slaves, topo: Topology, id: int, sn: Slave)
    ensures PathsOf(slaves[id := sn], topo) == PathsOf(slaves, topo)[id := topo.PathOf(sn.ip)]
  {
  }

  lemma WalkValid(slaves: Slaves, slaves': Slaves, topo: Topology, c: Cluster, s: Share, path: seq<int>)
    requires topo.Valid() && c.path == [] && Exact(c, PathsOf(slaves, topo), topo.level) && Covers(topo, c)
    requires |path| == topo.level && Has(c, path) && Follows(PathsOf(slaves, topo), PathsOf(slaves', topo), s, path)
    ensures var c' := Walked(c, path, s);
      c'.path == [] && Exact(c', PathsOf(slaves', topo), topo.level) && Covers(topo, c')
  {
    assert path[|c.path|..] == path;
    WalkExact(c, PathsOf(slaves, topo), PathsOf(slaves', topo), s, path, topo.level);
    WalkHas(c, path, s, seq(topo.level, k => 0));
    forall i | 0 <= i < |topo.maps| ensures Has(Walked(c, path, s), topo.maps[i].path) {
      WalkHas(c, path, s, topo.maps[i].path);
    }
  }
}
