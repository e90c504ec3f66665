/** The totals of each cluster, added up from the leaves to the root. */
module ClusterStats {
  import opened Sets
  import opened Sums
  import opened Topology
  import opened ClusterTree

  // ----- Traffic

  /** The traffic of each slave with each address. */
  type Io = map<int, map<string, int>>

  /** The connections of some slaves with addresses that satisfy w. */
  function Flows(io: Io, ids: set<int>, w: string -> bool): set<(int, string)> {
    set id, a | id in ids && id in io && a in io[id] && w(a) :: (id, a)
  }

  ghost function Bytes(io: Io): ((int, string)) -> int {
    (x: (int, string)) => if x.0 in io && x.1 in io[x.0] then io[x.0][x.1] else 0
  }

  ghost function With(io: Io, ids: set<int>, w: string -> bool, a: string): set<(int, string)> {
    Group(Flows(io, ids, w), (x: (int, string)) => x.1, a)
  }

  /** m says, address by address, how much traffic these slaves have. */
  ghost predicate Totals(m: map<string, int>, io: Io, ids: set<int>, w: string -> bool) {
    && (forall a :: a in m <==> With(io, ids, w, a) != {})
    && (forall a :: a in m ==> m[a] == Sum(With(io, ids, w, a), Bytes(io)))
  }

  function Get(m: map<string, int>, a: string): int { if a in m then m[a] else 0 }

  ghost function TotalOf(m: map<string, int>): int { Sum(m.Keys, a => Get(m, a)) }

  /** The sum over the addresses is the sum over the connections. */
  lemma TotalOfFlows(m: map<string, int>, io: Io, ids: set<int>, w: string -> bool)
    requires Totals(m, io, ids, w)
    ensures TotalOf(m) == Sum(Flows(io, ids, w), Bytes(io))
  {
    var s, key := Flows(io, ids, w), (x: (int, string)) => x.1;
    forall x | x in s ensures key(x) in m.Keys {
      assert x in With(io, ids, w, x.1);
    }
    SumBy(s, key, m.Keys, Bytes(io), a => Get(m, a));
  }

  /** The traffic of m with addresses that satisfy w comes on top of what there is. */
  function Merged(out: map<string, int>, m: map<string, int>, w: string -> bool): map<string, int> {
    map a | a in out.Keys + m.Keys && (a in out || w(a)) :: Get(out, a) + if w(a) then Get(m, a) else 0
  }

  lemma MergedAt(out: map<string, int>, m: map<string, int>, io: Io, ids: set<int>, ids2: set<int>,
                 w: string -> bool, w2: string -> bool, a: string)
    requires Totals(out, io, ids, w) && Totals(m, io, ids2, w2) && ids !! ids2 && forall b :: w(b) ==> w2(b)
    ensures a in Merged(out, m, w) <==> With(io, ids + ids2, w, a) != {}
    ensures a in Merged(out, m, w) ==> Merged(out, m, w)[a] == Sum(With(io, ids + ids2, w, a), Bytes(io))
  {
    var x, y := With(io, ids, w, a), if w(a) then With(io, ids2, w2, a) else {};
    assert With(io, ids + ids2, w, a) == x + y;
    SumUnion(x, y, Bytes(io));
    assert a in out ==> w(a) by {
      if a in out {
        var c :| c in x;
      }
    }
  }

  lemma MergedTotals(out: map<string, int>, m: map<string, int>, io: Io, ids: set<int>, ids2: set<int>,
                     w: string -> bool, w2: string -> bool)
    requires Totals(out, io, ids, w) && Totals(m, io, ids2, w2) && ids !! ids2 && forall a :: w(a) ==> w2(a)
    ensures Totals(Merged(out, m, w), io, ids + ids2, w)
  {
    forall a ensures
      && (a in Merged(out, m, w) <==> With(io, ids + ids2, w, a) != {})
      && (a in Merged(out, m, w) ==> Merged(out, m, w)[a] == Sum(With(io, ids + ids2, w, a), Bytes(io)))
    {
      MergedAt(out, m, io, ids, ids2, w, w2, a);
    }
  }

  /** A slave's own list covers all its traffic. */
  lemma OwnTotals(io: Io, id: int)
    requires id in io
    ensures Totals(io[id], io, {id}, a => true)
  {
    var w: string -> bool := a => true;
    forall a ensures With(io, {id}, w, a) == if a in io[id] then {(id, a)} else {} {
    }
    forall a | a in io[id] ensures Sum(With(io, {id}, w, a), Bytes(io)) == io[id][a] {
      SumAny({(id, a)}, Bytes(io), (id, a));
      assert {(id, a)} - {(id, a)} == {};
    }
  }

  lemma TotalOfPut(m: map<string, int>, a: string, v: int)
    ensures TotalOf(m[a := Get(m, a) + v]) == TotalOf(m) + v
  {
    var m' := m[a := Get(m, a) + v];
    var f, f' := x => Get(m, x), x => Get(m', x);
    var rest := m.Keys - {a};
    assert m'.Keys - {a} == rest;
    SumAny(m'.Keys, f', a);
    SumSame(rest, f, f');
    if a in m {
      SumAny(m.Keys, f, a);
    } else {
      assert rest == m.Keys;
    }
  }

  /** Addresses outside the cluster at path p. */
  function Outside(topo: Topology, p: seq<int>): string -> bool { a => !(p <= topo.PathOf(a)) }

  function Part(m: map<string, int>, done: set<string>): map<string, int> { map a | a in m && a in done :: m[a] }

  lemma MergedNext(out: map<string, int>, m: map<string, int>, done: set<string>, w: string -> bool, p: string)
    requires p in m && p !in done
    ensures var cur := Merged(out, Part(m, done), w);
      Merged(out, Part(m, done + {p}), w) == if w(p) then cur[p := Get(cur, p) + m[p]] else cur
  {
  }

  /** One address of updateclusterio_: traffic inside the cluster is left out. */
  method AddAddress(topo: Topology, path: seq<int>, p: string, bytes: int, data_out: map<string, int>, total: int)
    returns (out: map<string, int>, sum: int)
    ensures out == if Outside(topo, path)(p) then data_out[p := Get(data_out, p) + bytes] else data_out
    ensures sum - total == TotalOf(out) - TotalOf(data_out)
  {
    out, sum := data_out, total;
    var _, q := topo.Lookup(p);
    var n := Match(path, q);
    if n == |path| {
      return;
    }
    TotalOfPut(out, p, bytes);
    out := if p !in out then out[p := bytes] else out[p := out[p] + bytes];
    sum := sum + bytes;
  }

  /** Between two rounds of updateclusterio_. */
  ghost predicate SoFar(m: map<string, int>, was: map<string, int>, total: int, done: set<string>, w: string -> bool,
                        out: map<string, int>, sum: int) {
    out == Merged(was, Part(m, done), w) && sum - total == TotalOf(out) - TotalOf(was)
  }

  lemma SoFarStart(m: map<string, int>, was: map<string, int>, total: int, w: string -> bool)
    ensures SoFar(m, was, total, {}, w, was, total)
  {
  }

  lemma SoFarNext(m: map<string, int>, was: map<string, int>, total: int, done: set<string>, w: string -> bool,
                  out: map<string, int>, sum: int, p: string, out': map<string, int>, sum': int)
    requires SoFar(m, was, total, done, w, out, sum) && p in m && p !in done
    requires out' == (if w(p) then out[p := Get(out, p) + m[p]] else out) && sum' - sum == TotalOf(out') - TotalOf(out)
    ensures SoFar(m, was, total, done + {p}, w, out', sum')
  {
    MergedNext(was, m, done, w, p);
  }

  lemma SoFarEnd(m: map<string, int>, was: map<string, int>, total: int, done: set<string>, w: string -> bool,
                 out: map<string, int>, sum: int)
    requires SoFar(m, was, total, done, w, out, sum) && done == m.Keys
    ensures out == Merged(was, m, w) && sum - total == TotalOf(out) - TotalOf(was)
  {
    assert Part(m, done) == m;
  }

  /** One round of updateclusterio_. */
  method AddNext(topo: Topology, path: seq<int>, p: string, m: map<string, int>, out: map<string, int>, sum: int,
                 ghost was: map<string, int>, ghost total: int, ghost done: set<string>)
    returns (out': map<string, int>, sum': int)
    requires p in m && p !in done && SoFar(m, was, total, done, Outside(topo, path), out, sum)
    ensures SoFar(m, was, total, done + {p}, Outside(topo, path), out', sum')
  {
    out', sum' := AddAddress(topo, path, p, m[p], out, sum);
    SoFarNext(m, was, total, done, Outside(topo, path), out, sum, p, out', sum');
  }

  /** updateclusterio_. */
  method UpdateClusterIo(topo: Topology, path: seq<int>, data_in: map<string, int>, data_out: map<string, int>,
                         total: int)
    returns (out: map<string, int>, sum: int)
    ensures out == Merged(data_out, data_in, Outside(topo, path))
    ensures sum - total == TotalOf(out) - TotalOf(data_out)
  {
    out, sum := data_out, total;
    var todo := data_in.Keys;
    ghost var done: set<string> := {};
    SoFarStart(data_in, data_out, total, Outside(topo, path));
    while todo != {}
      invariant Parted(data_in.Keys, todo, done)
      invariant SoFar(data_in, data_out, total, done, Outside(topo, path), out, sum)
      decreases todo
    {
      var p :| p in todo;
      PartedNext(data_in.Keys, todo, done, p);
      out, sum := AddNext(topo, path, p, data_in, out, sum, data_out, total, done);
      todo, done := todo - {p}, done + {p};
    }
    SoFarEnd(data_in, data_out, total, done, Outside(topo, path), out, sum);
  }
}
