/** Delivery of a set of buckets to the shufflers. */
module ShuffleDelivery {
  import opened Seqs
  import opened ShuffleSpec
  import opened Shuffle
  import W = ShuffleWire

  /** What a shuffler answers when it is asked to take a delivery: the call fails, it is busy, or it
      accepts. */
  datatype Reply = Failed | Busy | Accepted

  /** One delivery: the shuffler, what was announced, and what was sent. */
  datatype Delivery = Delivery(l: nat, totalnum: nat, totalsize: int, frames: seq<W.Frame>)

  /** The bytes of some items and of their indices. */
  function Size(items: seq<Item>): int {
    if items == [] then 0
    else var it := items[|items| - 1]; Size(items[..|items| - 1]) + |it.data| + 8 * |it.ends|
  }

  /** The buckets below n of one shuffler that hold something. */
  function Buckets(j: Job, recs: seq<seq<Record>>, l: nat, n: nat): set<nat>
    requires n <= |j.loc| == |recs|
  {
    if n == 0 then {}
    else if j.loc[n - 1] == l && recs[n - 1] != [] then Buckets(j, recs, l, n - 1) + {n - 1}
    else Buckets(j, recs, l, n - 1)
  }

  lemma {:induction false} InBuckets(j: Job, recs: seq<seq<Record>>, l: nat, n: nat, r: nat)
    requires n <= |j.loc| == |recs|
    ensures r in Buckets(j, recs, l, n) <==> r < n && j.loc[r] == l && recs[r] != []
  {
    if n > 0 {
      InBuckets(j, recs, l, n - 1, r);
    }
  }

  lemma OneMore<T>(a: set<T>, x: T)
    requires x !in a
    ensures |a + {x}| == |a| + 1
  {
  }

  lemma {:induction false} ItemsCount(j: Job, recs: seq<seq<Record>>, s: nat, l: nat, n: nat)
    requires n <= |j.loc| == |recs|
    ensures |Buckets(j, recs, l, n)| == |Items(j, recs, s, l, n)|
  {
    if n > 0 {
      ItemsCount(j, recs, s, l, n - 1);
      InBuckets(j, recs, l, n - 1, n - 1);
      if j.loc[n - 1] == l && recs[n - 1] != [] {
        OneMore(Buckets(j, recs, l, n - 1), n - 1);
      }
    }
  }

  lemma SizePlus(items: seq<Item>, it: Item)
    ensures Size(items + [it]) == Size(items) + |it.data| + 8 * |it.ends|
  {
    assert (items + [it])[..|items|] == items;
  }

  /** What is known per shuffler after looking at the buckets below n. */
  ghost predicate Sorted(j: Job, recs: seq<seq<Record>>, s: nat, n: nat, res: map<nat, set<nat>>, sizes: map<nat, int>)
    requires n <= |j.loc| == |recs|
  {
    && (forall l: nat :: l in res <==> l < j.locs) && sizes.Keys == res.Keys
    && (forall l :: l in res ==> res[l] == Buckets(j, recs, l, n))
    && (forall l :: l in res ==> sizes[l] == Size(Items(j, recs, s, l, n)))
  }

  lemma SortedNext(j: Job, recs: seq<seq<Record>>, s: nat, n: nat, res: map<nat, set<nat>>, sizes: map<nat, int>)
    requires GoodJob(j) && n < |j.loc| == |recs| && Sorted(j, recs, s, n, res, sizes)
    ensures var l := j.loc[n];
      if recs[n] == [] then Sorted(j, recs, s, n + 1, res, sizes)
      else Sorted(j, recs, s, n + 1, res[l := res[l] + {n}], sizes[l := sizes[l] + |Join(recs[n])| + 8 * |recs[n]|])
  {
    var l := j.loc[n];
    SizePlus(Items(j, recs, s, l, n), ItemOf(recs[n], s, n));
    forall k: nat | k < j.locs
      ensures Buckets(j, recs, k, n + 1) == Buckets(j, recs, k, n) + if k == l && recs[n] != [] then {n} else {}
      ensures k != l || recs[n] == [] ==> Items(j, recs, s, k, n + 1) == Items(j, recs, s, k, n)
    {
      NextBucket(j, recs, s, k, n);
    }
  }

  lemma NextBucket(j: Job, recs: seq<seq<Record>>, s: nat, k: nat, n: nat)
    requires n < |j.loc| == |recs|
    ensures Buckets(j, recs, k, n + 1) == Buckets(j, recs, k, n) + if k == j.loc[n] && recs[n] != [] then {n} else {}
    ensures k != j.loc[n] || recs[n] == [] ==> Items(j, recs, s, k, n + 1) == Items(j, recs, s, k, n)
  {
    assert Buckets(j, recs, k, n) + {} == Buckets(j, recs, k, n);
  }

  /** Puts bucket r under its shuffler, unless it is empty. */
  method SortOne(b: Bucket, r: nat, j: Job, ghost recs: seq<seq<Record>>, ghost s: nat,
                 res: map<nat, set<nat>>, sizes: map<nat, int>)
    returns (res': map<nat, set<nat>>, sizes': map<nat, int>)
    requires GoodJob(j) && r < |j.loc| == |recs| && HoldsAt(b, recs[r]) && Sorted(j, recs, s, r, res, sizes)
    ensures Sorted(j, recs, s, r + 1, res', sizes')
  {
    res', sizes' := res, sizes;
    SortedNext(j, recs, s, r, res, sizes);
    BucketLengths(b);
    if b.dataLen != 0 {
      var i := j.loc[r];
      res', sizes' := res[i := res[i] + {r}], sizes[i := sizes[i] + (b.dataLen + (b.indexLen - 1) * 8)];
    }
  }

  /** The first buckets of the engine hold these records. */
  ghost predicate Holds(bs: seq<Bucket>, recs: seq<seq<Record>>)
    reads bs, set b, o | b in bs && o in b.repr :: o
  {
    |recs| <= |bs| && forall b :: 0 <= b < |recs| ==> HoldsAt(bs[b], recs[b])
  }

  ghost predicate HoldsAt(b: Bucket, rs: seq<Record>)
    reads b, b.repr
  {
    b.Valid() && b.recs == rs
  }

  lemma ResultHolds(result: SPEResult, n: nat)
    requires result.Valid() && n <= |result.buckets|
    ensures Holds(result.buckets, result.Recs()[..n])
  {
  }

  method NoLocations(j: Job, ghost recs: seq<seq<Record>>, ghost s: nat)
    returns (res: map<nat, set<nat>>, sizes: map<nat, int>)
    requires |j.loc| == |recs|
    ensures Sorted(j, recs, s, 0, res, sizes)
  {
    res, sizes := map[], map[];
    for i := 0 to j.locs
      invariant (forall l: nat :: l in res <==> l < i) && sizes.Keys == res.Keys
      invariant forall l :: l in res ==> res[l] == {} && sizes[l] == 0
    {
      res, sizes := res[i := {}], sizes[i := 0];
    }
  }

  /** The first part of sendResultToBuckets: which buckets go to which shuffler. */
  method SortByLocation(bs: seq<Bucket>, j: Job, ghost recs: seq<seq<Record>>, ghost s: nat)
    returns (res: map<nat, set<nat>>, sizes: map<nat, int>)
    requires Holds(bs, recs) && GoodJob(j) && |j.loc| == |recs|
    ensures Sorted(j, recs, s, |j.loc|, res, sizes)
  {
    res, sizes := NoLocations(j, recs, s);
    for r := 0 to |j.loc|
      invariant Sorted(j, recs, s, r, res, sizes)
    {
      res, sizes := SortOne(bs[r], r, j, recs, s, res, sizes);
    }
  }

  lemma BucketLengths(b: Bucket)
    requires b.Valid()
    ensures b.dataLen == |Join(b.recs)| && (b.dataLen == 0 <==> b.recs == [])
    ensures b.dataLen != 0 ==> b.indexLen == |b.recs| + 1
  {
    JoinNotEmpty(b.recs);
    assert |b.Data()| == b.dataLen;
    assert b.index != null ==> |b.Index()| == b.indexLen;
  }

  ghost predicate Framed(j: Job, recs: seq<seq<Record>>, s: nat, i: nat, r: nat, frames: seq<W.Frame>)
    requires r <= |j.loc| == |recs|
  {
    frames == W.Flatten(Items(j, recs, s, i, r))
  }

  /** The three frames of bucket r, when it is one of those to send. */
  lemma SendNext(b: Bucket, r: nat, j: Job, i: nat, rs: set<nat>, recs: seq<seq<Record>>, s: nat, frames: seq<W.Frame>)
    requires r < |j.loc| == |recs| && rs == Buckets(j, recs, i, |j.loc|) && HoldsAt(b, recs[r])
    requires Framed(j, recs, s, i, r, frames)
    ensures r !in rs ==> Framed(j, recs, s, i, r + 1, frames)
    ensures r in rs ==>
      && |b.Index()| > 0
      && Framed(j, recs, s, i, r + 1, frames + [W.Number(r)] + [W.Data(b.Data())] + [W.Index(b.Index()[1..])])
  {
    InBuckets(j, recs, i, |j.loc|, r);
    if r in rs {
      FlattenPlus(Items(j, recs, s, i, r), ItemOf(recs[r], s, r));
      Three(frames, W.Number(r), W.Data(b.Data()), W.Index(b.Index()[1..]));
    }
  }

  lemma Three<T>(a: seq<T>, x: T, y: T, z: T)
    ensures a + [x] + [y] + [z] == a + [x, y, z]
  {
  }

  /** The buckets of one delivery, in ascending order: the number, the data and the index without its
      leading 0. */
  method SendBuckets(bs: seq<Bucket>, j: Job, i: nat, rs: set<nat>, ghost recs: seq<seq<Record>>, ghost s: nat)
    returns (frames: seq<W.Frame>)
    requires Holds(bs, recs) && |j.loc| == |recs| && rs == Buckets(j, recs, i, |j.loc|)
    ensures Framed(j, recs, s, i, |j.loc|, frames) && Holds(bs, recs)
  {
    frames := [];
    for r := 0 to |j.loc|
      invariant Framed(j, recs, s, i, r, frames) && Holds(bs, recs)
    {
      frames := SendOne(bs, r, j, i, rs, recs, s, frames);
    }
  }

  /** Three frames for bucket r, when it is one of those to send. */
  method SendOne(bs: seq<Bucket>, r: nat, j: Job, i: nat, rs: set<nat>, ghost recs: seq<seq<Record>>, ghost s: nat,
                 frames: seq<W.Frame>) returns (frames': seq<W.Frame>)
    requires Holds(bs, recs) && r < |j.loc| == |recs| && rs == Buckets(j, recs, i, |j.loc|)
    requires Framed(j, recs, s, i, r, frames)
    ensures Framed(j, recs, s, i, r + 1, frames') && Holds(bs, recs)
  {
    var b := bs[r];
    SendNext(b, r, j, i, rs, recs, s, frames);
    frames' := frames;
    if r in rs {
      frames' := frames' + [W.Number(r)];
      frames' := frames' + [W.Data(b.Data())];
      frames' := frames' + [W.Index(b.Index()[1..])];
    }
  }

  lemma {:induction false} FlattenPlus(items: seq<Item>, it: Item)
    ensures W.Flatten(items + [it]) == W.Flatten(items) + W.Triple(it)
  {
    if items == [] {
      assert [] + [it] == [it];
      assert [it][1..] == [];
      assert W.Triple(it) + [] == W.Triple(it);
    } else {
      assert (items + [it])[1..] == items[1..] + [it];
      FlattenPlus(items[1..], it);
      Assoc(W.Triple(items[0]), W.Flatten(items[1..]), W.Triple(it));
    }
  }

  /** The delivery carries all buckets of its shuffler, announced with their number and size. */
  ghost predicate Right(j: Job, recs: seq<seq<Record>>, s: nat, d: Delivery)
    requires |j.loc| == |recs|
  {
    var items := Items(j, recs, s, d.l, |j.loc|);
    d.l < j.locs && d.totalnum == |items| && d.totalsize == Size(items) && d.frames == W.Flatten(items)
  }

  ghost predicate Distinct(keys: seq<nat>) { forall i, k :: 0 <= i < k < |keys| ==> keys[i] != keys[k] }

  /** The shufflers still to be served and those of the deliveries made are all shufflers, each once. */
  ghost predicate Divided(j: Job, keys: seq<nat>, sent: seq<Delivery>) {
    && Distinct(keys) && NoneTwice(sent)
    && (forall l: nat :: l in keys ==> l < j.locs && !Served(sent, l))
    && (forall l: nat :: l < j.locs && l !in keys ==> Served(sent, l))
  }

  ghost predicate AllRight(j: Job, recs: seq<seq<Record>>, s: nat, sent: seq<Delivery>)
    requires |j.loc| == |recs|
  {
    forall k :: 0 <= k < |sent| ==> Right(j, recs, s, sent[k])
  }

  ghost predicate NoneTwice(sent: seq<Delivery>) { forall i, k :: 0 <= i < k < |sent| ==> sent[i].l != sent[k].l }

  /** The deliveries made so far, and the shufflers still to be served. */
  ghost predicate Sending(j: Job, recs: seq<seq<Record>>, s: nat, keys: seq<nat>, sent: seq<Delivery>)
    requires |j.loc| == |recs|
  {
    Divided(j, keys, sent) && AllRight(j, recs, s, sent)
  }

  ghost predicate Served(sent: seq<Delivery>, l: nat) { exists k :: 0 <= k < |sent| && sent[k].l == l }

  lemma ServedPlus(sent: seq<Delivery>, d: Delivery, l: nat)
    ensures Served(sent + [d], l) <==> Served(sent, l) || l == d.l
  {
    var t := sent + [d];
    if l == d.l {
      assert t[|sent|].l == l;
    }
    if Served(sent, l) {
      var k :| 0 <= k < |sent| && sent[k].l == l;
      assert t[k].l == l;
    }
  }

  lemma DividedNext(j: Job, keys: seq<nat>, sent: seq<Delivery>, p: nat, d: Delivery)
    requires Divided(j, keys, sent) && p < |keys| && d.l == keys[p]
    ensures Divided(j, keys[..p] + keys[p + 1..], sent + [d])
  {
    var keys', sent' := keys[..p] + keys[p + 1..], sent + [d];
    assert keys == keys[..p] + [keys[p]] + keys[p + 1..];
    forall l: nat ensures l in keys' <==> l in keys && l != d.l {
    }
    forall l: nat ensures Served(sent', l) <==> Served(sent, l) || l == d.l {
      ServedPlus(sent, d, l);
    }
    forall i | 0 <= i < |sent| ensures sent[i].l != d.l {
      assert Served(sent, sent[i].l);
    }
  }

  method AllLocations(j: Job) returns (keys: seq<nat>)
    ensures Divided(j, keys, []) && |keys| == j.locs
  {
    keys := [];
    for i := 0 to j.locs
      invariant |keys| == i && forall k :: 0 <= k < i ==> keys[k] == k
    {
      keys := keys + [i];
    }
    forall l: nat | l < j.locs ensures l in keys {
      assert keys[l] == l;
    }
  }

  /** An accepted delivery to the shuffler at position p. */
  method Accept(bs: seq<Bucket>, j: Job, p: nat, res: map<nat, set<nat>>, sizes: map<nat, int>,
                ghost recs: seq<seq<Record>>, ghost s: nat, keys: seq<nat>, sent: seq<Delivery>)
    returns (keys': seq<nat>, d: Delivery)
    requires Holds(bs, recs) && |j.loc| == |recs| && Sorted(j, recs, s, |j.loc|, res, sizes)
    requires Sending(j, recs, s, keys, sent) && p < |keys|
    ensures Sending(j, recs, s, keys', sent + [d]) && Holds(bs, recs)
    ensures keys' == keys[..p] + keys[p + 1..] && d.l == keys[p]
  {
    assert keys[p] in keys;
    d := Serve(bs, j, keys[p], res, sizes, recs, s);
    DividedNext(j, keys, sent, p, d);
    keys' := keys[..p] + keys[p + 1..];
  }

  /** An accepted delivery. */
  method Serve(bs: seq<Bucket>, j: Job, i: nat, res: map<nat, set<nat>>, sizes: map<nat, int>,
               ghost recs: seq<seq<Record>>, ghost s: nat) returns (d: Delivery)
    requires Holds(bs, recs) && |j.loc| == |recs| && i < j.locs
    requires Sorted(j, recs, s, |j.loc|, res, sizes)
    ensures d.l == i && Right(j, recs, s, d) && Holds(bs, recs)
  {
    ItemsCount(j, recs, s, i, |j.loc|);
    var frames := SendBuckets(bs, j, i, res[i], recs, s);
    d := Delivery(i, |res[i]|, sizes[i], frames);
  }

  // ----- Who is asked

  /** The shufflers that accepted, in that order; asked[k] gave reply k. */
  function Accepters(asked: seq<nat>, replies: seq<Reply>): seq<nat>
    requires |asked| <= |replies|
  {
    if asked == [] then []
    else
      var k := |asked| - 1;
      Accepters(asked[..k], replies) + if replies[k].Accepted? then [asked[k]] else []
  }

  ghost predicate AcceptedBefore(asked: seq<nat>, replies: seq<Reply>, k: nat, l: nat)
    requires k <= |asked| <= |replies|
  {
    exists i :: 0 <= i < k && asked[i] == l && replies[i].Accepted?
  }

  /** Before a shuffler is asked again, all the others that have not accepted are asked. */
  ghost predicate Fair(n: nat, asked: seq<nat>, replies: seq<Reply>)
    requires |asked| <= |replies|
  {
    forall i, k, l: nat :: 0 <= i < k < |asked| && asked[i] == asked[k] && l < n ==>
      l in asked[i..k] || AcceptedBefore(asked, replies, i, l)
  }

  /** The shufflers still to be served in the order in which they will be asked, from position p on. */
  function Turn(keys: seq<nat>, p: nat): seq<nat>
    requires p <= |keys|
  {
    keys[p..] + keys[..p]
  }

  /** Those asked longer ago come first. */
  ghost predicate Ordered(asked: seq<nat>, turn: seq<nat>) {
    forall x, y, i :: 0 <= x < y < |turn| && 0 <= i < |asked| && asked[i] == turn[x] ==> turn[y] in asked[i..]
  }

  ghost predicate Asking(n: nat, asked: seq<nat>, replies: seq<Reply>, turn: seq<nat>) {
    && |asked| <= |replies| && Fair(n, asked, replies) && Ordered(asked, turn) && Distinct(turn)
    && (forall k :: 0 <= k < |asked| ==> !replies[k].Failed?)
    && (forall l: nat :: l < n ==> l in turn || AcceptedBefore(asked, replies, |asked|, l))
  }

  lemma AskedIn(asked: seq<nat>, c: nat, i: nat, l: nat)
    requires i <= |asked|
    ensures (asked + [c])[i..] == asked[i..] + [c] && (l in asked[i..] ==> l in (asked + [c])[i..])
  {
  }

  lemma AcceptedMore(asked: seq<nat>, c: nat, replies: seq<Reply>, k: nat, l: nat)
    requires k <= |asked| < |replies|
    ensures AcceptedBefore(asked + [c], replies, k, l) <==> AcceptedBefore(asked, replies, k, l)
  {
  }

  /** The next one to be asked is the first in turn. */
  lemma FairNext(n: nat, asked: seq<nat>, replies: seq<Reply>, turn: seq<nat>)
    requires Asking(n, asked, replies, turn) && turn != [] && |asked| < |replies|
    ensures Fair(n, asked + [turn[0]], replies)
  {
    var c := turn[0];
    var asked' := asked + [c];
    forall i, k, l: nat | 0 <= i < k < |asked'| && asked'[i] == asked'[k] && l < n
      ensures l in asked'[i..k] || AcceptedBefore(asked', replies, i, l)
    {
      AcceptedMore(asked, c, replies, i, l);
      assert asked'[i..k] == asked[i..k];
      if k == |asked| {
        FairAt(n, asked, replies, turn, i, l);
      }
    }
  }

  lemma FairAt(n: nat, asked: seq<nat>, replies: seq<Reply>, turn: seq<nat>, i: nat, l: nat)
    requires Asking(n, asked, replies, turn) && turn != []
    requires i < |asked| && asked[i] == turn[0] && l < n
    ensures l in asked[i..] || AcceptedBefore(asked, replies, i, l)
  {
    if l in turn {
      var y :| 0 <= y < |turn| && turn[y] == l;
      if y == 0 { assert asked[i..][0] == l; }
    } else {
      var m :| 0 <= m < |asked| && asked[m] == l && replies[m].Accepted?;
      if m >= i { assert asked[i..][m - i] == l; }
    }
  }

  /** A shuffler that is busy goes to the end of the queue. */
  lemma BusyNext(n: nat, asked: seq<nat>, replies: seq<Reply>, turn: seq<nat>)
    requires Asking(n, asked, replies, turn) && turn != [] && |asked| < |replies| && replies[|asked|].Busy?
    ensures Asking(n, asked + [turn[0]], replies, turn[1..] + [turn[0]])
  {
    var c, asked', turn' := turn[0], asked + [turn[0]], turn[1..] + [turn[0]];
    FairNext(n, asked, replies, turn);
    OrderedNext(asked, turn);
    assert Distinct(turn');
    forall l: nat | l < n ensures l in turn' || AcceptedBefore(asked', replies, |asked'|, l) {
      AcceptedMore(asked, c, replies, |asked|, l);
      if l in turn {
        var y :| 0 <= y < |turn| && turn[y] == l;
        assert turn'[if y == 0 then |turn| - 1 else y - 1] == l;
      }
    }
  }

  lemma OrderedNext(asked: seq<nat>, turn: seq<nat>)
    requires turn != [] && Ordered(asked, turn) && Distinct(turn)
    ensures Ordered(asked + [turn[0]], turn[1..] + [turn[0]]) && Ordered(asked + [turn[0]], turn[1..])
  {
    var c, asked', turn' := turn[0], asked + [turn[0]], turn[1..] + [turn[0]];
    forall x, y, i | 0 <= x < y < |turn'| && 0 <= i < |asked'| && asked'[i] == turn'[x]
      ensures turn'[y] in asked'[i..]
    {
      assert turn'[x] == turn[x + 1];
      if y < |turn| - 1 { assert turn'[y] == turn[y + 1]; }
      AskedIn(asked, c, i, turn'[y]);
    }
    assert forall x :: 0 <= x < |turn| - 1 ==> turn[1..][x] == turn'[x];
  }

  /** One that accepts leaves it. */
  lemma AcceptNext(n: nat, asked: seq<nat>, replies: seq<Reply>, turn: seq<nat>)
    requires Asking(n, asked, replies, turn) && turn != [] && |asked| < |replies| && replies[|asked|].Accepted?
    ensures Asking(n, asked + [turn[0]], replies, turn[1..])
  {
    var c, asked' := turn[0], asked + [turn[0]];
    FairNext(n, asked, replies, turn);
    OrderedNext(asked, turn);
    forall l: nat | l < n ensures l in turn[1..] || AcceptedBefore(asked', replies, |asked'|, l) {
      AcceptedMore(asked, c, replies, |asked|, l);
      if l in turn {
        var y :| 0 <= y < |turn| && turn[y] == l;
        if y == 0 { assert asked'[|asked|] == l; } else { assert turn[1..][y - 1] == l; }
      }
    }
  }

  lemma AcceptersMore(asked: seq<nat>, replies: seq<Reply>, c: nat)
    requires |asked| < |replies|
    ensures Accepters(asked + [c], replies) ==
      Accepters(asked, replies) + if replies[|asked|].Accepted? then [c] else []
  {
    assert (asked + [c])[..|asked|] == asked;
  }

  /** Position p in a queue that is walked round and round. */
  lemma TurnNext(keys: seq<nat>, p: nat)
    requires p < |keys| && Distinct(keys)
    ensures Turn(keys, p)[0] == keys[p] && Distinct(Turn(keys, p))
    ensures Turn(keys, if p + 1 == |keys| then 0 else p + 1) == Turn(keys, p)[1..] + [keys[p]]
    ensures var keys' := keys[..p] + keys[p + 1..];
      Turn(keys', if p == |keys'| then 0 else p) == Turn(keys, p)[1..]
  {
  }

  /** To which shufflers the deliveries went. */
  function Targets(sent: seq<Delivery>): seq<nat> { seq(|sent|, k requires 0 <= k < |sent| => sent[k].l) }

  /** How it ends: the deliveries went to those who accepted; the result is 1 once all have, -1 at the first call
      that fails, and 0 when the answers end before that. */
  ghost predicate Ended(n: nat, replies: seq<Reply>, asked: seq<nat>, sent: seq<Delivery>, rc: int) {
    && |asked| <= |replies| && Fair(n, asked, replies) && Targets(sent) == Accepters(asked, replies)
    && (forall k :: 0 <= k < |asked| - 1 ==> !replies[k].Failed?)
    && (rc == 1 <==> |sent| == n)
    && (rc == -1 <==> asked != [] && replies[|asked| - 1].Failed?)
    && (rc != 1 && rc != -1 ==> rc == 0 && |asked| == |replies|)
  }

  /** sendResultToBuckets: asks the shufflers in turn, again and again while they are busy, until
      each has accepted its buckets. */
  method SendResultToBuckets(result: SPEResult, j: Job, replies: seq<Reply>, ghost recs: seq<seq<Record>>, ghost s: nat)
    returns (rc: int, sent: seq<Delivery>, ghost asked: seq<nat>)
    requires result.Valid() && GoodJob(j) && |j.loc| <= |result.buckets| && recs == result.Recs()[..|j.loc|]
    ensures AllRight(j, recs, s, sent) && NoneTwice(sent)
    ensures rc == 1 ==> forall l: nat :: l < j.locs ==> Served(sent, l)
    ensures Ended(j.locs, replies, asked, sent, rc)
  {
    ResultHolds(result, |j.loc|);
    rc, sent, asked := SendAll(result.buckets, j, replies, recs, s);
  }

  /** Between two calls: t answers are in. */
  ghost predicate Between(j: Job, replies: seq<Reply>, asked: seq<nat>, sent: seq<Delivery>, keys: seq<nat>, p: nat) {
    && p <= |keys| && (keys != [] ==> p < |keys|) && |sent| + |keys| == j.locs
    && Asking(j.locs, asked, replies, Turn(keys, p)) && Targets(sent) == Accepters(asked, replies)
  }

  lemma NextBusy(j: Job, replies: seq<Reply>, asked: seq<nat>, sent: seq<Delivery>, keys: seq<nat>, p: nat)
    requires Between(j, replies, asked, sent, keys, p) && p < |keys| && Distinct(keys)
    requires |asked| < |replies| && replies[|asked|].Busy?
    ensures Between(j, replies, asked + [keys[p]], sent, keys, if p + 1 == |keys| then 0 else p + 1)
  {
    TurnNext(keys, p);
    BusyNext(j.locs, asked, replies, Turn(keys, p));
    AcceptersMore(asked, replies, keys[p]);
  }

  lemma NextAccepted(j: Job, replies: seq<Reply>, asked: seq<nat>, sent: seq<Delivery>, keys: seq<nat>, p: nat,
                     d: Delivery)
    requires Between(j, replies, asked, sent, keys, p) && p < |keys| && Distinct(keys) && d.l == keys[p]
    requires |asked| < |replies| && replies[|asked|].Accepted?
    ensures var keys' := keys[..p] + keys[p + 1..];
      Between(j, replies, asked + [keys[p]], sent + [d], keys', if p == |keys'| then 0 else p)
  {
    TurnNext(keys, p);
    AcceptNext(j.locs, asked, replies, Turn(keys, p));
    AcceptersMore(asked, replies, keys[p]);
    assert Targets(sent + [d]) == Targets(sent) + [d.l];
  }

  lemma FailedEnds(j: Job, replies: seq<Reply>, asked: seq<nat>, sent: seq<Delivery>, keys: seq<nat>, p: nat)
    requires Between(j, replies, asked, sent, keys, p) && p < |keys| && Distinct(keys)
    requires |asked| < |replies| && replies[|asked|].Failed?
    ensures Ended(j.locs, replies, asked + [keys[p]], sent, -1)
  {
    TurnNext(keys, p);
    FairNext(j.locs, asked, replies, Turn(keys, p));
    AcceptersMore(asked, replies, keys[p]);
  }

  method SendAll(bs: seq<Bucket>, j: Job, replies: seq<Reply>, ghost recs: seq<seq<Record>>, ghost s: nat)
    returns (rc: int, sent: seq<Delivery>, ghost asked: seq<nat>)
    requires Holds(bs, recs) && GoodJob(j) && |j.loc| == |recs|
    ensures AllRight(j, recs, s, sent) && NoneTwice(sent)
    ensures rc == 1 ==> forall l: nat :: l < j.locs ==> Served(sent, l)
    ensures Ended(j.locs, replies, asked, sent, rc)
  {
    var res, sizes := SortByLocation(bs, j, recs, s);
    var keys := AllLocations(j);
    var p := 0;
    sent, asked := [], [];
    var t := 0;
    while keys != []
      invariant t == |asked| && Between(j, replies, asked, sent, keys, p)
      invariant Sending(j, recs, s, keys, sent) && Holds(bs, recs)
      decreases |replies| - t
    {
      if t == |replies| {
        return 0, sent, asked;
      }
      var reply := replies[t];
      t := t + 1;
      if reply.Failed? {
        FailedEnds(j, replies, asked, sent, keys, p);
        return -1, sent, asked + [keys[p]];
      } else if reply.Busy? {
        NextBusy(j, replies, asked, sent, keys, p);
        asked := asked + [keys[p]];
        p := if p + 1 == |keys| then 0 else p + 1;
      } else {
        var keys', d := Accept(bs, j, p, res, sizes, recs, s, keys, sent);
        NextAccepted(j, replies, asked, sent, keys, p, d);
        asked := asked + [keys[p]];
        keys, sent := keys', sent + [d];
        p := if p == |keys| then 0 else p;
      }
    }
    rc := 1;
  }
}
