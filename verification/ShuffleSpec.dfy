/** The Sphere shuffle: engines (SPE) collect result records in buckets and send them in batches to
    shufflers, which append them to one data file and one index file per bucket. */
module ShuffleSpec {

  /** A record and the engine that emitted it. */
  datatype Record = Record(src: nat, bytes: seq<bv8>)

  ghost predicate NoneEmpty(rs: seq<Record>) { forall i :: 0 <= i < |rs| ==> rs[i].bytes != [] }

  // ----- Data and index

  function Join(rs: seq<Record>): seq<bv8> { if rs == [] then [] else Join(rs[..|rs| - 1]) + rs[|rs| - 1].bytes }

  /** 0 and where each record ends. */
  function Ends(rs: seq<Record>): (e: seq<int>)
    ensures |e| == |rs| + 1
  {
    if rs == [] then [0] else Ends(rs[..|rs| - 1]) + [|Join(rs)|]
  }

  /** The same index for data that come after `start` other bytes. */
  function Shift(e: seq<int>, start: int): (f: seq<int>)
    ensures |f| == |e| && forall i :: 0 <= i < |f| ==> f[i] == e[i] + start
  {
    seq(|e|, i requires 0 <= i < |e| => e[i] + start)
  }

  lemma {:induction false} JoinPlus(a: seq<Record>, b: seq<Record>)
    ensures Join(a + b) == Join(a) + Join(b)
    decreases |b|
  {
    if b == [] {
      assert a + b == a;
    } else {
      assert (a + b)[..|a + b| - 1] == a + b[..|b| - 1];
      JoinPlus(a, b[..|b| - 1]);
    }
  }

  lemma ShiftPlus(e: seq<int>, x: int, start: int)
    ensures Shift(e + [x], start) == Shift(e, start) + [x + start]
  {
  }

  lemma EndsStep(rs: seq<Record>)
    requires rs != []
    ensures Ends(rs) == Ends(rs[..|rs| - 1]) + [|Join(rs)|]
    ensures Ends(rs)[1..] == Ends(rs[..|rs| - 1])[1..] + [|Join(rs)|]
  {
  }

  lemma {:induction false} EndsPlus(a: seq<Record>, b: seq<Record>)
    ensures Ends(a + b) == Ends(a) + Shift(Ends(b)[1..], |Join(a)|)
    decreases |b|
  {
    if b == [] {
      assert a + b == a;
    } else {
      var c := b[..|b| - 1];
      assert (a + b)[..|a + b| - 1] == a + c;
      EndsPlus(a, c);
      JoinPlus(a, b);
      EndsStep(a + b);
      EndsStep(b);
      ShiftPlus(Ends(c)[1..], |Join(b)|, |Join(a)|);
    }
  }

  /** The index starts at 0, ends at the length of the data, and cuts out record i. */
  lemma {:induction false} RecordAt(rs: seq<Record>, i: nat)
    requires i < |rs|
    ensures 0 <= Ends(rs)[i] <= Ends(rs)[i + 1] <= |Join(rs)|
    ensures Join(rs)[Ends(rs)[i]..Ends(rs)[i + 1]] == rs[i].bytes
    ensures Ends(rs)[0] == 0 && Ends(rs)[|rs|] == |Join(rs)|
    ensures Ends(rs)[i + 1] == Ends(rs)[i] + |rs[i].bytes|
    decreases |rs|
  {
    var front := rs[..|rs| - 1];
    EndsStep(rs);
    EndsOuter(front);
    if i < |front| {
      RecordAt(front, i);
      Slice(Join(front), rs[|rs| - 1].bytes, Ends(front)[i], Ends(front)[i + 1]);
    } else {
      Slice(Join(front), rs[i].bytes, |Join(front)|, |Join(rs)|);
    }
  }

  lemma {:induction false} EndsOuter(rs: seq<Record>)
    ensures Ends(rs)[0] == 0 && Ends(rs)[|rs|] == |Join(rs)|
  {
    if rs != [] {
      EndsOuter(rs[..|rs| - 1]);
    }
  }

  lemma Slice(a: seq<bv8>, b: seq<bv8>, i: int, j: int)
    requires 0 <= i <= j <= |a| + |b|
    ensures j <= |a| ==> (a + b)[i..j] == a[i..j]
    ensures i == |a| && j == |a| + |b| ==> (a + b)[i..j] == b
  {
  }

  // ----- Deliveries and files

  /** What a shuffler receives for one bucket: the data, the ends of its records, and (for the
      record only) the records. */
  datatype Item = Item(src: nat, bucket: nat, data: seq<bv8>, ends: seq<int>, recs: seq<Record>)

  ghost predicate GoodItem(it: Item) {
    && it.recs != [] && NoneEmpty(it.recs) && (forall i :: 0 <= i < |it.recs| ==> it.recs[i].src == it.src)
    && it.data == Join(it.recs) && it.ends == Ends(it.recs)[1..]
  }

  /** The two files of a bucket, the length of the data, and (for the record only) what arrived. */
  datatype Bin = Bin(data: seq<bv8>, index: seq<int>, offset: int, recs: seq<Record>)

  const EmptyBin := Bin([], [], 0, [])

  function Receive(bin: Bin, it: Item): Bin
    requires it.ends != []
  {
    Bin(bin.data + it.data,
        (if bin.offset == 0 then bin.index + [0] else bin.index) + Shift(it.ends, bin.offset),
        it.ends[|it.ends| - 1] + bin.offset,
        bin.recs + it.recs)
  }

  /** The files hold the records that arrived, and an index of them. */
  ghost predicate GoodBin(bin: Bin) {
    && NoneEmpty(bin.recs) && bin.data == Join(bin.recs) && bin.offset == |bin.data|
    && bin.index == if bin.recs == [] then [] else Ends(bin.recs)
  }

  lemma JoinNotEmpty(rs: seq<Record>)
    requires NoneEmpty(rs)
    ensures Join(rs) == [] <==> rs == []
  {
  }

  lemma ReceiveGood(bin: Bin, it: Item)
    requires GoodBin(bin) && GoodItem(it)
    ensures GoodBin(Receive(bin, it))
  {
    JoinNotEmpty(bin.recs);
    JoinPlus(bin.recs, it.recs);
    EndsPlus(bin.recs, it.recs);
    RecordAt(it.recs, 0);
    assert Ends([]) == [0];
  }

  /** The files of a bucket can be read record by record. */
  lemma FileReads(bin: Bin, i: nat)
    requires GoodBin(bin) && i < |bin.recs|
    ensures |bin.index| == |bin.recs| + 1 && bin.index[0] == 0 && bin.index[|bin.recs|] == |bin.data|
    ensures 0 <= bin.index[i] < bin.index[i + 1] <= |bin.data|
    ensures bin.data[bin.index[i]..bin.index[i + 1]] == bin.recs[i].bytes
  {
    RecordAt(bin.recs, i);
  }

  /** The records of one engine, in their order. */
  function Of(rs: seq<Record>, s: nat): seq<Record> {
    if rs == [] then [] else if rs[0].src == s then [rs[0]] + Of(rs[1..], s) else Of(rs[1..], s)
  }

  lemma {:induction false} OfPlus(a: seq<Record>, b: seq<Record>, s: nat)
    ensures Of(a + b, s) == Of(a, s) + Of(b, s)
  {
    if a == [] {
      assert a + b == b;
    } else {
      assert (a + b)[1..] == a[1..] + b;
      OfPlus(a[1..], b, s);
    }
  }

  lemma {:induction false} OfAll(a: seq<Record>, s: nat, t: nat)
    requires forall i :: 0 <= i < |a| ==> a[i].src == t
    ensures Of(a, s) == if s == t then a else []
  {
    if a != [] {
      OfAll(a[1..], s, t);
    }
  }

  /** Two sequences with the same records of every engine have the same records. */
  lemma SameOf(a: seq<Record>, b: seq<Record>)
    requires forall s: nat :: Of(a, s) == Of(b, s)
    ensures multiset(a) == multiset(b)
  {
    forall r: Record ensures multiset(a)[r] == multiset(b)[r] {
      CountOf(a, r);
      CountOf(b, r);
      assert Of(a, r.src) == Of(b, r.src);
    }
  }

  lemma {:induction false} CountOf(a: seq<Record>, r: Record)
    ensures multiset(a)[r] == multiset(Of(a, r.src))[r]
  {
    if a != [] {
      assert a == [a[0]] + a[1..];
      CountOf(a[1..], r);
    }
  }

  // ----- The job

  /** loc[b] is the shuffler of bucket b. */
  datatype Job = Job(loc: seq<nat>, locs: nat)

  /** An engine: its buckets, and while it delivers them the shufflers already served. */
  datatype Spe = Spe(recs: seq<seq<Record>>, sending: bool, served: set<nat>)

  datatype State = State(spes: seq<Spe>, queues: seq<seq<Item>>, bins: seq<Bin>)

  /** An engine emits data[..len] to bucket b; starts a delivery; is served by shuffler l; ends the
      delivery; shuffler l files the next item that was sent to it. */
  datatype Event =
    | Emit(s: nat, b: int, data: seq<bv8>, len: int) | Deliver(s: nat) | Send(s: nat, l: nat)
    | Done(s: nat) | File(l: nat)

  ghost predicate GoodJob(j: Job) { forall b :: 0 <= b < |j.loc| ==> j.loc[b] < j.locs }

  ghost predicate Shape(j: Job, st: State) {
    && GoodJob(j) && |st.queues| == j.locs && |st.bins| == |j.loc|
    && (forall s :: 0 <= s < |st.spes| ==> |st.spes[s].recs| == |j.loc|)
  }

  /** The items of one delivery to shuffler l, for the buckets below n: none for an empty bucket. */
  function Items(j: Job, recs: seq<seq<Record>>, s: nat, l: nat, n: nat): seq<Item>
    requires n <= |j.loc| == |recs|
  {
    if n == 0 then []
    else if j.loc[n - 1] == l && recs[n - 1] != [] then
      Items(j, recs, s, l, n - 1) + [ItemOf(recs[n - 1], s, n - 1)]
    else Items(j, recs, s, l, n - 1)
  }

  /** The records rs of bucket b, as engine s sends them. */
  function ItemOf(rs: seq<Record>, s: nat, b: nat): Item { Item(s, b, Join(rs), Ends(rs)[1..], rs) }

  ghost predicate Legal(j: Job, st: State, e: Event)
    requires Shape(j, st)
  {
    match e
    case Emit(s, b, data, len) => s < |st.spes| && !st.spes[s].sending && len <= |data|
    case Deliver(s) => s < |st.spes| && !st.spes[s].sending
    case Send(s, l) => s < |st.spes| && st.spes[s].sending && l !in st.spes[s].served && l < j.locs
    case Done(s) => s < |st.spes| && st.spes[s].sending && forall l :: 0 <= l < j.locs ==> l in st.spes[s].served
    case File(l) => l < j.locs && st.queues[l] != [] && st.queues[l][0].ends != [] && st.queues[l][0].bucket < |j.loc|
  }

  /** addData drops records without bytes and records for buckets that do not exist. */
  function AddRecord(recs: seq<seq<Record>>, s: nat, b: int, data: seq<bv8>, len: int): (r: seq<seq<Record>>)
    requires len <= |data|
    ensures |r| == |recs|
  {
    if b >= |recs| || b < 0 || len <= 0 then recs else recs[b := recs[b] + [Record(s, data[..len])]]
  }

  /** The number of bytes in all buckets. */
  function DataSize(recs: seq<seq<Record>>): int {
    if recs == [] then 0 else DataSize(recs[..|recs| - 1]) + |Join(recs[|recs| - 1])|
  }

  /** One record more. */
  lemma {:induction false} DataSizeAdd(recs: seq<seq<Record>>, b: nat, r: Record)
    requires b < |recs|
    ensures DataSize(recs[b := recs[b] + [r]]) == DataSize(recs) + |r.bytes|
    decreases |recs|
  {
    var n := |recs| - 1;
    var more := recs[b := recs[b] + [r]];
    if b == n {
      assert more[..n] == recs[..n];
      assert (recs[b] + [r])[..|recs[b]|] == recs[b];
    } else {
      assert more[..n] == recs[..n][b := recs[..n][b] + [r]];
      DataSizeAdd(recs[..n], b, r);
    }
  }

  lemma {:induction false} NoDataSize(recs: seq<seq<Record>>)
    requires forall b :: 0 <= b < |recs| ==> recs[b] == []
    ensures DataSize(recs) == 0
    decreases |recs|
  {
    if recs != [] {
      NoDataSize(recs[..|recs| - 1]);
    }
  }

  /** One row of a result: its bucket, the bytes from its start on, and its length, which is whatever
      the user's index says. */
  datatype Row = Row(bucket: int, data: seq<bv8>, len: int)

  ghost predicate GoodRows(rows: seq<Row>) { forall i :: 0 <= i < |rows| ==> rows[i].len <= |rows[i].data| }

  function AddAll(recs: seq<seq<Record>>, s: nat, rows: seq<Row>): (r: seq<seq<Record>>)
    requires GoodRows(rows)
    ensures |r| == |recs|
  {
    if rows == [] then recs
    else
      var last := rows[|rows| - 1];
      AddRecord(AddAll(recs, s, rows[..|rows| - 1]), s, last.bucket, last.data, last.len)
  }

  ghost predicate Ascending(pick: seq<int>) { forall i, k :: 0 <= i < k < |pick| ==> pick[i] < pick[k] }

  ghost predicate RowIs(src: nat, rows: seq<Row>, r: int, rec: Record)
    requires GoodRows(rows)
  {
    0 <= r < |rows| && rows[r].len >= 0 && rec == Record(src, rows[r].data[..rows[r].len])
  }

  /** now is was and then the rows of positive length that name bucket b, cut to their length, in order;
      `pick` are their numbers. */
  ghost predicate RowsAdded(src: nat, rows: seq<Row>, b: int, pick: seq<int>, was: seq<Record>, now: seq<Record>)
    requires GoodRows(rows)
  {
    && Ascending(pick) && |now| == |was| + |pick| && now[..|was|] == was
    && (forall r :: r in pick <==> 0 <= r < |rows| && rows[r].bucket == b && rows[r].len > 0)
    && (forall i :: 0 <= i < |pick| ==> RowIs(src, rows, pick[i], now[|was| + i]))
  }

  /** Adding rows to the buckets, seen from one bucket. */
  lemma {:induction false} AddAllAt(recs: seq<seq<Record>>, src: nat, rows: seq<Row>, b: nat) returns (pick: seq<int>)
    requires GoodRows(rows) && b < |recs|
    ensures RowsAdded(src, rows, b, pick, recs[b], AddAll(recs, src, rows)[b])
    decreases |rows|
  {
    if rows == [] {
      pick := [];
    } else {
      var front, last := rows[..|rows| - 1], rows[|rows| - 1];
      var before := AddAllAt(recs, src, front, b);
      pick := if last.bucket == b && last.len > 0 then before + [|rows| - 1] else before;
      RowAdded(src, front, last, b, before, recs[b], AddAll(recs, src, front)[b]);
      assert rows == front + [last];
    }
  }

  lemma RowAdded(src: nat, rows: seq<Row>, last: Row, b: int, pick: seq<int>, was: seq<Record>, now: seq<Record>)
    requires GoodRows(rows) && last.len <= |last.data| && RowsAdded(src, rows, b, pick, was, now)
    ensures GoodRows(rows + [last])
    ensures if last.bucket == b && last.len > 0
      then RowsAdded(src, rows + [last], b, pick + [|rows|], was, now + [Record(src, last.data[..last.len])])
      else RowsAdded(src, rows + [last], b, pick, was, now)
  {
    var all := rows + [last];
    assert forall r :: 0 <= r < |rows| ==> all[r] == rows[r];
    assert forall i :: 0 <= i < |pick| ==> pick[i] in pick;
    if last.bucket == b && last.len > 0 {
      var more := pick + [|rows|];
      forall r ensures r in more <==> r in pick || r == |rows| {
      }
    }
  }

  lemma AddAllStep(recs: seq<seq<Record>>, s: nat, rows: seq<Row>, r: nat)
    requires r < |rows| && GoodRows(rows)
    ensures AddAll(recs, s, rows[..r + 1]) ==
      AddRecord(AddAll(recs, s, rows[..r]), s, rows[r].bucket, rows[r].data, rows[r].len)
  {
    assert rows[..r + 1][..r] == rows[..r];
  }

  function Apply(j: Job, st: State, e: Event): State
    requires Shape(j, st) && Legal(j, st, e)
  {
    match e
    case Emit(s, b, data, len) =>
      var p := st.spes[s];
      st.(spes := st.spes[s := p.(recs := AddRecord(p.recs, s, b, data, len))])
    case Deliver(s) =>
      st.(spes := st.spes[s := st.spes[s].(sending := true, served := {})])
    case Send(s, l) =>
      var p := st.spes[s];
      st.(spes := st.spes[s := p.(served := p.served + {l})],
          queues := st.queues[l := st.queues[l] + Items(j, p.recs, s, l, |j.loc|)])
    case Done(s) =>
      st.(spes := st.spes[s := Spe(seq(|j.loc|, b => []), false, {})])
    case File(l) =>
      var it := st.queues[l][0];
      st.(queues := st.queues[l := st.queues[l][1..]], bins := st.bins[it.bucket := Receive(st.bins[it.bucket], it)])
  }
}
