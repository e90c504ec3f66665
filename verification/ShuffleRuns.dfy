/** Whole runs of the shuffle, with a delivery as one step. */
module ShuffleRuns {
  import opened Seqs
  import opened ShuffleSpec

  // ----- Where the records of engine s for bucket b are

  /** Still with the engine. */
  ghost function Held(j: Job, st: State, s: nat, b: nat): seq<Record>
    requires Shape(j, st) && b < |j.loc|
  {
    if s >= |st.spes| || (st.spes[s].sending && j.loc[b] in st.spes[s].served) then [] else st.spes[s].recs[b]
  }

  /** On their way to a shuffler. */
  ghost function Sent(q: seq<Item>, s: nat, b: nat): seq<Record> {
    if q == [] then []
    else if q[0].src == s && q[0].bucket == b then q[0].recs + Sent(q[1..], s, b)
    else Sent(q[1..], s, b)
  }

  /** All of them, oldest first: filed, on their way, still with the engine. */
  ghost function Trace(j: Job, st: State, s: nat, b: nat): seq<Record>
    requires Shape(j, st) && b < |j.loc|
  {
    Of(st.bins[b].recs, s) + Sent(st.queues[j.loc[b]], s, b) + Held(j, st, s, b)
  }

  /** What engine s emitted to bucket b, without the records that have no bytes. */
  ghost function Emitted(evs: seq<Event>, s: nat, b: nat): seq<Record> {
    if evs == [] then [] else EmittedBy(evs[0], s, b) + Emitted(evs[1..], s, b)
  }

  ghost function EmittedBy(e: Event, s: nat, b: nat): seq<Record> {
    if e.Emit? && e.s == s && e.b == b && 0 < e.len <= |e.data| then [Record(s, e.data[..e.len])] else []
  }

  // ----- Invariants

  ghost predicate GoodSpe(p: Spe, s: nat) {
    AllOwn(p.recs, s)
  }

  ghost predicate AllOwn(recs: seq<seq<Record>>, s: nat) { forall b :: 0 <= b < |recs| ==> Own(recs[b], s) }

  ghost predicate Own(rs: seq<Record>, s: nat) {
    forall i :: 0 <= i < |rs| ==> rs[i].src == s && rs[i].bytes != []
  }

  ghost predicate GoodQueue(j: Job, q: seq<Item>, l: nat) {
    forall i :: 0 <= i < |q| ==> GoodItem(q[i]) && q[i].bucket < |j.loc| && j.loc[q[i].bucket] == l
  }

  ghost predicate Inv(j: Job, st: State) {
    && Shape(j, st)
    && (forall s :: 0 <= s < |st.spes| ==> GoodSpe(st.spes[s], s))
    && (forall l :: 0 <= l < |st.queues| ==> GoodQueue(j, st.queues[l], l))
    && (forall b :: 0 <= b < |st.bins| ==> GoodBin(st.bins[b]))
  }

  // ----- Items of one delivery

  lemma OwnItem(rs: seq<Record>, s: nat, b: nat)
    requires Own(rs, s) && rs != []
    ensures GoodItem(ItemOf(rs, s, b))
  {
  }

  lemma {:induction false} ItemsGood(j: Job, recs: seq<seq<Record>>, s: nat, l: nat, n: nat)
    requires n <= |j.loc| == |recs| && AllOwn(recs, s)
    ensures GoodQueue(j, Items(j, recs, s, l, n), l)
  {
    if n > 0 {
      ItemsGood(j, recs, s, l, n - 1);
      if j.loc[n - 1] == l && recs[n - 1] != [] {
        OwnItem(recs[n - 1], s, n - 1);
        QueuePlus(j, Items(j, recs, s, l, n - 1), l, ItemOf(recs[n - 1], s, n - 1));
      }
    }
  }

  lemma QueuePlus(j: Job, q: seq<Item>, l: nat, it: Item)
    requires GoodQueue(j, q, l) && GoodItem(it) && it.bucket < |j.loc| && j.loc[it.bucket] == l
    ensures GoodQueue(j, q + [it], l)
  {
  }

  lemma {:induction false} SentPlus(q: seq<Item>, r: seq<Item>, s: nat, b: nat)
    ensures Sent(q + r, s, b) == Sent(q, s, b) + Sent(r, s, b)
  {
    if q == [] {
      assert q + r == r;
    } else {
      assert (q + r)[1..] == q[1..] + r;
      SentPlus(q[1..], r, s, b);
    }
  }

  lemma SentOne(it: Item, s: nat, b: nat)
    ensures Sent([it], s, b) == if it.src == s && it.bucket == b then it.recs else []
  {
    assert [it][1..] == [];
    assert it.recs + [] == it.recs;
  }

  /** A delivery carries every bucket of its shuffler whole, and nothing else. */
  lemma {:induction false} ItemsSent(j: Job, recs: seq<seq<Record>>, t: nat, l: nat, n: nat, s: nat, b: nat)
    requires n <= |j.loc| == |recs|
    ensures Sent(Items(j, recs, t, l, n), s, b) == if s == t && b < n && j.loc[b] == l then recs[b] else []
  {
    if n > 0 {
      ItemsSent(j, recs, t, l, n - 1, s, b);
      if j.loc[n - 1] == l && recs[n - 1] != [] {
        var it := ItemOf(recs[n - 1], t, n - 1);
        SentPlus(Items(j, recs, t, l, n - 1), [it], s, b);
        SentOne(it, s, b);
      }
    }
  }

  // ----- One event

  lemma EmitInv(j: Job, st: State, e: Event)
    requires Inv(j, st) && Legal(j, st, e) && e.Emit?
    ensures Inv(j, Apply(j, st, e))
  {
    var p := st.spes[e.s];
    assert GoodSpe(p, e.s);
    var rs := AddRecord(p.recs, e.s, e.b, e.data, e.len);
    forall k | 0 <= k < |rs| ensures Own(rs[k], e.s) {
      assert Own(p.recs[k], e.s);
    }
    assert GoodSpe(p.(recs := rs), e.s);
  }

  lemma EmitTrace(j: Job, st: State, e: Event, s: nat, b: nat)
    requires Inv(j, st) && Legal(j, st, e) && e.Emit? && Shape(j, Apply(j, st, e)) && b < |j.loc|
    ensures Trace(j, Apply(j, st, e), s, b) == Trace(j, st, s, b) + EmittedBy(e, s, b)
  {
    assert Held(j, Apply(j, st, e), s, b) == Held(j, st, s, b) + EmittedBy(e, s, b);
    Assoc(Of(st.bins[b].recs, s) + Sent(st.queues[j.loc[b]], s, b), Held(j, st, s, b), EmittedBy(e, s, b));
  }

  lemma SendInv(j: Job, st: State, e: Event)
    requires Inv(j, st) && Legal(j, st, e) && e.Send?
    ensures Inv(j, Apply(j, st, e))
  {
    assert GoodSpe(st.spes[e.s], e.s);
    ItemsGood(j, st.spes[e.s].recs, e.s, e.l, |j.loc|);
  }

  lemma SendHeld(j: Job, st: State, e: Event, s: nat, b: nat)
    requires Shape(j, st) && Legal(j, st, e) && e.Send? && Shape(j, Apply(j, st, e)) && b < |j.loc|
    ensures Held(j, Apply(j, st, e), s, b) == if s == e.s && j.loc[b] == e.l then [] else Held(j, st, s, b)
    ensures s == e.s && j.loc[b] == e.l ==> Held(j, st, s, b) == st.spes[s].recs[b]
  {
  }

  lemma SendQueue(j: Job, st: State, e: Event, s: nat, b: nat)
    requires Shape(j, st) && Legal(j, st, e) && e.Send? && Shape(j, Apply(j, st, e)) && b < |j.loc|
    ensures Sent(Apply(j, st, e).queues[j.loc[b]], s, b) ==
      Sent(st.queues[j.loc[b]], s, b) + if s == e.s && j.loc[b] == e.l then st.spes[s].recs[b] else []
  {
    var p, q := st.spes[e.s], st.queues[j.loc[b]];
    if j.loc[b] == e.l {
      ItemsSent(j, p.recs, e.s, e.l, |j.loc|, s, b);
      SentPlus(q, Items(j, p.recs, e.s, e.l, |j.loc|), s, b);
    } else {
      assert Sent(q, s, b) + [] == Sent(q, s, b);
    }
  }

  lemma SendTrace(j: Job, st: State, e: Event, s: nat, b: nat)
    requires Inv(j, st) && Legal(j, st, e) && e.Send? && Shape(j, Apply(j, st, e)) && b < |j.loc|
    ensures Trace(j, Apply(j, st, e), s, b) == Trace(j, st, s, b)
  {
    SendHeld(j, st, e, s, b);
    SendQueue(j, st, e, s, b);
    if s == e.s && j.loc[b] == e.l {
      Assoc(Of(st.bins[b].recs, s), Sent(st.queues[e.l], s, b), st.spes[s].recs[b]);
    }
  }

  lemma InvUpdate(j: Job, st: State, l: nat, q: seq<Item>, b: nat, bin: Bin)
    requires Inv(j, st) && l < |st.queues| && b < |st.bins| && GoodQueue(j, q, l) && GoodBin(bin)
    ensures Inv(j, st.(queues := st.queues[l := q], bins := st.bins[b := bin]))
  {
  }

  lemma QueueTail(j: Job, q: seq<Item>, l: nat)
    requires q != [] && GoodQueue(j, q, l)
    ensures GoodQueue(j, q[1..], l) && GoodItem(q[0])
  {
  }

  lemma FileInv(j: Job, st: State, e: Event)
    requires Inv(j, st) && Legal(j, st, e) && e.File?
    ensures Inv(j, Apply(j, st, e))
  {
    var q := st.queues[e.l];
    QueueTail(j, q, e.l);
    var bin := st.bins[q[0].bucket];
    ReceiveGood(bin, q[0]);
    InvUpdate(j, st, e.l, q[1..], q[0].bucket, Receive(bin, q[0]));
  }

  lemma Filed(x: seq<Record>, r: seq<Record>, y: seq<Record>, z: seq<Record>)
    ensures (x + r) + y + z == x + (r + y) + z
  {
  }

  lemma FileTrace(j: Job, st: State, e: Event, s: nat, b: nat)
    requires Inv(j, st) && Legal(j, st, e) && e.File? && Shape(j, Apply(j, st, e)) && b < |j.loc|
    ensures Trace(j, Apply(j, st, e), s, b) == Trace(j, st, s, b)
  {
    var q := st.queues[e.l];
    QueueTail(j, q, e.l);
    assert Held(j, Apply(j, st, e), s, b) == Held(j, st, s, b);
    if q[0].bucket == b {
      FiledRecords(st.bins[b].recs, q, s, b, Held(j, st, s, b));
    } else if j.loc[b] == e.l {
      assert Sent(q, s, b) == Sent(q[1..], s, b);
    }
  }

  lemma FiledRecords(rs: seq<Record>, q: seq<Item>, s: nat, b: nat, held: seq<Record>)
    requires q != [] && GoodItem(q[0]) && q[0].bucket == b
    ensures Of(rs + q[0].recs, s) + Sent(q[1..], s, b) + held == Of(rs, s) + Sent(q, s, b) + held
  {
    OfPlus(rs, q[0].recs, s);
    OfAll(q[0].recs, s, q[0].src);
    if q[0].src == s {
      Filed(Of(rs, s), q[0].recs, Sent(q[1..], s, b), held);
    } else {
      assert Of(rs, s) + [] == Of(rs, s);
    }
  }

  lemma PauseInv(j: Job, st: State, e: Event)
    requires Inv(j, st) && Legal(j, st, e) && (e.Deliver? || e.Done?)
    ensures Inv(j, Apply(j, st, e))
  {
  }

  lemma PauseTrace(j: Job, st: State, e: Event, s: nat, b: nat)
    requires Inv(j, st) && Legal(j, st, e) && (e.Deliver? || e.Done?) && Shape(j, Apply(j, st, e)) && b < |j.loc|
    ensures Trace(j, Apply(j, st, e), s, b) == Trace(j, st, s, b)
  {
    assert Held(j, Apply(j, st, e), s, b) == Held(j, st, s, b);
  }

  lemma EventInv(j: Job, st: State, e: Event)
    requires Inv(j, st) && Legal(j, st, e)
    ensures Inv(j, Apply(j, st, e)) && |Apply(j, st, e).spes| == |st.spes|
  {
    if e.Emit? {
      EmitInv(j, st, e);
    } else if e.Send? {
      SendInv(j, st, e);
    } else if e.File? {
      FileInv(j, st, e);
    } else {
      PauseInv(j, st, e);
    }
  }

  /** One event adds what it emits to the trace, and keeps the rest. */
  lemma EventStep(j: Job, st: State, e: Event, s: nat, b: nat)
    requires Inv(j, st) && Legal(j, st, e) && b < |j.loc|
    ensures Inv(j, Apply(j, st, e)) && |Apply(j, st, e).spes| == |st.spes|
    ensures Trace(j, Apply(j, st, e), s, b) == Trace(j, st, s, b) + EmittedBy(e, s, b)
  {
    EventInv(j, st, e);
    if e.Emit? {
      EmitTrace(j, st, e, s, b);
    } else if e.Send? {
      SendTrace(j, st, e, s, b);
    } else if e.File? {
      FileTrace(j, st, e, s, b);
    } else {
      PauseTrace(j, st, e, s, b);
    }
  }

  // ----- Runs

  ghost predicate Legals(j: Job, st: State, evs: seq<Event>)
    decreases |evs|
  {
    evs == [] || (Shape(j, st) && Legal(j, st, evs[0]) && Legals(j, Apply(j, st, evs[0]), evs[1..]))
  }

  ghost function After(j: Job, st: State, evs: seq<Event>): State
    requires Legals(j, st, evs)
    decreases |evs|
  {
    if evs == [] then st else After(j, Apply(j, st, evs[0]), evs[1..])
  }

  lemma {:induction false} RunFrom(j: Job, st: State, evs: seq<Event>, s: nat, b: nat)
    requires Inv(j, st) && Legals(j, st, evs) && b < |j.loc|
    ensures var last := After(j, st, evs);
      && Inv(j, last) && |last.spes| == |st.spes|
      && Trace(j, last, s, b) == Trace(j, st, s, b) + Emitted(evs, s, b)
    decreases |evs|
  {
    if evs != [] {
      EventStep(j, st, evs[0], s, b);
      RunFrom(j, Apply(j, st, evs[0]), evs[1..], s, b);
      Assoc(Trace(j, st, s, b), EmittedBy(evs[0], s, b), Emitted(evs[1..], s, b));
    }
  }

  /** n engines, empty buckets, no files. */
  ghost function Init(j: Job, n: nat): State {
    State(seq(n, s => Spe(seq(|j.loc|, b => []), false, {})), seq(j.locs, l => []), seq(|j.loc|, b => EmptyBin))
  }

  /** After any run, what engine s emitted to bucket b has been filed, is on its way or is still
      with the engine, once each and in the order of emission; and the files of the bucket are the
      filed records and their index. */
  lemma RunKeepsRecords(j: Job, n: nat, evs: seq<Event>, s: nat, b: nat)
    requires GoodJob(j) && Legals(j, Init(j, n), evs) && b < |j.loc|
    ensures var last := After(j, Init(j, n), evs);
      Inv(j, last) && |last.spes| == n && Trace(j, last, s, b) == Emitted(evs, s, b) && GoodBin(last.bins[b])
  {
    InitInv(j, n, s, b);
    RunFrom(j, Init(j, n), evs, s, b);
    assert [] + Emitted(evs, s, b) == Emitted(evs, s, b);
  }

  lemma InitInv(j: Job, n: nat, s: nat, b: nat)
    requires GoodJob(j) && b < |j.loc|
    ensures Inv(j, Init(j, n)) && |Init(j, n).spes| == n && Trace(j, Init(j, n), s, b) == []
  {
  }

  /** All records have left the engines and the queues. */
  ghost predicate Delivered(j: Job, st: State) {
    && Shape(j, st)
    && (forall l :: 0 <= l < |st.queues| ==> st.queues[l] == [])
    && (forall s, b: nat :: 0 <= s < |st.spes| && b < |j.loc| ==> Held(j, st, s, b) == [])
  }

  /** All that went to bucket b, in the order of emission. */
  ghost function EmittedTo(evs: seq<Event>, b: nat): seq<Record> {
    if evs == [] then []
    else (if evs[0].Emit? then EmittedBy(evs[0], evs[0].s, b) else []) + EmittedTo(evs[1..], b)
  }

  lemma {:induction false} EmittedOf(evs: seq<Event>, s: nat, b: nat)
    ensures Of(EmittedTo(evs, b), s) == Emitted(evs, s, b)
  {
    if evs != [] {
      var first := if evs[0].Emit? then EmittedBy(evs[0], evs[0].s, b) else [];
      EmittedOf(evs[1..], s, b);
      OfPlus(first, EmittedTo(evs[1..], b), s);
      assert Of(first, s) == EmittedBy(evs[0], s, b);
    }
  }

  /** Once all is delivered, a bucket's data file holds exactly the non-empty records that were
      emitted to it, those of each engine in their order. */
  lemma AllDelivered(j: Job, n: nat, evs: seq<Event>, b: nat)
    requires GoodJob(j) && Legals(j, Init(j, n), evs) && b < |j.loc| && Delivered(j, After(j, Init(j, n), evs))
    ensures var bin := After(j, Init(j, n), evs).bins[b];
      && GoodBin(bin)
      && multiset(bin.recs) == multiset(EmittedTo(evs, b))
      && forall s: nat :: Of(bin.recs, s) == Emitted(evs, s, b)
  {
    var last := After(j, Init(j, n), evs);
    RunKeepsRecords(j, n, evs, 0, b);
    forall s: nat ensures Of(last.bins[b].recs, s) == Emitted(evs, s, b) == Of(EmittedTo(evs, b), s) {
      RunKeepsRecords(j, n, evs, s, b);
      EmittedOf(evs, s, b);
      assert Held(j, last, s, b) == [];
    }
    SameOf(last.bins[b].recs, EmittedTo(evs, b));
  }

  // ----- processData as events

  /** The events of an engine that emits some rows. */
  ghost function RowEvents(s: nat, rows: seq<Row>): seq<Event> {
    if rows == [] then []
    else var last := rows[|rows| - 1]; RowEvents(s, rows[..|rows| - 1]) + [Emit(s, last.bucket, last.data, last.len)]
  }

  lemma {:induction false} AfterPlus(j: Job, st: State, a: seq<Event>, e: Event)
    requires Legals(j, st, a) && Shape(j, After(j, st, a)) && Legal(j, After(j, st, a), e)
    ensures Legals(j, st, a + [e]) && After(j, st, a + [e]) == Apply(j, After(j, st, a), e)
    decreases |a|
  {
    assert [e][1..] == [];
    if a == [] {
      assert a + [e] == [e];
    } else {
      assert (a + [e])[1..] == a[1..] + [e];
      AfterPlus(j, Apply(j, st, a[0]), a[1..], e);
    }
  }

  /** Adding rows to an engine's buckets is a run of its emissions. */
  lemma {:induction false} RowsAreEvents(j: Job, st: State, s: nat, rows: seq<Row>)
    requires Shape(j, st) && s < |st.spes| && !st.spes[s].sending && GoodRows(rows)
    ensures Legals(j, st, RowEvents(s, rows))
    ensures After(j, st, RowEvents(s, rows)) ==
      st.(spes := st.spes[s := st.spes[s].(recs := AddAll(st.spes[s].recs, s, rows))])
    decreases |rows|
  {
    if rows != [] {
      var front, last := rows[..|rows| - 1], rows[|rows| - 1];
      RowsAreEvents(j, st, s, front);
      AfterPlus(j, st, RowEvents(s, front), Emit(s, last.bucket, last.data, last.len));
    }
  }
}
