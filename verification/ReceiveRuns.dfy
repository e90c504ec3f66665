/** Message delivery over whole runs of the receiving buffer: packets of one well framed
    stream arrive in any order and any number of times, acks move the ack point, and readers
    take messages. */
module ReceiveRuns {
  import opened Packets
  import opened ReceiveSpec

  /** Arrive: the packet of that offset past the ack point comes in. Acked: the ack point moves
      on. Read: a reader with room for len bytes got `out`. */
  datatype Event = Arrive(off: nat) | Acked(n: nat) | Read(len: nat, f: Found, out: seq<bv8>)

  /** One message handed out: stream positions first to last, while the ack point was `acked`. */
  datatype Delivery = Delivery(first: nat, last: nat, acked: nat, len: nat, out: seq<bv8>)

  ghost predicate Step(sent: seq<Packet>, w: Window, e: Event, w': Window) {
    match e
    case Arrive(off) =>
      off < Available(w) && w.base + w.acked + off < |sent| && w' == Add(w, off, sent[w.base + w.acked + off])
    case Acked(n) => n <= Available(w) && w' == Ack(w, n)
    case Read(len, f, out) => ReadMsg(w, len, f, out, w')
  }

  /** The windows ws of a run of a buffer with n slots, one per event and one to start with. */
  ghost predicate IsRun(sent: seq<Packet>, n: nat, ws: seq<Window>, evs: seq<Event>) {
    && n > 0
    && |ws| == |evs| + 1
    && Empty(ws[0], n)
    && forall i :: 0 <= i < |evs| ==> Step(sent, ws[i], evs[i], ws[i + 1])
  }

  /** The delivery of message f from the window t left by Skip. */
  ghost function DeliveryOf(t: Window, f: Found, len: nat, out: seq<bv8>): Delivery
    requires f.Message?
  {
    Delivery(t.base + f.p, t.base + f.q, t.base + t.acked, len, out)
  }

  ghost function Entry(w: Window, e: Event): seq<Delivery>
    requires w.acked <= |w.cells|
  {
    if e.Read? && e.f.Message? then [DeliveryOf(Skip(w), e.f, e.len, e.out)] else []
  }

  /** Everything the readers got, in the order they got it. */
  ghost function Log(ws: seq<Window>, evs: seq<Event>): seq<Delivery>
    requires |ws| == |evs| + 1 && forall i :: 0 <= i < |evs| ==> ws[i].acked <= |ws[i].cells|
  {
    if evs == [] then []
    else Log(ws[..|evs|], evs[..|evs| - 1]) + Entry(ws[|evs| - 1], evs[|evs| - 1])
  }

  // ----- Safety

  /** The buffer holds packets of the stream at their places. */
  ghost predicate Consistent(sent: seq<Packet>, w: Window) {
    && Valid(w) && w.notch == 0
    && forall k :: 0 <= k < |w.cells| && w.cells[k].Held? ==>
         w.base + k < |sent| && w.cells[k].pkt == sent[w.base + k]
  }

  /** The delivery is one whole message, cut only to the reader's room; if its sender wanted
      order, all of it was acked. */
  ghost predicate Good(sent: seq<Packet>, d: Delivery) {
    && IsMessage(sent, d.first, d.last)
    && d.out == Clip(Payload(sent[d.first..d.last + 1]), d.len)
    && (sent[d.last].ordered ==> d.last < d.acked)
  }

  ghost predicate ReadCell(w: Window, x: nat) {
    x < w.base || (x - w.base < |w.cells| && w.cells[x - w.base].Held? && w.cells[x - w.base].flag == 2)
  }

  /** No packet of the delivery can be handed out again. */
  ghost predicate Spent(sent: seq<Packet>, w: Window, d: Delivery)
    requires d.last < |sent|
  {
    && (forall x :: d.first <= x <= d.last ==> ReadCell(w, x))
    && (sent[d.last].ordered ==> d.last < w.base)
  }

  ghost predicate Apart(sent: seq<Packet>, d: Delivery, e: Delivery)
    requires d.last < |sent| && e.last < |sent|
  {
    && (d.last < e.first || e.last < d.first)
    && (sent[d.last].ordered && sent[e.last].ordered ==> d.last < e.first)
  }

  ghost predicate Safe(sent: seq<Packet>, w: Window, log: seq<Delivery>) {
    && Consistent(sent, w)
    && (forall i :: 0 <= i < |log| ==> Good(sent, log[i]) && Spent(sent, w, log[i]))
    && (forall i, j :: 0 <= i < j < |log| ==> Apart(sent, log[i], log[j]))
  }

  lemma ConsistentFramed(sent: seq<Packet>, w: Window)
    requires WellFramed(sent) && Consistent(sent, w)
    ensures Framed(w.cells)
  {
    forall i | 0 < i < |w.cells| && w.cells[i].Held? && w.cells[i - 1].Held?
      ensures w.cells[i].pkt.first <==> w.cells[i - 1].pkt.last
    {
      assert w.cells[i].pkt == sent[w.base + i] && w.cells[i - 1].pkt == sent[w.base + i - 1];
    }
  }

  lemma ArriveConsistent(sent: seq<Packet>, w: Window, off: nat)
    requires Consistent(sent, w) && off < Available(w) && w.base + w.acked + off < |sent|
    ensures Consistent(sent, Add(w, off, sent[w.base + w.acked + off]))
  {
    AddValid(w, off, sent[w.base + w.acked + off]);
  }

  lemma DropConsistent(sent: seq<Packet>, w: Window, k: nat)
    requires Consistent(sent, w) && k <= w.acked
    ensures Consistent(sent, Drop(w, k))
  {
    DropValid(w, k);
    var d := Drop(w, k);
    forall j | 0 <= j < |d.cells| && d.cells[j].Held?
      ensures d.base + j < |sent| && d.cells[j].pkt == sent[d.base + j]
    {
      assert j < |w.cells| - k && d.cells[j] == w.cells[k + j];
    }
  }

  /** Cells that were read stay so, and cells that are dropped count as read. */
  lemma DropReads(w: Window, k: nat, x: nat)
    requires k <= w.acked <= |w.cells| && ReadCell(w, x)
    ensures ReadCell(Drop(w, k), x)
  {
    if x >= w.base + k {
      assert Drop(w, k).cells[x - w.base - k] == w.cells[x - w.base];
    }
  }

  lemma MarkConsistent(sent: seq<Packet>, w: Window, p: nat, q: nat)
    requires Consistent(sent, w) && LiveMessage(w.cells, p, q)
    ensures Consistent(sent, w.(cells := MarkRead(w.cells, p, q)))
    ensures forall x: nat :: ReadCell(w, x) ==> ReadCell(w.(cells := MarkRead(w.cells, p, q)), x)
    ensures forall x: nat :: w.base + p <= x <= w.base + q ==> ReadCell(w.(cells := MarkRead(w.cells, p, q)), x)
  {
  }

  /** A live message of the window is a message of the stream. */
  lemma LiveIsMessage(sent: seq<Packet>, w: Window, p: nat, q: nat)
    requires WellFramed(sent) && Consistent(sent, w) && LiveMessage(w.cells, p, q)
    ensures IsMessage(sent, w.base + p, w.base + q)
    ensures w.cells[q].pkt == sent[w.base + q]
  {
    var c, b := w.cells, w.base;
    forall k | p <= k <= q ensures Live(c[k]) && b + k < |sent| && c[k].pkt == sent[b + k] {}
    forall x | b + p <= x < b + q ensures !sent[x].last {
      assert !c[x - b].pkt.last;
    }
    forall x | b + p < x <= b + q ensures !sent[x].first {
      assert !sent[x - 1].last;
    }
  }

  lemma LivePackets(sent: seq<Packet>, w: Window, p: nat, q: nat)
    requires Consistent(sent, w) && LiveMessage(w.cells, p, q)
    ensures w.base + q < |sent| && PacketsOf(w.cells[p..q + 1]) == sent[w.base + p..w.base + q + 1]
  {
    assert Live(w.cells[q]);
    var c := w.cells[p..q + 1];
    forall k | 0 <= k < |c| ensures c[k].Held? && c[k].pkt == sent[w.base + p + k] {
      assert Live(w.cells[p + k]);
    }
    PacketsOfAt(c);
  }

  lemma {:induction false} PacketsOfAt(c: seq<Cell>)
    requires forall k :: 0 <= k < |c| ==> c[k].Held?
    ensures |PacketsOf(c)| == |c| && forall k :: 0 <= k < |c| ==> PacketsOf(c)[k] == c[k].pkt
  {
    if c != [] {
      PacketsOfAt(c[1..]);
      forall k | 0 < k < |c| ensures PacketsOf(c)[k] == c[k].pkt {
        assert c[k] == c[1..][k - 1];
      }
    }
  }

  /** A delivery is a good one. */
  lemma DeliveryGood(sent: seq<Packet>, t: Window, f: Found, len: nat)
    requires WellFramed(sent) && Consistent(sent, t) && f.Message? && Deliverable(t.cells, t.acked, f.p, f.q)
    ensures Good(sent, DeliveryOf(t, f, len, Clip(Payload(PacketsOf(t.cells[f.p..f.q + 1])), len)))
  {
    LiveIsMessage(sent, t, f.p, f.q);
    LivePackets(sent, t, f.p, f.q);
    OrderedAcked(sent, t, f.p, f.q);
    GoodFrom(sent, t, f, len);
  }

  lemma GoodFrom(sent: seq<Packet>, t: Window, f: Found, len: nat)
    requires f.Message? && f.p <= f.q < |t.cells| && IsMessage(sent, t.base + f.p, t.base + f.q)
    requires forall k :: f.p <= k <= f.q ==> t.cells[k].Held?
    requires PacketsOf(t.cells[f.p..f.q + 1]) == sent[t.base + f.p..t.base + f.q + 1]
    requires sent[t.base + f.q].ordered ==> f.q < t.acked
    ensures Good(sent, DeliveryOf(t, f, len, Clip(Payload(PacketsOf(t.cells[f.p..f.q + 1])), len)))
  {
  }

  /** A message that can be handed out before it is acked does not ask for order. */
  lemma OrderedAcked(sent: seq<Packet>, t: Window, p: nat, q: nat)
    requires WellFramed(sent) && Consistent(sent, t) && Deliverable(t.cells, t.acked, p, q)
    ensures t.base + q < |sent| && (sent[t.base + q].ordered ==> q < t.acked)
  {
    LiveIsMessage(sent, t, p, q);
  }

  /** Its packets were not handed out before. */
  lemma DeliveryFresh(t: Window, f: Found, d: Delivery)
    requires f.Message? && LiveMessage(t.cells, f.p, f.q)
    requires d.first == t.base + f.p && d.last == t.base + f.q
    ensures forall x :: d.first <= x <= d.last ==> !ReadCell(t, x)
  {
    forall x | d.first <= x <= d.last ensures !ReadCell(t, x) {
      assert Live(t.cells[x - t.base]);
    }
  }

  lemma AckedConsistent(sent: seq<Packet>, t: Window, q: nat, w: Window)
    requires Consistent(sent, t) && q < t.acked && w == Drop(t, q + 1)
    ensures Consistent(sent, w)
    ensures forall x: nat :: ReadCell(t, x) || x <= t.base + q ==> ReadCell(w, x)
  {
    DropConsistent(sent, t, q + 1);
    forall x: nat | ReadCell(t, x) ensures ReadCell(w, x) { DropReads(t, q + 1, x); }
  }

  lemma AfterConsistent(sent: seq<Packet>, t: Window, f: Found)
    requires Consistent(sent, t) && f.Message? && LiveMessage(t.cells, f.p, f.q)
    ensures Consistent(sent, After(t, f)) && t.base <= After(t, f).base
    ensures forall x: nat :: ReadCell(t, x) ==> ReadCell(After(t, f), x)
    ensures forall x: nat :: t.base + f.p <= x <= t.base + f.q ==> ReadCell(After(t, f), x)
    ensures f.q < t.acked ==> t.base + f.q < After(t, f).base
  {
    if f.q < t.acked {
      AckedConsistent(sent, t, f.q, After(t, f));
    } else {
      MarkConsistent(sent, t, f.p, f.q);
    }
  }

  lemma SkipConsistent(sent: seq<Packet>, w: Window)
    requires Consistent(sent, w)
    ensures Consistent(sent, Skip(w)) && w.base <= Skip(w).base
    ensures forall x: nat :: ReadCell(w, x) ==> ReadCell(Skip(w), x)
  {
    var k := BadCells(w.cells, w.acked, 0);
    DropConsistent(sent, w, k);
    forall x: nat | ReadCell(w, x) ensures ReadCell(Skip(w), x) { DropReads(w, k, x); }
  }

  /** Every event keeps the log safe. */
  lemma StepSafe(sent: seq<Packet>, w: Window, log: seq<Delivery>, e: Event, w': Window)
    requires WellFramed(sent) && Safe(sent, w, log) && Step(sent, w, e, w')
    ensures Safe(sent, w', log + Entry(w, e))
  {
    assert log + [] == log;
    match e
    case Arrive(off) => ArriveSafe(sent, w, log, off);
    case Acked(n) => AckedSafe(sent, w, log, n);
    case Read(len, f, out) => ReadStepSafe(sent, w, log, len, f, out, w');
  }

  lemma ArriveSafe(sent: seq<Packet>, w: Window, log: seq<Delivery>, off: nat)
    requires Safe(sent, w, log) && off < Available(w) && w.base + w.acked + off < |sent|
    ensures Safe(sent, Add(w, off, sent[w.base + w.acked + off]), log)
  {
    ArriveConsistent(sent, w, off);
    KeepsLog(sent, w, log, Add(w, off, sent[w.base + w.acked + off]));
  }

  lemma AckedSafe(sent: seq<Packet>, w: Window, log: seq<Delivery>, n: nat)
    requires Safe(sent, w, log) && n <= Available(w)
    ensures Safe(sent, Ack(w, n), log)
  {
    AckValid(w, n);
    KeepsLog(sent, w, log, Ack(w, n));
  }

  lemma ReadStepSafe(sent: seq<Packet>, w: Window, log: seq<Delivery>, len: nat, f: Found, out: seq<bv8>, w': Window)
    requires WellFramed(sent) && Safe(sent, w, log) && ReadMsg(w, len, f, out, w')
    ensures Safe(sent, w', log + Entry(w, Read(len, f, out)))
  {
    SkipConsistent(sent, w);
    KeepsLog(sent, w, log, Skip(w));
    if f.Message? {
      ReadSafe(sent, Skip(w), log, f, len);
    } else {
      assert log + Entry(w, Read(len, f, out)) == log;
    }
  }

  lemma ReadSafe(sent: seq<Packet>, t: Window, log: seq<Delivery>, f: Found, len: nat)
    requires WellFramed(sent) && Safe(sent, t, log) && f.Message? && Deliverable(t.cells, t.acked, f.p, f.q)
    ensures Safe(sent, After(t, f), log + [DeliveryOf(t, f, len, Clip(Payload(PacketsOf(t.cells[f.p..f.q + 1])), len))])
  {
    var d := DeliveryOf(t, f, len, Clip(Payload(PacketsOf(t.cells[f.p..f.q + 1])), len));
    DeliveryGood(sent, t, f, len);
    DeliveryFresh(t, f, d);
    AfterConsistent(sent, t, f);
    LiveIsMessage(sent, t, f.p, f.q);
    KeepsLog(sent, t, log, After(t, f));
    AddsToLog(sent, t, log, After(t, f), d);
  }

  lemma KeepsLog(sent: seq<Packet>, w: Window, log: seq<Delivery>, w': Window)
    requires Safe(sent, w, log) && Consistent(sent, w') && w.base <= w'.base
    requires forall x: nat :: ReadCell(w, x) ==> ReadCell(w', x)
    ensures Safe(sent, w', log)
  {
    forall i | 0 <= i < |log| ensures Spent(sent, w', log[i]) {
      assert Good(sent, log[i]) && Spent(sent, w, log[i]);
    }
  }

  lemma AddsToLog(sent: seq<Packet>, w: Window, log: seq<Delivery>, w': Window, d: Delivery)
    requires Safe(sent, w, log) && Safe(sent, w', log)
    requires Good(sent, d) && Spent(sent, w', d)
    requires forall x :: d.first <= x <= d.last ==> !ReadCell(w, x)
    ensures Safe(sent, w', log + [d])
  {
    var log' := log + [d];
    forall i | 0 <= i < |log| ensures Apart(sent, log[i], d) {
      assert Good(sent, log[i]) && Spent(sent, w, log[i]);
      assert !ReadCell(w, d.first) && !ReadCell(w, d.last);
      assert ReadCell(w, log[i].first) && ReadCell(w, log[i].last);
    }
    forall i, j | 0 <= i < j < |log'| ensures Apart(sent, log'[i], log'[j]) {
      if j < |log| { assert log'[i] == log[i] && log'[j] == log[j]; }
    }
  }

  lemma EmptySafe(sent: seq<Packet>, w: Window, n: nat)
    requires n > 0 && Empty(w, n)
    ensures Safe(sent, w, [])
  {
  }

  /** In every run, every delivery is exactly one whole sent message, no message is delivered
      twice, and ordered messages come out fully acked and in sending order. */
  lemma {:induction false} RunSafe(sent: seq<Packet>, n: nat, ws: seq<Window>, evs: seq<Event>)
    requires WellFramed(sent) && IsRun(sent, n, ws, evs)
    ensures forall i :: 0 <= i < |evs| ==> ws[i].acked <= |ws[i].cells|
    ensures Safe(sent, ws[|evs|], Log(ws, evs))
    decreases |evs|
  {
    if evs == [] {
      EmptySafe(sent, ws[0], n);
    } else {
      var m := |evs| - 1;
      var ws0, evs0 := ws[..m + 1], evs[..m];
      forall i | 0 <= i < |evs0| ensures Step(sent, ws0[i], evs0[i], ws0[i + 1]) {
        assert Step(sent, ws[i], evs[i], ws[i + 1]);
      }
      RunSafe(sent, n, ws0, evs0);
      StepSafe(sent, ws[m], Log(ws0, evs0), evs[m], ws[m + 1]);
      forall i | 0 <= i < |evs| ensures ws[i].acked <= |ws[i].cells| {
        if i < m { assert ws0[i] == ws[i]; }
      }
    }
  }
}
