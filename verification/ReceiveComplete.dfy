/** Nothing is lost: when the ack point only moves over packets that arrived, the deliveries
    tile everything that left the buffer, and a reader that comes back empty-handed has seen
    every message before the ack point. */
module ReceiveComplete {
  import opened Packets
  import opened ReceiveSpec
  import opened ReceiveRuns

  /** Acks move over packets that arrived. */
  ghost predicate NoGap(w: Window, e: Event) {
    e.Acked? ==> w.acked + e.n <= |w.cells| && forall k :: w.acked <= k < w.acked + e.n ==> w.cells[k].Held?
  }

  ghost predicate Covers(d: Delivery, x: nat) { d.first <= x <= d.last }

  ghost predicate Covered(log: seq<Delivery>, x: nat) { exists i :: 0 <= i < |log| && Covers(log[i], x) }

  /** All that left the buffer or is marked as read was delivered. */
  ghost predicate Exact(sent: seq<Packet>, w: Window, log: seq<Delivery>) {
    && Safe(sent, w, log)
    && Filled(w)
    && (forall k :: 0 <= k < |w.cells| && w.cells[k].Held? ==> w.cells[k].flag != 3)
    && forall x: nat :: ReadCell(w, x) ==> Covered(log, x)
  }

  lemma CoveredIsRead(sent: seq<Packet>, w: Window, log: seq<Delivery>, x: nat)
    requires Safe(sent, w, log) && Covered(log, x)
    ensures ReadCell(w, x) && x < |sent|
  {
    var i :| 0 <= i < |log| && Covers(log[i], x);
    assert Good(sent, log[i]) && Spent(sent, w, log[i]);
  }

  lemma CoveredMore(log: seq<Delivery>, d: Delivery, x: nat)
    requires Covered(log, x) || Covers(d, x)
    ensures Covered(log + [d], x)
  {
    if Covers(d, x) {
      assert Covers((log + [d])[|log|], x);
    } else {
      var i :| 0 <= i < |log| && Covers(log[i], x);
      assert Covers((log + [d])[i], x);
    }
  }

  /** An unread packet right after read ones starts a message. */
  lemma UnreadStarts(sent: seq<Packet>, w: Window, log: seq<Delivery>, x: nat)
    requires WellFramed(sent) && Exact(sent, w, log) && x < |sent|
    requires !ReadCell(w, x) && (x == 0 || ReadCell(w, x - 1))
    ensures sent[x].first
  {
    if x > 0 {
      var i :| 0 <= i < |log| && Covers(log[i], x - 1);
      assert Good(sent, log[i]) && Spent(sent, w, log[i]);
      assert log[i].last == x - 1;
    }
  }

  /** A message that covers y starts no later than a run of packets up to y without a last one. */
  lemma CoverReachesBack(sent: seq<Packet>, d: Delivery, x: nat, y: nat)
    requires WellFramed(sent) && IsMessage(sent, d.first, d.last) && Covers(d, y) && x < y
    requires forall z :: x <= z < y ==> !sent[z].last
    ensures Covers(d, x)
  {
    if d.first > 0 {
      assert sent[d.first - 1].last;
    }
  }

  /** Past an unread packet, the packets of its message are unread as well. */
  lemma UnreadGoesOn(sent: seq<Packet>, w: Window, log: seq<Delivery>, x: nat, y: nat)
    requires WellFramed(sent) && Exact(sent, w, log) && x < y < |sent|
    requires forall z :: x <= z < y ==> !sent[z].last
    ensures ReadCell(w, y) ==> ReadCell(w, x)
  {
    if ReadCell(w, y) {
      var i :| 0 <= i < |log| && Covers(log[i], y);
      assert Good(sent, log[i]) && Spent(sent, w, log[i]);
      CoverReachesBack(sent, log[i], x, y);
    }
  }

  lemma HeldIsLive(sent: seq<Packet>, w: Window, log: seq<Delivery>, k: nat)
    requires Exact(sent, w, log) && k < w.acked && !ReadCell(w, w.base + k)
    ensures Live(w.cells[k]) && w.base + k < |sent| && w.cells[k].pkt == sent[w.base + k]
  {
    assert w.cells[k].Held?;
  }

  lemma {:induction false} UnreadIntact(sent: seq<Packet>, w: Window, log: seq<Delivery>, j: nat, i: nat)
    requires WellFramed(sent) && Exact(sent, w, log) && j <= i <= w.acked && j < w.acked
    requires !ReadCell(w, w.base + j) && w.base + i <= |sent|
    requires forall z :: w.base + j <= z < w.base + i ==> !sent[z].last
    ensures Intact(w.cells, w.acked, i)
    decreases w.acked - i
  {
    if i < w.acked {
      if i > j {
        assert w.cells[i].Held?;
        UnreadGoesOn(sent, w, log, w.base + j, w.base + i);
      }
      HeldIsLive(sent, w, log, i);
      if !w.cells[i].pkt.last {
        UnreadIntact(sent, w, log, j, i + 1);
      }
    }
  }

  lemma UnreadIsGood(sent: seq<Packet>, w: Window, log: seq<Delivery>, j: nat)
    requires WellFramed(sent) && Exact(sent, w, log) && j < w.acked
    requires !ReadCell(w, w.base + j) && (w.base + j == 0 || ReadCell(w, w.base + j - 1))
    ensures GoodHead(w.cells, w.acked, j)
  {
    HeldIsLive(sent, w, log, j);
    UnreadStarts(sent, w, log, w.base + j);
    UnreadIntact(sent, w, log, j, j);
  }

  /** Skip only gives back packets that were read. */
  lemma {:induction false} SkipsRead(sent: seq<Packet>, w: Window, log: seq<Delivery>, k: nat)
    requires WellFramed(sent) && Exact(sent, w, log) && k <= BadCells(w.cells, w.acked, 0)
    ensures forall x: nat :: x < w.base + k ==> ReadCell(w, x)
  {
    if k > 0 {
      SkipsRead(sent, w, log, k - 1);
      if !ReadCell(w, w.base + k - 1) {
        UnreadIsGood(sent, w, log, k - 1);
      }
    }
  }

  lemma SkipExact(sent: seq<Packet>, w: Window, log: seq<Delivery>)
    requires WellFramed(sent) && Exact(sent, w, log)
    ensures Exact(sent, Skip(w), log)
    ensures forall x: nat :: ReadCell(Skip(w), x) ==> ReadCell(w, x)
  {
    var k := BadCells(w.cells, w.acked, 0);
    var t := Skip(w);
    SkipConsistent(sent, w);
    KeepsLog(sent, w, log, t);
    SkipsRead(sent, w, log, k);
    forall j | 0 <= j < |w.cells| - k ensures t.cells[j] == w.cells[k + j] {}
    forall x: nat | ReadCell(t, x) ensures ReadCell(w, x) {
      if x >= t.base { assert t.cells[x - t.base] == w.cells[x - w.base]; }
    }
  }

  /** Handing out a message covers exactly the cells it reads. */
  lemma AfterExact(sent: seq<Packet>, t: Window, log: seq<Delivery>, f: Found, d: Delivery)
    requires Exact(sent, t, log) && f.Message? && LiveMessage(t.cells, f.p, f.q)
    requires f.q < t.acked ==> f.p == 0
    requires d.first == t.base + f.p && d.last == t.base + f.q
    requires Safe(sent, After(t, f), log + [d])
    ensures Exact(sent, After(t, f), log + [d])
  {
    forall x: nat | ReadCell(After(t, f), x) ensures Covered(log + [d], x) {
      if !Covers(d, x) {
        AfterUnread(t, f, x);
      }
      CoveredMore(log, d, x);
    }
  }

  /** Outside the message, handing it out reads nothing. */
  lemma AfterUnread(t: Window, f: Found, x: nat)
    requires f.Message? && LiveMessage(t.cells, f.p, f.q) && t.acked <= |t.cells| && (f.q < t.acked ==> f.p == 0)
    requires ReadCell(After(t, f), x) && !(t.base + f.p <= x <= t.base + f.q)
    ensures ReadCell(t, x)
  {
    var w := After(t, f);
    if x >= w.base {
      if f.q < t.acked && x - w.base < |t.cells| - (f.q + 1) {
        assert w.cells[x - w.base] == t.cells[x - t.base];
      }
    }
  }

  lemma ReadExact(sent: seq<Packet>, w: Window, log: seq<Delivery>, len: nat, f: Found, out: seq<bv8>, w': Window)
    requires WellFramed(sent) && Exact(sent, w, log) && ReadMsg(w, len, f, out, w')
    ensures Exact(sent, w', log + Entry(w, Read(len, f, out)))
  {
    SkipExact(sent, w, log);
    if f.Message? {
      if f.q < Skip(w).acked {
        ConsistentFramed(sent, w);
        AckedMessageIsFirst(w, f.p, f.q);
      }
      ReadSafe(sent, Skip(w), log, f, len);
      AfterExact(sent, Skip(w), log, f, DeliveryOf(Skip(w), f, len, out));
    } else {
      assert log + Entry(w, Read(len, f, out)) == log;
    }
  }

  lemma StepExact(sent: seq<Packet>, w: Window, log: seq<Delivery>, e: Event, w': Window)
    requires WellFramed(sent) && Exact(sent, w, log) && Step(sent, w, e, w') && NoGap(w, e)
    ensures Exact(sent, w', log + Entry(w, e))
  {
    assert log + [] == log;
    match e
    case Arrive(off) => ArriveExact(sent, w, log, off);
    case Acked(n) => AckedExact(sent, w, log, n);
    case Read(len, f, out) => ReadExact(sent, w, log, len, f, out, w');
  }

  lemma ArriveExact(sent: seq<Packet>, w: Window, log: seq<Delivery>, off: nat)
    requires Exact(sent, w, log) && off < Available(w) && w.base + w.acked + off < |sent|
    ensures Exact(sent, Add(w, off, sent[w.base + w.acked + off]), log)
  {
    ArriveSafe(sent, w, log, off);
  }

  lemma AckedExact(sent: seq<Packet>, w: Window, log: seq<Delivery>, n: nat)
    requires Exact(sent, w, log) && n <= Available(w) && NoGap(w, Acked(n))
    ensures Exact(sent, Ack(w, n), log)
  {
    AckedSafe(sent, w, log, n);
  }

  lemma {:induction false} RunKeepsExact(sent: seq<Packet>, n: nat, ws: seq<Window>, evs: seq<Event>)
    requires WellFramed(sent) && IsRun(sent, n, ws, evs)
    requires forall i :: 0 <= i < |evs| ==> NoGap(ws[i], evs[i])
    ensures forall i :: 0 <= i < |evs| ==> ws[i].acked <= |ws[i].cells|
    ensures Exact(sent, ws[|evs|], Log(ws, evs))
    decreases |evs|
  {
    RunSafe(sent, n, ws, evs);
    if evs == [] {
    } else {
      var m := |evs| - 1;
      var ws0, evs0 := ws[..m + 1], evs[..m];
      forall i | 0 <= i < |evs0| ensures Step(sent, ws0[i], evs0[i], ws0[i + 1]) && NoGap(ws0[i], evs0[i]) {
        assert Step(sent, ws[i], evs[i], ws[i + 1]) && NoGap(ws[i], evs[i]);
      }
      RunKeepsExact(sent, n, ws0, evs0);
      StepExact(sent, ws[m], Log(ws0, evs0), evs[m], ws[m + 1]);
    }
  }

  /** In every run without gaps in the acks, the packets that left the buffer or are marked as read are
      exactly those of the delivered messages: nothing is dropped unread. */
  lemma RunExact(sent: seq<Packet>, n: nat, ws: seq<Window>, evs: seq<Event>)
    requires WellFramed(sent) && IsRun(sent, n, ws, evs)
    requires forall i :: 0 <= i < |evs| ==> NoGap(ws[i], evs[i])
    ensures forall i :: 0 <= i < |evs| ==> ws[i].acked <= |ws[i].cells|
    ensures Exact(sent, ws[|evs|], Log(ws, evs))
    ensures forall x: nat :: ReadCell(ws[|evs|], x) <==> Covered(Log(ws, evs), x)
  {
    RunKeepsExact(sent, n, ws, evs);
    forall x: nat | Covered(Log(ws, evs), x) ensures ReadCell(ws[|evs|], x) {
      CoveredIsRead(sent, ws[|evs|], Log(ws, evs), x);
    }
  }

  /** An empty-handed reader has seen every message that lies before the ack point. */
  lemma NothingLeft(sent: seq<Packet>, w: Window, log: seq<Delivery>, p: nat, q: nat)
    requires WellFramed(sent) && Exact(sent, w, log) && Finds(w, Nothing)
    requires IsMessage(sent, p, q) && q < w.base + w.acked
    ensures exists i :: 0 <= i < |log| && log[i].first == p && log[i].last == q
  {
    if Covered(log, p) {
      var i :| 0 <= i < |log| && Covers(log[i], p);
      assert Good(sent, log[i]);
      MessagesDoNotOverlap(sent, log[i].first, log[i].last, p, q);
    } else {
      SkipExact(sent, w, log);
      UnreadIsLive(sent, w, Skip(w), log, p, q);
    }
  }

  lemma UnreadIsLive(sent: seq<Packet>, w: Window, t: Window, log: seq<Delivery>, p: nat, q: nat)
    requires WellFramed(sent) && Exact(sent, w, log) && Exact(sent, t, log) && t == Skip(w)
    requires IsMessage(sent, p, q) && q < w.base + w.acked && !ReadCell(t, p)
    ensures p >= t.base && Deliverable(t.cells, t.acked, p - t.base, q - t.base) && !Quiet(w)
  {
    forall k | p - t.base <= k <= q - t.base ensures Live(t.cells[k]) && t.cells[k].pkt == sent[t.base + k] {
      if t.base + k > p { UnreadGoesOn(sent, t, log, p, t.base + k); }
      HeldIsLive(sent, t, log, k);
    }
  }
}
