/** What a reader of messages gets, said of the stream: which messages it is served, and that a message stays
    until it is. */
module ReceiveAnswers {
  import opened Packets
  import opened ReceiveSpec
  import opened ReceiveRuns
  import opened ReceiveComplete

  /** Packet x of the stream is in the buffer, and nobody has read it. */
  ghost predicate Unread(w: Window, x: nat) {
    w.base <= x < w.base + |w.cells| && w.cells[x - w.base].Held? && w.cells[x - w.base].flag == 1
  }

  /** Packets p to q are a message of the stream, all of it in the buffer and unread. */
  ghost predicate Here(sent: seq<Packet>, w: Window, p: nat, q: nat) {
    IsMessage(sent, p, q) && forall x :: p <= x <= q ==> Unread(w, x)
  }

  // ----- A whole message is not skipped

  lemma {:induction false} IntactRun(sent: seq<Packet>, w: Window, p: nat, q: nat, k: nat)
    requires Consistent(sent, w) && Here(sent, w, p, q) && p - w.base <= k <= q - w.base && k <= w.acked
    ensures Intact(w.cells, w.acked, k)
    decreases q - w.base - k
  {
    assert Unread(w, w.base + k);
    if k < w.acked && k < q - w.base {
      IntactRun(sent, w, p, q, k + 1);
    }
  }

  lemma DropUnread(w: Window, k: nat, x: nat)
    requires k <= w.acked <= |w.cells| && Unread(w, x) && w.base + k <= x
    ensures Unread(Drop(w, k), x)
  {
    assert Drop(w, k).cells[x - w.base - k] == w.cells[x - w.base];
  }

  /** Skipping bad cells stops before it. */
  lemma SkipStops(sent: seq<Packet>, w: Window, p: nat, q: nat)
    requires Consistent(sent, w) && Here(sent, w, p, q)
    ensures Skip(w).base <= p
    ensures Here(sent, Skip(w), p, q)
  {
    var n := BadCells(w.cells, w.acked, 0);
    FewBad(sent, w, p, q);
    forall x | p <= x <= q ensures Unread(Skip(w), x) {
      assert Unread(w, x);
      DropUnread(w, n, x);
    }
  }

  lemma FewBad(sent: seq<Packet>, w: Window, p: nat, q: nat)
    requires Consistent(sent, w) && Here(sent, w, p, q)
    ensures w.base + BadCells(w.cells, w.acked, 0) <= p
  {
    assert Unread(w, p);
    if p - w.base < w.acked {
      IntactRun(sent, w, p, q, p - w.base);
      assert GoodHead(w.cells, w.acked, p - w.base);
    }
  }

  lemma HereIsLive(sent: seq<Packet>, t: Window, p: nat, q: nat)
    requires Consistent(sent, t) && Here(sent, t, p, q)
    ensures t.base <= p && LiveMessage(t.cells, p - t.base, q - t.base) && t.cells[q - t.base].pkt == sent[q]
  {
    assert Unread(t, p) && Unread(t, q);
    forall k | p - t.base <= k <= q - t.base
      ensures Live(t.cells[k]) && t.cells[k].pkt == sent[t.base + k]
    {
      assert Unread(t, t.base + k);
    }
  }

  // ----- Who is served

  /** The scan looks at the buffer at all. */
  ghost predicate Looked(w: Window) { !(w.acked == 0 && w.maxPos == 0) }

  /** If a whole unread message is in the buffer, and it is acked or needs no order, a reader gets a message that
      ends no later. */
  lemma ReaderServed(sent: seq<Packet>, w: Window, p: nat, q: nat, len: nat, f: Found, out: seq<bv8>, w': Window)
    requires WellFramed(sent) && Consistent(sent, w) && Looked(w) && ReadMsg(w, len, f, out, w')
    requires Here(sent, w, p, q) && (q < w.base + w.acked || !sent[q].ordered)
    ensures f.Message? && Skip(w).base + f.q <= q
  {
    var t := Skip(w);
    SkipStops(sent, w, p, q);
    SkipConsistent(sent, w);
    HereIsLive(sent, t, p, q);
    assert Deliverable(t.cells, t.acked, p - t.base, q - t.base);
  }

  /** Every whole unread message in the buffer wants order and ends past the ack point. */
  ghost predicate NoneToServe(sent: seq<Packet>, w: Window) {
    forall p: nat, q: nat :: Here(sent, w, p, q) ==> sent[q].ordered && q >= w.base + w.acked
  }

  /** The message that a reader gets was in the buffer, whole and unread, and is acked or needs no order. */
  lemma ServedIs(sent: seq<Packet>, w: Window, f: Found)
    requires WellFramed(sent) && Consistent(sent, w) && Finds(w, f) && f.Message?
    ensures var t := Skip(w);
      && Here(sent, w, t.base + f.p, t.base + f.q)
      && (t.base + f.q < w.base + w.acked || !sent[t.base + f.q].ordered)
  {
    var t := Skip(w);
    SkipConsistent(sent, w);
    LiveIsMessage(sent, t, f.p, f.q);
    forall x: nat | t.base + f.p <= x <= t.base + f.q ensures Unread(w, x) {
      assert Live(t.cells[x - t.base]);
      UnreadBefore(w, BadCells(w.cells, w.acked, 0), x);
    }
  }

  lemma UnreadBefore(w: Window, k: nat, x: nat)
    requires k <= w.acked <= |w.cells| && Unread(Drop(w, k), x)
    ensures Unread(w, x)
  {
    var c := Drop(w, k).cells;
    if x - w.base < |w.cells| {
      assert c[x - w.base - k] == w.cells[x - w.base];
    }
  }

  /** A reader gets nothing if and only if the scan does not look, or there is none to serve. */
  lemma NothingIff(sent: seq<Packet>, w: Window, len: nat, f: Found, out: seq<bv8>, w': Window)
    requires WellFramed(sent) && Consistent(sent, w) && ReadMsg(w, len, f, out, w')
    ensures f.Nothing? <==> !Looked(w) || NoneToServe(sent, w)
  {
    if f.Message? {
      ServedIs(sent, w, f);
    } else if Looked(w) {
      forall p: nat, q: nat | Here(sent, w, p, q) ensures sent[q].ordered && q >= w.base + w.acked {
        if q < w.base + w.acked || !sent[q].ordered {
          ReaderServed(sent, w, p, q, len, f, out, w');
        }
      }
    }
  }

  lemma Prefix(sent: seq<Packet>, n: nat, ws: seq<Window>, evs: seq<Event>, i: nat)
    requires WellFramed(sent) && IsRun(sent, n, ws, evs) && i <= |evs|
    ensures IsRun(sent, n, ws[..i + 1], evs[..i]) && Consistent(sent, ws[i])
  {
    forall k | 0 <= k < i ensures Step(sent, ws[..i + 1][k], evs[..i][k], ws[..i + 1][k + 1]) {
      assert Step(sent, ws[k], evs[k], ws[k + 1]);
    }
    RunSafe(sent, n, ws[..i + 1], evs[..i]);
  }

  /** So in every run, at every call. */
  lemma RunServes(sent: seq<Packet>, n: nat, ws: seq<Window>, evs: seq<Event>, i: nat)
    requires WellFramed(sent) && IsRun(sent, n, ws, evs) && i < |evs| && evs[i].Read?
    ensures evs[i].f.Nothing? <==> !Looked(ws[i]) || NoneToServe(sent, ws[i])
    ensures evs[i].f.Message? ==> ws[i].acked <= |ws[i].cells| && forall p: nat, q: nat ::
      Here(sent, ws[i], p, q) && (q < ws[i].base + ws[i].acked || !sent[q].ordered) ==>
        Skip(ws[i]).base + evs[i].f.q <= q
  {
    Prefix(sent, n, ws, evs, i);
    assert Step(sent, ws[i], evs[i], ws[i + 1]);
    var e := evs[i];
    NothingIff(sent, ws[i], e.len, e.f, e.out, ws[i + 1]);
    if e.f.Message? {
      forall p: nat, q: nat | Here(sent, ws[i], p, q) && (q < ws[i].base + ws[i].acked || !sent[q].ordered)
        ensures Skip(ws[i]).base + e.f.q <= q
      {
        ServedIs(sent, ws[i], e.f);
        ReaderServed(sent, ws[i], p, q, e.len, e.f, e.out, ws[i + 1]);
      }
    }
  }

  // ----- A message stays until it is delivered

  /** The event delivers packets p to q. */
  ghost predicate Delivers(w: Window, e: Event, p: nat, q: nat) {
    e.Read? && e.f.Message? && w.acked <= |w.cells| && Skip(w).base + e.f.p == p && Skip(w).base + e.f.q == q
  }

  lemma StepStays(sent: seq<Packet>, w: Window, e: Event, w': Window, p: nat, q: nat)
    requires WellFramed(sent) && Consistent(sent, w) && Step(sent, w, e, w') && Here(sent, w, p, q)
    ensures Here(sent, w', p, q) || Delivers(w, e, p, q)
  {
    if e.Read? {
      SkipStops(sent, w, p, q);
      if e.f.Message? && !Delivers(w, e, p, q) {
        OthersStay(sent, w, e.f, p, q);
      }
    } else {
      forall x | p <= x <= q ensures Unread(w', x) {
        assert Unread(w, x);
      }
    }
  }

  lemma OthersStay(sent: seq<Packet>, w: Window, f: Found, p: nat, q: nat)
    requires WellFramed(sent) && Consistent(sent, w) && Finds(w, f) && f.Message?
    requires Here(sent, Skip(w), p, q) && !(Skip(w).base + f.p == p && Skip(w).base + f.q == q)
    ensures f.q < |Skip(w).cells| && Here(sent, After(Skip(w), f), p, q)
  {
    var t := Skip(w);
    SkipConsistent(sent, w);
    LiveIsMessage(sent, t, f.p, f.q);
    if f.q < t.acked {
      ConsistentFramed(sent, w);
      AckedMessageIsFirst(w, f.p, f.q);
    }
    forall x | p <= x <= q ensures Unread(After(t, f), x) {
      assert !(t.base + f.p <= x <= t.base + f.q);
      assert Unread(t, x);
      AfterUnreadStays(t, f, x);
    }
  }

  lemma AfterUnreadStays(t: Window, f: Found, x: nat)
    requires f.Message? && f.p <= f.q < |t.cells| && t.acked <= |t.cells| && (f.q < t.acked ==> f.p == 0)
    requires Unread(t, x) && !(t.base + f.p <= x <= t.base + f.q)
    ensures Unread(After(t, f), x)
  {
    if f.q < t.acked {
      DropUnread(t, f.q + 1, x);
    }
  }

  /** A whole unread message stays in the buffer until it is delivered, with gaps in the acks or without. */
  lemma {:induction false} RunStays(sent: seq<Packet>, n: nat, ws: seq<Window>, evs: seq<Event>, i: nat, p: nat, q: nat)
    requires WellFramed(sent) && IsRun(sent, n, ws, evs) && i <= |evs| && Here(sent, ws[i], p, q)
    ensures Here(sent, ws[|evs|], p, q) || exists j :: i <= j < |evs| && Delivers(ws[j], evs[j], p, q)
    decreases |evs| - i
  {
    if i < |evs| {
      Prefix(sent, n, ws, evs, i);
      assert Step(sent, ws[i], evs[i], ws[i + 1]);
      StepStays(sent, ws[i], evs[i], ws[i + 1], p, q);
      if Here(sent, ws[i + 1], p, q) {
        RunStays(sent, n, ws, evs, i + 1, p, q);
      }
    }
  }

  // ----- What has arrived

  /** Packet x has come in. */
  ghost predicate Arrived(ws: seq<Window>, evs: seq<Event>, x: nat)
    requires |ws| == |evs| + 1
  {
    exists i :: 0 <= i < |evs| && Brings(ws[i], evs[i], x)
  }

  ghost predicate Brings(w: Window, e: Event, x: nat) { e.Arrive? && w.base + w.acked + e.off == x }

  /** It is in the buffer, or the buffer has moved past it. */
  ghost predicate Kept(w: Window, x: nat) {
    x < w.base || (x - w.base < |w.cells| && w.cells[x - w.base].Held?)
  }

  lemma StepKept(sent: seq<Packet>, w: Window, e: Event, w': Window, x: nat)
    requires Valid(w) && Step(sent, w, e, w') && (Kept(w, x) || Brings(w, e, x))
    ensures Kept(w', x)
  {
    if e.Read? {
      SkipKept(w, x);
      if e.f.Message? {
        AfterKept(Skip(w), e.f, x);
      }
    }
  }

  lemma SkipKept(w: Window, x: nat)
    requires Valid(w) && Kept(w, x)
    ensures Kept(Skip(w), x)
  {
    DropKept(w, BadCells(w.cells, w.acked, 0), x);
  }

  lemma AfterKept(t: Window, f: Found, x: nat)
    requires f.Message? && f.p <= f.q < |t.cells| && t.acked <= |t.cells| && Kept(t, x)
    ensures Kept(After(t, f), x)
  {
    if f.q < t.acked {
      DropKept(t, f.q + 1, x);
    }
  }

  lemma DropKept(w: Window, k: nat, x: nat)
    requires k <= w.acked <= |w.cells| && Kept(w, x)
    ensures Kept(Drop(w, k), x)
  {
    if x >= w.base + k {
      assert Drop(w, k).cells[x - w.base - k] == w.cells[x - w.base];
    }
  }

  lemma {:induction false} RunKept(sent: seq<Packet>, n: nat, ws: seq<Window>, evs: seq<Event>, i: nat, x: nat)
    requires WellFramed(sent) && IsRun(sent, n, ws, evs) && i <= |evs| && Kept(ws[i], x)
    ensures Kept(ws[|evs|], x)
    decreases |evs| - i
  {
    if i < |evs| {
      Prefix(sent, n, ws, evs, i);
      assert Step(sent, ws[i], evs[i], ws[i + 1]);
      StepKept(sent, ws[i], evs[i], ws[i + 1], x);
      RunKept(sent, n, ws, evs, i + 1, x);
    }
  }

  lemma ArrivedKept(sent: seq<Packet>, n: nat, ws: seq<Window>, evs: seq<Event>, x: nat)
    requires WellFramed(sent) && IsRun(sent, n, ws, evs) && Arrived(ws, evs, x)
    ensures Kept(ws[|evs|], x)
  {
    var i :| 0 <= i < |evs| && Brings(ws[i], evs[i], x);
    Prefix(sent, n, ws, evs, i);
    assert Step(sent, ws[i], evs[i], ws[i + 1]);
    StepKept(sent, ws[i], evs[i], ws[i + 1], x);
    RunKept(sent, n, ws, evs, i + 1, x);
  }

  lemma KeptIsUnread(sent: seq<Packet>, w: Window, log: seq<Delivery>, x: nat)
    requires Exact(sent, w, log) && Kept(w, x) && !Covered(log, x)
    ensures Unread(w, x)
  {
    assert !ReadCell(w, x);
  }

  /** In every run without gaps in the acks, a message whose packets have all come in, in whatever order, has been
      delivered, or is in the buffer, whole and unread. */
  lemma ArrivedIsServed(sent: seq<Packet>, n: nat, ws: seq<Window>, evs: seq<Event>, p: nat, q: nat)
    requires WellFramed(sent) && IsRun(sent, n, ws, evs) && forall i :: 0 <= i < |evs| ==> NoGap(ws[i], evs[i])
    requires IsMessage(sent, p, q) && forall x :: p <= x <= q ==> Arrived(ws, evs, x)
    ensures forall i :: 0 <= i < |evs| ==> ws[i].acked <= |ws[i].cells|
    ensures Here(sent, ws[|evs|], p, q) || InLog(Log(ws, evs), p, q)
  {
    RunExact(sent, n, ws, evs);
    var log := Log(ws, evs);
    if !InLog(log, p, q) {
      forall x | p <= x <= q ensures Unread(ws[|evs|], x) {
        ArrivedKept(sent, n, ws, evs, x);
        if Covered(log, x) {
          CoveredInLog(sent, ws[|evs|], log, p, q, x);
        }
        KeptIsUnread(sent, ws[|evs|], log, x);
      }
    }
  }

  /** The message was delivered. */
  ghost predicate InLog(log: seq<Delivery>, p: nat, q: nat) {
    exists i :: 0 <= i < |log| && log[i].first == p && log[i].last == q
  }

  lemma CoveredInLog(sent: seq<Packet>, w: Window, log: seq<Delivery>, p: nat, q: nat, x: nat)
    requires Safe(sent, w, log) && IsMessage(sent, p, q) && p <= x <= q && Covered(log, x)
    ensures InLog(log, p, q)
  {
    var i :| 0 <= i < |log| && Covers(log[i], x);
    assert Good(sent, log[i]);
    MessagesDoNotOverlap(sent, p, q, log[i].first, log[i].last);
  }
}
