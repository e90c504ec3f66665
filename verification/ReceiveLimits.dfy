/** What a reader of messages does not get, although it is in the buffer. */
module ReceiveLimits {
  import opened Packets
  import opened ReceiveSpec
  import opened ReceiveRuns

  // ----- A message that the scan does not look at

  /** A packet that is a whole message, and may be read before it is acked. */
  predicate Alone(p: Packet) { p.first && p.last && !p.ordered }

  /** A reader gets nothing although a message could be handed out if and only if nothing is acked, no packet
      came beyond the first cell, and that cell holds such a packet. */
  lemma MissedIff(w: Window, f: Found)
    requires Valid(w) && Framed(w.cells) && Finds(w, f)
    ensures (f.Nothing? && exists p, q :: Deliverable(Skip(w).cells, Skip(w).acked, p, q)) <==>
      Quiet(w) && Live(w.cells[0]) && Alone(w.cells[0].pkt)
  {
    if Quiet(w) {
      assert Skip(w).cells == w.cells;
      forall p, q | Deliverable(w.cells, 0, p, q) ensures p == 0 && q == 0 {
      }
      if Live(w.cells[0]) && Alone(w.cells[0].pkt) {
        assert Deliverable(w.cells, 0, 0, 0);
      }
    }
  }

  function Start(n: nat): Window { Window(0, FreeCells(n), 0, -1, 0) }

  /** A run: such a packet comes first, and a reader gets nothing; once it is acked, the reader gets it. */
  lemma QuietReader(sent: seq<Packet>, n: nat, len: nat) returns (ws: seq<Window>, evs: seq<Event>)
    requires n > 1 && sent != [] && Alone(sent[0])
    ensures IsRun(sent, n, ws, evs) && evs == [Arrive(0), Read(len, Nothing, []), Acked(1)]
    ensures Deliverable(ws[1].cells, ws[1].acked, 0, 0)
    ensures ws[3].acked <= |ws[3].cells| && Finds(ws[3], Message(0, 0))
  {
    var c := FreeCells(n)[0 := Held(sent[0], 1)];
    var w1, w3 := Window(0, c, 0, 0, 0), Window(0, c, 1, 0, 0);
    ws, evs := [Start(n), w1, w1, w3], [Arrive(0), Read(len, Nothing, []), Acked(1)];
    assert c[0] == Held(sent[0], 1);
    assert Skip(w1) == w1;
    assert GoodHead(c, 1, 0);
    assert Skip(w3) == w3;
    assert LiveMessage(c, 0, 0);
  }

  // ----- A message as long as the ring

  /** The buffer when the first k packets have come. */
  function Filling(sent: seq<Packet>, n: nat, k: nat): Window
    requires k <= |sent|
  {
    Window(0, seq(n, i requires 0 <= i < n => if i < k then Held(sent[i], 1) else Free), 0, k - 1, 0)
  }

  lemma FillOne(sent: seq<Packet>, n: nat, k: nat)
    requires k < |sent| && k + 1 < n
    ensures Step(sent, Filling(sent, n, k), Arrive(k), Filling(sent, n, k + 1))
  {
    assert Filling(sent, n, k).cells[k := Held(sent[k], 1)] == Filling(sent, n, k + 1).cells;
  }

  /** A run: the ring fills up with packets of one message that has not ended. The scan reports the full ring,
      and the reader gets nothing. */
  lemma FullRing(sent: seq<Packet>, n: nat, len: nat) returns (ws: seq<Window>, evs: seq<Event>)
    requires WellFramed(sent) && 3 <= n <= |sent| + 1 && forall k :: 0 <= k < n - 1 ==> !sent[k].last
    ensures IsRun(sent, n, ws, evs) && |evs| == n && evs[n - 1] == Read(len, Nothing, [])
    ensures Valid(ws[n - 1]) && Framed(ws[n - 1].cells) && !Quiet(ws[n - 1]) && Full(Skip(ws[n - 1]))
  {
    var last := Filling(sent, n, n - 1);
    ws := seq(n, k requires 0 <= k < n => Filling(sent, n, k)) + [last];
    evs := seq(n - 1, k requires 0 <= k < n - 1 => Arrive(k)) + [Read(len, Nothing, [])];
    assert Skip(last) == last;
    assert Opens(last.cells, 0, n - 1);
    forall p, q ensures !Deliverable(last.cells, 0, p, q) {
    }
    assert Empty(ws[0], n);
    forall i | 0 <= i < |evs| ensures Step(sent, ws[i], evs[i], ws[i + 1]) {
      if i < n - 1 {
        FillOne(sent, n, i);
      }
    }
  }

  ghost predicate AllShort(log: seq<Delivery>, n: nat) {
    forall i :: 0 <= i < |log| ==> log[i].last - log[i].first + 1 < n
  }

  /** In no run a message of as many packets as the ring has slots is delivered, or a longer one. */
  lemma {:induction false} NoneTooLong(sent: seq<Packet>, n: nat, ws: seq<Window>, evs: seq<Event>)
    requires WellFramed(sent) && IsRun(sent, n, ws, evs)
    ensures forall i :: 0 <= i < |evs| ==> ws[i].acked <= |ws[i].cells|
    ensures |ws[|evs|].cells| == n && Valid(ws[|evs|]) && AllShort(Log(ws, evs), n)
    decreases |evs|
  {
    RunSafe(sent, n, ws, evs);
    if evs != [] {
      var m := |evs| - 1;
      forall i | 0 <= i < m ensures Step(sent, ws[..m + 1][i], evs[..m][i], ws[..m + 1][i + 1]) {
        assert Step(sent, ws[i], evs[i], ws[i + 1]);
      }
      NoneTooLong(sent, n, ws[..m + 1], evs[..m]);
      StepShort(sent, ws[m], evs[m], ws[m + 1]);
    }
  }

  lemma StepShort(sent: seq<Packet>, w: Window, e: Event, w': Window)
    requires Valid(w) && Step(sent, w, e, w')
    ensures |w'.cells| == |w.cells| && AllShort(Entry(w, e), |w.cells|)
  {
    if e.Read? {
      FoundShort(w, e.f);
    }
  }

  /** The last cell is free. */
  lemma FoundShort(w: Window, f: Found)
    requires Valid(w) && Finds(w, f)
    ensures f.Message? ==> f.p <= f.q && f.q + 1 < |w.cells|
  {
    DropValid(w, BadCells(w.cells, w.acked, 0));
    if f.Message? {
      assert Live(Skip(w).cells[f.q]);
    }
  }
}
