/** What the receiving buffer of a UDT socket does, on values: a window of packet cells
    that slides over the sequence numbers of the stream. */
module ReceiveSpec {
  import opened Packets

  /** A slot of the ring: free, or holding a packet with the unit flag
      1 (occupied), 2 (already read out of order) or 3 (dropped). */
  datatype Cell = Free | Held(pkt: Packet, flag: int)

  /** `base` is the sequence number of cells[0], the first `acked` cells lie before the
      ack point, `maxPos` is the furthest offset seen past it, and `notch` counts the bytes
      already taken from cells[0]. */
  datatype Window = Window(base: nat, cells: seq<Cell>, acked: nat, maxPos: int, notch: nat)

  predicate Live(c: Cell) { c.Held? && c.flag == 1 }

  /** Invariant of every buffer. One cell stays free, so that a full ring and an empty one
      can be told apart. */
  ghost predicate Valid(w: Window) {
    && w.acked < |w.cells|
    && -1 <= w.maxPos
    && (w.maxPos > 0 ==> w.acked + w.maxPos + 2 <= |w.cells|)
    && (forall k :: w.acked <= k < |w.cells| && k > w.acked + w.maxPos ==> w.cells[k] == Free)
    && w.cells[|w.cells| - 1] == Free
    && (forall k :: 0 <= k < |w.cells| && w.cells[k].Held? ==> 1 <= w.cells[k].flag <= 3)
    && (w.notch > 0 ==> w.acked > 0 && w.cells[0].Held? && w.notch < |w.cells[0].pkt.data|)
  }

  /** A buffer of n slots before any packet arrives. */
  ghost predicate Empty(w: Window, n: nat) {
    && |w.cells| == n
    && (forall k :: 0 <= k < n ==> w.cells[k] == Free)
    && w.base == 0 && w.acked == 0 && w.maxPos == -1 && w.notch == 0
  }

  /** Neighbouring packets in the window belong to one well framed stream. */
  ghost predicate Framed(c: seq<Cell>) {
    forall i :: 0 < i < |c| && c[i].Held? && c[i - 1].Held? ==> (c[i].pkt.first <==> c[i - 1].pkt.last)
  }

  function Available(w: Window): int { |w.cells| - w.acked - 1 }

  function FreeCells(n: nat): (r: seq<Cell>)
    ensures |r| == n && forall i :: 0 <= i < n ==> r[i] == Free
  {
    seq(n, _ => Free)
  }

  /** The window after its first k cells are given back. */
  function Drop(w: Window, k: nat): Window
    requires k <= w.acked && k <= |w.cells|
  {
    Window(w.base + k, w.cells[k..] + FreeCells(k), w.acked - k, w.maxPos, if k == 0 then w.notch else 0)
  }

  lemma DropDrop(w: Window, j: nat, k: nat)
    requires j + k <= w.acked <= |w.cells|
    ensures Drop(Drop(w, j), k) == Drop(w, j + k)
  {
    assert (w.cells[j..] + FreeCells(j))[k..] + FreeCells(k) == w.cells[j + k..] + FreeCells(j + k);
  }

  lemma DropValid(w: Window, k: nat)
    requires Valid(w) && k <= w.acked
    ensures Valid(Drop(w, k))
    ensures Framed(w.cells) ==> Framed(Drop(w, k).cells)
  {
    var c := Drop(w, k).cells;
    assert forall i :: 0 <= i < |w.cells| - k ==> c[i] == w.cells[k + i];
    assert forall i :: |w.cells| - k <= i < |c| ==> c[i] == Free;
  }

  /** addData: a packet for offset `off` past the ack point. A slot in use keeps its packet. */
  function Add(w: Window, off: nat, pkt: Packet): Window
    requires off < Available(w)
  {
    var w' := w.(maxPos := if off > w.maxPos then off else w.maxPos);
    if w.cells[w.acked + off].Free? then w'.(cells := w.cells[w.acked + off := Held(pkt, 1)]) else w'
  }

  /** ackData: the ack point moves n cells on. */
  function Ack(w: Window, n: nat): Window {
    w.(acked := w.acked + n, maxPos := if w.maxPos - n < 0 then 0 else w.maxPos - n)
  }

  lemma AddValid(w: Window, off: nat, pkt: Packet)
    requires Valid(w) && off < Available(w)
    ensures Valid(Add(w, off, pkt))
  {
  }

  lemma AckValid(w: Window, n: nat)
    requires Valid(w) && n <= Available(w)
    ensures Valid(Ack(w, n))
  {
  }

  // ----- Reading messages

  /** Cells p to q hold one whole message that nobody has read. */
  ghost predicate LiveMessage(c: seq<Cell>, p: nat, q: nat) {
    && p <= q < |c|
    && (forall k :: p <= k <= q ==> Live(c[k]))
    && c[p].pkt.first
    && c[q].pkt.last
    && (forall k :: p <= k < q ==> !c[k].pkt.last)
  }

  /** A message may be handed out once it is acked, or earlier when its sender did not ask for order. */
  ghost predicate Deliverable(c: seq<Cell>, acked: nat, p: nat, q: nat) {
    LiveMessage(c, p, q) && (q < acked || !c[q].pkt.ordered)
  }

  /** From cell i, live packets run up to the end of a message or up to the ack point. */
  predicate Intact(c: seq<Cell>, acked: nat, i: nat)
    requires i <= acked <= |c|
    decreases acked - i
  {
    i == acked || (Live(c[i]) && (c[i].pkt.last || Intact(c, acked, i + 1)))
  }

  /** Cell i starts a message that is still worth waiting for. */
  predicate GoodHead(c: seq<Cell>, acked: nat, i: nat)
    requires i < acked <= |c|
  {
    Live(c[i]) && c[i].pkt.first && Intact(c, acked, i)
  }

  /** How many cells from i on are bad: the distance to the first good head or to the ack point. */
  function BadCells(c: seq<Cell>, acked: nat, i: nat): (n: nat)
    requires i <= acked <= |c|
    ensures i + n <= acked
    ensures forall k :: i <= k < i + n ==> !GoodHead(c, acked, k)
    ensures i + n < acked ==> GoodHead(c, acked, i + n)
    decreases acked - i
  {
    if i == acked || GoodHead(c, acked, i) then 0 else 1 + BadCells(c, acked, i + 1)
  }

  /** The window a message reader looks at: bad cells at the front are given back first. */
  function Skip(w: Window): Window
    requires w.acked <= |w.cells|
  {
    Drop(w, BadCells(w.cells, w.acked, 0))
  }

  function PacketsOf(c: seq<Cell>): seq<Packet>
    requires forall k :: 0 <= k < |c| ==> c[k].Held?
  {
    if c == [] then [] else [c[0].pkt] + PacketsOf(c[1..])
  }

  /** Cells p to q are marked as read. */
  function MarkRead(c: seq<Cell>, p: nat, q: nat): (r: seq<Cell>)
    requires p <= q < |c|
    ensures |r| == |c|
    ensures forall k :: 0 <= k < |c| ==> r[k] == if p <= k <= q && c[k].Held? then Held(c[k].pkt, 2) else c[k]
  {
    seq(|c|, k requires 0 <= k < |c| => if p <= k <= q && c[k].Held? then Held(c[k].pkt, 2) else c[k])
  }

  /** The message found by a scan, as cells of the window left by Skip. */
  datatype Found = Nothing | Message(p: nat, q: nat)

  /** The cell just past the ack point is not looked at while nothing is acked and no packet
      arrived beyond it. */
  predicate Quiet(w: Window) { w.acked == 0 && w.maxPos == 0 }

  /** The scan picks the deliverable message that ends first, and misses none. */
  ghost predicate Finds(w: Window, f: Found)
    requires w.acked <= |w.cells|
  {
    var t := Skip(w);
    match f
    case Nothing => Quiet(w) || forall p, q :: !Deliverable(t.cells, t.acked, p, q)
    case Message(p, q) =>
      && !Quiet(w)
      && Deliverable(t.cells, t.acked, p, q)
      && forall p', q' :: Deliverable(t.cells, t.acked, p', q') ==> q <= q'
  }

  /** What handing out cells p to q does: an acked message leaves the buffer, one that reaches
      past the ack point stays, marked as read. */
  function After(t: Window, f: Found): Window
    requires f.Message? && f.p <= f.q < |t.cells| && t.acked <= |t.cells|
  {
    if f.q < t.acked then Drop(t, f.q + 1) else t.(cells := MarkRead(t.cells, f.p, f.q))
  }

  /** The window after readMsg found f. */
  function Taken(w: Window, f: Found): Window
    requires w.acked <= |w.cells|
    requires f.Message? ==> f.p <= f.q < |w.cells|
  {
    if f.Nothing? then Skip(w) else After(Skip(w), f)
  }

  /** readMsg with room for len bytes, as one step. */
  ghost predicate ReadMsg(w: Window, len: nat, f: Found, out: seq<bv8>, w': Window) {
    && w.acked <= |w.cells|
    && Finds(w, f)
    && w' == Taken(w, f)
    && out == Handed(w, f, len)
  }

  /** What the caller of readMsg gets. */
  function Handed(w: Window, f: Found, len: nat): seq<bv8>
    requires w.acked <= |w.cells| && (f.Message? ==> LiveMessage(Skip(w).cells, f.p, f.q))
  {
    if f.Nothing? then [] else Clip(Payload(PacketsOf(Skip(w).cells[f.p..f.q + 1])), len)
  }

  /** Under the framing of the stream the message ending at q starts in one place only. */
  lemma StartIsUnique(c: seq<Cell>, p: nat, p': nat, q: nat)
    requires Framed(c) && LiveMessage(c, p, q) && LiveMessage(c, p', q)
    ensures p == p'
  {
    if p > 0 && c[p - 1].Held? {
      assert c[p - 1].pkt.last;
    }
    if p' > 0 && c[p' - 1].Held? {
      assert c[p' - 1].pkt.last;
    }
  }

  /** The step is deterministic: it fixes the message, the bytes and the new window. */
  lemma ReadMsgDeterministic(w: Window, len: nat, f: Found, out: seq<bv8>, w': Window,
                             g: Found, out2: seq<bv8>, w2: Window)
    requires Valid(w) && Framed(w.cells)
    requires ReadMsg(w, len, f, out, w') && ReadMsg(w, len, g, out2, w2)
    ensures f == g && out == out2 && w' == w2
  {
    FoundIsUnique(w, f, g);
  }

  lemma FoundIsUnique(w: Window, f: Found, g: Found)
    requires Valid(w) && Framed(w.cells) && Finds(w, f) && Finds(w, g)
    ensures f == g
  {
    var t := Skip(w);
    DropValid(w, BadCells(w.cells, w.acked, 0));
    if f.Message? && g.Message? {
      assert f.q == g.q;
      StartIsUnique(t.cells, f.p, g.p, f.q);
    }
  }

  /** An acked message starts at the front of the window left by Skip. */
  lemma AckedMessageIsFirst(w: Window, p: nat, q: nat)
    requires Valid(w) && Framed(w.cells)
    requires Finds(w, Message(p, q)) && q < Skip(w).acked
    ensures p == 0
  {
    var k := BadCells(w.cells, w.acked, 0);
    var t := Skip(w);
    DropValid(w, k);
    if k < w.acked {
      var e := HeadEnd(w.cells, w.acked, k, k);
      forall j | 0 <= j < |w.cells| - k ensures t.cells[j] == w.cells[k + j] {}
      StartsPastHead(t.cells, e - k, p);
      if e < w.acked {
        assert LiveMessage(t.cells, 0, e - k);
        assert Deliverable(t.cells, t.acked, 0, e - k);
      }
    }
  }

  /** No message starts inside a run of packets that none of ends a message. */
  lemma StartsPastHead(c: seq<Cell>, e: nat, p: nat)
    requires Framed(c) && e <= |c| && p < |c| && Live(c[p]) && c[p].pkt.first
    requires forall j :: 0 <= j < e ==> Live(c[j]) && !c[j].pkt.last
    ensures p == 0 || p > e
  {
    if p > 0 && c[p - 1].Held? {
      assert c[p - 1].pkt.last;
    }
  }

  /** Where an intact run from i ends: at the last packet of its message, or at the ack point. */
  lemma {:induction false} HeadEnd(c: seq<Cell>, acked: nat, k: nat, i: nat) returns (e: nat)
    requires k <= i <= acked <= |c| && Intact(c, acked, i)
    requires forall j :: k <= j < i ==> Live(c[j]) && !c[j].pkt.last
    ensures i <= e <= acked
    ensures forall j :: k <= j < e ==> Live(c[j]) && !c[j].pkt.last
    ensures e < acked ==> Live(c[e]) && c[e].pkt.last
    decreases acked - i
  {
    if i == acked || c[i].pkt.last {
      e := i;
    } else {
      e := HeadEnd(c, acked, k, i + 1);
    }
  }

  // ----- The scan for a message, position by position

  /** Cells p to i - 1 are live, start a message, and only the last of them may end it. */
  ghost predicate Opens(c: seq<Cell>, p: int, i: nat) {
    && 0 <= p < i <= |c|
    && (forall k :: p <= k < i ==> Live(c[k]))
    && c[p].pkt.first
    && (forall k :: p <= k < i - 1 ==> !c[k].pkt.last)
  }

  /** After looking at i cells, `head` is where the message under way starts, or -1. */
  ghost predicate Tracks(c: seq<Cell>, head: int, i: nat) {
    && (head == -1 || Opens(c, head, i))
    && (forall p :: Opens(c, p, i) ==> p == head)
  }

  function NextHead(c: seq<Cell>, head: int, i: nat): int
    requires i < |c|
  {
    if !Live(c[i]) then -1 else if c[i].pkt.first then i else head
  }

  /** One step of the scan finds the start of the message that ends here, if there is one. */
  lemma TrackStep(c: seq<Cell>, head: int, i: nat)
    requires Framed(c) && i < |c| && Tracks(c, head, i)
    ensures Tracks(c, NextHead(c, head, i), i + 1)
    ensures forall p :: LiveMessage(c, p, i) ==> p == NextHead(c, head, i)
    ensures NextHead(c, head, i) >= 0 && c[i].pkt.last ==> LiveMessage(c, NextHead(c, head, i), i)
  {
    if i > 0 && Live(c[i]) && Live(c[i - 1]) {
      assert c[i].pkt.first <==> c[i - 1].pkt.last;
    }
    var j := i + 1;
    forall p | Opens(c, p, j) ensures p == NextHead(c, head, i) {
      if p < i {
        assert Live(c[i - 1]) && !c[i - 1].pkt.last;
        assert Opens(c, p, i);
      }
    }
    forall p: nat | LiveMessage(c, p, i) ensures p == NextHead(c, head, i) {
      assert Opens(c, p, j);
    }
  }

  /** The first i cells were looked at; none of them ends a deliverable message. */
  ghost predicate Scanned(c: seq<Cell>, acked: nat, head: int, i: nat) {
    && Tracks(c, head, i)
    && forall p, q :: Deliverable(c, acked, p, q) ==> i <= q
  }

  predicate Hit(c: seq<Cell>, acked: nat, head: int, i: nat)
    requires i < |c|
  {
    head >= 0 && Live(c[i]) && c[i].pkt.last && (i < acked || !c[i].pkt.ordered)
  }

  lemma ScanStep(c: seq<Cell>, acked: nat, head: int, i: nat)
    requires Framed(c) && i < |c| && Scanned(c, acked, head, i)
    ensures var h := NextHead(c, head, i);
      if Hit(c, acked, h, i) then Stopped(c, acked, h, i) else Scanned(c, acked, h, i + 1)
  {
    TrackStep(c, head, i);
    var h := NextHead(c, head, i);
    if !Hit(c, acked, h, i) {
      forall p: nat, q: nat | Deliverable(c, acked, p, q) ensures i + 1 <= q {}
    }
  }

  /** The scan stopped at cell i, where the first deliverable message ends. */
  ghost predicate Stopped(c: seq<Cell>, acked: nat, head: int, i: nat) {
    head >= 0 && Deliverable(c, acked, head, i) && forall p, q :: Deliverable(c, acked, p, q) ==> i <= q
  }

  /** One message, unfinished or not to be handed out yet, fills every cell but the one that stays free. */
  ghost predicate Full(t: Window) {
    |t.cells| > 1 && t.acked + t.maxPos + 2 == |t.cells| && Opens(t.cells, 0, |t.cells| - 1)
  }

  /** Past the furthest packet there is nothing to find. */
  lemma ScanEnd(w: Window, head: int)
    requires Valid(w) && Scanned(w.cells, w.acked, head, w.acked + w.maxPos + 1)
    ensures forall p, q :: !Deliverable(w.cells, w.acked, p, q)
  {
    forall p: nat, q: nat ensures !Deliverable(w.cells, w.acked, p, q) {
      if w.acked + w.maxPos < q < |w.cells| {
        assert w.cells[q] == Free;
      }
    }
  }

  // ----- Reading bytes

  /** All cells before the ack point hold a packet. */
  ghost predicate Filled(w: Window) {
    w.acked <= |w.cells| && forall k :: 0 <= k < w.acked ==> w.cells[k].Held?
  }

  /** The bytes a stream reader can take. */
  ghost function Bytes(w: Window): seq<bv8>
    requires Filled(w) && NotchOk(w)
  {
    BytesFrom(w.cells[..w.acked], w.notch)
  }

  ghost predicate NotchOk(w: Window) {
    w.notch == 0 || (0 < w.acked <= |w.cells| && w.cells[0].Held? && w.notch < |w.cells[0].pkt.data|)
  }

  function BytesFrom(c: seq<Cell>, notch: nat): seq<bv8>
    requires forall k :: 0 <= k < |c| ==> c[k].Held?
    requires notch == 0 || (|c| > 0 && notch < |c[0].pkt.data|)
  {
    if c == [] then [] else c[0].pkt.data[notch..] + BytesFrom(c[1..], 0)
  }

  /** readBuffer with room for len bytes, as one step: whole packets leave the buffer, the
      notch remembers how much of the next one was taken, and not a byte is lost or repeated. */
  ghost predicate ReadBytes(w: Window, len: nat, out: seq<bv8>, w': Window) {
    && Filled(w) && Filled(w') && NotchOk(w) && NotchOk(w')
    && out == Clip(Bytes(w), len)
    && Bytes(w) == out + Bytes(w')
    && exists k: nat :: k <= w.acked && w' == Drop(w, k).(notch := w'.notch)
  }

  lemma NotchValid(w: Window, k: nat, w': Window)
    requires Valid(w) && k <= w.acked && w' == Drop(w, k).(notch := w'.notch) && NotchOk(w')
    ensures Valid(w')
  {
    DropValid(w, k);
  }

  lemma ReadBytesValid(w: Window, len: nat, out: seq<bv8>, w': Window)
    requires Valid(w) && ReadBytes(w, len, out, w')
    ensures Valid(w') && Filled(w')
  {
    var k: nat :| k <= w.acked && w' == Drop(w, k).(notch := w'.notch);
    NotchValid(w, k, w');
  }
}
