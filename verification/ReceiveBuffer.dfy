/** The receiving buffer itself: a ring of unit pointers whose positions wrap, proved
    against the windows of ReceiveSpec. */
module ReceiveBuffer {
  import opened Seqs
  import opened Packets
  import opened ReceiveSpec

  /** A packet buffer lent by the unit queue; flag 0 means free. */
  class Unit {
    var pkt: Packet
    var flag: int

    constructor (p: Packet)
      ensures pkt == p && flag == 0
    {
      pkt, flag := p, 0;
    }
  }

  /** The queue that lends units; `count` is the number of units lent. */
  class UnitQueue {
    var count: int

    constructor ()
      ensures count == 0
    {
      count := 0;
    }
  }

  /** A ring read from position s on. */
  ghost function Turn(r: seq<Cell>, s: nat): (w: seq<Cell>)
    requires s <= |r|
    ensures |w| == |r|
  {
    r[s..] + r[..s]
  }

  /** Position k past s, as the code computes it when a position reaches the end of the ring. */
  function Wrap(pos: nat, n: nat): nat { if pos < n then pos else pos - n }

  /** The same position by the remainder, as the code computes it elsewhere. */
  method Modulo(pos: nat, n: nat) returns (r: nat)
    requires 0 < n && pos < 2 * n
    ensures r == Wrap(pos, n)
  {
    r := pos % n;
    if pos < n {
      SmallRemainder(pos, n);
    } else {
      assert pos % n == (pos - n) % n;
      SmallRemainder(pos - n, n);
    }
  }

  lemma SmallRemainder(pos: nat, n: nat)
    requires pos < n
    ensures pos % n == pos
  {
  }

  /** The number of slots from start to pos. */
  function Distance(start: nat, pos: nat, n: nat): nat
    requires start < n
  {
    if pos >= start then pos - start else n + pos - start
  }

  /** Cell k of the turned ring is slot s + k, wrapped; a change there is a change here. */
  lemma TurnAt(r: seq<Cell>, s: nat, k: nat, c: Cell)
    requires s < |r| && k < |r|
    ensures Turn(r, s)[k] == r[Wrap(s + k, |r|)]
    ensures Turn(r[Wrap(s + k, |r|) := c], s) == Turn(r, s)[k := c]
  {
  }

  /** Moving the start by k cells turns the ring by k. */
  lemma TurnMore(r: seq<Cell>, s: nat, k: nat)
    requires s < |r| && k <= |r| && s + k < 2 * |r|
    ensures Turn(r, Wrap(s + k, |r|)) == Turn(r, s)[k..] + Turn(r, s)[..k]
  {
  }

  /** Filling or freeing one slot changes the number of cells in use by one. */
  lemma TurnCount(r: seq<Cell>, s: nat, k: nat, c: Cell)
    requires s < |r| && k < |r| && r[Wrap(s + k, |r|)].Held? != c.Held?
    ensures Occupied(Turn(r[Wrap(s + k, |r|) := c], s)) == Occupied(Turn(r, s)) + (if c.Held? then 1 else -1)
  {
    TurnAt(r, s, k, c);
    OccupiedUpdate(Turn(r, s), k, c);
  }

  /** The number of cells in use. */
  function Occupied(c: seq<Cell>): nat {
    if c == [] then 0 else (if c[0].Held? then 1 else 0) + Occupied(c[1..])
  }

  lemma {:induction false} OccupiedConcat(a: seq<Cell>, b: seq<Cell>)
    ensures Occupied(a + b) == Occupied(a) + Occupied(b)
  {
    if a == [] {
      assert a + b == b;
    } else {
      assert (a + b)[1..] == a[1..] + b;
      OccupiedConcat(a[1..], b);
    }
  }

  lemma OccupiedTurned(c: seq<Cell>, k: nat)
    requires k <= |c|
    ensures Occupied(c[k..] + c[..k]) == Occupied(c)
  {
    OccupiedConcat(c[..k], c[k..]);
    OccupiedConcat(c[k..], c[..k]);
    assert c == c[..k] + c[k..];
  }

  lemma OccupiedUpdate(c: seq<Cell>, k: nat, x: Cell)
    requires k < |c|
    ensures Occupied(c[k := x]) == Occupied(c) - (if c[k].Held? then 1 else 0) + (if x.Held? then 1 else 0)
  {
    assert c == c[..k] + ([c[k]] + c[k + 1..]);
    assert c[k := x] == c[..k] + ([x] + c[k + 1..]);
    OccupiedConcat(c[..k], [c[k]] + c[k + 1..]);
    OccupiedConcat(c[..k], [x] + c[k + 1..]);
  }

  /** The free first cell goes to the back when the start moves over it. */
  lemma TurnPastFree(r: seq<Cell>, s: nat)
    requires s < |r| && r[s] == Free
    ensures Turn(r, Wrap(s + 1, |r|)) == Turn(r, s)[1..] + FreeCells(1)
  {
    TurnMore(r, s, 1);
    TurnAt(r, s, 0, Free);
    assert Turn(r, s)[..1] == FreeCells(1);
  }

  /** Freeing the first slot first makes no difference to Drop. */
  lemma DropFirst(w: Window)
    requires 0 < w.acked <= |w.cells|
    ensures Drop(w.(cells := w.cells[0 := Free]), 1) == Drop(w, 1)
  {
    assert w.cells[0 := Free][1..] == w.cells[1..];
  }

  /** Taking the rest of the first packet, or len bytes of it. */
  lemma BytesStep(w: Window)
    requires Filled(w) && NotchOk(w) && w.acked > 0
    ensures Filled(Drop(w, 1)) && NotchOk(Drop(w, 1))
    ensures Bytes(w) == w.cells[0].pkt.data[w.notch..] + Bytes(Drop(w, 1))
  {
    assert w.cells[..w.acked][1..] == Drop(w, 1).cells[..w.acked - 1];
  }

  lemma BytesNotch(w: Window, n: nat)
    requires Filled(w) && NotchOk(w) && w.acked > 0 && w.notch + n < |w.cells[0].pkt.data|
    ensures Bytes(w) == w.cells[0].pkt.data[w.notch..w.notch + n] + Bytes(w.(notch := w.notch + n))
  {
    assert w.cells[..w.acked][0] == w.cells[0];
  }

  /** What taking n bytes of the first packet does: the packet leaves when it is used up. */
  function Bite(w: Window, n: nat): Window
    requires 0 < w.acked <= |w.cells| && w.cells[0].Held? && w.notch + n <= |w.cells[0].pkt.data|
  {
    if w.notch + n == |w.cells[0].pkt.data| then Drop(w, 1) else w.(notch := w.notch + n)
  }

  /** The byte reader has given out `out`, dropped k cells and left window w. */
  ghost predicate Progress(w0: Window, k: nat, out: seq<bv8>, w: Window) {
    && Filled(w0) && NotchOk(w0)
    && k <= w0.acked && w == Drop(w0, k).(notch := w.notch)
    && Filled(w) && NotchOk(w)
    && Bytes(w0) == out + Bytes(w)
  }

  lemma ProgressStart(w: Window)
    requires Filled(w) && NotchOk(w)
    ensures Progress(w, 0, [], w)
  {
    assert Drop(w, 0) == w;
  }

  lemma DropNext(w0: Window, k: nat, w: Window)
    requires k < w0.acked <= |w0.cells| && w == Drop(w0, k).(notch := w.notch)
    ensures Drop(w, 1) == Drop(w0, k + 1)
  {
    DropDrop(w0, k, 1);
    assert Drop(w, 1).cells == Drop(Drop(w0, k), 1).cells;
  }

  lemma BiteAll(w0: Window, k: nat, out: seq<bv8>, w: Window)
    requires Progress(w0, k, out, w) && k < w0.acked
    ensures Progress(w0, k + 1, out + w.cells[0].pkt.data[w.notch..], Drop(w, 1))
  {
    BytesStep(w);
    DropNext(w0, k, w);
    Assoc(out, w.cells[0].pkt.data[w.notch..], Bytes(Drop(w, 1)));
  }

  lemma BitePart(w0: Window, k: nat, out: seq<bv8>, w: Window, n: nat)
    requires Progress(w0, k, out, w) && k < w0.acked && w.notch + n < |w.cells[0].pkt.data|
    ensures Progress(w0, k, out + w.cells[0].pkt.data[w.notch..w.notch + n], w.(notch := w.notch + n))
  {
    BytesNotch(w, n);
    Assoc(out, w.cells[0].pkt.data[w.notch..w.notch + n], Bytes(w.(notch := w.notch + n)));
  }

  /** One round of the byte reader keeps the accounts. */
  lemma BiteStep(w0: Window, k: nat, out: seq<bv8>, w: Window, n: nat)
    requires Progress(w0, k, out, w) && k < w0.acked
    requires w.notch + n <= |w.cells[0].pkt.data|
    ensures var b := Bite(w, n);
      Progress(w0, if b.acked < w.acked then k + 1 else k, out + w.cells[0].pkt.data[w.notch..w.notch + n], b)
  {
    if w.notch + n == |w.cells[0].pkt.data| {
      BiteAll(w0, k, out, w);
      assert w.cells[0].pkt.data[w.notch..w.notch + n] == w.cells[0].pkt.data[w.notch..];
    } else {
      BitePart(w0, k, out, w, n);
    }
  }

  lemma ProgressDone(w0: Window, k: nat, out: seq<bv8>, w: Window, len: nat)
    requires Progress(w0, k, out, w) && |out| <= len && (|out| == len || w.acked == 0)
    ensures ReadBytes(w0, len, out, w)
  {
  }

  lemma {:induction false} IntactDrop(w: Window, i: nat)
    requires 1 <= i <= w.acked < |w.cells|
    ensures Intact(w.cells, w.acked, i) == Intact(Drop(w, 1).cells, w.acked - 1, i - 1)
    decreases w.acked - i
  {
    if i < w.acked {
      assert Drop(w, 1).cells[i - 1] == w.cells[i];
      IntactDrop(w, i + 1);
    }
  }

  lemma {:induction false} BadCellsDrop(w: Window, i: nat)
    requires 1 <= i <= w.acked < |w.cells|
    ensures BadCells(w.cells, w.acked, i) == BadCells(Drop(w, 1).cells, w.acked - 1, i - 1)
    decreases w.acked - i
  {
    if i < w.acked {
      assert Drop(w, 1).cells[i - 1] == w.cells[i];
      IntactDrop(w, i);
      BadCellsDrop(w, i + 1);
    }
  }

  /** A bad first cell can be dropped before the rest is skipped. */
  lemma SkipOne(w: Window)
    requires 0 < w.acked < |w.cells| && !GoodHead(w.cells, w.acked, 0)
    ensures Skip(Drop(w, 1)) == Skip(w)
  {
    BadCellsDrop(w, 1);
    DropDrop(w, 1, BadCells(w.cells, w.acked, 1));
  }

  /** What the scan needs to know about the window left by Skip. */
  lemma SkipReady(w: Window)
    requires Valid(w) && Framed(w.cells)
    ensures Framed(Skip(w).cells) && Valid(Skip(w))
    ensures -1 <= Skip(w).maxPos && Skip(w).acked + Skip(w).maxPos < |w.cells|
  {
    DropValid(w, BadCells(w.cells, w.acked, 0));
  }

  /** When the scan comes back to the start of its message. */
  lemma ReadyFull(w: Window, head: int)
    requires Valid(w) && Framed(w.cells)
    requires Tracks(Skip(w).cells, head, Skip(w).acked + Skip(w).maxPos + 1)
    ensures var m := Skip(w).acked + Skip(w).maxPos + 1;
      && -1 <= head < m <= |w.cells| && (m == |w.cells| ==> head == -1)
      && (Full(Skip(w)) <==> head >= 0 && head == m + 1 - |w.cells|)
  {
    SkipReady(w);
    TracksFull(Skip(w), head);
  }

  lemma TracksFull(t: Window, head: int)
    requires Valid(t) && t.acked + t.maxPos < |t.cells|
    requires Tracks(t.cells, head, t.acked + t.maxPos + 1)
    ensures var m := t.acked + t.maxPos + 1;
      && -1 <= head < m <= |t.cells| && (m == |t.cells| ==> head == -1)
      && (Full(t) <==> head >= 0 && head == m + 1 - |t.cells|)
  {
    var m := t.acked + t.maxPos + 1;
    if m == |t.cells| {
      assert t.cells[m - 1] == Free;
      assert head == -1;
    }
  }

  lemma FindsStopped(w: Window, head: int, q: nat)
    requires w.acked <= |w.cells| && !Quiet(w) && Stopped(Skip(w).cells, Skip(w).acked, head, q)
    ensures Finds(w, Message(head, q))
  {
  }

  lemma FindsNothing(w: Window, head: int)
    requires Valid(w) && Framed(w.cells)
    requires Scanned(Skip(w).cells, Skip(w).acked, head, Skip(w).acked + Skip(w).maxPos + 1)
    ensures Finds(w, Nothing)
  {
    DropValid(w, BadCells(w.cells, w.acked, 0));
    ScanEnd(Skip(w), head);
  }

  lemma SkipNone(w: Window)
    requires w.acked < |w.cells| && (w.acked == 0 || GoodHead(w.cells, w.acked, 0))
    ensures Skip(w) == w
  {
  }

  /** Cells a to b - 1 after they were handed out: marked as read, or free. */
  function Processed(c: seq<Cell>, a: nat, b: nat, keep: bool): (r: seq<Cell>)
    requires a <= b <= |c| && forall k :: a <= k < b ==> c[k].Held?
    ensures |r| == |c|
  {
    seq(|c|, k requires 0 <= k < |c| => if a <= k < b then if keep then Held(c[k].pkt, 2) else Free else c[k])
  }

  lemma ProcessedMore(c: seq<Cell>, a: nat, b: nat, keep: bool)
    requires a <= b < |c| && forall k :: a <= k <= b ==> c[k].Held?
    ensures Processed(c, a, b, keep)[b] == c[b]
    ensures Processed(c, a, b + 1, keep) == Processed(c, a, b, keep)[b := if keep then Held(c[b].pkt, 2) else Free]
  {
  }

  /** What is known of a message that the scan found. */
  lemma FoundShape(w: Window, f: Found)
    requires Valid(w) && Framed(w.cells) && Finds(w, f) && f.Message?
    ensures f.p <= f.q && f.q + 1 < |w.cells|
    ensures forall k :: f.p <= k <= f.q ==> Skip(w).cells[k].Held?
    ensures f.q < Skip(w).acked ==> f.p == 0
  {
    DropValid(w, BadCells(w.cells, w.acked, 0));
    if f.q < Skip(w).acked {
      AckedMessageIsFirst(w, f.p, f.q);
    }
  }

  /** Copying the message and handing its units out is the readMsg step. */
  lemma ReadMsgDone(w: Window, f: Found, len: nat, out: seq<bv8>)
    requires Valid(w) && Framed(w.cells) && Finds(w, f) && f.Message?
    requires w.notch == 0 && Copied(Skip(w).cells, f.p, f.q + 1, len, out)
    ensures var t := Skip(w);
      if f.q >= t.acked then ReadMsg(w, len, f, out, t.(cells := Processed(t.cells, f.p, f.q + 1, true)))
      else
        var c := Processed(t.cells, f.p, f.q + 1, false);
        ReadMsg(w, len, f, out, Turned(t.(cells := c), f.q + 1))
  {
    FoundShape(w, f);
    ProcessedAll(Skip(w), f);
  }

  /** The window when the start moves over k cells that keep their content. */
  function Turned(w: Window, k: nat): Window
    requires k <= w.acked && k <= |w.cells|
  {
    Window(w.base + k, w.cells[k..] + w.cells[..k], w.acked - k, w.maxPos, w.notch)
  }

  lemma ProcessedAll(w: Window, f: Found)
    requires f.Message? && f.p <= f.q < |w.cells| && w.acked <= |w.cells|
    requires forall k :: f.p <= k <= f.q ==> w.cells[k].Held?
    ensures Processed(w.cells, f.p, f.p, true) == w.cells == Processed(w.cells, f.p, f.p, false)
    ensures Processed(w.cells, f.p, f.q + 1, true) == MarkRead(w.cells, f.p, f.q)
    ensures f.p == 0 && f.q < w.acked ==>
      var c := Processed(w.cells, 0, f.q + 1, false);
      c[f.q + 1..] + c[..f.q + 1] == Drop(w, f.q + 1).cells
  {
    if f.p == 0 && f.q < w.acked {
      var c := Processed(w.cells, 0, f.q + 1, false);
      assert c[f.q + 1..] == w.cells[f.q + 1..];
      assert c[..f.q + 1] == FreeCells(f.q + 1);
    }
  }

  /** The bytes handed out so far, when one more packet is copied. */
  lemma ClipMore(all: seq<bv8>, d: seq<bv8>, len: nat)
    ensures Clip(all, len) + Clip(d, len - |Clip(all, len)|) == Clip(all + d, len)
  {
    if len < |all| {
      assert Clip(all, len) == Clip(all + d, len);
    }
  }

  lemma {:induction false} PacketsOfSnoc(c: seq<Cell>, x: Cell)
    requires (forall k :: 0 <= k < |c| ==> c[k].Held?) && x.Held?
    ensures PacketsOf(c + [x]) == PacketsOf(c) + [x.pkt]
  {
    if c != [] {
      assert (c + [x])[1..] == c[1..] + [x];
      PacketsOfSnoc(c[1..], x);
    }
  }

  /** Packets a to b - 1 of the window were copied into a buffer of len bytes. */
  ghost predicate Copied(c: seq<Cell>, a: nat, b: nat, len: nat, out: seq<bv8>) {
    && a <= b <= |c|
    && (forall k :: a <= k < b ==> c[k].Held?)
    && out == Clip(Payload(PacketsOf(c[a..b])), len)
  }

  lemma CopiedMore(c: seq<Cell>, a: nat, b: nat, len: nat, out: seq<bv8>)
    requires Copied(c, a, b, len, out) && b < |c| && c[b].Held?
    ensures Copied(c, a, b + 1, len, out + Clip(c[b].pkt.data, len - |out|))
  {
    assert c[a..b + 1] == c[a..b] + [c[b]];
    PacketsOfSnoc(c[a..b], c[b]);
    PayloadSnoc(PacketsOf(c[a..b]), c[b].pkt);
    ClipMore(Payload(PacketsOf(c[a..b])), c[b].pkt.data, len);
  }

  lemma AddIs(w: Window, offset: nat, p: Packet)
    requires offset < Available(w)
    ensures var v := w.(maxPos := if offset > w.maxPos then offset else w.maxPos);
      Add(w, offset, p) ==
        if w.cells[w.acked + offset].Free? then v.(cells := v.cells[w.acked + offset := Held(p, 1)]) else v
  {
  }

  class RcvBuffer {
    const units: array<Unit?>
    const queue: UnitQueue
    var startPos: nat
    var lastAckPos: nat
    var maxPos: int
    var notch: nat
    ghost var ring: seq<Cell>
    ghost var base: nat
    ghost var pool: set<Unit>

    ghost predicate Rep()
      reads this, units, pool
    {
      && Shape()
      && (forall i :: 0 <= i < units.Length && units[i] != null ==> units[i] in pool)
      && (forall i :: 0 <= i < units.Length ==> SlotOk(units[i], ring[i]))
      && (forall i, j :: 0 <= i < j < units.Length && units[i] != null ==> units[i] != units[j])
    }

    ghost predicate Shape()
      reads this
    {
      units.Length == |ring| && startPos < |ring| && lastAckPos < |ring|
    }

    static ghost predicate SlotOk(u: Unit?, c: Cell)
      reads u
    {
      if u == null then c == Free else u.flag != 0 && c == Held(u.pkt, u.flag)
    }

    /** The abstract window. */
    ghost function View(): (w: Window)
      reads this
      requires Shape()
      ensures |w.cells| == |ring|
    {
      Window(base, Turn(ring, startPos), RcvDataSize(), maxPos, notch)
    }

    function RcvDataSize(): nat
      reads this
      requires startPos < units.Length
    {
      Distance(startPos, lastAckPos, units.Length)
    }

    function AvailBufSize(): (n: int)
      reads this
      requires startPos < units.Length
    {
      units.Length - RcvDataSize() - 1
    }

    constructor (bufsize: nat, q: UnitQueue)
      requires bufsize > 0
      ensures Rep() && fresh(units) && queue == q && pool == {}
      ensures Empty(View(), bufsize)
    {
      queue := q;
      units := new Unit?[bufsize](_ => null);
      startPos, lastAckPos, maxPos, notch := 0, 0, -1, 0;
      ring, base, pool := FreeCells(bufsize), 0, {};
      new;
    }

    /** Stores a free unit in an empty slot. */
    method Put(pos: nat, unit: Unit)
      requires Rep() && pos < units.Length && units[pos] == null && unit.flag == 0
      modifies units, unit, queue, `ring, `pool
      ensures Rep() && pool == old(pool) + {unit}
      ensures ring == old(ring)[pos := Held(unit.pkt, 1)] && unit.pkt == old(unit.pkt)
      ensures queue.count == old(queue.count) + 1
    {
      units[pos] := unit;
      unit.flag := 1;
      queue.count := queue.count + 1;
      ring, pool := ring[pos := Held(unit.pkt, 1)], pool + {unit};
    }

    /** Stores a free unit in the empty slot of cell k of the window. */
    method Store(pos: nat, unit: Unit, ghost k: nat)
      requires Rep() && k < |ring| && pos == SlotOf(k) && units[pos] == null && unit.flag == 0
      modifies units, unit, queue, `ring, `pool
      ensures Rep() && pool == old(pool) + {unit} && unit.pkt == old(unit.pkt)
      ensures View() == old(View()).(cells := old(View()).cells[k := Held(unit.pkt, 1)])
      ensures queue.count - old(queue.count) == Occupied(View().cells) - Occupied(old(View()).cells)
    {
      TurnAt(ring, startPos, k, Held(unit.pkt, 1));
      assert SlotOk(units[pos], ring[pos]);
      TurnCount(ring, startPos, k, Held(unit.pkt, 1));
      Put(pos, unit);
    }

    /** Gives the unit in a slot back to its queue. */
    method Release(pos: nat)
      requires Rep() && pos < units.Length && units[pos] != null
      modifies units, pool, queue, `ring
      ensures Rep() && ring == old(ring)[pos := Free]
      ensures queue.count == old(queue.count) - 1
    {
      var tmp := units[pos];
      units[pos] := null;
      tmp.flag := 0;
      queue.count := queue.count - 1;
      ring := ring[pos := Free];
    }

    /** Marks the unit in a slot as read. */
    method Mark(pos: nat)
      requires Rep() && pos < units.Length && units[pos] != null
      modifies pool, `ring
      ensures Rep() && ring == old(ring)[pos := Held(old(ring)[pos].pkt, 2)]
    {
      units[pos].flag := 2;
      ring := ring[pos := Held(ring[pos].pkt, 2)];
    }

    method AddData(unit: Unit, offset: nat) returns (r: int)
      requires Rep() && offset < AvailBufSize() && unit.flag == 0
      modifies this, units, unit, queue
      ensures Rep() && pool <= old(pool) + {unit}
      ensures View() == Add(old(View()), offset, unit.pkt) && unit.pkt == old(unit.pkt)
      ensures r == 0 <==> old(View()).cells[old(View()).acked + offset].Free?
      ensures r == 0 || (r == -1 && unit.flag == 0)
      ensures queue.count - old(queue.count) == Occupied(View().cells) - Occupied(old(View()).cells)
    {
      ghost var k := View().acked + offset;
      var pos := Modulo(lastAckPos + offset, units.Length);
      AddIs(View(), offset, unit.pkt);
      NoteMax(offset);
      r := StoreFree(pos, unit, k);
    }

    /** Stores a free unit, unless the slot is in use. */
    method StoreFree(pos: nat, unit: Unit, ghost k: nat) returns (r: int)
      requires Rep() && k < |ring| && pos == SlotOf(k) && unit.flag == 0
      modifies units, unit, queue, `ring, `pool
      ensures Rep() && pool <= old(pool) + {unit} && unit.pkt == old(unit.pkt)
      ensures r == (if old(View()).cells[k].Free? then 0 else -1) && (r == -1 ==> unit.flag == 0)
      ensures View() ==
        if r == 0 then old(View()).(cells := old(View()).cells[k := Held(unit.pkt, 1)]) else old(View())
      ensures queue.count - old(queue.count) == Occupied(View().cells) - Occupied(old(View()).cells)
    {
      SlotAt(pos, k);
      if units[pos] != null {
        return -1;
      }
      Store(pos, unit, k);
      r := 0;
    }

    /** Slot pos holds cell k of the window. */
    lemma SlotAt(pos: nat, k: nat)
      requires Rep() && k < |ring| && pos == Wrap(startPos + k, units.Length)
      ensures pos < units.Length && SlotOk(units[pos], View().cells[k])
    {
      TurnAt(ring, startPos, k, Free);
      assert SlotOk(units[pos], ring[pos]);
    }

    /** The furthest packet so far. */
    method NoteMax(offset: nat)
      requires Rep()
      modifies `maxPos
      ensures Rep()
      ensures View() == old(View()).(maxPos := if offset > old(maxPos) then offset else old(maxPos))
    {
      if offset > maxPos {
        maxPos := offset;
      }
    }

    method AckData(len: nat)
      requires Rep() && len <= AvailBufSize()
      modifies this
      ensures Rep() && pool == old(pool)
      ensures View() == Ack(old(View()), len)
    {
      lastAckPos := Modulo(lastAckPos + len, units.Length);
      maxPos := maxPos - len;
      if maxPos < 0 {
        maxPos := 0;
      }
    }

    /** Frees the first slot, which holds a unit, and moves the start over it. */
    method DropHead()
      requires Rep() && RcvDataSize() > 0 && units[startPos] != null
      modifies this, units, pool, queue
      ensures Rep() && pool == old(pool)
      ensures View() == Drop(old(View()), 1).(notch := notch) && notch == old(notch)
      ensures Occupied(View().cells) - Occupied(old(View()).cells) == queue.count - old(queue.count)
    {
      ghost var w := View();
      TurnAt(ring, startPos, 0, Free);
      TurnCount(ring, startPos, 0, Free);
      Release(startPos);
      SkipHead();
      DropFirst(w);
    }

    /** Moves the start over an empty first slot. */
    method SkipHead()
      requires Rep() && RcvDataSize() > 0 && units[startPos] == null
      modifies `startPos, `base
      ensures Rep()
      ensures View() == Drop(old(View()), 1).(notch := notch)
      ensures Occupied(View().cells) == Occupied(old(View()).cells)
    {
      ghost var c := View().cells;
      assert SlotOk(units[startPos], ring[startPos]);
      TurnPastFree(ring, startPos);
      TurnAt(ring, startPos, 0, Free);
      OccupiedConcat(c[1..], FreeCells(1));
      assert c == [Free] + c[1..];
      startPos := startPos + 1;
      if startPos == units.Length {
        startPos := 0;
      }
      base := base + 1;
    }

    /** Takes at most rs bytes of the first packet. */
    method TakeFirst(rs: nat) returns (chunk: seq<bv8>)
      requires Rep() && View().acked > 0 && rs > 0
      requires View().cells[0].Held? && notch <= |View().cells[0].pkt.data|
      modifies this, units, pool, queue
      ensures Rep() && pool == old(pool)
      ensures |chunk| <= rs && (|chunk| == rs || View().acked < old(View()).acked)
      ensures old(notch) + |chunk| <= |old(View()).cells[0].pkt.data|
      ensures chunk == old(View()).cells[0].pkt.data[old(notch)..old(notch) + |chunk|]
      ensures View() == Bite(old(View()), |chunk|)
      ensures Occupied(View().cells) - Occupied(old(View()).cells) == queue.count - old(queue.count)
    {
      SlotAt(startPos, 0);
      var left := |units[startPos].pkt.data| - notch;
      var unitsize := left;
      if unitsize > rs {
        unitsize := rs;
      }
      chunk := units[startPos].pkt.data[notch..notch + unitsize];
      if rs > unitsize || rs == left {
        DropHead();
        notch := 0;
      } else {
        notch := notch + rs;
      }
    }

    /** One round of readBuffer, which began with window w. */
    method TakeNext(rs: nat, ghost w: Window, ghost k: nat, ghost out: seq<bv8>)
      returns (chunk: seq<bv8>, ghost k': nat)
      requires Rep() && View().acked > 0 && rs > 0 && Progress(w, k, out, View())
      modifies this, units, pool, queue
      ensures Rep() && pool == old(pool) && |chunk| <= rs && Progress(w, k', out + chunk, View())
      ensures k <= k' && (|chunk| == rs || k < k')
      ensures Occupied(View().cells) - Occupied(old(View()).cells) == queue.count - old(queue.count)
    {
      ghost var v := View();
      chunk := TakeFirst(rs);
      BiteStep(w, k, out, v, |chunk|);
      k' := if View().acked < v.acked then k + 1 else k;
    }

    method ReadBuffer(len: nat) returns (out: seq<bv8>)
      requires Rep() && Filled(View()) && NotchOk(View())
      modifies this, units, pool, queue
      ensures Rep() && pool == old(pool)
      ensures ReadBytes(old(View()), len, out, View())
      ensures Occupied(View().cells) - Occupied(old(View()).cells) == queue.count - old(queue.count)
    {
      ghost var w := View();
      ghost var k := 0;
      ProgressStart(w);
      var rs: nat := len;
      out := [];
      while startPos != lastAckPos && rs > 0
        invariant Rep() && pool == old(pool)
        invariant rs + |out| == len
        invariant Progress(w, k, out, View())
        invariant Occupied(View().cells) - Occupied(w.cells) == queue.count - old(queue.count)
        decreases w.acked - k + rs
      {
        var chunk;
        chunk, k := TakeNext(rs, w, k, out);
        out := out + chunk;
        rs := rs - |chunk|;
      }
      ProgressDone(w, k, out, View(), len);
    }

    /** Looks ahead from the start for the whole message. */
    method LookAhead() returns (good: bool)
      requires Rep() && RcvDataSize() > 0
      ensures good == Intact(View().cells, View().acked, 0)
    {
      ghost var w := View();
      ghost var k := 0;
      good := true;
      var i := startPos;
      while i != lastAckPos
        invariant k <= w.acked && i == Wrap(startPos + k, units.Length)
        invariant Intact(w.cells, w.acked, 0) == Intact(w.cells, w.acked, k)
        decreases w.acked - k
      {
        SlotAt(i, k);
        if units[i] == null || units[i].flag != 1 {
          return false;
        }
        if units[i].pkt.last {
          return;
        }
        i := i + 1;
        if i == units.Length {
          i := 0;
        }
        k := k + 1;
      }
    }

    /** Between two rounds of the loop below, which began with window w. */
    ghost predicate Skipping(w: Window, was: set<Unit>, lent: int)
      reads this, units, pool, queue
    {
      && Rep() && pool == was && notch == 0 && w.acked <= |w.cells| && Skip(View()) == Skip(w)
      && Occupied(View().cells) - Occupied(w.cells) == queue.count - lent
    }

    /** Gives back the bad cells at the front. */
    method SkipBad()
      requires Rep() && notch == 0
      modifies this, units, pool, queue
      ensures Rep() && pool == old(pool)
      ensures View() == Skip(old(View()))
      ensures Occupied(View().cells) - Occupied(old(View()).cells) == queue.count - old(queue.count)
    {
      while startPos != lastAckPos
        invariant Skipping(old(View()), old(pool), old(queue.count))
        decreases RcvDataSize()
      {
        var good := HeadIsGood();
        if good {
          break;
        }
        SkipOne(View());
        DropFront();
      }
      SkipNone(View());
    }

    /** The first slot holds the start of a whole message. */
    method HeadIsGood() returns (good: bool)
      requires Rep() && RcvDataSize() > 0
      ensures good == GoodHead(View().cells, View().acked, 0)
    {
      SlotAt(startPos, 0);
      good := false;
      if units[startPos] != null && units[startPos].flag == 1 && units[startPos].pkt.first {
        good := LookAhead();
      }
    }

    /** Moves the start over the first slot and gives back its unit, if there is one. */
    method DropFront()
      requires Rep() && RcvDataSize() > 0
      modifies this, units, pool, queue
      ensures Rep() && pool == old(pool) && notch == old(notch)
      ensures View() == Drop(old(View()), 1).(notch := notch)
      ensures Occupied(View().cells) - Occupied(old(View()).cells) == queue.count - old(queue.count)
    {
      if units[startPos] == null {
        SkipHead();
      } else {
        DropHead();
      }
    }

    /** The slot of cell k of the window; -1 stands for no cell. */
    function SlotOf(k: int): int
      reads this
    {
      if k < 0 then -1 else Wrap(startPos + k, units.Length)
    }

    /** Looks at the unit in slot q: where does its message start, and can it be handed out? */
    method Look(q: nat, p: int, passack: bool, ghost i: nat, ghost head: int) returns (p': int, hit: bool)
      requires Rep() && i < |ring| && -1 <= head < i
      requires q == SlotOf(i) && p == SlotOf(head) && passack == (i >= View().acked)
      ensures p' == SlotOf(NextHead(View().cells, head, i))
      ensures hit == Hit(View().cells, View().acked, NextHead(View().cells, head, i), i)
    {
      SlotAt(q, i);
      p', hit := p, false;
      if units[q] != null && units[q].flag == 1 {
        if units[q].pkt.first {
          p' := q;
        }
        hit := units[q].pkt.last && p' != -1;
      } else {
        p' := -1;
      }
      if hit && passack && units[q].pkt.ordered {
        hit := false;
      }
    }

    /** Between two rounds of the walk, which is at slot q of cell i. */
    ghost predicate Walking(head: int, i: nat, p: int, q: nat, passack: bool)
      reads this, units, pool
    {
      && Rep() && -1 <= head < i && q == SlotOf(i) && q < |ring| && p == SlotOf(head)
      && passack == (i >= View().acked) && Scanned(View().cells, View().acked, head, i)
    }

    /** One round of the walk: looks at the unit in slot q and moves on, unless the search is over. */
    method WalkOne(p: int, q: nat, passack: bool, ghost head: int, ghost i: nat)
      returns (found: bool, p': int, q': nat, passack': bool, ghost head': int)
      requires Walking(head, i, p, q, passack) && Framed(View().cells) && i < |ring|
      ensures found ==> Stopped(View().cells, View().acked, head', i) && p' == SlotOf(head')
      ensures found ==> q' == q == SlotOf(i) && q < |ring| && passack' == passack == (i >= View().acked)
      ensures !found ==> Walking(head', i + 1, p', q', passack')
    {
      q', passack' := q, passack;
      ScanStep(View().cells, View().acked, head, i);
      p', found := Look(q, p, passack, i, head);
      head' := NextHead(View().cells, head, i);
      if !found {
        q' := q + 1;
        if q' == units.Length {
          q' := 0;
        }
        if q' == lastAckPos {
          passack' := true;
        }
      }
    }

    /** Walks from the start up to the furthest packet. */
    method Walk() returns (found: bool, p: int, q: nat, passack: bool, ghost head: int, ghost i: nat)
      requires Rep() && Framed(View().cells)
      requires -1 <= maxPos && View().acked + maxPos < |ring|
      ensures p == SlotOf(head) && q == SlotOf(i) && q < |ring|
      ensures found ==> Stopped(View().cells, View().acked, head, i) && passack == (i >= View().acked)
      ensures !found ==> i == View().acked + maxPos + 1 && Scanned(View().cells, View().acked, head, i) && passack
    {
      head, i := -1, 0;
      p, q, passack, found := -1, startPos, startPos == lastAckPos, false;
      var n := maxPos + RcvDataSize();
      var k := 0;
      while k <= n
        invariant k == i <= n + 1 && !found && Walking(head, i, p, q, passack)
      {
        found, p, q, passack, head := WalkOne(p, q, passack, head, i);
        if found {
          return;
        }
        k, i := k + 1, i + 1;
      }
    }

    /** The search for a message, once bad cells at the front are skipped. It also reports one when a
        message fills the whole ring; then p is the position after q. */
    method Search(ghost w: Window) returns (found: bool, p: int, q: nat, passack: bool, ghost f: Found)
      requires Rep() && Valid(w) && Framed(w.cells) && View() == Skip(w) && !Quiet(w)
      ensures Finds(w, f)
      ensures f.Message? ==>
        found && p == SlotOf(f.p) && q == SlotOf(f.q) && passack == (f.q >= View().acked)
      ensures f.Nothing? && found ==> passack && q < |ring| && p == Wrap(q + 1, |ring|)
      ensures f.Nothing? ==> (found <==> Full(View()))
    {
      SkipReady(w);
      ghost var head, i;
      found, p, q, passack, head, i := Walk();
      if found {
        FindsStopped(w, head, i);
        f := Message(head, i);
      } else {
        f := Nothing;
        found := FoundNothing(p, q, head, i, w);
      }
    }

    /** The end of a search that went up to the furthest packet. */
    method FoundNothing(p: int, q: nat, ghost head: int, ghost m: nat, ghost w: Window) returns (full: bool)
      requires Rep() && q < |ring| && Valid(w) && Framed(w.cells) && View() == Skip(w)
      requires p == SlotOf(head) && q == SlotOf(m) && m == Skip(w).acked + Skip(w).maxPos + 1
      requires Scanned(Skip(w).cells, Skip(w).acked, head, m)
      ensures Finds(w, Nothing) && (full <==> Full(View())) && (full ==> p == Wrap(q + 1, |ring|))
    {
      FindsNothing(w, head);
      ReadyFull(w, head);
      SlotsMeet(head, m);
      full := FullRing(p, q);
    }

    /** The search came back to where its message starts. */
    method FullRing(p: int, q: nat) returns (full: bool)
      requires Rep() && q < |ring|
      ensures full <==> p == Wrap(q + 1, |ring|)
    {
      var next := Modulo(q + 1, units.Length);
      full := p != -1 && next == p;
    }

    /** Cell m + 1, counted around the ring, is the cell `head`. */
    lemma SlotsMeet(head: int, m: nat)
      requires Rep() && -1 <= head < m <= |ring| && (m == |ring| ==> head == -1)
      ensures SlotOf(head) == Wrap(SlotOf(m) + 1, |ring|) <==> head >= 0 && head == m + 1 - |ring|
    {
    }

    method ScanMsg() returns (found: bool, p: int, q: nat, passack: bool, ghost f: Found)
      requires Rep() && Valid(View()) && Framed(View().cells) && notch == 0
      modifies this, units, pool, queue
      ensures Rep() && pool == old(pool) && notch == 0
      ensures Finds(old(View()), f) && View() == Skip(old(View()))
      ensures f.Message? ==>
        found && p == SlotOf(f.p) && q == SlotOf(f.q) && passack == (f.q >= View().acked)
      ensures f.Nothing? && found ==> passack && q < |ring| && p == Wrap(q + 1, |ring|)
      ensures f.Nothing? ==> (found <==> !Quiet(old(View())) && Full(View()))
      ensures Occupied(View().cells) - Occupied(old(View()).cells) == queue.count - old(queue.count)
    {
      ghost var w := View();
      if startPos == lastAckPos && 0 == maxPos {
        p, q, passack, found, f := -1, 0, false, false, Nothing;
        SkipNone(w);
        return;
      }
      SkipBad();
      found, p, q, passack, f := Search(w);
    }

    /** Copies at most rs bytes of the unit in a slot and hands the unit out: it stays, marked as
        read, or goes back to its queue. */
    method HandOut(pos: nat, keep: bool, rs: nat, ghost c: seq<Cell>, ghost a: nat, ghost b: nat)
      returns (chunk: seq<bv8>)
      requires Rep() && a <= b < |c| == |ring| && pos == SlotOf(b)
      requires (forall k :: a <= k <= b ==> c[k].Held?) && View().cells == Processed(c, a, b, keep)
      modifies units, pool, queue, `ring
      ensures Rep() && View() == old(View()).(cells := Processed(c, a, b + 1, keep))
      ensures chunk == Clip(c[b].pkt.data, rs)
      ensures Occupied(View().cells) - Occupied(old(View()).cells) == queue.count - old(queue.count)
    {
      ProcessedMore(c, a, b, keep);
      TurnAt(ring, startPos, b, Held(c[b].pkt, 2));
      TurnAt(ring, startPos, b, Free);
      OccupiedUpdate(View().cells, b, if keep then Held(c[b].pkt, 2) else Free);
      assert SlotOk(units[pos], ring[pos]);
      var unitsize := |units[pos].pkt.data|;
      if unitsize > rs {
        unitsize := rs;
      }
      chunk := units[pos].pkt.data[..unitsize];
      if !keep {
        Release(pos);
      } else {
        Mark(pos);
      }
    }

    /** Between two rounds of the copy loop: cells a to j - 1 of the window w are copied and handed out. */
    ghost predicate Copying(w: Window, a: nat, j: nat, b: nat, p: nat, keep: bool, len: nat, out: seq<bv8>, lent: int)
      reads this, units, pool, queue
    {
      && Rep() && a <= j <= b < |ring| == |w.cells| && p == SlotOf(j)
      && (forall k :: a <= k < b ==> w.cells[k].Held?)
      && View() == w.(cells := Processed(w.cells, a, j, keep))
      && Copied(w.cells, a, j, len, out)
      && Occupied(View().cells) - Occupied(w.cells) == queue.count - lent
    }

    /** One round of the copy loop. */
    method CopyOne(slot: nat, keep: bool, len: nat, done: seq<bv8>, ghost w: Window, ghost a: nat, ghost j: nat,
                   ghost b: nat, ghost lent: int)
      returns (p: nat, out: seq<bv8>)
      requires Copying(w, a, j, b, slot, keep, len, done, lent) && j < b
      modifies units, pool, queue, `ring
      ensures Copying(w, a, j + 1, b, p, keep, len, out, lent)
    {
      CopiedMore(w.cells, a, j, len, done);
      var chunk := HandOut(slot, keep, len - |done|, w.cells, a, j);
      out := done + chunk;
      p := slot + 1;
      if p == units.Length {
        p := 0;
      }
    }

    lemma CopyStart(w: Window, a: nat, b: nat, p: nat, keep: bool, len: nat)
      requires Rep() && a <= b < |ring| && p == SlotOf(a) && w == View()
      requires forall k :: a <= k < b ==> w.cells[k].Held?
      ensures Copying(w, a, a, b, p, keep, len, [], queue.count)
    {
      assert Processed(w.cells, a, a, keep) == w.cells;
    }

    /** Copies the packets from slot start up to slot end, exclusive. */
    method CopyOut(start: nat, end: nat, passack: bool, len: nat, ghost a: nat, ghost b: nat) returns (out: seq<bv8>)
      requires Rep() && a <= b < |ring| && start == SlotOf(a) && end == SlotOf(b)
      requires forall k :: a <= k < b ==> View().cells[k].Held?
      modifies units, pool, queue, `ring
      ensures Rep() && View() == old(View()).(cells := Processed(old(View()).cells, a, b, passack))
      ensures Copied(old(View()).cells, a, b, len, out)
      ensures Occupied(View().cells) - Occupied(old(View()).cells) == queue.count - old(queue.count)
    {
      CopyStart(View(), a, b, start, passack, len);
      out := CopyLoop(start, end, passack, len, View(), a, b, queue.count);
      CopyAt(old(View()), a, b, b, end, passack, len, out, old(queue.count));
    }

    method CopyLoop(start: nat, end: nat, passack: bool, len: nat, ghost w: Window, ghost a: nat, ghost b: nat,
                    ghost lent: int)
      returns (out: seq<bv8>)
      requires Copying(w, a, a, b, start, passack, len, [], lent) && end == SlotOf(b)
      modifies units, pool, queue, `ring
      ensures Copying(w, a, b, b, end, passack, len, out, lent)
    {
      ghost var j := a;
      var p := start;
      out := [];
      while p != end
        invariant Copying(w, a, j, b, p, passack, len, out, lent)
        decreases b - j
      {
        p, out := CopyOne(p, passack, len, out, w, a, j, b, lent);
        j := j + 1;
      }
      CopyAt(w, a, j, b, p, passack, len, out, lent);
    }

    /** The loop ends exactly when all cells are copied. */
    lemma CopyAt(w: Window, a: nat, j: nat, b: nat, p: nat, keep: bool, len: nat, out: seq<bv8>, lent: int)
      requires Copying(w, a, j, b, p, keep, len, out, lent)
      ensures j <= b && (j == b <==> p == SlotOf(b)) && Rep()
      ensures j == b ==> View() == w.(cells := Processed(w.cells, a, b, keep)) && Copied(w.cells, a, b, len, out)
      ensures j == b ==> Occupied(View().cells) - Occupied(w.cells) == queue.count - lent
    {
    }

    /** Moves the start over k cells at once. */
    method MoveStart(pos: nat, ghost k: nat)
      requires Rep() && k <= View().acked && pos == SlotOf(k)
      modifies `startPos, `base
      ensures Rep() && View() == Turned(old(View()), k)
      ensures Occupied(View().cells) == Occupied(old(View()).cells)
    {
      TurnMore(ring, startPos, k);
      OccupiedTurned(View().cells, k);
      startPos, base := pos, base + k;
    }

    /** The slot behind a message is not its first one. */
    lemma EndSlot(p: nat, q: nat)
      requires Rep() && p <= q && q + 1 < |ring|
      ensures SlotOf(q + 1) == Wrap(SlotOf(q) + 1, |ring|) && SlotOf(p) != SlotOf(q + 1)
    {
    }

    /** The copying half of readMsg, for the message that the scan reported in slots p to q. When
        that message fills the ring, p is the slot after q and nothing is copied. */
    method Deliver(p: nat, q: nat, passack: bool, len: nat, ghost f: Found) returns (out: seq<bv8>)
      requires Rep() && q < |ring|
      requires f.Nothing? ==> passack && p == Wrap(q + 1, |ring|)
      requires f.Message? ==>
        && f.p <= f.q && f.q + 1 < |ring| && p == SlotOf(f.p) && q == SlotOf(f.q)
        && passack == (f.q >= View().acked)
        && (forall k :: f.p <= k <= f.q ==> View().cells[k].Held?)
      modifies this, units, pool, queue
      ensures Rep() && notch == old(notch)
      ensures f.Nothing? ==> View() == old(View()) && out == []
      ensures f.Message? ==>
        && Copied(old(View()).cells, f.p, f.q + 1, len, out)
        && var w := old(View()).(cells := Processed(old(View()).cells, f.p, f.q + 1, passack));
           View() == if passack then w else Turned(w, f.q + 1)
      ensures Occupied(View().cells) - Occupied(old(View()).cells) == queue.count - old(queue.count)
    {
      var end := Modulo(q + 1, units.Length);
      if f.Message? {
        EndSlot(f.p, f.q);
      }
      if p == end {
        return [];
      }
      out := HandMessage(p, end, passack, len, f.p, f.q + 1);
    }

    /** Copies the packets; those that were acked leave the buffer. */
    method HandMessage(start: nat, end: nat, passack: bool, len: nat, ghost a: nat, ghost b: nat)
      returns (out: seq<bv8>)
      requires Rep() && a < b < |ring| && start == SlotOf(a) && end == SlotOf(b) && (!passack ==> b <= View().acked)
      requires forall k :: a <= k < b ==> View().cells[k].Held?
      modifies units, pool, queue, `ring, `startPos, `base
      ensures Rep() && Copied(old(View()).cells, a, b, len, out)
      ensures var w := old(View()).(cells := Processed(old(View()).cells, a, b, passack));
        View() == if passack then w else Turned(w, b)
      ensures Occupied(View().cells) - Occupied(old(View()).cells) == queue.count - old(queue.count)
    {
      if passack {
        out := CopyOut(start, end, true, len, a, b);
      } else {
        out := CopyAndMove(start, end, len, a, b);
      }
    }

    /** Copies the packets, frees their slots, and moves the start behind them. */
    method CopyAndMove(start: nat, end: nat, len: nat, ghost a: nat, ghost b: nat) returns (out: seq<bv8>)
      requires Rep() && a <= b < |ring| && start == SlotOf(a) && end == SlotOf(b) && b <= View().acked
      requires forall k :: a <= k < b ==> View().cells[k].Held?
      modifies units, pool, queue, `ring, `startPos, `base
      ensures Rep() && Copied(old(View()).cells, a, b, len, out)
      ensures View() == Turned(old(View()).(cells := Processed(old(View()).cells, a, b, false)), b)
      ensures Occupied(View().cells) - Occupied(old(View()).cells) == queue.count - old(queue.count)
    {
      out := CopyOut(start, end, false, len, a, b);
      MoveStart(end, b);
    }

    /** readMsg: the caller gets the message, or nothing. */
    method ReadMsg(len: nat) returns (out: seq<bv8>, ghost f: Found)
      requires Rep() && Valid(View()) && Framed(View().cells) && notch == 0
      modifies this, units, pool, queue
      ensures Rep() && notch == 0
      ensures ReceiveSpec.ReadMsg(old(View()), len, f, out, View())
      ensures Occupied(View().cells) - Occupied(old(View()).cells) == queue.count - old(queue.count)
    {
      ghost var w := View();
      var found, p, q, passack;
      found, p, q, passack, f := ScanMsg();
      out := [];
      if !found {
        return;
      }
      if f.Message? {
        FoundShape(w, f);
      }
      out := Deliver(p, q, passack, len, f);
      if f.Message? {
        ReadMsgDone(w, f, len, out);
      }
    }
  }
}
