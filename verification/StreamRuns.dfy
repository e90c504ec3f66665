/** The receiving buffer as a byte stream: whatever the order and repetition of the packets,
    the readers get the payload of the stream, byte for byte and in order. */
module StreamRuns {
  import opened Packets
  import opened ReceiveSpec

  datatype StreamEvent = Arrive(off: nat) | Acked(n: nat) | Take(len: nat, out: seq<bv8>)

  ghost predicate Step(sent: seq<Packet>, w: Window, e: StreamEvent, w': Window) {
    match e
    case Arrive(off) =>
      off < Available(w) && w.base + w.acked + off < |sent| && w' == Add(w, off, sent[w.base + w.acked + off])
    case Acked(n) =>
      n <= Available(w) && (forall k :: w.acked <= k < w.acked + n ==> w.cells[k].Held?) && w' == Ack(w, n)
    case Take(len, out) => ReadBytes(w, len, out, w')
  }

  ghost predicate IsRun(sent: seq<Packet>, n: nat, ws: seq<Window>, evs: seq<StreamEvent>) {
    && n > 0
    && |ws| == |evs| + 1
    && Empty(ws[0], n)
    && forall i :: 0 <= i < |evs| ==> Step(sent, ws[i], evs[i], ws[i + 1])
  }

  /** All bytes the readers got. */
  function Taken(evs: seq<StreamEvent>): seq<bv8> {
    if evs == [] then []
    else
      var e := evs[|evs| - 1];
      Taken(evs[..|evs| - 1]) + if e.Take? then e.out else []
  }

  /** The buffer holds packets of the stream at their places, without gaps up to the ack point. */
  ghost predicate InPlace(sent: seq<Packet>, w: Window) {
    && Valid(w) && Filled(w)
    && w.base + w.acked <= |sent|
    && forall k :: 0 <= k < |w.cells| && w.cells[k].Held? ==>
         w.base + k < |sent| && w.cells[k].pkt == sent[w.base + k]
  }

  lemma {:induction false} BytesFromConcat(a: seq<Cell>, b: seq<Cell>, notch: nat)
    requires forall k :: 0 <= k < |a| ==> a[k].Held?
    requires forall k :: 0 <= k < |b| ==> b[k].Held?
    requires notch == 0 || (|a| > 0 && notch < |a[0].pkt.data|)
    ensures BytesFrom(a + b, notch) == BytesFrom(a, notch) + BytesFrom(b, 0)
  {
    if a == [] {
      assert a + b == b;
    } else {
      assert (a + b)[1..] == a[1..] + b;
      BytesFromConcat(a[1..], b, 0);
    }
  }

  lemma {:induction false} BytesArePayload(c: seq<Cell>, ps: seq<Packet>)
    requires |c| == |ps| && forall k :: 0 <= k < |c| ==> c[k].Held? && c[k].pkt == ps[k]
    ensures BytesFrom(c, 0) == Payload(ps)
  {
    if c != [] {
      BytesArePayload(c[1..], ps[1..]);
    }
  }

  lemma ArriveInPlace(sent: seq<Packet>, w: Window, off: nat)
    requires InPlace(sent, w) && NotchOk(w) && off < Available(w) && w.base + w.acked + off < |sent|
    ensures var w' := Add(w, off, sent[w.base + w.acked + off]);
      InPlace(sent, w') && NotchOk(w') && Bytes(w') == Bytes(w)
  {
    var w' := Add(w, off, sent[w.base + w.acked + off]);
    AddValid(w, off, sent[w.base + w.acked + off]);
    assert w'.cells[..w.acked] == w.cells[..w.acked];
  }

  lemma AckedInPlace(sent: seq<Packet>, w: Window, n: nat)
    requires InPlace(sent, w) && NotchOk(w) && n <= Available(w)
    requires forall k :: w.acked <= k < w.acked + n ==> w.cells[k].Held?
    ensures InPlace(sent, Ack(w, n)) && NotchOk(Ack(w, n))
  {
    AckValid(w, n);
    if n > 0 { assert w.cells[w.acked + n - 1].Held?; }
  }

  lemma MoreBytes(c: seq<Cell>, m: nat, n: nat, notch: nat, ps: seq<Packet>)
    requires m + n <= |c| && |ps| == n && forall k :: 0 <= k < m + n ==> c[k].Held?
    requires notch == 0 || (m > 0 && notch < |c[0].pkt.data|)
    requires forall k :: 0 <= k < n ==> c[m + k].pkt == ps[k]
    ensures BytesFrom(c[..m + n], notch) == BytesFrom(c[..m], notch) + Payload(ps)
  {
    assert c[..m + n] == c[..m] + c[m..m + n];
    BytesFromConcat(c[..m], c[m..m + n], notch);
    BytesArePayload(c[m..m + n], ps);
  }

  lemma AckedBytes(sent: seq<Packet>, w: Window, n: nat)
    requires InPlace(sent, w) && NotchOk(w) && InPlace(sent, Ack(w, n)) && NotchOk(Ack(w, n))
    ensures Bytes(Ack(w, n)) == Bytes(w) + Payload(sent[w.base + w.acked..w.base + w.acked + n])
  {
    MoreBytes(w.cells, w.acked, n, w.notch, sent[w.base + w.acked..w.base + w.acked + n]);
  }

  lemma AckedPayload(sent: seq<Packet>, m: nat, n: nat, taken: seq<bv8>, left: seq<bv8>)
    requires m + n <= |sent| && taken + left == Payload(sent[..m])
    ensures taken + (left + Payload(sent[m..m + n])) == Payload(sent[..m + n])
  {
    assert sent[..m + n] == sent[..m] + sent[m..m + n];
    PayloadConcat(sent[..m], sent[m..m + n]);
    assert taken + (left + Payload(sent[m..m + n])) == (taken + left) + Payload(sent[m..m + n]);
  }

  lemma DropInPlace(sent: seq<Packet>, w: Window, k: nat, j: nat)
    requires InPlace(sent, w) && k <= w.acked
    requires j < |w.cells| && Drop(w, k).cells[j].Held?
    ensures w.base + k + j < |sent| && Drop(w, k).cells[j].pkt == sent[w.base + k + j]
  {
    assert j < |w.cells| - k && Drop(w, k).cells[j] == w.cells[k + j];
  }

  lemma TakeDrops(w: Window, len: nat, out: seq<bv8>, w': Window) returns (k: nat)
    requires ReadBytes(w, len, out, w')
    ensures k <= w.acked && w' == Drop(w, k).(notch := w'.notch)
  {
    k :| k <= w.acked && w' == Drop(w, k).(notch := w'.notch);
  }

  lemma AllInPlace(sent: seq<Packet>, w: Window, k: nat, w': Window)
    requires InPlace(sent, w) && k <= w.acked && w' == Drop(w, k).(notch := w'.notch) && Valid(w') && Filled(w')
    ensures InPlace(sent, w') && w'.base + w'.acked == w.base + w.acked
  {
    forall j: nat | j < |w'.cells| && w'.cells[j].Held?
      ensures w'.base + j < |sent| && w'.cells[j].pkt == sent[w'.base + j]
    {
      DropInPlace(sent, w, k, j);
    }
  }

  lemma TakeInPlace(sent: seq<Packet>, w: Window, len: nat, out: seq<bv8>, w': Window)
    requires InPlace(sent, w) && ReadBytes(w, len, out, w')
    ensures InPlace(sent, w') && w'.base + w'.acked == w.base + w.acked
  {
    ReadBytesValid(w, len, out, w');
    var k := TakeDrops(w, len, out, w');
    AllInPlace(sent, w, k, w');
  }

  /** Every step keeps the packets in place. */
  lemma StepInPlace(sent: seq<Packet>, w: Window, e: StreamEvent, w': Window)
    requires InPlace(sent, w) && NotchOk(w) && Step(sent, w, e, w')
    ensures InPlace(sent, w') && NotchOk(w')
  {
    match e
    case Arrive(off) => ArriveInPlace(sent, w, off);
    case Acked(n) => AckedInPlace(sent, w, n);
    case Take(len, out) => TakeInPlace(sent, w, len, out, w');
  }

  ghost function Accounts(w: Window, taken: seq<bv8>): seq<bv8>
    requires Filled(w) && NotchOk(w)
  {
    taken + Bytes(w)
  }

  lemma AckedAccounts(sent: seq<Packet>, w: Window, n: nat, taken: seq<bv8>)
    requires InPlace(sent, w) && NotchOk(w) && InPlace(sent, Ack(w, n)) && NotchOk(Ack(w, n))
    requires taken + Bytes(w) == Payload(sent[..w.base + w.acked])
    ensures taken + Bytes(Ack(w, n)) == Payload(sent[..w.base + w.acked + n])
  {
    AckedBytes(sent, w, n);
    AckedPayload(sent, w.base + w.acked, n, taken, Bytes(w));
  }

  lemma TakeAccounts(w: Window, len: nat, out: seq<bv8>, w': Window, taken: seq<bv8>)
    requires ReadBytes(w, len, out, w')
    ensures taken + out + Bytes(w') == taken + Bytes(w)
  {
    assert taken + out + Bytes(w') == taken + (out + Bytes(w'));
  }

  /** What a step gives out. */
  function Gives(e: StreamEvent): seq<bv8> { if e.Take? then e.out else [] }

  lemma StepAccounts(sent: seq<Packet>, w: Window, e: StreamEvent, w': Window, taken: seq<bv8>)
    requires InPlace(sent, w) && NotchOk(w) && Step(sent, w, e, w') && InPlace(sent, w') && NotchOk(w')
    requires Accounts(w, taken) == Payload(sent[..w.base + w.acked])
    ensures Accounts(w', taken + Gives(e)) == Payload(sent[..w'.base + w'.acked])
  {
    if e.Arrive? {
      ArriveStep(sent, w, e, w', taken);
    } else if e.Acked? {
      AckedStep(sent, w, e, w', taken);
    } else {
      TakeStep(sent, w, e, w', taken);
    }
  }

  lemma ArriveStep(sent: seq<Packet>, w: Window, e: StreamEvent, w': Window, taken: seq<bv8>)
    requires InPlace(sent, w) && NotchOk(w) && Step(sent, w, e, w') && InPlace(sent, w') && NotchOk(w')
    requires Accounts(w, taken) == Payload(sent[..w.base + w.acked]) && e.Arrive?
    ensures Accounts(w', taken + Gives(e)) == Payload(sent[..w'.base + w'.acked])
  {
    assert taken + [] == taken;
    ArriveBytes(w, e.off, sent[w.base + w.acked + e.off]);
  }

  lemma ArriveBytes(w: Window, off: nat, p: Packet)
    requires Filled(w) && NotchOk(w) && off < Available(w) && Filled(Add(w, off, p)) && NotchOk(Add(w, off, p))
    ensures Bytes(Add(w, off, p)) == Bytes(w) && Add(w, off, p).base == w.base && Add(w, off, p).acked == w.acked
  {
    assert Add(w, off, p).cells[..w.acked] == w.cells[..w.acked];
  }

  lemma AckedStep(sent: seq<Packet>, w: Window, e: StreamEvent, w': Window, taken: seq<bv8>)
    requires InPlace(sent, w) && NotchOk(w) && Step(sent, w, e, w') && InPlace(sent, w') && NotchOk(w')
    requires Accounts(w, taken) == Payload(sent[..w.base + w.acked]) && e.Acked?
    ensures Accounts(w', taken + Gives(e)) == Payload(sent[..w'.base + w'.acked])
  {
    assert taken + [] == taken;
    AckedAccounts(sent, w, e.n, taken);
  }

  lemma TakeStep(sent: seq<Packet>, w: Window, e: StreamEvent, w': Window, taken: seq<bv8>)
    requires InPlace(sent, w) && NotchOk(w) && Step(sent, w, e, w') && InPlace(sent, w') && NotchOk(w')
    requires Accounts(w, taken) == Payload(sent[..w.base + w.acked]) && e.Take?
    ensures Accounts(w', taken + Gives(e)) == Payload(sent[..w'.base + w'.acked])
  {
    TakeInPlace(sent, w, e.len, e.out, w');
    TakeAccounts(w, e.len, e.out, w', taken);
  }

  /** A run is a shorter run and one more step. */
  lemma LastStep(sent: seq<Packet>, n: nat, ws: seq<Window>, evs: seq<StreamEvent>)
    requires IsRun(sent, n, ws, evs) && evs != []
    ensures var m := |evs| - 1; IsRun(sent, n, ws[..m + 1], evs[..m]) && Step(sent, ws[m], evs[m], ws[m + 1])
  {
    var m := |evs| - 1;
    forall i | 0 <= i < m ensures Step(sent, ws[..m + 1][i], evs[..m][i], ws[..m + 1][i + 1]) {
      assert Step(sent, ws[i], evs[i], ws[i + 1]);
    }
  }

  /** In every run, the bytes taken and the bytes still in the buffer are together the payload
      of the acked packets, in sequence order. */
  lemma {:induction false} RunIsStream(sent: seq<Packet>, n: nat, ws: seq<Window>, evs: seq<StreamEvent>)
    requires IsRun(sent, n, ws, evs)
    ensures InPlace(sent, ws[|evs|]) && NotchOk(ws[|evs|])
    ensures Accounts(ws[|evs|], Taken(evs)) == Payload(sent[..ws[|evs|].base + ws[|evs|].acked])
    decreases |evs|
  {
    if evs == [] {
      assert ws[0].cells[..0] == [];
    } else {
      var m := |evs| - 1;
      LastStep(sent, n, ws, evs);
      RunIsStream(sent, n, ws[..m + 1], evs[..m]);
      StepInPlace(sent, ws[m], evs[m], ws[m + 1]);
      StepAccounts(sent, ws[m], evs[m], ws[m + 1], Taken(evs[..m]));
    }
  }
}
