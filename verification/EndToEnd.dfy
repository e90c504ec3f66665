/** From sendmsg to recvmsg: the packets that one side's sending buffer makes, received by the
    other side's buffer over a network that loses, repeats and reorders them. */
module EndToEnd {
  import opened Packets
  import opened SendSpec
  import S = ReceiveSpec
  import R = ReceiveRuns

  /** Which user message each delivery is. */
  ghost predicate Names(msgs: seq<Send>, log: seq<R.Delivery>, ks: seq<nat>) {
    && |ks| == |log|
    && (forall i :: 0 <= i < |ks| ==> ks[i] < |msgs| && log[i].out == Clip(msgs[ks[i]].data, log[i].len))
    && (forall i, j :: 0 <= i < j < |ks| ==> ks[i] != ks[j])
    && (forall i, j :: 0 <= i < j < |ks| && msgs[ks[i]].order && msgs[ks[j]].order ==> ks[i] < ks[j])
  }

  /** What a reader gets is a user message, cut only to its room; no message comes twice, and
      those sent in order come in order. */
  lemma MessagesArrive(msgs: seq<Send>, mss: nat, n: nat, ws: seq<S.Window>, evs: seq<R.Event>)
    requires mss > 0 && Fits(1, |msgs|)
    requires R.IsRun(DecodeAll(StreamOf(msgs, mss, 1)), n, ws, evs)
    ensures forall i :: 0 <= i < |evs| ==> ws[i].acked <= |ws[i].cells|
    ensures exists ks :: Names(msgs, R.Log(ws, evs), ks)
  {
    var sent := DecodeAll(StreamOf(msgs, mss, 1));
    StreamFramed(msgs, mss, 1);
    R.RunSafe(sent, n, ws, evs);
    var ks := NameAll(msgs, mss, sent, ws[|evs|], R.Log(ws, evs));
  }

  lemma NameAll(msgs: seq<Send>, mss: nat, sent: seq<Packet>, w: S.Window, log: seq<R.Delivery>) returns (ks: seq<nat>)
    requires mss > 0 && Fits(1, |msgs|) && sent == DecodeAll(StreamOf(msgs, mss, 1))
    requires R.Safe(sent, w, log)
    ensures Names(msgs, log, ks)
  {
    ks := [];
    for i := 0 to |log|
      invariant |ks| == i
      invariant forall j :: 0 <= j < i ==> IsName(msgs, mss, sent, log[j], ks[j])
    {
      assert R.Good(sent, log[i]);
      var k := MessageIsSend(msgs, mss, 1, sent, log[i].first, log[i].last);
      ks := ks + [k];
    }
    forall i, j | 0 <= i < j < |log|
      ensures ks[i] != ks[j] && (msgs[ks[i]].order && msgs[ks[j]].order ==> ks[i] < ks[j])
    {
      assert R.Apart(sent, log[i], log[j]);
      NamesApart(msgs, mss, sent, log[i], log[j], ks[i], ks[j]);
    }
  }

  lemma NamesApart(msgs: seq<Send>, mss: nat, sent: seq<Packet>, a: R.Delivery, b: R.Delivery, i: nat, j: nat)
    requires IsName(msgs, mss, sent, a, i) && IsName(msgs, mss, sent, b, j) && R.Apart(sent, a, b)
    ensures i != j && (msgs[i].order && msgs[j].order ==> i < j)
  {
    if j <= i {
      StartMonotone(msgs, mss, j, i);
    }
  }

  ghost predicate IsName(msgs: seq<Send>, mss: nat, sent: seq<Packet>, d: R.Delivery, k: nat) {
    && mss > 0 && k < |msgs| && d.first <= d.last < |sent|
    && d.first == Start(msgs, mss, k)
    && d.out == Clip(msgs[k].data, d.len)
    && sent[d.last].ordered == msgs[k].order
  }
}
