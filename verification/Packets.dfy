/** Packets as the UDT buffers see them, and the framing of messages in a packet stream. */
module Packets {

  /** `first` and `last` are the two boundary bits of the message number field:
      11 is a message of one packet, 10 its first, 00 a middle and 01 its last packet. */
  datatype Packet = Packet(data: seq<bv8>, first: bool, last: bool, ordered: bool)

  /** A packet stream whose messages follow each other without a gap and whose packets
      carry one order flag per message. */
  ghost predicate WellFramed(sent: seq<Packet>) {
    && (|sent| > 0 ==> sent[0].first)
    && (forall i :: 0 < i < |sent| ==> (sent[i].first <==> sent[i - 1].last))
    && (forall i :: 0 < i < |sent| && !sent[i].first ==> sent[i].ordered == sent[i - 1].ordered)
  }

  /** Packets p to q of the stream are one whole message. */
  ghost predicate IsMessage(sent: seq<Packet>, p: nat, q: nat) {
    && p <= q < |sent|
    && sent[p].first
    && sent[q].last
    && (forall k :: p < k <= q ==> !sent[k].first)
    && (forall k :: p <= k < q ==> !sent[k].last)
  }

  /** The bytes carried by a run of packets. */
  function Payload(ps: seq<Packet>): seq<bv8> {
    if ps == [] then [] else ps[0].data + Payload(ps[1..])
  }

  lemma {:induction false} PayloadConcat(a: seq<Packet>, b: seq<Packet>)
    ensures Payload(a + b) == Payload(a) + Payload(b)
  {
    if a == [] {
      assert a + b == b;
    } else {
      assert (a + b)[1..] == a[1..] + b;
      PayloadConcat(a[1..], b);
    }
  }

  lemma PayloadSnoc(a: seq<Packet>, p: Packet)
    ensures Payload(a + [p]) == Payload(a) + p.data
  {
    PayloadConcat(a, [p]);
    assert Payload([p]) == p.data + Payload([]);
  }

  /** The longest prefix of s that fits in len bytes. */
  function Clip(s: seq<bv8>, len: nat): seq<bv8> {
    if |s| <= len then s else s[..len]
  }

  lemma ClipIs(s: seq<bv8>, len: nat)
    ensures var r := Clip(s, len); r <= s && |r| <= len && (|r| < len ==> r == s)
  {
  }

  /** Two messages of a stream that share a packet are the same message. */
  lemma MessagesDoNotOverlap(sent: seq<Packet>, p: nat, q: nat, p': nat, q': nat)
    requires IsMessage(sent, p, q) && IsMessage(sent, p', q')
    requires p <= q' && p' <= q
    ensures p == p' && q == q'
  {
  }
}
