/** GMP goes on trying: what is sent again, what is acknowledged, and that one round of it is enough. */
module GmpRetry {
  import opened PeerHistory
  import opened GmpSpec
  import opened GmpRuns

  // ----- What is sent again

  /** A copy of message r of process n: over UDP, or over a UDT connection when it waits for more than ten seconds. */
  function CopyNow(st: State, n: nat, r: Rec): Packet
    requires n < |st.nodes|
  {
    Data(n, r.dst, st.nodes[n].session, r.id, r.info, r.data, st.now - r.time > 10000000)
  }

  /** Message i in the send queue waits for more than a second. */
  ghost predicate Waits(st: State, n: nat, i: nat)
    requires n < |st.nodes|
  {
    i < |st.nodes[n].queue| && st.now - st.nodes[n].queue[i].time > 1000000
  }

  /** A look through the send queue puts a copy of each message that waits for more than a second on the
      network, and nothing else. */
  lemma SentAgain(hash: Key -> int, st: State, n: nat)
    requires Legal(st, Handle(n))
    ensures forall p :: p in Apply(hash, st, Handle(n)).net <==>
      p in st.net || exists i: nat :: Waits(st, n, i) && p == CopyNow(st, n, st.nodes[n].queue[i])
  {
    var q, net := st.nodes[n].queue, Apply(hash, st, Handle(n)).net;
    forall i: nat | Waits(st, n, i) ensures CopyNow(st, n, q[i]) in net {
      assert q[i] in q;
    }
  }

  /** Every copy that arrives over UDP is acknowledged, also when its message came before; no other event sends an
      acknowledgement. */
  lemma Acknowledged(hash: Key -> int, st: State, e: Event, a: Packet)
    requires Legal(st, e) && a.Ack?
    ensures a in Apply(hash, st, e).net <==>
      a in st.net || (e.Arrive? && e.p.Data? && !e.p.udt && a == Ack(e.p.dst, e.p.src, e.p.id))
  {
  }

  /** The network may deliver a packet again at any time. */
  lemma {:induction false} PacketsStay(hash: Key -> int, st: State, evs: seq<Event>)
    requires Legals(hash, st, evs)
    ensures st.net <= After(hash, st, evs).net
    decreases |evs|
  {
    if evs != [] {
      PacketsStay(hash, Apply(hash, st, evs[0]), evs[1..]);
    }
  }

  // ----- What becomes of a message in the send queue

  lemma {:induction false} StaysOrExpires(q: seq<Rec>, now: int, r: Rec)
    requires r in q
    ensures if now - r.time > TIMEOUT then r in Expired(q, now) else r in Staying(q, now)
  {
    if q[0] != r {
      assert r in q[1..];
      StaysOrExpires(q[1..], now, r);
    }
  }

  /** It is still there, or was acknowledged, or has left more than ten seconds after it came. */
  ghost predicate Fate(st: State, n: nat, r: Rec) {
    n < |st.nodes| &&
    (r in st.nodes[n].queue || (r.id, true) in st.nodes[n].gone
     || ((r.id, false) in st.nodes[n].gone && st.now - r.time > 10000000))
  }

  lemma HandleFate(hash: Key -> int, st: State, n: nat, r: Rec)
    requires Legal(st, Handle(n)) && r in st.nodes[n].queue
    ensures Fate(Apply(hash, st, Handle(n)), n, r)
  {
    var m, m' := st.nodes[n], Apply(hash, st, Handle(n)).nodes[n];
    StaysOrExpires(m.queue, st.now, r);
    if st.now - r.time > TIMEOUT {
      var out := Expired(m.queue, st.now);
      var i :| 0 <= i < |out| && out[i] == r;
      assert m'.gone[|m.gone| + i] == (r.id, false);
    }
  }

  lemma AckFate(hash: Key -> int, st: State, a: Packet, r: Rec)
    requires Legal(st, Arrive(a)) && a.Ack? && r in st.nodes[a.dst].queue
    ensures Fate(Apply(hash, st, Arrive(a)), a.dst, r)
  {
    var m, m' := st.nodes[a.dst], Apply(hash, st, Arrive(a)).nodes[a.dst];
    var i := IdAt(m.queue, a.id);
    if i < |m.queue| {
      assert m'.gone[|m.gone|] == (a.id, true);
      assert m.queue == m.queue[..i] + [m.queue[i]] + m.queue[i + 1..];
    }
  }

  lemma GoneStays(hash: Key -> int, st: State, e: Event, n: nat)
    requires Legal(st, e) && n < |st.nodes|
    ensures n < |Apply(hash, st, e).nodes| && st.nodes[n].gone <= Apply(hash, st, e).nodes[n].gone
  {
  }

  lemma EventFate(hash: Key -> int, st: State, e: Event, n: nat, r: Rec)
    requires Legal(st, e) && Fate(st, n, r)
    ensures Fate(Apply(hash, st, e), n, r)
  {
    GoneStays(hash, st, e, n);
    if r in st.nodes[n].queue {
      if e.Handle? && e.n == n {
        HandleFate(hash, st, n, r);
      } else if e.Arrive? && e.p.Ack? && e.p.dst == n {
        AckFate(hash, st, e.p, r);
      }
    }
  }

  lemma {:induction false} RunFate(hash: Key -> int, st: State, evs: seq<Event>, n: nat, r: Rec)
    requires Legals(hash, st, evs) && Fate(st, n, r)
    ensures Fate(After(hash, st, evs), n, r)
    decreases |evs|
  {
    if evs != [] {
      EventFate(hash, st, evs[0], n, r);
      RunFate(hash, Apply(hash, st, evs[0]), evs[1..], n, r);
    }
  }

  /** In any run that goes on from when a message enters the send queue, it stays there, or is acknowledged, or
      more than ten seconds pass. */
  lemma NotGivenUpEarly(hash: Key -> int, st: State, n: nat, k: nat, evs: seq<Event>)
    requires Legal(st, Push(n, k)) && Legals(hash, Apply(hash, st, Push(n, k)), evs)
    ensures Fate(After(hash, Apply(hash, st, Push(n, k)), evs), n, st.nodes[n].posting[k].(time := st.now))
  {
    var s1 := Apply(hash, st, Push(n, k));
    assert s1.nodes[n].queue[|st.nodes[n].queue|] == st.nodes[n].posting[k].(time := st.now);
    RunFate(hash, s1, evs, n, st.nodes[n].posting[k].(time := st.now));
  }

  // ----- One round is enough

  /** An acknowledgement takes its message out of the send queue. */
  lemma AckTakesOut(hash: Key -> int, st: State, n: nat, r: Rec, a: Packet)
    requires Inv(st) && Legal(st, Arrive(a)) && n < |st.nodes| && r in st.nodes[n].queue && a == Ack(r.dst, n, r.id)
    ensures var m := Apply(hash, st, Arrive(a)).nodes[n]; (r.id, true) in m.gone && r.id !in Ids(m.queue)
  {
    var st' := Apply(hash, st, Arrive(a));
    var m, m' := st.nodes[n], st'.nodes[n];
    assert IdAt(m.queue, r.id) < |m.queue|;
    assert m'.gone[|m.gone|] == (r.id, true);
    EventInv(hash, st, Arrive(a));
    NumberOnce(st', n, r.id, |m.gone|);
  }

  lemma NumberOnce(st: State, n: nat, id: int, i: nat)
    requires Inv(st) && n < |st.nodes| && i < |st.nodes[n].gone| && st.nodes[n].gone[i].0 == id
    ensures id !in Ids(st.nodes[n].queue)
  {
    var m := st.nodes[n];
    assert GoodNode(st, n) && Justified(st, n, m.gone[i]);
    NodeAccounted(st, n, id);
    assert GoneIds(m.gone)[i] == id;
  }

  /** From any state of any run: when a message waits for more than a second, and not yet for ten, a look through
      the queue, the arrival of the copy and the arrival of its acknowledgement can follow, and then the message is
      queued at its destination and has left the send queue as acknowledged. */
  lemma Retry(hash: Key -> int, st: State, n: nat, r: Rec)
    requires Inv(st) && n < |st.nodes| && r in st.nodes[n].queue && 1000000 < st.now - r.time <= 10000000
    ensures var evs := [Handle(n), Arrive(CopyNow(st, n, r)), Arrive(Ack(r.dst, n, r.id))];
      && Legals(hash, st, evs)
      && var st' := After(hash, st, evs);
         && |st'.nodes| == |st.nodes| && r.dst < |st.nodes|
         && Queued(st'.nodes[r.dst], MsgKey(st.nodes[n], r.id))
         && (r.id, true) in st'.nodes[n].gone
         && r.id !in Ids(st'.nodes[n].queue)
  {
    var c, a := CopyNow(st, n, r), Ack(r.dst, n, r.id);
    var s1 := CopyOut(hash, st, n, r);
    var s2 := CopyIn(hash, s1, n, r, c);
    AckTakesOut(hash, s2, n, r, a);
    var s3 := Apply(hash, s2, Arrive(a));
    EventGrows(hash, s2, Arrive(a));
    QueuedStays(s2.nodes[r.dst], s3.nodes[r.dst], MsgKey(st.nodes[n], r.id));
    ThreeEvents(hash, st, Handle(n), s1, Arrive(c), s2, Arrive(a), s3);
  }

  lemma CopyOut(hash: Key -> int, st: State, n: nat, r: Rec) returns (s1: State)
    requires Inv(st) && n < |st.nodes| && r in st.nodes[n].queue && 1000000 < st.now - r.time <= 10000000
    ensures s1 == Apply(hash, st, Handle(n)) && Inv(s1) && Grows(st, s1)
    ensures CopyNow(st, n, r) in s1.net && r in s1.nodes[n].queue
  {
    s1 := Apply(hash, st, Handle(n));
    EventInv(hash, st, Handle(n));
    EventGrows(hash, st, Handle(n));
    SentAgain(hash, st, n);
    StaysOrExpires(st.nodes[n].queue, st.now, r);
  }

  lemma CopyIn(hash: Key -> int, s1: State, n: nat, r: Rec, c: Packet) returns (s2: State)
    requires Inv(s1) && n < |s1.nodes| && r in s1.nodes[n].queue && c in s1.net
    requires c.Data? && c.src == n && c.dst == r.dst && c.id == r.id && !c.udt
    ensures Legal(s1, Arrive(c)) && s2 == Apply(hash, s1, Arrive(c)) && Inv(s2) && Grows(s1, s2)
    ensures Ack(r.dst, n, r.id) in s2.net && r in s2.nodes[n].queue
    ensures r.dst < |s2.nodes| && Queued(s2.nodes[r.dst], MsgKey(s1.nodes[n], r.id))
  {
    assert GoodPacket(s1, c);
    s2 := Apply(hash, s1, Arrive(c));
    EventInv(hash, s1, Arrive(c));
    EventGrows(hash, s1, Arrive(c));
    DataNode(hash, s1, Arrive(c));
    Acknowledged(hash, s1, Arrive(c), Ack(r.dst, n, r.id));
  }

  lemma ThreeEvents(hash: Key -> int, s0: State, e1: Event, s1: State, e2: Event, s2: State, e3: Event, s3: State)
    requires Legal(s0, e1) && s1 == Apply(hash, s0, e1)
    requires Legal(s1, e2) && s2 == Apply(hash, s1, e2)
    requires Legal(s2, e3) && s3 == Apply(hash, s2, e3)
    ensures Legals(hash, s0, [e1, e2, e3]) && After(hash, s0, [e1, e2, e3]) == s3
  {
    var evs := [e1, e2, e3];
    assert evs[1..] == [e2, e3] && [e2, e3][1..] == [e3] && [e3][1..] == [];
    assert Legals(hash, s3, []) && After(hash, s3, []) == s3;
    assert Legals(hash, s2, [e3]) && After(hash, s2, [e3]) == s3;
    assert Legals(hash, s1, [e2, e3]) && After(hash, s1, [e2, e3]) == s3;
  }
}
