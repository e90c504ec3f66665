/** Whole runs of GMP. */
module GmpRuns {
  import opened PeerHistory
  import opened GmpSpec

  // ----- Every message leaves the send queue once

  function GoneIds(g: seq<(int, bool)>): seq<int> { seq(|g|, i requires 0 <= i < |g| => g[i].0) }

  /** The numbers that a process has on the way, in its send queue, and out of it. */
  ghost function Book(m: Node): multiset<int> {
    multiset(Ids(m.posting)) + multiset(Ids(m.queue)) + multiset(GoneIds(m.gone))
  }

  /** The numbers from 1 to n, each once. */
  ghost function UpTo(n: nat): multiset<int> { if n == 0 then multiset{} else UpTo(n - 1) + multiset{n as int} }

  lemma {:induction false} UpToOnce(n: nat, x: int)
    ensures UpTo(n)[x] == if 1 <= x <= n then 1 else 0
  {
    if n > 0 {
      UpToOnce(n - 1, x);
    }
  }

  lemma IdsPlus(q: seq<Rec>, r: Rec)
    ensures multiset(Ids(q + [r])) == multiset(Ids(q)) + multiset{r.id}
  {
    assert Ids(q + [r]) == Ids(q) + [r.id];
  }

  lemma IdsWithout(q: seq<Rec>, i: nat)
    requires i < |q|
    ensures multiset(Ids(q)) == multiset(Ids(Without(q, i))) + multiset{q[i].id}
  {
    assert Ids(q) == Ids(q[..i]) + [q[i].id] + Ids(q[i + 1..]);
    assert Ids(Without(q, i)) == Ids(q[..i]) + Ids(q[i + 1..]);
  }

  lemma IdsHead(q: seq<Rec>, r: Rec)
    ensures multiset(Ids([r] + q)) == multiset{r.id} + multiset(Ids(q))
  {
    assert Ids([r] + q) == [r.id] + Ids(q);
  }

  lemma {:induction false} HandleIds(q: seq<Rec>, now: int)
    ensures multiset(Ids(q)) == multiset(Ids(Staying(q, now))) + multiset(Ids(Expired(q, now)))
  {
    if q != [] {
      HandleIds(q[1..], now);
      IdsHead(q[1..], q[0]);
      assert [q[0]] + q[1..] == q;
      if now - q[0].time > TIMEOUT {
        IdsHead(Expired(q[1..], now), q[0]);
      } else {
        IdsHead(Staying(q[1..], now), q[0]);
      }
    }
  }

  /** Each message sent so far is in exactly one of the three places, once. */
  ghost predicate Booked(m: Node) { Book(m) == UpTo(|m.sent|) }

  lemma PostBook(hash: Key -> int, st: State, e: Event)
    requires Legal(st, e) && e.Post? && Booked(st.nodes[e.n])
    ensures Booked(Apply(hash, st, e).nodes[e.n])
  {
    var m := st.nodes[e.n];
    IdsPlus(m.posting, Rec(e.dst, |m.sent| + 1, e.info, e.data, 0));
  }

  lemma PushBook(hash: Key -> int, st: State, e: Event)
    requires Legal(st, e) && e.Push? && Booked(st.nodes[e.n])
    ensures Booked(Apply(hash, st, e).nodes[e.n])
  {
    var m := st.nodes[e.n];
    IdsWithout(m.posting, e.k);
    IdsPlus(m.queue, m.posting[e.k].(time := st.now));
  }

  lemma HandleBook(hash: Key -> int, st: State, e: Event)
    requires Legal(st, e) && e.Handle? && Booked(st.nodes[e.n])
    ensures Booked(Apply(hash, st, e).nodes[e.n])
  {
    var m := st.nodes[e.n];
    var out := Expired(m.queue, st.now);
    HandleIds(m.queue, st.now);
    var g := seq(|out|, i requires 0 <= i < |out| => (out[i].id, false));
    assert GoneIds(m.gone + g) == GoneIds(m.gone) + Ids(out);
  }

  lemma AckedBook(m: Node, id: int, from: (string, int), now: int)
    requires Booked(m)
    ensures Booked(Acked(m, id, from, now))
  {
    var i := IdAt(m.queue, id);
    if i < |m.queue| {
      IdsWithout(m.queue, i);
      assert GoneIds(m.gone + [(id, true)]) == GoneIds(m.gone) + [id];
    }
  }

  lemma EventBook(hash: Key -> int, st: State, e: Event, n: nat)
    requires Legal(st, e) && n < |st.nodes| && Booked(st.nodes[n])
    ensures Booked(Apply(hash, st, e).nodes[n])
  {
    match e
    case Post(k, _, _, _) => if k == n { PostBook(hash, st, e); }
    case Push(k, _) => if k == n { PushBook(hash, st, e); }
    case Handle(k) => if k == n { HandleBook(hash, st, e); }
    case Arrive(p) =>
      if p.Ack? && p.dst == n {
        AckedBook(st.nodes[n], p.id, st.nodes[p.src].addr, st.now);
      }
    case Tick(_) =>
  }

  // ----- What the packets mean

  /** A message in the hands of its sender is what was sent under its number. */
  ghost predicate Genuine(m: Node, r: Rec) {
    1 <= r.id <= |m.sent| && m.sent[r.id - 1] == r.(time := 0)
  }

  ghost predicate AllGenuine(m: Node, q: seq<Rec>) { forall i :: 0 <= i < |q| ==> Genuine(m, q[i]) }

  function MsgKey(m: Node, id: int): Key { Key(m.addr.0, m.addr.1, m.session, id) }

  ghost predicate Queued(m: Node, key: Key) { exists i :: 0 <= i < |m.queued| && m.queued[i].key == key }

  ghost predicate GoodPacket(st: State, p: Packet) {
    && p.src < |st.nodes| && p.dst < |st.nodes|
    && match p
       case Data(src, dst, session, id, info, data, udt) =>
         session == st.nodes[src].session && Genuine(st.nodes[src], Rec(dst, id, info, data, 0))
       case Ack(src, dst, id) =>
         && 1 <= id <= |st.nodes[dst].sent| && st.nodes[dst].sent[id - 1].dst == src
         && Queued(st.nodes[src], MsgKey(st.nodes[dst], id))
  }

  /** What left the send queue by an acknowledgement has been queued at its destination. */
  ghost predicate Justified(st: State, n: nat, g: (int, bool))
    requires n < |st.nodes|
  {
    var m := st.nodes[n];
    && 1 <= g.0 <= |m.sent|
    && (g.1 ==> m.sent[g.0 - 1].dst < |st.nodes| && Queued(st.nodes[m.sent[g.0 - 1].dst], MsgKey(m, g.0)))
  }

  /** A queued message is one that its sender sent here. */
  ghost predicate Authentic(st: State, d: nat, q: Msg) {
    exists s :: 0 <= s < |st.nodes| && q.key == MsgKey(st.nodes[s], q.key.id) &&
      Genuine(st.nodes[s], Rec(d, q.key.id, q.info, q.data, 0))
  }

  ghost predicate Logged(m: Node, q: Msg) { exists i :: 0 <= i < |m.log| && m.log[i].rec == Record(q.key, q.time) }

  /** The record of recent messages and the queued messages agree. */
  ghost predicate GoodLog(m: Node, now: int) {
    && Timed(m.log, now)
    && (forall i :: 0 <= i < |m.log| && m.log[i].rec.key.id != -1 ==> Queued(m, m.log[i].rec.key))
    && (forall i :: 0 <= i < |m.queued| ==> Logged(m, m.queued[i]))
  }

  ghost predicate GoodNode(st: State, n: nat)
    requires n < |st.nodes|
  {
    var m := st.nodes[n];
    && (forall i :: 0 <= i < |m.sent| ==> m.sent[i].dst < |st.nodes|)
    && Booked(m) && AllGenuine(m, m.posting) && AllGenuine(m, m.queue) && GoodLog(m, st.now)
    && (forall i :: 0 <= i < |m.gone| ==> Justified(st, n, m.gone[i]))
    && (forall i :: 0 <= i < |m.queued| ==> Authentic(st, n, m.queued[i]))
  }

  ghost predicate Inv(st: State) {
    && (forall n :: 0 <= n < |st.nodes| ==> GoodNode(st, n))
    && (forall p :: p in st.net ==> GoodPacket(st, p))
  }

  // ----- What a step leaves true

  ghost predicate NodeGrows(m: Node, m': Node) {
    && m'.addr == m.addr && m'.session == m.session
    && |m.sent| <= |m'.sent| && m'.sent[..|m.sent|] == m.sent
    && |m.queued| <= |m'.queued| && m'.queued[..|m.queued|] == m.queued
  }

  ghost predicate Grows(st: State, st': State) {
    && |st'.nodes| == |st.nodes| && st.now <= st'.now
    && (forall n :: 0 <= n < |st.nodes| ==> NodeGrows(st.nodes[n], st'.nodes[n]))
  }

  lemma EventGrows(hash: Key -> int, st: State, e: Event)
    requires Legal(st, e)
    ensures Grows(st, Apply(hash, st, e))
  {
    if e.Arrive? {
      ArriveGrows(hash, st, e);
    } else if !e.Tick? {
      SenderGrows(hash, st, e);
    }
  }

  lemma ArriveGrows(hash: Key -> int, st: State, e: Event)
    requires Legal(st, e) && e.Arrive?
    ensures Grows(st, Apply(hash, st, e))
  {
    var st' := Apply(hash, st, e);
    assert NodeGrows(st.nodes[e.p.dst], st'.nodes[e.p.dst]);
  }

  lemma SenderGrows(hash: Key -> int, st: State, e: Event)
    requires Legal(st, e) && (e.Post? || e.Push? || e.Handle?)
    ensures Grows(st, Apply(hash, st, e))
  {
    var st' := Apply(hash, st, e);
    assert NodeGrows(st.nodes[e.n], st'.nodes[e.n]);
  }

  lemma GenuineStays(m: Node, m': Node, r: Rec)
    requires NodeGrows(m, m') && Genuine(m, r)
    ensures Genuine(m', r)
  {
    assert m'.sent[..|m.sent|][r.id - 1] == m.sent[r.id - 1];
  }

  lemma QueuedStays(m: Node, m': Node, key: Key)
    requires NodeGrows(m, m') && Queued(m, key)
    ensures Queued(m', key)
  {
    var i :| 0 <= i < |m.queued| && m.queued[i].key == key;
    assert m'.queued[..|m.queued|][i] == m.queued[i];
  }

  lemma PacketStays(st: State, st': State, p: Packet)
    requires Grows(st, st') && GoodPacket(st, p)
    ensures GoodPacket(st', p)
  {
    var m, m' := st.nodes[p.src], st'.nodes[p.src];
    match p
    case Data(src, dst, session, id, info, data, udt) => GenuineStays(m, m', Rec(dst, id, info, data, 0));
    case Ack(src, dst, id) =>
      assert st'.nodes[dst].sent[..|st.nodes[dst].sent|][id - 1] == st.nodes[dst].sent[id - 1];
      QueuedStays(m, m', MsgKey(st.nodes[dst], id));
  }

  lemma JustifiedStays(st: State, st': State, n: nat, g: (int, bool))
    requires Grows(st, st') && n < |st.nodes| && Justified(st, n, g)
    ensures Justified(st', n, g)
  {
    var m := st.nodes[n];
    assert st'.nodes[n].sent[..|m.sent|][g.0 - 1] == m.sent[g.0 - 1];
    if g.1 {
      QueuedStays(st.nodes[m.sent[g.0 - 1].dst], st'.nodes[m.sent[g.0 - 1].dst], MsgKey(m, g.0));
    }
  }

  lemma AuthenticStays(st: State, st': State, d: nat, q: Msg)
    requires Grows(st, st') && Authentic(st, d, q)
    ensures Authentic(st', d, q)
  {
    var s :| 0 <= s < |st.nodes| && q.key == MsgKey(st.nodes[s], q.key.id) &&
      Genuine(st.nodes[s], Rec(d, q.key.id, q.info, q.data, 0));
    GenuineStays(st.nodes[s], st'.nodes[s], Rec(d, q.key.id, q.info, q.data, 0));
  }

  /** What GoodNode says about the past of a process stays true. */
  lemma PastStays(st: State, st': State, n: nat)
    requires Grows(st, st') && n < |st.nodes| && GoodNode(st, n)
    ensures forall i :: 0 <= i < |st.nodes[n].gone| ==> Justified(st', n, st.nodes[n].gone[i])
    ensures forall i :: 0 <= i < |st.nodes[n].queued| ==> Authentic(st', n, st.nodes[n].queued[i])
    ensures AllGenuine(st'.nodes[n], st.nodes[n].posting) && AllGenuine(st'.nodes[n], st.nodes[n].queue)
  {
    var m := st.nodes[n];
    forall i | 0 <= i < |m.gone| ensures Justified(st', n, m.gone[i]) {
      JustifiedStays(st, st', n, m.gone[i]);
    }
    forall i | 0 <= i < |m.queued| ensures Authentic(st', n, m.queued[i]) {
      AuthenticStays(st, st', n, m.queued[i]);
    }
    forall i | 0 <= i < |m.posting| ensures Genuine(st'.nodes[n], m.posting[i]) {
      GenuineStays(m, st'.nodes[n], m.posting[i]);
    }
    forall i | 0 <= i < |m.queue| ensures Genuine(st'.nodes[n], m.queue[i]) {
      GenuineStays(m, st'.nodes[n], m.queue[i]);
    }
  }

  /** A process that keeps its record of recent messages and its queued messages. */
  lemma QuietNode(st: State, st': State, n: nat)
    requires Grows(st, st') && n < |st.nodes| && GoodNode(st, n) && Booked(st'.nodes[n])
    requires forall i :: 0 <= i < |st'.nodes[n].sent| ==> st'.nodes[n].sent[i].dst < |st'.nodes|
    requires st'.nodes[n].log == st.nodes[n].log && st'.nodes[n].queued == st.nodes[n].queued
    requires AllGenuine(st'.nodes[n], st'.nodes[n].posting) && AllGenuine(st'.nodes[n], st'.nodes[n].queue)
    requires forall i :: 0 <= i < |st'.nodes[n].gone| ==> Justified(st', n, st'.nodes[n].gone[i])
    ensures GoodNode(st', n)
  {
    PastStays(st, st', n);
    var m, m' := st.nodes[n], st'.nodes[n];
    forall i | 0 <= i < |m'.log| && m'.log[i].rec.key.id != -1 ensures Queued(m', m'.log[i].rec.key) {
      QueuedStays(m, m', m.log[i].rec.key);
    }
    forall i | 0 <= i < |m'.queued| ensures Logged(m', m'.queued[i]) {
      assert Logged(m, m.queued[i]);
    }
  }

  lemma SameNode(st: State, st': State, n: nat)
    requires Grows(st, st') && n < |st.nodes| && GoodNode(st, n) && st'.nodes[n] == st.nodes[n]
    ensures GoodNode(st', n)
  {
    PastStays(st, st', n);
    QuietNode(st, st', n);
  }

  lemma PostNode(hash: Key -> int, st: State, e: Event)
    requires Inv(st) && Legal(st, e) && e.Post?
    ensures GoodNode(Apply(hash, st, e), e.n)
    ensures GoodPacket(Apply(hash, st, e),
      Copy(e.n, st.nodes[e.n].session, Rec(e.dst, |st.nodes[e.n].sent| + 1, e.info, e.data, 0), false))
  {
    var st' := Apply(hash, st, e);
    assert GoodNode(st, e.n);
    EventGrows(hash, st, e);
    PastStays(st, st', e.n);
    EventBook(hash, st, e, e.n);
    QuietNode(st, st', e.n);
  }

  lemma PushNode(hash: Key -> int, st: State, e: Event)
    requires Inv(st) && Legal(st, e) && e.Push?
    ensures GoodNode(Apply(hash, st, e), e.n)
  {
    var st' := Apply(hash, st, e);
    assert GoodNode(st, e.n);
    EventGrows(hash, st, e);
    PastStays(st, st', e.n);
    EventBook(hash, st, e, e.n);
    PushGenuine(st'.nodes[e.n], st.nodes[e.n].posting, st.nodes[e.n].queue, e.k, st.now);
    QuietNode(st, st', e.n);
  }

  lemma PushGenuine(m: Node, posting: seq<Rec>, queue: seq<Rec>, k: nat, now: int)
    requires k < |posting| && AllGenuine(m, posting) && AllGenuine(m, queue)
    ensures AllGenuine(m, Without(posting, k)) && AllGenuine(m, queue + [posting[k].(time := now)])
  {
    assert Genuine(m, posting[k]);
  }

  lemma {:induction false} HandleParts(m: Node, q: seq<Rec>, now: int)
    requires AllGenuine(m, q)
    ensures AllGenuine(m, Staying(q, now)) && AllGenuine(m, Expired(q, now))
  {
    if q != [] {
      assert Genuine(m, q[0]);
      HandleParts(m, q[1..], now);
    }
  }

  lemma HandleNode(hash: Key -> int, st: State, e: Event)
    requires Inv(st) && Legal(st, e) && e.Handle?
    ensures GoodNode(Apply(hash, st, e), e.n)
  {
    var st' := Apply(hash, st, e);
    var m, m' := st.nodes[e.n], st'.nodes[e.n];
    assert GoodNode(st, e.n);
    EventGrows(hash, st, e);
    PastStays(st, st', e.n);
    EventBook(hash, st, e, e.n);
    HandleParts(m, m.queue, st.now);
    var out := Expired(m.queue, st.now);
    forall i | 0 <= i < |m'.gone| ensures Justified(st', e.n, m'.gone[i]) {
      if i >= |m.gone| {
        assert Genuine(m, out[i - |m.gone|]);
      }
    }
    HandleParts(m', m.queue, st.now);
    QuietNode(st, st', e.n);
  }

  lemma AckLog(m: Node, m': Node, now: int, key: Key)
    requires GoodLog(m, now) && key.id == -1
    requires m'.queued == m.queued && m'.log == m.log + [Entry(Record(key, now), now)]
    ensures GoodLog(m', now)
  {
    forall i | 0 <= i < |m'.log| && m'.log[i].rec.key.id != -1 ensures Queued(m', m'.log[i].rec.key) {
      var k :| 0 <= k < |m.queued| && m.queued[k].key == m.log[i].rec.key;
      assert m'.queued[k] == m.queued[k];
    }
    forall i | 0 <= i < |m'.queued| ensures Logged(m', m'.queued[i]) {
      assert Logged(m, m.queued[i]);
      LoggedStays(m, m', m.queued[i]);
    }
  }

  /** The acknowledged message was queued at its destination. */
  lemma AckGone(st: State, st': State, p: Packet)
    requires Inv(st) && p in st.net && p.Ack? && Grows(st, st')
    ensures p.dst < |st.nodes| && Justified(st', p.dst, (p.id, true))
  {
    assert GoodPacket(st, p);
    PacketStays(st, st', p);
  }

  lemma AckNode(hash: Key -> int, st: State, e: Event)
    requires Inv(st) && Legal(st, e) && e.Arrive? && e.p.Ack?
    ensures GoodNode(Apply(hash, st, e), e.p.dst)
  {
    var st' := Apply(hash, st, e);
    var n := e.p.dst;
    var m, from := st.nodes[n], st.nodes[e.p.src].addr;
    assert GoodNode(st, n);
    EventGrows(hash, st, e);
    if IdAt(m.queue, e.p.id) == |m.queue| {
      SameNode(st, st', n);
    } else {
      PastStays(st, st', n);
      EventBook(hash, st, e, n);
      AckGone(st, st', e.p);
      AckLog(m, st'.nodes[n], st.now, Key(from.0, from.1, m.session, -1));
      AckParts(st, st', n, e.p.id);
    }
  }

  /** The parts of GoodNode after a message has left the send queue. */
  lemma AckParts(st: State, st': State, n: nat, id: int)
    requires n < |st.nodes| == |st'.nodes| && Booked(st'.nodes[n]) && GoodLog(st'.nodes[n], st'.now)
    requires var m, m' := st.nodes[n], st'.nodes[n];
      && IdAt(m.queue, id) < |m.queue| && m'.queue == Without(m.queue, IdAt(m.queue, id)) && m'.posting == m.posting
      && m'.sent == m.sent && m'.gone == m.gone + [(id, true)] && m'.queued == m.queued
      && AllGenuine(m', m.posting) && AllGenuine(m', m.queue) && Justified(st', n, (id, true))
      && (forall i :: 0 <= i < |m.sent| ==> m.sent[i].dst < |st.nodes|)
      && (forall i :: 0 <= i < |m.gone| ==> Justified(st', n, m.gone[i]))
      && (forall i :: 0 <= i < |m.queued| ==> Authentic(st', n, m.queued[i]))
    ensures GoodNode(st', n)
  {
  }

  lemma LoggedStays(m: Node, m': Node, q: Msg)
    requires Logged(m, q) && |m.log| <= |m'.log| && m'.log[..|m.log|] == m.log
    ensures Logged(m', q)
  {
    var i :| 0 <= i < |m.log| && m.log[i].rec == Record(q.key, q.time);
    assert m'.log[..|m.log|][i] == m.log[i];
  }

  lemma DataNode(hash: Key -> int, st: State, e: Event)
    requires Inv(st) && Legal(st, e) && e.Arrive? && e.p.Data?
    ensures GoodNode(Apply(hash, st, e), e.p.dst)
    ensures Queued(Apply(hash, st, e).nodes[e.p.dst], KeyOf(st, e.p))
  {
    var st' := Apply(hash, st, e);
    var n, key := e.p.dst, KeyOf(st, e.p);
    var m, m' := st.nodes[n], st'.nodes[n];
    assert GoodNode(st, n) && GoodPacket(st, e.p);
    EventGrows(hash, st, e);
    PastStays(st, st', n);
    EventBook(hash, st, e, n);
    if InBucket(m.log, hash, key) {
      SameNode(st, st', n);
      Window(m.log, hash, key, st.now);
    } else {
      DataLog(st, st', m, m', key, e.p);
      DataAuthentic(st, st', e.p, m'.queued[|m.queued|]);
    }
  }

  lemma DataAuthentic(st: State, st': State, p: Packet, q: Msg)
    requires Grows(st, st') && p.Data? && GoodPacket(st, p) && q == Msg(KeyOf(st, p), p.info, p.data, st.now)
    ensures Authentic(st', p.dst, q)
  {
    GenuineStays(st.nodes[p.src], st'.nodes[p.src], Rec(p.dst, p.id, p.info, p.data, 0));
    assert q.key == MsgKey(st'.nodes[p.src], q.key.id);
  }

  lemma DataLog(st: State, st': State, m: Node, m': Node, key: Key, p: Packet)
    requires p.Data? && GoodLog(m, st.now) && st'.now == st.now
    requires m' == m.(log := m.log + [Entry(Record(key, st.now), st.now)],
                    queued := m.queued + [Msg(key, p.info, p.data, st.now)])
    ensures GoodLog(m', st.now) && Queued(m', key)
  {
    assert m'.queued[|m.queued|].key == key;
    assert m'.log[|m.log|].rec == Record(key, st.now);
    forall i | 0 <= i < |m.log| && m.log[i].rec.key.id != -1 ensures Queued(m', m.log[i].rec.key) {
      var k :| 0 <= k < |m.queued| && m.queued[k].key == m.log[i].rec.key;
      assert m'.queued[k] == m.queued[k];
    }
    forall i | 0 <= i < |m'.queued| ensures Logged(m', m'.queued[i]) {
      if i < |m.queued| {
        LoggedStays(m, m', m.queued[i]);
      }
    }
  }

  // ----- Runs

  lemma NewPackets(hash: Key -> int, st: State, e: Event, p: Packet)
    requires Inv(st) && Legal(st, e) && p in Apply(hash, st, e).net && p !in st.net
    ensures GoodPacket(Apply(hash, st, e), p)
  {
    match e
    case Post(_, _, _, _) => PostNode(hash, st, e);
    case Handle(n) => HandlePacket(hash, st, e, p);
    case Arrive(q) =>
      assert GoodPacket(st, q);
      DataNode(hash, st, e);
    case _ =>
  }

  lemma HandlePacket(hash: Key -> int, st: State, e: Event, p: Packet)
    requires Inv(st) && Legal(st, e) && e.Handle?
    requires p in Resent(e.n, st.nodes[e.n].session, st.nodes[e.n].queue, st.now)
    ensures GoodPacket(Apply(hash, st, e), p)
  {
    ResentGood(st, e.n, p);
    EventGrows(hash, st, e);
    PacketStays(st, Apply(hash, st, e), p);
  }

  /** A copy of a message in the send queue is as good as the message. */
  lemma ResentGood(st: State, n: nat, p: Packet)
    requires Inv(st) && n < |st.nodes| && p in Resent(n, st.nodes[n].session, st.nodes[n].queue, st.now)
    ensures GoodPacket(st, p)
  {
    var m := st.nodes[n];
    assert GoodNode(st, n);
    var i :| 0 <= i < |m.queue| && p == Copy(n, m.session, m.queue[i], st.now - m.queue[i].time > TIMEOUT);
    assert Genuine(m, m.queue[i]);
    assert m.sent[m.queue[i].id - 1].dst == m.queue[i].dst;
  }

  /** Every event keeps the invariant. */
  lemma EventInv(hash: Key -> int, st: State, e: Event)
    requires Inv(st) && Legal(st, e)
    ensures Inv(Apply(hash, st, e))
  {
    var st' := Apply(hash, st, e);
    EventGrows(hash, st, e);
    forall n | 0 <= n < |st'.nodes| ensures GoodNode(st', n) {
      NodeStep(hash, st, e, n);
    }
    forall p | p in st'.net ensures GoodPacket(st', p) {
      if p in st.net {
        PacketStays(st, st', p);
      } else {
        NewPackets(hash, st, e, p);
      }
    }
  }

  lemma NodeStep(hash: Key -> int, st: State, e: Event, n: nat)
    requires Inv(st) && Legal(st, e) && n < |st.nodes|
    ensures GoodNode(Apply(hash, st, e), n)
  {
    assert GoodNode(st, n);
    EventGrows(hash, st, e);
    if e.Post? && e.n == n {
      PostNode(hash, st, e);
    } else if e.Push? && e.n == n {
      PushNode(hash, st, e);
    } else if e.Handle? && e.n == n {
      HandleNode(hash, st, e);
    } else if e.Arrive? && e.p.dst == n {
      if e.p.Data? {
        DataNode(hash, st, e);
      } else {
        AckNode(hash, st, e);
      }
    } else {
      SameNode(st, Apply(hash, st, e), n);
    }
  }

  ghost predicate Legals(hash: Key -> int, st: State, evs: seq<Event>)
    decreases |evs|
  {
    evs == [] || (Legal(st, evs[0]) && Legals(hash, Apply(hash, st, evs[0]), evs[1..]))
  }

  ghost function After(hash: Key -> int, st: State, evs: seq<Event>): State
    requires Legals(hash, st, evs)
    decreases |evs|
  {
    if evs == [] then st else After(hash, Apply(hash, st, evs[0]), evs[1..])
  }

  /** Processes that have not sent or received anything, on a network without packets. */
  ghost predicate Init(st: State) {
    && st.net == {}
    && forall n :: 0 <= n < |st.nodes| ==>
      var m := st.nodes[n];
      m.posting == [] && m.queue == [] && m.log == [] && m.sent == [] && m.gone == [] && m.queued == []
  }

  lemma InitInv(st: State)
    requires Init(st)
    ensures Inv(st)
  {
  }

  lemma {:induction false} RunInv(hash: Key -> int, st: State, evs: seq<Event>)
    requires Inv(st) && Legals(hash, st, evs)
    ensures Inv(After(hash, st, evs)) && Grows(st, After(hash, st, evs))
    decreases |evs|
  {
    if evs != [] {
      EventInv(hash, st, evs[0]);
      EventGrows(hash, st, evs[0]);
      RunInv(hash, Apply(hash, st, evs[0]), evs[1..]);
    }
  }

  /** A message that was sent is on its way into the send queue, in it, or has left it, and just one of
      these and just once; if it left by an acknowledgement, its destination had queued it; and
      whatever is queued was sent here by the process it names. */
  ghost predicate Accounted(st: State, n: nat, id: int) {
    n < |st.nodes| &&
    var m := st.nodes[n];
    && (1 <= id <= |m.sent| ==>
          multiset(Ids(m.posting))[id] + multiset(Ids(m.queue))[id] + multiset(GoneIds(m.gone))[id] == 1)
    && (1 <= id <= |m.sent| && (id, true) in m.gone ==>
          m.sent[id - 1].dst < |st.nodes| && Queued(st.nodes[m.sent[id - 1].dst], MsgKey(m, id)))
    && (forall i :: 0 <= i < |m.queued| ==> Authentic(st, n, m.queued[i]))
  }

  lemma NodeAccounted(st: State, n: nat, id: int)
    requires n < |st.nodes| && GoodNode(st, n)
    ensures Accounted(st, n, id)
  {
    var m := st.nodes[n];
    UpToOnce(|m.sent|, id);
    assert Book(m)[id] == multiset(Ids(m.posting))[id] + multiset(Ids(m.queue))[id] + multiset(GoneIds(m.gone))[id];
    if (id, true) in m.gone {
      assert Justified(st, n, (id, true));
    }
  }

  /** This holds after any run. */
  lemma RunAccounts(hash: Key -> int, st: State, evs: seq<Event>, n: nat, id: int)
    requires Init(st) && Legals(hash, st, evs) && n < |st.nodes|
    ensures Accounted(After(hash, st, evs), n, id)
  {
    InitInv(st);
    RunInv(hash, st, evs);
    NodeAccounted(After(hash, st, evs), n, id);
  }

  // ----- At most once

  ghost predicate Distinct(q: seq<Msg>) { forall i, k :: 0 <= i < k < |q| ==> q[i].key != q[k].key }

  /** No copy of a message comes ten seconds or more after it was queued. */
  ghost predicate Timely(st: State, e: Event)
    requires Legal(st, e)
  {
    e.Arrive? && e.p.Data? ==>
      var m := st.nodes[e.p.dst];
      forall i :: 0 <= i < |m.queued| && m.queued[i].key == KeyOf(st, e.p) ==> st.now - m.queued[i].time < WINDOW
  }

  ghost predicate AllTimely(hash: Key -> int, st: State, evs: seq<Event>)
    requires Legals(hash, st, evs)
    decreases |evs|
  {
    evs == [] || (Timely(st, evs[0]) && AllTimely(hash, Apply(hash, st, evs[0]), evs[1..]))
  }

  lemma TimelyStep(hash: Key -> int, st: State, e: Event, n: nat)
    requires Inv(st) && Legal(st, e) && Timely(st, e) && n < |st.nodes| && Distinct(st.nodes[n].queued)
    ensures Distinct(Apply(hash, st, e).nodes[n].queued)
  {
    if e.Arrive? && e.p.Data? && e.p.dst == n {
      TimelyArrive(hash, st, e);
    } else {
      SameQueued(hash, st, e, n);
    }
  }

  lemma SameQueued(hash: Key -> int, st: State, e: Event, n: nat)
    requires Legal(st, e) && n < |st.nodes| && !(e.Arrive? && e.p.Data? && e.p.dst == n)
    ensures n < |Apply(hash, st, e).nodes| && Apply(hash, st, e).nodes[n].queued == st.nodes[n].queued
  {
  }

  lemma TimelyArrive(hash: Key -> int, st: State, e: Event)
    requires Inv(st) && Legal(st, e) && Timely(st, e) && e.Arrive? && e.p.Data?
    requires Distinct(st.nodes[e.p.dst].queued)
    ensures Distinct(Apply(hash, st, e).nodes[e.p.dst].queued)
  {
    var m, key := st.nodes[e.p.dst], KeyOf(st, e.p);
    assert GoodNode(st, e.p.dst);
    Window(m.log, hash, key, st.now);
    forall i | 0 <= i < |m.queued| && m.queued[i].key == key ensures InBucket(m.log, hash, key) {
      assert Logged(m, m.queued[i]);
    }
  }

  /** If no copy comes ten seconds or more after its message was queued, nothing is queued twice. */
  lemma {:induction false} QueuedOnce(hash: Key -> int, st: State, evs: seq<Event>, n: nat)
    requires Inv(st) && Legals(hash, st, evs) && AllTimely(hash, st, evs)
    requires n < |st.nodes| && Distinct(st.nodes[n].queued)
    ensures n < |After(hash, st, evs).nodes| && Distinct(After(hash, st, evs).nodes[n].queued)
    decreases |evs|
  {
    if evs != [] {
      EventInv(hash, st, evs[0]);
      EventGrows(hash, st, evs[0]);
      TimelyStep(hash, st, evs[0], n);
      QueuedOnce(hash, Apply(hash, st, evs[0]), evs[1..], n);
    }
  }

  /** Exactly when an arriving copy is queued: every earlier record of its message was purged, by a
      later one in the same bucket. */
  lemma ArrivalQueued(hash: Key -> int, st: State, p: Packet)
    requires Inv(st) && Legal(st, Arrive(p)) && p.Data?
    ensures var m := st.nodes[p.dst];
      |Apply(hash, st, Arrive(p)).nodes[p.dst].queued| == |m.queued| + 1 <==>
      forall i :: 0 <= i < |m.log| && m.log[i].rec.key == KeyOf(st, p) ==> !Kept(m.log, hash, i)
  {
    assert GoodNode(st, p.dst);
    InBucketIs(st.nodes[p.dst].log, hash, KeyOf(st, p), st.now);
  }

  // ----- A copy that comes too late

  const Idle := Node(("", 0), 0, [], [], [], [], [], [])

  function LateStart(): State { State([Idle, Idle.(addr := ("", 1))], {}, 0) }

  function LateCopy(id: int): Packet { Data(0, 1, 0, id, 0, [], false) }

  /** Message 1 arrives; ten seconds later so does message 2, and then message 1 again. */
  function LateEvents(): seq<Event> {
    [Post(0, 1, 0, []), Arrive(LateCopy(1)), Tick(WINDOW), Post(0, 1, 0, []), Arrive(LateCopy(2)), Arrive(LateCopy(1))]
  }

  function LateEntry(id: int, t: int): Entry { Entry(Record(Key("", 0, 0, id), t), t) }

  lemma LateBucket(hash: Key -> int)
    requires hash(Key("", 0, 0, 1)) == hash(Key("", 0, 0, 2))
    ensures InBucket([LateEntry(1, 0)], hash, Key("", 0, 0, 2)) == false
    ensures InBucket([LateEntry(1, 0), LateEntry(2, WINDOW)], hash, Key("", 0, 0, 1)) == false
  {
    var a, b := LateEntry(1, 0), LateEntry(2, WINDOW);
    assert [a][..0] == [] && [a, b][..1] == [a];
    var h := hash(a.rec.key);
    assert Bucket([], hash, h) == [];
    assert Bucket([a], hash, h) == [a.rec];
    assert Purge([a.rec], WINDOW) == [];
    assert Bucket([a, b], hash, h) == [b.rec];
  }

  lemma LateHalf(hash: Key -> int) returns (s1: State, s2: State, s3: State, s4: State)
    ensures var evs := LateEvents();
      && Legal(LateStart(), evs[0]) && s1 == Apply(hash, LateStart(), evs[0])
      && Legal(s1, evs[1]) && s2 == Apply(hash, s1, evs[1])
      && Legal(s2, evs[2]) && s3 == Apply(hash, s2, evs[2])
      && Legal(s3, evs[3]) && s4 == Apply(hash, s3, evs[3])
    ensures |s4.nodes| == 2 && s4.now == WINDOW && LateCopy(1) in s4.net && LateCopy(2) in s4.net
    ensures s4.nodes[0].addr == ("", 0) && s4.nodes[1].log == [LateEntry(1, 0)]
    ensures s4.nodes[1].queued == [Msg(Key("", 0, 0, 1), 0, [], 0)]
  {
    var evs := LateEvents();
    s1 := Apply(hash, LateStart(), evs[0]);
    assert LateCopy(1) in s1.net;
    s2 := Apply(hash, s1, evs[1]);
    s3 := Apply(hash, s2, evs[2]);
    s4 := Apply(hash, s3, evs[3]);
  }

  /** Without that condition it fails: with the two messages in the same bucket, message 1 is queued twice. */
  lemma LateCopyQueuedTwice(hash: Key -> int)
    requires hash(Key("", 0, 0, 1)) == hash(Key("", 0, 0, 2))
    ensures Init(LateStart()) && Legals(hash, LateStart(), LateEvents())
    ensures var q := After(hash, LateStart(), LateEvents()).nodes[1].queued;
      |q| == 3 && q[0].key == q[2].key
  {
    LateBucket(hash);
    var s1, s2, s3, s4 := LateHalf(hash);
    var s5, s6 := LateRest(hash, s4);
    LateRun(hash, s1, s2, s3, s4, s5, s6);
  }

  lemma LateRest(hash: Key -> int, s4: State) returns (s5: State, s6: State)
    requires !InBucket([LateEntry(1, 0)], hash, Key("", 0, 0, 2))
    requires !InBucket([LateEntry(1, 0), LateEntry(2, WINDOW)], hash, Key("", 0, 0, 1))
    requires |s4.nodes| == 2 && s4.now == WINDOW && LateCopy(1) in s4.net && LateCopy(2) in s4.net
    requires s4.nodes[0].addr == ("", 0) && s4.nodes[1].log == [LateEntry(1, 0)]
    requires s4.nodes[1].queued == [Msg(Key("", 0, 0, 1), 0, [], 0)]
    ensures Legal(s4, Arrive(LateCopy(2))) && s5 == Apply(hash, s4, Arrive(LateCopy(2)))
    ensures Legal(s5, Arrive(LateCopy(1))) && s6 == Apply(hash, s5, Arrive(LateCopy(1)))
    ensures |s6.nodes| == 2 && |s6.nodes[1].queued| == 3
    ensures s6.nodes[1].queued[0].key == s6.nodes[1].queued[2].key
  {
    s5 := Apply(hash, s4, Arrive(LateCopy(2)));
    assert s5.nodes[1].log == [LateEntry(1, 0), LateEntry(2, WINDOW)];
    assert s5.nodes[1].queued == [Msg(Key("", 0, 0, 1), 0, [], 0), Msg(Key("", 0, 0, 2), 0, [], WINDOW)];
    s6 := Apply(hash, s5, Arrive(LateCopy(1)));
  }

  lemma LateRun(hash: Key -> int, s1: State, s2: State, s3: State, s4: State, s5: State, s6: State)
    requires var evs := LateEvents();
      && Legal(LateStart(), evs[0]) && s1 == Apply(hash, LateStart(), evs[0])
      && Legal(s1, evs[1]) && s2 == Apply(hash, s1, evs[1])
      && Legal(s2, evs[2]) && s3 == Apply(hash, s2, evs[2])
      && Legal(s3, evs[3]) && s4 == Apply(hash, s3, evs[3])
      && Legal(s4, evs[4]) && s5 == Apply(hash, s4, evs[4])
      && Legal(s5, evs[5]) && s6 == Apply(hash, s5, evs[5])
    ensures Legals(hash, LateStart(), LateEvents()) && After(hash, LateStart(), LateEvents()) == s6
  {
    var evs := LateEvents();
    assert evs[5..][1..] == [] && evs[5..][0] == evs[5];
    assert evs[4..][1..] == evs[5..] && evs[3..][1..] == evs[4..]
      && evs[2..][1..] == evs[3..] && evs[1..][1..] == evs[2..];
    assert Legals(hash, s5, evs[5..]) && After(hash, s5, evs[5..]) == s6;
    assert Legals(hash, s4, evs[4..]) && After(hash, s4, evs[4..]) == s6;
    assert Legals(hash, s3, evs[3..]) && After(hash, s3, evs[3..]) == s6;
    assert Legals(hash, s2, evs[2..]) && After(hash, s2, evs[2..]) == s6;
    assert Legals(hash, s1, evs[1..]) && After(hash, s1, evs[1..]) == s6;
  }
}
