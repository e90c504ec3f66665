/** GMP: reliable messages over a network that loses, repeats and reorders packets. */
module GmpSpec {
  import opened PeerHistory

  /** A message in the hands of its sender: where it goes, its number, what it carries, and when it
      was put into the send queue. */
  datatype Rec = Rec(dst: nat, id: int, info: int, data: seq<bv8>, time: int)

  /** A copy of a message, over UDP or over a UDT connection; and the acknowledgement of one. */
  datatype Packet =
    | Data(src: nat, dst: nat, session: int, id: int, info: int, data: seq<bv8>, udt: bool)
    | Ack(src: nat, dst: nat, id: int)

  /** A message that the receiver has queued, and when. */
  datatype Msg = Msg(key: Key, info: int, data: seq<bv8>, time: int)

  /** A process. `posting` are messages that are on the wire but not in the send queue yet; the
      rest is for the record: all messages sent, those that left the send queue, and whether by an
      acknowledgement, and all messages ever queued for the application. */
  datatype Node = Node(addr: (string, int), session: int, posting: seq<Rec>, queue: seq<Rec>, log: seq<Entry>,
                       sent: seq<Rec>, gone: seq<(int, bool)>, queued: seq<Msg>)

  datatype State = State(nodes: seq<Node>, net: set<Packet>, now: int)

  const RESEND := 1000000
  const TIMEOUT := 10000000

  /** A message is sent; it enters the send queue; the sender looks through its queue; a packet
      arrives; time passes. */
  datatype Event =
    | Post(n: nat, dst: nat, info: int, data: seq<bv8>) | Push(n: nat, k: nat) | Handle(n: nat)
    | Arrive(p: Packet) | Tick(t: int)

  // ----- The send queue

  function Copy(n: nat, session: int, r: Rec, udt: bool): Packet {
    Data(n, r.dst, session, r.id, r.info, r.data, udt)
  }

  /** The messages that stay after a look through the queue. */
  function Staying(q: seq<Rec>, now: int): seq<Rec> {
    if q == [] then [] else if now - q[0].time > TIMEOUT then Staying(q[1..], now) else [q[0]] + Staying(q[1..], now)
  }

  /** Those that time out. */
  function Expired(q: seq<Rec>, now: int): seq<Rec> {
    if q == [] then [] else if now - q[0].time > TIMEOUT then [q[0]] + Expired(q[1..], now) else Expired(q[1..], now)
  }

  /** The copies that are sent: over UDP of messages that wait for more than a second, over UDT of
      those that time out. */
  function Resent(n: nat, session: int, q: seq<Rec>, now: int): set<Packet> {
    set r | r in q && now - r.time > RESEND :: Copy(n, session, r, now - r.time > TIMEOUT)
  }

  /** The position of the first message with a number, if any. */
  function IdAt(q: seq<Rec>, id: int): (i: nat)
    ensures i <= |q| && (i < |q| ==> q[i].id == id) && forall k :: 0 <= k < i ==> q[k].id != id
  {
    if q == [] || q[0].id == id then 0 else 1 + IdAt(q[1..], id)
  }

  function Without(q: seq<Rec>, i: nat): seq<Rec>
    requires i < |q|
  {
    q[..i] + q[i + 1..]
  }

  // ----- Steps

  function KeyOf(st: State, p: Packet): Key
    requires p.Data? && p.src < |st.nodes|
  {
    Key(st.nodes[p.src].addr.0, st.nodes[p.src].addr.1, p.session, p.id)
  }

  ghost predicate Legal(st: State, e: Event) {
    match e
    case Post(n, dst, info, data) => n < |st.nodes| && dst < |st.nodes|
    case Push(n, k) => n < |st.nodes| && k < |st.nodes[n].posting|
    case Handle(n) => n < |st.nodes|
    case Arrive(p) => p in st.net && p.src < |st.nodes| && p.dst < |st.nodes|
    case Tick(t) => st.now <= t
  }

  /** The receiver takes a message: unless it was there before, it is recorded and queued. */
  function Taken(hash: Key -> int, m: Node, key: Key, p: Packet, now: int): Node
    requires p.Data?
  {
    if InBucket(m.log, hash, key) then m
    else m.(log := m.log + [Entry(Record(key, now), now)], queued := m.queued + [Msg(key, p.info, p.data, now)])
  }

  /** The sender takes an acknowledgement: the first message with that number leaves the queue, and
      the peer is recorded under number -1. */
  function Acked(m: Node, id: int, from: (string, int), now: int): Node {
    var i := IdAt(m.queue, id);
    if i == |m.queue| then m
    else
      m.(queue := Without(m.queue, i), gone := m.gone + [(id, true)],
         log := m.log + [Entry(Record(Key(from.0, from.1, m.session, -1), now), now)])
  }

  function Ids(q: seq<Rec>): seq<int> { seq(|q|, i requires 0 <= i < |q| => q[i].id) }

  function Apply(hash: Key -> int, st: State, e: Event): State
    requires Legal(st, e)
  {
    match e
    case Post(n, dst, info, data) =>
      var m := st.nodes[n];
      var r := Rec(dst, |m.sent| + 1, info, data, 0);
      st.(nodes := st.nodes[n := m.(posting := m.posting + [r], sent := m.sent + [r])],
          net := st.net + {Copy(n, m.session, r, false)})
    case Push(n, k) =>
      var m := st.nodes[n];
      st.(nodes := st.nodes[n := m.(posting := Without(m.posting, k),
                                    queue := m.queue + [m.posting[k].(time := st.now)])])
    case Handle(n) =>
      var m := st.nodes[n];
      var out := Expired(m.queue, st.now);
      st.(nodes := st.nodes[n := m.(queue := Staying(m.queue, st.now),
                                    gone := m.gone + seq(|out|, i requires 0 <= i < |out| => (out[i].id, false)))],
          net := st.net + Resent(n, m.session, m.queue, st.now))
    case Arrive(p) =>
      if p.Data? then
        var m := Taken(hash, st.nodes[p.dst], KeyOf(st, p), p, st.now);
        st.(nodes := st.nodes[p.dst := m], net := if p.udt then st.net else st.net + {Ack(p.dst, p.src, p.id)})
      else st.(nodes := st.nodes[p.dst := Acked(st.nodes[p.dst], p.id, st.nodes[p.src].addr, st.now)])
    case Tick(t) => st.(now := t)
  }
}
