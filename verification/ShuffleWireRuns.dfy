/** Frame by frame the shuffle does what it does delivery by delivery, if every engine has an address of
    its own. */
module ShuffleWireRuns {
  import opened Options
  import opened Seqs
  import A = ShuffleSpec
  import R = ShuffleRuns
  import opened ShuffleWire

  // ----- What the frames on the way are

  function Rep(a: nat, n: nat): (r: seq<nat>)
    ensures |r| == n
  {
    seq(n, _ => a)
  }

  function Flat(anns: seq<Ann>): seq<nat> {
    if anns == [] then [] else Rep(anns[0].from, anns[0].num) + Flat(anns[1..])
  }

  /** The addresses that a shuffler will read from, bucket by bucket. */
  function From(rd: Reader, anns: seq<Ann>): seq<nat> {
    (if rd.Busy? then Rep(rd.from, rd.left) else []) + Flat(anns)
  }

  lemma {:induction false} FlatPlus(anns: seq<Ann>, a: Ann)
    ensures Flat(anns + [a]) == Flat(anns) + Rep(a.from, a.num)
  {
    if anns == [] {
      assert anns + [a] == [a];
      assert [a][1..] == [];
      assert Flat([a]) == Rep(a.from, a.num) + [];
    } else {
      assert (anns + [a])[1..] == anns[1..] + [a];
      FlatPlus(anns[1..], a);
      Assoc(Rep(anns[0].from, anns[0].num), Flat(anns[1..]), Rep(a.from, a.num));
    }
  }

  /** The frames of the items that engine s has sent. */
  function FramesOf(q: seq<A.Item>, s: nat): seq<Frame> {
    if q == [] then [] else (if q[0].src == s then Triple(q[0]) else []) + FramesOf(q[1..], s)
  }

  lemma {:induction false} FramesPlus(q: seq<A.Item>, r: seq<A.Item>, s: nat)
    ensures FramesOf(q + r, s) == FramesOf(q, s) + FramesOf(r, s)
  {
    if q == [] {
      assert q + r == r;
    } else {
      assert (q + r)[1..] == q[1..] + r;
      FramesPlus(q[1..], r, s);
      Assoc(if q[0].src == s then Triple(q[0]) else [], FramesOf(q[1..], s), FramesOf(r, s));
    }
  }

  lemma {:induction false} FramesOfOne(items: seq<A.Item>, s: nat, t: nat)
    requires forall i :: 0 <= i < |items| ==> items[i].src == t
    ensures FramesOf(items, s) == if s == t then Flatten(items) else []
  {
    if items != [] {
      FramesOfOne(items[1..], s, t);
    }
  }

  lemma {:induction false} ItemsSrc(j: A.Job, recs: seq<seq<A.Record>>, s: nat, l: nat, n: nat)
    requires n <= |j.loc| == |recs|
    ensures forall i :: 0 <= i < |A.Items(j, recs, s, l, n)| ==> A.Items(j, recs, s, l, n)[i].src == s
  {
    if n > 0 {
      ItemsSrc(j, recs, s, l, n - 1);
    }
  }

  // ----- The relation between frames and deliveries

  /** How many frames of the first bucket were read. */
  function Skip(rd: Reader, a: nat): nat {
    if !rd.Busy? || rd.from != a then 0
    else match rd.phase
      case NeedNumber => 0
      case NeedData(_) => 1
      case NeedIndex(_) => 2
  }

  function OutTo(e: Engine, l: nat): seq<Frame> { if e.to == l then e.out else [] }

  /** What engine s at address a has sent or will send to shuffler l in this delivery, and the shuffler has
      not read, are the frames of its items. */
  ghost predicate Stream(chan: seq<Frame>, out: seq<Frame>, q: seq<A.Item>, s: nat, skip: nat) {
    skip <= |FramesOf(q, s)| && chan + out == FramesOf(q, s)[skip..]
  }

  /** The items in the queue are those announced, in the same order. */
  ghost predicate Announced(addr: seq<nat>, q: seq<A.Item>, from: seq<nat>) {
    |q| == |from| && forall i :: 0 <= i < |q| ==> q[i].src < |addr| && addr[q[i].src] == from[i]
  }

  ghost predicate InPhase(rd: Reader, q: seq<A.Item>) {
    match rd
    case Lost => false
    case Idle => true
    case Busy(_, left, phase) =>
      && left > 0 && q != []
      && match phase
         case NeedNumber => true
         case NeedData(b) => b == q[0].bucket
         case NeedIndex(b) => b == q[0].bucket
  }

  function Plain(bin: A.Bin): Part { Part(bin.data, bin.index, bin.offset) }

  /** The files of bucket b while its shuffler reads. */
  function Seen(bin: A.Bin, rd: Reader, q: seq<A.Item>, b: nat): Part {
    if !rd.Busy? || q == [] || q[0].bucket != b then Plain(bin)
    else match rd.phase
      case NeedNumber => Plain(bin)
      case NeedData(_) => Opened(Plain(bin))
      case NeedIndex(_) => Written(Opened(Plain(bin)), q[0].data)
  }

  ghost predicate Streams(addr: seq<nat>, c: Net, q: seq<A.Item>, l: nat)
    requires |c.engines| == |addr| && l < |c.readers|
  {
    forall s :: 0 <= s < |addr| ==>
      Stream(Chan(c, l, addr[s]), OutTo(c.engines[s], l), q, s, Skip(c.readers[l], addr[s]))
  }

  ghost predicate Filed(j: A.Job, parts: seq<Part>, bins: seq<A.Bin>, rd: Reader, q: seq<A.Item>, l: nat)
    requires |parts| == |bins| == |j.loc|
  {
    forall b :: 0 <= b < |bins| && j.loc[b] == l ==> parts[b] == Seen(bins[b], rd, q, b)
  }

  ghost predicate SameEngine(e: Engine, p: A.Spe) {
    && e.recs == p.recs && e.sending == p.sending && e.served == p.served
    && (e.out != [] ==> e.sending && e.to in e.served)
  }

  /** Shuffler l, its channels and its files. */
  ghost predicate Link(j: A.Job, addr: seq<nat>, c: Net, a: A.State, l: nat)
    requires Shaped(j, addr, c) && A.Shape(j, a) && l < j.locs
  {
    && Announced(addr, a.queues[l], From(c.readers[l], c.anns[l])) && InPhase(c.readers[l], a.queues[l])
    && Streams(addr, c, a.queues[l], l) && Filed(j, c.files[l], a.bins, c.readers[l], a.queues[l], l)
  }

  /** The net, frame by frame, stands for the state a of whole deliveries. */
  ghost predicate Sim(j: A.Job, addr: seq<nat>, c: Net, a: A.State) {
    && Shaped(j, addr, c) && R.Inv(j, a) && |a.spes| == |addr|
    && (forall s :: 0 <= s < |addr| ==> SameEngine(c.engines[s], a.spes[s]))
    && (forall l :: 0 <= l < j.locs ==> Link(j, addr, c, a, l))
  }

  // ----- Steps of an engine

  /** The event of whole deliveries behind an event, if there is one. */
  ghost function Meaning(c: Net, e: Event): Option<A.Event> {
    match e
    case Emit(s, b, data, len) => Some(A.Emit(s, b, data, len))
    case Deliver(s) => Some(A.Deliver(s))
    case Accept(s, l) => Some(A.Send(s, l))
    case Done(s) => Some(A.Done(s))
    case Hear(l) =>
      if l < |c.readers| && c.readers[l].Busy? && c.readers[l].phase.NeedIndex? then Some(A.File(l)) else None
    case _ => None
  }

  /** Nothing of a shuffler changes when an engine does not touch its frames. */
  lemma LinkSame(j: A.Job, addr: seq<nat>, c: Net, a: A.State, c': Net, a': A.State, l: nat)
    requires Shaped(j, addr, c) && A.Shape(j, a) && Shaped(j, addr, c') && A.Shape(j, a') && l < j.locs
    requires Link(j, addr, c, a, l)
    requires c'.readers[l] == c.readers[l] && c'.anns[l] == c.anns[l] && c'.files[l] == c.files[l]
    requires a'.queues[l] == a.queues[l] && forall b :: 0 <= b < |j.loc| && j.loc[b] == l ==> a'.bins[b] == a.bins[b]
    requires forall s :: 0 <= s < |addr| ==>
      Chan(c', l, addr[s]) == Chan(c, l, addr[s]) && OutTo(c'.engines[s], l) == OutTo(c.engines[s], l)
    ensures Link(j, addr, c', a', l)
  {
  }

  /** The engine side of an event without frames. */
  lemma EngineKeeps(j: A.Job, addr: seq<nat>, w: Wire, c: Net, a: A.State, e: Event)
    requires Sim(j, addr, c, a) && Can(j, addr, c, e) && (e.Emit? || e.Deliver? || e.Done?)
    ensures A.Legal(j, a, Meaning(c, e).value)
    ensures var c', a' := Do(j, addr, w, c, e), A.Apply(j, a, Meaning(c, e).value);
      && Shaped(j, addr, c') && |a'.spes| == |addr|
      && forall s :: 0 <= s < |addr| ==> SameEngine(c'.engines[s], a'.spes[s])
  {
    assert SameEngine(c.engines[e.s], a.spes[e.s]);
  }

  lemma EngineStep(j: A.Job, addr: seq<nat>, w: Wire, c: Net, a: A.State, e: Event)
    requires Sim(j, addr, c, a) && Can(j, addr, c, e) && (e.Emit? || e.Deliver? || e.Done?)
    ensures A.Legal(j, a, Meaning(c, e).value)
    ensures Sim(j, addr, Do(j, addr, w, c, e), A.Apply(j, a, Meaning(c, e).value))
  {
    EngineKeeps(j, addr, w, c, a, e);
    var c', m := Do(j, addr, w, c, e), Meaning(c, e).value;
    var a' := A.Apply(j, a, m);
    R.EventInv(j, a, m);
    forall l | 0 <= l < j.locs ensures Link(j, addr, c', a', l) {
      EngineLink(j, addr, w, c, a, e, l);
    }
  }

  lemma EngineLink(j: A.Job, addr: seq<nat>, w: Wire, c: Net, a: A.State, e: Event, l: nat)
    requires Sim(j, addr, c, a) && Can(j, addr, c, e) && (e.Emit? || e.Deliver? || e.Done?) && l < j.locs
    requires A.Legal(j, a, Meaning(c, e).value) && Shaped(j, addr, Do(j, addr, w, c, e))
    requires A.Shape(j, A.Apply(j, a, Meaning(c, e).value))
    ensures Link(j, addr, Do(j, addr, w, c, e), A.Apply(j, a, Meaning(c, e).value), l)
  {
    assert SameEngine(c.engines[e.s], a.spes[e.s]);
    EngineFrames(j, addr, w, c, e);
    LinkSame(j, addr, c, a, Do(j, addr, w, c, e), A.Apply(j, a, Meaning(c, e).value), l);
  }

  /** No frames are touched. */
  lemma EngineFrames(j: A.Job, addr: seq<nat>, w: Wire, c: Net, e: Event)
    requires Shaped(j, addr, c) && Can(j, addr, c, e) && (e.Emit? || e.Deliver? || e.Done?)
    requires !c.engines[e.s].sending ==> c.engines[e.s].out == []
    ensures var c' := Do(j, addr, w, c, e);
      && c'.readers == c.readers && c'.anns == c.anns && c'.files == c.files && c'.chans == c.chans
      && |c'.engines| == |addr| && forall s, k :: 0 <= s < |addr| ==> OutTo(c'.engines[s], k) == OutTo(c.engines[s], k)
  {
  }

  // ----- A shuffler accepts a delivery

  lemma AcceptKeeps(j: A.Job, addr: seq<nat>, w: Wire, c: Net, a: A.State, e: Event)
    requires Sim(j, addr, c, a) && Can(j, addr, c, e) && e.Accept?
    ensures A.Legal(j, a, Meaning(c, e).value)
    ensures var c', a' := Do(j, addr, w, c, e), A.Apply(j, a, Meaning(c, e).value);
      && Shaped(j, addr, c') && |a'.spes| == |addr|
      && forall s :: 0 <= s < |addr| ==> SameEngine(c'.engines[s], a'.spes[s])
  {
    assert SameEngine(c.engines[e.s], a.spes[e.s]);
  }

  /** The announcement names the address of the items. */
  lemma AcceptAnnounced(addr: seq<nat>, q: seq<A.Item>, rd: Reader, anns: seq<Ann>, items: seq<A.Item>, s: nat)
    requires Announced(addr, q, From(rd, anns)) && s < |addr| && forall i :: 0 <= i < |items| ==> items[i].src == s
    ensures Announced(addr, q + items, From(rd, anns + [Ann(addr[s], |items|)]))
  {
    FlatPlus(anns, Ann(addr[s], |items|));
    var head := if rd.Busy? then Rep(rd.from, rd.left) else [];
    Assoc(head, Flat(anns), Rep(addr[s], |items|));
  }

  lemma DropPlus(f: seq<Frame>, g: seq<Frame>, k: nat)
    requires k <= |f|
    ensures (f + g)[k..] == f[k..] + g
  {
  }

  lemma AcceptStream(chan: seq<Frame>, q: seq<A.Item>, items: seq<A.Item>, s: nat, t: nat, skip: nat, out: seq<Frame>)
    requires Stream(chan, out, q, s, skip) && (s == t ==> out == [])
    requires forall i :: 0 <= i < |items| ==> items[i].src == t
    ensures Stream(chan, if s == t then Flatten(items) else out, q + items, s, skip)
  {
    FramesPlus(q, items, s);
    FramesOfOne(items, s, t);
    DropPlus(FramesOf(q, s), FramesOf(items, s), skip);
  }

  lemma AcceptLink(j: A.Job, addr: seq<nat>, w: Wire, c: Net, a: A.State, e: Event)
    requires Sim(j, addr, c, a) && Can(j, addr, c, e) && e.Accept?
    requires A.Legal(j, a, Meaning(c, e).value) && Shaped(j, addr, Do(j, addr, w, c, e))
    requires A.Shape(j, A.Apply(j, a, Meaning(c, e).value))
    ensures Link(j, addr, Do(j, addr, w, c, e), A.Apply(j, a, Meaning(c, e).value), e.l)
  {
    var l := e.l;
    assert SameEngine(c.engines[e.s], a.spes[e.s]);
    var items := A.Items(j, a.spes[e.s].recs, e.s, l, |j.loc|);
    assert Link(j, addr, c, a, l);
    ItemsSrc(j, a.spes[e.s].recs, e.s, l, |j.loc|);
    AcceptAnnounced(addr, a.queues[l], c.readers[l], c.anns[l], items, e.s);
    AcceptStreams(j, addr, w, c, a, e, items);
    AcceptFiled(j, c.files[l], a.bins, c.readers[l], a.queues[l], items, l);
  }

  lemma AcceptOther(j: A.Job, addr: seq<nat>, w: Wire, c: Net, a: A.State, e: Event, l: nat)
    requires Sim(j, addr, c, a) && Can(j, addr, c, e) && e.Accept? && l < j.locs && l != e.l
    requires A.Legal(j, a, Meaning(c, e).value) && Shaped(j, addr, Do(j, addr, w, c, e))
    requires A.Shape(j, A.Apply(j, a, Meaning(c, e).value))
    ensures Link(j, addr, Do(j, addr, w, c, e), A.Apply(j, a, Meaning(c, e).value), l)
  {
    assert SameEngine(c.engines[e.s], a.spes[e.s]);
    LinkSame(j, addr, c, a, Do(j, addr, w, c, e), A.Apply(j, a, Meaning(c, e).value), l);
  }

  /** What is read now does not change when a delivery is accepted. */
  lemma AcceptFiled(j: A.Job, parts: seq<Part>, bins: seq<A.Bin>, rd: Reader, q: seq<A.Item>,
                    items: seq<A.Item>, l: nat)
    requires |parts| == |bins| == |j.loc| && Filed(j, parts, bins, rd, q, l) && InPhase(rd, q)
    ensures Filed(j, parts, bins, rd, q + items, l) && InPhase(rd, q + items)
  {
    if rd.Busy? {
      assert (q + items)[0] == q[0];
    }
  }

  lemma AcceptStreams(j: A.Job, addr: seq<nat>, w: Wire, c: Net, a: A.State, e: Event, items: seq<A.Item>)
    requires Sim(j, addr, c, a) && Can(j, addr, c, e) && e.Accept?
    requires items == A.Items(j, c.engines[e.s].recs, e.s, e.l, |j.loc|)
    requires forall i :: 0 <= i < |items| ==> items[i].src == e.s
    ensures Streams(addr, Do(j, addr, w, c, e), a.queues[e.l] + items, e.l)
  {
    var c', l := Do(j, addr, w, c, e), e.l;
    assert Link(j, addr, c, a, l);
    forall s | 0 <= s < |addr|
      ensures Stream(Chan(c', l, addr[s]), OutTo(c'.engines[s], l), a.queues[l] + items, s,
                     Skip(c'.readers[l], addr[s]))
    {
      AcceptStream(Chan(c, l, addr[s]), a.queues[l], items, s, e.s, Skip(c.readers[l], addr[s]),
                   OutTo(c.engines[s], l));
    }
  }

  lemma AcceptStep(j: A.Job, addr: seq<nat>, w: Wire, c: Net, a: A.State, e: Event)
    requires Sim(j, addr, c, a) && Can(j, addr, c, e) && e.Accept?
    ensures A.Legal(j, a, Meaning(c, e).value)
    ensures Sim(j, addr, Do(j, addr, w, c, e), A.Apply(j, a, Meaning(c, e).value))
  {
    AcceptKeeps(j, addr, w, c, a, e);
    R.EventInv(j, a, Meaning(c, e).value);
    forall l | 0 <= l < j.locs ensures Link(j, addr, Do(j, addr, w, c, e), A.Apply(j, a, Meaning(c, e).value), l) {
      if l == e.l {
        AcceptLink(j, addr, w, c, a, e);
      } else {
        AcceptOther(j, addr, w, c, a, e, l);
      }
    }
  }

  // ----- An engine sends a frame

  lemma PushStream(chan: seq<Frame>, out: seq<Frame>, q: seq<A.Item>, s: nat, skip: nat)
    requires Stream(chan, out, q, s, skip) && out != []
    ensures Stream(chan + [out[0]], out[1..], q, s, skip)
  {
    assert chan + [out[0]] + out[1..] == chan + out;
  }

  lemma PushLink(j: A.Job, addr: seq<nat>, w: Wire, c: Net, a: A.State, e: Event, l: nat)
    requires Sim(j, addr, c, a) && Can(j, addr, c, e) && e.Push? && l < j.locs && OwnAddresses(addr)
    requires Shaped(j, addr, Do(j, addr, w, c, e))
    ensures Link(j, addr, Do(j, addr, w, c, e), a, l)
  {
    var c', p := Do(j, addr, w, c, e), c.engines[e.s];
    assert Link(j, addr, c, a, l);
    forall s | 0 <= s < |addr|
      ensures Stream(Chan(c', l, addr[s]), OutTo(c'.engines[s], l), a.queues[l], s, Skip(c'.readers[l], addr[s]))
    {
      if s != e.s {
        assert addr[s] != addr[e.s];
      } else if p.to == l {
        PushStream(Chan(c, l, addr[s]), p.out, a.queues[l], s, Skip(c.readers[l], addr[s]));
      }
    }
  }

  lemma PushStep(j: A.Job, addr: seq<nat>, w: Wire, c: Net, a: A.State, e: Event)
    requires Sim(j, addr, c, a) && Can(j, addr, c, e) && e.Push? && OwnAddresses(addr)
    ensures Sim(j, addr, Do(j, addr, w, c, e), a)
  {
    assert SameEngine(c.engines[e.s], a.spes[e.s]);
    forall l | 0 <= l < j.locs ensures Link(j, addr, Do(j, addr, w, c, e), a, l) {
      PushLink(j, addr, w, c, a, e, l);
    }
  }

  // ----- A shuffler turns to the next delivery

  lemma OpenFrom(rd: Reader, anns: seq<Ann>)
    requires rd.Idle? && anns != []
    ensures From(Reading(anns[0].from, anns[0].num), anns[1..]) == From(rd, anns)
  {
    assert [] + Flat(anns) == Flat(anns);
    if anns[0].num == 0 {
      assert Rep(anns[0].from, 0) == [];
    }
  }

  lemma OpenLink(j: A.Job, addr: seq<nat>, w: Wire, c: Net, a: A.State, e: Event, l: nat)
    requires Sim(j, addr, c, a) && Can(j, addr, c, e) && e.Open? && l < j.locs && Shaped(j, addr, Do(j, addr, w, c, e))
    ensures Link(j, addr, Do(j, addr, w, c, e), a, l)
  {
    var c' := Do(j, addr, w, c, e);
    assert Link(j, addr, c, a, l);
    if l != e.l {
      LinkSame(j, addr, c, a, c', a, l);
    } else {
      OpenFrom(c.readers[l], c.anns[l]);
      assert |From(c'.readers[l], c'.anns[l])| == |a.queues[l]|;
      forall s | 0 <= s < |addr|
        ensures Stream(Chan(c', l, addr[s]), OutTo(c'.engines[s], l), a.queues[l], s, Skip(c'.readers[l], addr[s]))
      {
        assert Skip(c'.readers[l], addr[s]) == 0 == Skip(c.readers[l], addr[s]);
      }
    }
  }

  lemma OpenStep(j: A.Job, addr: seq<nat>, w: Wire, c: Net, a: A.State, e: Event)
    requires Sim(j, addr, c, a) && Can(j, addr, c, e) && e.Open?
    ensures Sim(j, addr, Do(j, addr, w, c, e), a)
  {
    forall l | 0 <= l < j.locs ensures Link(j, addr, Do(j, addr, w, c, e), a, l) {
      OpenLink(j, addr, w, c, a, e, l);
    }
  }

  // ----- A shuffler receives a frame

  /** The frame at the head of the channel is the next one of the first item. */
  lemma HearHead(j: A.Job, addr: seq<nat>, c: Net, a: A.State, l: nat)
    requires Sim(j, addr, c, a) && Can(j, addr, c, Hear(l))
    ensures var rd, q := c.readers[l], a.queues[l];
      && q != [] && A.GoodItem(q[0]) && q[0].bucket < |j.loc| && j.loc[q[0].bucket] == l
      && q[0].src < |addr| && addr[q[0].src] == rd.from && Skip(rd, rd.from) < 3
      && Chan(c, l, rd.from)[0] == Triple(q[0])[Skip(rd, rd.from)]
  {
    var rd, q := c.readers[l], a.queues[l];
    assert Link(j, addr, c, a, l);
    assert R.GoodQueue(j, q, l);
    assert From(rd, c.anns[l])[0] == rd.from;
    var s := q[0].src;
    assert Stream(Chan(c, l, addr[s]), OutTo(c.engines[s], l), q, s, Skip(rd, addr[s]));
    HeadOf(Chan(c, l, addr[s]), OutTo(c.engines[s], l), q, s, Skip(rd, addr[s]));
  }

  lemma HeadOf(chan: seq<Frame>, out: seq<Frame>, q: seq<A.Item>, s: nat, skip: nat)
    requires Stream(chan, out, q, s, skip) && q != [] && q[0].src == s && skip < 3 && chan != []
    ensures chan[0] == Triple(q[0])[skip]
  {
    assert FramesOf(q, s)[skip] == Triple(q[0])[skip];
    assert chan[0] == (chan + out)[0];
  }

  lemma HearStream(chan: seq<Frame>, out: seq<Frame>, q: seq<A.Item>, s: nat, skip: nat)
    requires Stream(chan, out, q, s, skip) && chan != []
    ensures Stream(chan[1..], out, q, s, skip + 1)
  {
    assert chan[1..] + out == (chan + out)[1..];
  }

  /** All frames of the first item have been read. */
  lemma ItemRead(chan: seq<Frame>, out: seq<Frame>, q: seq<A.Item>, s: nat, skip: nat)
    requires q != [] && skip == (if q[0].src == s then 3 else 0) && Stream(chan, out, q, s, skip)
    ensures Stream(chan, out, q[1..], s, 0)
  {
    assert FramesOf(q, s)[skip..] == FramesOf(q[1..], s);
  }

  lemma FromTail(rd: Reader, anns: seq<Ann>)
    requires rd.Busy? && rd.left > 0
    ensures From(Reading(rd.from, rd.left - 1), anns) == From(rd, anns)[1..]
  {
    assert Rep(rd.from, rd.left)[1..] == Rep(rd.from, rd.left - 1);
    if rd.left == 1 {
      assert Rep(rd.from, 0) == [];
    }
  }

  lemma FiledItem(bin: A.Bin, it: A.Item)
    requires it.ends != []
    ensures Closed(Written(Opened(Plain(bin)), it.data), it.ends) == Plain(A.Receive(bin, it))
  {
  }

  /** What the shuffler reads and where it files it. */
  lemma HeardIs(j: A.Job, addr: seq<nat>, w: Wire, c: Net, a: A.State, l: nat)
    requires Sim(j, addr, c, a) && Can(j, addr, c, Hear(l)) && Honest(w)
    ensures a.queues[l] != []
    ensures var rd, it, parts := c.readers[l], a.queues[l][0], c.files[l];
      && it.ends != []
      && Heard(w, rd, parts, Chan(c, l, rd.from)[0]) ==
        match rd.phase
        case NeedNumber => (rd.(phase := NeedData(it.bucket)), parts[it.bucket := Opened(parts[it.bucket])])
        case NeedData(_) => (rd.(phase := NeedIndex(it.bucket)), parts[it.bucket := Written(parts[it.bucket], it.data)])
        case NeedIndex(_) =>
          (Reading(rd.from, rd.left - 1), parts[it.bucket := Closed(parts[it.bucket], it.ends)])
  {
    HearHead(j, addr, c, a, l);
    assert Link(j, addr, c, a, l);
  }

  /** The first n frames of the first item have been read. */
  ghost predicate Reads(addr: seq<nat>, c: Net, q: seq<A.Item>, l: nat, n: nat)
    requires |c.engines| == |addr| && q != []
  {
    forall s :: 0 <= s < |addr| ==>
      Stream(Chan(c, l, addr[s]), OutTo(c.engines[s], l), q, s, if s == q[0].src then n else 0)
  }

  /** All frames of the first item have been read. */
  lemma ReadsAll(addr: seq<nat>, c: Net, q: seq<A.Item>, l: nat)
    requires |c.engines| == |addr| && q != [] && Reads(addr, c, q, l, 3) && l < |c.readers|
    requires c.readers[l].Busy? ==> c.readers[l].phase.NeedNumber?
    ensures Streams(addr, c, q[1..], l)
  {
    forall s | 0 <= s < |addr|
      ensures Stream(Chan(c, l, addr[s]), OutTo(c.engines[s], l), q[1..], s, Skip(c.readers[l], addr[s]))
    {
      ItemRead(Chan(c, l, addr[s]), OutTo(c.engines[s], l), q, s, if s == q[0].src then 3 else 0);
    }
  }

  /** Some of its frames have been read. */
  lemma ReadsSome(addr: seq<nat>, c: Net, q: seq<A.Item>, l: nat, n: nat)
    requires |c.engines| == |addr| && q != [] && Reads(addr, c, q, l, n) && l < |c.readers| && OwnAddresses(addr)
    requires q[0].src < |addr| && c.readers[l].Busy? && addr[q[0].src] == c.readers[l].from
    requires Skip(c.readers[l], c.readers[l].from) == n
    ensures Streams(addr, c, q, l)
  {
    forall s | 0 <= s < |addr|
      ensures Stream(Chan(c, l, addr[s]), OutTo(c.engines[s], l), q, s, Skip(c.readers[l], addr[s]))
    {
      assert s != q[0].src ==> addr[s] != addr[q[0].src];
    }
  }

  lemma HearStreams(j: A.Job, addr: seq<nat>, w: Wire, c: Net, a: A.State, l: nat, c': Net)
    requires Sim(j, addr, c, a) && Can(j, addr, c, Hear(l)) && OwnAddresses(addr)
    requires |c'.readers| == |c.readers| && c'.engines == c.engines
    requires c'.chans == c.chans[(l, c.readers[l].from) := Chan(c, l, c.readers[l].from)[1..]]
    ensures a.queues[l] != [] && Reads(addr, c', a.queues[l], l, Skip(c.readers[l], c.readers[l].from) + 1)
  {
    HearHead(j, addr, c, a, l);
    assert Link(j, addr, c, a, l);
    HearReads(addr, c, a.queues[l], l, c.readers[l].from, c');
  }

  lemma HearReads(addr: seq<nat>, c: Net, q: seq<A.Item>, l: nat, from: nat, c': Net)
    requires |c.engines| == |addr| && l < |c.readers| && Streams(addr, c, q, l) && OwnAddresses(addr)
    requires c.readers[l].Busy? && c.readers[l].from == from && Chan(c, l, from) != []
    requires q != [] && q[0].src < |addr| && addr[q[0].src] == from
    requires c'.engines == c.engines && c'.chans == c.chans[(l, from) := Chan(c, l, from)[1..]]
    ensures Reads(addr, c', q, l, Skip(c.readers[l], from) + 1)
  {
    forall s | 0 <= s < |addr|
      ensures Stream(Chan(c', l, addr[s]), OutTo(c'.engines[s], l), q, s,
                     if s == q[0].src then Skip(c.readers[l], from) + 1 else 0)
    {
      assert Stream(Chan(c, l, addr[s]), OutTo(c.engines[s], l), q, s, Skip(c.readers[l], addr[s]));
      if s == q[0].src {
        HearStream(Chan(c, l, from), OutTo(c.engines[s], l), q, s, Skip(c.readers[l], from));
      } else {
        assert addr[s] != addr[q[0].src];
      }
    }
  }

  /** A number or data: the item is still being read. */
  lemma HearPart(j: A.Job, addr: seq<nat>, w: Wire, c: Net, a: A.State, l: nat)
    requires Sim(j, addr, c, a) && Can(j, addr, c, Hear(l)) && OwnAddresses(addr) && Honest(w)
    requires !c.readers[l].phase.NeedIndex? && Shaped(j, addr, Do(j, addr, w, c, Hear(l)))
    ensures Link(j, addr, Do(j, addr, w, c, Hear(l)), a, l)
  {
    var c', rd, q := Do(j, addr, w, c, Hear(l)), c.readers[l], a.queues[l];
    HearHead(j, addr, c, a, l);
    HeardIs(j, addr, w, c, a, l);
    HearStreams(j, addr, w, c, a, l, c');
    assert Link(j, addr, c, a, l);
    assert From(c'.readers[l], c'.anns[l]) == From(rd, c.anns[l]);
    ReadsSome(addr, c', q, l, Skip(rd, rd.from) + 1);
  }

  lemma HearItemStreams(j: A.Job, addr: seq<nat>, w: Wire, c: Net, a: A.State, l: nat, c': Net)
    requires Sim(j, addr, c, a) && Can(j, addr, c, Hear(l)) && OwnAddresses(addr) && c.readers[l].phase.NeedIndex?
    requires |c'.readers| == |c.readers| && c'.engines == c.engines
    requires c'.chans == c.chans[(l, c.readers[l].from) := Chan(c, l, c.readers[l].from)[1..]]
    requires c'.readers[l] == Reading(c.readers[l].from, c.readers[l].left - 1)
    ensures a.queues[l] != [] && Streams(addr, c', a.queues[l][1..], l)
  {
    HearStreams(j, addr, w, c, a, l, c');
    ReadsAll(addr, c', a.queues[l], l);
  }

  /** An index: the item is filed. */
  lemma HearItem(j: A.Job, addr: seq<nat>, w: Wire, c: Net, a: A.State, l: nat)
    requires Sim(j, addr, c, a) && Can(j, addr, c, Hear(l)) && OwnAddresses(addr) && Honest(w)
    requires c.readers[l].phase.NeedIndex? && Shaped(j, addr, Do(j, addr, w, c, Hear(l)))
    requires A.Legal(j, a, A.File(l)) && A.Shape(j, A.Apply(j, a, A.File(l)))
    ensures Link(j, addr, Do(j, addr, w, c, Hear(l)), A.Apply(j, a, A.File(l)), l)
  {
    var c', rd, q := Do(j, addr, w, c, Hear(l)), c.readers[l], a.queues[l];
    HeardIs(j, addr, w, c, a, l);
    HearItemStreams(j, addr, w, c, a, l, c');
    assert Link(j, addr, c, a, l);
    HearItemAnnounced(addr, q, rd, c.anns[l]);
    HearItemFiled(j, c.files[l], a.bins, rd, q, l);
  }

  lemma HearItemAnnounced(addr: seq<nat>, q: seq<A.Item>, rd: Reader, anns: seq<Ann>)
    requires Announced(addr, q, From(rd, anns)) && InPhase(rd, q) && rd.Busy?
    ensures Announced(addr, q[1..], From(Reading(rd.from, rd.left - 1), anns))
    ensures InPhase(Reading(rd.from, rd.left - 1), q[1..])
  {
    FromTail(rd, anns);
    assert |From(rd, anns)| >= rd.left;
  }

  lemma HearItemFiled(j: A.Job, parts: seq<Part>, bins: seq<A.Bin>, rd: Reader, q: seq<A.Item>, l: nat)
    requires |parts| == |bins| == |j.loc| && Filed(j, parts, bins, rd, q, l)
    requires rd.Busy? && rd.left > 0 && rd.phase.NeedIndex? && q != []
    requires q[0].bucket < |j.loc| && j.loc[q[0].bucket] == l
    requires q[0].ends != []
    ensures Filed(j, parts[q[0].bucket := Closed(parts[q[0].bucket], q[0].ends)],
                  bins[q[0].bucket := A.Receive(bins[q[0].bucket], q[0])], Reading(rd.from, rd.left - 1), q[1..], l)
  {
    FiledItem(bins[q[0].bucket], q[0]);
  }

  lemma HearOther(j: A.Job, addr: seq<nat>, w: Wire, c: Net, a: A.State, l: nat, a': A.State, k: nat)
    requires Sim(j, addr, c, a) && Can(j, addr, c, Hear(l)) && k < j.locs && k != l
    requires Shaped(j, addr, Do(j, addr, w, c, Hear(l))) && A.Shape(j, a')
    requires a' == a || (A.Legal(j, a, A.File(l)) && a' == A.Apply(j, a, A.File(l)))
    ensures Link(j, addr, Do(j, addr, w, c, Hear(l)), a', k)
  {
    HearHead(j, addr, c, a, l);
    if a' != a {
      FileElsewhere(j, a, l, k);
    }
    HearElsewhere(j, addr, w, c, l, k);
    LinkSame(j, addr, c, a, Do(j, addr, w, c, Hear(l)), a', k);
  }

  lemma FileElsewhere(j: A.Job, a: A.State, l: nat, k: nat)
    requires R.Inv(j, a) && A.Legal(j, a, A.File(l)) && k < j.locs && k != l
    ensures var a' := A.Apply(j, a, A.File(l));
      && k < |a'.queues| == |a.queues| && a'.queues[k] == a.queues[k] && |a'.bins| == |a.bins| == |j.loc|
      && forall b :: 0 <= b < |j.loc| && j.loc[b] == k ==> a'.bins[b] == a.bins[b]
  {
    assert R.GoodQueue(j, a.queues[l], l);
  }

  lemma HearElsewhere(j: A.Job, addr: seq<nat>, w: Wire, c: Net, l: nat, k: nat)
    requires Shaped(j, addr, c) && Can(j, addr, c, Hear(l)) && k < j.locs && k != l
    ensures var c' := Do(j, addr, w, c, Hear(l));
      && |c'.readers| == |c'.anns| == |c'.files| == j.locs
      && c'.readers[k] == c.readers[k] && c'.anns[k] == c.anns[k] && c'.files[k] == c.files[k]
      && c'.engines == c.engines && forall x :: Chan(c', k, x) == Chan(c, k, x)
  {
  }

  lemma HearPartStep(j: A.Job, addr: seq<nat>, w: Wire, c: Net, a: A.State, l: nat)
    requires Sim(j, addr, c, a) && Can(j, addr, c, Hear(l)) && OwnAddresses(addr) && Honest(w)
    requires !c.readers[l].phase.NeedIndex?
    ensures Sim(j, addr, Do(j, addr, w, c, Hear(l)), a)
  {
    HearHead(j, addr, c, a, l);
    HearPart(j, addr, w, c, a, l);
    forall k | 0 <= k < j.locs ensures Link(j, addr, Do(j, addr, w, c, Hear(l)), a, k) {
      if k != l {
        HearOther(j, addr, w, c, a, l, a, k);
      }
    }
  }

  lemma HearItemStep(j: A.Job, addr: seq<nat>, w: Wire, c: Net, a: A.State, l: nat)
    requires Sim(j, addr, c, a) && Can(j, addr, c, Hear(l)) && OwnAddresses(addr) && Honest(w)
    requires c.readers[l].phase.NeedIndex?
    ensures A.Legal(j, a, A.File(l)) && Sim(j, addr, Do(j, addr, w, c, Hear(l)), A.Apply(j, a, A.File(l)))
  {
    HearHead(j, addr, c, a, l);
    R.EventInv(j, a, A.File(l));
    HearItem(j, addr, w, c, a, l);
    forall k | 0 <= k < j.locs ensures Link(j, addr, Do(j, addr, w, c, Hear(l)), A.Apply(j, a, A.File(l)), k) {
      if k != l {
        HearOther(j, addr, w, c, a, l, A.Apply(j, a, A.File(l)), k);
      }
    }
  }
}
