/** Many threads receive from one data channel: a stream they share, a queue for frames that
    somebody else is waiting for, and a receive lock. Each step below is one region of the code
    that runs under a lock, or one receive call on the stream. */
module DataChannel {
  import opened Options
  import opened Seqs

  /** What one send call hands to a session of the other side. */
  datatype Frame = Frame(session: int, data: seq<bv8>)

  /** The three parts in which a frame crosses the stream. */
  datatype Part = Session(id: int) | Size(n: nat) | Data(bytes: seq<bv8>)

  /** Where a thread is inside recv for session s.
      Look: about to search the queue. Try: about to try the receive lock. With the lock held:
      Again: about to search the queue once more; NeedSession, NeedSize, NeedData: about to receive
      that part of a frame; Got: has a whole frame; Leave: about to give the lock back, with a frame
      to return or to start over. Done: has returned. */
  datatype Pc =
    | Look(s: int) | Try(s: int) | Again(s: int)
    | NeedSession(s: int) | NeedSize(s: int, id: int) | NeedData(s: int, id: int, n: nat)
    | Got(s: int, f: Frame) | Leave(s: int, r: Option<Frame>) | Done(s: int, r: Option<Frame>)

  /** The channel. `local` is a channel to oneself: it has no stream. `sending` are the parts that
      the owner of the send lock has not sent yet. The last three fields only record history: frames
      on the wire, frames sent in the order of the send lock, and frames handed to callers. */
  datatype Chan = Chan(
    local: bool, stream: seq<Part>, queue: seq<Frame>, owner: Option<nat>, pcs: map<nat, Pc>, sending: seq<Part>,
    wire: seq<Frame>, sent: seq<Frame>, taken: seq<Frame>)

  /** The frames of one session, in order. */
  function Of(fs: seq<Frame>, s: int): seq<Frame> {
    if fs == [] then []
    else (if fs[0].session == s then [fs[0]] else []) + Of(fs[1..], s)
  }

  lemma {:induction false} OfConcat(a: seq<Frame>, b: seq<Frame>, s: int)
    ensures Of(a + b, s) == Of(a, s) + Of(b, s)
  {
    if a == [] {
      assert a + b == b;
    } else {
      assert (a + b)[1..] == a[1..] + b;
      OfConcat(a[1..], b, s);
      Assoc(if a[0].session == s then [a[0]] else [], Of(a[1..], s), Of(b, s));
    }
  }

  lemma {:induction false} NoneOf(q: seq<Frame>, s: int)
    requires forall k :: 0 <= k < |q| ==> q[k].session != s
    ensures Of(q, s) == []
  {
    if q != [] {
      NoneOf(q[1..], s);
    }
  }

  /** The place of the first frame for session s; the length of the queue if there is none. */
  function Find(q: seq<Frame>, s: int): (i: nat)
    ensures i <= |q|
    ensures i < |q| ==> q[i].session == s
    ensures forall k :: 0 <= k < i ==> q[k].session != s
  {
    if q == [] || q[0].session == s then 0 else 1 + Find(q[1..], s)
  }

  /** A queue without the frame at place i. */
  function Without(q: seq<Frame>, i: nat): seq<Frame>
    requires i < |q|
  {
    q[..i] + q[i + 1..]
  }

  /** Taking the first frame for a session takes the front of that session and touches no other. */
  lemma TakeFirst(q: seq<Frame>, s: int, x: int)
    requires Find(q, s) < |q|
    ensures Of(q, s) == [q[Find(q, s)]] + Of(Without(q, Find(q, s)), s)
    ensures x != s ==> Of(q, x) == Of(Without(q, Find(q, s)), x)
  {
    var i := Find(q, s);
    NoneOf(q[..i], s);
    SplitOf(q, i, s);
    SplitOf(q, i, x);
  }

  lemma SplitOf(q: seq<Frame>, i: nat, x: int)
    requires i < |q|
    ensures Of(q, x) == Of(q[..i], x) + Of([q[i]], x) + Of(q[i + 1..], x)
    ensures Of(Without(q, i), x) == Of(q[..i], x) + Of(q[i + 1..], x)
    ensures Of([q[i]], x) == if q[i].session == x then [q[i]] else []
  {
    OfOne(q[i], x);
    OfConcat(q[..i], q[i + 1..], x);
    OfConcat(q[..i], [q[i]], x);
    OfConcat(q[..i] + [q[i]], q[i + 1..], x);
    assert q == q[..i] + [q[i]] + q[i + 1..];
  }

  lemma {:induction false} FindNothing(q: seq<Frame>, s: int)
    ensures Find(q, s) == |q| <==> Of(q, s) == []
  {
    if q != [] { FindNothing(q[1..], s); }
  }

  function Parts(f: Frame): seq<Part> { [Session(f.session), Size(|f.data|), Data(f.data)] }

  function Encode(fs: seq<Frame>): seq<Part> {
    if fs == [] then [] else Parts(fs[0]) + Encode(fs[1..])
  }

  lemma {:induction false} EncodeSnoc(fs: seq<Frame>, f: Frame)
    ensures Encode(fs + [f]) == Encode(fs) + Parts(f)
  {
    if fs == [] {
      assert [] + [f] == [f] && [f][1..] == [];
    } else {
      assert (fs + [f])[1..] == fs[1..] + [f];
      EncodeSnoc(fs[1..], f);
    }
  }

  // ----- Steps

  predicate HasLock(pc: Pc) {
    pc.Again? || pc.NeedSession? || pc.NeedSize? || pc.NeedData? || pc.Got? || pc.Leave?
  }

  function At(c: Chan, t: nat, pc: Pc): Chan { c.(pcs := c.pcs[t := pc]) }

  /** The search for a frame in the queue: a hit goes to `hit`, a miss to `miss`. */
  function Search(c: Chan, t: nat, s: int, hit: Option<Frame> -> Pc, miss: Pc): Chan {
    var i := Find(c.queue, s);
    if i < |c.queue| then
      At(c.(queue := Without(c.queue, i), taken := c.taken + [c.queue[i]]), t, hit(Some(c.queue[i])))
    else At(c, t, miss)
  }

  function Rest(fs: seq<Frame>): seq<Frame> { if fs == [] then [] else fs[1..] }

  /** One step of thread t inside recv. A receive call waits while the stream is empty. Without
      `recheck` the queue is not searched again once the lock is held. */
  function Advance(c: Chan, t: nat, recheck: bool): Chan
    requires t in c.pcs
  {
    match c.pcs[t]
    case Look(s) => Search(c, t, s, r => Done(s, r), Try(s))
    case Try(s) =>
      if c.owner.Some? then At(c, t, Look(s))
      else At(c.(owner := Some(t)), t, if recheck then Again(s) else NeedSession(s))
    case Again(s) => Search(c, t, s, r => Leave(s, r), if c.local then Leave(s, None) else NeedSession(s))
    case NeedSession(s) =>
      if c.stream != [] && c.stream[0].Session? then
        At(c.(stream := c.stream[1..]), t, NeedSize(s, c.stream[0].id))
      else c
    case NeedSize(s, id) =>
      if c.stream != [] && c.stream[0].Size? then
        At(c.(stream := c.stream[1..]), t, NeedData(s, id, c.stream[0].n))
      else c
    case NeedData(s, id, n) =>
      if c.stream != [] && c.stream[0].Data? && |c.stream[0].bytes| == n then
        At(c.(stream := c.stream[1..], wire := Rest(c.wire)), t, Got(s, Frame(id, c.stream[0].bytes)))
      else c
    case Got(s, f) =>
      if f.session == s then At(c.(taken := c.taken + [f]), t, Leave(s, Some(f)))
      else At(c.(queue := c.queue + [f]), t, Leave(s, None))
    case Leave(s, r) => At(c.(owner := None), t, if r.Some? then Done(s, r) else Look(s))
    case Done(_, _) => c
  }

  /** Call: thread t enters recv. Run: it makes a step. Begin: a sender takes the send lock.
      Part: it sends its next part; the lock is free again after the last. */
  datatype Event = Call(t: nat, s: int) | Run(t: nat) | Begin(f: Frame) | SendPart

  ghost predicate Step(c: Chan, e: Event, c': Chan, recheck: bool) {
    match e
    case Call(t, s) => (t in c.pcs ==> c.pcs[t].Done?) && c' == At(c, t, Look(s))
    case Run(t) => t in c.pcs && c' == Advance(c, t, recheck)
    case Begin(f) =>
      if c.local then c' == c.(queue := c.queue + [f], sent := c.sent + [f])
      else c.sending == [] && c' == c.(sending := Parts(f), wire := c.wire + [f], sent := c.sent + [f])
    case SendPart =>
      c.sending != [] && c' == c.(stream := c.stream + [c.sending[0]], sending := c.sending[1..])
  }

  ghost predicate Init(c: Chan) {
    c == Chan(c.local, [], [], None, map[], [], [], [], [])
  }

  ghost predicate IsRun(cs: seq<Chan>, evs: seq<Event>, recheck: bool) {
    && |cs| == |evs| + 1
    && Init(cs[0])
    && forall i :: 0 <= i < |evs| ==> Step(cs[i], evs[i], cs[i + 1], recheck)
  }

  // ----- What every step keeps

  function OwnerPc(c: Chan): Pc {
    if c.owner.Some? && c.owner.value in c.pcs then c.pcs[c.owner.value] else Done(0, None)
  }

  /** The frame that the owner of the receive lock holds and nobody got yet. */
  function Held(c: Chan): seq<Frame> {
    var pc := OwnerPc(c);
    if pc.Got? then [pc.f] else []
  }

  /** The parts of the first frame on the wire that the owner already received. */
  function Received(pc: Pc): seq<Part> {
    if pc.NeedSize? then [Session(pc.id)]
    else if pc.NeedData? then [Session(pc.id), Size(pc.n)]
    else []
  }

  predicate Reads(pc: Pc) { pc.NeedSession? || pc.NeedSize? || pc.NeedData? || pc.Got? }

  /** The receive lock belongs to the one thread that is inside its region. */
  ghost predicate Exclusive(c: Chan) {
    && (c.owner.Some? ==> c.owner.value in c.pcs)
    && forall t :: t in c.pcs ==> (HasLock(c.pcs[t]) <==> c.owner == Some(t))
  }

  /** The stream is cut into whole frames between what was received and what is still to send. */
  ghost predicate Aligned(c: Chan) {
    && Received(OwnerPc(c)) + c.stream + c.sending == Encode(c.wire)
    && (c.local ==> c.wire == [] && !Reads(OwnerPc(c)))
  }

  /** Who reads the stream found nothing for himself in the queue, and nobody can put it there. */
  ghost predicate Checked(c: Chan) {
    Reads(OwnerPc(c)) ==> Of(c.queue, OwnerPc(c).s) == []
  }

  /** For session x nothing is lost, doubled or reordered. */
  ghost predicate InOrder(c: Chan, x: int) {
    Of(c.taken, x) + Of(c.queue, x) + Of(Held(c), x) + Of(c.wire, x) == Of(c.sent, x)
  }

  /** A caller only gets frames of its own session. */
  ghost predicate Private(c: Chan) {
    forall t :: t in c.pcs ==> OwnFrame(c.pcs[t])
  }

  ghost predicate OwnFrame(pc: Pc) {
    (pc.Leave? || pc.Done?) && pc.r.Some? ==> pc.r.value.session == pc.s
  }

  ghost predicate Inv(c: Chan) {
    Exclusive(c) && Aligned(c) && Checked(c) && Private(c) && forall x :: InOrder(c, x)
  }

  lemma RunExclusive(c: Chan, t: nat, recheck: bool)
    requires Exclusive(c) && t in c.pcs
    ensures Exclusive(Advance(c, t, recheck))
  {
  }

  /** The first part on the stream is the next part of the first frame on the wire. */
  lemma {:induction false} HeadPart(done: seq<Part>, stream: seq<Part>, sending: seq<Part>, wire: seq<Frame>)
    requires stream != [] && done + stream + sending == Encode(wire) && |done| < 3
    ensures wire != [] && stream[0] == Parts(wire[0])[|done|]
    ensures done + [stream[0]] + stream[1..] + sending == Encode(wire)
    ensures done == Parts(wire[0])[..|done|]
    ensures |done| == 2 ==> stream[1..] + sending == Encode(wire[1..])
  {
    var all := done + stream + sending;
    assert all[|done|] == stream[0];
    assert all == Parts(wire[0]) + Encode(wire[1..]);
    assert done + [stream[0]] + stream[1..] + sending == all;
    if |done| == 2 {
      assert stream[1..] + sending == all[3..];
    }
  }

  /** The part that a reader finds on the stream, and what the frame looks like after it. */
  lemma ReadPart(c: Chan, t: nat)
    requires Exclusive(c) && Aligned(c) && t in c.pcs && Reads(c.pcs[t]) && !c.pcs[t].Got? && c.stream != []
    ensures c.owner == Some(t) && c.wire != [] && !c.local
    ensures var done := Received(c.pcs[t]);
      && c.stream[0] == Parts(c.wire[0])[|done|]
      && done == Parts(c.wire[0])[..|done|]
      && (|done| > 0 ==> done[0] == Session(c.wire[0].session))
      && (|done| < 2 ==> done + [c.stream[0]] + c.stream[1..] + c.sending == Encode(c.wire))
      && (|done| == 2 ==> c.stream[1..] + c.sending == Encode(c.wire[1..]) && done[1] == Size(|c.wire[0].data|))
  {
    assert HasLock(c.pcs[t]);
    var done := Received(c.pcs[t]);
    HeadPart(done, c.stream, c.sending, c.wire);
    assert |done| > 0 ==> done[0] == Parts(c.wire[0])[0];
    assert |done| == 2 ==> done[1] == Parts(c.wire[0])[1];
  }

  lemma RunReading(c: Chan, t: nat, recheck: bool)
    requires Exclusive(c) && Aligned(c) && t in c.pcs && Reads(c.pcs[t]) && !c.pcs[t].Got? && c.stream != []
    ensures Aligned(Advance(c, t, recheck))
  {
    ReadPart(c, t);
    var pc' := Advance(c, t, recheck).pcs[t];
    if c.pcs[t].NeedSession? {
      assert Received(pc') == [] + [c.stream[0]];
    } else if c.pcs[t].NeedSize? {
      assert Received(pc') == Received(c.pcs[t]) + [c.stream[0]];
    } else {
      assert [] + c.stream[1..] == c.stream[1..];
    }
  }

  /** The parts on the stream meet the receive calls one by one. */
  lemma RunAligned(c: Chan, t: nat, recheck: bool)
    requires Exclusive(c) && Aligned(c) && t in c.pcs && (recheck || !c.local)
    ensures Aligned(Advance(c, t, recheck))
  {
    var c' := Advance(c, t, recheck);
    if Reads(c.pcs[t]) && !c.pcs[t].Got? && c.stream != [] {
      RunReading(c, t, recheck);
    } else {
      assert c'.wire == c.wire && c'.stream == c.stream && c'.sending == c.sending && c'.local == c.local;
      SameReceived(c, t, recheck);
    }
  }

  lemma SameReceived(c: Chan, t: nat, recheck: bool)
    requires Exclusive(c) && t in c.pcs && (recheck || !c.local)
    requires Reads(c.pcs[t]) && !c.pcs[t].Got? ==> c.stream == []
    ensures var c' := Advance(c, t, recheck);
      && Received(OwnerPc(c')) == Received(OwnerPc(c))
      && (c.local && Reads(OwnerPc(c')) ==> Reads(OwnerPc(c)))
  {
    RunExclusive(c, t, recheck);
  }

  /** A waiting reader never meets the wrong part: it goes on as soon as something arrives. */
  lemma NeverMisaligned(c: Chan, t: nat, recheck: bool)
    requires Exclusive(c) && Aligned(c) && t in c.pcs && Reads(c.pcs[t]) && c.stream != []
    ensures Advance(c, t, recheck).pcs[t] != c.pcs[t]
  {
    if !c.pcs[t].Got? { ReadPart(c, t); }
  }

  lemma RunChecked(c: Chan, t: nat)
    requires Exclusive(c) && Checked(c) && t in c.pcs
    ensures Checked(Advance(c, t, true))
  {
    RunExclusive(c, t, true);
    var s := c.pcs[t].s;
    FindNothing(c.queue, s);
    if c.pcs[t].Look? && Find(c.queue, s) < |c.queue| && Reads(OwnerPc(c)) {
      TakeFirst(c.queue, s, OwnerPc(c).s);
    }
  }

  lemma RunPrivate(c: Chan, t: nat, recheck: bool)
    requires Private(c) && t in c.pcs
    ensures Private(Advance(c, t, recheck))
  {
    AdvanceOne(c, t, recheck);
    NextOwnFrame(c, t, recheck);
  }

  lemma NextOwnFrame(c: Chan, t: nat, recheck: bool)
    requires t in c.pcs && OwnFrame(c.pcs[t])
    ensures OwnFrame(Advance(c, t, recheck).pcs[t])
  {
  }

  /** Only the thread itself moves on. */
  lemma AdvanceOne(c: Chan, t: nat, recheck: bool)
    requires t in c.pcs
    ensures Advance(c, t, recheck).pcs.Keys == c.pcs.Keys
    ensures forall u :: u in c.pcs && u != t ==> Advance(c, t, recheck).pcs[u] == c.pcs[u]
  {
    if c.pcs[t].Look? || c.pcs[t].Again? {
      assert Find(c.queue, c.pcs[t].s) <= |c.queue|;
    }
    var pcs := Advance(c, t, recheck).pcs;
    assert pcs == c.pcs || pcs == c.pcs[t := pcs[t]];
  }

  /** A piece may move between neighbours without changing the whole. */
  lemma FromQueue(a: seq<Frame>, b: seq<Frame>, m: seq<Frame>, h: seq<Frame>, w: seq<Frame>)
    ensures (a + m) + b + h + w == a + (m + b) + h + w
  {
    Assoc(a, m, b);
  }

  lemma FromWire(a: seq<Frame>, m: seq<Frame>, w: seq<Frame>)
    ensures a + m + w == a + [] + (m + w)
  {
    assert a + [] == a;
    Assoc(a, m, w);
  }

  lemma ToWire(a: seq<Frame>, w: seq<Frame>, m: seq<Frame>)
    ensures a + (w + m) == (a + w) + m
  {
  }

  lemma ToQueue(a: seq<Frame>, b: seq<Frame>, m: seq<Frame>)
    ensures a + (b + m) + [] + [] == (a + b + [] + []) + m
  {
    Assoc(a, b, m);
    assert a + b + [] + [] == a + b;
    assert a + (b + m) + [] + [] == a + (b + m);
  }

  lemma OfOne(f: Frame, x: int)
    ensures Of([f], x) == if f.session == x then [f] else []
  {
    assert [f][1..] == [];
  }

  /** Taking a frame from the queue only moves it. */
  lemma SearchInOrder(c: Chan, t: nat, x: int)
    requires Exclusive(c) && InOrder(c, x) && t in c.pcs && (c.pcs[t].Look? || c.pcs[t].Again?)
    ensures InOrder(Advance(c, t, true), x)
  {
    var s, i := c.pcs[t].s, Find(c.queue, c.pcs[t].s);
    SearchHeld(c, t);
    if i < |c.queue| {
      var f := c.queue[i];
      OfConcat(c.taken, [f], x);
      TakeOne(c.queue, s, x);
      FromQueue(Of(c.taken, x), Of(Without(c.queue, i), x), Of([f], x), Of(Held(c), x), Of(c.wire, x));
    }
  }

  lemma TakeOne(q: seq<Frame>, s: int, x: int)
    requires Find(q, s) < |q|
    ensures Of(q, x) == Of([q[Find(q, s)]], x) + Of(Without(q, Find(q, s)), x)
  {
    TakeFirst(q, s, x);
    OfOne(q[Find(q, s)], x);
    if x != s {
      assert [] + Of(q, x) == Of(q, x);
    }
  }

  lemma SearchHeld(c: Chan, t: nat)
    requires Exclusive(c) && t in c.pcs && (c.pcs[t].Look? || c.pcs[t].Again?)
    ensures Held(Advance(c, t, true)) == Held(c)
  {
    RunExclusive(c, t, true);
  }

  lemma OneTaken(taken: seq<Frame>, queue: seq<Frame>, f: Frame, wire: seq<Frame>, x: int)
    requires f.session == x ==> Of(queue, x) == []
    ensures Of(taken, x) + Of(queue, x) + Of([f], x) + Of(wire, x) ==
      Of(taken + [f], x) + Of(queue, x) + Of([], x) + Of(wire, x)
  {
    OfOne(f, x);
    OfConcat(taken, [f], x);
    MovesOver(Of(taken, x), Of(queue, x), Of([f], x), Of(wire, x));
  }

  lemma MovesOver(a: seq<Frame>, b: seq<Frame>, m: seq<Frame>, w: seq<Frame>)
    requires b == [] || m == []
    ensures a + b + m + w == (a + m) + b + [] + w
  {
    if b == [] {
      assert a + b == a;
      assert (a + m) + b == a + m;
    } else {
      assert a + m == a;
    }
  }

  lemma OneQueued(taken: seq<Frame>, queue: seq<Frame>, f: Frame, wire: seq<Frame>, x: int)
    ensures Of(taken, x) + Of(queue, x) + Of([f], x) + Of(wire, x) ==
      Of(taken, x) + Of(queue + [f], x) + Of([], x) + Of(wire, x)
  {
    OfConcat(queue, [f], x);
    Assoc(Of(taken, x), Of(queue, x), Of([f], x));
    assert Of(taken, x) + Of(queue + [f], x) + [] == Of(taken, x) + Of(queue + [f], x);
  }

  /** A whole frame goes straight to its reader, or to the end of the queue. */
  lemma GotInOrder(c: Chan, t: nat, x: int)
    requires Exclusive(c) && Checked(c) && InOrder(c, x) && t in c.pcs && c.pcs[t].Got?
    ensures InOrder(Advance(c, t, true), x)
  {
    GotHeld(c, t);
    if c.pcs[t].f.session == c.pcs[t].s {
      if c.pcs[t].s == x {
        GotNone(c, t, x);
      }
      OneTaken(c.taken, c.queue, c.pcs[t].f, c.wire, x);
    } else {
      OneQueued(c.taken, c.queue, c.pcs[t].f, c.wire, x);
    }
  }

  lemma GotNone(c: Chan, t: nat, x: int)
    requires Exclusive(c) && Checked(c) && t in c.pcs && c.pcs[t].Got? && c.pcs[t].f.session == c.pcs[t].s == x
    ensures Of(c.queue, x) == []
  {
    GotHeld(c, t);
  }

  lemma GotHeld(c: Chan, t: nat)
    requires Exclusive(c) && t in c.pcs && c.pcs[t].Got?
    ensures c.owner == Some(t) && Held(c) == [c.pcs[t].f] && Held(Advance(c, t, true)) == []
  {
    assert HasLock(c.pcs[t]);
  }

  lemma ReadInOrder(c: Chan, t: nat, x: int)
    requires Exclusive(c) && Aligned(c) && InOrder(c, x) && t in c.pcs && Reads(c.pcs[t]) && !c.pcs[t].Got?
    ensures InOrder(Advance(c, t, true), x)
  {
    ReadHeld(c, t);
    if c.stream != [] && c.pcs[t].NeedData? {
      var f := c.wire[0];
      assert c.wire == [f] + c.wire[1..];
      OfConcat([f], c.wire[1..], x);
      FromWire(Of(c.taken, x) + Of(c.queue, x), Of([f], x), Of(c.wire[1..], x));
    }
  }

  lemma ReadHeld(c: Chan, t: nat)
    requires Exclusive(c) && Aligned(c) && t in c.pcs && Reads(c.pcs[t]) && !c.pcs[t].Got?
    ensures var c' := Advance(c, t, true);
      && Held(c) == [] && c'.taken == c.taken && c'.queue == c.queue && c'.sent == c.sent
      && if c.stream != [] && c.pcs[t].NeedData?
         then c.wire != [] && c'.wire == c.wire[1..] && Held(c') == [c.wire[0]]
         else c'.wire == c.wire && Held(c') == []
  {
    assert HasLock(c.pcs[t]);
    if c.stream != [] { ReadPart(c, t); }
  }

  lemma RunInOrder(c: Chan, t: nat, x: int)
    requires Exclusive(c) && Aligned(c) && Checked(c) && InOrder(c, x) && t in c.pcs
    ensures InOrder(Advance(c, t, true), x)
  {
    var pc := c.pcs[t];
    if pc.Look? || pc.Again? {
      SearchInOrder(c, t, x);
    } else if pc.Got? {
      GotInOrder(c, t, x);
    } else if Reads(pc) {
      ReadInOrder(c, t, x);
    } else {
      RunExclusive(c, t, true);
      assert Held(Advance(c, t, true)) == Held(c);
    }
  }

  lemma RunInv(c: Chan, t: nat)
    requires Inv(c) && t in c.pcs
    ensures Inv(Advance(c, t, true))
  {
    RunExclusive(c, t, true);
    RunAligned(c, t, true);
    RunChecked(c, t);
    RunPrivate(c, t, true);
    forall x ensures InOrder(Advance(c, t, true), x) {
      assert InOrder(c, x);
      RunInOrder(c, t, x);
    }
  }

  lemma CallInv(c: Chan, t: nat, s: int)
    requires Inv(c) && (t in c.pcs ==> c.pcs[t].Done?)
    ensures Inv(At(c, t, Look(s)))
  {
    var c' := At(c, t, Look(s));
    if t in c.pcs { assert !HasLock(c.pcs[t]); }
    assert OwnerPc(c') == OwnerPc(c);
    forall x ensures InOrder(c', x) { assert InOrder(c, x); }
  }

  lemma BeginInv(c: Chan, f: Frame, c': Chan)
    requires Inv(c) && Step(c, Begin(f), c', true)
    ensures Inv(c')
  {
    assert OwnerPc(c') == OwnerPc(c);
    EncodeSnoc(c.wire, f);
    if !c.local {
      assert Received(OwnerPc(c)) + c.stream + Parts(f) == Received(OwnerPc(c)) + c.stream + [] + Parts(f);
    }
    forall x ensures InOrder(c', x) {
      assert InOrder(c, x);
      BeginInOrder(c, f, c', x);
    }
  }

  lemma BeginInOrder(c: Chan, f: Frame, c': Chan, x: int)
    requires Exclusive(c) && Aligned(c) && InOrder(c, x) && Step(c, Begin(f), c', true)
    ensures InOrder(c', x)
  {
    assert Held(c') == Held(c);
    OfConcat(c.sent, [f], x);
    OfConcat(c.wire, [f], x);
    OfConcat(c.queue, [f], x);
    if c.local {
      ToQueue(Of(c.taken, x), Of(c.queue, x), Of([f], x));
    } else {
      ToWire(Of(c.taken, x) + Of(c.queue, x) + Of(Held(c), x), Of(c.wire, x), Of([f], x));
    }
  }

  lemma SendPartInv(c: Chan, c': Chan)
    requires Inv(c) && Step(c, SendPart, c', true)
    ensures Inv(c')
  {
    assert OwnerPc(c') == OwnerPc(c);
    var done := Received(OwnerPc(c));
    assert done + (c.stream + [c.sending[0]]) + c.sending[1..] == done + c.stream + c.sending;
    forall x ensures InOrder(c', x) { assert InOrder(c, x); }
  }

  lemma StepInv(c: Chan, e: Event, c': Chan)
    requires Inv(c) && Step(c, e, c', true)
    ensures Inv(c')
  {
    match e
    case Call(t, s) => CallInv(c, t, s);
    case Run(t) => RunInv(c, t);
    case Begin(f) => BeginInv(c, f, c');
    case SendPart => SendPartInv(c, c');
  }

  /** In every interleaving: per session, the frames handed out, queued, held and on the wire are
      the frames sent, in order; and callers only get frames of their own session. */
  lemma {:induction false} RunIsInOrder(cs: seq<Chan>, evs: seq<Event>)
    requires IsRun(cs, evs, true)
    ensures Inv(cs[|evs|])
    decreases |evs|
  {
    if evs == [] {
      forall x ensures InOrder(cs[0], x) {}
    } else {
      var m := |evs| - 1;
      LastStep(cs, evs, true);
      RunIsInOrder(cs[..m + 1], evs[..m]);
      StepInv(cs[m], evs[m], cs[m + 1]);
    }
  }

  lemma LastStep(cs: seq<Chan>, evs: seq<Event>, recheck: bool)
    requires IsRun(cs, evs, recheck) && evs != []
    ensures var m := |evs| - 1; IsRun(cs[..m + 1], evs[..m], recheck) && Step(cs[m], evs[m], cs[m + 1], recheck)
  {
    var m := |evs| - 1;
    forall i | 0 <= i < m ensures Step(cs[..m + 1][i], evs[..m][i], cs[..m + 1][i + 1], recheck) {
      assert Step(cs[i], evs[i], cs[i + 1], recheck);
    }
  }

  // ----- Why the queue is searched twice

  predicate Can(c: Chan, e: Event) {
    match e
    case Call(t, s) => t in c.pcs ==> c.pcs[t].Done?
    case Run(t) => t in c.pcs
    case Begin(f) => c.local || c.sending == []
    case SendPart => c.sending != []
  }

  /** The step that an event makes. */
  function Do(c: Chan, e: Event, recheck: bool): Chan
    requires Can(c, e)
  {
    match e
    case Call(t, s) => At(c, t, Look(s))
    case Run(t) => Advance(c, t, recheck)
    case Begin(f) =>
      if c.local then c.(queue := c.queue + [f], sent := c.sent + [f])
      else c.(sending := Parts(f), wire := c.wire + [f], sent := c.sent + [f])
    case SendPart => c.(stream := c.stream + [c.sending[0]], sending := c.sending[1..])
  }

  /** The events lead from c to c'. */
  ghost predicate Plays(c: Chan, evs: seq<Event>, c': Chan, recheck: bool)
    decreases |evs|
  {
    if evs == [] then c' == c else Can(c, evs[0]) && Plays(Do(c, evs[0], recheck), evs[1..], c', recheck)
  }

  lemma {:induction false} PlaysPlus(c: Chan, a: seq<Event>, d: Chan, b: seq<Event>, e: Chan, recheck: bool)
    requires Plays(c, a, d, recheck) && Plays(d, b, e, recheck)
    ensures Plays(c, a + b, e, recheck)
    decreases |a|
  {
    if a == [] {
      assert a + b == b;
    } else {
      assert (a + b)[1..] == a[1..] + b;
      PlaysPlus(Do(c, a[0], recheck), a[1..], d, b, e, recheck);
    }
  }

  lemma PlaysOne(c: Chan, e: Event, recheck: bool)
    requires Can(c, e)
    ensures Plays(c, [e], Do(c, e, recheck), recheck)
  {
    assert [e][1..] == [];
    assert Plays(Do(c, e, recheck), [], Do(c, e, recheck), recheck);
  }

  lemma PlaysMore(c: Chan, a: seq<Event>, d: Chan, e: Event, recheck: bool)
    requires Plays(c, a, d, recheck) && Can(d, e)
    ensures Plays(c, a + [e], Do(d, e, recheck), recheck)
  {
    PlaysOne(d, e, recheck);
    PlaysPlus(c, a, d, [e], Do(d, e, recheck), recheck);
  }

  lemma {:induction false} PlaysSteps(c: Chan, evs: seq<Event>, c': Chan, recheck: bool) returns (cs: seq<Chan>)
    requires Plays(c, evs, c', recheck)
    ensures |cs| == |evs| + 1 && cs[0] == c && cs[|evs|] == c'
    ensures forall i :: 0 <= i < |evs| ==> Step(cs[i], evs[i], cs[i + 1], recheck)
    decreases |evs|
  {
    if evs == [] {
      cs := [c];
    } else {
      var rest := PlaysSteps(Do(c, evs[0], recheck), evs[1..], c', recheck);
      cs := [c] + rest;
      forall i | 0 <= i < |evs| ensures Step(cs[i], evs[i], cs[i + 1], recheck) {
        if i > 0 {
          assert Step(rest[i - 1], evs[1..][i - 1], rest[i], recheck);
        }
      }
    }
  }

  function Sending(f: Frame): seq<Event> { [Begin(f)] + [SendPart] + [SendPart] + [SendPart] }

  function Reading(t: nat): seq<Event> { [Run(t)] + [Run(t)] + [Run(t)] }

  function Calls(o: int, s: int): seq<Event> { [Call(1, o)] + [Call(0, s)] + [Run(1)] + [Run(1)] + [Run(0)] }

  /** A sender puts a frame on the stream. */
  lemma SendFrame(c: Chan, f: Frame, recheck: bool) returns (c': Chan)
    requires !c.local && c.sending == []
    ensures c' == c.(stream := c.stream + Parts(f), wire := c.wire + [f], sent := c.sent + [f])
    ensures Plays(c, Sending(f), c', recheck)
  {
    var c1 := Do(c, Begin(f), recheck);
    PlaysOne(c, Begin(f), recheck);
    var c2 := Do(c1, SendPart, recheck);
    PlaysMore(c, [Begin(f)], c1, SendPart, recheck);
    var c3 := Do(c2, SendPart, recheck);
    PlaysMore(c, [Begin(f)] + [SendPart], c2, SendPart, recheck);
    c' := Do(c3, SendPart, recheck);
    PlaysMore(c, [Begin(f)] + [SendPart] + [SendPart], c3, SendPart, recheck);
    assert c'.stream == c.stream + Parts(f);
  }

  lemma FirstPart(p: Part, rest: seq<Part>, stream: seq<Part>)
    requires stream == [p] + rest
    ensures stream != [] && stream[0] == p && stream[1..] == rest
  {
  }

  /** The owner of the receive lock receives the three parts of a frame. */
  lemma ReadFrame(c: Chan, t: nat, s: int, f: Frame, rest: seq<Part>, wire: seq<Frame>, recheck: bool)
    returns (c': Chan)
    requires t in c.pcs && c.pcs[t] == NeedSession(s) && c.stream == Parts(f) + rest && c.wire == [f] + wire
    ensures c' == c.(stream := rest, wire := wire, pcs := c.pcs[t := Got(s, f)])
    ensures Plays(c, Reading(t), c', recheck)
  {
    var c1 := Advance(c, t, recheck);
    FirstPart(Session(f.session), [Size(|f.data|), Data(f.data)] + rest, c.stream);
    assert c1.stream == [Size(|f.data|), Data(f.data)] + rest;
    PlaysOne(c, Run(t), recheck);
    var c2 := Advance(c1, t, recheck);
    FirstPart(Size(|f.data|), [Data(f.data)] + rest, c1.stream);
    assert c2.stream == [Data(f.data)] + rest;
    PlaysMore(c, [Run(t)], c1, Run(t), recheck);
    c' := Advance(c2, t, recheck);
    FirstPart(Data(f.data), rest, c2.stream);
    assert c'.stream == rest && c'.wire == wire;
    PlaysMore(c, [Run(t)] + [Run(t)], c2, Run(t), recheck);
    assert c'.pcs == c.pcs[t := Got(s, f)];
  }

  /** Two frames of session s are on the stream. Thread 1, which waits for session o, takes the lock, and
      thread 0 searches the queue for session s. */
  function Opening(f1: Frame, f2: Frame, o: int): seq<Event> {
    Sending(f1) + Sending(f2) + Calls(o, f1.session)
  }

  lemma PlayOpening(f1: Frame, f2: Frame, o: int) returns (c0: Chan, c: Chan)
    ensures Init(c0) && Plays(c0, Opening(f1, f2, o), c, false)
    ensures c == Chan(false, Parts(f1) + Parts(f2), [], Some(1), map[1 := NeedSession(o), 0 := Try(f1.session)], [],
                      [f1, f2], [f1, f2], [])
  {
    c0 := Chan(false, [], [], None, map[], [], [], [], []);
    var c1 := SendFrame(c0, f1, false);
    var c2 := SendFrame(c1, f2, false);
    PlaysPlus(c0, Sending(f1), c1, Sending(f2), c2, false);
    c := PlayCalls(c2, o, f1.session);
    PlaysPlus(c0, Sending(f1) + Sending(f2), c2, Calls(o, f1.session), c, false);
    assert c.stream == Parts(f1) + Parts(f2) && c.wire == [f1, f2] && c.sent == [f1, f2];
  }

  lemma PlayCalls(c: Chan, o: int, s: int) returns (c': Chan)
    requires c.pcs == map[] && c.queue == [] && c.owner == None
    ensures Plays(c, Calls(o, s), c', false)
    ensures c' == c.(owner := Some(1), pcs := map[1 := NeedSession(o), 0 := Try(s)])
  {
    var c1 := Do(c, Call(1, o), false);
    PlaysOne(c, Call(1, o), false);
    var c2 := Do(c1, Call(0, s), false);
    PlaysMore(c, [Call(1, o)], c1, Call(0, s), false);
    var c3 := Do(c2, Run(1), false);
    PlaysMore(c, [Call(1, o)] + [Call(0, s)], c2, Run(1), false);
    var c4 := Do(c3, Run(1), false);
    PlaysMore(c, [Call(1, o)] + [Call(0, s)] + [Run(1)], c3, Run(1), false);
    c' := Do(c4, Run(0), false);
    PlaysMore(c, [Call(1, o)] + [Call(0, s)] + [Run(1)] + [Run(1)], c4, Run(0), false);
    assert c'.pcs == map[1 := NeedSession(o), 0 := Try(s)];
  }

  /** Thread 1 receives f1, puts it into the queue and gives the lock back; thread 0 takes it. */
  lemma PlayQueued(c: Chan, f1: Frame, f2: Frame, o: int) returns (c': Chan)
    requires f1.session == f2.session && o != f1.session
    requires c == Chan(false, Parts(f1) + Parts(f2), [], Some(1), map[1 := NeedSession(o), 0 := Try(f1.session)], [],
                       [f1, f2], [f1, f2], [])
    ensures Plays(c, Reading(1) + [Run(1)] + [Run(1)] + [Run(0)], c', false)
    ensures c' == Chan(false, Parts(f2), [f1], Some(0), map[1 := Look(o), 0 := NeedSession(f1.session)], [],
                       [f2], [f1, f2], [])
  {
    var c2 := PlayPut(c, f1, f2, o);
    var read := Reading(1) + [Run(1)];
    var c3 := Do(c2, Run(1), false);
    assert c3.pcs == map[1 := Look(o), 0 := Try(f1.session)] && c3.owner == None;
    PlaysMore(c, read, c2, Run(1), false);
    c' := Do(c3, Run(0), false);
    PlaysMore(c, read + [Run(1)], c3, Run(0), false);
    assert c'.pcs == map[1 := Look(o), 0 := NeedSession(f1.session)];
  }

  lemma PlayPut(c: Chan, f1: Frame, f2: Frame, o: int) returns (c': Chan)
    requires f1.session == f2.session && o != f1.session
    requires c == Chan(false, Parts(f1) + Parts(f2), [], Some(1), map[1 := NeedSession(o), 0 := Try(f1.session)], [],
                       [f1, f2], [f1, f2], [])
    ensures Plays(c, Reading(1) + [Run(1)], c', false)
    ensures c' == Chan(false, Parts(f2), [f1], Some(1), map[1 := Leave(o, None), 0 := Try(f1.session)], [],
                       [f2], [f1, f2], [])
  {
    assert c.wire == [f1] + [f2];
    var c1 := ReadFrame(c, 1, o, f1, Parts(f2), [f2], false);
    assert c1.pcs[1] == Got(o, f1);
    c' := Do(c1, Run(1), false);
    PlaysMore(c, Reading(1), c1, Run(1), false);
    assert [] + [f1] == [f1];
    assert c'.pcs == map[1 := Leave(o, None), 0 := Try(f1.session)];
  }

  /** Thread 0 receives f2 and returns it. */
  lemma PlayOvertaking(c: Chan, f1: Frame, f2: Frame, o: int) returns (c': Chan)
    requires f1.session == f2.session
    requires c == Chan(false, Parts(f2), [f1], Some(0), map[1 := Look(o), 0 := NeedSession(f1.session)], [],
                       [f2], [f1, f2], [])
    ensures Plays(c, Reading(0) + [Run(0)], c', false)
    ensures c'.taken == [f2] && c'.queue == [f1] && c'.sent == [f1, f2]
  {
    assert c.stream == Parts(f2) + [];
    assert c.wire == [f2] + [];
    var c1 := ReadFrame(c, 0, f1.session, f2, [], [], false);
    c' := Do(c1, Run(0), false);
    PlaysMore(c, Reading(0), c1, Run(0), false);
    assert c'.taken == [f2];
  }

  /** Without the second search there is a run in which f2 overtakes f1, of the same session: thread 1, of
      another session, queues f1 after thread 0 has searched the queue and before it gets the lock. */
  lemma SecondSearchNeeded(f1: Frame, f2: Frame, o: int) returns (cs: seq<Chan>, evs: seq<Event>)
    requires f1.session == f2.session && f1 != f2 && o != f1.session
    ensures IsRun(cs, evs, false) && !InOrder(cs[|evs|], f1.session)
  {
    var c0, c1 := PlayOpening(f1, f2, o);
    var c2 := PlayQueued(c1, f1, f2, o);
    var c3 := PlayOvertaking(c2, f1, f2, o);
    var b := Reading(1) + [Run(1)] + [Run(1)] + [Run(0)];
    PlaysPlus(c0, Opening(f1, f2, o), c1, b, c2, false);
    evs := Opening(f1, f2, o) + b + (Reading(0) + [Run(0)]);
    PlaysPlus(c0, Opening(f1, f2, o) + b, c2, Reading(0) + [Run(0)], c3, false);
    cs := PlaysSteps(c0, evs, c3, false);
    OutOfOrder(c3, f1, f2);
  }

  lemma OutOfOrder(c: Chan, f1: Frame, f2: Frame)
    requires f1.session == f2.session && f1 != f2
    requires c.taken == [f2] && c.queue == [f1] && c.sent == [f1, f2]
    ensures !InOrder(c, f1.session)
  {
    var s := f1.session;
    OfOne(f1, s);
    OfOne(f2, s);
    OfConcat([f1], [f2], s);
    assert c.sent == [f1] + [f2];
    assert (Of(c.taken, s) + Of(c.queue, s) + Of(Held(c), s) + Of(c.wire, s))[0] == f2;
  }

  // ----- The queue itself

  /** The data queue of a channel, used under its queue lock. */
  class DataQueue {
    var frames: seq<Frame>

    constructor ()
      ensures frames == []
    {
      frames := [];
    }

    method PushBack(f: Frame)
      modifies this
      ensures frames == old(frames) + [f]
    {
      frames := frames + [f];
    }

    /** What a thread does with the frame it has received: a frame of another session goes to the queue. */
    method HandOver(f: Frame, session: int) returns (r: Option<Frame>)
      modifies this
      ensures if f.session == session then r == Some(f) && frames == old(frames)
              else r == None && frames == old(frames) + [f]
    {
      if f.session == session {
        return Some(f);
      }
      PushBack(f);
      r := None;
    }

    /** Searches the queue from the front and erases the frame it returns. */
    method TakeFor(session: int) returns (r: Option<Frame>)
      modifies this
      ensures var i := Find(old(frames), session);
        if i < |old(frames)| then r == Some(old(frames)[i]) && frames == Without(old(frames), i)
        else r == None && frames == old(frames)
    {
      var i := 0;
      while i < |frames|
        invariant i <= |frames| && frames == old(frames)
        invariant Find(frames, session) == i + Find(frames[i..], session)
      {
        if frames[i].session == session {
          r := Some(frames[i]);
          frames := frames[..i] + frames[i + 1..];
          return;
        }
        i := i + 1;
      }
      r := None;
    }
  }
}
