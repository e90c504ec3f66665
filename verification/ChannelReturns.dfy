/** What the calls of recv return, seen from outside: the frame in each call that ends. */
module ChannelReturns {
  import opened Options
  import opened Seqs
  import opened DataChannel

  /** The frame that a step returns to a caller: a thread that was inside recv has left it with one. */
  function ReturnOf(c: Chan, e: Event, c': Chan): seq<Frame> {
    if e.Run? && e.t in c.pcs && e.t in c'.pcs && !c.pcs[e.t].Done? && c'.pcs[e.t].Done? && c'.pcs[e.t].r.Some?
    then [c'.pcs[e.t].r.value] else []
  }

  /** All frames returned in a run, in the order of the returns. */
  function Returned(cs: seq<Chan>, evs: seq<Event>): seq<Frame>
    requires |cs| == |evs| + 1
    decreases |evs|
  {
    if evs == [] then []
    else Returned(cs[..|evs|], evs[..|evs| - 1]) + ReturnOf(cs[|evs| - 1], evs[|evs| - 1], cs[|evs|])
  }

  /** The frame that the owner of the receive lock is about to return. */
  function Leaving(c: Chan): seq<Frame> {
    var pc := OwnerPc(c);
    if pc.Leave? && pc.r.Some? then [pc.r.value] else []
  }

  // ----- One step

  lemma RunOwner(c: Chan, t: nat)
    requires Exclusive(c) && t in c.pcs
    ensures Exclusive(Advance(c, t, true)) && t in Advance(c, t, true).pcs
    ensures HasLock(c.pcs[t]) <==> c.owner == Some(t)
    ensures !HasLock(c.pcs[t]) && !c.pcs[t].Try? ==> Leaving(Advance(c, t, true)) == Leaving(c)
  {
    RunExclusive(c, t, true);
    AdvanceOne(c, t, true);
  }

  /** A frame found by the first search is returned at once. */
  lemma LookMoves(c: Chan, t: nat)
    requires Exclusive(c) && t in c.pcs && c.pcs[t].Look?
    ensures var c' := Advance(c, t, true);
      c'.taken == c.taken + ReturnOf(c, Run(t), c') && Leaving(c') == Leaving(c)
  {
    RunOwner(c, t);
    assert c.taken + [] == c.taken;
  }

  lemma LeaveMoves(c: Chan, t: nat)
    requires Exclusive(c) && t in c.pcs && c.pcs[t].Leave?
    ensures var c' := Advance(c, t, true);
      c'.taken == c.taken && ReturnOf(c, Run(t), c') == Leaving(c) && Leaving(c') == []
  {
    RunOwner(c, t);
  }

  /** Any other step returns nothing, and a frame that it takes is the one to return next. */
  lemma OtherMoves(c: Chan, t: nat)
    requires Exclusive(c) && t in c.pcs && !c.pcs[t].Look? && !c.pcs[t].Leave?
    ensures var c' := Advance(c, t, true);
      && ReturnOf(c, Run(t), c') == []
      && ((c'.taken == c.taken && Leaving(c') == Leaving(c)) ||
          (c'.taken == c.taken + Leaving(c') && Leaving(c) == []))
  {
    RunOwner(c, t);
    assert c.taken + [] == c.taken;
  }

  lemma QuietMoves(c: Chan, e: Event, c': Chan)
    requires Exclusive(c) && Step(c, e, c', true) && !e.Run?
    ensures c'.taken == c.taken && Leaving(c') == Leaving(c) && ReturnOf(c, e, c') == []
  {
    if e.Call? && e.t in c.pcs {
      assert !HasLock(c.pcs[e.t]);
    }
  }

  // ----- Nothing taken is lost

  /** The frames taken are those returned and the one that is about to be returned. */
  ghost predicate Accounted(c: Chan, returned: seq<Frame>) {
    multiset(returned) + multiset(Leaving(c)) == multiset(c.taken)
  }

  lemma StepAccounted(c: Chan, e: Event, c': Chan, returned: seq<Frame>)
    requires Exclusive(c) && Step(c, e, c', true) && Accounted(c, returned)
    ensures Accounted(c', returned + ReturnOf(c, e, c'))
  {
    if !e.Run? {
      QuietMoves(c, e, c');
    } else if c.pcs[e.t].Look? {
      LookMoves(c, e.t);
    } else if c.pcs[e.t].Leave? {
      LeaveMoves(c, e.t);
    } else {
      OtherMoves(c, e.t);
    }
    assert returned + [] == returned;
  }

  lemma ReturnedStep(cs: seq<Chan>, evs: seq<Event>)
    requires |cs| == |evs| + 1 && evs != []
    ensures var m := |evs| - 1;
      Returned(cs, evs) == Returned(cs[..m + 1], evs[..m]) + ReturnOf(cs[m], evs[m], cs[m + 1])
  {
  }

  /** In every interleaving every frame taken is returned to its caller or about to be. */
  lemma {:induction false} RunReturns(cs: seq<Chan>, evs: seq<Event>)
    requires IsRun(cs, evs, true)
    ensures Accounted(cs[|evs|], Returned(cs, evs))
    decreases |evs|
  {
    if evs != [] {
      var m := |evs| - 1;
      LastStep(cs, evs, true);
      RunReturns(cs[..m + 1], evs[..m]);
      RunIsInOrder(cs[..m + 1], evs[..m]);
      ReturnedStep(cs, evs);
      StepAccounted(cs[m], evs[m], cs[m + 1], Returned(cs[..m + 1], evs[..m]));
    }
  }

  /** Seen from outside: what was sent is returned, about to be, in the queue, held, or on the wire, each frame once. */
  lemma NothingLost(cs: seq<Chan>, evs: seq<Event>, x: int)
    requires IsRun(cs, evs, true)
    ensures var c := cs[|evs|];
      multiset(Of(Returned(cs, evs), x)) + multiset(Of(Leaving(c), x)) + multiset(Of(c.queue, x))
        + multiset(Of(Held(c), x)) + multiset(Of(c.wire, x)) == multiset(Of(c.sent, x))
  {
    var c := cs[|evs|];
    RunReturns(cs, evs);
    RunIsInOrder(cs, evs);
    assert InOrder(c, x);
    OfBag(Returned(cs, evs) + Leaving(c), c.taken, x);
    OfConcat(Returned(cs, evs), Leaving(c), x);
  }

  lemma {:induction false} CountOf(a: seq<Frame>, x: int, f: Frame)
    ensures multiset(Of(a, x))[f] == if f.session == x then multiset(a)[f] else 0
  {
    if a != [] {
      assert a == [a[0]] + a[1..];
      CountOf(a[1..], x, f);
    }
  }

  lemma OfBag(a: seq<Frame>, b: seq<Frame>, x: int)
    requires multiset(a) == multiset(b)
    ensures multiset(Of(a, x)) == multiset(Of(b, x))
  {
    forall f: Frame ensures multiset(Of(a, x))[f] == multiset(Of(b, x))[f] {
      CountOf(a, x, f);
      CountOf(b, x, f);
    }
  }

  // ----- The order of the returns

  /** Thread t only ever calls recv for session own(t). */
  ghost predicate Obeys(evs: seq<Event>, own: nat -> int) {
    forall i :: 0 <= i < |evs| ==> (evs[i].Call? ==> evs[i].s == own(evs[i].t))
  }

  ghost predicate OwnSessions(c: Chan, own: nat -> int) { forall t :: t in c.pcs ==> c.pcs[t].s == own(t) }

  ghost predicate Injective(own: nat -> int) { forall t, u :: own(t) == own(u) ==> t == u }

  ghost predicate Ordered(c: Chan, returned: seq<Frame>, x: int) {
    Of(returned, x) + Of(Leaving(c), x) == Of(c.taken, x)
  }

  /** A thread keeps its session. */
  lemma StepSessions(c: Chan, e: Event, c': Chan, own: nat -> int)
    requires Step(c, e, c', true) && OwnSessions(c, own) && (e.Call? ==> e.s == own(e.t))
    ensures OwnSessions(c', own)
  {
    if e.Run? {
      AdvanceOne(c, e.t, true);
      SameSession(c, e.t);
    }
  }

  lemma SameSession(c: Chan, t: nat)
    requires t in c.pcs
    ensures t in Advance(c, t, true).pcs && Advance(c, t, true).pcs[t].s == c.pcs[t].s
  {
  }

  /** While a thread searches, nobody is about to return a frame of its session. */
  lemma NoRival(c: Chan, t: nat, own: nat -> int)
    requires Exclusive(c) && Private(c) && OwnSessions(c, own) && Injective(own) && t in c.pcs && c.pcs[t].Look?
    ensures Of(Leaving(c), c.pcs[t].s) == []
  {
    if Leaving(c) != [] {
      var u := c.owner.value;
      assert OwnFrame(c.pcs[u]) && !HasLock(c.pcs[t]);
      OfOne(Leaving(c)[0], c.pcs[t].s);
    }
  }

  lemma StepOrdered(c: Chan, e: Event, c': Chan, returned: seq<Frame>, own: nat -> int, x: int)
    requires Inv(c) && Step(c, e, c', true) && OwnSessions(c, own) && Injective(own) && Ordered(c, returned, x)
    ensures Ordered(c', returned + ReturnOf(c, e, c'), x)
  {
    var gone := ReturnOf(c, e, c');
    OfConcat(returned, gone, x);
    if !e.Run? {
      QuietMoves(c, e, c');
      assert returned + [] == returned;
    } else if c.pcs[e.t].Look? {
      LookMoves(c, e.t);
      LookOrdered(c, e.t, returned, own, x);
    } else if c.pcs[e.t].Leave? {
      LeaveMoves(c, e.t);
      assert Of(returned, x) + Of(gone, x) + [] == Of(returned, x) + Of(gone, x);
    } else {
      OtherMoves(c, e.t);
      OfConcat(c.taken, Leaving(c'), x);
      assert returned + [] == returned;
      assert Of(returned, x) + [] == Of(returned, x);
    }
  }

  lemma LookOrdered(c: Chan, t: nat, returned: seq<Frame>, own: nat -> int, x: int)
    requires Inv(c) && t in c.pcs && c.pcs[t].Look? && OwnSessions(c, own) && Injective(own) && Ordered(c, returned, x)
    ensures var gone := ReturnOf(c, Run(t), Advance(c, t, true));
      Of(returned, x) + Of(gone, x) + Of(Leaving(c), x) == Of(c.taken + gone, x)
  {
    var gone := ReturnOf(c, Run(t), Advance(c, t, true));
    OfConcat(c.taken, gone, x);
    NoRival(c, t, own);
    if gone != [] {
      OfOne(gone[0], x);
    }
    if c.pcs[t].s == x {
      assert Of(returned, x) + [] == Of(returned, x);
      assert Of(returned, x) + Of(gone, x) + [] == Of(returned, x) + Of(gone, x);
    } else {
      assert Of(gone, x) == [];
      assert Of(returned, x) + [] == Of(returned, x);
      assert Of(c.taken, x) + [] == Of(c.taken, x);
    }
  }

  lemma {:induction false} RunOrdered(cs: seq<Chan>, evs: seq<Event>, own: nat -> int, x: int)
    requires IsRun(cs, evs, true) && Obeys(evs, own) && Injective(own)
    ensures OwnSessions(cs[|evs|], own) && Ordered(cs[|evs|], Returned(cs, evs), x)
    decreases |evs|
  {
    if evs != [] {
      var m := |evs| - 1;
      LastStep(cs, evs, true);
      RunOrdered(cs[..m + 1], evs[..m], own, x);
      RunIsInOrder(cs[..m + 1], evs[..m]);
      ReturnedStep(cs, evs);
      StepSessions(cs[m], evs[m], cs[m + 1], own);
      StepOrdered(cs[m], evs[m], cs[m + 1], Returned(cs[..m + 1], evs[..m]), own, x);
    }
  }

  // ----- Every call that ends has a frame

  /** A call that has returned has a frame of its own session. */
  ghost predicate Served(c: Chan) {
    forall t :: t in c.pcs ==> ServedPc(c.pcs[t])
  }

  predicate ServedPc(pc: Pc) { pc.Done? ==> pc.r.Some? && pc.r.value.session == pc.s }

  lemma AdvanceServed(c: Chan, t: nat)
    requires t in c.pcs && ServedPc(c.pcs[t]) && OwnFrame(c.pcs[t])
    ensures t in Advance(c, t, true).pcs && ServedPc(Advance(c, t, true).pcs[t])
  {
    if c.pcs[t].Look? {
      FindIs(c.queue, c.pcs[t].s);
    }
  }

  lemma FindIs(q: seq<Frame>, s: int)
    ensures Find(q, s) <= |q| && (Find(q, s) < |q| ==> q[Find(q, s)].session == s)
  {
  }

  lemma StepServed(c: Chan, e: Event, c': Chan)
    requires Private(c) && Step(c, e, c', true) && Served(c)
    ensures Served(c')
  {
    if e.Run? {
      AdvanceOne(c, e.t, true);
      assert OwnFrame(c.pcs[e.t]);
      AdvanceServed(c, e.t);
    }
  }

  lemma {:induction false} RunServed(cs: seq<Chan>, evs: seq<Event>)
    requires IsRun(cs, evs, true)
    ensures Served(cs[|evs|])
    decreases |evs|
  {
    if evs != [] {
      var m := |evs| - 1;
      LastStep(cs, evs, true);
      RunServed(cs[..m + 1], evs[..m]);
      RunIsInOrder(cs[..m + 1], evs[..m]);
      StepServed(cs[m], evs[m], cs[m + 1]);
    }
  }

  // ----- A thread that has its frame returns it

  /** The thread returns f after k more steps of its own. */
  predicate Near(pc: Pc, f: Frame, k: nat) {
    if k == 2 then pc == Got(f.session, f)
    else if k == 1 then pc == Leave(f.session, Some(f))
    else k == 0 && pc == Done(f.session, Some(f))
  }

  function OwnRuns(evs: seq<Event>, t: nat): nat {
    if evs == [] then 0 else (if evs[0] == Run(t) then 1 else 0) + OwnRuns(evs[1..], t)
  }

  lemma OwnStep(c: Chan, t: nat, f: Frame, k: nat)
    requires t in c.pcs && 0 < k && Near(c.pcs[t], f, k)
    ensures t in Advance(c, t, true).pcs && Near(Advance(c, t, true).pcs[t], f, k - 1)
  {
  }

  lemma OtherStep(c: Chan, e: Event, c': Chan, t: nat)
    requires Step(c, e, c', true) && t in c.pcs && e != Run(t) && !(e.Call? && e.t == t)
    ensures t in c'.pcs && c'.pcs[t] == c.pcs[t]
  {
    if e.Run? {
      AdvanceOne(c, e.t, true);
    }
  }

  /** A thread that has received a frame of its session returns that frame by two steps of its own, and one that
      took it from the queue by one, whatever the others do in between. */
  lemma {:induction false} Gets(cs: seq<Chan>, evs: seq<Event>, t: nat, f: Frame, k: nat)
    requires |cs| == |evs| + 1 && forall i :: 0 <= i < |evs| ==> Step(cs[i], evs[i], cs[i + 1], true)
    requires forall i :: 0 <= i < |evs| ==> !(evs[i].Call? && evs[i].t == t)
    requires t in cs[0].pcs && Near(cs[0].pcs[t], f, k) && OwnRuns(evs, t) <= k
    ensures t in cs[|evs|].pcs && Near(cs[|evs|].pcs[t], f, k - OwnRuns(evs, t))
    decreases |evs|
  {
    if evs != [] {
      assert Step(cs[0], evs[0], cs[1], true);
      if evs[0] == Run(t) {
        OwnStep(cs[0], t, f, k);
      } else {
        OtherStep(cs[0], evs[0], cs[1], t);
      }
      forall i | 0 <= i < |evs[1..]| ensures Step(cs[1..][i], evs[1..][i], cs[1..][i + 1], true) {
        assert Step(cs[i + 1], evs[i + 1], cs[i + 2], true);
      }
      Gets(cs[1..], evs[1..], t, f, if evs[0] == Run(t) then k - 1 else k);
    }
  }

  // ----- A thread alone

  /** Steps of thread t only. */
  ghost predicate Only(evs: seq<Event>, t: nat) { forall i :: 0 <= i < |evs| ==> evs[i] == Run(t) }

  lemma PutTwice(pcs: map<nat, Pc>, t: nat, a: Pc, b: Pc)
    ensures pcs[t := a][t := b] == pcs[t := b]
  {
  }

  lemma Misses(c: Chan, t: nat, s: int)
    requires t in c.pcs && c.pcs[t] == Look(s) && Of(c.queue, s) == []
    ensures Advance(c, t, true) == c.(pcs := c.pcs[t := Try(s)])
  {
    FindNothing(c.queue, s);
  }

  lemma MissesAgain(c: Chan, t: nat, s: int)
    requires t in c.pcs && c.pcs[t] == Again(s) && Of(c.queue, s) == [] && !c.local
    ensures Advance(c, t, true) == c.(pcs := c.pcs[t := NeedSession(s)])
  {
    FindNothing(c.queue, s);
  }

  lemma Locks(c: Chan, t: nat, s: int)
    requires t in c.pcs && c.pcs[t] == Try(s) && c.owner == None
    ensures Advance(c, t, true) == c.(owner := Some(t), pcs := c.pcs[t := Again(s)])
  {
  }

  /** From the search to the stream: nothing in the queue, and the lock is free. */
  lemma SoloLocks(c: Chan, t: nat, s: int) returns (d: Chan)
    requires t in c.pcs && c.pcs[t] == Look(s) && c.owner == None && Of(c.queue, s) == [] && !c.local
    ensures Plays(c, Reading(t), d, true) && d == c.(owner := Some(t), pcs := c.pcs[t := NeedSession(s)])
  {
    var c1, c2 := c.(pcs := c.pcs[t := Try(s)]), c.(owner := Some(t), pcs := c.pcs[t := Again(s)]);
    d := c.(owner := Some(t), pcs := c.pcs[t := NeedSession(s)]);
    Misses(c, t, s);
    PlaysOne(c, Run(t), true);
    Locks(c1, t, s);
    PutTwice(c.pcs, t, Try(s), Again(s));
    PlaysMore(c, [Run(t)], c1, Run(t), true);
    MissesAgain(c2, t, s);
    PutTwice(c.pcs, t, Again(s), NeedSession(s));
    PlaysMore(c, [Run(t)] + [Run(t)], c2, Run(t), true);
  }

  lemma Hands(c: Chan, t: nat, f: Frame)
    requires t in c.pcs && c.pcs[t] == Got(f.session, f)
    ensures Advance(c, t, true) == c.(taken := c.taken + [f], pcs := c.pcs[t := Leave(f.session, Some(f))])
  {
  }

  lemma Queues(c: Chan, t: nat, s: int, f: Frame)
    requires t in c.pcs && c.pcs[t] == Got(s, f) && f.session != s
    ensures Advance(c, t, true) == c.(queue := c.queue + [f], pcs := c.pcs[t := Leave(s, None)])
  {
  }

  lemma Unlocks(c: Chan, t: nat, s: int, r: Option<Frame>)
    requires t in c.pcs && c.pcs[t] == Leave(s, r)
    ensures Advance(c, t, true) == c.(owner := None, pcs := c.pcs[t := if r.Some? then Done(s, r) else Look(s)])
  {
  }

  /** With a whole frame in hand: it is returned, or queued for somebody else. */
  lemma SoloLeaves(c: Chan, t: nat, s: int, f: Frame) returns (d: Chan)
    requires t in c.pcs && c.pcs[t] == Got(s, f)
    ensures Plays(c, [Run(t)] + [Run(t)], d, true)
    ensures d.owner == None && d.stream == c.stream && d.wire == c.wire && d.local == c.local && t in d.pcs
    ensures if f.session == s then d.queue == c.queue && d.pcs[t] == Done(s, Some(f))
      else d.queue == c.queue + [f] && d.pcs[t] == Look(s)
  {
    var c1 := Advance(c, t, true);
    PlaysOne(c, Run(t), true);
    if f.session == s {
      Hands(c, t, f);
      Unlocks(c1, t, s, Some(f));
    } else {
      Queues(c, t, s, f);
      Unlocks(c1, t, s, None);
    }
    PlaysMore(c, [Run(t)], c1, Run(t), true);
    d := Advance(c1, t, true);
  }

  /** One frame of the wire. */
  lemma SoloFrame(c: Chan, t: nat, s: int) returns (evs: seq<Event>, d: Chan)
    requires t in c.pcs && c.pcs[t] == Look(s) && c.owner == None && !c.local && Of(c.queue, s) == []
    requires c.wire != [] && c.stream == Encode(c.wire)
    ensures Plays(c, evs, d, true) && Only(evs, t) && t in d.pcs && d.owner == None && !d.local
    ensures d.wire == c.wire[1..] && d.stream == Encode(d.wire)
    ensures if c.wire[0].session == s then d.queue == c.queue && d.pcs[t] == Done(s, Some(c.wire[0]))
      else d.queue == c.queue + [c.wire[0]] && d.pcs[t] == Look(s)
  {
    var c1 := SoloLocks(c, t, s);
    assert c1.wire == [c.wire[0]] + c.wire[1..];
    var c2 := ReadFrame(c1, t, s, c.wire[0], Encode(c.wire[1..]), c.wire[1..], true);
    d := SoloLeaves(c2, t, s, c.wire[0]);
    PlaysPlus(c, Reading(t), c1, Reading(t), c2, true);
    evs := Reading(t) + Reading(t) + ([Run(t)] + [Run(t)]);
    PlaysPlus(c, Reading(t) + Reading(t), c2, [Run(t)] + [Run(t)], d, true);
  }

  /** The queue comes first. */
  lemma SoloQueue(c: Chan, t: nat, s: int) returns (d: Chan)
    requires t in c.pcs && c.pcs[t] == Look(s) && Of(c.queue, s) != []
    ensures Plays(c, [Run(t)], d, true)
    ensures t in d.pcs && d.pcs[t] == Done(s, Some(Of(c.queue, s)[0])) && d.owner == c.owner
  {
    FindNothing(c.queue, s);
    TakeFirst(c.queue, s, s);
    PlaysOne(c, Run(t), true);
    d := Advance(c, t, true);
  }

  lemma OfFirst(queue: seq<Frame>, wire: seq<Frame>, s: int)
    requires wire != [] && Of(queue, s) == []
    ensures Of(queue, s) + Of(wire, s) == Of(wire, s)
    ensures if wire[0].session == s then Of(wire, s) != [] && Of(wire, s)[0] == wire[0]
      else Of(queue + [wire[0]], s) == [] && Of(queue + [wire[0]], s) + Of(wire[1..], s) == Of(wire, s)
  {
    OfConcat(queue, [wire[0]], s);
    OfOne(wire[0], s);
  }

  /** A caller that runs alone while the lock is free returns, and with the first frame of its session that is in
      the queue or on the stream. */
  lemma {:induction false} SoloReturns(c: Chan, t: nat, s: int) returns (evs: seq<Event>, d: Chan)
    requires t in c.pcs && c.pcs[t] == Look(s) && c.owner == None
    requires c.stream == Encode(c.wire) && (c.local ==> c.wire == []) && Of(c.queue, s) + Of(c.wire, s) != []
    ensures Plays(c, evs, d, true) && Only(evs, t)
    ensures t in d.pcs && d.pcs[t] == Done(s, Some((Of(c.queue, s) + Of(c.wire, s))[0])) && d.owner == None
    decreases |c.wire|
  {
    if Of(c.queue, s) != [] {
      d := SoloQueue(c, t, s);
      evs := [Run(t)];
    } else {
      OfFirst(c.queue, c.wire, s);
      evs, d := SoloFrame(c, t, s);
      if c.wire[0].session != s {
        var more, e := SoloReturns(d, t, s);
        PlaysPlus(c, evs, d, more, e, true);
        evs, d := evs + more, e;
      }
    }
  }

  /** So in every run: a caller that starts over while the lock is free and no frame is half sent. */
  lemma AloneReturns(cs: seq<Chan>, evs: seq<Event>, t: nat, s: int) returns (more: seq<Event>, d: Chan)
    requires IsRun(cs, evs, true)
    requires var c := cs[|evs|];
      && t in c.pcs && c.pcs[t] == Look(s) && c.owner == None && c.sending == []
      && Of(c.queue, s) + Of(c.wire, s) != []
    ensures Plays(cs[|evs|], more, d, true) && Only(more, t) && t in d.pcs && d.owner == None
    ensures d.pcs[t] == Done(s, Some((Of(cs[|evs|].queue, s) + Of(cs[|evs|].wire, s))[0]))
  {
    RunIsInOrder(cs, evs);
    var c := cs[|evs|];
    assert [] + c.stream + [] == c.stream;
    more, d := SoloReturns(c, t, s);
  }

  // ----- Two threads with one session

  /** A channel to oneself: thread t locks and searches in vain; two frames come; t takes the first, and u, which
      needs no lock for its search, the second; u returns before t. */
  function Crossing(t: nat, u: nat, f1: Frame, f2: Frame): seq<Event> {
    [Call(t, f1.session)] + [Run(t)] + [Run(t)] + [Begin(f1)] + [Begin(f2)]
    + [Run(t)] + [Call(u, f1.session)] + [Run(u)]
  }

  const Empty := Chan(true, [], [], None, map[], [], [], [], [])

  lemma CrossingHalf(t: nat, f1: Frame, f2: Frame) returns (c: Chan)
    requires f1.session == f2.session
    ensures Plays(Empty, [Call(t, f1.session)] + [Run(t)] + [Run(t)] + [Begin(f1)] + [Begin(f2)], c, true)
    ensures c == Empty.(owner := Some(t), pcs := map[t := Again(f1.session)], queue := [f1, f2], sent := [f1, f2])
  {
    var s := f1.session;
    var c1 := Do(Empty, Call(t, s), true);
    PlaysOne(Empty, Call(t, s), true);
    assert c1 == Empty.(pcs := map[t := Look(s)]);
    Misses(c1, t, s);
    var c2 := Do(c1, Run(t), true);
    PlaysMore(Empty, [Call(t, s)], c1, Run(t), true);
    assert c2 == Empty.(pcs := map[t := Try(s)]);
    Locks(c2, t, s);
    var c3 := Do(c2, Run(t), true);
    PlaysMore(Empty, [Call(t, s)] + [Run(t)], c2, Run(t), true);
    var c4 := Do(c3, Begin(f1), true);
    PlaysMore(Empty, [Call(t, s)] + [Run(t)] + [Run(t)], c3, Begin(f1), true);
    c := Do(c4, Begin(f2), true);
    PlaysMore(Empty, [Call(t, s)] + [Run(t)] + [Run(t)] + [Begin(f1)], c4, Begin(f2), true);
    assert [] + [f1] + [f2] == [f1, f2];
    assert c.pcs == map[t := Again(s)];
  }

  lemma CrossingTakes(c: Chan, t: nat, u: nat, f1: Frame, f2: Frame) returns (c1: Chan, c2: Chan, c3: Chan)
    requires f1.session == f2.session && t != u
    requires c == Empty.(owner := Some(t), pcs := map[t := Again(f1.session)], queue := [f1, f2], sent := [f1, f2])
    ensures c1 == Advance(c, t, true) && c2 == At(c1, u, Look(f1.session)) && u in c2.pcs && u !in c1.pcs
    ensures c3 == Advance(c2, u, true) && ReturnOf(c2, Run(u), c3) == [f2]
    ensures c3.pcs == map[t := Leave(f1.session, Some(f1)), u := Done(f1.session, Some(f2))]
    ensures c3.queue == [] && c3.taken == [f1, f2] && c3.sent == [f1, f2] && c3.owner == Some(t) && c3.wire == []
  {
    var s := f1.session;
    assert Find([f1, f2], s) == 0 && Find([f2], s) == 0;
    c1 := Advance(c, t, true);
    assert c1.queue == [f2] && c1.taken == [f1];
    c2 := At(c1, u, Look(s));
    c3 := Advance(c2, u, true);
    assert c3.queue == [] && c3.taken == [f1, f2];
    assert c3.pcs == map[t := Leave(s, Some(f1)), u := Done(s, Some(f2))];
  }

  lemma CrossingRun(t: nat, u: nat, f1: Frame, f2: Frame) returns (cs: seq<Chan>)
    requires f1.session == f2.session && t != u
    ensures IsRun(cs, Crossing(t, u, f1, f2), true)
    ensures var c := cs[|Crossing(t, u, f1, f2)|];
      && c.taken == [f1, f2] && c.sent == [f1, f2] && c.queue == [] && c.wire == []
      && Leaving(c) == [f1] && Held(c) == []
  {
    var s := f1.session;
    var a := [Call(t, s)] + [Run(t)] + [Run(t)] + [Begin(f1)] + [Begin(f2)];
    var c := CrossingHalf(t, f1, f2);
    var c1, c2, c3 := CrossingTakes(c, t, u, f1, f2);
    PlaysMore(Empty, a, c, Run(t), true);
    PlaysMore(Empty, a + [Run(t)], c1, Call(u, s), true);
    PlaysMore(Empty, a + [Run(t)] + [Call(u, s)], c2, Run(u), true);
    assert a + [Run(t)] + [Call(u, s)] + [Run(u)] == Crossing(t, u, f1, f2);
    cs := PlaysSteps(Empty, Crossing(t, u, f1, f2), c3, true);
  }

  /** What is returned, about to be, queued, held and on the wire is what was sent, in this order. */
  ghost predicate InReturnOrder(c: Chan, returned: seq<Frame>, x: int) {
    Of(returned, x) + Of(Leaving(c), x) + Of(c.queue, x) + Of(Held(c), x) + Of(c.wire, x) == Of(c.sent, x)
  }

  /** In every run in which each thread t calls recv for session own(t) only, each session is returned in order. */
  ghost predicate KeepsOrder(own: nat -> int) {
    forall cs, evs, x | IsRun(cs, evs, true) && Obeys(evs, own) :: InReturnOrder(cs[|evs|], Returned(cs, evs), x)
  }

  lemma CrossingReturns(cs: seq<Chan>, t: nat, u: nat, f1: Frame, f2: Frame)
    requires f1.session == f2.session && f1 != f2 && IsRun(cs, Crossing(t, u, f1, f2), true)
    requires var c := cs[|Crossing(t, u, f1, f2)|];
      && c.taken == [f1, f2] && c.sent == [f1, f2] && c.queue == [] && c.wire == []
      && Leaving(c) == [f1] && Held(c) == []
    ensures Returned(cs, Crossing(t, u, f1, f2)) == [f2]
    ensures !InReturnOrder(cs[|Crossing(t, u, f1, f2)|], [f2], f1.session)
  {
    var evs := Crossing(t, u, f1, f2);
    var r := Returned(cs, evs);
    RunReturns(cs, evs);
    assert multiset(r) + multiset{f1} == multiset{f1, f2};
    assert multiset(r) == multiset{f2};
    assert |r| == |multiset(r)| == 1;
    assert r[0] in multiset(r);
    Crossed(cs[|evs|], f1, f2);
  }

  lemma Crossed(c: Chan, f1: Frame, f2: Frame)
    requires f1.session == f2.session && f1 != f2
    requires c.sent == [f1, f2] && c.queue == [] && c.wire == [] && Leaving(c) == [f1] && Held(c) == []
    ensures !InReturnOrder(c, [f2], f1.session)
  {
    var s := f1.session;
    OfOne(f1, s);
    OfOne(f2, s);
    OfConcat([f1], [f2], s);
    assert [f1, f2] == [f1] + [f2];
    assert (Of([f2], s) + Of([f1], s) + Of([], s) + Of([], s) + Of([], s))[0] == f2;
  }

  /** The order of every session survives up to the callers if and only if no two threads call for one session. */
  lemma OrderIff(own: nat -> int)
    ensures KeepsOrder(own) <==> Injective(own)
  {
    if Injective(own) {
      forall cs, evs, x | IsRun(cs, evs, true) && Obeys(evs, own)
        ensures InReturnOrder(cs[|evs|], Returned(cs, evs), x)
      {
        OrderKept(cs, evs, own, x);
      }
    } else {
      OrderLost(own);
    }
  }

  lemma OrderKept(cs: seq<Chan>, evs: seq<Event>, own: nat -> int, x: int)
    requires Injective(own) && IsRun(cs, evs, true) && Obeys(evs, own)
    ensures InReturnOrder(cs[|evs|], Returned(cs, evs), x)
  {
    RunOrdered(cs, evs, own, x);
    RunIsInOrder(cs, evs);
    assert InOrder(cs[|evs|], x);
  }

  lemma OrderLost(own: nat -> int)
    requires !Injective(own)
    ensures !KeepsOrder(own)
  {
    var t, u :| own(t) == own(u) && t != u;
    var f1, f2 := Frame(own(t), []), Frame(own(t), [0]);
    var cs := CrossingRun(t, u, f1, f2);
    CrossingReturns(cs, t, u, f1, f2);
    CrossingObeys(t, u, f1, f2, own);
  }

  lemma CrossingObeys(t: nat, u: nat, f1: Frame, f2: Frame, own: nat -> int)
    requires own(t) == own(u) == f1.session
    ensures Obeys(Crossing(t, u, f1, f2), own)
  {
  }
}
