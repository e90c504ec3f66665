/** The scheduler object of a Sphere client: its maps and counters, the round over the engines,
    the handler of their messages, and the reader of results. */
module Scheduler {
  import opened Options
  import opened Sets
  import opened SchedulerSpec
  import opened SchedulerRuns

  /** What the network says during one round: which running engines are still connected, which
      engines answer a start request, which accept a segment, and where the random walk over the
      segments starts. */
  datatype World = World(connected: int -> bool, starts: int -> bool, accepts: int -> bool, random: int -> nat)

  ghost predicate Sorted(ks: seq<int>, keys: set<int>) {
    && (forall i :: 0 <= i < |ks| ==> ks[i] in keys)
    && (forall i, j :: 0 <= i < j < |ks| ==> ks[i] < ks[j])
    && (forall k :: k in keys ==> k in ks)
  }

  lemma Least(keys: set<int>) returns (k: int)
    requires keys != {}
    ensures k in keys && forall j :: j in keys ==> k <= j
  {
    k := Pick(keys);
    var rest := keys - {k};
    if rest != {} {
      var m := Least(rest);
      assert forall j :: j in keys ==> j == k || j in rest;
      if m < k { k := m; }
    } else {
      Only(keys, k);
    }
  }

  /** The keys of a map in the order in which the code walks over it. */
  method Walk(keys: set<int>) returns (ks: seq<int>)
    ensures Sorted(ks, keys)
  {
    ks := [];
    var rest := keys;
    while rest != {}
      invariant rest <= keys
      invariant forall i :: 0 <= i < |ks| ==> ks[i] in keys && ks[i] !in rest
      invariant forall i, k :: 0 <= i < |ks| && k in rest ==> ks[i] < k
      invariant forall i, j :: 0 <= i < j < |ks| ==> ks[i] < ks[j]
      invariant forall k :: k in keys ==> k in ks || k in rest
      decreases rest
    {
      ghost var m := Least(rest);
      var k :| k in rest && forall j :: j in rest ==> k <= j;
      ks := ks + [k];
      rest := rest - {k};
    }
  }

  // ----- Which segment an engine gets

  /** The best of the segments looked at so far. */
  ghost predicate BestOf(m: map<int, DS>, dist: (int, int) -> nat, p: int, seen: set<int>, best: Option<int>,
                         minDist: nat, minLoc: nat) {
    match best
    case None => minDist == FAR && minLoc == FAR && forall e :: e in seen ==> !Open(m, dist, p, e)
    case Some(d) =>
      && Open(m, dist, p, d) && minDist == dist(p, d) && minLoc == m[d].copies
      && forall e :: e in seen && Open(m, dist, p, e) ==> NoWorse(m, dist, p, d, e)
  }

  /** One more segment is looked at. */
  method Consider(m: map<int, DS>, dist: (int, int) -> nat, p: int, d: int, best: Option<int>, minDist: nat,
                  minLoc: nat, ghost seen: set<int>)
    returns (best': Option<int>, minDist': nat, minLoc': nat)
    requires d in m && BestOf(m, dist, p, seen, best, minDist, minLoc)
    ensures BestOf(m, dist, p, seen + {d}, best', minDist', minLoc')
  {
    best', minDist', minLoc' := best, minDist, minLoc;
    if m[d].status == 0 {
      if dist(p, d) < minDist {
        best', minDist', minLoc' := Some(d), dist(p, d), m[d].copies;
      } else if dist(p, d) == minDist {
        if m[d].copies < minLoc {
          best', minLoc' := Some(d), m[d].copies;
        }
      }
    }
  }

  /** Walks once around the segments, from a random place on. */
  method SelectDS(m: map<int, DS>, dist: (int, int) -> nat, p: int, move: bool, random: nat)
    returns (r: Option<int>)
    ensures Picked(m, dist, p, move, r)
    ensures r.Some? ==> r.value in m && m[r.value].status == 0 && (move || dist(p, r.value) == 0)
    ensures r.Some? ==> forall e :: e in m && m[e].status == 0 ==>
      dist(p, r.value) < dist(p, e) || (dist(p, r.value) == dist(p, e) && m[r.value].copies <= m[e].copies)
    ensures r.None? ==> forall e :: e in m && m[e].status == 0 && dist(p, e) < 1000000000 ==> !move && dist(p, e) != 0
  {
    var ks := Walk(m.Keys);
    var n := |ks|;
    r := None;
    var minDist, minLoc := FAR, FAR;
    ghost var seen := {};
    var d := if n == 0 then 0 else random % n;
    ghost var start := d;
    for i := 0 to n
      invariant n > 0 ==> 0 <= d < n && (d == start + i || d == start + i - n)
      invariant forall k :: start < k <= start + i && k < n ==> ks[k] in seen
      invariant forall k :: 0 <= k <= start + i - n && k < n ==> ks[k] in seen
      invariant BestOf(m, dist, p, seen, r, minDist, minLoc)
    {
      d := d + 1;
      if d == n {
        d := 0;
      }
      r, minDist, minLoc := Consider(m, dist, p, ks[d], r, minDist, minLoc, seen);
      seen := seen + {ks[d]};
    }
    assert forall k :: 0 <= k < n ==> ks[k] in seen;
    if minDist != 0 && !move {
      r := None;
    }
  }

  // ----- The object

  /** How a read ends: no result is left, none is there and none will come, the caller has to
      wait, or the result of segment d. */
  datatype Reading = AllRead | Error | Wait | Result(d: int)

  /** A round of the scheduler turned s into s' by these events. */
  ghost predicate Trail(s: Sched, evs: seq<Event>, s': Sched) {
    Legals(s, evs) && s' == After(s, evs)
  }

  lemma TrailOne(s: Sched, evs: seq<Event>, s': Sched)
    requires |evs| == 1 && Legal(s, evs[0]) && s' == Apply(s, evs[0])
    ensures Trail(s, evs, s')
  {
    assert evs[1..] == [];
  }

  lemma OneEvent(s: Sched, evs: seq<Event>, s': Sched)
    requires Trail(s, evs, s') && |evs| == 1
    ensures Legal(s, evs[0]) && s' == Apply(s, evs[0])
  {
    assert evs[1..] == [];
    assert After(Apply(s, evs[0]), []) == Apply(s, evs[0]);
  }

  // ----- When a round gives up

  ghost predicate Gone(s: Sched, w: World, p: int) { p in s.spes && s.spes[p].status == 2 && !w.connected(p) }

  /** A segment that is unstarted when the round comes to engine p, if it has lost every engine that runs:
      those before p have given their segments back, unless for the fourth time. */
  predicate Free(s: Sched, p: int, d: int) {
    d in s.ds && (s.ds[d].status == 0 || (s.ds[d].status == 1 && s.ds[d].spe < p && s.ds[d].retry < 3))
  }

  ghost predicate NoneFor(s: Sched, p: int) {
    forall d :: Free(s, p, d) && InReach(s.ds, s.dist, p, d) ==> !s.move && s.dist(p, d) != 0
  }

  /** No running engine is connected, and for no idle one there is a segment that is here or may move. */
  ghost predicate GivesUp(s: Sched, w: World) {
    && (forall p :: p in s.spes && s.spes[p].status == 2 ==> !w.connected(p))
    && (forall p :: Idle(s, p) ==> NoneFor(s, p))
  }

  /** The state s of a round that began in s0 and has lost all running engines seen so far. */
  ghost predicate Swept(s0: Sched, s: Sched, seen: seq<int>) {
    s.ds.Keys == s0.ds.Keys && forall d :: d in s.ds ==> SweptOne(s0.ds[d], s.ds[d], seen)
  }

  /** Of the engines, it has abandoned those that ran. */
  ghost predicate Abandoned(s0: Sched, s: Sched, seen: seq<int>) {
    s.spes.Keys == s0.spes.Keys && forall p :: p in s.spes ==>
      s.spes[p] == if p in seen && s0.spes[p].status == 2 then s0.spes[p].(status := -1) else s0.spes[p]
  }

  /** A segment is given back when its engine is seen, unless for the fourth time. */
  ghost predicate SweptOne(was: DS, now: DS, seen: seq<int>) {
    && now.copies == was.copies && (was.spe !in seen ==> now == was)
    && now.status == (if was.status != 1 || was.spe !in seen then was.status else if was.retry < 3 then 0 else -1)
  }

  /** The part of a round seen so far, with no engine busy and none that got a segment. */
  ghost predicate Quiet(s0: Sched, w: World, s: Sched, seen: seq<int>) {
    && Swept(s0, s, seen) && Abandoned(s0, s, seen)
    && (forall p :: p in seen && p in s0.spes && s0.spes[p].status == 2 ==> !w.connected(p))
    && (forall p :: p in seen && Idle(s0, p) ==> NoneFor(s0, p))
  }

  /** Between two engines of a round. */
  ghost predicate Round(s0: Sched, w: World, s: Sched, seen: seq<int>, active: bool) {
    && s.spes.Keys == s0.spes.Keys && s.move == s0.move && s.dist == s0.dist
    && (forall p :: p in s.spes && p !in seen ==> s.spes[p] == s0.spes[p])
    && if active then !GivesUp(s0, w) else Quiet(s0, w, s, seen)
  }

  /** What engine p can get. */
  lemma OpenIsFree(s0: Sched, s: Sched, ks: seq<int>, i: nat, d: int)
    requires Inv(s0) && Sorted(ks, s0.spes.Keys) && i < |ks| && Swept(s0, s, ks[..i]) && s.dist == s0.dist
    ensures Open(s.ds, s.dist, ks[i], d) <==> Free(s0, ks[i], d) && InReach(s0.ds, s0.dist, ks[i], d)
  {
    if d in s0.ds && s0.ds[d].status == 1 {
      var q := s0.ds[d].spe;
      assert q in ks;
      assert q in ks[..i] <==> q < ks[i];
    }
  }

  lemma NoneForIs(s0: Sched, s: Sched, ks: seq<int>, i: nat)
    requires Inv(s0) && Sorted(ks, s0.spes.Keys) && i < |ks| && Swept(s0, s, ks[..i])
    requires s.dist == s0.dist && s.move == s0.move
    ensures NoneFor(s0, ks[i]) <==> Picked(s.ds, s.dist, ks[i], s.move, None)
  {
    forall d ensures Open(s.ds, s.dist, ks[i], d) <==> Free(s0, ks[i], d) && InReach(s0.ds, s0.dist, ks[i], d) {
      OpenIsFree(s0, s, ks, i, d);
    }
  }

  /** Losing engine p, the next one. */
  lemma LoseSwept(s0: Sched, s: Sched, ks: seq<int>, i: nat)
    requires Inv(s0) && Sorted(ks, s0.spes.Keys) && i < |ks| && Swept(s0, s, ks[..i])
    requires s0.spes[ks[i]].status == 2 && ks[i] in s.spes && s.spes[ks[i]] == s0.spes[ks[i]]
    requires Legal(s, Lose(ks[i]))
    ensures Swept(s0, Apply(s, Lose(ks[i])), ks[..i + 1])
  {
    var p := ks[i];
    var s' := Apply(s, Lose(p));
    SeenMore(ks, i);
    assert SpeOk(s0, p);
    forall d | d in s'.ds ensures SweptOne(s0.ds[d], s'.ds[d], ks[..i + 1]) {
      assert SweptOne(s0.ds[d], s.ds[d], ks[..i]);
      assert DsOk(s0, d);
      assert d != s0.spes[p].ds ==> s'.ds[d] == s.ds[d];
    }
  }

  lemma SeenMore(ks: seq<int>, i: nat)
    requires i < |ks| && forall k, j :: 0 <= k < j < |ks| ==> ks[k] < ks[j]
    ensures ks[i] !in ks[..i] && forall p :: p in ks[..i + 1] <==> p in ks[..i] || p == ks[i]
  {
    assert ks[..i + 1] == ks[..i] + [ks[i]];
  }

  /** An engine that does nothing leaves the rest as it was. */
  lemma SkipSwept(s0: Sched, s: Sched, ks: seq<int>, i: nat)
    requires Inv(s0) && Sorted(ks, s0.spes.Keys) && i < |ks| && Swept(s0, s, ks[..i]) && s0.spes[ks[i]].status != 2
    ensures Swept(s0, s, ks[..i + 1])
  {
    SeenMore(ks, i);
    forall d | d in s.ds ensures SweptOne(s0.ds[d], s.ds[d], ks[..i + 1]) {
      assert SweptOne(s0.ds[d], s.ds[d], ks[..i]);
      assert DsOk(s0, d);
    }
  }

  /** What CheckOne says of engine p in state s, unless the job is lost with it. */
  ghost predicate Checked(s: Sched, w: World, p: int, busy: bool, found: bool, evs: seq<Event>) {
    && |evs| <= 1 && p in s.spes
    && (busy <==> s.spes[p].status == 2 && w.connected(p))
    && (found <==> Idle(s, p) && !Picked(s.ds, s.dist, p, s.move, None))
    && (!found ==> evs == if Gone(s, w, p) then [Lose(p)] else [])
    && (found ==> Tried(s, w, p, evs))
  }

  /** A segment was found for engine p: it is not reached, or it gets the segment, or it does not accept it. */
  ghost predicate Tried(s: Sched, w: World, p: int, evs: seq<Event>)
    requires p in s.spes
  {
    if s.spes[p].status == 0 && !w.starts(p) then evs == []
    else |evs| == 1 && (if w.accepts(p) then evs[0].Dispatch? else evs[0].Attempt?) && evs[0].p == p
  }

  lemma OnlyOne(s: Sched, s': Sched, p: int, evs: seq<Event>)
    requires Trail(s, evs, s') && |evs| <= 1
    requires forall e :: e in evs ==> (e.Dispatch? || e.Attempt? || e.Lose?) && e.p == p
    ensures s'.spes.Keys == s.spes.Keys && s'.move == s.move && s'.dist == s.dist
    ensures forall q :: q in s.spes && q != p ==> s'.spes[q] == s.spes[q]
  {
    if evs != [] {
      assert evs[0] in evs;
      OneEvent(s, evs, s');
    }
  }

  lemma RoundOthers(s0: Sched, w: World, s: Sched, s': Sched, ks: seq<int>, i: nat, active: bool, evs: seq<Event>)
    requires i < |ks| && Round(s0, w, s, ks[..i], active) && Trail(s, evs, s') && |evs| <= 1
    requires forall e :: e in evs ==> (e.Dispatch? || e.Attempt? || e.Lose?) && e.p == ks[i]
    ensures s'.spes.Keys == s0.spes.Keys && s'.move == s0.move && s'.dist == s0.dist
    ensures forall p :: p in s'.spes && p !in ks[..i + 1] ==> s'.spes[p] == s0.spes[p]
  {
    OnlyOne(s, s', ks[i], evs);
    assert ks[..i + 1] == ks[..i] + [ks[i]];
  }

  /** One engine more: nothing to do, or it is lost. */
  lemma QuietStep(s0: Sched, w: World, s: Sched, s': Sched, ks: seq<int>, i: nat, evs: seq<Event>)
    requires Inv(s0) && Sorted(ks, s0.spes.Keys) && i < |ks| && Round(s0, w, s, ks[..i], false)
    requires Trail(s, evs, s') && Checked(s, w, ks[i], false, false, evs) && ks[i] !in ks[..i]
    ensures Quiet(s0, w, s', ks[..i + 1])
  {
    var p := ks[i];
    assert s.spes[p] == s0.spes[p];
    SeenMore(ks, i);
    if s.spes[p].status == 2 {
      OneEvent(s, evs, s');
      LoseSwept(s0, s, ks, i);
      AbandonMore(s0, s, s', ks, i);
      QuietMore(s0, w, s, s', ks, i);
    } else {
      AbandonMore(s0, s, s', ks, i);
      SkipSwept(s0, s, ks, i);
      NoneForIs(s0, s, ks, i);
      QuietMore(s0, w, s, s', ks, i);
    }
  }

  lemma AbandonMore(s0: Sched, s: Sched, s': Sched, ks: seq<int>, i: nat)
    requires i < |ks| && (forall k, j :: 0 <= k < j < |ks| ==> ks[k] < ks[j]) && ks[i] in s0.spes
    requires Abandoned(s0, s, ks[..i])
    requires s'.spes ==
      if s0.spes[ks[i]].status == 2 then s.spes[ks[i] := s.spes[ks[i]].(status := -1)] else s.spes
    ensures Abandoned(s0, s', ks[..i + 1])
  {
    SeenMore(ks, i);
  }

  lemma QuietMore(s0: Sched, w: World, s: Sched, s': Sched, ks: seq<int>, i: nat)
    requires Sorted(ks, s0.spes.Keys) && i < |ks| && Quiet(s0, w, s, ks[..i])
    requires Swept(s0, s', ks[..i + 1]) && Abandoned(s0, s', ks[..i + 1])
    requires s0.spes[ks[i]].status == 2 ==> !w.connected(ks[i])
    requires Idle(s0, ks[i]) ==> NoneFor(s0, ks[i])
    ensures Quiet(s0, w, s', ks[..i + 1])
  {
    SeenMore(ks, i);
  }

  lemma RoundStep(s0: Sched, w: World, s: Sched, s': Sched, ks: seq<int>, i: nat, active: bool,
                  busy: bool, found: bool, evs: seq<Event>)
    requires Inv(s0) && Sorted(ks, s0.spes.Keys) && i < |ks| && Round(s0, w, s, ks[..i], active)
    requires Trail(s, evs, s') && Checked(s, w, ks[i], busy, found, evs)
    ensures Round(s0, w, s', ks[..i + 1], active || busy || found)
  {
    var p := ks[i];
    assert p !in ks[..i];
    assert s.spes[p] == s0.spes[p];
    RoundOthers(s0, w, s, s', ks, i, active, evs);
    if !active && !busy && !found {
      QuietStep(s0, w, s, s', ks, i, evs);
    } else if !active && found {
      NoneForIs(s0, s, ks, i);
      assert Idle(s0, p);
    }
  }

  // ----- What a round does for each engine

  ghost predicate Fits(s: Sched, p: int, d: int) { InReach(s.ds, s.dist, p, d) && (s.move || s.dist(p, d) == 0) }

  /** What a round from s0 has done for engine p. A running engine goes on if it is connected and is abandoned if
      not; an idle one that is reached and accepts runs a segment, unless no segment fits it that was unstarted
      before the round and is so still; the others do not run. */
  ghost predicate Attended(s0: Sched, w: World, s: Sched, p: int)
    requires p in s0.spes && p in s.spes
  {
    var was, now := s0.spes[p], s.spes[p];
    if was.status == -1 then now == was
    else if was.status == 2 then now == if w.connected(p) then was else was.(status := -1)
    else if (was.status == 0 && !w.starts(p)) || !w.accepts(p) then 0 <= now.status <= 1
    else now.status == 2 || forall d :: Fits(s0, p, d) ==> !StillUnstarted(s0, s, d)
  }

  predicate StillUnstarted(s0: Sched, s: Sched, d: int) {
    d in s0.ds && d in s.ds && s0.ds[d].status == 0 && s.ds[d].status == 0
  }

  ghost predicate AllAttended(s0: Sched, w: World, s: Sched, seen: seq<int>) {
    && s.spes.Keys == s0.spes.Keys && s.ds.Keys == s0.ds.Keys
    && (forall d :: d in s.ds ==> s.ds[d].copies == s0.ds[d].copies)
    && (forall p :: p in s0.spes && p in seen ==> Attended(s0, w, s, p))
  }

  /** A segment that the round has started stays so; what it gives back was not unstarted before. */
  lemma UnstartedBefore(s0: Sched, s: Sched, s': Sched, p: int, evs: seq<Event>, d: int)
    requires Inv(s0) && p in s0.spes && p in s.spes && s.spes[p] == s0.spes[p] && Trail(s, evs, s') && |evs| <= 1
    requires forall e :: e in evs ==> (e.Dispatch? || e.Attempt? || e.Lose?) && e.p == p
    requires StillUnstarted(s0, s', d)
    ensures StillUnstarted(s0, s, d)
  {
    assert SpeOk(s0, p);
    if evs != [] {
      assert evs[0] in evs;
      OneEvent(s, evs, s');
    }
  }

  lemma SameSegments(s: Sched, s': Sched, evs: seq<Event>)
    requires Trail(s, evs, s') && |evs| <= 1 && forall e :: e in evs ==> !e.Read?
    ensures s'.ds.Keys == s.ds.Keys && forall d :: d in s.ds ==> s'.ds[d].copies == s.ds[d].copies
  {
    if evs != [] {
      assert evs[0] in evs;
      OneEvent(s, evs, s');
    }
  }

  lemma AttendStep(s0: Sched, w: World, s: Sched, s': Sched, ks: seq<int>, i: nat, busy: bool, found: bool,
                   evs: seq<Event>)
    requires Inv(s0) && Sorted(ks, s0.spes.Keys) && i < |ks| && AllAttended(s0, w, s, ks[..i])
    requires s.dist == s0.dist && s.move == s0.move && s.spes[ks[i]] == s0.spes[ks[i]]
    requires Trail(s, evs, s') && Checked(s, w, ks[i], busy, found, evs)
    ensures AllAttended(s0, w, s', ks[..i + 1])
  {
    var p := ks[i];
    SeenMore(ks, i);
    OnlyOne(s, s', p, evs);
    SameSegments(s, s', evs);
    forall q | q in s0.spes && q in ks[..i + 1] ensures Attended(s0, w, s', q) {
      if q == p {
        AttendedNow(s0, w, s, s', p, busy, found, evs);
      } else {
        AttendedStill(s0, w, s, s', p, evs, q);
      }
    }
  }

  lemma AttendedStill(s0: Sched, w: World, s: Sched, s': Sched, p: int, evs: seq<Event>, q: int)
    requires Inv(s0) && p in s0.spes && p in s.spes && s.spes[p] == s0.spes[p] && Trail(s, evs, s') && |evs| <= 1
    requires forall e :: e in evs ==> (e.Dispatch? || e.Attempt? || e.Lose?) && e.p == p
    requires q in s0.spes && q in s.spes && q in s'.spes && s'.spes[q] == s.spes[q] && Attended(s0, w, s, q)
    ensures Attended(s0, w, s', q)
  {
    forall d | StillUnstarted(s0, s', d) ensures StillUnstarted(s0, s, d) {
      UnstartedBefore(s0, s, s', p, evs, d);
    }
  }

  lemma AttendedNow(s0: Sched, w: World, s: Sched, s': Sched, p: int, busy: bool, found: bool, evs: seq<Event>)
    requires Inv(s0) && p in s0.spes && p in s.spes && s.spes[p] == s0.spes[p] && s'.spes.Keys == s.spes.Keys
    requires s.ds.Keys == s0.ds.Keys && forall d :: d in s.ds ==> s.ds[d].copies == s0.ds[d].copies
    requires s.dist == s0.dist && s.move == s0.move
    requires Trail(s, evs, s') && Checked(s, w, p, busy, found, evs)
    ensures Attended(s0, w, s', p)
  {
    assert SpeOk(s0, p);
    if evs != [] {
      OneEvent(s, evs, s');
    } else if Idle(s, p) && !found {
      forall d | Fits(s0, p, d) ensures !StillUnstarted(s0, s', d) {
        assert Open(s.ds, s.dist, p, d) <==> s.ds[d].status == 0;
      }
    }
  }

  lemma RoundEnd(s0: Sched, w: World, s: Sched, ks: seq<int>, active: bool)
    requires Inv(s0) && Sorted(ks, s0.spes.Keys) && Round(s0, w, s, ks[..|ks|], active)
    ensures active <==> !GivesUp(s0, w)
    ensures !active && Inv(s) ==> (Stuck(s) <==> Hopeless(s0))
  {
    assert ks[..|ks|] == ks;
    if !active && Inv(s) {
      GivenUpIff(s0, w, s, ks);
      CanGoOn(s);
    }
  }

  // ----- What a round that gives up leaves behind

  /** No idle engine could have an unstarted segment, nor one that comes back from a running engine. */
  ghost predicate Hopeless(s0: Sched) {
    forall p, d :: Idle(s0, p) && Returns(s0, d) && InReach(s0.ds, s0.dist, p, d) ==> !s0.move && s0.dist(p, d) != 0
  }

  /** Segment d is unstarted once all running engines are lost. */
  predicate Returns(s0: Sched, d: int) {
    d in s0.ds && (s0.ds[d].status == 0 || (s0.ds[d].status == 1 && s0.ds[d].retry < 3))
  }

  /** After a round that gives up the job has no move left if and only if the state before it was hopeless. */
  lemma GivenUpIff(s0: Sched, w: World, s: Sched, ks: seq<int>)
    requires Inv(s0) && Sorted(ks, s0.spes.Keys) && Round(s0, w, s, ks, false) && Inv(s)
    ensures !(exists e :: Legal(s, e) && Moves(e)) <==> Hopeless(s0)
  {
    CanGoOn(s);
    forall p ensures Idle(s, p) <==> Idle(s0, p) {
    }
    forall p, d ensures Open(s.ds, s.dist, p, d) <==> Returns(s0, d) && InReach(s0.ds, s0.dist, p, d) {
      ReturnsIs(s0, s, ks, d);
    }
  }

  lemma ReturnsIs(s0: Sched, s: Sched, ks: seq<int>, d: int)
    requires Inv(s0) && Sorted(ks, s0.spes.Keys) && Swept(s0, s, ks)
    ensures d in s.ds <==> d in s0.ds
    ensures d in s.ds ==> s.ds[d].copies == s0.ds[d].copies && (s.ds[d].status == 0 <==> Returns(s0, d))
  {
    if d in s.ds {
      assert SweptOne(s0.ds[d], s.ds[d], ks) && DsOk(s0, d);
    }
  }

  // A round that gives up too early

  /** Two engines and two segments, which may move. */
  function SmallJob(): Sched {
    Sched(map[0 := DS(0, -1, 0, 1), 1 := DS(0, -1, 0, 1)], map[0 := SPE(0, -1, 0), 1 := SPE(0, -1, 0)],
          0, 2, 2, 0, true, (p: int, d: int) => 0)
  }

  /** Both engines get a segment, and engine 0 completes. */
  function SmallRun(): seq<Event> { [Dispatch(0, 0), Dispatch(1, 1), Complete(0, 100)] }

  const NoneConnected := World(p => false, p => true, p => true, p => 0)

  /** Then engine 1 is lost. The round has looked at engine 0 before, gives up, and leaves a job that could go
      on: segment 1 is back, and engine 0 could take it. */
  lemma GivenUpTooEarly() returns (s0: Sched, s: Sched)
    ensures Init(SmallJob()) && Trail(SmallJob(), SmallRun(), s0) && Inv(s0)
    ensures s0.progress < s0.totalDS && GivesUp(s0, NoneConnected) && !Hopeless(s0)
    ensures Trail(s0, [Lose(1)], s) && Round(s0, NoneConnected, s, [0, 1], false)
    ensures s.progress < s.totalDS && s.totalSPE > 0 && Legal(s, Dispatch(0, 1)) && !Stuck(s)
  {
    s0 := SmallStates();
    InitInv(SmallJob());
    RunInv(SmallJob(), SmallRun());
    SmallGivesUp(s0);
    s := Apply(s0, Lose(1));
    TrailOne(s0, [Lose(1)], s);
    SmallRound(s0, s);
  }

  /** Engine 0 is idle, and engine 1 runs segment 1. */
  ghost predicate HalfDone(s0: Sched) {
    && s0.ds == map[0 := DS(2, 0, 0, 1), 1 := DS(1, 1, 0, 1)]
    && s0.spes == map[0 := SPE(1, 0, 100), 1 := SPE(2, 1, 0)]
    && s0.progress == 1 && s0.totalDS == 2 && s0.totalSPE == 2 && s0.move && s0.dist == SmallJob().dist
  }

  lemma SmallStates() returns (s0: Sched)
    ensures Init(SmallJob()) && Trail(SmallJob(), SmallRun(), s0) && HalfDone(s0)
  {
    var s := SmallJob();
    assert s.ds.Keys == {0, 1} && s.spes.Keys == {0, 1};
    var s1 := Apply(s, Dispatch(0, 0));
    TrailOne(s, [Dispatch(0, 0)], s1);
    var s2 := Apply(s1, Dispatch(1, 1));
    TrailOne(s1, [Dispatch(1, 1)], s2);
    s0 := Apply(s2, Complete(0, 100));
    TrailOne(s2, [Complete(0, 100)], s0);
    AfterConcat(s, [Dispatch(0, 0)], [Dispatch(1, 1)]);
    AfterConcat(s, [Dispatch(0, 0)] + [Dispatch(1, 1)], [Complete(0, 100)]);
    assert SmallRun() == [Dispatch(0, 0)] + [Dispatch(1, 1)] + [Complete(0, 100)];
  }

  lemma SmallGivesUp(s0: Sched)
    requires HalfDone(s0)
    ensures GivesUp(s0, NoneConnected) && !Hopeless(s0)
  {
    assert Idle(s0, 0) && Returns(s0, 1) && InReach(s0.ds, s0.dist, 0, 1);
  }

  lemma SmallRound(s0: Sched, s: Sched)
    requires HalfDone(s0) && Legal(s0, Lose(1)) && s == Apply(s0, Lose(1))
    ensures Round(s0, NoneConnected, s, [0, 1], false)
    ensures s.progress < s.totalDS && s.totalSPE > 0 && Legal(s, Dispatch(0, 1)) && !Stuck(s)
  {
    assert s.ds == map[0 := DS(2, 0, 0, 1), 1 := DS(0, -1, 1, 1)];
    assert s.spes == map[0 := SPE(1, 0, 100), 1 := SPE(-1, 1, 0)];
    assert Idle(s, 0) && Open(s.ds, s.dist, 0, 1);
  }

  ghost predicate NoneGone(s: Sched, w: World, seen: seq<int>) { forall q :: q in seen ==> !Gone(s, w, q) }

  lemma NoneGoneMore(s: Sched, w: World, ks: seq<int>, i: nat)
    requires i < |ks| && NoneGone(s, w, ks[..i]) && !Gone(s, w, ks[i])
    ensures NoneGone(s, w, ks[..i + 1])
  {
    assert ks[..i + 1] == ks[..i] + [ks[i]];
  }

  class DCClient {
    const dataMove: bool
    const distance: (int, int) -> nat
    const hasBuckets: bool
    var ds: map<int, DS>
    var spes: map<int, SPE>
    var progress: int
    var totalDS: int
    var totalSPE: int
    var avail: int
    var bucketHealth: bool

    ghost function View(): Sched
      reads this
    {
      Sched(ds, spes, progress, totalDS, totalSPE, avail, dataMove, distance)
    }

    constructor (segments: map<int, DS>, engines: map<int, SPE>, move: bool, dist: (int, int) -> nat, buckets: bool)
      requires forall d :: d in segments ==> segments[d].status == 0 && segments[d].retry == 0
      requires forall p :: p in engines ==> engines[p].status == 0
      ensures Init(View()) && ds == segments && spes == engines && bucketHealth
      ensures dataMove == move && distance == dist && hasBuckets == buckets
    {
      dataMove, distance, hasBuckets, ds, spes := move, dist, buckets, segments, engines;
      progress, totalDS, totalSPE, avail, bucketHealth := 0, |segments|, |engines|, 0, true;
    }

    /** Hands segment d to engine p, starting the engine first if need be. */
    method StartSPE(p: int, d: int, w: World) returns (res: int, ghost evs: seq<Event>)
      requires Legal(View(), Dispatch(p, d))
      modifies `ds, `spes
      ensures evs == [] || evs == [Dispatch(p, d)] || evs == [Attempt(p, d)]
      ensures evs == [] ==> View() == old(View()) && res < 0
      ensures evs != [] ==> Legal(old(View()), evs[0]) && View() == Apply(old(View()), evs[0])
      ensures evs != [] ==> res == if evs[0].Dispatch? then 1 else 0
      ensures Tried(old(View()), w, p, evs)
    {
      res, evs := 0, [];
      if spes[p].status == 0 && !w.starts(p) {
        return -1, [];
      }
      evs := [Attempt(p, d)];
      spes := spes[p := spes[p].(status := 1, ds := d)];
      if w.accepts(p) {
        evs := [Dispatch(p, d)];
        ds := ds[d := ds[d].(spe := p, status := 1)];
        spes := spes[p := spes[p].(status := 2, progress := 0)];
        res := 1;
      }
    }

    /** Dismisses a lost engine and releases its job. */
    method DismissSPE(p: int)
      requires Running(View(), p)
      modifies this
      ensures View() == Apply(old(View()), Lose(p)) && bucketHealth == old(bucketHealth)
      ensures var d := old(spes)[p].ds;
        && spes == old(spes)[p := SPE(-1, d, old(spes)[p].progress)] && totalSPE == old(totalSPE) - 1
        && ds == old(ds)[d := DS(if old(ds)[d].retry >= 3 then -1 else 0, -1, old(ds)[d].retry + 1, old(ds)[d].copies)]
        && progress - old(progress) == avail - old(avail) == if old(ds)[d].retry >= 3 then 1 else 0
    {
      spes := spes[p := spes[p].(status := -1)];
      totalSPE := totalSPE - 1;
      var d := spes[p].ds;
      ds := ds[d := ds[d].(retry := ds[d].retry + 1)];
      if ds[d].retry > 3 {
        ds := ds[d := ds[d].(status := -1)];
        progress := progress + 1;
        avail := avail + 1;
      } else {
        ds := ds[d := ds[d].(status := 0)];
      }
      ds := ds[d := ds[d].(spe := -1)];
    }

    /** An idle engine in the round may get a segment. */
    method CheckIdle(p: int, w: World) returns (found: bool, ghost evs: seq<Event>)
      requires Inv(View()) && Idle(View(), p)
      modifies `ds, `spes
      ensures Trail(old(View()), evs, View()) && |evs| <= 1 && Inv(View()) && spes.Keys == old(spes.Keys)
      ensures found <==> !Picked(old(ds), distance, p, dataMove, None)
      ensures forall e :: e in evs ==>
        (e.Dispatch? || e.Attempt?) && e.p == p && Picked(old(ds), distance, p, dataMove, Some(e.d))
      ensures if found then Tried(old(View()), w, p, evs) else evs == []
    {
      found, evs := false, [];
      ghost var s := View();
      var r := SelectDS(ds, distance, p, dataMove, w.random(p));
      if r.Some? {
        var res;
        res, evs := StartSPE(p, r.value, w);
        found := true;
        if evs != [] {
          EventInv(s, evs[0]);
          TrailOne(s, evs, View());
        }
      }
    }

    /** One engine in the round: an idle one may get a segment, a busy one may be gone. `broken`
        says that the job is lost with the engine, because the buckets on it are. */
    method CheckOne(p: int, w: World) returns (broken: bool, busy: bool, found: bool, ghost evs: seq<Event>)
      requires Inv(View()) && p in spes
      modifies this
      ensures Trail(old(View()), evs, View()) && |evs| <= 1 && Inv(View()) && spes.Keys == old(spes.Keys)
      ensures broken <==> old(spes)[p].status == 2 && !w.connected(p) && hasBuckets
      ensures bucketHealth == (old(bucketHealth) && !broken)
      ensures busy <==> old(spes)[p].status == 2 && w.connected(p)
      ensures found <==> Idle(old(View()), p) && !Picked(old(ds), distance, p, dataMove, None)
      ensures !found ==> evs == if Gone(old(View()), w, p) && !hasBuckets then [Lose(p)] else []
      ensures found ==> Tried(old(View()), w, p, evs) && forall e :: e in evs ==>
        (e.Dispatch? || e.Attempt?) && e.p == p && Picked(old(ds), distance, p, dataMove, Some(e.d))
    {
      broken, busy, found, evs := false, false, false, [];
      ghost var s := View();
      if spes[p].status == -1 {
        return;
      }
      if spes[p].status != 2 {
        found, evs := CheckIdle(p, w);
      } else if w.connected(p) {
        busy := true;
      } else if hasBuckets {
        bucketHealth := false;
        broken := true;
      } else {
        evs := [Lose(p)];
        EventInv(s, Lose(p));
        DismissSPE(p);
        TrailOne(s, evs, View());
      }
    }

    /** Between two engines of a round that began with s0. */
    ghost predicate Checking(s0: Sched, w: World, seen: seq<int>, active: bool, evs: seq<Event>)
      reads this
    {
      && Inv(View()) && Trail(s0, evs, View()) && Round(s0, w, View(), seen, active)
      && (hasBuckets ==> NoneGone(s0, w, seen)) && AllAttended(s0, w, View(), seen)
    }

    lemma CheckStart(w: World)
      requires Inv(View())
      ensures Checking(View(), w, [], false, [])
    {
    }

    /** One engine of a round. */
    method CheckNext(ks: seq<int>, i: nat, w: World, busy: bool, found: bool, ghost s0: Sched, ghost was: seq<Event>)
      returns (broken: bool, busy': bool, found': bool, ghost evs: seq<Event>)
      requires Inv(s0) && Sorted(ks, s0.spes.Keys) && i < |ks| && Checking(s0, w, ks[..i], busy || found, was)
      modifies this
      ensures broken ==> hasBuckets && Gone(s0, w, ks[i]) && Trail(s0, evs, View()) && Inv(View())
      ensures bucketHealth == (old(bucketHealth) && !broken)
      ensures !broken ==> Checking(s0, w, ks[..i + 1], busy' || found', evs)
    {
      var u, f;
      ghost var e;
      ghost var s := View();
      assert s.spes[ks[i]] == s0.spes[ks[i]];
      broken, u, f, e := CheckOne(ks[i], w);
      AfterConcat(s0, was, e);
      evs, busy', found' := was + e, busy || u, found || f;
      if !broken {
        RoundStep(s0, w, s, View(), ks, i, busy || found, u, f, e);
        AttendStep(s0, w, s, View(), ks, i, u, f, e);
        if hasBuckets {
          NoneGoneMore(s0, w, ks, i);
        }
      }
    }

    /** One round over the engines. The result is the number of engines left, or 0 when the job is given
        up: because the buckets on a lost engine are gone, or because the round found no segment for any
        engine and met no busy one. In the second case the job may still have a move: a segment that a
        lost engine gave back after an idle one had been looked at. */
    method CheckSPE(w: World) returns (r: int, ghost evs: seq<Event>)
      requires Inv(View())
      modifies this
      ensures Trail(old(View()), evs, View()) && Inv(View())
      ensures var broken := hasBuckets && exists q :: Gone(old(View()), w, q);
        && bucketHealth == (old(bucketHealth) && !broken)
        && (r == 0 <==> broken || totalSPE == 0 || (progress < totalDS && GivesUp(old(View()), w)))
        && (r == 0 || r == totalSPE)
        && (!broken && progress < totalDS && GivesUp(old(View()), w) ==> (Stuck(View()) <==> Hopeless(old(View()))))
        && (!broken ==> spes.Keys == old(spes.Keys) && forall p :: p in spes ==> Attended(old(View()), w, View(), p))
    {
      var busy, found := false, false;
      ghost var s0 := View();
      evs := [];
      var ks := Walk(spes.Keys);
      CheckStart(w);
      for i := 0 to |ks|
        invariant Checking(s0, w, ks[..i], busy || found, evs) && bucketHealth == old(bucketHealth)
      {
        var b;
        b, busy, found, evs := CheckNext(ks, i, w, busy, found, s0, evs);
        if b {
          return 0, evs;
        }
      }
      assert ks[..|ks|] == ks;
      RoundEnd(s0, w, View(), ks, busy || found);
      if !busy && !found && progress < totalDS {
        return 0, evs;
      }
      r := totalSPE;
    }

    /** Gives up the segment of an engine that reported an error. */
    method QuitDS(p: int)
      requires Running(View(), p)
      modifies this
      ensures View() == Apply(old(View()), Fail(p)) && bucketHealth == old(bucketHealth)
    {
      var d := spes[p].ds;
      ds := ds[d := ds[d].(status := -1, spe := -1)];
      spes := spes[p := spes[p].(status := 1)];
      progress := progress + 1;
      avail := avail + 1;
    }

    /** Marks the result of an engine's segment as there. */
    method ReadResult(p: int)
      requires Running(View(), p)
      modifies this
      ensures var d := old(spes)[p].ds; ds == old(ds)[d := old(ds)[d].(status := 2)]
      ensures spes == old(spes)[p := old(spes)[p].(status := 1)]
      ensures progress == old(progress) + 1 && avail == old(avail) + 1
      ensures totalDS == old(totalDS) && totalSPE == old(totalSPE) && bucketHealth == old(bucketHealth)
    {
      var d := spes[p].ds;
      ds := ds[d := ds[d].(status := 2)];
      spes := spes[p := spes[p].(status := 1)];
      progress := progress + 1;
      avail := avail + 1;
    }

    /** The event behind a message that engine p sends. */
    static function Meaning(p: int, v: int): Event {
      if v < 0 then Fail(p) else if v < 100 then Report(p, v) else Complete(p, v)
    }

    /** What a report v makes of the engine and of its segment: below 0 the segment fails, from 100 on it is
        done, and the engine is ready again; else only the progress grows. */
    static predicate Reported(was: SPE, v: int, seg: DS, seg': DS, now: SPE) {
      && now.ds == was.ds && now.progress == (if v > was.progress && v >= 0 then v else was.progress)
      && now.status == (if 0 <= v < 100 then 2 else 1)
      && seg'.retry == seg.retry && seg'.copies == seg.copies
      && seg'.status == (if v < 0 then -1 else if v < 100 then 1 else 2)
    }

    /** The handler of one message: engine p reports a percentage, or an error if it is negative. */
    method HandleReport(p: int, v: int)
      requires Inv(View())
      modifies this
      ensures Inv(View()) && bucketHealth == old(bucketHealth)
      ensures p !in old(spes) || old(spes)[p].status <= 1 ==> View() == old(View())
      ensures p in old(spes) && old(spes)[p].status == 2 ==>
        Legal(old(View()), Meaning(p, v)) && View() == Apply(old(View()), Meaning(p, v))
      ensures p in old(spes) && old(spes)[p].status == 2 ==>
        && Reported(old(spes)[p], v, old(ds)[old(spes)[p].ds], ds[old(spes)[p].ds], spes[p])
        && progress - old(progress) == avail - old(avail) == if 0 <= v < 100 then 0 else 1
    {
      if p !in spes || spes[p].status <= 1 {
        return;
      }
      ghost var s := View();
      EventInv(s, Meaning(p, v));
      if v < 0 {
        QuitDS(p);
        return;
      }
      TakeProgress(p, v);
    }

    /** A report without an error: the progress, and at 100 the result. */
    method TakeProgress(p: int, v: nat)
      requires Running(View(), p)
      modifies this
      ensures Legal(old(View()), Meaning(p, v)) && View() == Apply(old(View()), Meaning(p, v))
      ensures bucketHealth == old(bucketHealth)
    {
      if v > spes[p].progress {
        spes := spes[p := spes[p].(progress := v)];
      }
      if v < 100 {
        return;
      }
      ReadResult(p);
    }

    /** The part of read that runs without waiting: the finished segment with the least id. */
    method Read(wait: bool) returns (r: Reading)
      requires Inv(View())
      modifies this
      ensures Inv(View()) && bucketHealth == old(bucketHealth)
      ensures r.Result? <==> old(avail) > 0
      ensures r.Result? ==>
        && Legal(old(View()), SchedulerSpec.Read(r.d)) && View() == Apply(old(View()), SchedulerSpec.Read(r.d))
        && forall d :: d in old(ds) && Finished(old(ds)[d]) ==> r.d <= d
      ensures !r.Result? ==> View() == old(View())
      ensures r.Result? <==> Waiting(old(ds))
      ensures r == Error <==> !Waiting(old(ds)) && (!wait || NoEngine(old(spes)))
      ensures r == AllRead <==> old(ds) == map[] && wait && !NoEngine(old(spes))
      ensures r == Wait <==> !Waiting(old(ds)) && old(ds) != map[] && wait && !NoEngine(old(spes))
    {
      Counters(View());
      if avail == 0 {
        if !wait || totalSPE == 0 {
          return Error;
        }
        return if progress == totalDS then AllRead else Wait;
      }
      var d := FirstFinished();
      r := Result(d);
      EventInv(View(), SchedulerSpec.Read(d));
      ds := ds - {d};
      avail := avail - 1;
    }

    /** The least id of a finished segment. */
    method FirstFinished() returns (d: int)
      requires Inv(View()) && avail > 0
      ensures d in ds && Finished(ds[d]) && forall e :: e in ds && Finished(ds[e]) ==> d <= e
    {
      var ks := Walk(ds.Keys);
      var i := 0;
      while i < |ks| && !Finished(ds[ks[i]])
        invariant i <= |ks|
        invariant forall j :: 0 <= j < i ==> !Finished(ds[ks[j]])
      {
        i := i + 1;
      }
      FinishedExists(View(), ks, i);
      d := ks[i];
    }
  }

  /** Some segment has its result, or has failed. */
  ghost predicate Waiting(ds: map<int, DS>) { exists d :: d in ds && (ds[d].status == 2 || ds[d].status == -1) }

  ghost predicate NoEngine(spes: map<int, SPE>) { forall p :: p in spes ==> spes[p].status == -1 }

  /** What the three counters say. */
  lemma Counters(s: Sched)
    requires Inv(s)
    ensures s.avail >= 0 && (s.avail > 0 <==> Waiting(s.ds))
    ensures s.totalSPE == 0 <==> NoEngine(s.spes)
    ensures s.avail == 0 ==> (s.progress == s.totalDS <==> s.ds == map[])
  {
    forall d | d in s.ds ensures d in With(s.ds, s.ds[d].status) && -1 <= s.ds[d].status <= 2 {
    }
    if s.avail > 0 {
      var d := Pick(With(s.ds, 2) + With(s.ds, -1));
      assert d in s.ds;
    }
    forall p ensures p in Live(s.spes) <==> p in s.spes && s.spes[p].status != -1 {
    }
    if s.totalSPE != 0 {
      var p := Pick(Live(s.spes));
    }
    if s.progress != s.totalDS {
      var d := Pick(With(s.ds, 0) + With(s.ds, 1));
      assert d in s.ds;
    }
  }

  /** While the counter says that a result waits, there is a finished segment. */
  lemma FinishedExists(s: Sched, ks: seq<int>, i: nat)
    requires Inv(s) && s.avail != 0 && Sorted(ks, s.ds.Keys) && i <= |ks|
    requires forall j :: 0 <= j < i ==> !Finished(s.ds[ks[j]])
    ensures i < |ks|
  {
    if With(s.ds, 2) != {} {
      var d := Pick(With(s.ds, 2));
      assert d in ks;
    } else {
      assert With(s.ds, -1) != {};
      var d := Pick(With(s.ds, -1));
      assert d in ks;
    }
  }
}
