/** Whole runs of the scheduler. */
module SchedulerRuns {
  import opened Options
  import opened Sets
  import opened SchedulerSpec

  ghost predicate Legals(s: Sched, evs: seq<Event>)
    decreases |evs|
  {
    evs == [] || (Legal(s, evs[0]) && Legals(Apply(s, evs[0]), evs[1..]))
  }

  ghost function After(s: Sched, evs: seq<Event>): Sched
    requires Legals(s, evs)
    decreases |evs|
  {
    if evs == [] then s else After(Apply(s, evs[0]), evs[1..])
  }

  /** A job before its first event. */
  ghost predicate Init(s: Sched) {
    && (forall d :: d in s.ds ==> s.ds[d].status == 0 && s.ds[d].retry == 0)
    && (forall p :: p in s.spes ==> s.spes[p].status == 0)
    && s.progress == 0 && s.avail == 0 && s.totalDS == |s.ds| && s.totalSPE == |s.spes|
  }

  lemma InitInv(s: Sched)
    requires Init(s)
    ensures Inv(s) && Measure(s) == 2 * (|s.ds| + |s.spes|)
  {
    AllWith(s.ds, 0);
    assert With(s.ds, 1) == {} && With(s.ds, 2) == {} && With(s.ds, -1) == {};
    assert Live(s.spes) == s.spes.Keys by {
      forall p ensures p in Live(s.spes) <==> p in s.spes.Keys {}
    }
  }

  lemma AllWith(m: map<int, DS>, k: int)
    requires forall d :: d in m ==> m[d].status == k
    ensures With(m, k) == m.Keys
  {
    forall d ensures d in With(m, k) <==> d in m.Keys {}
  }

  /** The counters and the pairing hold after every run. */
  lemma {:induction false} RunInv(s: Sched, evs: seq<Event>)
    requires Inv(s) && Legals(s, evs)
    ensures Inv(After(s, evs))
    decreases |evs|
  {
    if evs != [] {
      EventInv(s, evs[0]);
      RunInv(Apply(s, evs[0]), evs[1..]);
    }
  }

  lemma {:induction false} AfterConcat(s: Sched, a: seq<Event>, b: seq<Event>)
    requires Legals(s, a) && Legals(After(s, a), b)
    ensures Legals(s, a + b) && After(s, a + b) == After(After(s, a), b)
    decreases |a|
  {
    if a == [] {
      assert a + b == b;
    } else {
      assert (a + b)[1..] == a[1..] + b;
      AfterConcat(Apply(s, a[0]), a[1..], b);
    }
  }

  // ----- Every run is bounded

  /** Events that move the job on. */
  predicate Moves(e: Event) { e.Dispatch? || e.Lose? || e.Complete? || e.Fail? }

  function MovesIn(evs: seq<Event>): nat {
    if evs == [] then 0 else (if Moves(evs[0]) then 1 else 0) + MovesIn(evs[1..])
  }

  function Measure(s: Sched): nat {
    2 * |With(s.ds, 0)| + |With(s.ds, 1)| + 2 * |Live(s.spes)|
  }

  lemma EventMeasure(s: Sched, e: Event)
    requires Inv(s) && Legal(s, e)
    ensures if Moves(e) then Measure(Apply(s, e)) < Measure(s) else Measure(Apply(s, e)) == Measure(s)
  {
    EventCounts(s, e, 0);
    EventCounts(s, e, 1);
  }

  /** In every run at most Measure(s) events move the job on: twice the number of segments and
      engines, for a job that starts. */
  lemma {:induction false} RunBounded(s: Sched, evs: seq<Event>)
    requires Inv(s) && Legals(s, evs)
    ensures MovesIn(evs) + Measure(After(s, evs)) <= Measure(s)
    decreases |evs|
  {
    if evs != [] {
      EventInv(s, evs[0]);
      EventMeasure(s, evs[0]);
      RunBounded(Apply(s, evs[0]), evs[1..]);
    }
  }

  lemma JobBounded(s: Sched, evs: seq<Event>)
    requires Init(s) && Legals(s, evs)
    ensures MovesIn(evs) <= 2 * (|s.ds| + |s.spes|)
  {
    InitInv(s);
    RunBounded(s, evs);
  }

  // ----- When a job cannot go on

  /** No engine runs, and no idle one has an unstarted segment that is here or may move. */
  ghost predicate Stuck(s: Sched) {
    && (forall p :: p in s.spes ==> s.spes[p].status != 2)
    && (forall p, d :: Idle(s, p) && Open(s.ds, s.dist, p, d) ==> !s.move && s.dist(p, d) != 0)
  }

  /** A job has a next move exactly if it is not stuck. */
  lemma CanGoOn(s: Sched)
    requires Inv(s)
    ensures (exists e :: Legal(s, e) && Moves(e)) <==> !Stuck(s)
  {
    if !Stuck(s) {
      if p :| p in s.spes && s.spes[p].status == 2 {
        assert Legal(s, Complete(p, 100)) && Moves(Complete(p, 100));
      } else {
        var p, d :| Idle(s, p) && Open(s.ds, s.dist, p, d) && (s.move || s.dist(p, d) == 0);
        var r := PickExists(s.ds, s.dist, p, s.move);
        assert Legal(s, Dispatch(p, r.value)) && Moves(Dispatch(p, r.value));
      }
    }
    if Stuck(s) {
      forall e | Legal(s, e) ensures !Moves(e) {
      }
    }
  }

  /** One engine, and one segment at distance 5 that may not move. */
  function FarJob(): Sched {
    Sched(map[0 := DS(0, -1, 0, 1)], map[0 := SPE(0, -1, 0)], 0, 1, 1, 0, false, (p: int, d: int) => 5)
  }

  /** Such a job starts, unfinished and with an engine, and has no move. */
  lemma FarJobStuck()
    ensures Init(FarJob()) && Inv(FarJob()) && FarJob().progress < FarJob().totalDS && FarJob().totalSPE > 0
    ensures Stuck(FarJob()) && forall e :: Legal(FarJob(), e) ==> !Moves(e)
  {
    assert FarJob().ds.Keys == {0} && FarJob().spes.Keys == {0};
    InitInv(FarJob());
    CanGoOn(FarJob());
  }

  // ----- No segment is dispatched more than four times

  function Dispatches(evs: seq<Event>, d: int): nat {
    if evs == [] then 0
    else (if evs[0].Dispatch? && evs[0].d == d then 1 else 0) + Dispatches(evs[1..], d)
  }

  /** How often segment d can still be dispatched. */
  function Left(s: Sched, d: int): int {
    if d !in s.ds then 0
    else if s.ds[d].status == 0 then 4 - s.ds[d].retry
    else if s.ds[d].status == 1 then 3 - s.ds[d].retry
    else 0
  }

  ghost predicate Patient(s: Sched) {
    forall d :: d in s.ds ==> (s.ds[d].status == 0 || s.ds[d].status == 1 ==> s.ds[d].retry <= 3)
  }

  lemma EventPatient(s: Sched, e: Event, d: int)
    requires Inv(s) && Patient(s) && Legal(s, e)
    ensures Patient(Apply(s, e))
    ensures (if e.Dispatch? && e.d == d then 1 else 0) + Left(Apply(s, e), d) <= Left(s, d)
  {
  }

  lemma {:induction false} RunPatient(s: Sched, evs: seq<Event>, d: int)
    requires Inv(s) && Patient(s) && Legals(s, evs)
    ensures 0 <= Left(After(s, evs), d) <= Left(s, d) - Dispatches(evs, d)
    decreases |evs|
  {
    if evs != [] {
      EventInv(s, evs[0]);
      EventPatient(s, evs[0], d);
      RunPatient(Apply(s, evs[0]), evs[1..], d);
    }
  }

  lemma JobPatient(s: Sched, evs: seq<Event>, d: int)
    requires Init(s) && Legals(s, evs)
    ensures Dispatches(evs, d) <= 4
  {
    InitInv(s);
    RunPatient(s, evs, d);
  }

  // ----- When a segment fails

  /** How often an engine was lost at work on segment d, and how often one reported an error. */
  ghost function Losses(s: Sched, evs: seq<Event>, d: int): nat
    requires Legals(s, evs)
    decreases |evs|
  {
    if evs == [] then 0
    else (if evs[0].Lose? && s.spes[evs[0].p].ds == d then 1 else 0) + Losses(Apply(s, evs[0]), evs[1..], d)
  }

  ghost function Errors(s: Sched, evs: seq<Event>, d: int): nat
    requires Legals(s, evs)
    decreases |evs|
  {
    if evs == [] then 0
    else (if evs[0].Fail? && s.spes[evs[0].p].ds == d then 1 else 0) + Errors(Apply(s, evs[0]), evs[1..], d)
  }

  /** Segment d has been lost so often, and has failed so often. */
  ghost predicate Told(s: Sched, d: int, losses: int, errors: int) {
    d in s.ds ==>
      && s.ds[d].retry == losses && 0 <= losses <= 4 && 0 <= errors <= 1
      && (s.ds[d].status == -1 <==> losses == 4 || errors == 1)
  }

  lemma ToldStep(s: Sched, e: Event, d: int, losses: int, errors: int)
    requires Inv(s) && Legal(s, e) && Told(s, d, losses, errors)
    ensures Told(Apply(s, e), d, losses + (if e.Lose? && s.spes[e.p].ds == d then 1 else 0),
                 errors + if e.Fail? && s.spes[e.p].ds == d then 1 else 0)
  {
    if !e.Read? {
      assert SpeOk(s, e.p);
    }
  }

  lemma {:induction false} RunTold(s: Sched, evs: seq<Event>, d: int, losses: int, errors: int)
    requires Inv(s) && Legals(s, evs) && Told(s, d, losses, errors)
    ensures Told(After(s, evs), d, losses + Losses(s, evs, d), errors + Errors(s, evs, d))
    decreases |evs|
  {
    if evs != [] {
      EventInv(s, evs[0]);
      ToldStep(s, evs[0], d, losses, errors);
      RunTold(Apply(s, evs[0]), evs[1..], d,
              losses + (if evs[0].Lose? && s.spes[evs[0].p].ds == d then 1 else 0),
              errors + if evs[0].Fail? && s.spes[evs[0].p].ds == d then 1 else 0);
    }
  }

  /** A segment fails for good exactly when four engines are lost at work on it, or one reports an error. */
  lemma JobFails(s: Sched, evs: seq<Event>, d: int)
    requires Init(s) && Legals(s, evs) && d in After(s, evs).ds
    ensures After(s, evs).ds[d].status == -1 <==> Losses(s, evs, d) == 4 || Errors(s, evs, d) == 1
    ensures Losses(s, evs, d) <= 4 && Errors(s, evs, d) <= 1
  {
    InitInv(s);
    RunTold(s, evs, d, 0, 0);
  }

  // ----- Every result is handed out once

  function Reads(evs: seq<Event>): seq<int> {
    if evs == [] then [] else (if evs[0].Read? then [evs[0].d] else []) + Reads(evs[1..])
  }

  /** The client never deletes a segment that a running engine still points to. */
  lemma ReadSparesRunning(s: Sched, d: int, p: int)
    requires Inv(s) && Legal(s, Read(d)) && Running(s, p)
    ensures s.spes[p].ds != d && Running(Apply(s, Read(d)), p)
  {
  }

  lemma ReadKeys(s: Sched, e: Event)
    requires Inv(s) && Legal(s, e)
    ensures Apply(s, e).ds.Keys == if e.Read? then s.ds.Keys - {e.d} else s.ds.Keys
  {
  }

  /** Results read and segments left are the segments of the job: each is in one place, once. */
  lemma {:induction false} RunReads(s: Sched, evs: seq<Event>)
    requires Inv(s) && Legals(s, evs)
    ensures multiset(s.ds.Keys) == multiset(Reads(evs)) + multiset(After(s, evs).ds.Keys)
    decreases |evs|
  {
    if evs != [] {
      var s' := Apply(s, evs[0]);
      EventInv(s, evs[0]);
      RunReads(s', evs[1..]);
      ReadKeys(s, evs[0]);
      if evs[0].Read? {
        OneLess(s.ds.Keys, evs[0].d);
        assert Reads(evs) == [evs[0].d] + Reads(evs[1..]);
      } else {
        assert Reads(evs) == Reads(evs[1..]);
      }
    }
  }

  lemma OneLess(a: set<int>, d: int)
    requires d in a
    ensures multiset(a) == multiset{d} + multiset(a - {d})
  {
  }

  lemma NoneLeft(t: Sched)
    requires Inv(t) && t.progress == t.totalDS && t.avail == 0
    ensures t.ds.Keys == {}
  {
    assert With(t.ds, 0) == {} && With(t.ds, 1) == {} && With(t.ds, 2) == {} && With(t.ds, -1) == {};
    assert forall d :: d in t.ds ==> d in With(t.ds, t.ds[d].status);
    if t.ds.Keys != {} {
      var d := Pick(t.ds.Keys);
    }
  }

  /** When all segments are finished and no result waits, the client has read each result once. */
  lemma JobDelivers(s: Sched, evs: seq<Event>)
    requires Init(s) && Legals(s, evs)
    requires After(s, evs).progress == After(s, evs).totalDS && After(s, evs).avail == 0
    ensures multiset(Reads(evs)) == multiset(s.ds.Keys)
  {
    InitInv(s);
    RunInv(s, evs);
    RunReads(s, evs);
    NoneLeft(After(s, evs));
  }
}
