/** The Sphere scheduler: data segments (DS) are handed to processing engines (SPE), some of
    which fail or disappear, and the client reads the results. */
module SchedulerSpec {
  import opened Options
  import opened Sets

  /** status: 0 not started, 1 in progress, 2 done, -1 failed. `spe` is the engine at work on it,
      `retry` counts the engines lost over it, `copies` its locations. */
  datatype DS = DS(status: int, spe: int, retry: nat, copies: nat)

  /** status: -1 abandoned, 0 not connected, 1 ready, 2 running. `ds` is the segment it runs. */
  datatype SPE = SPE(status: int, ds: int, progress: int)

  /** `move` says whether data may move to another place, and `dist` how far a segment is from an engine. */
  datatype Sched = Sched(ds: map<int, DS>, spes: map<int, SPE>,
                         progress: int, totalDS: int, totalSPE: int, avail: int,
                         move: bool, dist: (int, int) -> nat)

  /** What happens to the job: engine p gets segment d; the hand-over of d to p failed after p was
      connected; p is lost; p reports percentage v; p completes with percentage v, or reports an error; the client
      reads the result of d. */
  datatype Event =
    | Dispatch(p: int, d: int) | Attempt(p: int, d: int) | Lose(p: int)
    | Report(p: int, v: int) | Complete(p: int, v: int) | Fail(p: int) | Read(d: int)

  // ----- Which segment an engine gets

  const FAR: nat := 1000000000

  /** A segment that the search finds at all, whatever its status. */
  predicate InReach(m: map<int, DS>, dist: (int, int) -> nat, p: int, d: int) {
    d in m && (dist(p, d) < FAR || (dist(p, d) == FAR && m[d].copies < FAR))
  }

  /** A segment that the search can pick for engine p at all. */
  predicate Open(m: map<int, DS>, dist: (int, int) -> nat, p: int, d: int) {
    InReach(m, dist, p, d) && m[d].status == 0
  }

  /** Segment d is nearer to p than e, or as near with no more copies. */
  predicate NoWorse(m: map<int, DS>, dist: (int, int) -> nat, p: int, d: int, e: int)
    requires d in m && e in m
  {
    dist(p, d) < dist(p, e) || (dist(p, d) == dist(p, e) && m[d].copies <= m[e].copies)
  }

  /** The nearest open segment, with the fewest copies among the nearest; a segment elsewhere only
      if data may move. */
  ghost predicate Picked(m: map<int, DS>, dist: (int, int) -> nat, p: int, move: bool, r: Option<int>) {
    match r
    case Some(d) =>
      && Open(m, dist, p, d) && (move || dist(p, d) == 0)
      && forall e :: Open(m, dist, p, e) ==> NoWorse(m, dist, p, d, e)
    case None => forall e :: Open(m, dist, p, e) ==> !move && dist(p, e) != 0
  }

  /** Of some segments, the best for engine p. */
  lemma {:induction false} BestOne(m: map<int, DS>, dist: (int, int) -> nat, p: int, keys: set<int>) returns (d: int)
    requires keys != {} && forall e :: e in keys ==> Open(m, dist, p, e)
    ensures d in keys && d in m && forall e :: e in keys ==> e in m && NoWorse(m, dist, p, d, e)
    decreases keys
  {
    d := Pick(keys);
    var rest := keys - {d};
    if rest == {} {
      Only(keys, d);
    } else {
      var c := BestOne(m, dist, p, rest);
      assert forall e :: e in keys ==> e == d || e in rest;
      if NoWorse(m, dist, p, c, d) {
        d := c;
      }
    }
  }

  /** Engine p can get a segment exactly if an unstarted one is here, or somewhere and may move. */
  lemma PickExists(m: map<int, DS>, dist: (int, int) -> nat, p: int, move: bool) returns (r: Option<int>)
    ensures Picked(m, dist, p, move, r)
    ensures r.Some? <==> exists d :: Open(m, dist, p, d) && (move || dist(p, d) == 0)
  {
    var open := set d | d in m && Open(m, dist, p, d);
    assert forall e :: Open(m, dist, p, e) ==> e in open;
    r := None;
    if open != {} {
      var d := BestOne(m, dist, p, open);
      assert d in open;
      assert forall e :: Open(m, dist, p, e) ==> NoWorse(m, dist, p, d, e);
      if move || dist(p, d) == 0 {
        r := Some(d);
      }
    }
  }

  predicate Finished(d: DS) { d.status == -1 || d.status == 2 }

  ghost predicate Legal(s: Sched, e: Event) {
    match e
    case Dispatch(p, d) => Idle(s, p) && Picked(s.ds, s.dist, p, s.move, Some(d))
    case Attempt(p, d) => Idle(s, p) && Picked(s.ds, s.dist, p, s.move, Some(d))
    case Lose(p) => Running(s, p)
    case Report(p, v) => Running(s, p) && v < 100
    case Complete(p, v) => Running(s, p) && v >= 100
    case Fail(p) => Running(s, p)
    case Read(d) => d in s.ds && Finished(s.ds[d])
  }

  predicate Idle(s: Sched, p: int) { p in s.spes && (s.spes[p].status == 0 || s.spes[p].status == 1) }

  ghost predicate Running(s: Sched, p: int) { p in s.spes && s.spes[p].status == 2 && s.spes[p].ds in s.ds }

  function Max(a: int, b: int): int { if b > a then b else a }

  function Apply(s: Sched, e: Event): Sched
    requires Legal(s, e)
  {
    match e
    case Dispatch(p, d) =>
      s.(ds := s.ds[d := s.ds[d].(status := 1, spe := p)], spes := s.spes[p := SPE(2, d, 0)])
    case Attempt(p, d) =>
      s.(spes := s.spes[p := s.spes[p].(status := 1, ds := d)])
    case Lose(p) =>
      var d := s.spes[p].ds;
      var t := s.ds[d].retry + 1;
      var s' := s.(spes := s.spes[p := s.spes[p].(status := -1)], totalSPE := s.totalSPE - 1,
                   ds := s.ds[d := s.ds[d].(status := if t > 3 then -1 else 0, spe := -1, retry := t)]);
      if t > 3 then s'.(progress := s.progress + 1, avail := s.avail + 1) else s'
    case Report(p, v) => s.(spes := s.spes[p := s.spes[p].(progress := Max(s.spes[p].progress, v))])
    case Complete(p, v) =>
      var d := s.spes[p].ds;
      s.(spes := s.spes[p := s.spes[p].(status := 1, progress := Max(s.spes[p].progress, v))],
         ds := s.ds[d := s.ds[d].(status := 2)],
         progress := s.progress + 1, avail := s.avail + 1)
    case Fail(p) =>
      var d := s.spes[p].ds;
      s.(spes := s.spes[p := s.spes[p].(status := 1)], ds := s.ds[d := s.ds[d].(status := -1, spe := -1)],
         progress := s.progress + 1, avail := s.avail + 1)
    case Read(d) => s.(ds := s.ds - {d}, avail := s.avail - 1)
  }

  // ----- Invariants

  function With(m: map<int, DS>, k: int): set<int> { set d | d in m && m[d].status == k }

  function Live(m: map<int, SPE>): set<int> { set p | p in m && m[p].status != -1 }

  /** Running engines and segments in progress point at each other, one to one. */
  ghost predicate Paired(s: Sched) {
    (forall p :: p in s.spes ==> SpeOk(s, p)) && (forall d :: d in s.ds ==> DsOk(s, d))
  }

  ghost predicate SpeOk(s: Sched, p: int)
    requires p in s.spes
  {
    s.spes[p].status == 2 ==> var d := s.spes[p].ds; d in s.ds && s.ds[d].status == 1 && s.ds[d].spe == p
  }

  ghost predicate DsOk(s: Sched, d: int)
    requires d in s.ds
  {
    s.ds[d].status == 1 ==> var p := s.ds[d].spe; p in s.spes && s.spes[p].status == 2 && s.spes[p].ds == d
  }

  ghost predicate Ranges(s: Sched) {
    && (forall d :: d in s.ds ==> -1 <= s.ds[d].status <= 2)
    && (forall p :: p in s.spes ==> -1 <= s.spes[p].status <= 2)
  }

  /** The four counters mean what their names say. */
  ghost predicate Counted(s: Sched) {
    && s.progress + |With(s.ds, 0)| + |With(s.ds, 1)| == s.totalDS
    && s.avail == |With(s.ds, 2)| + |With(s.ds, -1)|
    && s.totalSPE == |Live(s.spes)|
  }

  ghost predicate Inv(s: Sched) { Paired(s) && Ranges(s) && Counted(s) }

  lemma WithUpdate(m: map<int, DS>, d: int, x: DS, k: int)
    requires d in m
    ensures |With(m[d := x], k)|
         == |With(m, k)| + (if x.status == k then 1 else 0) - (if m[d].status == k then 1 else 0)
  {
    if x.status == k {
      assert With(m[d := x], k) == With(m, k) + {d};
    } else {
      assert With(m[d := x], k) == With(m, k) - {d};
    }
  }

  lemma WithRemove(m: map<int, DS>, d: int, k: int)
    requires d in m
    ensures |With(m - {d}, k)| == |With(m, k)| - (if m[d].status == k then 1 else 0)
  {
    assert With(m - {d}, k) == With(m, k) - {d};
  }

  lemma LiveUpdate(m: map<int, SPE>, p: int, x: SPE)
    requires p in m
    ensures |Live(m[p := x])|
         == |Live(m)| + (if x.status != -1 then 1 else 0) - (if m[p].status != -1 then 1 else 0)
  {
    if x.status != -1 {
      assert Live(m[p := x]) == Live(m) + {p};
    } else {
      assert Live(m[p := x]) == Live(m) - {p};
    }
  }

  /** What an event does to the counts of segments in one state and of live engines. */
  lemma EventCounts(s: Sched, e: Event, k: int)
    requires Inv(s) && Legal(s, e)
    ensures |With(Apply(s, e).ds, k)| == |With(s.ds, k)| + Gain(s, e, k)
    ensures |Live(Apply(s, e).spes)| == |Live(s.spes)| - (if e.Lose? then 1 else 0)
  {
    var s' := Apply(s, e);
    match e
    case Dispatch(p, d) =>
      WithUpdate(s.ds, d, s'.ds[d], k);
      LiveUpdate(s.spes, p, s'.spes[p]);
    case Attempt(p, d) => LiveUpdate(s.spes, p, s'.spes[p]);
    case Lose(p) =>
      WithUpdate(s.ds, s.spes[p].ds, s'.ds[s.spes[p].ds], k);
      LiveUpdate(s.spes, p, s'.spes[p]);
    case Report(p, v) => LiveUpdate(s.spes, p, s'.spes[p]);
    case Complete(p, v) =>
      WithUpdate(s.ds, s.spes[p].ds, s'.ds[s.spes[p].ds], k);
      LiveUpdate(s.spes, p, s'.spes[p]);
    case Fail(p) =>
      WithUpdate(s.ds, s.spes[p].ds, s'.ds[s.spes[p].ds], k);
      LiveUpdate(s.spes, p, s'.spes[p]);
    case Read(d) => WithRemove(s.ds, d, k);
  }

  /** How many segments an event brings into state k. */
  function Gain(s: Sched, e: Event, k: int): int
    requires Legal(s, e)
  {
    match e
    case Dispatch(_, _) => (if k == 1 then 1 else 0) - (if k == 0 then 1 else 0)
    case Attempt(_, _) => 0
    case Report(_, _) => 0
    case Lose(p) =>
      var to := if s.ds[s.spes[p].ds].retry + 1 > 3 then -1 else 0;
      (if k == to then 1 else 0) - (if k == 1 then 1 else 0)
    case Complete(_, _) => (if k == 2 then 1 else 0) - (if k == 1 then 1 else 0)
    case Fail(_) => (if k == -1 then 1 else 0) - (if k == 1 then 1 else 0)
    case Read(d) => if s.ds[d].status == k then -1 else 0
  }

  lemma EventPaired(s: Sched, e: Event)
    requires Inv(s) && Legal(s, e)
    ensures Paired(Apply(s, e)) && Ranges(Apply(s, e))
  {
    var s' := Apply(s, e);
    forall p | p in s'.spes ensures SpeOk(s', p) && -1 <= s'.spes[p].status <= 2 {
      SpeKept(s, e, p);
    }
    forall d | d in s'.ds ensures DsOk(s', d) && -1 <= s'.ds[d].status <= 2 {
      DsKept(s, e, d);
    }
  }

  lemma SpeKept(s: Sched, e: Event, p: int)
    requires Inv(s) && Legal(s, e) && p in Apply(s, e).spes
    ensures SpeOk(Apply(s, e), p) && -1 <= Apply(s, e).spes[p].status <= 2
  {
    assert SpeOk(s, p);
    if s.spes[p].status == 2 {
      assert DsOk(s, s.spes[p].ds);
    }
    if !e.Read? {
      assert SpeOk(s, e.p);
    }
  }

  lemma DsKept(s: Sched, e: Event, d: int)
    requires Inv(s) && Legal(s, e) && d in Apply(s, e).ds
    ensures DsOk(Apply(s, e), d) && -1 <= Apply(s, e).ds[d].status <= 2
  {
    assert DsOk(s, d);
    if !e.Read? {
      assert SpeOk(s, e.p);
    }
  }

  /** Every event keeps the invariant. */
  lemma EventInv(s: Sched, e: Event)
    requires Inv(s) && Legal(s, e)
    ensures Inv(Apply(s, e))
  {
    EventPaired(s, e);
    EventCounts(s, e, 0);
    EventCounts(s, e, 1);
    EventCounts(s, e, 2);
    EventCounts(s, e, -1);
  }
}
