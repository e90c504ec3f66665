/** What the frames of the shuffle keep over whole runs, and when: exactly when no two engines of the job are
    at the same slave address. */
module ShuffleWireSafe {
  import opened Options
  import opened Seqs
  import A = ShuffleSpec
  import R = ShuffleRuns
  import opened ShuffleWire
  import opened ShuffleWireRuns

  /** The records that a run emits, as events of whole deliveries. */
  ghost function Emits(evs: seq<Event>): seq<A.Event> {
    if evs == [] then [] else EmitOf(evs[0]) + Emits(evs[1..])
  }

  ghost function EmitOf(e: Event): seq<A.Event> {
    if e.Emit? then [A.Emit(e.s, e.b, e.data, e.len)] else []
  }

  // ----- Runs

  ghost function Next(j: A.Job, c: Net, a: A.State, e: Event): A.State {
    var m := Meaning(c, e);
    if m.Some? && A.Shape(j, a) && A.Legal(j, a, m.value) then A.Apply(j, a, m.value) else a
  }

  /** One event of the net is one event of whole deliveries, or none. */
  lemma StepSim(j: A.Job, addr: seq<nat>, w: Wire, c: Net, a: A.State, e: Event)
    requires Sim(j, addr, c, a) && Can(j, addr, c, e) && OwnAddresses(addr) && Honest(w)
    ensures Meaning(c, e).Some? ==> A.Legal(j, a, Meaning(c, e).value)
    ensures Sim(j, addr, Do(j, addr, w, c, e), Next(j, c, a, e))
  {
    match e
    case Emit(_, _, _, _) => EngineStep(j, addr, w, c, a, e);
    case Deliver(_) => EngineStep(j, addr, w, c, a, e);
    case Done(_) => EngineStep(j, addr, w, c, a, e);
    case Accept(_, _) => AcceptStep(j, addr, w, c, a, e);
    case Push(_) => PushStep(j, addr, w, c, a, e);
    case Open(_) => OpenStep(j, addr, w, c, a, e);
    case Hear(l) =>
      if c.readers[l].phase.NeedIndex? {
        HearItemStep(j, addr, w, c, a, l);
      } else {
        HearPartStep(j, addr, w, c, a, l);
      }
  }

  lemma StepTrace(j: A.Job, addr: seq<nat>, w: Wire, c: Net, a: A.State, e: Event, s: nat, b: nat)
    requires Sim(j, addr, c, a) && Can(j, addr, c, e) && OwnAddresses(addr) && Honest(w) && b < |j.loc|
    ensures Sim(j, addr, Do(j, addr, w, c, e), Next(j, c, a, e))
    ensures R.Trace(j, Next(j, c, a, e), s, b) == R.Trace(j, a, s, b) + R.Emitted(EmitOf(e), s, b)
  {
    StepSim(j, addr, w, c, a, e);
    var m := Meaning(c, e);
    if m.Some? {
      R.EventStep(j, a, m.value, s, b);
      assert R.Emitted(EmitOf(e), s, b) == R.EmittedBy(m.value, s, b);
    }
  }

  lemma {:induction false} EmittedPlus(x: seq<A.Event>, y: seq<A.Event>, s: nat, b: nat)
    ensures R.Emitted(x + y, s, b) == R.Emitted(x, s, b) + R.Emitted(y, s, b)
  {
    if x == [] {
      assert x + y == y;
    } else {
      assert (x + y)[1..] == x[1..] + y;
      EmittedPlus(x[1..], y, s, b);
      Assoc(R.EmittedBy(x[0], s, b), R.Emitted(x[1..], s, b), R.Emitted(y, s, b));
    }
  }

  /** The state of whole deliveries after a run. */
  ghost function Stands(j: A.Job, addr: seq<nat>, w: Wire, c: Net, a: A.State, evs: seq<Event>): A.State
    requires Runs(j, addr, w, c, evs)
    decreases |evs|
  {
    if evs == [] then a else Stands(j, addr, w, Do(j, addr, w, c, evs[0]), Next(j, c, a, evs[0]), evs[1..])
  }

  lemma {:induction false} RunSim(j: A.Job, addr: seq<nat>, w: Wire, c: Net, a: A.State, evs: seq<Event>,
                                  s: nat, b: nat)
    requires Sim(j, addr, c, a) && Runs(j, addr, w, c, evs) && OwnAddresses(addr) && Honest(w) && b < |j.loc|
    ensures Sim(j, addr, End(j, addr, w, c, evs), Stands(j, addr, w, c, a, evs))
    ensures R.Trace(j, Stands(j, addr, w, c, a, evs), s, b) == R.Trace(j, a, s, b) + R.Emitted(Emits(evs), s, b)
    decreases |evs|
  {
    if evs != [] {
      StepTrace(j, addr, w, c, a, evs[0], s, b);
      RunSim(j, addr, w, Do(j, addr, w, c, evs[0]), Next(j, c, a, evs[0]), evs[1..], s, b);
      EmittedPlus(EmitOf(evs[0]), Emits(evs[1..]), s, b);
      Assoc(R.Trace(j, a, s, b), R.Emitted(EmitOf(evs[0]), s, b), R.Emitted(Emits(evs[1..]), s, b));
    }
  }

  lemma InitSim(j: A.Job, addr: seq<nat>)
    requires A.GoodJob(j)
    ensures Sim(j, addr, Fresh(j, |addr|), R.Init(j, |addr|))
  {
    var c, a := Fresh(j, |addr|), R.Init(j, |addr|);
    forall l | 0 <= l < j.locs ensures Link(j, addr, c, a, l) {
      assert From(Idle, []) == [];
    }
  }

  /** Frame by frame every run stands for a run of whole deliveries: what engine s emitted to bucket b has
      been filed, is on its way or is still with the engine, once each and in the order of emission. */
  lemma FramesAreDeliveries(j: A.Job, addr: seq<nat>, w: Wire, evs: seq<Event>, s: nat, b: nat)
    requires A.GoodJob(j) && Runs(j, addr, w, Fresh(j, |addr|), evs) && OwnAddresses(addr) && Honest(w) && b < |j.loc|
    ensures var a := Stands(j, addr, w, Fresh(j, |addr|), R.Init(j, |addr|), evs);
      && Sim(j, addr, End(j, addr, w, Fresh(j, |addr|), evs), a)
      && R.Trace(j, a, s, b) == R.Emitted(Emits(evs), s, b)
  {
    InitSim(j, addr);
    R.InitInv(j, |addr|, s, b);
    RunSim(j, addr, w, Fresh(j, |addr|), R.Init(j, |addr|), evs, s, b);
    Nothing(R.Trace(j, R.Init(j, |addr|), s, b), R.Emitted(Emits(evs), s, b));
  }

  lemma Nothing<T>(none: seq<T>, a: seq<T>)
    requires none == []
    ensures none + a == a
  {
  }

  // ----- The data file at any time

  /** The data of bucket b are whole records that were emitted to it, those of each engine in their order
      and without a gap. */
  ghost predicate WholeRecords(data: seq<bv8>, evs: seq<A.Event>, b: nat) {
    exists rs :: data == A.Join(rs) && Prefixes(rs, evs, b)
  }

  ghost predicate Prefixes(rs: seq<A.Record>, evs: seq<A.Event>, b: nat) {
    forall s: nat :: A.Of(rs, s) <= R.Emitted(evs, s, b)
  }

  /** The records in the data file: those filed, and those of an item of which the index is still to come. */
  ghost function Stored(bin: A.Bin, rd: Reader, q: seq<A.Item>, b: nat): seq<A.Record> {
    if rd.Busy? && q != [] && q[0].bucket == b && rd.phase.NeedIndex? then bin.recs + q[0].recs else bin.recs
  }

  lemma StoredData(bin: A.Bin, rd: Reader, q: seq<A.Item>, b: nat)
    requires A.GoodBin(bin) && (q != [] ==> A.GoodItem(q[0]))
    ensures Seen(bin, rd, q, b).data == A.Join(Stored(bin, rd, q, b))
  {
    if q != [] {
      A.JoinPlus(bin.recs, q[0].recs);
    }
  }

  lemma StoredPrefix(bin: A.Bin, rd: Reader, q: seq<A.Item>, b: nat, s: nat)
    requires q != [] ==> A.GoodItem(q[0])
    ensures A.Of(Stored(bin, rd, q, b), s) <= A.Of(bin.recs, s) + R.Sent(q, s, b)
  {
    if q != [] && q[0].bucket == b {
      A.OfPlus(bin.recs, q[0].recs, s);
      A.OfAll(q[0].recs, s, q[0].src);
      if q[0].src == s {
        Assoc(A.Of(bin.recs, s), q[0].recs, R.Sent(q[1..], s, b));
      }
    }
  }

  /** All records of bucket b are accounted for. */
  ghost predicate Traced(j: A.Job, a: A.State, evs: seq<A.Event>, b: nat)
    requires A.Shape(j, a) && b < |j.loc|
  {
    forall s: nat :: R.Trace(j, a, s, b) == R.Emitted(evs, s, b)
  }

  lemma WholeNow(j: A.Job, addr: seq<nat>, c: Net, a: A.State, evs: seq<A.Event>, b: nat)
    requires Sim(j, addr, c, a) && b < |j.loc| && Traced(j, a, evs, b)
    ensures WholeRecords(c.files[j.loc[b]][b].data, evs, b)
  {
    var l := j.loc[b];
    assert Link(j, addr, c, a, l);
    assert R.GoodQueue(j, a.queues[l], l);
    var rs := Stored(a.bins[b], c.readers[l], a.queues[l], b);
    StoredData(a.bins[b], c.readers[l], a.queues[l], b);
    forall s: nat ensures A.Of(rs, s) <= R.Emitted(evs, s, b) {
      StoredPrefix(a.bins[b], c.readers[l], a.queues[l], b, s);
      assert R.Trace(j, a, s, b) == R.Emitted(evs, s, b);
    }
    assert Prefixes(rs, evs, b);
  }

  ghost function DataFile(j: A.Job, c: Net, b: nat): seq<bv8>
    requires b < |j.loc|
  {
    var l := j.loc[b];
    if l < |c.files| && b < |c.files[l]| then c.files[l][b].data else []
  }

  /** At every moment of every run the data file of every bucket holds whole records only. */
  lemma AlwaysWhole(j: A.Job, addr: seq<nat>, w: Wire, evs: seq<Event>, b: nat)
    requires A.GoodJob(j) && Runs(j, addr, w, Fresh(j, |addr|), evs) && OwnAddresses(addr) && Honest(w) && b < |j.loc|
    ensures WholeRecords(DataFile(j, End(j, addr, w, Fresh(j, |addr|), evs), b), Emits(evs), b)
  {
    RunTraced(j, addr, w, evs, b);
    WholeNow(j, addr, End(j, addr, w, Fresh(j, |addr|), evs),
             Stands(j, addr, w, Fresh(j, |addr|), R.Init(j, |addr|), evs), Emits(evs), b);
  }

  lemma RunTraced(j: A.Job, addr: seq<nat>, w: Wire, evs: seq<Event>, b: nat)
    requires A.GoodJob(j) && Runs(j, addr, w, Fresh(j, |addr|), evs) && OwnAddresses(addr) && Honest(w) && b < |j.loc|
    ensures var a := Stands(j, addr, w, Fresh(j, |addr|), R.Init(j, |addr|), evs);
      Sim(j, addr, End(j, addr, w, Fresh(j, |addr|), evs), a) && Traced(j, a, Emits(evs), b)
  {
    var a := Stands(j, addr, w, Fresh(j, |addr|), R.Init(j, |addr|), evs);
    FramesAreDeliveries(j, addr, w, evs, 0, b);
    forall s: nat ensures R.Trace(j, a, s, b) == R.Emitted(Emits(evs), s, b) {
      FramesAreDeliveries(j, addr, w, evs, s, b);
    }
  }

  // ----- The files when all is delivered

  /** No engine holds a record, and no shuffler has a delivery to read. */
  ghost predicate Quiet(j: A.Job, addr: seq<nat>, c: Net) {
    && Shaped(j, addr, c)
    && (forall l :: 0 <= l < j.locs ==> c.readers[l].Idle? && c.anns[l] == [])
    && (forall s, b :: 0 <= s < |addr| && 0 <= b < |j.loc| ==> !c.engines[s].sending && c.engines[s].recs[b] == [])
  }

  /** The files hold exactly the records that were emitted to bucket b, those of each engine in their order,
      and an index of them. */
  ghost predicate RightFiles(p: Part, evs: seq<A.Event>, b: nat) {
    exists rs :: A.Join(rs) == p.data && p.index == (if rs == [] then [] else A.Ends(rs)) && Complete(rs, evs, b)
  }

  ghost predicate Complete(rs: seq<A.Record>, evs: seq<A.Event>, b: nat) {
    multiset(rs) == multiset(R.EmittedTo(evs, b)) && forall s: nat :: A.Of(rs, s) == R.Emitted(evs, s, b)
  }

  lemma QuietDelivered(j: A.Job, addr: seq<nat>, c: Net, a: A.State)
    requires Sim(j, addr, c, a) && Quiet(j, addr, c)
    ensures R.Delivered(j, a)
    ensures forall b :: 0 <= b < |j.loc| ==> c.files[j.loc[b]][b] == Plain(a.bins[b])
  {
    forall l | 0 <= l < j.locs ensures a.queues[l] == [] && Filed(j, c.files[l], a.bins, Idle, [], l) {
      assert Link(j, addr, c, a, l);
      assert From(c.readers[l], c.anns[l]) == [];
    }
    forall s, b: nat | 0 <= s < |a.spes| && b < |j.loc| ensures R.Held(j, a, s, b) == [] {
      assert SameEngine(c.engines[s], a.spes[s]);
    }
    forall b | 0 <= b < |j.loc| ensures c.files[j.loc[b]][b] == Plain(a.bins[b]) {
      assert Filed(j, c.files[j.loc[b]], a.bins, Idle, [], j.loc[b]);
    }
  }

  lemma CompleteNow(j: A.Job, a: A.State, evs: seq<A.Event>, b: nat)
    requires R.Inv(j, a) && b < |j.loc| && Traced(j, a, evs, b) && R.Delivered(j, a)
    ensures RightFiles(Plain(a.bins[b]), evs, b)
  {
    var rs := a.bins[b].recs;
    forall s: nat ensures A.Of(rs, s) == R.Emitted(evs, s, b) == A.Of(R.EmittedTo(evs, b), s) {
      assert R.Trace(j, a, s, b) == R.Emitted(evs, s, b);
      R.EmittedOf(evs, s, b);
      assert R.Held(j, a, s, b) == [];
    }
    A.SameOf(rs, R.EmittedTo(evs, b));
    assert A.GoodBin(a.bins[b]) && Complete(rs, evs, b);
  }

  /** Once all is delivered, the files of a bucket hold exactly the non-empty records that were emitted to it,
      those of each engine in their order, and their index. */
  lemma FramesDelivered(j: A.Job, addr: seq<nat>, w: Wire, evs: seq<Event>, b: nat)
    requires A.GoodJob(j) && Runs(j, addr, w, Fresh(j, |addr|), evs) && OwnAddresses(addr) && Honest(w) && b < |j.loc|
    requires Quiet(j, addr, End(j, addr, w, Fresh(j, |addr|), evs))
    ensures RightFiles(End(j, addr, w, Fresh(j, |addr|), evs).files[j.loc[b]][b], Emits(evs), b)
  {
    var a := Stands(j, addr, w, Fresh(j, |addr|), R.Init(j, |addr|), evs);
    RunTraced(j, addr, w, evs, b);
    QuietDelivered(j, addr, End(j, addr, w, Fresh(j, |addr|), evs), a);
    CompleteNow(j, a, Emits(evs), b);
  }
}
