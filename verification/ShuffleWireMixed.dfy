/** Two engines of a job at one slave address share its channels, and their frames can mix. */
module ShuffleWireMixed {
  import A = ShuffleSpec
  import R = ShuffleRuns
  import opened ShuffleWire
  import opened ShuffleWireSafe

  // ----- Longer runs

  lemma {:induction false} Then(j: A.Job, addr: seq<nat>, w: Wire, c: Net, x: seq<Event>, e: Event)
    requires Runs(j, addr, w, c, x)
    requires Shaped(j, addr, End(j, addr, w, c, x)) && Can(j, addr, End(j, addr, w, c, x), e)
    ensures Runs(j, addr, w, c, x + [e])
    ensures End(j, addr, w, c, x + [e]) == Do(j, addr, w, End(j, addr, w, c, x), e)
    decreases |x|
  {
    if x == [] {
      assert x + [e] == [e];
      assert [e][1..] == [];
    } else {
      assert (x + [e])[1..] == x[1..] + [e];
      Then(j, addr, w, Do(j, addr, w, c, x[0]), x[1..], e);
    }
  }

  lemma {:induction false} EmitsPlus(x: seq<Event>, y: seq<Event>)
    ensures Emits(x + y) == Emits(x) + Emits(y)
  {
    if x == [] {
      assert x + y == y;
    } else {
      assert (x + y)[1..] == x[1..] + y;
      EmitsPlus(x[1..], y);
    }
  }

  // ----- One engine emits a record to bucket 0 and sends the number of the bucket

  const Five: seq<bv8> := [0, 0, 0, 0, 0]

  function Empty(j: A.Job): Engine { Engine(seq(|j.loc|, b => []), false, {}, 0, []) }

  function OneRecord(j: A.Job, s: nat): seq<seq<A.Record>> {
    seq(|j.loc|, b => if b == 0 then [A.Record(s, Five)] else [])
  }

  function TheItem(s: nat): A.Item {
    A.ItemOf([A.Record(s, Five)], s, 0)
  }

  lemma {:induction false} OneItem(j: A.Job, s: nat, n: nat)
    requires 0 < n <= |j.loc|
    ensures A.Items(j, OneRecord(j, s), s, j.loc[0], n) == [TheItem(s)]
  {
    if n > 1 {
      OneItem(j, s, n - 1);
    } else {
      assert A.Items(j, OneRecord(j, s), s, j.loc[0], 0) == [];
    }
  }

  /** The engine after it has sent one frame. */
  function Started(j: A.Job, s: nat, l: nat): Engine {
    Engine(OneRecord(j, s), true, {l}, l, Flatten([TheItem(s)])[1..])
  }

  ghost function Served(j: A.Job, addr: seq<nat>, c: Net, s: nat): Net
    requires Shaped(j, addr, c) && s < |addr| && j.loc != []
  {
    var l := j.loc[0];
    c.(engines := c.engines[s := Started(j, s, l)], anns := c.anns[l := c.anns[l] + [Ann(addr[s], 1)]],
       chans := c.chans[(l, addr[s]) := Chan(c, l, addr[s]) + [Number(0)]])
  }

  function Start(s: nat, l: nat): seq<Event> { [Emit(s, 0, Five, 5)] + [Deliver(s)] + [Accept(s, l)] + [Push(s)] }

  lemma EmitOne(j: A.Job, addr: seq<nat>, w: Wire, c: Net, s: nat)
    requires Shaped(j, addr, c) && s < |addr| && j.loc != [] && c.engines[s] == Empty(j)
    ensures Can(j, addr, c, Emit(s, 0, Five, 5))
    ensures Do(j, addr, w, c, Emit(s, 0, Five, 5)) ==
      c.(engines := c.engines[s := Engine(OneRecord(j, s), false, {}, 0, [])])
  {
    assert Five[..5] == Five;
    assert [] + [A.Record(s, Five)] == [A.Record(s, Five)];
    assert A.AddRecord(c.engines[s].recs, s, 0, Five, 5) == OneRecord(j, s);
  }

  lemma AcceptOne(j: A.Job, addr: seq<nat>, w: Wire, c: Net, s: nat)
    requires Shaped(j, addr, c) && s < |addr| && j.loc != []
    requires c.engines[s] == Engine(OneRecord(j, s), true, {}, 0, [])
    ensures Can(j, addr, c, Accept(s, j.loc[0]))
    ensures Do(j, addr, w, c, Accept(s, j.loc[0])) ==
      c.(engines := c.engines[s := Started(j, s, j.loc[0]).(out := Flatten([TheItem(s)]))],
         anns := c.anns[j.loc[0] := c.anns[j.loc[0]] + [Ann(addr[s], 1)]])
  {
    OneItem(j, s, |j.loc|);
    assert {} + {j.loc[0]} == {j.loc[0]};
  }

  lemma PushOne(j: A.Job, addr: seq<nat>, w: Wire, c: Net, s: nat)
    requires Shaped(j, addr, c) && s < |addr| && j.loc != []
    requires c.engines[s] == Started(j, s, j.loc[0]).(out := Flatten([TheItem(s)]))
    ensures Can(j, addr, c, Push(s))
    ensures Do(j, addr, w, c, Push(s)) ==
      c.(engines := c.engines[s := Started(j, s, j.loc[0])],
         chans := c.chans[(j.loc[0], addr[s]) := Chan(c, j.loc[0], addr[s]) + [Number(0)]])
  {
    assert Flatten([TheItem(s)])[0] == Triple(TheItem(s))[0];
  }

  lemma EmitRun(j: A.Job, addr: seq<nat>, w: Wire, c0: Net, x: seq<Event>, s: nat)
    requires Runs(j, addr, w, c0, x) && Shaped(j, addr, End(j, addr, w, c0, x)) && s < |addr| && j.loc != []
    requires End(j, addr, w, c0, x).engines[s] == Empty(j)
    ensures var y, c := x + [Emit(s, 0, Five, 5)] + [Deliver(s)], End(j, addr, w, c0, x);
      && Runs(j, addr, w, c0, y)
      && End(j, addr, w, c0, y) == c.(engines := c.engines[s := Engine(OneRecord(j, s), true, {}, 0, [])])
  {
    EmitOne(j, addr, w, End(j, addr, w, c0, x), s);
    Then(j, addr, w, c0, x, Emit(s, 0, Five, 5));
    Then(j, addr, w, c0, x + [Emit(s, 0, Five, 5)], Deliver(s));
  }

  lemma SendRun(j: A.Job, addr: seq<nat>, w: Wire, c0: Net, x: seq<Event>, s: nat, c: Net)
    requires Shaped(j, addr, c) && s < |addr| && j.loc != [] && Runs(j, addr, w, c0, x)
    requires End(j, addr, w, c0, x) == c.(engines := c.engines[s := Engine(OneRecord(j, s), true, {}, 0, [])])
    ensures var y := x + [Accept(s, j.loc[0])] + [Push(s)];
      Runs(j, addr, w, c0, y) && End(j, addr, w, c0, y) == Served(j, addr, c, s)
  {
    var l := j.loc[0];
    AcceptOne(j, addr, w, End(j, addr, w, c0, x), s);
    Then(j, addr, w, c0, x, Accept(s, l));
    PushOne(j, addr, w, End(j, addr, w, c0, x + [Accept(s, l)]), s);
    Then(j, addr, w, c0, x + [Accept(s, l)], Push(s));
  }

  lemma StartRun(j: A.Job, addr: seq<nat>, w: Wire, c0: Net, x: seq<Event>, s: nat)
    requires Runs(j, addr, w, c0, x) && Shaped(j, addr, End(j, addr, w, c0, x)) && s < |addr| && j.loc != []
    requires End(j, addr, w, c0, x).engines[s] == Empty(j)
    ensures Runs(j, addr, w, c0, x + Start(s, j.loc[0]))
    ensures End(j, addr, w, c0, x + Start(s, j.loc[0])) == Served(j, addr, End(j, addr, w, c0, x), s)
  {
    EmitRun(j, addr, w, c0, x, s);
    var y := x + [Emit(s, 0, Five, 5)] + [Deliver(s)];
    SendRun(j, addr, w, c0, y, s, End(j, addr, w, c0, x));
    assert y + [Accept(s, j.loc[0])] + [Push(s)] == x + Start(s, j.loc[0]);
  }

  // ----- The run

  /** Two engines start, and the shuffler reads what it takes for a number and its data. */
  function Mixing(s: nat, t: nat, l: nat): seq<Event> {
    Start(s, l) + Start(t, l) + [Open(l)] + [Hear(l)] + [Hear(l)]
  }

  lemma HearTwice(j: A.Job, addr: seq<nat>, w: Wire, c0: Net, x: seq<Event>, a: nat)
    requires Runs(j, addr, w, c0, x) && Shaped(j, addr, End(j, addr, w, c0, x)) && j.loc != [] && Honest(w)
    requires var c, l := End(j, addr, w, c0, x), j.loc[0];
      && c.readers[l].Idle? && c.anns[l] != [] && c.anns[l][0] == Ann(a, 1)
      && Chan(c, l, a) == [Number(0), Number(0)] && c.files[l][0] == NoPart
    ensures var y := x + [Open(j.loc[0])] + [Hear(j.loc[0])] + [Hear(j.loc[0])];
      Runs(j, addr, w, c0, y) && DataFile(j, End(j, addr, w, c0, y), 0) == w.bytes(Number(0))
  {
    var c, l := End(j, addr, w, c0, x), j.loc[0];
    Then(j, addr, w, c0, x, Open(l));
    var x1 := x + [Open(l)];
    var c1 := End(j, addr, w, c0, x1);
    assert c1.readers[l] == Busy(a, 1, NeedNumber);
    Then(j, addr, w, c0, x1, Hear(l));
    var x2 := x1 + [Hear(l)];
    var c2 := End(j, addr, w, c0, x2);
    assert c2.readers[l] == Busy(a, 1, NeedData(0)) && c2.files[l][0] == Opened(NoPart);
    assert Chan(c2, l, a) == [Number(0)];
    Then(j, addr, w, c0, x2, Hear(l));
  }

  lemma MixingRuns(j: A.Job, addr: seq<nat>, w: Wire, s: nat, t: nat)
    requires A.GoodJob(j) && j.loc != [] && Honest(w) && s < t < |addr| && addr[s] == addr[t]
    ensures Runs(j, addr, w, Fresh(j, |addr|), Mixing(s, t, j.loc[0]))
    ensures DataFile(j, End(j, addr, w, Fresh(j, |addr|), Mixing(s, t, j.loc[0])), 0) == w.bytes(Number(0))
  {
    var c0, l := Fresh(j, |addr|), j.loc[0];
    assert End(j, addr, w, c0, []) == c0;
    StartRun(j, addr, w, c0, [], s);
    assert [] + Start(s, l) == Start(s, l);
    StartRun(j, addr, w, c0, Start(s, l), t);
    HearTwice(j, addr, w, c0, Start(s, l) + Start(t, l), addr[s]);
  }

  // ----- What it did to the data file

  lemma {:induction false} JoinFives(rs: seq<A.Record>)
    requires forall i :: 0 <= i < |rs| ==> |rs[i].bytes| == 5
    ensures |A.Join(rs)| == 5 * |rs|
  {
    if rs != [] {
      JoinFives(rs[..|rs| - 1]);
    }
  }

  lemma {:induction false} InOf(rs: seq<A.Record>, i: nat)
    requires i < |rs|
    ensures rs[i] in A.Of(rs, rs[i].src)
  {
    if i > 0 {
      InOf(rs[1..], i - 1);
    }
  }

  lemma MixingEmits(s: nat, t: nat, l: nat, k: nat, i: nat)
    requires i < |R.Emitted(Emits(Mixing(s, t, l)), k, 0)|
    ensures |R.Emitted(Emits(Mixing(s, t, l)), k, 0)[i].bytes| == 5
  {
    EmitsAre(s, t, l);
    FiveEach([A.Emit(s, 0, Five, 5), A.Emit(t, 0, Five, 5)], k, i);
  }

  lemma EmitsAre(s: nat, t: nat, l: nat)
    ensures Emits(Mixing(s, t, l)) == [A.Emit(s, 0, Five, 5), A.Emit(t, 0, Five, 5)]
  {
    StartEmits(s, l);
    StartEmits(t, l);
    EmitsPlus(Start(s, l), Start(t, l));
    EmitsPlus(Start(s, l) + Start(t, l), [Open(l)]);
    EmitsPlus(Start(s, l) + Start(t, l) + [Open(l)], [Hear(l)]);
    EmitsPlus(Start(s, l) + Start(t, l) + [Open(l)] + [Hear(l)], [Hear(l)]);
  }

  lemma StartEmits(s: nat, l: nat)
    ensures Emits(Start(s, l)) == [A.Emit(s, 0, Five, 5)]
  {
    EmitsPlus([Emit(s, 0, Five, 5)], [Deliver(s)]);
    EmitsPlus([Emit(s, 0, Five, 5)] + [Deliver(s)], [Accept(s, l)]);
    EmitsPlus([Emit(s, 0, Five, 5)] + [Deliver(s)] + [Accept(s, l)], [Push(s)]);
    assert Emits([Emit(s, 0, Five, 5)]) == [A.Emit(s, 0, Five, 5)] + Emits([]);
  }

  lemma {:induction false} FiveEach(evs: seq<A.Event>, k: nat, i: nat)
    requires (forall e :: e in evs ==> e.Emit? && e.len == 5) && i < |R.Emitted(evs, k, 0)|
    ensures |R.Emitted(evs, k, 0)[i].bytes| == 5
  {
    if evs != [] && i >= |R.EmittedBy(evs[0], k, 0)| {
      FiveEach(evs[1..], k, i - |R.EmittedBy(evs[0], k, 0)|);
    }
  }

  /** No list of emitted records has four bytes. */
  lemma NotWhole(data: seq<bv8>, s: nat, t: nat, l: nat)
    requires |data| == 4
    ensures !WholeRecords(data, Emits(Mixing(s, t, l)), 0)
  {
    var evs := Emits(Mixing(s, t, l));
    forall rs: seq<A.Record> | Prefixes(rs, evs, 0) ensures A.Join(rs) != data {
      forall i | 0 <= i < |rs| ensures |rs[i].bytes| == 5 {
        InOf(rs, i);
        var k := rs[i].src;
        assert A.Of(rs, k) <= R.Emitted(evs, k, 0);
        var m :| 0 <= m < |A.Of(rs, k)| && A.Of(rs, k)[m] == rs[i];
        MixingEmits(s, t, l, k, m);
      }
      JoinFives(rs);
    }
  }

  // ----- Exactly when

  /** In every run every data file holds whole records at every moment. */
  ghost predicate KeepsRecords(j: A.Job, addr: seq<nat>, w: Wire) {
    forall evs, b: nat | Runs(j, addr, w, Fresh(j, |addr|), evs) && b < |j.loc| ::
      WholeRecords(DataFile(j, End(j, addr, w, Fresh(j, |addr|), evs), b), Emits(evs), b)
  }

  /** The records survive the shuffle exactly when no two engines of the job are at one slave address. */
  lemma RecordsKeptIff(j: A.Job, addr: seq<nat>, w: Wire)
    requires A.GoodJob(j) && j.loc != [] && Honest(w)
    ensures KeepsRecords(j, addr, w) <==> OwnAddresses(addr)
  {
    if OwnAddresses(addr) {
      forall evs, b: nat | Runs(j, addr, w, Fresh(j, |addr|), evs) && b < |j.loc|
        ensures WholeRecords(DataFile(j, End(j, addr, w, Fresh(j, |addr|), evs), b), Emits(evs), b)
      {
        AlwaysWhole(j, addr, w, evs, b);
      }
    } else {
      var s, t :| 0 <= s < t < |addr| && addr[s] == addr[t];
      MixingRuns(j, addr, w, s, t);
      NotWhole(w.bytes(Number(0)), s, t, j.loc[0]);
    }
  }
}
