/** The shuffle frame by frame: every bucket crosses the data channel in three frames, and a shuffler reads
    the channel of the slave that has announced a delivery. Channels are per slave address, not per engine. */
module ShuffleWire {
  import opened Options
  import opened ShuffleSpec

  /** A bucket number, the data of a bucket, or its index without the leading 0. */
  datatype Frame = Number(b: nat) | Data(bytes: seq<bv8>) | Index(ends: seq<int>)

  /** How the bytes of a frame read when a number, data or an index is expected: a number has four bytes. */
  datatype Wire = Wire(number: Frame -> Option<nat>, bytes: Frame -> seq<bv8>, index: Frame -> seq<int>)

  /** Frames of the kind expected read as what they are. */
  ghost predicate Honest(w: Wire) {
    && (forall b: nat :: w.number(Number(b)) == Some(b) && |w.bytes(Number(b))| == 4)
    && (forall d :: w.bytes(Data(d)) == d)
    && (forall e :: w.index(Index(e)) == e)
  }

  // ----- A shuffler

  /** The two files of a bucket, and the length of the data as the shuffler counts it. */
  datatype Part = Part(data: seq<bv8>, index: seq<int>, offset: int)

  const NoPart := Part([], [], 0)

  /** What the shuffler expects next: a number, or the data or the index of bucket b. */
  datatype Phase = NeedNumber | NeedData(b: nat) | NeedIndex(b: nat)

  /** Busy: it reads `left` more buckets from address `from`. Lost: it has left its tables. */
  datatype Reader = Idle | Busy(from: nat, left: nat, phase: Phase) | Lost

  /** A delivery that was announced: from which address, and how many buckets. */
  datatype Ann = Ann(from: nat, num: nat)

  function Reading(from: nat, left: nat): Reader { if left == 0 then Idle else Busy(from, left, NeedNumber) }

  /** A new file gets the leading 0 of its index. */
  function Opened(p: Part): Part { if p.offset == 0 then p.(index := p.index + [0]) else p }

  function Written(p: Part, bytes: seq<bv8>): Part { p.(data := p.data + bytes) }

  function Closed(p: Part, ends: seq<int>): Part
    requires ends != []
  {
    p.(index := p.index + Shift(ends, p.offset), offset := ends[|ends| - 1] + p.offset)
  }

  /** One receive call of a shuffler that gets frame f. */
  function Heard(w: Wire, rd: Reader, parts: seq<Part>, f: Frame): (r: (Reader, seq<Part>))
    requires rd.Busy? && rd.left > 0
    ensures |r.1| == |parts|
  {
    match rd.phase
    case NeedNumber =>
      if w.number(f).None? then (Reading(rd.from, rd.left - 1), parts)
      else
        var b := w.number(f).value;
        if b >= |parts| then (Lost, parts)
        else (rd.(phase := NeedData(b)), parts[b := Opened(parts[b])])
    case NeedData(b) =>
      if b >= |parts| then (Lost, parts)
      else (rd.(phase := NeedIndex(b)), parts[b := Written(parts[b], w.bytes(f))])
    case NeedIndex(b) =>
      if b >= |parts| || w.index(f) == [] then (Lost, parts)
      else (Reading(rd.from, rd.left - 1), parts[b := Closed(parts[b], w.index(f))])
  }

  // ----- The whole job

  /** An engine: its buckets, the shufflers that have accepted its delivery, and the frames that it has not
      sent yet to shuffler `to`. */
  datatype Engine = Engine(recs: seq<seq<Record>>, sending: bool, served: set<nat>, to: nat, out: seq<Frame>)

  /** chans[(l, a)] is the channel from address a to shuffler l. */
  datatype Net = Net(engines: seq<Engine>, chans: map<(nat, nat), seq<Frame>>, anns: seq<seq<Ann>>,
                     readers: seq<Reader>, files: seq<seq<Part>>)

  function Chan(c: Net, l: nat, a: nat): seq<Frame> { if (l, a) in c.chans then c.chans[(l, a)] else [] }

  function Triple(it: Item): seq<Frame> { [Number(it.bucket), Data(it.data), Index(it.ends)] }

  function Flatten(items: seq<Item>): seq<Frame> {
    if items == [] then [] else Triple(items[0]) + Flatten(items[1..])
  }

  /** An engine emits data[..len] to bucket b; starts a delivery; shuffler l accepts its buckets; the engine
      sends its next frame; ends the delivery; shuffler l turns to the next delivery announced; or receives
      one frame. */
  datatype Event =
    | Emit(s: nat, b: int, data: seq<bv8>, len: int) | Deliver(s: nat) | Accept(s: nat, l: nat) | Push(s: nat)
    | Done(s: nat) | Open(l: nat) | Hear(l: nat)

  ghost predicate Shaped(j: Job, addr: seq<nat>, c: Net) {
    && GoodJob(j) && |c.engines| == |addr| && |c.anns| == |c.readers| == |c.files| == j.locs
    && (forall s :: 0 <= s < |c.engines| ==> |c.engines[s].recs| == |j.loc|)
    && (forall l :: 0 <= l < j.locs ==> |c.files[l]| == |j.loc|)
  }

  ghost predicate Can(j: Job, addr: seq<nat>, c: Net, e: Event)
    requires Shaped(j, addr, c)
  {
    match e
    case Emit(s, b, data, len) => s < |addr| && !c.engines[s].sending && len <= |data|
    case Deliver(s) => s < |addr| && !c.engines[s].sending
    case Accept(s, l) =>
      s < |addr| && c.engines[s].sending && l !in c.engines[s].served && l < j.locs && c.engines[s].out == []
    case Push(s) => s < |addr| && c.engines[s].out != []
    case Done(s) =>
      && s < |addr| && c.engines[s].sending && c.engines[s].out == []
      && forall l :: 0 <= l < j.locs ==> l in c.engines[s].served
    case Open(l) => l < j.locs && c.readers[l].Idle? && c.anns[l] != []
    case Hear(l) => l < j.locs && c.readers[l].Busy? && c.readers[l].left > 0 && Chan(c, l, c.readers[l].from) != []
  }

  function Do(j: Job, addr: seq<nat>, w: Wire, c: Net, e: Event): Net
    requires Shaped(j, addr, c) && Can(j, addr, c, e)
  {
    match e
    case Emit(s, b, data, len) =>
      var p := c.engines[s];
      c.(engines := c.engines[s := p.(recs := AddRecord(p.recs, s, b, data, len))])
    case Deliver(s) => c.(engines := c.engines[s := c.engines[s].(sending := true, served := {})])
    case Accept(s, l) =>
      var p := c.engines[s];
      var items := Items(j, p.recs, s, l, |j.loc|);
      c.(engines := c.engines[s := p.(served := p.served + {l}, to := l, out := Flatten(items))],
         anns := c.anns[l := c.anns[l] + [Ann(addr[s], |items|)]])
    case Push(s) =>
      var p := c.engines[s];
      c.(engines := c.engines[s := p.(out := p.out[1..])],
         chans := c.chans[(p.to, addr[s]) := Chan(c, p.to, addr[s]) + [p.out[0]]])
    case Done(s) => c.(engines := c.engines[s := Engine(seq(|j.loc|, b => []), false, {}, 0, [])])
    case Open(l) =>
      var a := c.anns[l][0];
      c.(anns := c.anns[l := c.anns[l][1..]], readers := c.readers[l := Reading(a.from, a.num)])
    case Hear(l) =>
      var from := c.readers[l].from;
      var r := Heard(w, c.readers[l], c.files[l], Chan(c, l, from)[0]);
      c.(chans := c.chans[(l, from) := Chan(c, l, from)[1..]], readers := c.readers[l := r.0],
         files := c.files[l := r.1])
  }

  ghost predicate Runs(j: Job, addr: seq<nat>, w: Wire, c: Net, evs: seq<Event>)
    decreases |evs|
  {
    evs == []
    || (Shaped(j, addr, c) && Can(j, addr, c, evs[0]) && Runs(j, addr, w, Do(j, addr, w, c, evs[0]), evs[1..]))
  }

  ghost function End(j: Job, addr: seq<nat>, w: Wire, c: Net, evs: seq<Event>): Net
    requires Runs(j, addr, w, c, evs)
    decreases |evs|
  {
    if evs == [] then c else End(j, addr, w, Do(j, addr, w, c, evs[0]), evs[1..])
  }

  ghost function Fresh(j: Job, n: nat): Net {
    Net(seq(n, s => Engine(seq(|j.loc|, b => []), false, {}, 0, [])), map[], seq(j.locs, l => []),
        seq(j.locs, l => Idle), seq(j.locs, l => seq(|j.loc|, b => NoPart)))
  }

  /** No two engines of the job are at the same slave address. */
  ghost predicate OwnAddresses(addr: seq<nat>) { forall s, t :: 0 <= s < t < |addr| ==> addr[s] != addr[t] }
}
