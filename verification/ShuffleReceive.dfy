/** The receiving loop of a shuffler. */
module ShuffleReceive {
  import opened Options
  import A = ShuffleSpec
  import opened ShuffleWire

  /** The receive calls of one delivery, until it is read or no frame is left; and the frames that remain. */
  function Listen(w: Wire, rd: Reader, parts: seq<Part>, chan: seq<Frame>): (r: (Reader, seq<Part>, seq<Frame>))
    requires rd.Busy? ==> rd.left > 0
    ensures |r.1| == |parts| && |r.2| <= |chan| && (r.0.Busy? ==> r.2 == [])
    decreases |chan|
  {
    if !rd.Busy? || chan == [] then (rd, parts, chan)
    else
      var r := Heard(w, rd, parts, chan[0]);
      Listen(w, r.0, r.1, chan[1..])
  }

  function Hears(l: nat, n: nat): seq<Event> { if n == 0 then [] else [Hear(l)] + Hears(l, n - 1) }

  /** In the net the receive calls are that many events of the shuffler. */
  lemma {:induction false} ListenIsHears(j: A.Job, addr: seq<nat>, w: Wire, c: Net, l: nat, from: nat, n: nat)
    requires Shaped(j, addr, c) && l < j.locs
    requires (c.readers[l].Busy? ==> c.readers[l].left > 0 && c.readers[l].from == from)
    requires n == |Chan(c, l, from)| - |Listen(w, c.readers[l], c.files[l], Chan(c, l, from)).2|
    ensures Runs(j, addr, w, c, Hears(l, n))
    ensures var c', r := End(j, addr, w, c, Hears(l, n)), Listen(w, c.readers[l], c.files[l], Chan(c, l, from));
      && Shaped(j, addr, c') && c'.readers[l] == r.0 && c'.files[l] == r.1 && Chan(c', l, from) == r.2
      && c'.engines == c.engines && c'.anns == c.anns
    decreases n
  {
    if c.readers[l].Busy? && Chan(c, l, from) != [] {
      var d := Do(j, addr, w, c, Hear(l));
      assert Can(j, addr, c, Hear(l));
      assert Chan(d, l, from) == Chan(c, l, from)[1..];
      ListenIsHears(j, addr, w, d, l, from, n - 1);
      assert Hears(l, n)[1..] == Hears(l, n - 1);
    }
  }

  /** A shuffler with the two files of every bucket. */
  class Shuffler {
    var offset: seq<int>
    var datafile: seq<seq<bv8>>
    var indexfile: seq<seq<int>>

    ghost predicate Valid()
      reads this
    {
      |offset| == |datafile| == |indexfile|
    }

    ghost function Parts(): (parts: seq<Part>)
      reads this
      requires Valid()
      ensures |parts| == |offset|
    {
      seq(|offset|, b requires 0 <= b < |offset| reads this requires Valid() =>
        Part(datafile[b], indexfile[b], offset[b]))
    }

    constructor (bucketnum: nat)
      ensures Valid() && Parts() == seq(bucketnum, b => NoPart)
    {
      offset := seq(bucketnum, b => 0);
      datafile, indexfile := seq(bucketnum, b => []), seq(bucketnum, b => []);
    }

    /** The leading 0 of a new index file. */
    method Begin(bucket: nat)
      requires Valid() && bucket < |offset|
      modifies this`indexfile
      ensures Valid() && Parts() == old(Parts())[bucket := Opened(old(Parts())[bucket])]
    {
      var start := offset[bucket];
      if start == 0 {
        indexfile := indexfile[bucket := indexfile[bucket] + [start]];
      }
    }

    method Append(bucket: nat, bytes: seq<bv8>)
      requires Valid() && bucket < |offset|
      modifies this`datafile
      ensures Valid() && Parts() == old(Parts())[bucket := Written(old(Parts())[bucket], bytes)]
    {
      datafile := datafile[bucket := datafile[bucket] + bytes];
    }

    /** Moves the received index in place behind what the file holds already, and appends it. */
    method Finish(bucket: nat, index: array<int>)
      requires Valid() && bucket < |offset| && index.Length > 0
      modifies this`offset, this`indexfile, index
      ensures Valid() && Parts() == old(Parts())[bucket := Closed(old(Parts())[bucket], old(index[..]))]
    {
      var start := offset[bucket];
      for k := 0 to index.Length
        invariant forall i :: 0 <= i < index.Length ==> index[i] == old(index[i]) + if i < k then start else 0
        modifies index
      {
        index[k] := index[k] + start;
      }
      assert index[..] == A.Shift(old(index[..]), start);
      offset := offset[bucket := index[index.Length - 1]];
      indexfile := indexfile[bucket := indexfile[bucket] + index[..]];
    }

    /** The three receive calls for one bucket, or only the first when it does not give a number. */
    method ReceiveBucket(w: Wire, from: nat, left: nat, chan: seq<Frame>) returns (rd: Reader, rest: seq<Frame>)
      requires Valid() && left > 0
      modifies this
      ensures Valid()
      ensures rd == Reading(from, left - 1) || rd.Lost? || (rd.Busy? && rd.left > 0 && rest == [])
      ensures Listen(w, Busy(from, left, NeedNumber), old(Parts()), chan) == Listen(w, rd, Parts(), rest)
    {
      if chan == [] {
        return Busy(from, left, NeedNumber), chan;
      }
      var number := w.number(chan[0]);
      if number.None? {
        return Reading(from, left - 1), chan[1..];
      }
      var bucket := number.value;
      if bucket >= |offset| {
        return Lost, chan[1..];
      }
      Begin(bucket);
      rd, rest := ReceiveData(w, from, left, bucket, chan[1..]);
    }

    /** The data and the index of a bucket. */
    method ReceiveData(w: Wire, from: nat, left: nat, bucket: nat, chan: seq<Frame>)
      returns (rd: Reader, rest: seq<Frame>)
      requires Valid() && left > 0 && bucket < |offset|
      modifies this
      ensures Valid()
      ensures rd == Reading(from, left - 1) || rd.Lost? || (rd.Busy? && rd.left > 0 && rest == [])
      ensures Listen(w, Busy(from, left, NeedData(bucket)), old(Parts()), chan) == Listen(w, rd, Parts(), rest)
    {
      if chan == [] {
        return Busy(from, left, NeedData(bucket)), chan;
      }
      Append(bucket, w.bytes(chan[0]));
      if |chan| == 1 {
        return Busy(from, left, NeedIndex(bucket)), chan[1..];
      }
      var ends := w.index(chan[1]);
      rest := chan[2..];
      assert chan[1..][1..] == rest;
      if ends == [] {
        return Lost, rest;
      }
      var index := new int[|ends|](i requires 0 <= i < |ends| => ends[i]);
      assert index[..] == ends;
      Finish(bucket, index);
      rd := Reading(from, left - 1);
    }

    /** The receiving loop for one delivery of totalnum buckets. */
    method Receive(w: Wire, from: nat, totalnum: nat, chan: seq<Frame>) returns (rd: Reader, rest: seq<Frame>)
      requires Valid()
      modifies this
      ensures Valid() && (rd, Parts(), rest) == Listen(w, Reading(from, totalnum), old(Parts()), chan)
    {
      rest := chan;
      rd := Reading(from, totalnum);
      for i := 0 to totalnum
        invariant Valid() && rd == Reading(from, totalnum - i)
        invariant Listen(w, Reading(from, totalnum), old(Parts()), chan) == Listen(w, rd, Parts(), rest)
      {
        rd, rest := ReceiveBucket(w, from, totalnum - i, rest);
        if rd != Reading(from, totalnum - i - 1) {
          return;
        }
      }
    }
  }
}
