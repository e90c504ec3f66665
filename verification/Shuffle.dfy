/** The buffers of the Sphere shuffle: the growing buckets of an engine, and processData, which fills them. */
module Shuffle {
  import opened ShuffleSpec

  const INDEX_UNIT := 256
  const DATA_UNIT := 65536

  /** memcpy between two buffers. */
  method Copy<T>(src: array<T>, dst: array<T>, n: nat)
    requires src != dst && n <= src.Length && n <= dst.Length
    modifies dst
    ensures dst[..n] == src[..n]
  {
    for i := 0 to n
      invariant dst[..i] == src[..i]
    {
      dst[i] := src[i];
    }
  }

  lemma LastEnd(rs: seq<Record>)
    ensures Ends(rs)[|rs|] == |Join(rs)|
  {
  }

  lemma FirstEnd(rs: seq<Record>)
    ensures Ends(rs)[0] == 0
  {
    if rs != [] {
      RecordAt(rs, 0);
    }
  }

  /** One bucket of an engine: record data and record ends in two buffers that grow. */
  class Bucket {
    var index: array?<int>
    var indexLen: nat
    var indexPhyLen: nat
    var data: array?<bv8>
    var dataLen: nat
    var dataPhyLen: nat
    ghost var recs: seq<Record>
    ghost var repr: set<object>

    ghost predicate Rep()
      reads this`index, this`indexLen, this`indexPhyLen, this`data, this`dataLen, this`dataPhyLen, index, data
    {
      && (index == null ==> indexLen == 0 && indexPhyLen == 0)
      && (index != null ==> 1 <= indexLen <= indexPhyLen == index.Length)
      && (data == null ==> dataLen == 0 && dataPhyLen == 0)
      && (data != null ==> dataLen <= dataPhyLen == data.Length)
      && (index != null && data != null ==> index as object != data as object)
    }

    function Index(): seq<int>
      reads this`index, this`indexLen, this`indexPhyLen, this`data, this`dataLen, this`dataPhyLen, index, data
      requires Rep()
    {
      if index == null then [] else index[..indexLen]
    }

    function Data(): seq<bv8>
      reads this`index, this`indexLen, this`indexPhyLen, this`data, this`dataLen, this`dataPhyLen, index, data
      requires Rep()
    {
      if data == null then [] else data[..dataLen]
    }

    /** The buffers hold some records and their index, which is missing before the first one. */
    ghost predicate Holds(rs: seq<Record>)
      requires Rep()
      reads this`index, this`indexLen, this`indexPhyLen, this`data, this`dataLen, this`dataPhyLen, index, data
    {
      && NoneEmpty(rs) && Data() == Join(rs)
      && (index == null ==> rs == []) && (index != null ==> Index() == Ends(rs))
    }

    ghost predicate Valid()
      reads this, repr
    {
      && this in repr && (index != null ==> index in repr) && (data != null ==> data in repr)
      && Rep() && Holds(recs)
    }

    constructor ()
      ensures Valid() && recs == [] && fresh(repr)
    {
      index, indexLen, indexPhyLen := null, 0, 0;
      data, dataLen, dataPhyLen := null, 0, 0;
      recs, repr := [], {this};
    }

    /** Makes room for one more index entry; the first buffer starts with 0. */
    method GrowIndex()
      requires Rep()
      modifies this`index, this`indexLen, this`indexPhyLen
      ensures Rep() && data == old(data) && index != null && indexLen < indexPhyLen
      ensures index == old(index) || fresh(index)
      ensures Index() == if old(index) == null then [0] else old(Index())
    {
      if indexLen >= indexPhyLen {
        var tmp := new int[indexPhyLen + INDEX_UNIT];
        if index != null {
          Copy(index, tmp, indexLen);
        } else {
          tmp[0] := 0;
          indexLen := 1;
        }
        index := tmp;
        indexPhyLen := indexPhyLen + INDEX_UNIT;
      }
    }

    /** Makes room for len more bytes, one unit at a time. */
    method GrowData(len: nat)
      requires Rep()
      modifies this`data, this`dataPhyLen
      ensures Rep() && dataLen + len <= dataPhyLen
      ensures data == old(data) || fresh(data)
      ensures Data() == old(Data()) && (len > 0 ==> data != null)
    {
      while dataLen + len > dataPhyLen
        invariant Rep() && Data() == old(Data()) && (data == old(data) || fresh(data))
        decreases dataLen + len - dataPhyLen
      {
        var tmp := new bv8[dataPhyLen + DATA_UNIT];
        if data != null {
          Copy(data, tmp, dataLen);
        }
        data := tmp;
        dataPhyLen := dataPhyLen + DATA_UNIT;
      }
    }

    /** Writes a record behind the others. */
    method Put(bytes: seq<bv8>)
      requires Rep() && data != null && index != null && data.Length == dataPhyLen && dataLen + |bytes| <= dataPhyLen
      modifies data, this`dataLen
      ensures Rep() && Data() == old(Data()) + bytes && Index() == old(Index())
    {
      for i := 0 to |bytes|
        invariant data[..dataLen] == old(data[..dataLen]) && data[dataLen..dataLen + i] == bytes[..i]
        modifies data
      {
        data[dataLen + i] := bytes[i];
      }
      assert data[..dataLen + |bytes|] == data[..dataLen] + data[dataLen..dataLen + |bytes|];
      dataLen := dataLen + |bytes|;
    }

    lemma Added(r: Record, rs: seq<Record>)
      requires Rep() && index != null && NoneEmpty(rs) && r.bytes != []
      requires Data() == Join(rs) + r.bytes && Index() == Ends(rs) + [|Join(rs)| + |r.bytes|]
      ensures Holds(rs + [r])
    {
      assert (rs + [r])[..|rs|] == rs;
    }

    /** addData on the buffers of its bucket. */
    method Append(bytes: seq<bv8>)
      requires Rep() && bytes != []
      modifies this`index, this`indexLen, this`indexPhyLen, this`data, this`dataLen, this`dataPhyLen, index, data
      ensures Rep() && index != null && data != null && Data() == old(Data()) + bytes
      ensures index == old(index) || fresh(index)
      ensures data == old(data) || fresh(data)
      ensures Index() == var was := if old(index) == null then [0] else old(Index());
        was + [was[|was| - 1] + |bytes|]
    {
      GrowIndex();
      PutIndex(|bytes|);
      GrowData(|bytes|);
      Put(bytes);
    }

    method AppendRecord(bytes: seq<bv8>, ghost src: nat, ghost rs: seq<Record>)
      requires Rep() && Holds(rs) && bytes != []
      modifies this`index, this`indexLen, this`indexPhyLen, this`data, this`dataLen, this`dataPhyLen, index, data
      ensures Rep() && index != null && data != null && Holds(rs + [Record(src, bytes)])
      ensures (index == old(index) || fresh(index)) && (data == old(data) || fresh(data))
    {
      LastEnd(rs);
      Append(bytes);
      Added(Record(src, bytes), rs);
    }

    /** addData on its bucket, for a record with bytes. */
    method Add(bytes: seq<bv8>, ghost src: nat)
      requires Valid() && bytes != []
      modifies repr
      ensures Valid() && recs == old(recs) + [Record(src, bytes)] && fresh(repr - old(repr))
    {
      AppendRecord(bytes, src, recs);
      Note(recs + [Record(src, bytes)]);
    }

    /** The buffers now hold rs. */
    ghost method Note(rs: seq<Record>)
      requires Rep() && index != null && data != null && Holds(rs)
      modifies this`recs, this`repr
      ensures Valid() && recs == rs && repr == {this, index, data}
    {
      recs, repr := rs, {this, index, data};
    }

    method PutIndex(len: nat)
      requires Rep() && index != null && indexLen < indexPhyLen
      modifies index, this`indexLen
      ensures Rep() && Data() == old(Data())
      ensures Index() == old(Index()) + [old(Index())[|old(Index())| - 1] + len]
    {
      index[indexLen] := index[indexLen - 1] + len;
      indexLen := indexLen + 1;
    }

    /** clear: keeps the buffers, and the 0 in front of the index. */
    method Clear()
      requires Valid()
      modifies this`indexLen, this`dataLen, this`recs
      ensures Valid() && recs == [] && repr == old(repr)
    {
      FirstEnd(recs);
      if indexLen > 0 {
        indexLen := 1;
      }
      dataLen := 0;
      recs := [];
      assert index != null ==> Index() == [0];
    }
  }

  /** What one engine has collected, bucket by bucket. */
  class SPEResult {
    var buckets: seq<Bucket>
    var totalDataSize: int

    /** The total is the number of bytes in all buckets. */
    ghost predicate Valid()
      reads this`buckets, this`totalDataSize, buckets, Footprint()
    {
      Rep() && totalDataSize == DataSize(Recs())
    }

    ghost predicate Rep()
      reads this`buckets, buckets, Footprint()
    {
      && (forall i :: 0 <= i < |buckets| ==> buckets[i].Valid() && this !in buckets[i].repr)
      && (forall i: nat, k: nat :: i < k < |buckets| ==> buckets[i].repr !! buckets[k].repr)
    }

    ghost function Footprint(): set<object>
      reads this`buckets, buckets
    {
      set b, o | b in buckets && o in b.repr :: o
    }

    ghost function Recs(): (r: seq<seq<Record>>)
      reads this`buckets, buckets
      ensures |r| == |buckets| && forall i :: 0 <= i < |r| ==> r[i] == buckets[i].recs
    {
      var bs := buckets;
      seq(|bs|, i requires 0 <= i < |bs| reads bs => bs[i].recs)
    }

    /** init: at least one bucket, all empty. */
    constructor (n: int)
      ensures Valid() && |buckets| == (if n < 1 then 1 else n) && forall b :: 0 <= b < |buckets| ==> Recs()[b] == []
    {
      totalDataSize := 0;
      var bs: seq<Bucket> := [];
      var num := if n < 1 then 1 else n;
      while |bs| < num
        invariant |bs| <= num
        invariant forall i :: 0 <= i < |bs| ==> fresh(bs[i]) && fresh(bs[i].repr) && bs[i].Valid() && bs[i].recs == []
        invariant forall i: nat, k: nat :: i < k < |bs| ==> bs[i].repr !! bs[k].repr
      {
        var b := new Bucket();
        bs := bs + [b];
      }
      buckets := bs;
      new;
      NoDataSize(Recs());
    }

    method AddAt(id: nat, bytes: seq<bv8>, ghost src: nat)
      requires Rep() && id < |buckets| && bytes != []
      modifies buckets[id].repr
      ensures buckets == old(buckets) && buckets[id].Valid() && this !in buckets[id].repr
      ensures buckets[id].recs == old(buckets[id].recs) + [Record(src, bytes)]
      ensures fresh(buckets[id].repr - old(buckets[id].repr))
      ensures forall k: nat :: k < |buckets| && k != id ==>
        buckets[k].Valid() && buckets[k].recs == old(buckets[k].recs) && buckets[k].repr == old(buckets[k].repr)
    {
      buckets[id].Add(bytes, src);
    }

    method AddValid(id: nat, bytes: seq<bv8>, ghost src: nat)
      requires Rep() && id < |buckets| && bytes != []
      modifies buckets[id].repr
      ensures Rep() && buckets == old(buckets)
      ensures buckets[id].recs == old(buckets[id].recs) + [Record(src, bytes)]
      ensures fresh(buckets[id].repr - old(buckets[id].repr))
      ensures forall k: nat :: k < |buckets| && k != id ==>
        buckets[k].recs == old(buckets[k].recs) && buckets[k].repr == old(buckets[k].repr)
    {
      ghost var others := Others(id);
      AddAt(id, bytes, src);
      OthersApart(id, others, old(buckets[id].repr));
    }

    /** What the other buckets are made of. */
    ghost function Others(id: nat): set<object>
      reads this`buckets, buckets
    {
      set k, o | 0 <= k < |buckets| && k != id && o in buckets[k].repr :: o
    }

    lemma OthersApart(id: nat, others: set<object>, was: set<object>)
      requires id < |buckets| && Others(id) == others && others !! was && others !! buckets[id].repr - was
      requires forall i: nat, k: nat :: i < k < |buckets| && i != id && k != id ==> buckets[i].repr !! buckets[k].repr
      ensures forall i: nat, k: nat :: i < k < |buckets| ==> buckets[i].repr !! buckets[k].repr
    {
      assert others !! buckets[id].repr;
      forall k: nat | k < |buckets| && k != id ensures buckets[k].repr <= others {
      }
    }

    method AddFresh(id: nat, bytes: seq<bv8>, ghost src: nat)
      requires Rep() && id < |buckets| && bytes != []
      modifies buckets[id].repr
      ensures Rep() && buckets == old(buckets)
      ensures buckets[id].recs == old(buckets[id].recs) + [Record(src, bytes)]
      ensures forall k: nat :: k < |buckets| && k != id ==> buckets[k].recs == old(buckets[k].recs)
      ensures fresh(Footprint() - old(Footprint()))
    {
      ghost var feet := Footprint();
      AddValid(id, bytes, src);
      forall o | o in Footprint() && o !in feet ensures fresh(o) {
        var k :| 0 <= k < |buckets| && o in buckets[k].repr;
      }
    }

    method AddAtEnd(id: nat, bytes: seq<bv8>, ghost src: nat)
      requires Rep() && id < |buckets| && bytes != []
      modifies buckets[id].repr
      ensures Rep() && buckets == old(buckets)
      ensures Recs() == old(Recs())[id := old(Recs())[id] + [Record(src, bytes)]]
      ensures fresh(Footprint() - old(Footprint()))
    {
      AddFresh(id, bytes, src);
    }

    method AddTo(id: nat, bytes: seq<bv8>, ghost src: nat)
      requires Rep() && id < |buckets| && bytes != []
      modifies Footprint()
      ensures Rep() && buckets == old(buckets) && totalDataSize == old(totalDataSize)
      ensures Recs() == old(Recs())[id := old(Recs())[id] + [Record(src, bytes)]]
      ensures fresh(Footprint() - old(Footprint()))
    {
      InFootprint(id);
      AddAtEnd(id, bytes, src);
    }

    lemma InFootprint(id: nat)
      requires Rep() && id < |buckets|
      ensures buckets[id].repr <= Footprint() && this !in buckets[id].repr
    {
      assert buckets[id] in buckets;
    }

    /** addData: ignores an unknown bucket and a record without bytes. */
    method AddData(bucketid: int, data: seq<bv8>, len: int, ghost src: nat)
      requires Valid() && len <= |data|
      modifies this`totalDataSize, Footprint()
      ensures Valid() && buckets == old(buckets)
      ensures Recs() == AddRecord(old(Recs()), src, bucketid, data, len)
      ensures totalDataSize == old(totalDataSize) +
        if bucketid < 0 || bucketid >= |buckets| || len < 0 then 0 else len
      ensures fresh(Footprint() - old(Footprint()))
    {
      if bucketid >= |buckets| || bucketid < 0 || len <= 0 {
        return;
      }
      AddSome(bucketid, data[..len], src);
    }

    method AddSome(id: nat, bytes: seq<bv8>, ghost src: nat)
      requires Valid() && id < |buckets| && bytes != []
      modifies this`totalDataSize, Footprint()
      ensures Valid() && buckets == old(buckets) && totalDataSize == old(totalDataSize) + |bytes|
      ensures Recs() == old(Recs())[id := old(Recs())[id] + [Record(src, bytes)]]
      ensures fresh(Footprint() - old(Footprint()))
    {
      DataSizeAdd(Recs(), id, Record(src, bytes));
      AddTo(id, bytes, src);
      Count(|bytes|);
    }

    method Count(len: nat)
      requires Rep()
      modifies this`totalDataSize
      ensures Rep() && Recs() == old(Recs()) && Footprint() == old(Footprint())
      ensures totalDataSize == old(totalDataSize) + len
    {
      totalDataSize := totalDataSize + len;
    }

    /** The first i buckets are empty. */
    ghost predicate Cleared(i: nat)
      reads this`buckets, buckets, Footprint()
    {
      Rep() && i <= |buckets| && forall k: nat :: k < i ==> buckets[k].recs == []
    }

    method ClearAt(id: nat)
      requires Rep() && id < |buckets|
      modifies buckets[id]
      ensures buckets == old(buckets) && buckets[id].recs == []
      ensures forall k: nat :: k < |buckets| ==> buckets[k].Valid() && buckets[k].repr == old(buckets[k].repr)
      ensures forall k: nat :: k < |buckets| && k != id ==> buckets[k].recs == old(buckets[k].recs)
    {
      buckets[id].Clear();
    }

    method ClearOne(id: nat)
      requires Cleared(id) && id < |buckets|
      modifies buckets[id]
      ensures Cleared(id + 1) && buckets == old(buckets) && Footprint() == old(Footprint())
    {
      ClearAt(id);
    }

    lemma AllCleared()
      requires Cleared(|buckets|)
      ensures Recs() == seq(|buckets|, b => []) && DataSize(Recs()) == 0
    {
      NoDataSize(Recs());
    }

    /** clear: empties every bucket. */
    method Clear()
      requires Valid()
      modifies this`totalDataSize, Footprint()
      ensures Valid() && buckets == old(buckets) && totalDataSize == 0
      ensures Recs() == seq(|buckets|, b => [])
    {
      for i := 0 to |buckets|
        invariant buckets == old(buckets) && Cleared(i) && Footprint() == old(Footprint())
      {
        ClearOne(i);
      }
      AllCleared();
      ResetCount();
    }

    method ResetCount()
      requires Rep()
      modifies this`totalDataSize
      ensures Rep() && Recs() == old(Recs()) && Footprint() == old(Footprint()) && totalDataSize == 0
    {
      totalDataSize := 0;
    }

    /** So far the first r of some rows have been added. */
    ghost predicate Adding(was: seq<seq<Record>>, src: nat, rows: seq<Row>, r: nat)
      requires GoodRows(rows)
      reads this`buckets, this`totalDataSize, buckets, Footprint()
    {
      r <= |rows| && Rep() && Recs() == AddAll(was, src, rows[..r]) && totalDataSize == DataSize(Recs())
    }

    lemma AddingAll(was: seq<seq<Record>>, src: nat, rows: seq<Row>)
      requires GoodRows(rows) && Adding(was, src, rows, |rows|)
      ensures Valid() && Recs() == AddAll(was, src, rows)
    {
      assert rows[..|rows|] == rows;
    }

    /** Row r of `todo`; those before it have been added to what there was. */
    method AddRow(ghost was: seq<seq<Record>>, todo: seq<Row>, r: nat, ghost src: nat)
      requires GoodRows(todo) && Adding(was, src, todo, r) && r < |todo|
      modifies this`totalDataSize, Footprint()
      ensures buckets == old(buckets) && fresh(Footprint() - old(Footprint()))
      ensures Adding(was, src, todo, r + 1)
    {
      AddAllStep(was, src, todo, r);
      AddData(todo[r].bucket, todo[r].data, todo[r].len, src);
    }

    /** The rows of a result go to their buckets. */
    method AddRows(rows: seq<Row>, ghost src: nat)
      requires Valid() && GoodRows(rows)
      modifies this`totalDataSize, Footprint()
      ensures Valid() && buckets == old(buckets) && fresh(Footprint() - old(Footprint()))
      ensures Recs() == AddAll(old(Recs()), src, rows)
    {
      ghost var was := Recs();
      for r := 0 to |rows|
        invariant buckets == old(buckets) && fresh(Footprint() - old(Footprint())) && Adding(was, src, rows, r)
      {
        AddRow(was, rows, r, src);
      }
      AddingAll(was, src, rows);
    }

    /** What processData does between moving the input index and restoring it. */
    method Emit(c: Call, idx: seq<int>, ghost src: nat)
      requires Valid() && c.Fits(idx)
      modifies this`totalDataSize, Footprint()
      ensures Valid() && buckets == old(buckets) && fresh(Footprint() - old(Footprint()))
      ensures Recs() == AddAll(old(Recs()), src, c.Emitted(idx))
    {
      var todo;
      if c.work.Process? {
        var out := c.user(c.unit, idx);
        if c.bucketnum > 0 {
          todo := RowsOf(out.rows, out.result, out.index, out.ids);
        } else {
          todo := RowsOf(out.rows, out.result, out.index, AnyRow);
        }
      } else if c.work.Partition? {
        todo := RowsOf(c.rows, c.unit, idx, Partitioned(c.unit, idx, c.partition));
      } else {
        var out := c.user(c.unit, idx);
        todo := RowsOf(out.rows, out.result, out.index, Partitioned(out.result, out.index, c.partition));
      }
      AddRows(todo, src);
    }

    /** Moves the input index and leaves the buckets alone. */
    method MoveIndex(index: array<int>, rows: int, d: int)
      requires Rep() && rows < index.Length && index !in Footprint()
      modifies index
      ensures index[..] == Rebased(old(index[..]), rows, d)
      ensures Rep() && Recs() == old(Recs()) && Footprint() == old(Footprint())
    {
      Rebase(index, rows, d);
    }

    /** Emitting leaves the input index alone. */
    method EmitIndexed(c: Call, index: array<int>, ghost idx: seq<int>, ghost rows: seq<Row>, ghost src: nat)
      requires Valid() && index !in Footprint() && index[..] == idx && c.Fits(idx) && rows == c.Emitted(idx)
      modifies this`totalDataSize, Footprint()
      ensures Valid() && buckets == old(buckets) && index !in Footprint() && index[..] == idx
      ensures Recs() == AddAll(old(Recs()), src, rows)
    {
      Emit(c, index[..], src);
    }

    /** processData of an input without an index, which has no rows. */
    method ProcessWhole(c: Call, ghost src: nat)
      requires Valid() && c.Fits([])
      modifies this`totalDataSize, Footprint()
      ensures Valid() && buckets == old(buckets)
      ensures Recs() == AddAll(old(Recs()), src, c.Emitted([]))
    {
      Emit(c, [], src);
    }

    /** processData: the user's functions see an input index that starts at 0, and the index is restored
        afterwards. A call without an index has no row loop to run (rows is -1 for a whole file). */
    method ProcessData(c: Call, index: array?<int>, ghost src: nat)
      requires Valid() && (index == null ==> c.rows < 0)
      requires index != null ==> c.rows < index.Length && index.Length > 0 && index !in Footprint()
      requires c.Fits(FromZero(Entries(index), c.rows))
      modifies this`totalDataSize, Footprint(), index
      ensures Valid() && buckets == old(buckets) && Entries(index) == old(Entries(index))
      ensures Recs() == AddAll(old(Recs()), src, c.Emitted(FromZero(old(Entries(index)), c.rows)))
      ensures forall b :: 0 <= b < |buckets| ==>
        CallFiled(c, FromZero(old(Entries(index)), c.rows), src, b, old(Recs())[b], Recs()[b])
    {
      AllFiled(c, FromZero(Entries(index), c.rows), Recs(), src);
      if index == null {
        ProcessWhole(c, src);
      } else {
        ProcessIndexed(c, index, src);
      }
    }

    method ProcessIndexed(c: Call, index: array<int>, ghost src: nat)
      requires Valid() && c.rows < index.Length && index.Length > 0 && index !in Footprint()
      requires c.Fits(FromZero(index[..], c.rows))
      modifies this`totalDataSize, Footprint(), index
      ensures Valid() && buckets == old(buckets) && index[..] == old(index[..])
      ensures Recs() == AddAll(old(Recs()), src, c.Emitted(FromZero(old(index[..]), c.rows)))
    {
      var uoff := index[0];
      RebasedBack(index[..], c.rows, uoff);
      ghost var idx := FromZero(index[..], c.rows);
      EmitFromZero(c, index, uoff, idx, c.Emitted(idx), src);
      MoveIndex(index, c.rows, uoff);
    }

    /** Emits what the user's functions make of the index moved to start at 0. */
    method EmitFromZero(c: Call, index: array<int>, uoff: int, ghost idx: seq<int>, ghost rows: seq<Row>,
                        ghost src: nat)
      requires Valid() && c.rows < index.Length && index !in Footprint()
      requires idx == Rebased(index[..], c.rows, -uoff) && c.Fits(idx) && rows == c.Emitted(idx)
      modifies this`totalDataSize, Footprint(), index
      ensures Valid() && buckets == old(buckets) && index !in Footprint() && index[..] == idx
      ensures Recs() == AddAll(old(Recs()), src, rows)
    {
      MoveIndex(index, c.rows, -uoff);
      EmitIndexed(c, index, idx, rows, src);
    }
  }

  lemma RebasedBack(index: seq<int>, rows: int, d: int)
    ensures Rebased(Rebased(index, rows, -d), rows, d) == index
  {
  }

  /** The user's function; the partition function on the input; or a map function and then the
      partition function. */
  datatype Work = Process | Partition | Map

  function AnyRow(r: int): int { 0 }

  datatype Output = Output(rows: int, result: seq<bv8>, index: seq<int>, ids: int -> int)

  /** The index of a result with so many rows points into the result. */
  ghost predicate Indexed(rows: int, result: seq<bv8>, index: seq<int>) {
    rows > 0 ==> rows < |index| && forall i :: 0 <= i <= rows ==> 0 <= index[i] <= |result|
  }

  /** A call of processData: the input and the user's functions. */
  datatype Call = Call(unit: seq<bv8>, rows: int, work: Work, bucketnum: int,
                       user: (seq<bv8>, seq<int>) -> Output, partition: (seq<bv8>, int) -> int)
  {
    /** The results that will be cut into rows have an index that points into them. */
    ghost predicate Fits(idx: seq<int>) {
      if work.Partition? then Indexed(rows, unit, idx)
      else Indexed(user(unit, idx).rows, user(unit, idx).result, user(unit, idx).index)
    }

    /** The rows that are emitted, given the input index from 0. */
    function Emitted(idx: seq<int>): (r: seq<Row>)
      requires Fits(idx)
      ensures GoodRows(r)
    {
      var out := user(unit, idx);
      match work
      case Process => RowsOf(out.rows, out.result, out.index, if bucketnum > 0 then out.ids else AnyRow)
      case Partition => RowsOf(rows, unit, idx, Partitioned(unit, idx, partition))
      case Map => RowsOf(out.rows, out.result, out.index, Partitioned(out.result, out.index, partition))
    }
  }

  function RowsOf(rows: int, result: seq<bv8>, index: seq<int>, ids: int -> int): (r: seq<Row>)
    requires Indexed(rows, result, index)
    ensures |r| == (if rows < 0 then 0 else rows) && GoodRows(r)
  {
    seq(if rows < 0 then 0 else rows, i requires 0 <= i < rows =>
      Row(ids(i), result[index[i]..], index[i + 1] - index[i]))
  }

  /** The bucket that the partition function chooses for each row. */
  function Partitioned(result: seq<bv8>, index: seq<int>, partition: (seq<bv8>, int) -> int): int -> int {
    r => if 0 <= r < |index| - 1 && 0 <= index[r] <= |result|
         then partition(result[index[r]..], index[r + 1] - index[r]) else 0
  }

  // ----- What a call emits, in the user's terms

  /** Row r of a result, as a record. */
  ghost predicate SliceIs(src: nat, result: seq<bv8>, index: seq<int>, r: int, rec: Record) {
    0 <= r < |index| - 1 && 0 <= index[r] <= index[r + 1] <= |result| &&
    rec == Record(src, result[index[r]..index[r + 1]])
  }

  /** Bucket b had the records `was` and has `now`: one more, in order, for each row that is not empty and that
      has the id b. */
  ghost predicate Filed(src: nat, result: seq<bv8>, index: seq<int>, ids: seq<int>, b: int, was: seq<Record>,
                        now: seq<Record>)
    requires ids != [] ==> |ids| < |index|
  {
    exists pick :: FiledRows(src, result, index, ids, b, pick, was, now)
  }

  ghost predicate FiledRows(src: nat, result: seq<bv8>, index: seq<int>, ids: seq<int>, b: int, pick: seq<int>,
                            was: seq<Record>, now: seq<Record>)
    requires ids != [] ==> |ids| < |index|
  {
    && Ascending(pick) && |now| == |was| + |pick| && now[..|was|] == was
    && (forall r :: r in pick <==> 0 <= r < |ids| && index[r] < index[r + 1] && ids[r] == b)
    && (forall i :: 0 <= i < |pick| ==> SliceIs(src, result, index, pick[i], now[|was| + i]))
  }

  /** The ids that the user's function has assigned; all 0 when there are no buckets. */
  function ProcessIds(out: Output, bucketnum: int): seq<int> {
    seq(if out.rows < 0 then 0 else out.rows, r => if bucketnum > 0 then out.ids(r) else 0)
  }

  /** The ids that the partition function assigns to the rows. */
  function PartitionIds(rows: int, result: seq<bv8>, index: seq<int>, partition: (seq<bv8>, int) -> int): seq<int>
    requires Indexed(rows, result, index)
  {
    seq(if rows < 0 then 0 else rows, r requires 0 <= r < rows =>
      partition(result[index[r]..], index[r + 1] - index[r]))
  }

  /** What a call does to bucket b. */
  ghost predicate CallFiled(c: Call, idx: seq<int>, src: nat, b: int, was: seq<Record>, now: seq<Record>)
    requires c.Fits(idx)
  {
    var out := c.user(c.unit, idx);
    match c.work
    case Process => Filed(src, out.result, out.index, ProcessIds(out, c.bucketnum), b, was, now)
    case Partition => Filed(src, c.unit, idx, PartitionIds(c.rows, c.unit, idx, c.partition), b, was, now)
    case Map =>
      Filed(src, out.result, out.index, PartitionIds(out.rows, out.result, out.index, c.partition), b, was, now)
  }

  /** Rows that are cut out of a result with these ids. */
  lemma RowsFiled(recs: seq<seq<Record>>, src: nat, n: int, result: seq<bv8>, index: seq<int>, id: int -> int,
                  ids: seq<int>, b: nat)
    requires Indexed(n, result, index) && |ids| == (if n < 0 then 0 else n) && b < |recs|
    requires forall r :: 0 <= r < |ids| ==> ids[r] == id(r)
    ensures Filed(src, result, index, ids, b, recs[b], AddAll(recs, src, RowsOf(n, result, index, id))[b])
  {
    var rows := RowsOf(n, result, index, id);
    var pick := AddAllAt(recs, src, rows, b);
    var was, now := recs[b], AddAll(recs, src, rows)[b];
    forall i | 0 <= i < |pick| ensures SliceIs(src, result, index, pick[i], now[|was| + i]) {
      assert RowIs(src, rows, pick[i], now[|was| + i]) && pick[i] in pick;
      RowSlice(result, index, pick[i]);
    }
    assert FiledRows(src, result, index, ids, b, pick, was, now);
  }

  lemma RowSlice(result: seq<bv8>, index: seq<int>, r: int)
    requires 0 <= r < |index| - 1 && 0 <= index[r] <= index[r + 1] <= |result|
    ensures result[index[r]..][..index[r + 1] - index[r]] == result[index[r]..index[r + 1]]
  {
  }

  /** Of the rows of a call exactly those go to bucket b that are not empty and that have the id b, each cut out
      of the result by its index, in order. */
  lemma EmittedAt(c: Call, idx: seq<int>, recs: seq<seq<Record>>, src: nat, b: nat)
    requires c.Fits(idx) && b < |recs|
    ensures CallFiled(c, idx, src, b, recs[b], AddAll(recs, src, c.Emitted(idx))[b])
  {
    var out := c.user(c.unit, idx);
    if c.work.Process? {
      RowsFiled(recs, src, out.rows, out.result, out.index, if c.bucketnum > 0 then out.ids else AnyRow,
                ProcessIds(out, c.bucketnum), b);
    } else if c.work.Partition? {
      RowsFiled(recs, src, c.rows, c.unit, idx, Partitioned(c.unit, idx, c.partition),
                PartitionIds(c.rows, c.unit, idx, c.partition), b);
    } else {
      RowsFiled(recs, src, out.rows, out.result, out.index, Partitioned(out.result, out.index, c.partition),
                PartitionIds(out.rows, out.result, out.index, c.partition), b);
    }
  }

  lemma AllFiled(c: Call, idx: seq<int>, recs: seq<seq<Record>>, src: nat)
    requires c.Fits(idx)
    ensures forall b :: 0 <= b < |recs| ==> CallFiled(c, idx, src, b, recs[b], AddAll(recs, src, c.Emitted(idx))[b])
  {
    forall b | 0 <= b < |recs| ensures CallFiled(c, idx, src, b, recs[b], AddAll(recs, src, c.Emitted(idx))[b]) {
      EmittedAt(c, idx, recs, src, b);
    }
  }

  /** The first rows + 1 entries moved by d. */
  function Rebased(index: seq<int>, rows: int, d: int): (r: seq<int>) {
    seq(|index|, i requires 0 <= i < |index| => if i <= rows then index[i] + d else index[i])
  }

  /** The entries of an index, none when there is no index. */
  function Entries(index: array?<int>): seq<int>
    reads index
  {
    if index == null then [] else index[..]
  }

  /** The index of a part of the input, moved so that its first entry is 0. */
  function FromZero(index: seq<int>, rows: int): (r: seq<int>)
    ensures |r| == |index|
    ensures forall i :: 0 <= i < |r| ==> r[i] == if i <= rows then index[i] - index[0] else index[i]
  {
    if index == [] then [] else Rebased(index, rows, -index[0])
  }

  method Rebase(index: array<int>, rows: int, d: int)
    requires rows < index.Length
    modifies index
    ensures index[..] == Rebased(old(index[..]), rows, d)
  {
    var p := 0;
    while p <= rows
      invariant 0 <= p && (p <= rows + 1 || p == 0)
      invariant forall i :: 0 <= i < index.Length ==> index[i] == if i < p then old(index[i]) + d else old(index[i])
    {
      index[p] := index[p] + d;
      p := p + 1;
    }
  }
}
