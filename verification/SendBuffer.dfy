/** The sending buffer: a circular linked list of blocks that grows by whole physical buffers,
    proved to be a queue of packets. */
module SendBuffer {
  import opened Packets
  import opened SendSpec

  class Block {
    var data: seq<bv8>
    var msgNo: bv32
    var ttl: int
    var time: int
    var next: Block?

    constructor ()
      ensures data == [] && msgNo == 0 && next == null
    {
      data, msgNo, ttl, time, next := [], 0, 0, 0, null;
    }
  }

  function After(i: nat, n: nat): nat { if i + 1 == n then 0 else i + 1 }

  /** The blocks are n different nodes of one cycle, in the order of their next pointers. */
  ghost predicate Cycle(ring: seq<Block>)
    reads ring`next
  {
    && NoneTwice(ring)
    && (forall i :: 0 <= i < |ring| ==> ring[i].next == ring[After(i, |ring|)])
  }

  /** The blocks are different nodes of one open list, the last one not yet linked. */
  ghost predicate Chain(line: seq<Block>)
    reads line`next
  {
    && NoneTwice(line)
    && (forall i :: 0 <= i < |line| - 1 ==> line[i].next == line[i + 1])
  }

  ghost predicate NoneTwice(r: seq<Block>) { forall i, j :: 0 <= i < j < |r| ==> r[i] != r[j] }

  ghost predicate NoneShared(r: seq<Block>, line: seq<Block>) {
    forall i, j :: 0 <= i < |r| && 0 <= j < |line| ==> r[i] != line[j]
  }

  /** Linking a chain in behind block k - 1 of a cycle gives a longer cycle. */
  lemma Splice(r: seq<Block>, k: nat, line: seq<Block>)
    requires 0 < k <= |r| && |line| > 0 && Chain(line) && NoneTwice(r) && NoneShared(r, line)
    requires forall i :: 0 <= i < |r| && i != k - 1 ==> r[i].next == r[After(i, |r|)]
    requires r[k - 1].next == line[0] && line[|line| - 1].next == r[After(k - 1, |r|)]
    ensures Cycle(r[..k] + line + r[k..])
  {
    var s := r[..k] + line + r[k..];
    SpliceOnce(r, k, line);
    forall i | 0 <= i < |s| ensures s[i].next == s[After(i, |s|)] {
      SpliceNext(r, k, line, i);
    }
  }

  lemma SpliceAt(r: seq<Block>, k: nat, line: seq<Block>, i: nat)
    requires k <= |r| && i < |r| + |line|
    ensures (r[..k] + line + r[k..])[i] ==
      if i < k then r[i] else if i < k + |line| then line[i - k] else r[i - |line|]
  {
  }

  lemma SpliceOnce(r: seq<Block>, k: nat, line: seq<Block>)
    requires k <= |r| && NoneTwice(r) && NoneTwice(line) && NoneShared(r, line)
    ensures NoneTwice(r[..k] + line + r[k..])
  {
    forall i, j | 0 <= i < j < |r| + |line|
      ensures (r[..k] + line + r[k..])[i] != (r[..k] + line + r[k..])[j]
    {
      SpliceAt(r, k, line, i);
      SpliceAt(r, k, line, j);
    }
  }

  lemma SpliceNext(r: seq<Block>, k: nat, line: seq<Block>, i: nat)
    requires 0 < k <= |r| && |line| > 0 && Chain(line) && i < |r| + |line|
    requires forall i :: 0 <= i < |r| && i != k - 1 ==> r[i].next == r[After(i, |r|)]
    requires r[k - 1].next == line[0] && line[|line| - 1].next == r[After(k - 1, |r|)]
    ensures var s := r[..k] + line + r[k..]; s[i].next == s[After(i, |s|)]
  {
    SpliceAt(r, k, line, i);
    SpliceAt(r, k, line, After(i, |r| + |line|));
    if i >= k + |line| {
      assert r[i - |line|].next == r[After(i - |line|, |r|)];
    }
  }

  ghost function ChunkAt(b: Block): Chunk
    reads b`data, b`msgNo, b`ttl, b`time
  {
    Chunk(b.data, b.msgNo, b.ttl, b.time)
  }

  /** Creates a list of n blocks. */
  method NewChain(n: nat) returns (head: Block, tail: Block, ghost line: seq<Block>)
    requires n > 0
    ensures |line| == n && Chain(line) && fresh(line)
    ensures head == line[0] && tail == line[n - 1] && forall i :: 0 <= i < n ==> line[i].msgNo == 0
  {
    head := new Block();
    tail := head;
    line := [head];
    for i := 1 to n
      invariant |line| == i && Chain(line) && fresh(line)
      invariant head == line[0] && tail == line[i - 1] && forall j :: 0 <= j < i ==> line[j].msgNo == 0
    {
      var b := new Block();
      tail.next := b;
      tail := b;
      line := line + [b];
    }
  }

  /** Links n new blocks into the cycle r, behind its block k - 1. */
  method Grow(last: Block, n: nat, ghost r: seq<Block>, ghost k: nat) returns (ghost line: seq<Block>)
    requires n > 0 && 0 < k <= |r| && Cycle(r) && last == r[k - 1]
    modifies last`next
    ensures |line| == n && fresh(line) && Cycle(r[..k] + line + r[k..])
    ensures forall i :: 0 <= i < n ==> line[i].msgNo == 0
  {
    var head, tail;
    head, tail, line := NewChain(n);
    assert last.next == r[After(k - 1, |r|)];
    tail.next := last.next;
    last.next := head;
    Splice(r, k, line);
  }

  /** Copies piece i of n of the user's data into a block. */
  method WritePiece(s: Block, m: Send, mss: nat, i: nat, n: nat, no: bv32)
    requires mss > 0 && i < n == |Split(m.data, mss)|
    modifies s`data, s`msgNo, s`ttl, s`time
    ensures ChunkAt(s) == Blocks(m, mss, no)[i]
  {
    SplitAt(m.data, mss, i);
    var pktlen := |m.data| - i * mss;
    if pktlen > mss {
      pktlen := mss;
    }
    s.data := m.data[i * mss..i * mss + pktlen];
    s.msgNo := Field(no, m.order, i == 0, i == n - 1);
    s.time := m.time;
    s.ttl := m.ttl;
  }

  // ----- The blocks behind the queue

  /** Block i behind the queue was last used for packet spare[i] of the stream, or never, if that is negative. */
  ghost predicate Spare(ring: seq<Block>, count: nat, spare: seq<int>, cs: seq<Chunk>)
    reads ring`data, ring`msgNo, ring`ttl, ring`time
  {
    && count + |spare| == |ring|
    && forall i :: 0 <= i < |spare| ==> SpareOne(ring[count + i], spare[i], cs)
  }

  ghost predicate SpareOne(b: Block, k: int, cs: seq<Chunk>)
    reads b`data, b`msgNo, b`ttl, b`time
  {
    k < |cs| && if k < 0 then b.msgNo == 0 else ChunkAt(b) == cs[k]
  }

  /** Links n new blocks in behind block `count` of a cycle with these packets. */
  method GrowMore(last: Block, n: nat, ghost r: seq<Block>, ghost count: nat, ghost front: seq<Chunk>,
                  ghost spare: seq<int>, ghost cs: seq<Chunk>) returns (ghost r': seq<Block>)
    requires n > 0 && count < |r| && Cycle(r) && last == r[count]
    requires |front| == count && Holds(r, 0, front) && Spare(r, count, spare, cs)
    modifies last`next
    ensures |r'| == |r| + n && Cycle(r') && Holds(r', 0, front)
    ensures Spare(r', count, Grown(spare, n), cs)
    ensures (forall i :: 0 <= i <= count ==> r'[i] == r[i]) && forall b :: b in r' ==> b in r || fresh(b)
  {
    ghost var line := Grow(last, n, r, count + 1);
    r' := r[..count + 1] + line + r[count + 1..];
    SpareGrow(r, count, line, spare, cs);
    HoldsFront(r, r', front);
  }

  lemma HoldsFront(r: seq<Block>, r': seq<Block>, front: seq<Chunk>)
    requires Holds(r, 0, front) && |r| <= |r'| && forall i :: 0 <= i < |front| ==> r'[i] == r[i]
    ensures Holds(r', 0, front)
  {
    forall i | 0 <= i < |front| ensures ChunkAt(r'[0 + i]) == front[i] {
      assert ChunkAt(r[0 + i]) == front[i];
    }
  }

  /** How many packets of the last message are acked; it starts at place `last`. */
  function Gone(acked: nat, last: nat): nat { if acked > last then acked - last else 0 }

  /** Only the last of these blocks were used for the last message. */
  ghost predicate Late(spare: seq<int>, acked: nat, last: nat) {
    Gone(acked, last) < |spare| && forall i :: 0 <= i < |spare| - Gone(acked, last) ==> spare[i] < last
  }

  function News(n: nat): (r: seq<int>)
    ensures |r| == n && forall i :: 0 <= i < n ==> r[i] == -1
  {
    seq(n, i => -1)
  }

  /** The numbers from a to b - 1. */
  function Range(a: nat, b: nat): (r: seq<int>)
    requires a <= b
    ensures |r| == b - a && forall i :: 0 <= i < |r| ==> r[i] == a + i
  {
    seq(b - a, i => a + i)
  }

  function Grown(spare: seq<int>, n: nat): seq<int>
    requires spare != []
  {
    spare[..1] + News(n) + spare[1..]
  }

  lemma GrownAt(spare: seq<int>, n: nat, i: nat)
    requires spare != [] && i < |spare| + n
    ensures Grown(spare, n)[i] == if i < 1 then spare[i] else if i < n + 1 then -1 else spare[i - n]
  {
  }

  lemma LateGrow(spare: seq<int>, acked: nat, last: nat, n: nat)
    requires Late(spare, acked, last)
    ensures Late(Grown(spare, n), acked, last)
  {
    forall i | 0 <= i < |spare| + n - Gone(acked, last) ensures Grown(spare, n)[i] < last {
      GrownAt(spare, n, i);
    }
  }

  lemma SpareGrow(r: seq<Block>, count: nat, line: seq<Block>, spare: seq<int>, cs: seq<Chunk>)
    requires Spare(r, count, spare, cs) && spare != [] && forall i :: 0 <= i < |line| ==> line[i].msgNo == 0
    ensures Spare(r[..count + 1] + line + r[count + 1..], count, Grown(spare, |line|), cs)
  {
    forall i | 0 <= i < |spare| + |line|
      ensures SpareOne((r[..count + 1] + line + r[count + 1..])[count + i], Grown(spare, |line|)[i], cs)
    {
      SpliceAt(r, count + 1, line, count + i);
      GrownAt(spare, |line|, i);
      if i > |line| {
        assert SpareOne(r[count + (i - |line|)], spare[i - |line|], cs);
      }
    }
  }

  /** The packets that are acked come last. */
  lemma SpareTurn(r: seq<Block>, count: nat, spare: seq<int>, k: nat, cs: seq<Chunk>, acked: nat)
    requires Spare(r, count, spare, cs) && k <= count && |cs| == acked + count && Holds(r, 0, cs[acked..])
    ensures Spare(r[k..] + r[..k], count - k, spare + Range(acked, acked + k), cs)
  {
    var s := spare + Range(acked, acked + k);
    forall i | 0 <= i < |s| ensures SpareOne((r[k..] + r[..k])[count - k + i], s[i], cs) {
      if i < |spare| {
        assert (r[k..] + r[..k])[count - k + i] == r[count + i];
        assert SpareOne(r[count + i], spare[i], cs);
      } else {
        assert (r[k..] + r[..k])[count - k + i] == r[i - |spare|];
        assert ChunkAt(r[0 + (i - |spare|)]) == cs[acked..][i - |spare|];
      }
    }
  }

  lemma LateTurn(spare: seq<int>, acked: nat, last: nat, k: nat, count: nat)
    requires Late(spare, acked, last) && k <= count && last <= acked + count
    ensures Late(spare + Range(acked, acked + k), acked + k, last)
  {
  }

  /** The first block behind the queue has another number than the last packet. */
  lemma NotSpare(b: Block, k: int, cs: seq<Chunk>, sends: seq<Send>, mss: nat)
    requires mss > 0 && cs == StreamOf(sends, mss, 1) && cs != [] && Fits(1, |sends|)
    requires SpareOne(b, k, cs) && k < LastStart(sends, mss)
    ensures b.msgNo & NUMBER != NumberOf(cs[|cs| - 1])
  {
    if k >= 0 {
      LastStartIn(sends, mss, 1);
      EarlierNumber(sends, mss, 1, k);
    } else {
      var j := NumberFrom(sends, mss, 1, |cs| - 1);
      OtherNumber(0, |sends| + 1, j, NumberOf(cs[|cs| - 1]));
      NoNumber(b.msgNo);
    }
  }

  lemma NoNumber(b: bv32)
    requires b == 0
    ensures b & NUMBER == 0
  {
  }

  /** The time to live of a packet is over; times are unsigned microseconds. */
  predicate TooOld(ttl: int, time: int, now: int) {
    ttl > 0 && (if now >= time then now - time else now - time + 0x1_0000_0000_0000_0000) / 1000 > ttl
  }

  predicate Expired(c: Chunk, now: int) { TooOld(c.ttl, c.time, now) }

  /** The blocks from place `from` on hold cs. */
  ghost predicate Holds(ring: seq<Block>, from: nat, cs: seq<Chunk>)
    reads ring`data, ring`msgNo, ring`ttl, ring`time
  {
    from + |cs| <= |ring| && forall i :: 0 <= i < |cs| ==> ChunkAt(ring[from + i]) == cs[i]
  }

  lemma HoldsMore(ring: seq<Block>, stream: seq<Chunk>, acked: nat, blocks: seq<Chunk>)
    requires acked <= |stream| && Holds(ring, 0, stream[acked..]) && Holds(ring, |stream| - acked, blocks)
    ensures Holds(ring, 0, (stream + blocks)[acked..])
  {
    HoldsConcat(ring, stream[acked..], blocks);
    assert (stream + blocks)[acked..] == stream[acked..] + blocks;
  }

  lemma HoldsConcat(ring: seq<Block>, a: seq<Chunk>, b: seq<Chunk>)
    requires Holds(ring, 0, a) && Holds(ring, |a|, b)
    ensures Holds(ring, 0, a + b)
  {
    forall i | 0 <= i < |a + b| ensures ChunkAt(ring[0 + i]) == (a + b)[i] {
      if i < |a| {
        assert ChunkAt(ring[0 + i]) == a[i];
      } else {
        assert ChunkAt(ring[|a| + (i - |a|)]) == b[i - |a|];
      }
    }
  }

  /** What a turned cycle holds once k packets are gone. */
  lemma HoldsRotate(ring: seq<Block>, k: nat, cs: seq<Chunk>)
    requires k <= |cs| && k < |ring| && Holds(ring, 0, cs)
    ensures Holds(ring[k..] + ring[..k], 0, cs[k..])
  {
    forall i | 0 <= i < |cs| - k ensures ChunkAt((ring[k..] + ring[..k])[0 + i]) == cs[k..][i] {
      assert ChunkAt(ring[0 + (k + i)]) == cs[k + i];
    }
  }

  /** The stream is what the messages give, and `no` is the number of the next message. */
  ghost predicate Numbered(stream: seq<Chunk>, sends: seq<Send>, mss: nat, no: bv32) {
    mss > 0 && stream == StreamOf(sends, mss, 1) && no == Bump(1, |sends|)
  }

  lemma NumberedMore(stream: seq<Chunk>, sends: seq<Send>, mss: nat, no: bv32, m: Send, next: bv32)
    requires Numbered(stream, sends, mss, no) && next == no + 1
    ensures Numbered(stream + Blocks(m, mss, no), sends + [m], mss, next)
  {
    StreamOfSnoc(sends, m, mss, 1);
    BumpMore(1, |sends|);
  }

  /** The number of packets for a piece of user data. */
  method Pieces(user: seq<bv8>, mss: nat) returns (n: nat)
    requires mss > 0
    ensures n == |Split(user, mss)|
  {
    SplitCount(user, mss);
    n := |user| / mss;
    if |user| % mss != 0 {
      n := n + 1;
    }
  }

  class SndBuffer {
    const mss: nat
    const unitSize: nat
    var firstBlock: Block
    var currBlock: Block
    var lastBlock: Block
    var nextMsgNo: bv32
    var size: nat
    var count: nat
    /** The cycle from firstBlock on. */
    ghost var ring: seq<Block>
    /** How many of the unacked packets were read. */
    ghost var read: nat
    /** Every user message that was added, and how many packets were acked. */
    ghost var sends: seq<Send>
    /** All packets in the order they were added, from the first ever. */
    ghost var stream: seq<Chunk>
    ghost var acked: nat
    /** For which packets the blocks behind the queue were used last. */
    ghost var spare: seq<int>

    ghost predicate Shape()
      reads this, ring
    {
      && mss > 0 && unitSize > 0
      && |ring| == size && Cycle(ring)
      && count < size && read <= count
      && firstBlock == ring[0] && currBlock == ring[read] && lastBlock == ring[count]
    }

    /** The first `count` blocks hold the packets of the stream that are not acked yet. */
    ghost predicate Queue()
      reads this, ring
    {
      && Shape()
      && |stream| == acked + count
      && Holds(ring, 0, stream[acked..])
    }

    /** No block right behind the queue was used for the last message. */
    ghost predicate Spares()
      reads this, ring
    {
      mss > 0 && Spare(ring, count, spare, stream) && Late(spare, acked, LastStart(sends, mss))
    }

    ghost predicate Valid()
      reads this, ring
    {
      Queue() && Numbered(stream, sends, mss, nextMsgNo) && Spares()
    }

    constructor (n: nat, m: nat)
      requires n > 0 && m > 0
      ensures Valid() && fresh(ring)
      ensures mss == m && size == n && sends == [] && acked == 0 && read == 0 && count == 0
    {
      mss, unitSize, size, count, nextMsgNo := m, n, n, 0, 1;
      sends, stream, acked, read, spare := [], [], 0, 0, News(n);
      var head, tail;
      ghost var line;
      head, tail, line := NewChain(n);
      tail.next := head;
      firstBlock, currBlock, lastBlock := head, head, head;
      ring := line;
    }

    /** Adds one more physical buffer: unitSize blocks go into the cycle behind the last block. */
    method Increase()
      requires Queue() && Spares()
      modifies `ring, `size, `spare, lastBlock`next
      ensures Queue() && Spares() && size == old(size) + unitSize
      ensures forall b :: b in ring ==> b in old(ring) || fresh(b)
    {
      ghost var r := GrowMore(lastBlock, unitSize, ring, count, stream[acked..], spare, stream);
      LateGrow(spare, acked, LastStart(sends, mss), unitSize);
      assert firstBlock == r[0] && currBlock == r[read] && lastBlock == r[count];
      SetRing(r, Grown(spare, unitSize), size + unitSize);
    }

    method SetRing(ghost r: seq<Block>, ghost s: seq<int>, n: nat)
      requires mss > 0 && unitSize > 0 && |r| == n && Cycle(r)
      requires |stream| == acked + count && Holds(r, 0, stream[acked..])
      requires count < n && read <= count && firstBlock == r[0] && currBlock == r[read] && lastBlock == r[count]
      requires Spare(r, count, s, stream) && Late(s, acked, LastStart(sends, mss))
      modifies `ring, `spare, `size
      ensures Queue() && Spares() && ring == r && size == n
    {
      ring, spare, size := r, s, n;
    }

    /** One round of the loop below. */
    method FillOne(s: Block, m: Send, n: nat, i: nat, ghost blocks: seq<Chunk>, ghost front: seq<Chunk>,
                   ghost back: seq<int>) returns (s': Block)
      requires Shape() && i < n == |Split(m.data, mss)| && count + n < size
      requires blocks == Blocks(m, mss, nextMsgNo)
      requires s == ring[count + i] && Holds(ring, count, blocks[..i])
      requires |front| == count && Holds(ring, 0, front) && Spare(ring, count + i, back, stream) && back != []
      modifies s`data, s`msgNo, s`ttl, s`time
      ensures Shape() && s' == ring[count + i + 1] && Holds(ring, count, blocks[..i + 1])
      ensures Holds(ring, 0, front)
      ensures Spare(ring, count + i + 1, back[1..], stream)
    {
      forall k | 0 <= k < i ensures ring[count + k] != s && ChunkAt(ring[count + k]) == blocks[k] {
        assert ChunkAt(ring[count + k]) == blocks[..i][k];
      }
      forall k | 0 <= k < count ensures ring[0 + k] != s && ChunkAt(ring[0 + k]) == front[k] {
      }
      forall k | 0 <= k < |back| - 1
        ensures ring[count + i + 1 + k] != s && SpareOne(ring[count + i + 1 + k], back[1..][k], stream)
      {
        assert SpareOne(ring[count + i + (k + 1)], back[k + 1], stream);
      }
      WritePiece(s, m, mss, i, n, nextMsgNo);
      assert s.next == ring[After(count + i, |ring|)];
      s' := s.next;
    }

    /** Writes the pieces of a message into the blocks from lastBlock on. */
    method Fill(m: Send, n: nat, ghost front: seq<Chunk>) returns (s: Block)
      requires Shape() && n == |Split(m.data, mss)| && count + n < size
      requires |front| == count && Holds(ring, 0, front) && Spare(ring, count, spare, stream)
      modifies set i | count <= i < size :: ring[i]
      ensures Shape() && s == ring[count + n]
      ensures Holds(ring, count, Blocks(m, mss, nextMsgNo))
      ensures Holds(ring, 0, front)
      ensures n < |spare| && Spare(ring, count + n, spare[n..], stream)
    {
      ghost var blocks := Blocks(m, mss, nextMsgNo);
      s := lastBlock;
      for i := 0 to n
        invariant Shape() && s == ring[count + i]
        invariant Holds(ring, count, blocks[..i])
        invariant Holds(ring, 0, front)
        invariant Spare(ring, count + i, spare[i..], stream)
      {
        s := FillOne(s, m, n, i, blocks, front, spare[i..]);
        assert spare[i..][1..] == spare[i + 1..];
      }
      assert blocks[..n] == blocks;
    }

    /** Grows the buffer until n more blocks fit. */
    method Reserve(n: nat)
      requires Queue() && Spares()
      modifies `ring, `size, `spare, ring
      ensures Queue() && Spares() && n + count < size
      ensures forall b :: b in ring ==> b in old(ring) || fresh(b)
      ensures size >= old(size) && (n + count < old(size) ==> size == old(size))
    {
      while n + count >= size
        invariant Queue() && Spares()
        invariant size >= old(size) && (n + count < old(size) ==> size == old(size))
        invariant forall b :: b in ring ==> b in old(ring) || fresh(b)
        decreases n + count - size
      {
        assert lastBlock in ring;
        Increase();
      }
    }

    /** Appends the n pieces of a message, for which there is room. */
    method Append(m: Send, n: nat)
      requires Queue() && Spares() && n == |Split(m.data, mss)| && count + n < size
      modifies `lastBlock, `count, `stream, ring
      ensures Queue() && count == old(count) + n
      ensures stream == old(stream) + Blocks(m, mss, nextMsgNo)
      ensures n < |spare| && Spare(ring, count, spare[n..], old(stream))
    {
      ghost var blocks := Blocks(m, mss, nextMsgNo);
      var s := Fill(m, n, stream[acked..]);
      HoldsMore(ring, stream, acked, blocks);
      Extend(s, n, blocks, spare[n..]);
    }

    /** The n blocks from lastBlock on join the queue. */
    method Extend(s: Block, n: nat, ghost blocks: seq<Chunk>, ghost back: seq<int>)
      requires Queue() && |blocks| == n && count + n < size && s == ring[count + n]
      requires Holds(ring, 0, (stream + blocks)[acked..]) && Spare(ring, count + n, back, stream)
      modifies `lastBlock, `count, `stream
      ensures Queue() && count == old(count) + n && stream == old(stream) + blocks
      ensures Spare(ring, count, back, old(stream))
    {
      lastBlock, count, stream := s, count + n, stream + blocks;
    }

    /** Cuts a message into blocks at the end of the queue. */
    method AddBlocks(m: Send)
      requires Queue() && Spares()
      modifies `ring, `size, `lastBlock, `count, `stream, `spare, ring
      ensures Queue() && count == old(count) + |Split(m.data, mss)|
      ensures forall b :: b in ring ==> b in old(ring) || fresh(b)
      ensures stream == old(stream) + Blocks(m, mss, nextMsgNo)
      ensures size >= old(size) && (count < old(size) ==> size == old(size))
      ensures var n := |Split(m.data, mss)|;
        && n < |spare| && Spare(ring, count, spare[n..], old(stream)) && Late(spare, acked, LastStart(sends, mss))
    {
      var n := Pieces(m.data, mss);
      Reserve(n);
      assert forall i :: 0 <= i < |ring| ==> ring[i] in ring;
      Append(m, n);
    }

    /** Adds one user message to the end of the queue. */
    method AddBuffer(user: seq<bv8>, ttl: int, order: bool, now: int)
      requires Valid()
      modifies this, ring
      ensures Valid() && forall b :: b in ring ==> b in old(ring) || fresh(b)
      ensures sends == old(sends) + [Send(user, order, ttl, now)]
      ensures stream == old(stream) + Blocks(Send(user, order, ttl, now), mss, old(nextMsgNo))
      ensures acked == old(acked) && read == old(read)
      ensures count == old(count) + |Split(user, mss)|
      ensures size >= old(size) && (count < old(size) ==> size == old(size))
    {
      var m := Send(user, order, ttl, now);
      AddBlocks(m);
      Count(m, old(stream));
    }

    /** Counts the message, whose packets are in the queue. */
    method Count(ghost m: Send, ghost was: seq<Chunk>)
      requires Queue() && Numbered(was, sends, mss, nextMsgNo) && stream == was + Blocks(m, mss, nextMsgNo)
      requires count >= |Split(m.data, mss)| && |Split(m.data, mss)| < |spare|
      requires Spare(ring, count, spare[|Split(m.data, mss)|..], was) && Late(spare, acked, LastStart(sends, mss))
      modifies `sends, `nextMsgNo, `spare
      ensures Valid() && sends == old(sends) + [m]
    {
      NumberedMore(was, sends, mss, nextMsgNo, m, nextMsgNo + 1);
      spare := SparesMore(m, was);
      sends := sends + [m];
      nextMsgNo := nextMsgNo + 1;
    }

    lemma SparesMore(m: Send, was: seq<Chunk>) returns (s: seq<int>)
      requires Queue() && Numbered(was, sends, mss, nextMsgNo) && stream == was + Blocks(m, mss, nextMsgNo)
      requires count >= |Split(m.data, mss)| && |Split(m.data, mss)| < |spare|
      requires Spare(ring, count, spare[|Split(m.data, mss)|..], was) && Late(spare, acked, LastStart(sends, mss))
      ensures Spare(ring, count, s, stream) && Late(s, acked, LastStart(sends + [m], mss))
    {
      var n := |Split(m.data, mss)|;
      s := spare[n..];
      LastStartSnoc(sends, mss, m);
      forall i | 0 <= i < |s| ensures SpareOne(ring[count + i], s[i], stream) {
        assert SpareOne(ring[count + i], s[i], was);
      }
    }

    /** The next packet that was not read yet, if there is one. */
    method ReadData() returns (len: nat, data: seq<bv8>, msgNo: bv32)
      requires Valid()
      modifies `currBlock, `read
      ensures Valid()
      ensures old(read) == count ==> len == 0 && read == old(read)
      ensures old(read) < count ==>
        && read == old(read) + 1 && len == |data|
        && data == stream[acked + old(read)].data && msgNo == stream[acked + old(read)].msgNo
    {
      len, data, msgNo := 0, [], 0;
      if currBlock == lastBlock {
        return;
      }
      assert ChunkAt(ring[0 + read]) == stream[acked..][read];
      data, msgNo := currBlock.data, currBlock.msgNo;
      len := |currBlock.data|;
      assert currBlock.next == ring[After(read, |ring|)];
      currBlock := currBlock.next;
      read := read + 1;
    }

    /** The block `offset` places after firstBlock. */
    method Walk(offset: nat) returns (p: Block)
      requires Shape() && offset < size
      ensures p == ring[offset]
    {
      p := firstBlock;
      for i := 0 to offset
        invariant p == ring[i]
      {
        assert p.next == ring[After(i, |ring|)];
        p := p.next;
      }
    }

    /** The packet `offset` places after the ack point, for a retransmission. If its time to live is over, the rest
        of its message counts as read: msglen packets of number msgNo, counted from this one. */
    method ReadDataAt(offset: nat, now: int) returns (len: int, data: seq<bv8>, msgNo: bv32, msglen: nat)
      requires Valid() && offset < count
      requires Expired(stream[acked + offset], now) ==> Fits(1, |sends|)
      modifies `currBlock, `read
      ensures Valid()
      ensures !Expired(stream[acked + offset], now) ==>
        && read == old(read) && len == |data|
        && data == stream[acked + offset].data && msgNo == stream[acked + offset].msgNo
      ensures Expired(stream[acked + offset], now) ==>
        && len == -1
        && msgNo == NumberOf(stream[acked + offset])
        && Skipped(offset, msglen, old(read))
    {
      var late, next;
      late, data, msgNo, next := Peek(offset, now);
      if !late {
        return |data|, data, msgNo, 0;
      }
      msglen := DropMessage(offset, next, msgNo);
      len := -1;
    }

    /** The n packets from `offset` on are the rest of a message; the packet to be read next, which was `was`, is not
        one of those behind the first. */
    ghost predicate Skipped(offset: nat, n: nat, was: nat)
      reads this
    {
      && SameNumber(stream, acked + offset, n)
      && read == if offset < was < offset + n then offset + n else was
    }

    /** What is said of a packet: its field, or the number in it if its time to live is over. */
    method Peek(offset: nat, now: int) returns (late: bool, data: seq<bv8>, msgNo: bv32, next: Block?)
      requires Valid() && offset < count
      ensures next == ring[offset].next
      ensures var c := stream[acked + offset];
        late == Expired(c, now) && data == c.data && msgNo == if late then NumberOf(c) else c.msgNo
    {
      var p := Walk(offset);
      ChunkHere(offset);
      late, data, next := TooOld(p.ttl, p.time, now), p.data, p.next;
      msgNo := if late then p.msgNo & NUMBER else p.msgNo;
    }

    /** Walks over the packets of a message that follow the one at `offset`. */
    method DropMessage(offset: nat, first: Block?, msgNo: bv32) returns (msglen: nat)
      requires Valid() && offset < count && Fits(1, |sends|)
      requires first == ring[offset].next && msgNo == NumberOf(stream[acked + offset])
      modifies `currBlock, `read
      ensures Valid() && Skipped(offset, msglen, old(read))
    {
      DropStart(offset, first, msgNo);
      ghost var p, move;
      msglen, p, move := DropLoop(offset, first, msgNo, read);
      Dropped(offset, msglen, msgNo, p, move, old(read));
    }

    method DropLoop(ghost offset: nat, first: Block, msgNo: bv32, ghost was: nat)
      returns (msglen: nat, ghost p': Block, ghost move': bool)
      requires Dropping(offset, 1, msgNo, first, false, was) && Fits(1, |sends|)
      modifies `currBlock, `read
      ensures Dropping(offset, msglen, msgNo, p', move', was) && p'.msgNo & NUMBER != msgNo
    {
      var p, move := first, false;
      msglen := 1;
      while p.msgNo & NUMBER == msgNo
        invariant Dropping(offset, msglen, msgNo, p, move, was)
        decreases count - msglen
      {
        p, move := DropOne(offset, msglen, msgNo, p, move, was);
        msglen := msglen + 1;
      }
      p', move' := p, move;
    }

    /** One packet further; the block to be read next goes along once it was reached. */
    method DropOne(ghost offset: nat, ghost n: nat, msgNo: bv32, p: Block, move: bool, ghost was: nat)
      returns (p': Block, move': bool)
      requires Dropping(offset, n, msgNo, p, move, was) && Fits(1, |sends|) && p.msgNo & NUMBER == msgNo
      modifies `currBlock, `read
      ensures offset + n < count && Dropping(offset, n + 1, msgNo, p', move', was)
    {
      InQueue(offset, n, msgNo);
      move' := move;
      if p == currBlock {
        move' := true;
      }
      p' := Follow(offset + n, p, move');
    }

    method Follow(ghost i: nat, p: Block, move: bool) returns (p': Block)
      requires Valid() && i < count && p == ring[i]
      modifies `currBlock, `read
      ensures Valid() && p' == ring[i + 1] && read == if move then i + 1 else old(read)
    {
      assert p.next == ring[After(i, |ring|)];
      p' := p.next;
      if move {
        currBlock, read := p', i + 1;
      }
    }

    /** The n packets from `offset` on have the number msgNo, and p is the next block; `move` says that the walk has
        passed packet `was`, the one to be read next before it began. */
    ghost predicate Dropping(offset: nat, n: nat, msgNo: bv32, p: Block, move: bool, was: nat)
      reads this, ring
    {
      && Valid() && Numbers(offset, n, msgNo) && p == ring[offset + n]
      && (move <==> offset < was < offset + n) && read == if move then offset + n else was
    }

    ghost predicate Numbers(offset: nat, n: nat, msgNo: bv32)
      reads this
    {
      && n > 0 && offset + n <= count && |stream| == acked + count
      && AllNumbered(stream, acked + offset, n, msgNo)
    }

    lemma DropStart(offset: nat, first: Block?, msgNo: bv32)
      requires Valid() && offset < count && first == ring[offset].next && msgNo == NumberOf(stream[acked + offset])
      ensures first != null && Dropping(offset, 1, msgNo, first, false, read)
    {
      assert ring[offset].next == ring[After(offset, |ring|)];
    }

    /** The walk ends with the message. */
    lemma Dropped(offset: nat, n: nat, msgNo: bv32, p: Block, move: bool, was: nat)
      requires Dropping(offset, n, msgNo, p, move, was) && p.msgNo & NUMBER != msgNo
      ensures Valid() && Skipped(offset, n, was)
    {
      NumberHere(offset + n);
    }

    lemma ChunkHere(i: nat)
      requires Queue() && i < count
      ensures ChunkAt(ring[i]) == stream[acked + i]
    {
      assert ChunkAt(ring[0 + i]) == stream[acked..][i];
    }

    /** The number in a block of the queue is that of its packet. */
    lemma NumberHere(i: nat)
      requires Queue() && i <= count
      ensures i < count ==> ring[i].msgNo & NUMBER == NumberOf(stream[acked + i])
    {
      if i < count {
        ChunkHere(i);
      }
    }

    lemma FirstSpare()
      requires Valid()
      ensures mss > 0 && spare != [] && SpareOne(ring[count], spare[0], stream) && spare[0] < LastStart(sends, mss)
      ensures stream == StreamOf(sends, mss, 1)
    {
      assert SpareOne(ring[count + 0], spare[0], stream);
    }

    /** As long as the number stays, the walk has not left the queue. */
    lemma InQueue(offset: nat, n: nat, msgNo: bv32)
      requires Valid() && Fits(1, |sends|) && Numbers(offset, n, msgNo) && ring[offset + n].msgNo & NUMBER == msgNo
      ensures offset + n < count && Numbers(offset, n + 1, msgNo)
    {
      if offset + n == count {
        FirstSpare();
        NotSpare(ring[count], spare[0], stream, sends, mss);
      } else {
        NumberHere(offset + n);
      }
    }

    /** The first `offset` packets, which were all read, leave the queue. */
    method AckData(offset: nat)
      requires Valid() && offset <= read
      modifies `firstBlock, `count, `ring, `acked, `read, `spare
      ensures Valid() && ring == old(ring)[offset..] + old(ring)[..offset]
      ensures acked == old(acked) + offset && read == old(read) - offset && count == old(count) - offset
    {
      var first := Walk(offset);
      ghost var r, s := AckReady(offset);
      Turn(first, offset, r, s);
    }

    /** The cycle, and for which packets the blocks behind the queue were used, once k packets are acked. */
    lemma AckReady(k: nat) returns (r: seq<Block>, s: seq<int>)
      requires Valid() && k <= read
      ensures r == ring[k..] + ring[..k] && |r| == size && Cycle(r) && Holds(r, 0, stream[acked + k..])
      ensures r[0] == ring[k] && r[read - k] == currBlock && r[count - k] == lastBlock
      ensures Spare(r, count - k, s, stream) && Late(s, acked + k, LastStart(sends, mss))
    {
      r := Rotate(ring, k, read, count, stream, acked);
      SparesTurn(k);
      s := spare + Range(acked, acked + k);
    }

    lemma SparesTurn(k: nat)
      requires Valid() && k <= count
      ensures var s := spare + Range(acked, acked + k);
        Spare(ring[k..] + ring[..k], count - k, s, stream) && Late(s, acked + k, LastStart(sends, mss))
    {
      SpareTurn(ring, count, spare, k, stream, acked);
      LastStartIn(sends, mss, 1);
      LateTurn(spare, acked, LastStart(sends, mss), k, count);
    }

    /** The queue begins at block `first` of the cycle r. */
    method Turn(first: Block, offset: nat, ghost r: seq<Block>, ghost s: seq<int>)
      requires Queue() && offset <= read && |r| == size && Cycle(r) && Holds(r, 0, stream[acked + offset..])
      requires r[0] == first && r[read - offset] == currBlock && r[count - offset] == lastBlock
      requires Spare(r, count - offset, s, stream) && Late(s, acked + offset, LastStart(sends, mss))
      modifies `firstBlock, `count, `ring, `acked, `read, `spare
      ensures Queue() && Spares() && ring == r
      ensures acked == old(acked) + offset && read == old(read) - offset && count == old(count) - offset
    {
      MoveOn(first, offset, r);
      SetSpare(s);
    }

    method MoveOn(first: Block, offset: nat, ghost r: seq<Block>)
      requires Queue() && offset <= read && |r| == size && Cycle(r) && Holds(r, 0, stream[acked + offset..])
      requires r[0] == first && r[read - offset] == currBlock && r[count - offset] == lastBlock
      modifies `firstBlock, `count, `ring, `acked, `read
      ensures Queue() && ring == r
      ensures acked == old(acked) + offset && read == old(read) - offset && count == old(count) - offset
    {
      firstBlock, count := first, count - offset;
      ring, acked, read := r, acked + offset, read - offset;
    }

    method SetSpare(ghost s: seq<int>)
      requires Queue() && Spare(ring, count, s, stream) && Late(s, acked, LastStart(sends, mss))
      modifies `spare
      ensures Queue() && Spares()
    {
      spare := s;
    }
  }

  lemma RotatedAt(r: seq<Block>, k: nat, i: nat)
    requires k + i < |r|
    ensures (r[k..] + r[..k])[i] == r[k + i]
  {
  }

  lemma RotatedCycle(r: seq<Block>, k: nat)
    requires Cycle(r) && k < |r|
    ensures Cycle(r[k..] + r[..k])
  {
    var t := r[k..] + r[..k];
    forall i | 0 <= i < |t| ensures t[i].next == t[After(i, |t|)] {
      TurnedAt(r, k, i);
      TurnedAt(r, k, After(i, |t|));
    }
    forall i, j | 0 <= i < j < |t| ensures t[i] != t[j] {
      TurnedAt(r, k, i);
      TurnedAt(r, k, j);
    }
  }

  lemma TurnedAt(r: seq<Block>, k: nat, i: nat)
    requires k < |r| && i < |r|
    ensures (r[k..] + r[..k])[i] == r[if k + i < |r| then k + i else k + i - |r|]
  {
  }

  /** The cycle read from its block k on is the same cycle, with the queue from its packet k on. */
  lemma Rotate(ring: seq<Block>, k: nat, read: nat, count: nat, stream: seq<Chunk>, acked: nat) returns (r: seq<Block>)
    requires Cycle(ring) && k <= read <= count < |ring| && |stream| == acked + count && Holds(ring, 0, stream[acked..])
    ensures r == ring[k..] + ring[..k] && |r| == |ring| && Cycle(r) && Holds(r, 0, stream[acked + k..])
    ensures r[0] == ring[k] && r[read - k] == ring[read] && r[count - k] == ring[count]
  {
    r := ring[k..] + ring[..k];
    RotatedCycle(ring, k);
    RotatedAt(ring, k, 0);
    RotatedAt(ring, k, read - k);
    RotatedAt(ring, k, count - k);
    HoldsRotate(ring, k, stream[acked..]);
    assert stream[acked..][k..] == stream[acked + k..];
  }
}
