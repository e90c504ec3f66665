/** How the sending buffer cuts user data into numbered packets. */
module SendSpec {
  import opened Packets

  /** One block of the sending list: its bytes and its message number field, how many milliseconds it may live if
      that is positive, and when it was sent. */
  datatype Chunk = Chunk(data: seq<bv8>, msgNo: bv32, ttl: int, time: int)

  const FIRST: bv32 := 0x8000_0000
  const LAST: bv32 := 0x4000_0000
  const ORDER: bv32 := 0x2000_0000
  const NUMBER: bv32 := 0x1FFF_FFFF

  /** The message number field of a packet, put together bit by bit. */
  function Field(no: bv32, order: bool, first: bool, last: bool): bv32 {
    no | (if order then ORDER else 0) | (if first then FIRST else 0) | (if last then LAST else 0)
  }

  /** What the receiver reads in the field. */
  function Decode(c: Chunk): Packet {
    Packet(c.data, c.msgNo & FIRST != 0, c.msgNo & LAST != 0, c.msgNo & ORDER != 0)
  }

  /** The field carries number, order and boundary exactly when the number fits 29 bits. */
  lemma FieldReadsBack(no: bv32, order: bool, first: bool, last: bool)
    ensures no <= NUMBER ==>
      var m := Field(no, order, first, last);
      && m & NUMBER == no
      && (m & ORDER != 0 <==> order)
      && (m & FIRST != 0 <==> first)
      && (m & LAST != 0 <==> last)
  {
  }

  /** With a number of 30 bits or more some field comes back wrong. */
  lemma FieldOverflows(no: bv32)
    requires no > NUMBER
    ensures var m := Field(no, false, false, false);
      m & ORDER != 0 || m & FIRST != 0 || m & LAST != 0
  {
  }

  /** User data cut into pieces of at most mss bytes. */
  function Split(data: seq<bv8>, mss: nat): (parts: seq<seq<bv8>>)
    requires mss > 0
    ensures data == [] <==> parts == []
  {
    if data == [] then []
    else if |data| <= mss then [data]
    else [data[..mss]] + Split(data[mss..], mss)
  }

  lemma MulSign(d: int, m: int)
    requires m > 0
    ensures d >= 1 ==> d * m >= m
    ensures d <= -1 ==> d * m <= -m
  {
    if d >= 1 { assert (d - 1) * m >= 0; }
    if d <= -1 { assert (-d - 1) * m >= 0; }
  }

  lemma DivUnique(a: nat, m: nat, q: nat, r: nat)
    requires m > 0 && a == q * m + r && r < m
    ensures a / m == q && a % m == r
  {
    MulSign(a / m - q, m);
    assert (a / m - q) * m == r - a % m;
  }

  lemma DivStep(a: nat, m: nat)
    requires 0 < m <= a
    ensures a / m == (a - m) / m + 1 && a % m == (a - m) % m
  {
    var q, r := (a - m) / m, (a - m) % m;
    assert (q + 1) * m == q * m + m;
    DivUnique(a, m, q + 1, r);
  }

  /** The number of pieces: the length divided by mss, rounded up. */
  lemma {:induction false} SplitCount(data: seq<bv8>, mss: nat)
    requires mss > 0
    ensures |Split(data, mss)| == |data| / mss + (if |data| % mss != 0 then 1 else 0)
    decreases |data|
  {
    if |data| >= mss {
      DivStep(|data|, mss);
      if |data| > mss { SplitCount(data[mss..], mss); }
    }
  }

  /** Where piece i starts. */
  function Offset(i: nat, mss: nat): nat { if i == 0 then 0 else mss + Offset(i - 1, mss) }

  lemma {:induction false} OffsetIs(i: nat, mss: nat)
    ensures Offset(i, mss) == i * mss
  {
    if i > 0 {
      OffsetIs(i - 1, mss);
    }
  }

  lemma SubSlice(data: seq<bv8>, m: nat, a: nat, b: nat)
    requires m <= |data| && a <= b <= |data| - m
    ensures data[m..][a..b] == data[m + a..m + b]
  {
  }

  lemma {:induction false} SplitFrom(data: seq<bv8>, mss: nat, i: nat)
    requires mss > 0 && i < |Split(data, mss)|
    ensures var o := Offset(i, mss);
      o < |data| && Split(data, mss)[i] == data[o..if |data| - o > mss then o + mss else |data|]
    decreases i
  {
    if i > 0 {
      SplitFrom(data[mss..], mss, i - 1);
      var o, n := Offset(i - 1, mss), |data| - mss;
      SubSlice(data, mss, o, if n - o > mss then o + mss else n);
    }
  }

  /** Piece i of the data starts i * mss bytes in. */
  lemma SplitAt(data: seq<bv8>, mss: nat, i: nat)
    requires mss > 0 && i < |Split(data, mss)|
    ensures i * mss < |data|
    ensures Split(data, mss)[i] == data[i * mss..if |data| - i * mss > mss then i * mss + mss else |data|]
  {
    SplitFrom(data, mss, i);
    OffsetIs(i, mss);
  }

  /** Piece i of n of a message as a block. */
  function Stamped(m: Send, part: seq<bv8>, no: bv32, i: nat, n: nat): Chunk {
    Chunk(part, Field(no, m.order, i == 0, i == n - 1), m.ttl, m.time)
  }

  /** The pieces of one message as blocks. */
  function Stamp(m: Send, parts: seq<seq<bv8>>, no: bv32): (cs: seq<Chunk>)
    ensures |cs| == |parts|
    ensures forall i :: 0 <= i < |cs| ==> cs[i] == Stamped(m, parts[i], no, i, |parts|)
  {
    seq(|parts|, i requires 0 <= i < |parts| => Stamped(m, parts[i], no, i, |parts|))
  }

  /** The blocks that addBuffer appends. */
  function Blocks(m: Send, mss: nat, no: bv32): seq<Chunk>
    requires mss > 0
  {
    Stamp(m, Split(m.data, mss), no)
  }

  function DecodeAll(cs: seq<Chunk>): (ps: seq<Packet>)
    ensures |ps| == |cs|
    ensures forall i :: 0 <= i < |cs| ==> ps[i] == Decode(cs[i])
  {
    seq(|cs|, i requires 0 <= i < |cs| => Decode(cs[i]))
  }

  /** A user message handed to addBuffer, and when. */
  datatype Send = Send(data: seq<bv8>, order: bool, ttl: int, time: int)

  /** The message number after n more messages. */
  function Bump(no: bv32, n: nat): bv32
    decreases n
  {
    if n == 0 then no else Bump(no + 1, n - 1)
  }

  lemma {:induction false} BumpMore(no: bv32, n: nat)
    ensures Bump(no, n + 1) == Bump(no, n) + 1
    decreases n
  {
    if n > 0 { BumpMore(no + 1, n - 1); }
  }

  /** n numbers from `no` on fit the 29 bits of the field. */
  predicate Fits(no: bv32, n: nat)
    decreases n
  {
    n == 0 || (no <= NUMBER && Fits(no + 1, n - 1))
  }

  /** Everything a buffer appended for the messages, numbered from `no` on. */
  function StreamOf(msgs: seq<Send>, mss: nat, no: bv32): seq<Chunk>
    requires mss > 0
  {
    if msgs == [] then []
    else Blocks(msgs[0], mss, no) + StreamOf(msgs[1..], mss, no + 1)
  }

  lemma {:induction false} StreamOfSnoc(msgs: seq<Send>, m: Send, mss: nat, no: bv32)
    requires mss > 0
    ensures StreamOf(msgs + [m], mss, no)
         == StreamOf(msgs, mss, no) + Blocks(m, mss, Bump(no, |msgs|))
  {
    if msgs == [] {
      assert StreamOf([m], mss, no) == Blocks(m, mss, no) + StreamOf([m][1..], mss, no + 1);
      assert [m][1..] == [] && msgs + [m] == [m];
    } else {
      assert (msgs + [m])[1..] == msgs[1..] + [m];
      StreamOfSnoc(msgs[1..], m, mss, no + 1);
    }
  }

  function Join(parts: seq<seq<bv8>>): seq<bv8> {
    if parts == [] then [] else parts[0] + Join(parts[1..])
  }

  lemma {:induction false} JoinSplit(data: seq<bv8>, mss: nat)
    requires mss > 0
    ensures Join(Split(data, mss)) == data
  {
    if |data| > mss {
      JoinSplit(data[mss..], mss);
      assert Split(data, mss)[1..] == Split(data[mss..], mss);
    } else if data != [] {
      assert [data][1..] == [];
    }
  }

  lemma {:induction false} PayloadOfParts(parts: seq<seq<bv8>>, ps: seq<Packet>)
    requires |ps| == |parts| && forall i :: 0 <= i < |ps| ==> ps[i].data == parts[i]
    ensures Payload(ps) == Join(parts)
  {
    if parts != [] {
      PayloadOfParts(parts[1..], ps[1..]);
    }
  }

  /** The blocks of one message, read back: their payload is the message, they carry its order
      flag, and the boundary bits mark the first and the last packet and no other. */
  lemma BlocksFramed(m: Send, mss: nat, no: bv32)
    requires mss > 0 && no <= NUMBER
    ensures var ps := DecodeAll(Blocks(m, mss, no));
      && Payload(ps) == m.data
      && (forall i :: 0 <= i < |ps| ==> ps[i].ordered == m.order)
      && (forall i :: 0 <= i < |ps| ==> ps[i].first == (i == 0) && ps[i].last == (i == |ps| - 1))
  {
    var parts := Split(m.data, mss);
    var ps := DecodeAll(Blocks(m, mss, no));
    PayloadOfParts(parts, ps);
    JoinSplit(m.data, mss);
    forall i | 0 <= i < |ps|
      ensures ps[i].ordered == m.order && ps[i].first == (i == 0) && ps[i].last == (i == |ps| - 1)
    {
      FieldReadsBack(no, m.order, i == 0, i == |ps| - 1);
    }
  }

  /** The packets of the stream are those of the first message and those of the others. */
  lemma StreamSplit(msgs: seq<Send>, mss: nat, no: bv32)
    requires mss > 0 && msgs != []
    ensures DecodeAll(StreamOf(msgs, mss, no))
         == DecodeAll(Blocks(msgs[0], mss, no)) + DecodeAll(StreamOf(msgs[1..], mss, no + 1))
  {
  }

  function Datas(msgs: seq<Send>): seq<bv8> {
    if msgs == [] then [] else msgs[0].data + Datas(msgs[1..])
  }

  /** The stream is well framed, ends with a message, and carries all the data in order. */
  lemma {:induction false} StreamFramed(msgs: seq<Send>, mss: nat, no: bv32)
    requires mss > 0 && Fits(no, |msgs|)
    ensures var ps := DecodeAll(StreamOf(msgs, mss, no));
      WellFramed(ps) && (ps != [] ==> ps[|ps| - 1].last) && Payload(ps) == Datas(msgs)
    decreases |msgs|
  {
    if msgs != [] {
      StreamFramed(msgs[1..], mss, no + 1);
      StreamSplit(msgs, mss, no);
      FramedMore(msgs[0], mss, no, DecodeAll(StreamOf(msgs[1..], mss, no + 1)));
    }
  }

  /** A message in front of a well framed stream. */
  lemma FramedMore(m: Send, mss: nat, no: bv32, b: seq<Packet>)
    requires mss > 0 && no <= NUMBER && WellFramed(b) && (b != [] ==> b[|b| - 1].last)
    ensures var ps := DecodeAll(Blocks(m, mss, no)) + b;
      WellFramed(ps) && (ps != [] ==> ps[|ps| - 1].last) && Payload(ps) == m.data + Payload(b)
  {
    var a := DecodeAll(Blocks(m, mss, no));
    BlocksFramed(m, mss, no);
    PayloadConcat(a, b);
    FramedConcat(a, b);
  }

  // ----- Message numbers

  function NumberOf(c: Chunk): bv32 { c.msgNo & NUMBER }

  lemma BlocksNumber(m: Send, mss: nat, no: bv32)
    requires mss > 0 && no <= NUMBER
    ensures forall i :: 0 <= i < |Blocks(m, mss, no)| ==> NumberOf(Blocks(m, mss, no)[i]) == no
  {
    var parts := Split(m.data, mss);
    forall i | 0 <= i < |Blocks(m, mss, no)| ensures NumberOf(Blocks(m, mss, no)[i]) == no {
      StampedNumber(m, parts[i], no, i, |parts|);
    }
  }

  lemma StampedNumber(m: Send, part: seq<bv8>, no: bv32, i: nat, n: nat)
    requires no <= NUMBER
    ensures NumberOf(Stamped(m, part, no, i, n)) == no
  {
    FieldReadsBack(no, m.order, i == 0, i == n - 1);
  }

  /** Packet i is of message j. */
  lemma {:induction false} NumberFrom(msgs: seq<Send>, mss: nat, no: bv32, i: nat) returns (j: nat)
    requires mss > 0 && Fits(no, |msgs|) && i < |StreamOf(msgs, mss, no)|
    ensures j < |msgs| && NumberOf(StreamOf(msgs, mss, no)[i]) == Bump(no, j)
    decreases |msgs|
  {
    var n := |Blocks(msgs[0], mss, no)|;
    if i < n {
      BlocksNumber(msgs[0], mss, no);
      j := 0;
    } else {
      j := NumberFrom(msgs[1..], mss, no + 1, i - n);
      j := j + 1;
    }
  }

  /** Later numbers are larger. */
  lemma {:induction false} BumpAbove(no: bv32, n: nat, x: bv32)
    requires Fits(no, n) && n > 0 && x == Bump(no, n)
    ensures no < x
    decreases n, 1
  {
    if n == 1 {
      assert Bump(no, 1) == Bump(no + 1, 0);
      NextNumber(no);
    } else {
      BumpOn(no, no + 1, n, x);
    }
  }

  lemma {:induction false} BumpOn(no: bv32, next: bv32, n: nat, x: bv32)
    requires n > 1 && Fits(next, n - 1) && x == Bump(next, n - 1) && no <= NUMBER && next == no + 1
    ensures no < x
    decreases n, 0
  {
    BumpAbove(next, n - 1, x);
    Above(no, next, x);
  }

  lemma NextNumber(no: bv32)
    requires no <= NUMBER
    ensures no < no + 1
  {
  }

  lemma Above(no: bv32, next: bv32, x: bv32)
    requires no <= NUMBER && next == no + 1 && next < x
    ensures no < x
  {
  }

  lemma {:induction false} FitsFewer(no: bv32, n: nat, k: nat)
    requires Fits(no, n) && k <= n
    ensures Fits(no, k)
    decreases n
  {
    if k > 0 {
      FitsFewer(no + 1, n - 1, k - 1);
    }
  }

  /** Where the last message with packets starts. */
  function LastStart(msgs: seq<Send>, mss: nat): nat
    requires mss > 0
  {
    if msgs == [] || StreamOf(msgs[1..], mss, 0) == [] then 0
    else |Split(msgs[0].data, mss)| + LastStart(msgs[1..], mss)
  }

  lemma {:induction false} SameLength(msgs: seq<Send>, mss: nat, no: bv32, no': bv32)
    requires mss > 0
    ensures |StreamOf(msgs, mss, no)| == |StreamOf(msgs, mss, no')|
    decreases |msgs|
  {
    if msgs != [] {
      SameLength(msgs[1..], mss, no + 1, no' + 1);
    }
  }

  lemma {:induction false} LastStartSnoc(msgs: seq<Send>, mss: nat, m: Send)
    requires mss > 0
    ensures LastStart(msgs + [m], mss) ==
      if Split(m.data, mss) == [] then LastStart(msgs, mss) else |StreamOf(msgs, mss, 1)|
    decreases |msgs|
  {
    if msgs == [] {
      assert (msgs + [m])[1..] == [];
    } else {
      assert (msgs + [m])[1..] == msgs[1..] + [m];
      LastStartSnoc(msgs[1..], mss, m);
      StreamOfSnoc(msgs[1..], m, mss, 0);
      SameLength(msgs[1..], mss, 0, 1);
      SameLength(msgs[1..], mss, 2, 1);
    }
  }

  lemma {:induction false} LastStartIn(msgs: seq<Send>, mss: nat, no: bv32)
    requires mss > 0
    ensures LastStart(msgs, mss) <= |StreamOf(msgs, mss, no)|
    ensures StreamOf(msgs, mss, no) != [] ==> LastStart(msgs, mss) < |StreamOf(msgs, mss, no)|
    decreases |msgs|
  {
    if msgs != [] {
      LastStartIn(msgs[1..], mss, no + 1);
      SameLength(msgs[1..], mss, 0, no + 1);
    }
  }

  /** Packets of earlier messages have other numbers than the last one. */
  lemma {:induction false} EarlierNumber(msgs: seq<Send>, mss: nat, no: bv32, i: nat)
    requires mss > 0 && Fits(no, |msgs|) && i < LastStart(msgs, mss) <= |StreamOf(msgs, mss, no)|
    ensures var cs := StreamOf(msgs, mss, no); NumberOf(cs[i]) != NumberOf(cs[|cs| - 1])
    decreases |msgs|
  {
    var a, b := Blocks(msgs[0], mss, no), StreamOf(msgs[1..], mss, no + 1);
    SameLength(msgs[1..], mss, 0, no + 1);
    assert (a + b)[|a + b| - 1] == b[|b| - 1];
    if i < |a| {
      FirstNumber(msgs, mss, no, i, |b| - 1);
    } else {
      LastStartIn(msgs[1..], mss, no + 1);
      EarlierNumber(msgs[1..], mss, no + 1, i - |a|);
    }
  }

  /** No packet of a later message has the number of the first one. */
  lemma FirstNumber(msgs: seq<Send>, mss: nat, no: bv32, i: nat, k: nat)
    requires mss > 0 && msgs != [] && Fits(no, |msgs|) && i < |Blocks(msgs[0], mss, no)|
    requires k < |StreamOf(msgs[1..], mss, no + 1)|
    ensures NumberOf(Blocks(msgs[0], mss, no)[i]) != NumberOf(StreamOf(msgs[1..], mss, no + 1)[k])
  {
    BlocksNumber(msgs[0], mss, no);
    var j := NumberFrom(msgs[1..], mss, no + 1, k);
    OtherNumber(no, |msgs|, j, NumberOf(StreamOf(msgs[1..], mss, no + 1)[k]));
  }

  lemma OtherNumber(no: bv32, n: nat, j: nat, x: bv32)
    requires Fits(no, n) && j < n && x == Bump(no + 1, j)
    ensures x != no
  {
    FitsFewer(no, n, j + 1);
    BumpAbove(no, j + 1, x);
  }

  /** The number changes exactly after the last packet of a message. */
  lemma {:induction false} NumberChanges(msgs: seq<Send>, mss: nat, no: bv32, i: nat)
    requires mss > 0 && Fits(no, |msgs|) && i + 1 < |StreamOf(msgs, mss, no)|
    ensures var cs := StreamOf(msgs, mss, no); Decode(cs[i]).last <==> NumberOf(cs[i]) != NumberOf(cs[i + 1])
    decreases |msgs|
  {
    var a, b := Blocks(msgs[0], mss, no), StreamOf(msgs[1..], mss, no + 1);
    BlocksNumber(msgs[0], mss, no);
    BlocksFramed(msgs[0], mss, no);
    if i >= |a| {
      NumberChanges(msgs[1..], mss, no + 1, i - |a|);
    } else {
      assert DecodeAll(a)[i] == Decode(a[i]);
      if i + 1 == |a| {
        FirstNumber(msgs, mss, no, i, 0);
      }
    }
  }

  /** Packets i to i + n - 1 are all that follow in the stream with the number of packet i. */
  ghost predicate SameNumber(cs: seq<Chunk>, i: nat, n: nat) {
    && n > 0 && i + n <= |cs| && AllNumbered(cs, i, n, NumberOf(cs[i]))
    && (i + n < |cs| ==> NumberOf(cs[i + n]) != NumberOf(cs[i]))
  }

  ghost predicate AllNumbered(cs: seq<Chunk>, i: nat, n: nat, no: bv32)
    requires i + n <= |cs|
  {
    forall k :: i <= k < i + n ==> NumberOf(cs[k]) == no
  }

  /** They are the rest of its message. */
  lemma RestOfMessage(msgs: seq<Send>, mss: nat, cs: seq<Chunk>, i: nat, n: nat)
    requires mss > 0 && Fits(1, |msgs|) && cs == StreamOf(msgs, mss, 1) && SameNumber(cs, i, n)
    ensures Decode(cs[i + n - 1]).last && forall k :: i <= k < i + n - 1 ==> !Decode(cs[k]).last
  {
    forall k | i <= k < i + n - 1 ensures !Decode(cs[k]).last {
      NumberChanges(msgs, mss, 1, k);
    }
    if i + n < |cs| {
      NumberChanges(msgs, mss, 1, i + n - 1);
    } else {
      StreamFramed(msgs, mss, 1);
      assert DecodeAll(cs)[i + n - 1] == Decode(cs[i + n - 1]);
    }
  }

  lemma FramedConcat(a: seq<Packet>, b: seq<Packet>)
    requires WellFramed(b) && (b != [] ==> b[|b| - 1].last)
    requires forall i :: 0 <= i < |a| ==> a[i].first == (i == 0) && a[i].last == (i == |a| - 1)
    requires forall i, j :: 0 <= i < |a| && 0 <= j < |a| ==> a[i].ordered == a[j].ordered
    ensures WellFramed(a + b) && (a + b != [] ==> (a + b)[|a + b| - 1].last)
  {
  }

  /** Packets p to q are message k of the user, whole and in its place. */
  ghost predicate IsSend(msgs: seq<Send>, mss: nat, ps: seq<Packet>, p: nat, q: nat, k: nat)
    requires mss > 0
  {
    k < |msgs| && Carries(ps, p, q, msgs[k]) && p == Start(msgs, mss, k)
  }

  /** The packets are those of the messages, one message after the other. */
  ghost predicate Made(ps: seq<Packet>, msgs: seq<Send>, mss: nat)
    requires mss > 0
    decreases |msgs|
  {
    if msgs == [] then ps == []
    else
      var n := |Split(msgs[0].data, mss)|;
      n <= |ps| && OneMessage(ps[..n], msgs[0]) && Made(ps[n..], msgs[1..], mss)
  }

  lemma {:induction false} StreamMade(msgs: seq<Send>, mss: nat, no: bv32)
    requires mss > 0 && Fits(no, |msgs|)
    ensures Made(DecodeAll(StreamOf(msgs, mss, no)), msgs, mss)
    decreases |msgs|
  {
    if msgs != [] {
      var ps, b := DecodeAll(StreamOf(msgs, mss, no)), DecodeAll(StreamOf(msgs[1..], mss, no + 1));
      var a := FirstBlocks(msgs, mss, no, ps, b);
      assert ps[..|a|] == a && ps[|a|..] == b;
      StreamMade(msgs[1..], mss, no + 1);
    }
  }

  /** The packets of the first message, and the others. */
  lemma MadeParts(msgs: seq<Send>, mss: nat, ps: seq<Packet>) returns (a: seq<Packet>, b: seq<Packet>)
    requires mss > 0 && Made(ps, msgs, mss) && ps != []
    ensures msgs != [] && ps == a + b && |a| == |Split(msgs[0].data, mss)|
    ensures OneMessage(a, msgs[0]) && Made(b, msgs[1..], mss)
  {
    var n := |Split(msgs[0].data, mss)|;
    a, b := ps[..n], ps[n..];
  }

  lemma {:induction false} MadeIsSend(msgs: seq<Send>, mss: nat, ps: seq<Packet>, p: nat, q: nat) returns (k: nat)
    requires mss > 0 && Made(ps, msgs, mss) && IsMessage(ps, p, q)
    ensures IsSend(msgs, mss, ps, p, q, k)
    decreases |msgs|, 1
  {
    var a, b := MadeParts(msgs, mss, ps);
    if p < |a| {
      HeadIsSend(msgs, mss, a, b, p, q);
      k := 0;
    } else {
      k := MadeInTail(msgs, mss, a, b, p, q);
    }
  }

  lemma {:induction false} MadeInTail(msgs: seq<Send>, mss: nat, a: seq<Packet>, b: seq<Packet>, p: nat, q: nat)
    returns (k: nat)
    requires mss > 0 && msgs != [] && Made(b, msgs[1..], mss) && |a| == |Split(msgs[0].data, mss)|
    requires IsMessage(a + b, p, q) && p >= |a|
    ensures IsSend(msgs, mss, a + b, p, q, k)
    decreases |msgs|, 0
  {
    TailMessage(a, b, p, q);
    var j := MadeIsSend(msgs[1..], mss, b, p - |a|, q - |a|);
    TailIsSend(msgs, mss, a, b, p, q, j);
    k := j + 1;
  }

  /** Every message of the stream is one of the user's messages, whole. */
  lemma MessageIsSend(msgs: seq<Send>, mss: nat, no: bv32, ps: seq<Packet>, p: nat, q: nat) returns (k: nat)
    requires mss > 0 && Fits(no, |msgs|)
    requires ps == DecodeAll(StreamOf(msgs, mss, no)) && IsMessage(ps, p, q)
    ensures IsSend(msgs, mss, ps, p, q, k)
  {
    StreamMade(msgs, mss, no);
    k := MadeIsSend(msgs, mss, ps, p, q);
  }

  lemma HeadIsSend(msgs: seq<Send>, mss: nat, a: seq<Packet>, b: seq<Packet>, p: nat, q: nat)
    requires mss > 0 && msgs != [] && IsMessage(a + b, p, q) && p < |a| && OneMessage(a, msgs[0])
    ensures IsSend(msgs, mss, a + b, p, q, 0)
  {
    HeadCarries(a, b, p, q, msgs[0]);
  }

  lemma TailIsSend(msgs: seq<Send>, mss: nat, a: seq<Packet>, b: seq<Packet>, p: nat, q: nat, k: nat)
    requires mss > 0 && msgs != [] && |a| == |Split(msgs[0].data, mss)|
    requires IsMessage(a + b, p, q) && p >= |a| && IsSend(msgs[1..], mss, b, p - |a|, q - |a|, k)
    ensures IsSend(msgs, mss, a + b, p, q, k + 1)
  {
    TailCarries(a, b, p, q, msgs[1..][k]);
    StartNext(msgs, mss, k);
  }

  lemma StartNext(msgs: seq<Send>, mss: nat, k: nat)
    requires mss > 0 && msgs != [] && k < |msgs| - 1
    ensures msgs[1..][k] == msgs[k + 1]
    ensures Start(msgs, mss, k + 1) == |Split(msgs[0].data, mss)| + Start(msgs[1..], mss, k)
  {
  }

  lemma HeadCarries(a: seq<Packet>, b: seq<Packet>, p: nat, q: nat, m: Send)
    requires IsMessage(a + b, p, q) && p < |a| && OneMessage(a, m)
    ensures p == 0 && Carries(a + b, p, q, m)
  {
    HeadMessage(a, b, p, q);
  }

  lemma TailCarries(a: seq<Packet>, b: seq<Packet>, p: nat, q: nat, m: Send)
    requires IsMessage(a + b, p, q) && p >= |a| && Carries(b, p - |a|, q - |a|, m)
    ensures Carries(a + b, p, q, m)
  {
    TailMessage(a, b, p, q);
  }

  /** The place in the stream where the packets of message k start. */
  function Start(msgs: seq<Send>, mss: nat, k: nat): nat
    requires mss > 0 && k <= |msgs|
  {
    if k == 0 then 0 else |Split(msgs[0].data, mss)| + Start(msgs[1..], mss, k - 1)
  }

  lemma {:induction false} StartMonotone(msgs: seq<Send>, mss: nat, j: nat, k: nat)
    requires mss > 0 && j <= k <= |msgs|
    ensures Start(msgs, mss, j) <= Start(msgs, mss, k)
  {
    if j > 0 { StartMonotone(msgs[1..], mss, j - 1, k - 1); }
  }

  /** The packets of one message of the user. */
  ghost predicate OneMessage(a: seq<Packet>, m: Send) {
    && Payload(a) == m.data && (forall i :: 0 <= i < |a| ==> a[i].ordered == m.order)
    && (forall i :: 0 <= i < |a| ==> a[i].first == (i == 0) && a[i].last == (i == |a| - 1))
  }

  lemma FirstBlocks(msgs: seq<Send>, mss: nat, no: bv32, ps: seq<Packet>, b: seq<Packet>) returns (a: seq<Packet>)
    requires mss > 0 && msgs != [] && no <= NUMBER
    requires ps == DecodeAll(StreamOf(msgs, mss, no)) && b == DecodeAll(StreamOf(msgs[1..], mss, no + 1))
    ensures ps == a + b && OneMessage(a, msgs[0]) && |a| == |Split(msgs[0].data, mss)|
  {
    BlocksFramed(msgs[0], mss, no);
    StreamSplit(msgs, mss, no);
    a := DecodeAll(Blocks(msgs[0], mss, no));
  }

  /** Packets p to q carry the message m. */
  ghost predicate Carries(ps: seq<Packet>, p: nat, q: nat, m: Send) {
    p <= q < |ps| && Payload(ps[p..q + 1]) == m.data && ps[q].ordered == m.order
  }

  lemma HeadMessage(a: seq<Packet>, b: seq<Packet>, p: nat, q: nat)
    requires IsMessage(a + b, p, q) && p < |a|
    requires forall i :: 0 <= i < |a| ==> a[i].first == (i == 0) && a[i].last == (i == |a| - 1)
    ensures p == 0 && q == |a| - 1 && (a + b)[p..q + 1] == a
  {
    assert (a + b)[p] == a[p] && (a + b)[|a| - 1] == a[|a| - 1];
    if q < |a| { assert (a + b)[q] == a[q]; }
  }

  lemma TailMessage(a: seq<Packet>, b: seq<Packet>, p: nat, q: nat)
    requires IsMessage(a + b, p, q) && p >= |a|
    ensures IsMessage(b, p - |a|, q - |a|)
    ensures (a + b)[p..q + 1] == b[p - |a|..q - |a| + 1] && (a + b)[q] == b[q - |a|]
  {
    forall k | p - |a| < k <= q - |a| ensures !b[k].first { assert b[k] == (a + b)[k + |a|]; }
    forall k | p - |a| <= k < q - |a| ensures !b[k].last { assert b[k] == (a + b)[k + |a|]; }
  }
}
