/** The rate controller of UDT, over exact real numbers. */
module RateControl {

  // ----- Arithmetic

  function Ceil(x: real): (n: int)
    ensures x <= n as real < x + 1.0
  {
    -((-x).Floor)
  }

  /** The conversion of a double to an integer. */
  function Trunc(x: real): int { if x >= 0.0 then x.Floor else -((-x).Floor) }

  function TruncDiv(a: int, d: int): int
    requires d > 0
  {
    if a >= 0 then a / d else -((-a) / d)
  }

  /** What a loss does to the sending period. */
  function Raise(p: real): real { Ceil(p * 1.125) as real }

  // ----- State and callbacks

  const SYN := 10000

  /** The fields of the controller: the sending period in microseconds, the congestion window, and
      what it remembers of acknowledgements and losses. */
  datatype State = State(lastRCTime: int, slowStart: bool, lastAck: int, loss: bool, lastDecSeq: int,
                         lastDecPeriod: real, avgNAKNum: int, nakCount: int, decRandom: int, decCount: int,
                         cwnd: real, period: real)

  /** What the transport tells the controller at a callback: the time, the receiving rate, the round
      trip time, the last packet sent, the largest window, the estimated bandwidth, the packet size, and
      the cap that the user has set, if positive. */
  datatype Env = Env(time: int, rcvRate: int, rtt: int, sndCurrSeqNo: int,
                     maxCwnd: real, bandwidth: int, mss: int, maxSR: int)

  ghost predicate GoodEnv(e: Env) { e.rcvRate >= 0 && e.rtt >= 0 && e.mss > 0 }

  /** The end of slow start. */
  function Leave(s: State, e: Env): State
    requires GoodEnv(e)
  {
    s.(slowStart := false,
       period := if e.rcvRate > 0 then 1000000.0 / e.rcvRate as real else s.cwnd / (e.rtt + SYN) as real)
  }

  /** How many packets more per interval; `step` is the power of ten for a bandwidth surplus. */
  function Inc(s: State, e: Env, step: int -> real): (inc: real)
    requires GoodEnv(e) && s.period > 0.0
    ensures inc >= 1.0 / e.mss as real > 0.0
  {
    var b0 := Trunc(e.bandwidth as real - 1000000.0 / s.period);
    var b := if s.period > s.lastDecPeriod && TruncDiv(e.bandwidth, 9) < b0 then TruncDiv(e.bandwidth, 9) else b0;
    var least := 1.0 / e.mss as real;
    if b <= 0 || step(b) < least then least else step(b)
  }

  function Faster(p: real, inc: real): (q: real)
    requires p > 0.0 && inc > 0.0
    ensures 0.0 < q < p
  {
    var d := p * inc + SYN as real;
    Shrinks(p, inc);
    (p * SYN as real) / d
  }

  lemma Shrinks(p: real, inc: real)
    requires p > 0.0 && inc > 0.0
    ensures p * inc + SYN as real > 0.0
    ensures 0.0 < (p * SYN as real) / (p * inc + SYN as real) < p
  {
    var d := p * inc + SYN as real;
    assert p * inc > 0.0;
    var q := (p * SYN as real) / d;
    assert q * d == p * SYN as real;
    assert p * d == p * (p * inc) + p * SYN as real;
    Cancel(q, p, d);
    Cancel(0.0, q, d);
  }

  lemma Cancel(a: real, b: real, d: real)
    requires d > 0.0 && a * d < b * d
    ensures a < b
  {
  }

  function Capped(p: real, e: Env): real
    requires GoodEnv(e)
  {
    if e.maxSR <= 0 then p
    else
      var minSP := 1000000.0 / (e.maxSR as real / e.mss as real);
      if p < minSP then minSP else p
  }

  /** What an acknowledgement of `acked` packets since the last one does to the window; slow start
      ends when the window is full. */
  function Widened(s: State, e: Env, ack: int, acked: nat): State
    requires GoodEnv(e)
  {
    if !s.slowStart then s.(lastRCTime := e.time, cwnd := e.rcvRate as real / 1000000.0 * (e.rtt + SYN) as real + 16.0)
    else
      var t := s.(lastRCTime := e.time, cwnd := s.cwnd + acked as real, lastAck := ack);
      if t.cwnd > e.maxCwnd then Leave(t, e) else t
  }

  /** An acknowledgement; it counts at most once per interval. */
  function OnAck(s: State, e: Env, ack: int, acked: nat, step: int -> real): State
    requires GoodEnv(e) && s.period > 0.0 && s.cwnd > 0.0
  {
    if 0 <= e.time - s.lastRCTime < SYN then s
    else
      var t := Widened(s, e, ack, acked);
      if t.slowStart then t
      else if t.loss then t.(loss := false)
      else
        assert t.period > 0.0;
        t.(period := Capped(Faster(t.period, Inc(t, e, step)), e))
  }

  /** The first raise of an epoch. */
  function NewEpoch(s: State, e: Env, rand: real): State {
    var avg := Ceil(s.avgNAKNum as real * 0.875 + s.nakCount as real * 0.125);
    s.(lastDecPeriod := s.period, period := Raise(s.period), avgNAKNum := avg, nakCount := 1, decCount := 1,
       lastDecSeq := e.sndCurrSeqNo, decRandom := Drawn(avg, rand))
  }

  /** How many losses go by between two decreases. */
  function Drawn(avg: int, rand: real): int {
    var r := Ceil(avg as real * rand);
    if r < 1 then 1 else r
  }

  function SameEpoch(s: State, e: Env): State
    requires s.decRandom > 0
  {
    if s.decCount >= 5 then s.(decCount := s.decCount + 1)
    else
      var t := s.(decCount := s.decCount + 1, nakCount := s.nakCount + 1);
      if t.nakCount % t.decRandom == 0 then t.(period := Raise(t.period), lastDecSeq := e.sndCurrSeqNo) else t
  }

  /** A loss report; `newer` says that the lost packet was sent after the last raise. */
  function OnLoss(s: State, e: Env, newer: bool, rand: real): State
    requires GoodEnv(e) && s.decRandom > 0
  {
    var t := (if s.slowStart then Leave(s, e) else s).(loss := true);
    if newer then NewEpoch(t, e, rand) else SameEpoch(t, e)
  }

  function OnTimeout(s: State, e: Env): State
    requires GoodEnv(e)
  {
    if s.slowStart then Leave(s, e) else s
  }

  // ----- One acknowledgement

  /** The fields that keep their sign. */
  ghost predicate Sane(s: State) { s.period > 0.0 && s.cwnd > 0.0 && s.decRandom > 0 }

  function Init(time: int, sndCurrSeqNo: int, decSeq: int): State {
    State(time, true, sndCurrSeqNo, false, decSeq, 1.0, 0, 0, 1, 0, 16.0, 1.0)
  }

  /** An acknowledgement that raises the rate adds exactly inc packets per interval. */
  lemma AckAddsInc(s: State, e: Env, ack: int, acked: nat, step: int -> real)
    requires GoodEnv(e) && Sane(s) && e.maxSR <= 0 && !(0 <= e.time - s.lastRCTime < SYN)
    requires !Widened(s, e, ack, acked).slowStart && !s.loss
    ensures var t, p := Widened(s, e, ack, acked), OnAck(s, e, ack, acked, step).period;
      && t.period > 0.0 && (!s.slowStart ==> t.period == s.period)
      && p > 0.0 && SYN as real / p == SYN as real / t.period + Inc(t, e, step)
  {
    var t := Widened(s, e, ack, acked);
    assert t.period > 0.0;
    var inc := Inc(t, e, step);
    Shrinks(t.period, inc);
    Inverse(t.period, inc, SYN as real);
  }

  lemma Inverse(p: real, inc: real, c: real)
    requires p > 0.0 && inc > 0.0 && c > 0.0 && p * inc + c > 0.0 && (p * c) / (p * inc + c) > 0.0
    ensures c / ((p * c) / (p * inc + c)) == c / p + inc
  {
    var d := p * inc + c;
    var q := (p * c) / d;
    assert q * d == p * c;
    var x := c / p + inc;
    assert x * p == d by {
      assert (c / p) * p == c;
    }
    assert x * q * p == c * p by {
      assert x * q * p == (x * p) * q;
    }
    CancelEq(x * q, c, p);
    assert x == c / q by {
      assert (c / q) * q == c;
      CancelEq(x, c / q, q);
    }
  }

  lemma CancelEq(a: real, b: real, d: real)
    requires d > 0.0 && a * d == b * d
    ensures a == b
  {
  }

  /** An acknowledgement never leaves the rate above the user's cap. */
  lemma RateCapped(s: State, e: Env, ack: int, acked: nat, step: int -> real)
    requires GoodEnv(e) && Sane(s) && e.maxSR > 0 && !(0 <= e.time - s.lastRCTime < SYN)
    requires !Widened(s, e, ack, acked).slowStart && !s.loss
    ensures var p := OnAck(s, e, ack, acked, step).period; 1000000.0 * e.mss as real <= p * e.maxSR as real
  {
    var t := Widened(s, e, ack, acked);
    assert t.period > 0.0;
    CapHolds(Faster(t.period, Inc(t, e, step)), e);
  }

  lemma CapHolds(p: real, e: Env)
    requires GoodEnv(e) && e.maxSR > 0
    ensures 1000000.0 * e.mss as real <= Capped(p, e) * e.maxSR as real
  {
    var minSP := 1000000.0 / (e.maxSR as real / e.mss as real);
    CapIs(e.maxSR as real, e.mss as real, minSP);
    Larger(minSP, Capped(p, e), e.maxSR as real);
  }

  lemma CapIs(m: real, b: real, minSP: real)
    requires m > 0.0 && b > 0.0 && m / b > 0.0 && minSP == 1000000.0 / (m / b)
    ensures minSP * m == 1000000.0 * b
  {
    var q := m / b;
    assert minSP * q == 1000000.0;
    assert q * b == m;
    assert minSP * m == (minSP * q) * b;
  }

  lemma Larger(p: real, q: real, m: real)
    requires p <= q && m > 0.0
    ensures p * m <= q * m
  {
  }

  // ----- Slow start

  /** However slow start ends, the packets go out at the receiving rate from then on, or, if that is unknown, one
      window goes out per round trip and interval. */
  lemma RateAfterSlowStart(s: State, e: Env)
    requires GoodEnv(e) && Sane(s) && s.slowStart
    ensures var p := Before(s, e);
      && (e.rcvRate > 0 ==> p * e.rcvRate as real == 1000000.0)
      && (e.rcvRate == 0 ==> p * (e.rtt + SYN) as real == s.cwnd)
      && OnTimeout(s, e) == s.(slowStart := false, period := p)
  {
  }

  /** What an acknowledgement that counts does to the window: in slow start it grows by the packets acknowledged, and
      slow start ends when it is full; later it holds what arrives in a round trip and an interval, and 16 packets. */
  lemma Window(s: State, e: Env, ack: int, acked: nat, step: int -> real)
    requires GoodEnv(e) && Sane(s) && !(0 <= e.time - s.lastRCTime < SYN)
    ensures var s' := OnAck(s, e, ack, acked, step);
      && s'.lastRCTime == e.time
      && (s.slowStart ==> s'.cwnd == s.cwnd + acked as real && s'.lastAck == ack)
      && (s.slowStart ==> (s'.slowStart <==> s'.cwnd <= e.maxCwnd))
      && (s'.slowStart ==> s'.period == s.period)
      && (!s.slowStart ==> !s'.slowStart && (s'.cwnd - 16.0) * 1000000.0 == (e.rcvRate * (e.rtt + SYN)) as real)
  {
    var x, y := e.rcvRate as real, (e.rtt + SYN) as real;
    assert (x / 1000000.0 * y) * 1000000.0 == x * y;
    assert x * y == (e.rcvRate * (e.rtt + SYN)) as real;
  }

  /** The packets that the acknowledgements in vs cover, at most one of them per interval. */
  function Gained(last: int, vs: seq<Event>): nat
    requires forall i :: 0 <= i < |vs| ==> vs[i].Ack?
    decreases |vs|
  {
    if vs == [] then 0
    else if 0 <= vs[0].e.time - last < SYN then Gained(last, vs[1..])
    else vs[0].acked + Gained(vs[0].e.time, vs[1..])
  }

  /** While slow start lasts, there are only acknowledgements, the period stays, and the window is what it was
      and all packets acknowledged since. */
  lemma {:induction false} SlowStartRun(s: State, vs: seq<Event>)
    requires Runs(s, vs) && s.slowStart && After(s, vs).slowStart
    ensures forall i :: 0 <= i < |vs| ==> vs[i].Ack?
    ensures After(s, vs).period == s.period && After(s, vs).cwnd == s.cwnd + Gained(s.lastRCTime, vs) as real
    decreases |vs|
  {
    if vs != [] {
      var s1 := Apply(s, vs[0]);
      if !s1.slowStart {
        SlowStartOver(s1, vs[1..]);
      } else {
        SlowStartRun(s1, vs[1..]);
        assert forall i :: 0 < i < |vs| ==> vs[i] == vs[1..][i - 1];
      }
    }
  }

  lemma {:induction false} SlowStartOver(s: State, vs: seq<Event>)
    requires Runs(s, vs) && !s.slowStart
    ensures !After(s, vs).slowStart
    decreases |vs|
  {
    if vs != [] {
      SlowStartOver(Apply(s, vs[0]), vs[1..]);
    }
  }

  // ----- One congestion epoch

  datatype Event = Ack(e: Env, ack: int, acked: nat, step: int -> real) | Loss(e: Env, rand: real) | Timeout(e: Env)

  /** What can happen in an epoch: losses in it are not newer than the last raise, and the user has set no cap. */
  ghost predicate InEpoch(v: Event) { GoodEnv(v.e) && v.e.maxSR <= 0 }

  function Apply(s: State, v: Event): State
    requires GoodEnv(v.e) && Sane(s)
  {
    match v
    case Ack(e, ack, acked, step) => OnAck(s, e, ack, acked, step)
    case Loss(e, rand) => OnLoss(s, e, false, rand)
    case Timeout(e) => OnTimeout(s, e)
  }

  /** The period after k raises from p. */
  function Raised(p: real, k: nat): real { if k == 0 then p else Raise(Raised(p, k - 1)) }

  lemma RaiseMonotone(p: real, q: real)
    requires 0.0 < p <= q
    ensures 0.0 < p <= Raise(p) <= Raise(q)
  {
    CeilMonotone(p * 1.125, q * 1.125);
  }

  lemma CeilMonotone(x: real, y: real)
    requires x <= y
    ensures Ceil(x) <= Ceil(y)
  {
    assert Ceil(x) as real < Ceil(y) as real + 1.0;
  }

  lemma {:induction false} RaisedMonotone(p: real, k: nat, n: nat)
    requires p > 0.0 && k <= n
    ensures 0.0 < Raised(p, k) <= Raised(p, n)
    decreases n
  {
    if n > 0 {
      RaisedMonotone(p, if k < n then k else n - 1, n - 1);
      RaiseMonotone(Raised(p, n - 1), Raised(p, n - 1));
    }
  }

  /** In an epoch that began at period p: k raises so far, of at most five, and no way up but raises. */
  ghost predicate Epoch(s: State, p: real, k: nat) {
    && Sane(s) && !s.slowStart && p > 0.0 && s.lastDecPeriod == p
    && 1 <= k <= 5 && k <= s.decCount && s.period <= Raised(p, k)
  }

  /** The period that a loss finds. */
  function Before(s: State, e: Env): real
    requires GoodEnv(e)
  {
    if s.slowStart then Leave(s, e).period else s.period
  }

  lemma EpochStarts(s: State, e: Env, rand: real)
    requires GoodEnv(e) && Sane(s)
    ensures Epoch(OnLoss(s, e, true, rand), Before(s, e), 1)
  {
    var p := Before(s, e);
    assert p > 0.0;
    RaiseMonotone(p, p);
    assert Raised(p, 0) == p;
  }

  lemma EpochStep(s: State, v: Event, p: real, k: nat) returns (k': nat)
    requires Epoch(s, p, k) && InEpoch(v)
    ensures k <= k' <= k + 1 && Epoch(Apply(s, v), p, k') && (Apply(s, v).period > s.period ==> k' == k + 1)
  {
    k' := k;
    match v
    case Ack(e, ack, acked, step) => AckSane(s, e, ack, acked, step);
    case Timeout(e) =>
    case Loss(e, rand) =>
      RaiseMonotone(s.period, Raised(p, k));
      if s.decCount < 5 && (s.nakCount + 1) % s.decRandom == 0 {
        k' := k + 1;
      }
  }

  /** Outside slow start an acknowledgement never raises the period. */
  lemma AckSane(s: State, e: Env, ack: int, acked: nat, step: int -> real)
    requires GoodEnv(e) && Sane(s) && !s.slowStart && e.maxSR <= 0
    ensures var s' := OnAck(s, e, ack, acked, step);
      && Sane(s') && !s'.slowStart && s'.period <= s.period
      && s'.lastDecPeriod == s.lastDecPeriod && s'.decCount == s.decCount
  {
    assert e.rcvRate as real / 1000000.0 * (e.rtt + SYN) as real >= 0.0;
  }

  ghost predicate AllInEpoch(vs: seq<Event>) { forall i :: 0 <= i < |vs| ==> InEpoch(vs[i]) }

  /** A run of callbacks, and how often the period went up in it. */
  ghost predicate Runs(s: State, vs: seq<Event>)
    decreases |vs|
  {
    vs == [] || (GoodEnv(vs[0].e) && Sane(s) && Runs(Apply(s, vs[0]), vs[1..]))
  }

  ghost function After(s: State, vs: seq<Event>): State
    requires Runs(s, vs)
    decreases |vs|
  {
    if vs == [] then s else After(Apply(s, vs[0]), vs[1..])
  }

  ghost function Raises(s: State, vs: seq<Event>): nat
    requires Runs(s, vs)
    decreases |vs|
  {
    if vs == [] then 0 else (if Apply(s, vs[0]).period > s.period then 1 else 0) + Raises(Apply(s, vs[0]), vs[1..])
  }

  lemma {:induction false} EpochRun(s: State, vs: seq<Event>, p: real, k: nat)
    requires Epoch(s, p, k) && AllInEpoch(vs)
    ensures Runs(s, vs) && After(s, vs).period <= Raised(p, 5) && Sane(After(s, vs)) && Raises(s, vs) + k <= 5
    decreases |vs|
  {
    if vs == [] {
      RaisedMonotone(p, k, 5);
    } else {
      assert InEpoch(vs[0]);
      var k' := EpochStep(s, vs[0], p, k);
      EpochRun(Apply(s, vs[0]), vs[1..], p, k');
    }
  }

  lemma {:induction false} RaisedBound(p: real, k: nat)
    requires p > 0.0
    ensures Raised(p, k) <= Linear(p, k)
    ensures k > 0 ==> Raised(p, k) < Linear(p, k)
  {
    if k > 0 {
      RaisedBound(p, k - 1);
    }
  }

  function Linear(p: real, k: nat): real { if k == 0 then p else Linear(p, k - 1) * 1.125 + 1.0 }

  lemma LinearFive(p: real)
    ensures Linear(p, 5) == p * 1.125 * 1.125 * 1.125 * 1.125 * 1.125 + 26281.0 / 4096.0
  {
    assert Linear(p, 0) == p;
    assert Linear(p, 1) == p * 1.125 + 1.0;
    assert Linear(p, 2) == p * 1.125 * 1.125 + 17.0 / 8.0;
    assert Linear(p, 3) == p * 1.125 * 1.125 * 1.125 + 217.0 / 64.0;
    assert Linear(p, 4) == p * 1.125 * 1.125 * 1.125 * 1.125 + 2465.0 / 512.0;
  }

  /** Within one epoch that began at period p, under any mix of callbacks, the period is raised at
      most five times (the first raise included) and stays below 1.125^5 p + 6.42; so the rate is at
      most halved if p is 33 or more. */
  lemma EpochBound(s: State, e: Env, rand: real, vs: seq<Event>)
    requires GoodEnv(e) && Sane(s) && AllInEpoch(vs)
    ensures var p, s1 := Before(s, e), OnLoss(s, e, true, rand);
      && Runs(s1, vs) && Raises(s1, vs) + 1 <= 5
      && After(s1, vs).period < p * 1.125 * 1.125 * 1.125 * 1.125 * 1.125 + 6.42
      && (p >= 33.0 ==> After(s1, vs).period <= 2.0 * p)
  {
    var p, s1 := Before(s, e), OnLoss(s, e, true, rand);
    EpochStarts(s, e, rand);
    EpochRun(s1, vs, p, 1);
    RaisedBound(p, 5);
    LinearFive(p);
  }

  // ----- Exactly when the rate is at most halved

  const SomeEnv := Env(0, 0, 0, 0, 0.0, 0, 1, 0)

  /** A few losses in a row. */
  function Losses(n: nat): (vs: seq<Event>)
    ensures AllInEpoch(vs) && |vs| == n
  {
    if n == 0 then [] else [Loss(SomeEnv, 0.0)] + Losses(n - 1)
  }

  /** With no acknowledgement between them, losses raise the period each time. */
  lemma {:induction false} LossesRaise(s: State, n: nat, p: real, k: nat)
    requires Epoch(s, p, k) && s.decRandom == 1 && s.decCount == k && s.period == Raised(p, k) && n + k <= 5
    ensures Runs(s, Losses(n)) && After(s, Losses(n)).period == Raised(p, k + n)
    decreases n
  {
    if n > 0 {
      var v := Loss(SomeEnv, 0.0);
      var k' := EpochStep(s, v, p, k);
      var s' := Apply(s, v);
      assert s'.decCount == k + 1 && s'.period == Raised(p, k + 1);
      RaisedMonotone(p, k + 1, k + 1);
      assert Losses(n)[1..] == Losses(n - 1);
      LossesRaise(s', n - 1, p, k + 1);
    }
  }

  /** The multiples of r among the numbers after j, of which the first n up to 5 are looked at. */
  function Hits(r: int, j: int, n: nat): nat
    requires r > 0
    decreases n
  {
    if n == 0 || j >= 5 then 0 else (if (j + 1) % r == 0 then 1 else 0) + Hits(r, j + 1, n - 1)
  }

  lemma {:induction false} LossesCount(s: State, n: nat, p: real, k: nat)
    requires Epoch(s, p, k) && s.period == Raised(p, k) && (s.decCount < 5 ==> s.nakCount == s.decCount)
    ensures Runs(s, Losses(n)) && After(s, Losses(n)).period == Raised(p, k + Hits(s.decRandom, s.decCount, n))
    decreases n
  {
    if n > 0 {
      var v := Loss(SomeEnv, 0.0);
      var k' := EpochStep(s, v, p, k);
      var s' := Apply(s, v);
      RaisedMonotone(p, k, k + 1);
      assert Losses(n)[1..] == Losses(n - 1);
      if s.decCount < 5 && (s.decCount + 1) % s.decRandom == 0 {
        assert s'.period == Raised(p, k + 1);
      } else {
        k' := k;
      }
      LossesCount(s', n - 1, p, k');
    }
  }

  /** The n losses that follow the first loss of an epoch raise the period once for each second, third and so on
      loss that the random threshold divides, up to the fifth. */
  lemma EpochOfLosses(s: State, e: Env, rand: real, n: nat)
    requires GoodEnv(e) && Sane(s)
    ensures var s1 := OnLoss(s, e, true, rand);
      && Runs(s1, Losses(n)) && s1.decRandom > 0
      && After(s1, Losses(n)).period == Raised(Before(s, e), 1 + Hits(s1.decRandom, 1, n))
  {
    EpochStarts(s, e, rand);
    assert Raised(Before(s, e), 0) == Before(s, e);
    LossesCount(OnLoss(s, e, true, rand), n, Before(s, e), 1);
  }

  /** The threshold lies between 1 and the average number of losses, and that average between the old one and
      the losses of the last epoch. */
  lemma ThresholdBetween(s: State, e: Env, rand: real)
    requires GoodEnv(e) && Sane(s) && 0.0 <= rand <= 1.0
    ensures var s1 := OnLoss(s, e, true, rand);
      && s1.decRandom >= 1 && (s1.avgNAKNum >= 1 ==> s1.decRandom <= s1.avgNAKNum)
      && (s.avgNAKNum <= s.nakCount ==> s.avgNAKNum <= s1.avgNAKNum <= s.nakCount)
      && (s.nakCount <= s.avgNAKNum ==> s.nakCount <= s1.avgNAKNum <= s.avgNAKNum)
  {
    if s.avgNAKNum <= s.nakCount {
      AverageBetween(s.avgNAKNum, s.nakCount);
    } else {
      AverageBetween(s.nakCount, s.avgNAKNum);
    }
    DrawnBetween(OnLoss(s, e, true, rand).avgNAKNum, rand);
  }

  lemma AverageBetween(a: int, b: int)
    requires a <= b
    ensures a <= Ceil(a as real * 0.875 + b as real * 0.125) <= b
    ensures a <= Ceil(b as real * 0.875 + a as real * 0.125) <= b
  {
    AtMost(a as real * 0.875 + b as real * 0.125, b);
    AtMost(b as real * 0.875 + a as real * 0.125, b);
  }

  lemma AtMost(x: real, m: int)
    requires x <= m as real
    ensures Ceil(x) <= m
  {
    assert Ceil(x) as real < (m + 1) as real;
  }

  lemma DrawnBetween(avg: int, rand: real)
    requires 0.0 <= rand <= 1.0
    ensures Drawn(avg, rand) >= 1 && (avg >= 1 ==> Drawn(avg, rand) <= avg)
  {
    if avg >= 1 {
      Larger(rand, 1.0, avg as real);
      AtMost(avg as real * rand, avg);
    }
  }

  ghost predicate AtMostHalved(s: State, e: Env, rand: real) {
    GoodEnv(e) && Sane(s) && forall vs :: AllInEpoch(vs) ==>
      Runs(OnLoss(s, e, true, rand), vs) && After(OnLoss(s, e, true, rand), vs).period <= 2.0 * Before(s, e)
  }

  /** The rate is at most halved in the epoch, whatever happens and whatever the random number is. */
  ghost predicate NeverMoreThanHalved(s: State, e: Env) {
    forall rand :: 0.0 <= rand <= 1.0 ==> AtMostHalved(s, e, rand)
  }

  /** That is so if and only if five raises from the first period of the epoch do not more than double it. */
  lemma HalvedIff(s: State, e: Env)
    requires GoodEnv(e) && Sane(s)
    ensures NeverMoreThanHalved(s, e) <==> Raised(Before(s, e), 5) <= 2.0 * Before(s, e)
  {
    var p := Before(s, e);
    forall rand: real, vs | AllInEpoch(vs)
      ensures Runs(OnLoss(s, e, true, rand), vs) && After(OnLoss(s, e, true, rand), vs).period <= Raised(p, 5)
    {
      EpochStarts(s, e, rand);
      EpochRun(OnLoss(s, e, true, rand), vs, p, 1);
    }
    WorstCase(s, e);
    if NeverMoreThanHalved(s, e) {
      assert AtMostHalved(s, e, 0.0);
    }
  }

  /** With the random number 0 the threshold is 1, and four losses more raise the period each time. */
  lemma WorstCase(s: State, e: Env)
    requires GoodEnv(e) && Sane(s)
    ensures var s1 := OnLoss(s, e, true, 0.0);
      Runs(s1, Losses(4)) && After(s1, Losses(4)).period == Raised(Before(s, e), 5)
  {
    var p, s1 := Before(s, e), OnLoss(s, e, true, 0.0);
    EpochStarts(s, e, 0.0);
    assert Raised(p, 0) == p;
    LossesRaise(s1, 4, p, 1);
  }

  function RaiseWhole(n: int): int { (9 * n + 7) / 8 }

  lemma CeilIs(x: real, m: int)
    requires m as real - 1.0 < x <= m as real
    ensures Ceil(x) == m
  {
    assert Ceil(x) as real < m as real + 1.0 && m as real < Ceil(x) as real + 1.0;
  }

  lemma RaiseIsWhole(n: int)
    ensures Raise(n as real) == RaiseWhole(n) as real
  {
    var m := RaiseWhole(n);
    assert 9 * n <= 8 * m <= 9 * n + 7;
    var x := n as real * 1.125;
    assert 8.0 * x == (9 * n) as real;
    assert (8 * m) as real == 8.0 * m as real;
    CeilIs(x, m);
  }

  function FiveWhole(n: int): int { RaiseWhole(RaiseWhole(RaiseWhole(RaiseWhole(RaiseWhole(n))))) }

  lemma RaisedWhole(n: int)
    ensures Raised(n as real, 5) == FiveWhole(n) as real
  {
    var n1 := RaiseWhole(n);
    var n2 := RaiseWhole(n1);
    var n3 := RaiseWhole(n2);
    var n4 := RaiseWhole(n3);
    RaiseIsWhole(n);
    RaiseIsWhole(n1);
    RaiseIsWhole(n2);
    RaiseIsWhole(n3);
    RaiseIsWhole(n4);
    assert Raised(n as real, 0) == n as real;
    assert Raised(n as real, 1) == n1 as real;
    assert Raised(n as real, 2) == n2 as real;
    assert Raised(n as real, 3) == n3 as real;
    assert Raised(n as real, 4) == n4 as real;
  }

  predicate IsRaise(n: int, m: int) { 9 * n <= 8 * m <= 9 * n + 7 }

  lemma FiveIs(n: int, n1: int, n2: int, n3: int, n4: int, n5: int)
    requires IsRaise(n, n1) && IsRaise(n1, n2) && IsRaise(n2, n3) && IsRaise(n3, n4) && IsRaise(n4, n5)
    ensures FiveWhole(n) == n5
  {
    assert RaiseWhole(n) == n1;
    assert RaiseWhole(n1) == n2;
    assert RaiseWhole(n2) == n3;
    assert RaiseWhole(n3) == n4;
    assert RaiseWhole(n4) == n5;
  }

  lemma SmallWhole(n: int)
    requires 0 < n < 33
    ensures FiveWhole(n) <= 2 * n <==> n >= 12
  {
    match n {
      case 1 => FiveIs(1, 2, 3, 4, 5, 6);
      case 2 => FiveIs(2, 3, 4, 5, 6, 7);
      case 3 => FiveIs(3, 4, 5, 6, 7, 8);
      case 4 => FiveIs(4, 5, 6, 7, 8, 9);
      case 5 => FiveIs(5, 6, 7, 8, 9, 11);
      case 6 => FiveIs(6, 7, 8, 9, 11, 13);
      case 7 => FiveIs(7, 8, 9, 11, 13, 15);
      case 8 => FiveIs(8, 9, 11, 13, 15, 17);
      case 9 => FiveIs(9, 11, 13, 15, 17, 20);
      case 10 => FiveIs(10, 12, 14, 16, 18, 21);
      case 11 => FiveIs(11, 13, 15, 17, 20, 23);
      case 12 => FiveIs(12, 14, 16, 18, 21, 24);
      case 13 => FiveIs(13, 15, 17, 20, 23, 26);
      case 14 => FiveIs(14, 16, 18, 21, 24, 27);
      case 15 => FiveIs(15, 17, 20, 23, 26, 30);
      case 16 => FiveIs(16, 18, 21, 24, 27, 31);
      case 17 => FiveIs(17, 20, 23, 26, 30, 34);
      case 18 => FiveIs(18, 21, 24, 27, 31, 35);
      case 19 => FiveIs(19, 22, 25, 29, 33, 38);
      case 20 => FiveIs(20, 23, 26, 30, 34, 39);
      case 21 => FiveIs(21, 24, 27, 31, 35, 40);
      case 22 => FiveIs(22, 25, 29, 33, 38, 43);
      case 23 => FiveIs(23, 26, 30, 34, 39, 44);
      case 24 => FiveIs(24, 27, 31, 35, 40, 45);
      case 25 => FiveIs(25, 29, 33, 38, 43, 49);
      case 26 => FiveIs(26, 30, 34, 39, 44, 50);
      case 27 => FiveIs(27, 31, 35, 40, 45, 51);
      case 28 => FiveIs(28, 32, 36, 41, 47, 53);
      case 29 => FiveIs(29, 33, 38, 43, 49, 56);
      case 30 => FiveIs(30, 34, 39, 44, 50, 57);
      case 31 => FiveIs(31, 35, 40, 45, 51, 58);
      case 32 => FiveIs(32, 36, 41, 47, 53, 60);
    }
  }

  /** For a period of whole microseconds that is so exactly from 12 on. */
  lemma WholePeriods(n: int)
    requires n > 0
    ensures Raised(n as real, 5) <= 2.0 * n as real <==> n >= 12
  {
    if n >= 33 {
      RaisedBound(n as real, 5);
      LinearFive(n as real);
    } else {
      RaisedWhole(n);
      SmallWhole(n);
    }
  }

  /** For a first period of whole microseconds: if and only if it is at least 12. */
  lemma HalvedWhole(s: State, e: Env, n: int)
    requires GoodEnv(e) && Sane(s) && Before(s, e) == n as real && n > 0
    ensures NeverMoreThanHalved(s, e) <==> n >= 12
  {
    HalvedIff(s, e);
    WholePeriods(n);
  }

  // ----- The class

  class CUDTCC {
    var m_LastRCTime: int
    var m_bSlowStart: bool
    var m_iLastAck: int
    var m_bLoss: bool
    var m_iLastDecSeq: int
    var m_dLastDecPeriod: real
    var m_iAvgNAKNum: int
    var m_iNAKCount: int
    var m_iDecRandom: int
    var m_iDecCount: int
    var m_dCWndSize: real
    var m_dPktSndPeriod: real

    function Fields(): State
      reads this
    {
      State(m_LastRCTime, m_bSlowStart, m_iLastAck, m_bLoss, m_iLastDecSeq, m_dLastDecPeriod, m_iAvgNAKNum,
            m_iNAKCount, m_iDecRandom, m_iDecCount, m_dCWndSize, m_dPktSndPeriod)
    }

    /** The constructor and init. */
    constructor (time: int, sndCurrSeqNo: int, decSeq: int)
      ensures Fields() == Init(time, sndCurrSeqNo, decSeq) && Sane(Fields())
    {
      m_LastRCTime, m_bSlowStart, m_iLastAck, m_bLoss := time, true, sndCurrSeqNo, false;
      m_iLastDecSeq, m_dLastDecPeriod, m_iAvgNAKNum, m_iNAKCount := decSeq, 1.0, 0, 0;
      m_iDecRandom, m_iDecCount, m_dCWndSize, m_dPktSndPeriod := 1, 0, 16.0, 1.0;
    }

    method LeaveSlowStart(e: Env)
      requires GoodEnv(e)
      modifies this`m_bSlowStart, this`m_dPktSndPeriod
      ensures Fields() == Leave(old(Fields()), e)
    {
      m_bSlowStart := false;
      if e.rcvRate > 0 {
        m_dPktSndPeriod := 1000000.0 / e.rcvRate as real;
      } else {
        m_dPktSndPeriod := m_dCWndSize / (e.rtt + SYN) as real;
      }
    }

    method Widen(e: Env, ack: int, acked: nat)
      requires GoodEnv(e)
      modifies this
      ensures Fields() == Widened(old(Fields()), e, ack, acked)
    {
      m_LastRCTime := e.time;
      if m_bSlowStart {
        m_dCWndSize := m_dCWndSize + acked as real;
        m_iLastAck := ack;
        if m_dCWndSize > e.maxCwnd {
          LeaveSlowStart(e);
        }
      } else {
        m_dCWndSize := e.rcvRate as real / 1000000.0 * (e.rtt + SYN) as real + 16.0;
      }
    }

    /** The end of onACK: the rate goes up, but not beyond the user's cap. */
    method Accelerate(e: Env, step: int -> real)
      requires GoodEnv(e) && m_dPktSndPeriod > 0.0
      modifies this`m_dPktSndPeriod
      ensures m_dPktSndPeriod == Capped(Faster(old(m_dPktSndPeriod), Inc(old(Fields()), e, step)), e)
    {
      var inc := Increase(e, step);
      Shrinks(m_dPktSndPeriod, inc);
      m_dPktSndPeriod := (m_dPktSndPeriod * SYN as real) / (m_dPktSndPeriod * inc + SYN as real);
      Cap(e);
    }

    method Cap(e: Env)
      requires GoodEnv(e)
      modifies this`m_dPktSndPeriod
      ensures m_dPktSndPeriod == Capped(old(m_dPktSndPeriod), e)
    {
      if e.maxSR > 0 {
        var minSP := 1000000.0 / (e.maxSR as real / e.mss as real);
        if m_dPktSndPeriod < minSP {
          m_dPktSndPeriod := minSP;
        }
      }
    }

    method OnACK(e: Env, ack: int, acked: nat, step: int -> real)
      requires GoodEnv(e) && Sane(Fields())
      modifies this
      ensures Fields() == OnAck(old(Fields()), e, ack, acked, step)
    {
      if 0 <= e.time - m_LastRCTime < SYN {
        return;
      }
      Widen(e, ack, acked);
      if m_bSlowStart {
        return;
      }
      if m_bLoss {
        m_bLoss := false;
        return;
      }
      assert m_dPktSndPeriod > 0.0;
      Accelerate(e, step);
    }

    method Increase(e: Env, step: int -> real) returns (inc: real)
      requires GoodEnv(e) && m_dPktSndPeriod > 0.0
      ensures inc == Inc(Fields(), e, step)
    {
      var b := Trunc(e.bandwidth as real - 1000000.0 / m_dPktSndPeriod);
      if m_dPktSndPeriod > m_dLastDecPeriod && TruncDiv(e.bandwidth, 9) < b {
        b := TruncDiv(e.bandwidth, 9);
      }
      if b <= 0 {
        inc := 1.0 / e.mss as real;
      } else {
        inc := step(b);
        if inc < 1.0 / e.mss as real {
          inc := 1.0 / e.mss as real;
        }
      }
    }

    /** A loss in the same epoch: of the next four, those that the random threshold picks raise the period. */
    method CountLoss(e: Env)
      requires m_iDecRandom > 0
      modifies this
      ensures Fields() == SameEpoch(old(Fields()), e)
    {
      m_iDecCount := m_iDecCount + 1;
      if m_iDecCount - 1 < 5 {
        m_iNAKCount := m_iNAKCount + 1;
        if m_iNAKCount % m_iDecRandom == 0 {
          m_dPktSndPeriod := Ceil(m_dPktSndPeriod * 1.125) as real;
          m_iLastDecSeq := e.sndCurrSeqNo;
        }
      }
    }

    method OnLossReport(e: Env, newer: bool, rand: real)
      requires GoodEnv(e) && Sane(Fields())
      modifies this
      ensures Fields() == OnLoss(old(Fields()), e, newer, rand)
    {
      if m_bSlowStart {
        LeaveSlowStart(e);
      }
      m_bLoss := true;
      if newer {
        BeginEpoch(e, rand);
      } else {
        CountLoss(e);
      }
    }

    /** The first loss after the last decrease. */
    method BeginEpoch(e: Env, rand: real)
      modifies this
      ensures Fields() == NewEpoch(old(Fields()), e, rand)
    {
      m_dLastDecPeriod := m_dPktSndPeriod;
      m_dPktSndPeriod := Ceil(m_dPktSndPeriod * 1.125) as real;
      m_iAvgNAKNum := Ceil(m_iAvgNAKNum as real * 0.875 + m_iNAKCount as real * 0.125);
      m_iNAKCount := 1;
      m_iDecCount := 1;
      m_iLastDecSeq := e.sndCurrSeqNo;
      m_iDecRandom := Draw(m_iAvgNAKNum, rand);
    }

    static method Draw(avg: int, rand: real) returns (r: int)
      ensures r == Drawn(avg, rand)
    {
      r := Ceil(avg as real * rand);
      if r < 1 {
        r := 1;
      }
    }

    method OnTimeOut(e: Env)
      requires GoodEnv(e)
      modifies this
      ensures Fields() == OnTimeout(old(Fields()), e)
    {
      if m_bSlowStart {
        LeaveSlowStart(e);
      }
    }
  }

  lemma BeforePositive(s: State, e: Env)
    requires GoodEnv(e) && Sane(s)
    ensures Before(s, e) > 0.0
  {
    assert e.rcvRate as real / 1000000.0 * (e.rtt + SYN) as real >= 0.0;
  }

  lemma AckKeepsSane(s: State, e: Env, ack: int, acked: nat, step: int -> real)
    requires GoodEnv(e) && Sane(s)
    ensures Sane(OnAck(s, e, ack, acked, step))
  {
    BeforePositive(s, e);
    assert e.rcvRate as real / 1000000.0 * (e.rtt + SYN) as real >= 0.0;
    if e.maxSR > 0 {
      assert e.maxSR as real / e.mss as real > 0.0;
    }
  }

  lemma LossKeepsSane(s: State, e: Env, newer: bool, rand: real)
    requires GoodEnv(e) && Sane(s)
    ensures Sane(OnLoss(s, e, newer, rand))
  {
    BeforePositive(s, e);
    RaiseMonotone(Before(s, e), Before(s, e));
  }

  /** The fields keep their signs through every callback, so that every run goes on. */
  lemma SaneKept(s: State, e: Env, ack: int, acked: nat, step: int -> real, newer: bool, rand: real)
    requires GoodEnv(e) && Sane(s)
    ensures Sane(OnAck(s, e, ack, acked, step)) && Sane(OnLoss(s, e, newer, rand)) && Sane(OnTimeout(s, e))
  {
    AckKeepsSane(s, e, ack, acked, step);
    LossKeepsSane(s, e, newer, rand);
    BeforePositive(s, e);
  }
}
