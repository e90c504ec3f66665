/** The queues of one GMP process. */
module Gmp {
  import opened PeerHistory
  import opened GmpSpec

  class CGMP {
    var m_lSndQueue: seq<Rec>
    var m_qRcvQueue: seq<Msg>
    var m_mResQueue: map<int, Msg>
    const m_PeerHistory: CPeerManagement
    const session: int

    ghost predicate Valid()
      reads m_PeerHistory
    {
      m_PeerHistory.Valid()
    }

    constructor (hash: Key -> int, session: int)
      ensures Valid() && fresh(m_PeerHistory) && m_PeerHistory.log == [] && m_PeerHistory.hash == hash
      ensures m_lSndQueue == [] && m_qRcvQueue == [] && m_mResQueue == map[] && this.session == session
    {
      m_PeerHistory := new CPeerManagement(hash);
      m_lSndQueue, m_qRcvQueue, m_mResQueue := [], [], map[];
      this.session := session;
    }

    /** The end of UDPsend: a message that is on the wire already enters the send queue. */
    method Push(rec: Rec, now: int)
      modifies this`m_lSndQueue
      ensures m_lSndQueue == old(m_lSndQueue) + [rec.(time := now)]
    {
      m_lSndQueue := m_lSndQueue + [rec.(time := now)];
    }

    /** One round of sndHandler: messages that have waited for more than ten seconds leave the queue,
        to be sent over UDT; those that have waited for more than one are sent again over UDP. */
    method SndHandler(ts: int) returns (udpsend: seq<Rec>, udtsend: seq<Rec>)
      modifies this`m_lSndQueue
      ensures m_lSndQueue == Staying(old(m_lSndQueue), ts) && udtsend == Expired(old(m_lSndQueue), ts)
      ensures forall r :: r in udpsend <==> r in old(m_lSndQueue) && RESEND < ts - r.time <= TIMEOUT
    {
      udpsend, udtsend := [], [];
      var q, i := m_lSndQueue, 0;
      ghost var done: seq<Rec> := [];
      while i < |q|
        invariant 0 <= i <= |q| && m_lSndQueue == old(m_lSndQueue) == done + q[i..]
        invariant Passed(done, ts, q[..i], udpsend, udtsend)
        decreases |q| - i
      {
        var r := q[i];
        var diff := ts - r.time;
        PassedNext(done, ts, q[..i], udpsend, udtsend, r);
        Moved(done, q, i);
        done := done + [r];
        if diff > TIMEOUT {
          udtsend := udtsend + [r];
          q := Without(q, i);
        } else {
          if diff > RESEND {
            udpsend := udpsend + [r];
          }
          i := i + 1;
        }
      }
      assert q[..i] == q && done == m_lSndQueue;
      m_lSndQueue := q;
    }

    /** The ACK branch of rcvHandler: the first message with that number leaves the send queue, and
        the peer is recorded. */
    method Acknowledge(id: int, ip: string, port: int, now: int) returns (found: bool)
      requires Valid()
      modifies this`m_lSndQueue, m_PeerHistory
      ensures Valid()
      ensures var i := IdAt(old(m_lSndQueue), id);
        && found == (i < |old(m_lSndQueue)|)
        && m_lSndQueue == (if found then Without(old(m_lSndQueue), i) else old(m_lSndQueue))
        && m_PeerHistory.log == old(m_PeerHistory.log) +
             if found then [Entry(Record(Key(ip, port, session, -1), now), now)] else []
    {
      for i := 0 to |m_lSndQueue|
        invariant m_lSndQueue == old(m_lSndQueue) && forall k :: 0 <= k < i ==> m_lSndQueue[k].id != id
        invariant Valid() && m_PeerHistory.log == old(m_PeerHistory.log)
      {
        if id == m_lSndQueue[i].id {
          m_PeerHistory.AddRecentPR(Record(Key(ip, port, session, -1), now), now);
          m_lSndQueue := Without(m_lSndQueue, i);
          return true;
        }
      }
      found := false;
    }

    /** The data branch of rcvHandler and of udtRcvHandler: a repeated message is dropped; a new one is
        recorded and goes to the receive queue, or to the results if it answers a request. */
    method Take(key: Key, info: int, data: seq<bv8>, now: int) returns (repeated: bool)
      requires Valid()
      modifies this`m_qRcvQueue, this`m_mResQueue, m_PeerHistory
      ensures Valid() && repeated == InBucket(old(m_PeerHistory.log), m_PeerHistory.hash, key)
      ensures m_PeerHistory.log == old(m_PeerHistory.log) + if repeated then [] else [Entry(Record(key, now), now)]
      ensures m_qRcvQueue == old(m_qRcvQueue) + if repeated || info != 0 then [] else [Msg(key, info, data, now)]
      ensures m_mResQueue == if repeated || info == 0 then old(m_mResQueue)
        else old(m_mResQueue)[info := Msg(key, info, data, now)]
    {
      repeated := m_PeerHistory.Hit(key);
      if repeated {
        return;
      }
      m_PeerHistory.AddRecentPR(Record(key, now), now);
      if info == 0 {
        m_qRcvQueue := m_qRcvQueue + [Msg(key, info, data, now)];
      } else {
        m_mResQueue := m_mResQueue[info := Msg(key, info, data, now)];
      }
    }
  }

  /** What a look through the messages of `done` leaves. */
  ghost predicate Passed(done: seq<Rec>, ts: int, stay: seq<Rec>, udp: seq<Rec>, udt: seq<Rec>) {
    && stay == Staying(done, ts) && udt == Expired(done, ts)
    && forall r :: r in udp <==> r in done && RESEND < ts - r.time <= TIMEOUT
  }

  lemma Moved(done: seq<Rec>, q: seq<Rec>, i: nat)
    requires i < |q|
    ensures done + q[i..] == done + [q[i]] + q[i + 1..] && q[..i + 1] == q[..i] + [q[i]]
    ensures Without(q, i)[..i] == q[..i] && Without(q, i)[i..] == q[i + 1..]
  {
  }

  lemma {:induction false} StayingPlus(q: seq<Rec>, r: Rec, ts: int)
    ensures Staying(q + [r], ts) == Staying(q, ts) + if ts - r.time > TIMEOUT then [] else [r]
    ensures Expired(q + [r], ts) == Expired(q, ts) + if ts - r.time > TIMEOUT then [r] else []
  {
    if q != [] {
      assert (q + [r])[1..] == q[1..] + [r];
      StayingPlus(q[1..], r, ts);
    } else {
      assert (q + [r])[1..] == [];
    }
  }

  lemma PassedNext(done: seq<Rec>, ts: int, stay: seq<Rec>, udp: seq<Rec>, udt: seq<Rec>, r: Rec)
    requires Passed(done, ts, stay, udp, udt)
    ensures ts - r.time > TIMEOUT ==> Passed(done + [r], ts, stay, udp, udt + [r])
    ensures RESEND < ts - r.time <= TIMEOUT ==> Passed(done + [r], ts, stay + [r], udp + [r], udt)
    ensures ts - r.time <= RESEND ==> Passed(done + [r], ts, stay + [r], udp, udt)
  {
    StayingPlus(done, r, ts);
  }
}
