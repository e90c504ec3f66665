/** The record of recent messages by which GMP recognises repeated ones. */
module PeerHistory {

  /** ip and port of the sender, its session, and the message id. */
  datatype Key = Key(ip: string, port: int, session: int, id: int)

  /** A message and the time at which it was recorded. */
  datatype Record = Record(key: Key, time: int)

  /** An insertion: its record, and the clock when older records were purged. */
  datatype Entry = Entry(rec: Record, clock: int)

  const WINDOW := 10000000

  // ----- What the buckets hold

  /** The clock never goes back. */
  ghost predicate Timed(log: seq<Entry>, now: int) {
    && (forall i :: 0 <= i < |log| ==> log[i].rec.time <= log[i].clock <= now)
    && (forall i, k :: 0 <= i < k < |log| ==> log[i].clock <= log[k].rec.time)
  }

  /** A list after a purge: records of ten seconds or more ago go, up to the first younger one. */
  function Purge(rs: seq<Record>, ts: int): seq<Record> {
    if rs != [] && ts - rs[0].time >= WINDOW then Purge(rs[1..], ts) else rs
  }

  /** Bucket b after some insertions. */
  function Bucket(log: seq<Entry>, hash: Key -> int, b: int): seq<Record> {
    if log == [] then []
    else
      var e, rs := log[|log| - 1], Bucket(log[..|log| - 1], hash, b);
      if hash(e.rec.key) == b then Purge(rs, e.clock) + [e.rec] else rs
  }

  predicate InBucket(log: seq<Entry>, hash: Key -> int, key: Key) {
    exists i :: 0 <= i < |Bucket(log, hash, hash(key))| && Bucket(log, hash, hash(key))[i].key == key
  }

  /** Insertion i has not been purged: no later one into the same bucket came ten seconds or more
      after it. */
  ghost predicate Kept(log: seq<Entry>, hash: Key -> int, i: nat)
    requires i < |log|
  {
    forall k :: i < k < |log| && hash(log[k].rec.key) == hash(log[i].rec.key) ==>
      log[k].clock - log[i].rec.time < WINDOW
  }

  // ----- The exact contents

  ghost predicate Sorted(rs: seq<Record>) { forall i, k :: 0 <= i < k < |rs| ==> rs[i].time <= rs[k].time }

  lemma {:induction false} PurgeIs(rs: seq<Record>, ts: int)
    requires Sorted(rs)
    ensures forall r :: r in Purge(rs, ts) <==> r in rs && ts - r.time < WINDOW
    ensures Sorted(Purge(rs, ts))
    decreases |rs|
  {
    if rs != [] && ts - rs[0].time >= WINDOW {
      PurgeIs(rs[1..], ts);
      assert forall r :: r in rs <==> r == rs[0] || r in rs[1..];
    }
  }

  ghost predicate Came(log: seq<Entry>, hash: Key -> int, r: Record) {
    exists i :: 0 <= i < |log| && log[i].rec == r && Kept(log, hash, i)
  }

  /** A bucket holds, in the order of their times, exactly the insertions into it that were not purged. */
  lemma {:induction false} BucketIs(log: seq<Entry>, hash: Key -> int, b: int, now: int)
    requires Timed(log, now)
    ensures Sorted(Bucket(log, hash, b)) && forall r :: r in Bucket(log, hash, b) ==> r.time <= now
    ensures forall r :: r in Bucket(log, hash, b) <==> hash(r.key) == b && Came(log, hash, r)
    decreases |log|
  {
    if log != [] {
      var e, front := log[|log| - 1], log[..|log| - 1];
      var rs := Bucket(front, hash, b);
      BucketIs(front, hash, b, e.rec.time);
      PurgeIs(rs, e.clock);
      forall r ensures r in Bucket(log, hash, b) <==> hash(r.key) == b && Came(log, hash, r) {
        CameNext(log, hash, r);
      }
    }
  }

  lemma KeptNext(log: seq<Entry>, hash: Key -> int, i: nat)
    requires i < |log| - 1
    ensures var e, front := log[|log| - 1], log[..|log| - 1];
      Kept(log, hash, i) <==>
        (Kept(front, hash, i) && (hash(e.rec.key) == hash(log[i].rec.key) ==> e.clock - log[i].rec.time < WINDOW))
  {
  }

  lemma CameNext(log: seq<Entry>, hash: Key -> int, r: Record)
    requires log != []
    ensures var e, front := log[|log| - 1], log[..|log| - 1];
      Came(log, hash, r) <==>
        (e.rec == r || (Came(front, hash, r) && (hash(e.rec.key) == hash(r.key) ==> e.clock - r.time < WINDOW)))
  {
    var e, front := log[|log| - 1], log[..|log| - 1];
    if Came(log, hash, r) && e.rec != r {
      var i :| 0 <= i < |log| && log[i].rec == r && Kept(log, hash, i);
      KeptNext(log, hash, i);
      assert front[i].rec == r;
    }
    if Came(front, hash, r) && (hash(e.rec.key) == hash(r.key) ==> e.clock - r.time < WINDOW) {
      var i :| 0 <= i < |front| && front[i].rec == r && Kept(front, hash, i);
      KeptNext(log, hash, i);
      assert log[i].rec == r;
    }
    if e.rec == r {
      assert Kept(log, hash, |log| - 1);
    }
  }

  /** A message is recognised exactly if one of its insertions was not purged. */
  lemma InBucketIs(log: seq<Entry>, hash: Key -> int, key: Key, now: int)
    requires Timed(log, now)
    ensures InBucket(log, hash, key) <==> exists i :: 0 <= i < |log| && log[i].rec.key == key && Kept(log, hash, i)
  {
    var rs := Bucket(log, hash, hash(key));
    BucketIs(log, hash, hash(key), now);
    if InBucket(log, hash, key) {
      var i :| 0 <= i < |rs| && rs[i].key == key;
      assert rs[i] in rs;
      var k :| 0 <= k < |log| && log[k].rec == rs[i] && Kept(log, hash, k);
    }
    if exists i :: 0 <= i < |log| && log[i].rec.key == key && Kept(log, hash, i) {
      var i :| 0 <= i < |log| && log[i].rec.key == key && Kept(log, hash, i);
      assert Came(log, hash, log[i].rec);
      assert log[i].rec in rs;
    }
  }

  /** Whatever the hash function: all messages of the last ten seconds are recognised, and only
      messages that were recorded. */
  lemma Window(log: seq<Entry>, hash: Key -> int, key: Key, now: int)
    requires Timed(log, now)
    ensures (exists i :: 0 <= i < |log| && log[i].rec.key == key && now - log[i].rec.time < WINDOW) ==>
      InBucket(log, hash, key)
    ensures InBucket(log, hash, key) ==> exists i :: 0 <= i < |log| && log[i].rec.key == key
  {
    InBucketIs(log, hash, key, now);
    if exists i :: 0 <= i < |log| && log[i].rec.key == key && now - log[i].rec.time < WINDOW {
      var i :| 0 <= i < |log| && log[i].rec.key == key && now - log[i].rec.time < WINDOW;
      assert Kept(log, hash, i);
    }
  }

  // ----- The class

  class CPeerManagement {
    var m_mRecentRec: map<int, seq<Record>>
    const hash: Key -> int
    ghost var log: seq<Entry>

    ghost predicate Valid()
      reads this
    {
      forall b :: Bucket(log, hash, b) == if b in m_mRecentRec then m_mRecentRec[b] else []
    }

    constructor (hash: Key -> int)
      ensures Valid() && log == [] && this.hash == hash
    {
      this.hash := hash;
      m_mRecentRec := map[];
      log := [];
    }

    /** addRecentPR: purges the front of the bucket and appends the record. */
    method AddRecentPR(pr: Record, ts: int)
      requires Valid()
      modifies this
      ensures Valid() && log == old(log) + [Entry(pr, ts)]
    {
      var key := hash(pr.key);
      log := log + [Entry(pr, ts)];
      assert log[..|log| - 1] == old(log);
      if key !in m_mRecentRec {
        m_mRecentRec := m_mRecentRec[key := [pr]];
      } else {
        var rs := m_mRecentRec[key];
        while rs != [] && ts - rs[0].time >= WINDOW
          invariant Purge(rs, ts) == Purge(old(m_mRecentRec[key]), ts)
          decreases |rs|
        {
          rs := rs[1..];
        }
        m_mRecentRec := m_mRecentRec[key := rs + [pr]];
      }
    }

    /** hit: looks through the bucket of the message. */
    method Hit(key: Key) returns (found: bool)
      requires Valid()
      ensures found == InBucket(log, hash, key)
    {
      var b := hash(key);
      if b in m_mRecentRec {
        var rs := m_mRecentRec[b];
        for i := 0 to |rs|
          invariant forall k :: 0 <= k < i ==> rs[k].key != key
        {
          if rs[i].key == key {
            return true;
          }
        }
      }
      found := false;
    }
  }
}
