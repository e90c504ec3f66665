/** The network topology of a master: IP ranges and the paths of their clusters. */
module Topology {

  datatype TopoMap = TopoMap(ip: bv32, mask: bv32, path: seq<int>)

  /** `digits` reads an IP address as a number. */
  datatype Topology = Topology(level: nat, maps: seq<TopoMap>, digits: string -> bv32) {
    /** Every path has one component per level, as the master's clusters presume. */
    ghost predicate Valid() { level > 0 && forall i :: 0 <= i < |maps| ==> |maps[i].path| == level }

    predicate InRange(ip: string, i: nat)
      requires i < |maps|
    {
      digits(ip) & maps[i].mask == maps[i].ip & maps[i].mask
    }

    /** The path of the first range from number i on that an address is in, or zeros. */
    function PathFrom(ip: string, i: nat): (path: seq<int>)
      requires i <= |maps|
      ensures Valid() ==> |path| == level
      decreases |maps| - i
    {
      if i == |maps| then seq(level, k => 0) else if InRange(ip, i) then maps[i].path else PathFrom(ip, i + 1)
    }

    function PathOf(ip: string): (path: seq<int>)
      ensures Valid() ==> |path| == level
    {
      PathFrom(ip, 0)
    }

    /** Range number i is the first one that the address is in. */
    ghost predicate First(ip: string, i: nat) {
      i < |maps| && InRange(ip, i) && forall k :: 0 <= k < i ==> !InRange(ip, k)
    }

    /** An address belongs to the path of its first range, and to 0/0/... if it is in none. */
    lemma PathIs(ip: string)
      ensures forall i: nat :: First(ip, i) ==> PathOf(ip) == maps[i].path
      ensures (forall i :: 0 <= i < |maps| ==> !InRange(ip, i)) ==> PathOf(ip) == seq(level, k => 0)
    {
      var i := 0;
      while i < |maps| && !InRange(ip, i)
        invariant i <= |maps| && PathOf(ip) == PathFrom(ip, i) && forall k :: 0 <= k < i ==> !InRange(ip, k)
      {
        i := i + 1;
      }
      forall j: nat | First(ip, j) ensures PathOf(ip) == maps[j].path {
        assert j == i;
      }
    }

    /** lookup. */
    method Lookup(ip: string) returns (rc: int, path: seq<int>)
      ensures path == PathOf(ip)
      ensures rc == 0 ==> exists i: nat :: First(ip, i) && path == maps[i].path
      ensures rc != 0 ==> rc == -1 && path == seq(level, k => 0) && forall i :: 0 <= i < |maps| ==> !InRange(ip, i)
    {
      for i := 0 to |maps|
        invariant PathOf(ip) == PathFrom(ip, i) && forall k :: 0 <= k < i ==> !InRange(ip, k)
      {
        if InRange(ip, i) {
          assert First(ip, i);
          return 0, maps[i].path;
        }
      }
      path := [];
      for i := 0 to level
        invariant path == seq(i, k => 0)
      {
        path := path + [0];
      }
      rc := -1;
    }
  }

  /** match: how many components two paths share. */
  method Match(p: seq<int>, q: seq<int>) returns (n: nat)
    ensures n <= |p| && n <= |q| && p[..n] == q[..n]
    ensures n < |p| && n < |q| ==> p[n] != q[n]
    ensures n == |p| <==> p <= q
  {
    var level := if |p| < |q| then |p| else |q|;
    for i := 0 to level
      invariant p[..i] == q[..i]
    {
      if p[i] != q[i] {
        return i;
      }
    }
    n := level;
  }
}
