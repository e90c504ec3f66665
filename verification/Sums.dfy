/** Sums over finite sets. */
module Sums {

  ghost function Sum<T>(s: set<T>, f: T -> int): int {
    if s == {} then 0 else var x :| x in s; f(x) + Sum(s - {x}, f)
  }

  /** The sum does not depend on which element is taken first. */
  lemma {:induction false} SumAny<T>(s: set<T>, f: T -> int, x: T)
    requires x in s
    ensures Sum(s, f) == f(x) + Sum(s - {x}, f)
    decreases s
  {
    var y :| y in s && Sum(s, f) == f(y) + Sum(s - {y}, f);
    if y != x {
      SumAny(s - {y}, f, x);
      SumAny(s - {x}, f, y);
      assert s - {y} - {x} == s - {x} - {y};
    }
  }

  lemma {:induction false} SumUnion<T>(s: set<T>, t: set<T>, f: T -> int)
    requires s !! t
    ensures Sum(s + t, f) == Sum(s, f) + Sum(t, f)
    decreases s
  {
    if s == {} {
      assert s + t == t;
    } else {
      var x :| x in s;
      SumAny(s + t, f, x);
      SumAny(s, f, x);
      assert s + t - {x} == (s - {x}) + t;
      SumUnion(s - {x}, t, f);
    }
  }

  lemma {:induction false} SumSame<T>(s: set<T>, f: T -> int, g: T -> int)
    requires forall x :: x in s ==> f(x) == g(x)
    ensures Sum(s, f) == Sum(s, g)
    decreases s
  {
    if s != {} {
      var x :| x in s;
      SumAny(s, f, x);
      SumAny(s, g, x);
      SumSame(s - {x}, f, g);
    }
  }

  /** Renaming the elements one to one keeps the sum. */
  lemma {:induction false} SumImage<T, U>(s: set<T>, t: set<U>, m: T -> U, f: U -> int, g: T -> int)
    requires forall x :: x in s ==> m(x) in t && g(x) == f(m(x))
    requires forall y :: y in t ==> exists x :: x in s && m(x) == y
    requires forall x, y :: x in s && y in s && m(x) == m(y) ==> x == y
    ensures Sum(t, f) == Sum(s, g)
    decreases s
  {
    if s != {} {
      var x :| x in s;
      SumAny(t, f, m(x));
      SumAny(s, g, x);
      SumImage(s - {x}, t - {m(x)}, m, f, g);
    }
  }

  lemma {:induction false} SumOnes<T>(s: set<T>, f: T -> int)
    requires forall x :: x in s ==> f(x) == 1
    ensures Sum(s, f) == |s|
    decreases s
  {
    if s != {} {
      var x :| x in s;
      SumAny(s, f, x);
      SumOnes(s - {x}, f);
    }
  }

  ghost function Group<T, U>(s: set<T>, key: T -> U, k: U): set<T> { set x | x in s && key(x) == k }

  /** Summing group by group. */
  lemma {:induction false} SumBy<T, U>(s: set<T>, key: T -> U, keys: set<U>, f: T -> int, g: U -> int)
    requires forall x :: x in s ==> key(x) in keys
    requires forall k :: k in keys ==> g(k) == Sum(Group(s, key, k), f)
    ensures Sum(s, f) == Sum(keys, g)
    decreases keys
  {
    if keys != {} {
      var k :| k in keys;
      var a := Group(s, key, k);
      var b := s - a;
      forall j | j in keys - {k} ensures g(j) == Sum(Group(b, key, j), f) {
        assert Group(b, key, j) == Group(s, key, j);
      }
      SumBy(b, key, keys - {k}, f, g);
      assert s == a + b;
      SumUnion(a, b, f);
      SumAny(keys, g, k);
    } else {
      assert s == {};
    }
  }
}
