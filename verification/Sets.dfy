/** Small facts about sets, shared by the other modules. */
module Sets {

  lemma Pick<T>(a: set<T>) returns (x: T)
    requires a != {}
    ensures x in a
  {
    x :| x in a;
  }

  /** A loop over the elements of `all`: those still to do, and those done. */
  ghost predicate Parted<T>(all: set<T>, todo: set<T>, done: set<T>) {
    todo !! done && todo + done == all
  }

  lemma PartedNext<T>(all: set<T>, todo: set<T>, done: set<T>, x: T)
    requires Parted(all, todo, done) && x in todo
    ensures Parted(all, todo - {x}, done + {x}) && x in all && x !in done
  {
    assert todo - {x} + (done + {x}) == todo + done;
  }

  lemma Only<T>(a: set<T>, k: T)
    requires a - {k} == {}
    ensures forall j :: j in a ==> j == k
  {
    assert forall j :: j in a ==> j in a - {k} || j == k;
  }
}
