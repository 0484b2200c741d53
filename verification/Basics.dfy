/** What several components share. */
module Basics {

  datatype Option<T> = None | Some(value: T)

  ghost predicate Distinct(q: seq<nat>) {
    forall j, k :: 0 <= j < k < |q| ==> q[j] != q[k]
  }

  /** The member of a linked list after position k - 1, or the mark that ends the list. */
  function Following(end: nat, list: seq<nat>, k: nat): nat {
    if k < |list| then list[k] else end
  }

  lemma {:induction false} SubsetSize<T>(a: set<T>, b: set<T>)
    requires a <= b
    ensures |a| <= |b|
  {
    if a != {} {
      var x :| x in a;
      SubsetSize(a - {x}, b - {x});
    }
  }
}
