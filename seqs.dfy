/** Order-preserving sub-lists, the shape of every `filter` in the source. */
module Seqs {

  /** a is obtained from b by deleting elements, keeping the order. */
  predicate IsSublist<T(==)>(a: seq<T>, b: seq<T>)
    decreases |b|
  {
    if a == [] then true
    else if b == [] then false
    else if a[|a| - 1] == b[|b| - 1] then IsSublist(a[..|a| - 1], b[..|b| - 1])
    else IsSublist(a, b[..|b| - 1])
  }

  lemma {:induction false} SublistDropLast<T>(a: seq<T>, b: seq<T>)
    requires a != [] && IsSublist(a, b)
    ensures IsSublist(a[..|a| - 1], b)
    decreases |b|, 0
  {
    if a[|a| - 1] == b[|b| - 1] {
      SublistGrow(a[..|a| - 1], b[..|b| - 1], b[|b| - 1]);
      assert b[..|b| - 1] + [b[|b| - 1]] == b;
    } else {
      SublistDropLast(a, b[..|b| - 1]);
      SublistGrow(a[..|a| - 1], b[..|b| - 1], b[|b| - 1]);
      assert b[..|b| - 1] + [b[|b| - 1]] == b;
    }
  }

  /** Appending an element to the longer list keeps a sub-list a sub-list. */
  lemma {:induction false} SublistGrow<T>(a: seq<T>, b: seq<T>, x: T)
    requires IsSublist(a, b)
    ensures IsSublist(a, b + [x])
    decreases |b|, 1
  {
    assert (b + [x])[..|b|] == b;
    if a != [] && a[|a| - 1] == x {
      SublistDropLast(a, b);
    }
  }

  /** Appending the same element to both lists keeps a sub-list a sub-list. */
  lemma SublistBoth<T>(a: seq<T>, b: seq<T>, x: T)
    requires IsSublist(a, b)
    ensures IsSublist(a + [x], b + [x])
  {
    assert (a + [x])[..|a|] == a;
    assert (b + [x])[..|b|] == b;
  }

  /** Every element of a sub-list is an element of the list. */
  lemma {:induction false} SublistMembers<T>(a: seq<T>, b: seq<T>)
    requires IsSublist(a, b)
    ensures forall x :: x in a ==> x in b
    decreases |b|
  {
    if a != [] {
      if a[|a| - 1] == b[|b| - 1] {
        SublistMembers(a[..|a| - 1], b[..|b| - 1]);
        assert a == a[..|a| - 1] + [a[|a| - 1]];
        assert b == b[..|b| - 1] + [b[|b| - 1]];
      } else {
        SublistMembers(a, b[..|b| - 1]);
        assert b == b[..|b| - 1] + [b[|b| - 1]];
      }
    }
  }

  lemma SublistRefl<T>(a: seq<T>)
    ensures IsSublist(a, a)
  {
    if a != [] {
      SublistRefl(a[..|a| - 1]);
    }
  }
}
