/**
 * The few collection operations the categorizable trait applies to the lists
 * it gets back from the database: `intersect`, `diff` and counting, on lists
 * compared item by item.
 */
module Collections {

  /** No item occurs twice in the list. */
  predicate Distinct<T(==)>(xs: seq<T>) {
    forall i, j | 0 <= i < j < |xs| :: xs[i] != xs[j]
  }

  /** The set of the items of a list. */
  function Elems<T>(xs: seq<T>): set<T> {
    set x | x in xs
  }

  /** `$xs->intersect($ys)`: the items of xs that also occur in ys, in xs's order. */
  function Intersect<T(==,!new)>(xs: seq<T>, ys: seq<T>): (r: seq<T>)
    ensures forall x :: x in r <==> x in xs && x in ys
    ensures r == [] <==> Elems(xs) !! Elems(ys)
    ensures |r| <= |xs|
  {
    if xs == [] then []
    else
      var rest := Intersect(xs[1..], ys);
      assert Elems(xs) == {xs[0]} + Elems(xs[1..]) by { assert xs == [xs[0]] + xs[1..]; }
      if xs[0] in ys then [xs[0]] + rest else rest
  }

  /** `$xs->diff($ys)`: the items of xs that do not occur in ys, in xs's order. */
  function Diff<T(==,!new)>(xs: seq<T>, ys: seq<T>): (r: seq<T>)
    ensures forall x :: x in r <==> x in xs && x !in ys
    ensures r == [] <==> Elems(xs) <= Elems(ys)
    ensures |r| <= |xs|
  {
    if xs == [] then []
    else
      var rest := Diff(xs[1..], ys);
      assert Elems(xs) == {xs[0]} + Elems(xs[1..]) by { assert xs == [xs[0]] + xs[1..]; }
      if xs[0] in ys then rest else [xs[0]] + rest
  }

  /** Dropping the head of a list without repetitions keeps it so, and the head is gone. */
  lemma DistinctTail<T>(xs: seq<T>)
    requires Distinct(xs) && xs != []
    ensures Distinct(xs[1..]) && xs[0] !in xs[1..]
  {
  }

  /** A list without repetitions has as many items as its set has elements. */
  lemma {:induction false} DistinctCard<T>(xs: seq<T>)
    requires Distinct(xs)
    ensures |Elems(xs)| == |xs|
  {
    if xs != [] {
      var tail := xs[1..];
      DistinctTail(xs);
      DistinctCard(tail);
      assert Elems(xs) == {xs[0]} + Elems(tail) by {
        assert xs == [xs[0]] + tail;
      }
    }
  }

  /** A subset as large as its superset is the superset. */
  lemma {:induction false} SubsetOfEqualSize<T>(a: set<T>, b: set<T>)
    requires a <= b && |a| == |b|
    ensures a == b
  {
    if a != b {
      var x :| x in b && x !in a;
      assert a <= b - {x};
      SubsetSize(a, b - {x});
    }
  }

  /** A subset is no larger than its superset. */
  lemma {:induction false} SubsetSize<T>(a: set<T>, b: set<T>)
    requires a <= b
    ensures |a| <= |b|
  {
    if a != {} {
      var x :| x in a;
      SubsetSize(a - {x}, b - {x});
    }
  }
}
