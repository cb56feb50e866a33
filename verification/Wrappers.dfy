/** Small generic helpers, shared by every other module. */
module Wrappers {
  datatype Option<+T> = None | Some(value: T)

  datatype Result<+T, +E> = Ok(value: T) | Err(error: E)

  /** Some element of a nonempty set, in an order nobody controls. */
  method PickOne<T(==)>(s: set<T>) returns (x: T)
    requires s != {}
    ensures x in s
  {
    x :| x in s;
  }

  lemma {:induction false} SubsetSize<T>(a: set<T>, b: set<T>)
    requires a <= b
    ensures |a| <= |b|
    ensures |a| == |b| ==> a == b
  {
    if a != {} {
      var x :| x in a;
      SubsetSize(a - {x}, b - {x});
    } else if |b| == 0 {
      assert b == {};
    }
  }

  /** What each step keeps from f on holds at i. */
  lemma {:induction false} Along(holds: nat -> bool, f: nat, i: nat)
    requires f <= i && holds(f) && forall k: nat :: f < k <= i && holds(k - 1) ==> holds(k)
    ensures holds(i)
  {
    if f < i {
      Along(holds, f, i - 1);
    }
  }
}
