/** Small things several components share. */
module Common {

  datatype Option<+T> = None | Some(value: T) {
    function GetOr(d: T): T { if Some? then value else d }
  }

  /** What a key comparison must be. */
  ghost predicate Equivalence<K(!new)>(eq: (K, K) -> bool) {
    && (forall x :: eq(x, x))
    && (forall x, y :: eq(x, y) ==> eq(y, x))
    && (forall x, y, z :: eq(x, y) && eq(y, z) ==> eq(x, z))
  }

  lemma {:induction false} Assoc<T>(a: seq<T>, b: seq<T>, c: seq<T>)
    ensures a + b + c == a + (b + c)
  {
  }
}
