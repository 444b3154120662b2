/** Equality of whole values, for proofs that do not look at their parts. */
module Values {

  datatype Maybe<T> = Nothing | Just(value: T)

  ghost predicate Holds<T>(m: Maybe<T>, b: T) {
    match m
    case Nothing => false
    case Just(a) => a == b
  }

  ghost predicate Same<T>(a: T, b: T) {
    Holds(Just(a), b)
  }

  /** A fact about `x` stated for every open mark is kept shut until a proof opens one. */
  predicate Open<T>(x: T, mark: int) {
    true
  }

  lemma ConcatAssociates<T>(a: seq<T>, b: seq<T>, c: seq<T>)
    ensures Same(a + (b + c), a + b + c)
  {
    assert a + (b + c) == a + b + c;
  }
}
