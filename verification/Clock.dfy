/** Time units, and the arbitrary order in which a map yields its keys. */
module Clock {
  import opened Bytes

  /** Times are nanoseconds. */
  const SECOND: int := 1_000_000_000
  const MILLISECOND: int := 1_000_000

  ghost function SomeOf(names: set<bytes>): bytes {
    if names == {} then [] else var n :| n in names; n
  }

  /** Which key a map iteration meets first. */
  type Pick = f: set<bytes> -> bytes | forall s: set<bytes> :: s != {} ==> f(s) in s
    ghost witness (s: set<bytes>) => SomeOf(s)

  lemma {:induction false} SubsetSize<T>(a: set<T>, b: set<T>)
    requires a <= b
    ensures |a| <= |b|
  {
    if a != {} {
      var x :| x in a;
      SubsetSize(a - {x}, b - {x});
    }
  }
}
