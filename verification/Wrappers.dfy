/** An optional value and the size of a finite set, for the modules that need them. */
module Wrappers {

  datatype Option<+T> = None | Some(value: T)

  /** A subset is no larger, and as large only if it is the whole set. */
  lemma SubsetSize<T>(a: set<T>, b: set<T>)
    requires a <= b
    ensures |a| <= |b| && (|a| == |b| ==> a == b)
  {
    var rest := b - a;
    assert b == a + rest && |b| == |a| + |rest|;
    if rest == {} { assert a == b; }
  }
}
