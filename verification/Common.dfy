/** What the other modules share. */
module Common {
  /** An optional value: a missing map entry, a nil pointer or an error result of the source. */
  datatype Option<+T> = None | Some(value: T)

  /** A subset has at most as many elements, and as many only if it is the whole set. */
  lemma {:induction false} SubsetSize<T>(a: set<T>, b: set<T>)
    requires a <= b
    ensures |a| <= |b| && (|a| == |b| <==> a == b)
  {
    if a != b {
      var x :| x in b && x !in a;
      SubsetSize(a, b - {x});
    }
  }
}
