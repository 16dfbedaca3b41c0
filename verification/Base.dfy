/** What several of the models need. */
module Base {
  datatype Option<T> = None | Some(value: T)

  lemma SubsetBound<T>(a: set<T>, b: set<T>)
    requires a <= b
    ensures |a| <= |b|
  {
    assert b == a + (b - a);
  }
}
