// What several models share.

module Basics {
  datatype Option<+T> = None | Some(value: T)

  lemma SubsetSize<T>(small: set<T>, big: set<T>)
    requires small <= big
    ensures |small| <= |big|
  {
    assert big == small + (big - small);
  }
}
