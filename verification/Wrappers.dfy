// What every part of the model shares.
module Wrappers {
  datatype Option<+T> = None | Some(value: T)

  // Nothing in m is gone from m', or different there.
  ghost predicate Grows<K, V>(m: map<K, V>, m': map<K, V>) {
    forall k :: k in m ==> k in m' && m'[k] == m[k]
  }
}
