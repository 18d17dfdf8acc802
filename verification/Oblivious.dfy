/** Oblivious storage as its clients see it: a map with empty entries, whose accesses are
    guarded by a secret flag. Empty entries read as 0. */
module Oblivious {

  type Store<V> = map<nat, V>

  function Get(m: Store<nat>, i: nat): nat {
    if i in m then m[i] else 0
  }

  // access(index, value, write)
  function Access<V>(m: Store<V>, i: nat, v: V, write: bool): Store<V> {
    if write then m[i := v] else m
  }

  // delete(index, for_real)
  function Delete<V>(m: Store<V>, i: nat, forReal: bool): Store<V> {
    if forReal then m - {i} else m
  }
}
