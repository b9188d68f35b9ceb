/** Optional values, map reads and the machine word. */
module Basics {

  datatype Option<T> = None | Some(value: T)

  function Lookup<K, V>(m: map<K, V>, k: K): Option<V> {
    if k in m then Some(m[k]) else None
  }

  const U64_LIMIT := 0x1_0000_0000_0000_0000

  type U64 = x: int | 0 <= x < U64_LIMIT

  /** uint64 increment, wrapping. */
  function Increment(x: U64): U64 {
    if x + 1 == U64_LIMIT then 0 else x + 1
  }

  /** `n` increments. */
  function Plus(x: U64, n: nat): U64 {
    (x + n) % U64_LIMIT
  }

  lemma PlusOneMore(x: U64, n: nat)
    ensures Plus(x, n + 1) == Increment(Plus(x, n)) && Plus(x, 0) == x
  {
  }
}
