/** Option values and key-value stores whose entries expire, as Django's cache and Redis keep them. */
module TimedStore {

  datatype Option<+T> = None | Some(value: T)

  datatype Entry<+V> = Entry(value: V, expires: real)

  type Store<K, V> = map<K, Entry<V>>

  predicate Readable<K, V>(m: Store<K, V>, k: K, now: real) {
    k in m && now < m[k].expires
  }

  function Lookup<K, V>(m: Store<K, V>, k: K, now: real): Option<V> {
    if Readable(m, k, now) then Some(m[k].value) else None
  }

  function Put<K, V>(m: Store<K, V>, k: K, v: V, now: real, ttl: real): Store<K, V> {
    m[k := Entry(v, now + ttl)]
  }

  /** Python's `int` of a float: the fraction is cut off towards zero. */
  function Truncate(x: real): int { if x >= 0.0 then x.Floor else -((-x).Floor) }
}
