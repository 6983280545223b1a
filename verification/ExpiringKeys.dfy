/** Redis string keys with a time to live. Times are in milliseconds, lifetimes in seconds;
    a key is gone once the clock has passed its expiry. */
module ExpiringKeys {
  import opened Optional

  datatype Cell<+V> = Cell(value: V, expiresAt: Option<int>)

  type Keys<K, +V> = map<K, Cell<V>>

  predicate Live<K, V>(m: Keys<K, V>, k: K, now: int) {
    k in m && (m[k].expiresAt.None? || now <= m[k].expiresAt.value)
  }

  function Get<K, V>(m: Keys<K, V>, k: K, now: int): Option<V> {
    if Live(m, k, now) then Some(m[k].value) else None
  }

  /** SET k v EX ttl */
  function SetEx<K, V>(m: Keys<K, V>, k: K, v: V, ttl: int, now: int): Keys<K, V> {
    m[k := Cell(v, Some(now + 1000 * ttl))]
  }

  /** SET k v EX ttl NX: whether it was set. */
  function SetNx<K, V>(m: Keys<K, V>, k: K, v: V, ttl: int, now: int): (Keys<K, V>, bool) {
    if Live(m, k, now) then (m, false) else (SetEx(m, k, v, ttl, now), true)
  }

  /** SET k v: it also clears the lifetime. */
  function Set<K, V>(m: Keys<K, V>, k: K, v: V): Keys<K, V> {
    m[k := Cell(v, None)]
  }

  /** INCRBY, or DECRBY for a negative amount: the new value. An absent key starts at 0 with
      no lifetime; a live one keeps its own. */
  function IncrBy<K>(m: Keys<K, int>, k: K, amount: int, now: int): (Keys<K, int>, int) {
    if Live(m, k, now) then (m[k := m[k].(value := m[k].value + amount)], m[k].value + amount)
    else (m[k := Cell(amount, None)], amount)
  }

  /** EXPIRE k ttl */
  function Expire<K, V>(m: Keys<K, V>, k: K, ttl: int, now: int): Keys<K, V> {
    if Live(m, k, now) then m[k := m[k].(expiresAt := Some(now + 1000 * ttl))] else m
  }

  // What the commands come to, read back at any moment.

  lemma {:induction false} SetExpires<K, V>(m: Keys<K, V>, k: K, v: V, ttl: int, now: int, j: K, later: int)
    ensures Get(SetEx(m, k, v, ttl, now), j, later)
            == if j != k then Get(m, j, later) else if later <= now + 1000 * ttl then Some(v) else None
    ensures Get(Set(m, k, v), j, later) == if j != k then Get(m, j, later) else Some(v)
  {
  }

  lemma {:induction false} SetNxOnce<K, V>(m: Keys<K, V>, k: K, v: V, ttl: int, now: int, later: int)
    ensures var (m', done) := SetNx(m, k, v, ttl, now);
            && (done <==> Get(m, k, now) == None)
            && Get(m', k, later) == if done then (if later <= now + 1000 * ttl then Some(v) else None) else Get(m, k, later)
  {
  }

  lemma {:induction false} IncrCounts<K>(m: Keys<K, int>, k: K, amount: int, now: int, ttl: int, tExpire: int, later: int)
    requires now <= tExpire <= later
    ensures var (m', count) := IncrBy(m, k, amount, now);
            && count == GetOr(Get(m, k, now), 0) + amount && Get(m', k, now) == Some(count)
            && (Live(m, k, now) ==> (Live(m', k, later) <==> Live(m, k, later)))
            && (!Live(m, k, now) ==>
                  && Get(m', k, later) == Some(count)
                  && Get(Expire(m', k, ttl, tExpire), k, later)
                     == if later <= tExpire + 1000 * ttl then Some(count) else None)
  {
  }
}
