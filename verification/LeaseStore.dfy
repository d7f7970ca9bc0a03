// The Redis side of src/lib/distributed-lock.js: SET key token PX ttl NX and the two Lua scripts,
// each one atomic step on a store of keys with an expiry.
module LeaseStore {

  datatype Lease<T> = Lease(token: T, expiry: int)

  type Store<K, T> = map<K, Lease<T>>

  /** A key past its expiry is absent. */
  predicate Live<K, T>(store: Store<K, T>, key: K, now: int) {
    key in store && now < store[key].expiry
  }

  /** redis.call("get", key) == token */
  predicate Holds<K, T(==)>(store: Store<K, T>, key: K, token: T, now: int) {
    Live(store, key, now) && store[key].token == token
  }

  /** SET key token PX ttl NX */
  function SetNx<K, T>(store: Store<K, T>, key: K, token: T, ttl: int, now: int): Store<K, T> {
    if Live(store, key, now) then store else store[key := Lease(token, now + ttl)]
  }

  /** RELEASE_SCRIPT */
  function DeleteIfHeld<K, T(==)>(store: Store<K, T>, key: K, token: T, now: int): Store<K, T> {
    if Holds(store, key, token, now) then store - {key} else store
  }

  /** EXTEND_SCRIPT */
  function ExtendIfHeld<K, T(==)>(store: Store<K, T>, key: K, token: T, ttl: int, now: int): Store<K, T> {
    if Holds(store, key, token, now) then store[key := Lease(token, now + ttl)] else store
  }
}
