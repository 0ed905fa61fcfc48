/** Small helpers shared by the models of the distributed protocols. */
module Options {
  datatype Option<+T> = None | Some(value: T)
}

/**
 * The Redis lock of `src/utils/redis.rs`: `SET key value NX EX ttl` to acquire, and a
 * script that deletes the key only while it still holds the caller's own value. The
 * same two commands, with `PX`, back the plugins' key-value lock.
 */
module RedisLock {
  import opened Options

  /** Value and expiry time of a lock key that is present. */
  datatype Lease = Lease(token: nat, expiry: nat)

  /** A lock key whose expiry time has passed is as good as absent. */
  predicate Held(lock: Option<Lease>, now: nat) {
    lock.Some? && now < lock.value.expiry
  }

  /** `SET key token NX EX ttl`: the new key, or `None` when another value is in place. */
  function TryAcquire(lock: Option<Lease>, token: nat, ttl: nat, now: nat): (r: Option<Lease>)
    ensures r.Some? <==> !Held(lock, now)
    ensures r.Some? && 0 < ttl ==> Held(r, now) && r.value.token == token && !Held(r, now + ttl)
  {
    if Held(lock, now) then None else Some(Lease(token, now + ttl))
  }

  /** The release script: compare the stored value with the caller's and delete on a match. */
  function Release(lock: Option<Lease>, token: nat): (r: Option<Lease>)
    ensures lock.Some? && lock.value.token != token ==> r == lock
    ensures r.Some? ==> r.value.token != token
  {
    if lock.Some? && lock.value.token == token then None else lock
  }
}
