/** The Redis lock: SET key token PX ttl NX, and compare-and-delete. A lease ends by itself. */
module Leases {
  import opened Wrappers

  // randomUUID: a token is used once.
  type Token = nat

  datatype Lease = Lease(token: Token, expireAt: int)

  // Redis drops a key once the clock has passed its expiry.
  predicate Live(lease: Option<Lease>, now: int) {
    lease.Some? && now <= lease.value.expireAt
  }

  // The lock after an attempt to take it; it is granted exactly when nobody live holds it.
  function SetNx(lease: Option<Lease>, token: Token, ttlMs: int, now: int): Option<Lease> {
    if Live(lease, now) then lease else Some(Lease(token, now + ttlMs))
  }

  // RELEASE_LOCK_LUA
  function CompareAndDelete(lease: Option<Lease>, token: Token, now: int): Option<Lease> {
    if Live(lease, now) && lease.value.token == token then None else lease
  }

  // A release can end no lease but its own.
  lemma ReleaseSparesOthers(lease: Option<Lease>, token: Token, now: int)
    ensures lease.Some? && lease.value.token != token ==> CompareAndDelete(lease, token, now) == lease
    ensures Live(lease, now) && lease.value.token == token ==> CompareAndDelete(lease, token, now) == None
  {
  }
}
