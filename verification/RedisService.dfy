/**
 The Redis service: the lock commands and the token bucket script as they run inside Redis, over its
 keys. At every await the next burst of the schedule (other clients of the locks, and time) runs.
 */
module RedisServices {
  import opened Arithmetic
  import opened Leases
  import opened TokenBucket
  import opened Wrappers

  type Key = string

  // What other clients do to the locks.
  datatype Step =
    | SetLock(key: Key, token: Token, ttlMs: nat)
    | DeleteLock(key: Key, token: Token)
    | Tick(ms: nat)

  datatype Outcome<T> = Busy | Threw | Returned(value: T)

  function Find<V>(m: map<Key, V>, key: Key): Option<V> {
    if key in m then Some(m[key]) else None
  }

  function Put<V>(m: map<Key, V>, key: Key, v: Option<V>): (r: map<Key, V>)
    ensures Find(r, key) == v
    ensures forall k :: k != key ==> Find(r, k) == Find(m, k)
  {
    if v.Some? then m[key := v.value] else m - {key}
  }

  class RedisService {
    const limits: Key -> Config
    var now: int
    var locks: map<Key, Lease>
    var buckets: map<Key, Bucket>
    var schedule: seq<seq<Step>>
    // Every call a bucket has had, from any replica.
    ghost var calls: map<Key, seq<Call>>

    constructor (limits: Key -> Config, schedule: seq<seq<Step>>)
      requires forall key :: limits(key).refill != 0.0
      ensures Valid() && this.limits == limits && this.schedule == schedule
      ensures now == 0 && locks == map[] && calls == map[]
    {
      this.limits, this.schedule := limits, schedule;
      now, locks, buckets, calls := 0, map[], map[], map[];
    }

    // What is stored in a bucket is what its calls leave behind.
    ghost predicate Valid()
      reads this`buckets, this`calls
    {
      && (forall key :: limits(key).refill != 0.0)
      && (forall key {:trigger BucketOk(key)} :: BucketOk(key))
    }

    ghost function CallsOf(key: Key): seq<Call>
      reads this`calls
    {
      if key in calls then calls[key] else []
    }

    ghost predicate BucketOk(key: Key)
      requires limits(key).refill != 0.0
      reads this`buckets, this`calls
    {
      Find(buckets, key) == After(limits(key), None, CallsOf(key))
    }

    // ---------- Locks ----------

    method SetPxNx(key: Key, token: Token, ttlMs: nat) returns (ok: bool)
      modifies this`locks
      ensures ok <==> key !in old(locks) || now > old(locks)[key].expireAt
      ensures !ok ==> locks == old(locks)
      ensures Find(locks, key) == SetNx(Find(old(locks), key), token, ttlMs, now)
      ensures forall k :: k != key ==> Find(locks, k) == Find(old(locks), k)
    {
      ok := key !in locks || now > locks[key].expireAt;
      if ok { locks := locks[key := Lease(token, now + ttlMs)]; }
    }

    // RELEASE_LOCK_LUA
    method EvalReleaseLock(key: Key, token: Token) returns (deleted: nat)
      modifies this`locks
      ensures Find(locks, key) == CompareAndDelete(Find(old(locks), key), token, now)
      ensures deleted == if Live(Find(old(locks), key), now) && old(locks)[key].token == token then 1 else 0
      ensures forall k :: k != key ==> Find(locks, k) == Find(old(locks), k)
    {
      deleted := 0;
      if key in locks && now <= locks[key].expireAt && locks[key].token == token {
        locks := locks - {key};
        deleted := 1;
      }
    }

    // None: somebody else holds the lock.
    method AcquireLock(key: Key, token: Token, ttlMs: nat) returns (held: Option<Token>)
      modifies this`locks
      ensures held == if key in old(locks) && now <= old(locks)[key].expireAt then None else Some(token)
      ensures held.None? ==> locks == old(locks)
      ensures Find(locks, key) == SetNx(Find(old(locks), key), token, ttlMs, now)
      ensures forall k :: k != key ==> Find(locks, k) == Find(old(locks), k)
    {
      var ok := SetPxNx(key, token, ttlMs);
      held := if ok then Some(token) else None;
    }

    // An error is swallowed: the lease then ends by itself.
    method ReleaseLock(key: Key, token: Token, reachable: bool)
      modifies this`locks
      ensures Find(locks, key) ==
        if reachable then CompareAndDelete(Find(old(locks), key), token, now) else Find(old(locks), key)
      ensures forall k :: k != key ==> Find(locks, k) == Find(old(locks), k)
    {
      if reachable {
        var _ := EvalReleaseLock(key, token);
      }
    }

    ghost predicate NotMine(token: Token)
      reads this
    {
      forall env, st :: env in schedule && st in env ==> !Uses(st, token)
    }

    method Interleave(st: Step)
      requires Valid()
      modifies this`now, this`locks
      ensures Valid() && now >= old(now)
      ensures forall key, lease {:trigger Find(locks, key), Some(lease)} ::
        Find(old(locks), key) == Some(lease) && !Uses(st, lease.token) && now <= lease.expireAt ==>
          Find(locks, key) == Some(lease)
    {
      match st
      case SetLock(key, token, ttlMs) =>
        var _ := SetPxNx(key, token, ttlMs);
      case DeleteLock(key, token) =>
        var _ := EvalReleaseLock(key, token);
      case Tick(ms) =>
        now := now + ms;
    }

    // An await of the client whose token this is. Its lease stands until it runs out.
    method Yield(key: Key, lease: Lease)
      requires Valid() && NotMine(lease.token) && Find(locks, key) == Some(lease)
      modifies this`now, this`locks, this`schedule
      ensures Valid() && NotMine(lease.token) && now >= old(now)
      ensures now <= lease.expireAt ==> Find(locks, key) == Some(lease)
    {
      if schedule == [] { return; }
      var env := schedule[0];
      var i := 0;
      while i < |env|
        invariant 0 <= i <= |env| && Valid() && schedule == old(schedule) && now >= old(now)
        invariant now <= lease.expireAt ==> Find(locks, key) == Some(lease)
      {
        assert env in schedule && env[i] in env;
        Interleave(env[i]);
        i := i + 1;
      }
      schedule := schedule[1..];
    }

    // Runs fn (None: it throws) only if the lock could be taken. `before` is the lock as fn left it:
    // still this client's if the lease has not run out, and the release ends no lease but that one.
    method WithLock<T>(key: Key, token: Token, ttlMs: nat, fn: Option<T>, reachable: bool)
      returns (outcome: Outcome<T>, ghost before: Option<Lease>)
      requires Valid() && NotMine(token)
      modifies this`now, this`locks, this`schedule
      ensures Valid() && now >= old(now)
      ensures outcome.Busy? <==> Live(Find(old(locks), key), old(now))
      ensures outcome.Busy? ==> before == Find(old(locks), key) && locks == old(locks)
      ensures !outcome.Busy? ==> outcome == if fn.Some? then Returned(fn.value) else Threw
      ensures !outcome.Busy? && now <= old(now) + ttlMs ==> before == Some(Lease(token, old(now) + ttlMs))
      ensures !outcome.Busy? ==>
        Find(locks, key) == if reachable then CompareAndDelete(before, token, now) else before
    {
      ghost var start := now;
      var held := AcquireLock(key, token, ttlMs);
      before := Find(locks, key);
      if held.None? { return Busy, before; }
      Yield(key, Lease(token, now + ttlMs));
      before := Find(locks, key);
      ReleaseLock(key, held.value, reachable);
      outcome := if fn.Some? then Returned(fn.value) else Threw;
    }

    // ---------- The token bucket ----------

    // TOKEN_BUCKET_LUA at the caller's clock, which Redis takes as it comes. A key past its expiry may be
    // gone already (`evicted`) or not yet.
    method EvalTokenBucket(key: Key, clock: int, cost: real, evicted: bool) returns (d: Decision)
      requires limits(key).refill != 0.0
      modifies this`buckets
      ensures var call := Call(clock, cost, evicted);
        && d == Decide(limits(key), Find(old(buckets), key), call)
        && buckets == old(buckets)[key := Left(limits(key), Find(old(buckets), key), call)]
    {
      var cfg := limits(key);
      var tokens, ts := cfg.capacity, clock;
      if key in buckets && !(evicted && clock >= buckets[key].expireAt) {
        tokens, ts := buckets[key].tokens, buckets[key].ts;
      }

      var elapsed := Max(0, clock - ts) as real / 1000.0;
      tokens := MinReal(cfg.capacity, tokens + elapsed * cfg.refill);
      ghost var seen, level := Visible(Find(buckets, key), Call(clock, cost, evicted)), tokens;
      assert level == Level(cfg, seen, clock);

      var allowed := tokens >= cost;
      if allowed { tokens := tokens - cost; }

      buckets := buckets[key := Bucket(tokens, clock, clock + Ceil(cfg.capacity / cfg.refill * 1000.0) + 1000)];

      var retryAfterMs := 0;
      if !allowed { retryAfterMs := Ceil((cost - tokens) / cfg.refill * 1000.0); }
      d := Decision(allowed, tokens.Floor, retryAfterMs);
      ScriptMeetsSpec(cfg, seen, level, clock, cost);
    }

    method ConsumeToken(key: Key, clock: int, cost: real, evicted: bool) returns (d: Decision)
      requires Valid()
      modifies this`buckets, this`calls
      ensures Valid() && CallsOf(key) == old(CallsOf(key)) + [Call(clock, cost, evicted)]
      ensures forall k :: k != key ==> Find(buckets, k) == Find(old(buckets), k) && CallsOf(k) == old(CallsOf(k))
      ensures d == Decide(limits(key), Find(old(buckets), key), Call(clock, cost, evicted))
    {
      hide After;
      hide Consume;
      hide Decide;
      hide Visible;
      hide Left;
      assert BucketOk(key);
      ghost var before, call := CallsOf(key), Call(clock, cost, evicted);
      d := EvalTokenBucket(key, clock, cost, evicted);
      calls := calls[key := before + [call]];
      LeftIsAfter(limits(key), before, call);
      assert BucketOk(key);
      forall k {:trigger BucketOk(k)} ensures BucketOk(k) {
        if k != key { assert old(BucketOk(k)); }
      }
    }

    // So the stored tokens of every key obey the limits proved for sequences of calls.
    lemma TokensWithinLimit(key: Key)
      requires Valid() && key in buckets && Sane(limits(key))
      requires forall call :: call in CallsOf(key) ==> call.cost >= 0.0
      ensures 0.0 <= buckets[key].tokens <= limits(key).capacity
    {
      assert BucketOk(key);
      if CallsOf(key) != [] { TokensInRange(limits(key), CallsOf(key)); }
    }
  }

  // What a call leaves in the bucket.
  function Left(cfg: Config, bucket: Option<Bucket>, call: Call): Bucket
    requires cfg.refill != 0.0
  {
    Consume(cfg, Visible(bucket, call), call.now, call.cost).0
  }

  lemma LeftIsAfter(cfg: Config, before: seq<Call>, call: Call)
    requires cfg.refill != 0.0
    ensures After(cfg, None, before + [call]) == Some(Left(cfg, After(cfg, None, before), call))
  {
    OneMoreCall(cfg, None, before, call);
  }

  // The script's arithmetic, branch by branch.
  lemma ScriptMeetsSpec(cfg: Config, seen: Option<Bucket>, level: real, clock: int, cost: real)
    requires cfg.refill != 0.0 && level == Level(cfg, seen, clock)
    ensures var expireAt := clock + Ceil(cfg.capacity / cfg.refill * 1000.0) + 1000;
      var (bucket, d) := Consume(cfg, seen, clock, cost);
      if level >= cost then
        bucket == Bucket(level - cost, clock, expireAt) && d == Decision(true, (level - cost).Floor, 0)
      else
        && bucket == Bucket(level, clock, expireAt)
        && d == Decision(false, level.Floor, Ceil((cost - level) / cfg.refill * 1000.0))
  {
  }

  predicate Uses(st: Step, token: Token) {
    !st.Tick? && st.token == token
  }
}
