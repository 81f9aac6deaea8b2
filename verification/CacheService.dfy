/**
 The cache service's own control flow over the cached key, its lock and the database. At every await
 the next burst of the schedule (other requests, refreshes, writes, time) runs; what a method does
 itself is proved to be one request's steps of module Cache.
 */
module CacheServices {
  import opened Arithmetic
  import opened Cache
  import opened CacheAge
  import opened Leases
  import opened Wrappers

  const POLL_MS := 20
  const MAX_WAIT_MS := 2000

  // How the outside world answers one request: each cache read, the load, the jitter draw, the
  // cache write and the release.
  datatype Weather = Weather(readable: nat -> bool, load: bool, random: real, write: bool, release: bool)

  // A step of request r, or one that would start it.
  predicate Touches<V>(st: Step<V>, r: RequestId) {
    Mover(st) == Some(r) || (st.Decide? && st.refresher == r)
  }

  // What a cache read after these steps gives.
  ghost predicate ReadAfter<V>(cfg: Config, first: V, steps: seq<Step<V>>, ok: bool, found: Option<Entry<V>>) {
    found == ReadEntry(Run(Init(cfg, first), steps), ok)
  }

  ghost predicate LeasedAfter<V>(cfg: Config, first: V, steps: seq<Step<V>>) {
    var w := Run(Init(cfg, first), steps);
    w.lease.Some? && w.now <= w.lease.value.expireAt
  }

  // After these steps the cache holds what was read from the database no earlier than `since`, stored
  // just now, for the drawn freshness and the stale time after it.
  ghost predicate StoredAfter<V>(cfg: Config, first: V, steps: seq<Step<V>>, since: int, random: real, v: V) {
    var w := Run(Init(cfg, first), steps);
    && w.entry.Some? && w.entry.value.from.v == v && w.entry.value.from.readAt >= since && w.entry.value.setAt == w.now
    && w.entry.value.expireAt == w.now + LifeSeconds(cfg, random) * 1000
  }

  // How long Redis keeps an entry with this draw; SET refuses a lifetime that is not positive.
  function LifeSeconds(cfg: Config, random: real): int {
    TtlWithJitter(cfg.ttlSeconds, cfg.jitterSeconds, random) + cfg.staleSeconds
  }

  // None of the cache reads at these points of the run gave anything.
  ghost predicate Missed<V>(cfg: Config, first: V, steps: seq<Step<V>>, weather: Weather, polls: seq<nat>) {
    forall i :: 0 <= i < |polls| ==>
      polls[i] <= |steps| && ReadAfter(cfg, first, steps[..polls[i]], weather.readable(i + 1), None)
  }

  lemma MissedAgain<V>(cfg: Config, first: V, steps: seq<Step<V>>, longer: seq<Step<V>>, weather: Weather,
                       polls: seq<nat>)
    requires Missed(cfg, first, steps, weather, polls) && steps <= longer
    requires ReadAfter(cfg, first, longer, weather.readable(|polls| + 1), None)
    ensures Missed(cfg, first, longer, weather, polls + [|longer|])
  {
    assert longer[..|longer|] == longer;
    forall i | 0 <= i < |polls|
      ensures ReadAfter(cfg, first, longer[..polls[i]], weather.readable(i + 1), None)
    {
      assert longer[..polls[i]] == steps[..polls[i]];
    }
  }

  class CacheService<V> {
    const cfg: Config
    const first: V
    var now: int
    var db: seq<(V, int)>
    var entry: Option<Entry<V>>
    var lease: Option<Lease>
    var requests: map<RequestId, Request<V>>
    var answers: seq<Answer<V>>
    var schedule: seq<seq<Step<V>>>
    ghost var trace: seq<Step<V>>

    constructor (cfg: Config, first: V, schedule: seq<seq<Step<V>>>)
      ensures Valid() && trace == [] && World() == Init(cfg, first)
      ensures this.cfg == cfg && this.first == first && this.schedule == schedule
    {
      this.cfg, this.first, this.schedule := cfg, first, schedule;
      now, db, entry, lease, requests, answers, trace := 0, [(first, 0)], None, None, map[], [], [];
    }

    function World(): World<V>
      reads this
    {
      Cache.World(cfg, now, db, entry, lease, requests, answers)
    }

    ghost predicate Valid()
      reads this
    {
      World() == Run(Init(cfg, first), trace)
    }

    ghost predicate NotMine(r: RequestId)
      reads this
    {
      forall env, st :: env in schedule && st in env ==> !Touches(st, r)
    }

    // Request r is where its caller believes it is.
    ghost predicate At(r: RequestId, q: Request<V>)
      reads this
    {
      Valid() && NotMine(r) && r in requests && requests[r] == q
    }

    // r has not been heard of.
    ghost predicate Unused(r: RequestId)
      reads this
    {
      NotMine(r) && r !in requests
    }

    // Some cache read since the n-th step of the run gave this.
    ghost predicate FoundSince(n: nat, ok: bool, found: Option<Entry<V>>)
      reads this
    {
      exists k :: n <= k <= |trace| && ReadAfter(cfg, first, trace[..k], ok, found)
    }

    // Since the n-th step r has not asked the database.
    ghost predicate NotQueried(r: RequestId, n: nat)
      reads this
    {
      forall i :: n <= i < |trace| ==> trace[i] != Query(r)
    }

    // Request r has stored v since the n-th step, read from the database no earlier than `since`.
    ghost predicate StoredSince(n: nat, since: int, random: real, v: V)
      reads this
    {
      exists k :: n <= k <= |trace| && StoredAfter(cfg, first, trace[..k], since, random, v)
    }

    // Somebody's lease on the lock was live at some point since the n-th step.
    ghost predicate LeasedSince(n: nat)
      reads this
    {
      exists k :: n <= k <= |trace| && LeasedAfter(cfg, first, trace[..k])
    }

    ghost method Record(st: Step<V>)
      requires World() == Apply(Run(Init(cfg, first), trace), st)
      modifies this`trace
      ensures Valid() && trace == old(trace) + [st]
    {
      RunSnoc(Init(cfg, first), trace, st);
      trace := trace + [st];
    }

    method Interleave(st: Step<V>)
      requires Valid()
      modifies this`now, this`db, this`entry, this`lease, this`requests, this`answers, this`trace
      ensures Valid() && trace == old(trace) + [st] && World() == Apply(old(World()), st)
    {
      hide Run;
      hide Apply;
      var w := Apply(World(), st);
      Outer(World(), st);
      now, db, entry, lease, requests, answers := w.now, w.db, w.entry, w.lease, w.requests, w.answers;
      Record(st);
    }

    // An await. A spare id stays unused.
    method Yield(r: RequestId, ghost q: Request<V>, ghost spare: RequestId)
      requires At(r, q)
      modifies this
      ensures At(r, q) && now >= old(now) && old(trace) <= trace && NotQueried(r, |old(trace)|)
      ensures old(Unused(spare)) ==> Unused(spare)
      ensures old(schedule) == [] ==> schedule == [] && World() == old(World()) && trace == old(trace)
    {
      hide Run;
      hide Apply;
      if schedule == [] { return; }
      var env := schedule[0];
      var i := 0;
      while i < |env|
        invariant 0 <= i <= |env| && schedule == old(schedule)
        invariant At(r, q) && now >= old(now) && old(trace) <= trace && NotQueried(r, |old(trace)|)
        invariant old(Unused(spare)) ==> Unused(spare)
      {
        assert env in schedule && env[i] in env;
        OthersStand(World(), env[i], r);
        Outer(World(), env[i]);
        if Unused(spare) { StaysUnused(World(), env[i], spare); }
        Interleave(env[i]);
        i := i + 1;
      }
      schedule := schedule[1..];
    }

    // setTimeout: at least `ms` later.
    method Sleep(r: RequestId, ghost q: Request<V>, ms: nat)
      requires At(r, q)
      modifies this
      ensures At(r, q) && now >= old(now) + ms && old(trace) <= trace
      ensures old(schedule) == [] ==> schedule == [] && World() == old(World()).(now := old(now) + ms)
    {
      hide Run;
      var wake := now + ms;
      Yield(r, q, r);
      if now < wake {
        Interleave(Tick(wake - now));
      }
    }

    // GET; a failed read is a miss.
    method Read(ok: bool) returns (found: Option<Entry<V>>)
      ensures found == ReadEntry(World(), ok)
      ensures found.Some? <==> ok && entry.Some? && now <= entry.value.expireAt
    {
      if !ok { return None; }
      if entry.Some? && now > entry.value.expireAt { return None; }
      found := entry;
    }

    // Runs the loader: one read of the database, which may fail.
    method Load(r: RequestId, ghost background: bool, mode: Mode, begunAt: int, weather: Weather)
      returns (got: Option<Loaded<V>>)
      requires At(r, Request(background, Querying(mode, begunAt))) && 0.0 <= weather.random < 1.0
      modifies this
      ensures old(trace) <= trace && now >= old(now) && (got.Some? <==> weather.load)
      ensures got.Some? ==> At(r, Request(background, Queried(mode, got.value))) && got.value.begunAt == begunAt
      ensures got.Some? ==> old(now) <= got.value.readAt <= now
      ensures got.None? ==>
        At(r, Request(background, if mode.Leased? then Releasing(mode.until, None) else Done))
    {
      hide Run;
      ghost var q := requests[r];
      Yield(r, q, r);
      if !weather.load {
        requests := requests[r := requests[r].(phase := if mode.Leased? then Releasing(mode.until, None) else Done)];
        Record(Return(r, false, weather.random));
        return None;
      }
      AgeRun(cfg, first, trace);
      var l := Loaded(db[|db| - 1].0, now, begunAt);
      requests := requests[r := requests[r].(phase := Queried(mode, l))];
      Record(Query(r));
      Yield(r, requests[r], r);
      got := Some(l);
    }

    // Hands the loaded value to the caller; a refresh has no caller.
    method HandOver(r: RequestId, got: Loaded<V>, random: real)
      requires r in requests && requests[r].phase.Queried? && requests[r].phase.got == got
      requires requests[r].phase.mode.Direct? || requests[r].phase.mode.Fallback?
      requires At(r, requests[r]) && 0.0 <= random < 1.0 && !requests[r].background
      modifies this`requests, this`answers, this`trace
      ensures At(r, Request(false, Done)) && old(trace) <= trace
      ensures answers == old(answers) + [FromLoad(old(World()), got)]
    {
      hide Run;
      answers := answers + [FromLoad(World(), got)];
      requests := requests[r := requests[r].(phase := Done)];
      Record(Return(r, true, random));
    }

    // SET key envelope EX ttl; a failed or refused write is swallowed.
    method Write(r: RequestId, ghost background: bool, mode: Mode, got: Loaded<V>, weather: Weather)
      requires At(r, Request(background, Queried(mode, got))) && (mode.Plain? || mode.Leased?)
      requires 0.0 <= weather.random < 1.0 && (background ==> mode.Leased?)
      modifies this
      ensures old(trace) <= trace && now >= old(now)
      ensures At(r, Request(background, if mode.Leased? then Releasing(mode.until, Some(got)) else Done))
      ensures mode.Plain? ==> Answered(got.v)
      ensures weather.write && LifeSeconds(cfg, weather.random) > 0 ==>
        var freshUntil := old(now) + TtlWithJitter(cfg.ttlSeconds, cfg.jitterSeconds, weather.random) * 1000;
        entry == Some(Entry(got, freshUntil, now + LifeSeconds(cfg, weather.random) * 1000, now))
    {
      hide Run;
      var freshSeconds := TtlWithJitter(cfg.ttlSeconds, cfg.jitterSeconds, weather.random);
      var freshUntil := now + freshSeconds * 1000;
      requests := requests[r := requests[r].(phase := Storing(mode, got, freshSeconds, freshUntil))];
      Record(Return(r, true, weather.random));
      Yield(r, requests[r], r);
      Put(r, background, mode, got, freshSeconds, freshUntil, weather.write);
    }

    method Put(r: RequestId, ghost background: bool, mode: Mode, got: Loaded<V>, freshSeconds: int, freshUntil: int,
               ok: bool)
      requires At(r, Request(background, Storing(mode, got, freshSeconds, freshUntil)))
      requires background ==> mode.Leased?
      modifies this`entry, this`requests, this`answers, this`trace
      ensures old(trace) <= trace
      ensures entry == if ok && freshSeconds + cfg.staleSeconds > 0
                       then Some(Entry(got, freshUntil, now + (freshSeconds + cfg.staleSeconds) * 1000, now))
                       else old(entry)
      ensures At(r, Request(background, if mode.Leased? then Releasing(mode.until, Some(got)) else Done))
      ensures !mode.Leased? ==> Answered(got.v)
    {
      hide Run;
      var redisTtl := freshSeconds + cfg.staleSeconds;
      if ok && redisTtl > 0 {
        entry := Some(Entry(got, freshUntil, now + redisTtl * 1000, now));
      }
      if mode.Leased? {
        requests := requests[r := requests[r].(phase := Releasing(mode.until, Some(got)))];
      } else {
        requests := requests[r := requests[r].(phase := Done)];
        answers := answers + [FromLoad(World(), got)];
      }
      assert World() == StoreStep(old(World()), r, ok);
      Record(Store(r, ok));
    }

    // The last answer handed out is v, just now.
    ghost predicate Answered(v: V)
      reads this
    {
      answers != [] && answers[|answers| - 1].v == v && answers[|answers| - 1].at == now
    }

    // SET lock token PX ttl NX. None means the lock is taken; a lifetime Redis refuses throws.
    method AcquireLock(r: RequestId, ghost background: bool) returns (until: Option<int>, threw: bool)
      requires At(r, Request(background, Acquiring))
      modifies this`lease, this`requests, this`trace
      ensures old(trace) <= trace && (threw <==> cfg.lockTtlMs <= 0)
      ensures threw ==> At(r, Request(background, Done))
      ensures until.Some? <==> !threw && (old(lease).None? || now > old(lease).value.expireAt)
      ensures until.Some? ==>
        At(r, Request(background, Querying(Leased(until.value), now))) && lease == Some(Lease(r, now + cfg.lockTtlMs))
      ensures !threw && until.None? ==> lease == old(lease)
      ensures !threw && until.None? ==>
        At(r, Request(background, if background then Done else Waiting(now + Min(cfg.lockTtlMs, MAX_WAIT_MS))))
    {
      hide Run;
      threw := cfg.lockTtlMs <= 0;
      until := None;
      var p := Done;
      if !threw {
        if Live(lease, now) {
          if !requests[r].background { p := Waiting(now + Min(cfg.lockTtlMs, MAX_WAIT_MS)); }
        } else {
          until := Some(now + cfg.lockTtlMs);
          lease := Some(Lease(r, now + cfg.lockTtlMs));
          p := Querying(Leased(now + cfg.lockTtlMs), now);
        }
      }
      requests := requests[r := requests[r].(phase := p)];
      Record(Acquire(r));
    }

    // Compare-and-delete, in the finally block: it runs whether the load came through or not.
    method ReleaseLock(r: RequestId, ghost background: bool, until: int, result: Option<Loaded<V>>, ok: bool)
      requires At(r, Request(background, Releasing(until, result)))
      modifies this`lease, this`requests, this`answers, this`trace
      ensures At(r, Request(background, Done)) && old(trace) <= trace
      ensures lease == if ok then CompareAndDelete(old(lease), r, now) else old(lease)
      ensures result.Some? && !background ==> Answered(result.value.v)
    {
      hide Run;
      hide Apply;
      ReleaseApplied(World(), r, ok);
      if ok && lease.Some? && lease.value.token == r && now <= lease.value.expireAt { lease := None; }
      if result.Some? && !requests[r].background { answers := answers + [FromLoad(World(), result.value)]; }
      requests := requests[r := requests[r].(phase := Done)];
      Record(Release(r, ok));
    }

    // The lock's winner loads, stores and releases.
    method LoadUnderLock(r: RequestId, ghost background: bool, until: int, begunAt: int, weather: Weather)
      returns (result: Option<V>)
      requires At(r, Request(background, Querying(Leased(until), begunAt))) && 0.0 <= weather.random < 1.0
      modifies this
      ensures At(r, Request(background, Done)) && old(trace) <= trace && now >= old(now)
      ensures result.Some? <==> weather.load
      ensures result.Some? && !background ==> Answered(result.value)
      ensures weather.release ==> !(Live(lease, now) && lease.value.token == r)
      ensures result.Some? && weather.write && LifeSeconds(cfg, weather.random) > 0 ==>
        StoredSince(|old(trace)|, old(now), weather.random, result.value)
    {
      hide Run;
      hide Apply;
      var got := Load(r, background, Leased(until), begunAt, weather);
      if got.Some? {
        Write(r, background, Leased(until), got.value, weather);
        assert trace[..|trace|] == trace;
        assert weather.write && LifeSeconds(cfg, weather.random) > 0 ==>
          StoredAfter(cfg, first, trace[..|trace|], old(now), weather.random, got.value.v);
      }
      label Written:
      Yield(r, requests[r], r);
      ReleaseLock(r, background, until, got, weather.release);
      result := if got.Some? then Some(got.value.v) else None;
      assert trace[..old@Written(|trace|)] == old@Written(trace);
    }

    // Losers poll for the winner's write until the deadline, then load for themselves.
    method SingleFlight(r: RequestId, weather: Weather) returns (result: Option<V>)
      requires At(r, Request(false, Acquiring)) && 0.0 <= weather.random < 1.0
      modifies this
      ensures At(r, Request(false, Done)) && old(trace) <= trace && now >= old(now)
      ensures result.Some? ==> Answered(result.value)
      ensures result.None? ==> !weather.load || cfg.lockTtlMs <= 0
    {
      hide Run;
      hide Apply;
      Yield(r, Request(false, Acquiring), r);
      var until, threw := AcquireLock(r, false);
      if threw { return None; }
      if until.Some? {
        result := LoadUnderLock(r, false, until.value, now, weather);
        return;
      }
      var deadline := now + Min(cfg.lockTtlMs, MAX_WAIT_MS);
      ghost var polls;
      result, polls := AwaitWinner(r, deadline, weather);
      if result.Some? { return; }
      result := LoadAnyway(r, deadline, weather);
    }

    // The winner died or is slow.
    method LoadAnyway(r: RequestId, deadline: int, weather: Weather) returns (result: Option<V>)
      requires At(r, Request(false, Waiting(deadline))) && now >= deadline && 0.0 <= weather.random < 1.0
      modifies this
      ensures At(r, Request(false, Done)) && old(trace) <= trace && now >= old(now) && (result.Some? <==> weather.load)
      ensures result.Some? ==> Answered(result.value)
    {
      hide Run;
      var begunAt := now;
      requests := requests[r := requests[r].(phase := Querying(Fallback(deadline), begunAt))];
      Record(GiveUp(r));
      var got := Load(r, false, Fallback(deadline), begunAt, weather);
      if got.None? { return None; }
      HandOver(r, got.value, weather.random);
      result := Some(got.value.v);
    }

    // `polls` are the points of the run at which the cache was read.
    method AwaitWinner(r: RequestId, deadline: int, weather: Weather) returns (result: Option<V>, ghost polls: seq<nat>)
      requires At(r, Request(false, Waiting(deadline)))
      modifies this
      ensures old(trace) <= trace && now >= old(now)
      ensures result.Some? ==> At(r, Request(false, Done)) && Answered(result.value)
      ensures result.None? ==> At(r, Request(false, Waiting(deadline))) && now >= deadline
      ensures result.None? ==> Missed(cfg, first, trace, weather, polls) && (old(now) < deadline ==> polls != [])
      ensures old(schedule) == [] && old(now) < deadline ==>
        var found := ReadEntry(old(World()).(now := old(now) + POLL_MS), weather.readable(1));
        found.Some? ==> result == Some(found.value.from.v)
    {
      hide Run;
      hide Apply;
      hide ReadAfter;
      hide ReadEntry;
      var poll := 1;
      polls := [];
      result := None;
      while now < deadline
        invariant At(r, Request(false, Waiting(deadline))) && old(trace) <= trace && now >= old(now)
        invariant result.None? && poll == |polls| + 1 && Missed(cfg, first, trace, weather, polls)
        invariant polls == [] ==> now == old(now) && World() == old(World()) && schedule == old(schedule)
        invariant polls != [] && old(schedule) == [] && old(now) < deadline ==>
          ReadEntry(old(World()).(now := old(now) + POLL_MS), weather.readable(1)).None?
        decreases deadline - now
      {
        ghost var before := trace;
        result := Poll(r, deadline, weather.readable(poll));
        if result.Some? { return; }
        MissedAgain(cfg, first, before, trace, weather, polls);
        polls := polls + [|trace|];
        poll := poll + 1;
      }
    }

    method Poll(r: RequestId, deadline: int, ok: bool) returns (result: Option<V>)
      requires At(r, Request(false, Waiting(deadline)))
      modifies this
      ensures old(trace) <= trace && now >= old(now) + POLL_MS
      ensures result.Some? ==> At(r, Request(false, Done)) && Answered(result.value)
      ensures result.None? ==> At(r, Request(false, Waiting(deadline))) && ReadAfter(cfg, first, trace, ok, None)
      ensures old(schedule) == [] ==>
        var found := ReadEntry(old(World()).(now := old(now) + POLL_MS), ok);
        if found.Some? then result == Some(found.value.from.v) else result.None?
    {
      hide Run;
      ghost var q := Request<V>.Request(false, Waiting(deadline));
      Sleep(r, q, POLL_MS);
      Yield(r, q, r);
      var found := Read(ok);
      if found.None? { return None; }
      answers := answers + [FromEntry(World(), found.value, now, Waited)];
      requests := requests[r := requests[r].(phase := Done)];
      Record(PollRead(r, ok));
      result := Some(found.value.from.v);
    }

    // Only if the lock is free; errors are logged and dropped. `took` says whether it was; a refresh
    // that took the lock stores what it loads and gives the lock back, whether its load came through or
    // not. It gives up without one only if somebody else holds the lock, or Redis refuses its lifetime.
    method RefreshInBackground(r: RequestId, weather: Weather) returns (took: bool, loaded: Option<V>)
      requires At(r, Request(true, Acquiring)) && 0.0 <= weather.random < 1.0
      modifies this
      ensures At(r, Request(true, Done)) && old(trace) <= trace
      ensures took ==> cfg.lockTtlMs > 0
      ensures !took ==> cfg.lockTtlMs <= 0 || LeasedSince(|old(trace)|)
      ensures loaded.Some? <==> took && weather.load
      ensures loaded.Some? && weather.write && LifeSeconds(cfg, weather.random) > 0 ==>
        StoredSince(|old(trace)|, old(now), weather.random, loaded.value)
      ensures took && weather.release ==> !(Live(lease, now) && lease.value.token == r)
    {
      hide Run;
      hide Apply;
      Yield(r, Request(true, Acquiring), r);
      label Tried:
      assert trace[..|trace|] == trace;
      assert Live(lease, now) ==> LeasedAfter(cfg, first, trace[..|trace|]);
      var until, threw := AcquireLock(r, true);
      took, loaded := until.Some?, None;
      if took {
        loaded := LoadUnderLock(r, true, until.value, now, weather);
      } else {
        assert trace[..old@Tried(|trace|)] == old@Tried(trace);
      }
    }

    // Cache disabled, or protection off: load without a lock; only the latter stores.
    method LoadUnlocked(r: RequestId, mode: Mode, begunAt: int, weather: Weather) returns (result: Option<V>)
      requires At(r, Request(false, Querying(mode, begunAt))) && (mode.Direct? || mode.Plain?)
      requires 0.0 <= weather.random < 1.0
      modifies this
      ensures At(r, Request(false, Done)) && old(trace) <= trace && now >= old(now) && (result.Some? <==> weather.load)
      ensures result.Some? ==> Answered(result.value)
    {
      hide Run;
      hide Apply;
      var got := Load(r, false, mode, begunAt, weather);
      if got.None? { return None; }
      if mode.Plain? { Write(r, false, mode, got.value, weather); } else { HandOver(r, got.value, weather.random); }
      result := Some(got.value.v);
    }

    // A fresh entry is served; under protection a stale one is served too, and refreshed behind the
    // caller's back; otherwise the caller loads.
    method Serve(r: RequestId, refresher: RequestId, found: Option<Entry<V>>, lookedAt: int, weather: Weather)
      returns (result: Option<V>, refresh: bool)
      requires At(r, Request(false, Looked(found, lookedAt))) && Unused(refresher) && r != refresher
      requires 0.0 <= weather.random < 1.0
      modifies this
      ensures At(r, Request(false, Done)) && old(trace) <= trace && now >= old(now)
      ensures result.Some? ==> Answered(result.value)
      ensures result.None? ==> !weather.load || (cfg.protection && cfg.lockTtlMs <= 0)
      ensures refresh <==> found.Some? && old(now) >= found.value.freshUntil && cfg.protection
      ensures refresh ==> At(refresher, Request(true, Acquiring)) && result == Some(found.value.from.v)
      ensures found.Some? && old(now) < found.value.freshUntil ==> result == Some(found.value.from.v)
      ensures found.Some? && (old(now) < found.value.freshUntil || cfg.protection) ==>
        trace == old(trace) + [Decide(r, refresher)]
    {
      hide Run;
      hide Apply;
      DecideApplied(World(), r, refresher);
      refresh := false;
      if found.Some? && now < found.value.freshUntil {
        answers := answers + [FromEntry(World(), found.value, lookedAt, Hit)];
        requests := requests[r := requests[r].(phase := Done)];
        Record(Decide(r, refresher));
        return Some(found.value.from.v), false;
      }
      if found.Some? && cfg.protection {
        answers := answers + [FromEntry(World(), found.value, lookedAt, Stale)];
        requests := requests[r := requests[r].(phase := Done)][refresher := Request(true, Acquiring)];
        Record(Decide(r, refresher));
        return Some(found.value.from.v), true;
      }
      var begunAt := now;
      requests := requests[r := requests[r].(phase := if cfg.protection then Acquiring else Querying(Plain, begunAt))];
      Record(Decide(r, refresher));
      if !cfg.protection {
        result := LoadUnlocked(r, Plain, begunAt, weather);
      } else {
        result := SingleFlight(r, weather);
      }
    }

    method Note(r: RequestId, found: Option<Entry<V>>, ok: bool)
      requires At(r, Request(false, Looking)) && cfg.enabled && found == ReadEntry(World(), ok)
      modifies this`requests, this`trace
      ensures At(r, Request(false, Looked(found, now))) && trace == old(trace) + [Look(r, ok)]
      ensures requests.Keys == old(requests).Keys
    {
      hide Run;
      requests := requests[r := requests[r].(phase := Looked(found, now))];
      Record(Look(r, ok));
    }

    // The cache is read, at `lookedAt`.
    method LookUp(r: RequestId, ghost refresher: RequestId, ok: bool) returns (found: Option<Entry<V>>, lookedAt: int)
      requires At(r, Request(false, Looking)) && Unused(refresher) && cfg.enabled
      modifies this
      ensures At(r, Request(false, Looked(found, lookedAt))) && Unused(refresher) && old(trace) <= trace
      ensures FoundSince(|old(trace)|, ok, found) && old(now) <= lookedAt <= now && NotQueried(r, |old(trace)|)
      ensures found.Some? ==> ok && lookedAt <= found.value.expireAt
      ensures old(schedule) == [] ==> found == ReadEntry(old(World()), ok) && now == old(now)
    {
      hide Run;
      hide Apply;
      Yield(r, requests[r], refresher);
      found := Read(ok);
      lookedAt := now;
      assert trace[..|trace|] == trace;
      assert ReadAfter(cfg, first, trace[..|trace|], ok, found);
      label Found:
      Note(r, found, ok);
      Yield(r, requests[r], refresher);
      assert trace[..old@Found(|trace|)] == old@Found(trace);
    }

    // None means the call threw: its own load failed, or Redis refused the lock's lifetime. With
    // `refresh`, a background refresh under `refresher` has been started. `found` is what the cache read
    // gave, and the answer was decided at `decidedAt`: an entry that is fresh then, or stale under
    // protection, is the answer, and the database is not asked.
    method GetOrLoad(r: RequestId, refresher: RequestId, weather: Weather)
      returns (result: Option<V>, refresh: bool, ghost found: Option<Entry<V>>, ghost decidedAt: int)
      requires Valid() && Unused(r) && Unused(refresher) && r != refresher && 0.0 <= weather.random < 1.0
      modifies this
      ensures At(r, Request(false, Done)) && old(trace) <= trace && old(now) <= decidedAt <= now
      ensures result.Some? ==> Answered(result.value)
      ensures result.None? ==> !weather.load || (cfg.enabled && cfg.protection && cfg.lockTtlMs <= 0)
      ensures refresh ==> At(refresher, Request(true, Acquiring)) && result.Some?
      ensures !cfg.enabled ==> found.None? && (result.Some? <==> weather.load)
      ensures cfg.enabled ==> FoundSince(|old(trace)|, weather.readable(0), found)
      ensures cfg.enabled && old(schedule) == [] ==>
        found == ReadEntry(old(World()), weather.readable(0)) && decidedAt == old(now)
      ensures found.Some? && (decidedAt < found.value.freshUntil || cfg.protection) ==>
        result == Some(found.value.from.v) && NotQueried(r, |old(trace)|)
      ensures refresh <==> found.Some? && decidedAt >= found.value.freshUntil && cfg.protection
    {
      hide Run;
      found, refresh := None, false;
      decidedAt := now;
      requests := requests[r := Request(false, Looking)];
      Record(Call(r));
      if !cfg.enabled {
        var begunAt := now;
        requests := requests[r := requests[r].(phase := Querying(Direct, begunAt))];
        Record(Look(r, false));
        result := LoadUnlocked(r, Direct, begunAt, weather);
        return;
      }
      result, refresh, found, decidedAt := LookAndServe(r, refresher, weather);
    }

    method LookAndServe(r: RequestId, refresher: RequestId, weather: Weather)
      returns (result: Option<V>, refresh: bool, ghost found: Option<Entry<V>>, ghost decidedAt: int)
      requires At(r, Request(false, Looking)) && Unused(refresher) && r != refresher && 0.0 <= weather.random < 1.0
      requires cfg.enabled
      modifies this
      ensures At(r, Request(false, Done)) && old(trace) <= trace && old(now) <= decidedAt <= now
      ensures result.Some? ==> Answered(result.value)
      ensures result.None? ==> !weather.load || (cfg.protection && cfg.lockTtlMs <= 0)
      ensures refresh ==> At(refresher, Request(true, Acquiring)) && result.Some?
      ensures FoundSince(|old(trace)|, weather.readable(0), found)
      ensures old(schedule) == [] ==> found == ReadEntry(old(World()), weather.readable(0)) && decidedAt == old(now)
      ensures found.Some? && (decidedAt < found.value.freshUntil || cfg.protection) ==>
        result == Some(found.value.from.v) && NotQueried(r, |old(trace)|)
      ensures refresh <==> found.Some? && decidedAt >= found.value.freshUntil && cfg.protection
    {
      hide Run;
      hide Apply;
      var entry, lookedAt := LookUp(r, refresher, weather.readable(0));
      found, decidedAt := entry, now;
      label Looked:
      result, refresh := Serve(r, refresher, entry, lookedAt, weather);
      assert forall k :: 0 <= k <= |old@Looked(trace)| ==> trace[..k] == old@Looked(trace)[..k];
    }

    // DEL; a failed one is swallowed.
    method Invalidate(ok: bool)
      requires Valid()
      modifies this`entry, this`trace
      ensures Valid() && old(trace) <= trace
      ensures entry == if ok then None else old(entry)
    {
      hide Run;
      if ok { entry := None; }
      Record(Step<V>.Invalidate(ok));
    }
  }

  lemma ReleaseApplied<V>(w: World<V>, r: RequestId, ok: bool)
    requires r in w.requests && w.requests[r].phase.Releasing?
    ensures Apply(w, Step<V>.Release(r, ok)) == ReleaseStep(w, r, ok)
  {
  }

  lemma DecideApplied<V>(w: World<V>, r: RequestId, refresher: RequestId)
    requires r in w.requests && w.requests[r].phase.Looked?
    ensures Apply(w, Step<V>.Decide(r, refresher)) == DecideStep(w, r, refresher)
  {
  }

  lemma StaysUnused<V>(w: World<V>, st: Step<V>, r: RequestId)
    requires r !in w.requests && !Touches(st, r)
    ensures r !in Apply(w, st).requests
  {
  }
}
