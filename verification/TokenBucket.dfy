/**
 The token bucket script over real numbers, one bucket. `now` is in milliseconds, refill is tokens
 per second. Redis runs the script atomically, so calls from any number of replicas are one
 sequence.
 */
module TokenBucket {
  import opened Arithmetic
  import opened Wrappers

  // The stored hash, and the instant its key expires.
  datatype Bucket = Bucket(tokens: real, ts: int, expireAt: int)

  datatype Decision = Decision(allowed: bool, remaining: int, retryAfterMs: int)

  datatype Config = Config(capacity: real, refill: real)

  predicate Sane(cfg: Config) {
    cfg.capacity >= 0.0 && cfg.refill > 0.0
  }

  function Ceil(x: real): int {
    -((-x).Floor)
  }

  lemma CeilBounds(x: real)
    ensures Ceil(x) as real - 1.0 < x <= Ceil(x) as real
    ensures x <= 0.0 ==> Ceil(x) <= 0
    ensures x > 0.0 ==> Ceil(x) >= 1
  {
    var y := (-x).Floor;
    assert y as real <= -x < y as real + 1.0;
  }

  function MinReal(a: real, b: real): real {
    if b < a then b else a
  }

  // Tokens that trickle in during `ms` milliseconds.
  function Gained(cfg: Config, ms: int): real {
    ms as real / 1000.0 * cfg.refill
  }

  // Tokens after `ms` milliseconds of refilling.
  function Refilled(cfg: Config, tokens: real, ms: int): real {
    MinReal(cfg.capacity, tokens + Gained(cfg, Max(0, ms)))
  }

  // What is in the bucket at `now`; a bucket that is not there is full.
  function Level(cfg: Config, bucket: Option<Bucket>, now: int): real {
    match bucket
    case None => Refilled(cfg, cfg.capacity, 0)
    case Some(b) => Refilled(cfg, b.tokens, now - b.ts)
  }

  function TtlMs(cfg: Config): int
    requires cfg.refill != 0.0
  {
    Ceil(cfg.capacity / cfg.refill * 1000.0) + 1000
  }

  function Hint(cfg: Config, tokens: real, cost: real): int
    requires cfg.refill != 0.0
  {
    Ceil((cost - tokens) / cfg.refill * 1000.0)
  }

  // The script.
  function Consume(cfg: Config, bucket: Option<Bucket>, now: int, cost: real): (Bucket, Decision)
    requires cfg.refill != 0.0
  {
    var tokens := Level(cfg, bucket, now);
    if tokens >= cost then
      (Bucket(tokens - cost, now, now + TtlMs(cfg)), Decision(true, (tokens - cost).Floor, 0))
    else
      (Bucket(tokens, now, now + TtlMs(cfg)), Decision(false, tokens.Floor, Hint(cfg, tokens, cost)))
  }

  // One call. A key past its expiry may be gone already (`evicted`) or not yet.
  datatype Call = Call(now: int, cost: real, evicted: bool)

  function Visible(bucket: Option<Bucket>, call: Call): Option<Bucket> {
    if bucket.Some? && call.evicted && call.now >= bucket.value.expireAt then None else bucket
  }

  function After(cfg: Config, bucket: Option<Bucket>, calls: seq<Call>): Option<Bucket>
    requires cfg.refill != 0.0
  {
    if calls == [] then bucket
    else
      var last := calls[|calls| - 1];
      Some(Consume(cfg, Visible(After(cfg, bucket, calls[..|calls| - 1]), last), last.now, last.cost).0)
  }

  function Decide(cfg: Config, bucket: Option<Bucket>, call: Call): Decision
    requires cfg.refill != 0.0
  {
    Consume(cfg, Visible(bucket, call), call.now, call.cost).1
  }

  // What every call of a sequence was told.
  function Decisions(cfg: Config, bucket: Option<Bucket>, calls: seq<Call>): (ds: seq<Decision>)
    requires cfg.refill != 0.0
    ensures |ds| == |calls|
  {
    if calls == [] then []
    else
      var before := calls[..|calls| - 1];
      Decisions(cfg, bucket, before) + [Decide(cfg, After(cfg, bucket, before), calls[|calls| - 1])]
  }

  // Total cost admitted.
  function Admitted(cfg: Config, bucket: Option<Bucket>, calls: seq<Call>): real
    requires cfg.refill != 0.0
  {
    if calls == [] then 0.0
    else
      var before, last := calls[..|calls| - 1], calls[|calls| - 1];
      Admitted(cfg, bucket, before)
        + if Decide(cfg, After(cfg, bucket, before), last).allowed then last.cost else 0.0
  }

  ghost predicate Costs(calls: seq<Call>) {
    forall i :: 0 <= i < |calls| ==> calls[i].cost >= 0.0
  }

  // The clock does not run backwards.
  ghost predicate Ordered(calls: seq<Call>) {
    Costs(calls) && forall i, j :: 0 <= i < j < |calls| ==> calls[i].now <= calls[j].now
  }

  // A bucket as some earlier call left it.
  ghost predicate Kept(cfg: Config, bucket: Option<Bucket>)
    requires cfg.refill != 0.0
  {
    bucket.Some? ==>
      0.0 <= bucket.value.tokens <= cfg.capacity && bucket.value.expireAt == bucket.value.ts + TtlMs(cfg)
  }

  // And that call was no later than `now`.
  ghost predicate Stored(cfg: Config, bucket: Option<Bucket>, now: int)
    requires cfg.refill != 0.0
  {
    Kept(cfg, bucket) && (bucket.Some? ==> bucket.value.ts <= now)
  }

  // ---------- Arithmetic of refilling ----------

  lemma GainedNonNegative(cfg: Config, ms: nat)
    requires Sane(cfg)
    ensures Gained(cfg, ms) >= 0.0
  {
  }

  lemma GainedAdds(cfg: Config, d: nat, e: nat)
    requires Sane(cfg)
    ensures Gained(cfg, d + e) == Gained(cfg, d) + Gained(cfg, e)
    ensures Gained(cfg, d + e) >= Gained(cfg, d)
  {
    GainedNonNegative(cfg, e);
  }

  // What a forward move of the clock can add to a bucket; a backward move adds nothing.
  function Topped(cfg: Config, move: int): real {
    MinReal(cfg.capacity, Gained(cfg, Max(0, move)))
  }

  lemma LevelBounds(cfg: Config, bucket: Option<Bucket>, now: int)
    requires Sane(cfg) && Kept(cfg, bucket)
    ensures 0.0 <= Level(cfg, bucket, now) <= cfg.capacity
    ensures bucket.Some? ==>
      bucket.value.tokens <= Level(cfg, bucket, now) <= bucket.value.tokens + Topped(cfg, now - bucket.value.ts)
  {
    if bucket.Some? { GainedNonNegative(cfg, Max(0, now - bucket.value.ts)); }
  }

  // Refilling twice is refilling once for the whole time.
  lemma {:induction false} PathIndependent(cfg: Config, tokens: real, d: nat, e: nat)
    requires Sane(cfg) && tokens <= cfg.capacity
    ensures Refilled(cfg, Refilled(cfg, tokens, d), e) == Refilled(cfg, tokens, d + e)
  {
    GainedNonNegative(cfg, d);
    GainedNonNegative(cfg, e);
    GainedAdds(cfg, d, e);
  }

  // After the key's whole lifetime the bucket is full again, whatever it held.
  lemma FullAfterTtl(cfg: Config, tokens: real, ms: int)
    requires Sane(cfg) && 0.0 <= tokens <= cfg.capacity && ms >= TtlMs(cfg)
    ensures Refilled(cfg, tokens, ms) == cfg.capacity
  {
    var c, r := cfg.capacity, cfg.refill;
    var x := c / r * 1000.0;
    CeilBounds(x);
    assert c / r >= 0.0;
    assert ms as real >= x;
    assert ms >= 0;
    assert ms as real / 1000.0 >= c / r;
    assert Gained(cfg, ms) >= (c / r) * r == c;
  }

  // So whether an expired key is still there makes no difference to what is in the bucket.
  lemma EvictionInvisible(cfg: Config, bucket: Option<Bucket>, call: Call)
    requires Sane(cfg) && Kept(cfg, bucket)
    ensures Level(cfg, Visible(bucket, call), call.now) == Level(cfg, bucket, call.now)
    ensures Consume(cfg, Visible(bucket, call), call.now, call.cost) == Consume(cfg, bucket, call.now, call.cost)
  {
    if Visible(bucket, call) != bucket {
      FullAfterTtl(cfg, bucket.value.tokens, call.now - bucket.value.ts);
    }
  }

  lemma KeptStep(cfg: Config, bucket: Option<Bucket>, call: Call)
    requires Sane(cfg) && Kept(cfg, bucket) && call.cost >= 0.0
    ensures Kept(cfg, Some(Consume(cfg, Visible(bucket, call), call.now, call.cost).0))
  {
    LevelBounds(cfg, Visible(bucket, call), call.now);
  }

  lemma {:induction false} KeptRun(cfg: Config, bucket: Option<Bucket>, calls: seq<Call>)
    requires Sane(cfg) && Costs(calls) && Kept(cfg, bucket)
    ensures Kept(cfg, After(cfg, bucket, calls))
    ensures calls != [] ==>
      After(cfg, bucket, calls).Some? && After(cfg, bucket, calls).value.ts == calls[|calls| - 1].now
  {
    if calls == [] {
    } else {
      var before, last := calls[..|calls| - 1], calls[|calls| - 1];
      KeptRun(cfg, bucket, before);
      KeptStep(cfg, After(cfg, bucket, before), last);
    }
  }

  lemma StoredRun(cfg: Config, bucket: Option<Bucket>, calls: seq<Call>, now: int)
    requires Sane(cfg) && Ordered(calls)
    requires calls != [] ==> Stored(cfg, bucket, calls[0].now) && calls[|calls| - 1].now <= now
    requires calls == [] ==> Stored(cfg, bucket, now)
    ensures Stored(cfg, After(cfg, bucket, calls), now)
  {
    KeptRun(cfg, bucket, calls);
  }

  // ---------- The limit, whatever the clock does ----------

  // Stored tokens stay in [0, capacity] over every sequence of calls, in time order or not.
  lemma TokensInRange(cfg: Config, calls: seq<Call>)
    requires Sane(cfg) && Costs(calls) && calls != []
    ensures var b := After(cfg, None, calls);
      b.Some? && 0.0 <= b.value.tokens <= cfg.capacity
  {
    KeptRun(cfg, None, calls);
  }

  // One call splits what is in the bucket into what it hands out and what it leaves.
  lemma CallSplits(cfg: Config, bucket: Option<Bucket>, call: Call)
    requires Sane(cfg) && Kept(cfg, bucket)
    ensures var b := Consume(cfg, Visible(bucket, call), call.now, call.cost).0;
      && b.ts == call.now
      && b.tokens + (if Decide(cfg, bucket, call).allowed then call.cost else 0.0) == Level(cfg, bucket, call.now)
  {
    EvictionInvisible(cfg, bucket, call);
  }

  function Instants(calls: seq<Call>): (nows: seq<int>)
    ensures |nows| == |calls| && forall i :: 0 <= i < |calls| ==> nows[i] == calls[i].now
  {
    seq(|calls|, i requires 0 <= i < |calls| => calls[i].now)
  }

  // What all the forward moves of the clock can add between the first instant and the last.
  function Forward(cfg: Config, nows: seq<int>): real {
    if |nows| <= 1 then 0.0
    else
      var n := |nows| - 1;
      Forward(cfg, nows[..n]) + Topped(cfg, nows[n] - nows[n - 1])
  }

  // Tokens handed out, plus tokens left, never exceed what was there plus what the forward moves of
  // the clock refilled.
  lemma {:induction false} Conservation(cfg: Config, bucket: Option<Bucket>, calls: seq<Call>)
    requires Sane(cfg) && Costs(calls) && calls != [] && Kept(cfg, bucket)
    ensures var b := After(cfg, bucket, calls);
      && b.Some? && b.value.ts == calls[|calls| - 1].now && b.value.tokens >= 0.0
      && Admitted(cfg, bucket, calls) + b.value.tokens
           <= Level(cfg, bucket, calls[0].now) + Forward(cfg, Instants(calls))
  {
    var n := |calls| - 1;
    var before, last := calls[..n], calls[n];
    KeptRun(cfg, bucket, calls);
    if before == [] {
      CallSplits(cfg, bucket, last);
    } else {
      Conservation(cfg, bucket, before);
      KeptRun(cfg, bucket, before);
      assert Instants(calls)[..n] == Instants(before);
      var mid := After(cfg, bucket, before);
      CallSplits(cfg, mid, last);
      LevelBounds(cfg, mid, last.now);
    }
  }

  // The callers that get the most out of given instants: each takes all there is.
  function Drainers(cfg: Config, nows: seq<int>): (calls: seq<Call>)
    requires cfg.refill != 0.0
    ensures |calls| == |nows|
  {
    if nows == [] then []
    else
      var n := |nows| - 1;
      var before := Drainers(cfg, nows[..n]);
      before + [Call(nows[n], Level(cfg, After(cfg, None, before), nows[n]), false)]
  }

  // These calls at these instants empty the bucket, and get all there was to get.
  ghost predicate Drained(cfg: Config, nows: seq<int>, calls: seq<Call>)
    requires cfg.refill != 0.0
  {
    && nows != [] && Costs(calls) && Instants(calls) == nows && After(cfg, None, calls).Some?
    && After(cfg, None, calls).value.tokens == 0.0 && After(cfg, None, calls).value.ts == nows[|nows| - 1]
    && Admitted(cfg, None, calls) == cfg.capacity + Forward(cfg, nows)
  }

  lemma {:induction false} DrainersTakeAll(cfg: Config, nows: seq<int>)
    requires Sane(cfg) && nows != []
    ensures Drained(cfg, nows, Drainers(cfg, nows))
  {
    var n := |nows| - 1;
    if n == 0 {
      assert nows[..0] == [] && Drainers(cfg, []) == [];
      assert nows == [nows[0]];
      FirstDrainer(cfg, nows[0]);
    } else {
      DrainersTakeAll(cfg, nows[..n]);
      NextDrainer(cfg, nows[..n], Drainers(cfg, nows[..n]), nows[n]);
      assert nows[..n] + [nows[n]] == nows;
    }
  }

  lemma FirstDrainer(cfg: Config, now: int)
    requires Sane(cfg)
    ensures Drained(cfg, [now], [Call(now, Level(cfg, None, now), false)])
  {
    var call := Call(now, Level(cfg, None, now), false);
    OneMoreCall(cfg, None, [], call);
    TakesAll(cfg, None, call);
    assert [] + [call] == [call];
  }

  lemma NextDrainer(cfg: Config, nows: seq<int>, before: seq<Call>, now: int)
    requires Sane(cfg) && Drained(cfg, nows, before)
    ensures Drained(cfg, nows + [now], before + [Call(now, Level(cfg, After(cfg, None, before), now), false)])
  {
    hide After;
    hide Admitted;
    hide Consume;
    hide Decide;
    var mid := After(cfg, None, before);
    var call := Call(now, Level(cfg, mid, now), false);
    OneMoreCall(cfg, None, before, call);
    TakesAll(cfg, mid, call);
    ToppedUp(cfg, mid.value, now);
    assert Instants(before + [call]) == nows + [now];
    assert (nows + [now])[..|nows|] == nows;
  }

  // An empty bucket holds what the clock's move topped up.
  lemma ToppedUp(cfg: Config, bucket: Bucket, now: int)
    requires Sane(cfg) && bucket.tokens == 0.0
    ensures Level(cfg, Some(bucket), now) == Topped(cfg, now - bucket.ts) >= 0.0
  {
    GainedNonNegative(cfg, Max(0, now - bucket.ts));
  }

  lemma TakesAll(cfg: Config, bucket: Option<Bucket>, call: Call)
    requires cfg.refill != 0.0 && !call.evicted && call.cost == Level(cfg, bucket, call.now)
    ensures Decide(cfg, bucket, call).allowed
    ensures var b := Consume(cfg, Visible(bucket, call), call.now, call.cost).0;
      b.tokens == 0.0 && b.ts == call.now
  {
  }

  ghost predicate Bounded(cfg: Config, history: seq<Call>, window: seq<Call>, ms: int)
    requires cfg.refill != 0.0
  {
    Admitted(cfg, After(cfg, None, history), window) <= cfg.capacity + Gained(cfg, ms)
  }

  lemma ForwardMovesBound(cfg: Config, history: seq<Call>, window: seq<Call>)
    requires Sane(cfg) && Costs(history) && Costs(window) && window != []
    ensures Admitted(cfg, After(cfg, None, history), window) <= cfg.capacity + Forward(cfg, Instants(window))
  {
    KeptRun(cfg, None, history);
    Conservation(cfg, After(cfg, None, history), window);
    LevelBounds(cfg, After(cfg, None, history), window[0].now);
  }

  // Exactly when a window of calls at given instants keeps the bound of `ms` milliseconds, whatever
  // came before and whatever the calls cost: if and only if the forward moves of the clock inside it
  // refill no more than `ms` milliseconds do, each move counting for a full bucket at most.
  lemma BoundIffForwardMovesFit(cfg: Config, nows: seq<int>, ms: int)
    requires Sane(cfg) && nows != []
    ensures Forward(cfg, nows) <= Gained(cfg, ms) <==>
      forall history: seq<Call>, window: seq<Call> :: Costs(history) && Costs(window) && Instants(window) == nows ==>
        Bounded(cfg, history, window, ms)
  {
    if Forward(cfg, nows) <= Gained(cfg, ms) {
      forall history: seq<Call>, window: seq<Call> | Costs(history) && Costs(window) && Instants(window) == nows
        ensures Bounded(cfg, history, window, ms)
      {
        ForwardMovesBound(cfg, history, window);
      }
    } else {
      DrainersTakeAll(cfg, nows);
      assert !Bounded(cfg, [], Drainers(cfg, nows), ms);
    }
  }

  // ---------- The limit, while the clock does not run backwards ----------

  lemma {:induction false} ForwardWhileOrdered(cfg: Config, nows: seq<int>)
    requires Sane(cfg) && nows != [] && forall i, j :: 0 <= i < j < |nows| ==> nows[i] <= nows[j]
    ensures nows[0] <= nows[|nows| - 1] && Forward(cfg, nows) <= Gained(cfg, nows[|nows| - 1] - nows[0])
  {
    if |nows| > 1 {
      var n := |nows| - 1;
      ForwardWhileOrdered(cfg, nows[..n]);
      assert nows[n - 1] <= nows[n];
      GainedAdds(cfg, nows[n - 1] - nows[0], nows[n] - nows[n - 1]);
    }
  }

  // In any window, whichever replicas the calls come from, at most capacity + refill * T is
  // admitted: `history` is everything before the window.
  lemma WindowBound(cfg: Config, history: seq<Call>, window: seq<Call>, ms: nat)
    requires Sane(cfg) && Costs(history) && Ordered(window) && window != []
    requires window[|window| - 1].now - window[0].now <= ms
    ensures Admitted(cfg, After(cfg, None, history), window) <= cfg.capacity + Gained(cfg, ms)
  {
    OrderedMovesFit(cfg, window, ms);
    ForwardMovesBound(cfg, history, window);
  }

  lemma OrderedMovesFit(cfg: Config, window: seq<Call>, ms: nat)
    requires Sane(cfg) && Ordered(window) && window != [] && window[|window| - 1].now - window[0].now <= ms
    ensures Forward(cfg, Instants(window)) <= Gained(cfg, ms)
  {
    InstantsOrdered(window);
    ForwardWhileOrdered(cfg, Instants(window));
    GainedRises(cfg, window[|window| - 1].now - window[0].now, ms);
  }

  lemma GainedRises(cfg: Config, d: nat, e: nat)
    requires Sane(cfg) && d <= e
    ensures Gained(cfg, d) <= Gained(cfg, e)
  {
    GainedAdds(cfg, d, e - d);
  }

  lemma InstantsOrdered(calls: seq<Call>)
    requires Ordered(calls)
    ensures forall i, j :: 0 <= i < j < |calls| ==> Instants(calls)[i] <= Instants(calls)[j]
  {
  }

  lemma OrderedParts(a: seq<Call>, b: seq<Call>)
    requires Ordered(a + b)
    ensures Ordered(a) && Ordered(b)
    ensures a != [] && b != [] ==> a[|a| - 1].now <= b[0].now
    ensures b != [] ==> b[0].now <= b[|b| - 1].now
  {
    var all := a + b;
    forall i | 0 <= i < |a| ensures a[i] == all[i] {}
    forall i | 0 <= i < |b| ensures b[i] == all[|a| + i] {}
    if a != [] && b != [] { assert all[|a| - 1].now <= all[|a|].now; }
  }

  // The smallest failing clock: the script stores ts = now even when now runs backwards, and then
  // refills the same second twice.
  lemma BackwardClockBreaksTheBound()
    ensures var cfg, nows := Config(1.0, 1.0), [10_000, 0, 10_000];
      Forward(cfg, nows) == 1.0 && Gained(cfg, nows[2] - nows[0]) == 0.0
      && Admitted(cfg, None, Drainers(cfg, nows)) == 2.0
  {
    var cfg, nows := Config(1.0, 1.0), [10_000, 0, 10_000];
    ForwardOfThree(cfg, 10_000, 0, 10_000);
    ToppedInTenSeconds();
    DrainersTakeAll(cfg, nows);
  }

  lemma ToppedInTenSeconds()
    ensures var cfg := Config(1.0, 1.0);
      Topped(cfg, -10_000) == 0.0 && Topped(cfg, 10_000) == 1.0 && Gained(cfg, 0) == 0.0
  {
    assert Gained(Config(1.0, 1.0), 10_000) == 10.0;
  }

  lemma ForwardOfThree(cfg: Config, a: int, b: int, c: int)
    ensures Forward(cfg, [a, b, c]) == Topped(cfg, b - a) + Topped(cfg, c - b)
  {
    var two, three := [a, b], [a, b, c];
    assert three[..2] == two && two[..1] == [a];
    assert Forward(cfg, two) == Forward(cfg, [a]) + Topped(cfg, b - a);
    assert Forward(cfg, three) == Forward(cfg, two) + Topped(cfg, c - b);
  }

  lemma OneMoreCall(cfg: Config, bucket: Option<Bucket>, calls: seq<Call>, call: Call)
    requires cfg.refill != 0.0
    ensures var mid := After(cfg, bucket, calls);
      && After(cfg, bucket, calls + [call]) == Some(Consume(cfg, Visible(mid, call), call.now, call.cost).0)
      && Admitted(cfg, bucket, calls + [call])
           == Admitted(cfg, bucket, calls) + (if Decide(cfg, mid, call).allowed then call.cost else 0.0)
  {
    assert (calls + [call])[..|calls|] == calls;
  }

  // ---------- Expiry is unobservable ----------

  function Keep(calls: seq<Call>): (kept: seq<Call>)
    ensures |kept| == |calls|
    ensures forall i :: 0 <= i < |calls| ==> kept[i] == calls[i].(evicted := false)
  {
    seq(|calls|, i requires 0 <= i < |calls| => calls[i].(evicted := false))
  }

  // A bucket that forgets its key whenever Redis has expired it answers every call exactly as one
  // that never forgets.
  lemma {:induction false} ExpiryUnobservable(cfg: Config, calls: seq<Call>)
    requires Sane(cfg) && Costs(calls)
    ensures Decisions(cfg, None, calls) == Decisions(cfg, None, Keep(calls))
    ensures After(cfg, None, calls) == After(cfg, None, Keep(calls))
  {
    if calls != [] {
      var before, last := calls[..|calls| - 1], calls[|calls| - 1];
      var kept := last.(evicted := false);
      ExpiryUnobservable(cfg, before);
      assert Keep(calls)[..|calls| - 1] == Keep(before) && Keep(calls)[|calls| - 1] == kept;
      KeptRun(cfg, None, before);
      SameAnswer(cfg, After(cfg, None, before), last, kept);
    }
  }

  lemma SameAnswer(cfg: Config, bucket: Option<Bucket>, a: Call, b: Call)
    requires Sane(cfg) && Kept(cfg, bucket) && a.now == b.now && a.cost == b.cost
    ensures Consume(cfg, Visible(bucket, a), a.now, a.cost) == Consume(cfg, Visible(bucket, b), b.now, b.cost)
    ensures Decide(cfg, bucket, a) == Decide(cfg, bucket, b)
  {
    EvictionInvisible(cfg, bucket, a);
    EvictionInvisible(cfg, bucket, b);
  }

  // ---------- The retry hint ----------

  // A refused probe leaves the level it found behind.
  lemma RefusalKeepsLevel(cfg: Config, mid: Option<Bucket>, probe: Call, now: int)
    requires Sane(cfg) && Kept(cfg, mid) && !Decide(cfg, mid, probe).allowed && probe.now <= now
    ensures var b := Consume(cfg, Visible(mid, probe), probe.now, probe.cost).0;
      Level(cfg, Some(b), now) == Refilled(cfg, Level(cfg, mid, probe.now), now - probe.now)
  {
    EvictionInvisible(cfg, mid, probe);
  }

  // After refused probes the level at any later instant is what it would have been without them.
  lemma {:induction false} RefusedProbesChangeNothing(cfg: Config, bucket: Option<Bucket>, probes: seq<Call>, now: int)
    requires Sane(cfg) && Ordered(probes) && bucket.Some?
    requires probes != [] ==> Stored(cfg, bucket, probes[0].now) && probes[|probes| - 1].now <= now
    requires probes == [] ==> Stored(cfg, bucket, now)
    requires forall i :: 0 <= i < |probes| ==> !Decisions(cfg, bucket, probes)[i].allowed
    ensures Level(cfg, After(cfg, bucket, probes), now) == Level(cfg, bucket, now)
    ensures probes == [] || bucket.value.ts <= probes[0].now
  {
    hide Consume;
    hide Refilled;
    hide Visible;
    if probes != [] {
      var before, last := probes[..|probes| - 1], probes[|probes| - 1];
      forall i | 0 <= i < |before| ensures !Decisions(cfg, bucket, before)[i].allowed {
        assert Decisions(cfg, bucket, before)[i] == Decisions(cfg, bucket, probes)[i];
      }
      assert !Decisions(cfg, bucket, probes)[|before|].allowed;
      RefusedProbesChangeNothing(cfg, bucket, before, last.now);
      StoredRun(cfg, bucket, before, last.now);
      RefusalKeepsLevel(cfg, After(cfg, bucket, before), last, now);
      PathIndependent(cfg, bucket.value.tokens, last.now - bucket.value.ts, now - last.now);
    }
  }

  lemma ScaleLess(x: real, y: real, r: real)
    requires r > 0.0
    ensures x < y <==> x * r < y * r
  {
    if x < y { assert (y - x) * r > 0.0; } else { assert (x - y) * r >= 0.0; }
  }

  // Waiting d milliseconds brings the level up to `cost` exactly when d reaches the hint.
  lemma HintArithmetic(cfg: Config, tokens: real, cost: real, d: nat)
    requires Sane(cfg) && 0.0 <= tokens < cost
    ensures Hint(cfg, tokens, cost) >= 1
    ensures tokens + Gained(cfg, d) >= cost <==> d >= Hint(cfg, tokens, cost)
  {
    var r := cfg.refill;
    var seconds := (cost - tokens) / r;
    assert seconds * r == cost - tokens && seconds > 0.0;
    CeilBounds(seconds * 1000.0);
    ScaleLess(d as real / 1000.0, seconds, r);
    assert d >= Hint(cfg, tokens, cost) <==> d as real >= seconds * 1000.0 by {
      if d < Hint(cfg, tokens, cost) { assert d as real <= Hint(cfg, tokens, cost) as real - 1.0; }
    }
  }

  // A refused call leaves the refilled level behind, and its hint is computed from that.
  lemma {:induction false} RefusalLeaves(cfg: Config, bucket: Option<Bucket>, refused: Call)
    requires Sane(cfg) && Stored(cfg, bucket, refused.now) && refused.cost >= 0.0
    requires !Decide(cfg, bucket, refused).allowed
    ensures var left := After(cfg, bucket, [refused]);
      && left.Some? && Stored(cfg, left, refused.now) && left.value.ts == refused.now
      && left.value.tokens < refused.cost
      && Decide(cfg, bucket, refused).retryAfterMs == Hint(cfg, left.value.tokens, refused.cost)
  {
    assert [refused][..0] == [];
    KeptStep(cfg, bucket, refused);
  }

  // The hint is sound and tight. After a refusal, and whatever refused probes follow, a call of the
  // same cost is admitted exactly when the cost fits the bucket at all and the hint has passed.
  lemma {:induction false} RetryHintExact(cfg: Config, bucket: Option<Bucket>, refused: Call, probes: seq<Call>,
                                          call: Call)
    requires Sane(cfg) && Ordered([refused] + probes + [call]) && Stored(cfg, bucket, refused.now)
    requires call.cost == refused.cost && !Decide(cfg, bucket, refused).allowed
    requires var left := After(cfg, bucket, [refused]);
      forall i :: 0 <= i < |probes| ==> !Decisions(cfg, left, probes)[i].allowed
    ensures var left := After(cfg, bucket, [refused]);
      Decide(cfg, After(cfg, left, probes), call).allowed <==>
        refused.cost <= cfg.capacity && call.now - refused.now >= Decide(cfg, bucket, refused).retryAfterMs
  {
    OrderedEnds(refused, probes, call);
    RefusalLeaves(cfg, bucket, refused);
    var left := After(cfg, bucket, [refused]);
    LaterCall(cfg, left, probes, call, refused.now);
    HintArithmetic(cfg, left.value.tokens, refused.cost, call.now - refused.now);
  }

  lemma OrderedEnds(first: Call, probes: seq<Call>, last: Call)
    requires Ordered([first] + probes + [last])
    ensures Ordered(probes) && first.cost >= 0.0 && first.now <= last.now
    ensures probes != [] ==> first.now <= probes[0].now && probes[|probes| - 1].now <= last.now
  {
    OrderedParts([first] + probes, [last]);
    OrderedParts([first], probes);
    var all := [first] + probes + [last];
    assert all[0] == first && all[|all| - 1] == last;
  }

  lemma {:induction false} LaterCall(cfg: Config, left: Option<Bucket>, probes: seq<Call>, call: Call, from: int)
    requires Sane(cfg) && Ordered(probes) && left.Some? && left.value.ts == from && Stored(cfg, left, from)
    requires from <= call.now && (probes != [] ==> from <= probes[0].now && probes[|probes| - 1].now <= call.now)
    requires forall i :: 0 <= i < |probes| ==> !Decisions(cfg, left, probes)[i].allowed
    ensures Decide(cfg, After(cfg, left, probes), call).allowed <==>
      call.cost <= cfg.capacity && call.cost <= left.value.tokens + Gained(cfg, call.now - from)
  {
    RefusedProbesChangeNothing(cfg, left, probes, call.now);
    StoredRun(cfg, left, probes, call.now);
    EvictionInvisible(cfg, After(cfg, left, probes), call);
  }

  // The guard's Retry-After: whole seconds, at least one.
  function RetryAfterSeconds(retryAfterMs: int): int {
    Max(1, Ceil(retryAfterMs as real / 1000.0))
  }

  // It is the least positive number of whole seconds that covers the hint.
  lemma {:induction false} RetryAfterCoversHint(retryAfterMs: int)
    requires retryAfterMs >= 1
    ensures var s := RetryAfterSeconds(retryAfterMs);
      s >= 1 && s * 1000 >= retryAfterMs && (s - 1) * 1000 < retryAfterMs
  {
    CeilBounds(retryAfterMs as real / 1000.0);
  }
}
