/**
 Cache-aside with single flight and stale serving, for one key: the cached entry, the lease on the
 key's lock, the database value over time, and any number of requests and background refreshes.
 One global clock, in milliseconds. Each step is one Redis or database operation, or a local step.
 */
module Cache {
  import opened Arithmetic
  import opened Leases
  import opened Wrappers

  type RequestId = nat

  // ---------- TTL with jitter ----------

  function TtlWithJitter(baseSeconds: int, jitterSeconds: int, random: real): int {
    if jitterSeconds <= 0 then Max(1, baseSeconds)
    else Max(1, baseSeconds + (random * (jitterSeconds + 1) as real).Floor)
  }

  // The longest freshness a draw can give. A negative jitter counts as none.
  function MaxTtl(baseSeconds: int, jitterSeconds: int): int {
    Max(1, baseSeconds + Max(0, jitterSeconds))
  }

  lemma TtlInRange(baseSeconds: int, jitterSeconds: int, random: real)
    requires 0.0 <= random < 1.0
    ensures Max(1, baseSeconds) <= TtlWithJitter(baseSeconds, jitterSeconds, random)
      <= MaxTtl(baseSeconds, jitterSeconds)
  {
    if jitterSeconds > 0 { DrawBelow(random, jitterSeconds + 1); }
  }

  // The jitter spreads: every freshness from the base to base plus jitter is drawn by some draw.
  lemma TtlReaches(baseSeconds: int, jitterSeconds: int, seconds: int) returns (random: real)
    requires Max(1, baseSeconds) <= seconds <= MaxTtl(baseSeconds, jitterSeconds)
    ensures 0.0 <= random < 1.0 && TtlWithJitter(baseSeconds, jitterSeconds, random) == seconds
  {
    random := 0.0;
    if jitterSeconds > 0 {
      random := DrawReaches(jitterSeconds + 1, Min(jitterSeconds, Max(0, seconds - baseSeconds)));
    }
  }

  // ---------- State ----------

  datatype Config = Config(enabled: bool, protection: bool, lockTtlMs: int, ttlSeconds: int,
                           jitterSeconds: int, staleSeconds: int)

  // A database value with the instant of the read and of the start of the load it came from.
  datatype Loaded<+V> = Loaded(v: V, readAt: int, begunAt: int)

  // The cached envelope; `from` and `setAt` are history.
  datatype Entry<+V> = Entry(from: Loaded<V>, freshUntil: int, expireAt: int, setAt: int)

  // Why a request loads: cache disabled, protection off, it holds the lease, or it waited in vain.
  datatype Mode = Direct | Plain | Leased(until: int) | Fallback(deadline: int)

  datatype Phase<+V> =
    | Looking
    | Looked(entry: Option<Entry<V>>, lookedAt: int)
    | Acquiring
    | Waiting(deadline: int)
    | Querying(mode: Mode, begunAt: int)
    | Queried(mode: Mode, got: Loaded<V>)
    | Storing(mode: Mode, got: Loaded<V>, freshSeconds: int, freshUntil: int)
    | Releasing(until: int, result: Option<Loaded<V>>)
    | Done

  datatype Request<+V> = Request(background: bool, phase: Phase<V>)

  datatype Source = Hit | Stale | Waited | Own

  // What a caller of getOrLoad got and when, and when Redis was asked for it. The load behind it
  // began, read the database, and was stored (or, not stored, handed over) at the other instants.
  datatype Answer<+V> = Answer(v: V, at: int, lookedAt: int, begunAt: int, readAt: int, storedAt: int, source: Source)

  datatype World<+V> = World(cfg: Config, now: int, db: seq<(V, int)>, entry: Option<Entry<V>>,
                             lease: Option<Lease>, requests: map<RequestId, Request<V>>,
                             answers: seq<Answer<V>>)

  datatype Step<+V> =
    | Call(r: RequestId)
    | Look(r: RequestId, ok: bool)
    | Decide(r: RequestId, refresher: RequestId)
    | Acquire(r: RequestId)
    | PollRead(r: RequestId, ok: bool)
    | GiveUp(r: RequestId)
    | Query(r: RequestId)
    | Return(r: RequestId, ok: bool, random: real)
    | Store(r: RequestId, ok: bool)
    | Release(r: RequestId, ok: bool)
    | Crash(r: RequestId)
    | DbWrite(v: V)
    | Invalidate(ok: bool)
    | Tick(ms: nat)

  // ---------- The steps ----------

  function Init<V>(cfg: Config, v: V): World<V> {
    World(cfg, 0, [(v, 0)], None, None, map[], [])
  }

  // GET: an expired key is not there, and a failed read counts as a miss.
  function ReadEntry<V>(w: World<V>, ok: bool): Option<Entry<V>> {
    if ok && w.entry.Some? && w.now <= w.entry.value.expireAt then w.entry else None
  }

  function Goto<V>(w: World<V>, r: RequestId, p: Phase<V>): World<V>
    requires r in w.requests
  {
    w.(requests := w.requests[r := w.requests[r].(phase := p)])
  }

  function FromEntry<V>(w: World<V>, e: Entry<V>, lookedAt: int, source: Source): Answer<V> {
    Answer(e.from.v, w.now, lookedAt, e.from.begunAt, e.from.readAt, e.setAt, source)
  }

  function FromLoad<V>(w: World<V>, l: Loaded<V>): Answer<V> {
    Answer(l.v, w.now, w.now, l.begunAt, l.readAt, w.now, Own)
  }

  function Finish<V>(w: World<V>, r: RequestId, a: Answer<V>): World<V>
    requires r in w.requests
  {
    Goto(w, r, Done).(answers := if w.requests[r].background then w.answers else w.answers + [a])
  }

  function LookStep<V>(w: World<V>, r: RequestId, ok: bool): World<V>
    requires r in w.requests
  {
    if !w.cfg.enabled then Goto(w, r, Querying(Direct, w.now)) else Goto(w, r, Looked(ReadEntry(w, ok), w.now))
  }

  // Fresh: answer. Stale under protection: answer and leave the refresh to `refresher`. Else load.
  function DecideStep<V>(w: World<V>, r: RequestId, refresher: RequestId): World<V>
    requires r in w.requests && w.requests[r].phase.Looked?
  {
    var Looked(entry, lookedAt) := w.requests[r].phase;
    if entry.Some? && w.now < entry.value.freshUntil then Finish(w, r, FromEntry(w, entry.value, lookedAt, Hit))
    else if !w.cfg.protection then Goto(w, r, Querying(Plain, w.now))
    else if entry.None? then Goto(w, r, Acquiring)
    else if refresher in w.requests then w
    else
      var w' := Finish(w, r, FromEntry(w, entry.value, lookedAt, Stale));
      w'.(requests := w'.requests[refresher := Request(true, Acquiring)])
  }

  function AcquireStep<V>(w: World<V>, r: RequestId): World<V>
    requires r in w.requests
  {
    if w.cfg.lockTtlMs <= 0 then Goto(w, r, Done)
    else if Live(w.lease, w.now) then
      if w.requests[r].background then Goto(w, r, Done)
      else Goto(w, r, Waiting(w.now + Min(w.cfg.lockTtlMs, 2000)))
    else
      var until := w.now + w.cfg.lockTtlMs;
      Goto(w, r, Querying(Leased(until), w.now)).(lease := SetNx(w.lease, r, w.cfg.lockTtlMs, w.now))
  }

  function ReturnStep<V>(w: World<V>, r: RequestId, ok: bool, random: real): World<V>
    requires r in w.requests && (w.requests[r].phase.Querying? || w.requests[r].phase.Queried?)
  {
    var p := w.requests[r].phase;
    if !ok then
      if p.mode.Leased? then Goto(w, r, Releasing(p.mode.until, None)) else Goto(w, r, Done)
    else if p.Querying? then w
    else if p.mode.Direct? || p.mode.Fallback? then Finish(w, r, FromLoad(w, p.got))
    else
      var freshSeconds := TtlWithJitter(w.cfg.ttlSeconds, w.cfg.jitterSeconds, random);
      Goto(w, r, Storing(p.mode, p.got, freshSeconds, w.now + freshSeconds * 1000))
  }

  // SET ... EX; a failed or refused write is swallowed.
  function StoreStep<V>(w: World<V>, r: RequestId, ok: bool): World<V>
    requires r in w.requests && w.requests[r].phase.Storing?
  {
    var p := w.requests[r].phase;
    var redisTtl := p.freshSeconds + w.cfg.staleSeconds;
    var w' := if ok && redisTtl > 0
              then w.(entry := Some(Entry(p.got, p.freshUntil, w.now + redisTtl * 1000, w.now)))
              else w;
    if p.mode.Leased? then Goto(w', r, Releasing(p.mode.until, Some(p.got)))
    else Finish(w', r, FromLoad(w', p.got))
  }

  function ReleaseStep<V>(w: World<V>, r: RequestId, ok: bool): World<V>
    requires r in w.requests && w.requests[r].phase.Releasing?
  {
    var p := w.requests[r].phase;
    var w' := if ok then w.(lease := CompareAndDelete(w.lease, r, w.now)) else w;
    if p.result.Some? then Finish(w', r, FromLoad(w', p.result.value)) else Goto(w', r, Done)
  }

  function Apply<V>(w: World<V>, st: Step<V>): World<V> {
    match st
    case Call(r) => if r in w.requests then w else w.(requests := w.requests[r := Request(false, Looking)])
    case Look(r, ok) => if r in w.requests && w.requests[r].phase.Looking? then LookStep(w, r, ok) else w
    case Decide(r, refresher) =>
      if r in w.requests && w.requests[r].phase.Looked? then DecideStep(w, r, refresher) else w
    case Acquire(r) => if r in w.requests && w.requests[r].phase.Acquiring? then AcquireStep(w, r) else w
    case PollRead(r, ok) =>
      if r in w.requests && w.requests[r].phase.Waiting? && ReadEntry(w, ok).Some?
      then Finish(w, r, FromEntry(w, ReadEntry(w, ok).value, w.now, Waited)) else w
    case GiveUp(r) =>
      if r in w.requests && w.requests[r].phase.Waiting? && w.now >= w.requests[r].phase.deadline
      then Goto(w, r, Querying(Fallback(w.requests[r].phase.deadline), w.now)) else w
    case Query(r) =>
      if r in w.requests && w.requests[r].phase.Querying? && w.db != [] then
        var p := w.requests[r].phase;
        Goto(w, r, Queried(p.mode, Loaded(w.db[|w.db| - 1].0, w.now, p.begunAt)))
      else w
    case Return(r, ok, random) =>
      if r in w.requests && (w.requests[r].phase.Querying? || w.requests[r].phase.Queried?) && 0.0 <= random < 1.0
      then ReturnStep(w, r, ok, random) else w
    case Store(r, ok) => if r in w.requests && w.requests[r].phase.Storing? then StoreStep(w, r, ok) else w
    case Release(r, ok) => if r in w.requests && w.requests[r].phase.Releasing? then ReleaseStep(w, r, ok) else w
    case Crash(r) => if r in w.requests then Goto(w, r, Done) else w
    case DbWrite(v) => w.(db := w.db + [(v, w.now)])
    case Invalidate(ok) => if ok then w.(entry := None) else w
    case Tick(ms) => w.(now := w.now + ms)
  }

  function Run<V>(w: World<V>, steps: seq<Step<V>>): World<V> {
    if steps == [] then w else Apply(Run(w, steps[..|steps| - 1]), steps[|steps| - 1])
  }

  lemma RunSnoc<V>(w: World<V>, steps: seq<Step<V>>, st: Step<V>)
    ensures Run(w, steps + [st]) == Apply(Run(w, steps), st)
  {
    assert (steps + [st])[..|steps|] == steps;
  }

  // ---------- One step ----------

  lemma Outer<V>(w: World<V>, st: Step<V>)
    ensures Apply(w, st).now >= w.now && Apply(w, st).cfg == w.cfg
    ensures Apply(w, st).db == if st.DbWrite? then w.db + [(st.v, w.now)] else w.db
  {
  }

  // The request whose step this is.
  function Mover<V>(st: Step<V>): Option<RequestId> {
    match st
    case DbWrite(_) => None
    case Invalidate(_) => None
    case Tick(_) => None
    case _ => Some(st.r)
  }

  // Nobody else's step changes a request's phase.
  lemma OthersStand<V>(w: World<V>, st: Step<V>, r: RequestId)
    requires r in w.requests && Mover(st) != Some(r)
    ensures r in Apply(w, st).requests && Apply(w, st).requests[r] == w.requests[r]
  {
    hide FromEntry;
    hide FromLoad;
    hide TtlWithJitter;
    hide ReadEntry;
  }
}
