/** How old an answer of the cache can be. */
module CacheAge {
  import opened Arithmetic
  import opened Cache
  import opened Wrappers

  // v was the database value at instant t.
  ghost predicate WasValue<V>(db: seq<(V, int)>, v: V, t: int) {
    exists i :: 0 <= i < |db| && ValueFrom(db, i, v, t)
  }

  ghost predicate ValueFrom<V>(db: seq<(V, int)>, i: int, v: V, t: int)
    requires 0 <= i < |db|
  {
    db[i].0 == v && db[i].1 <= t && (i + 1 < |db| ==> t <= db[i + 1].1)
  }

  ghost predicate LoadedOk<V>(w: World<V>, l: Loaded<V>) {
    l.begunAt <= l.readAt <= w.now && WasValue(w.db, l.v, l.readAt)
  }

  function FreshMs(cfg: Config): int {
    MaxTtl(cfg.ttlSeconds, cfg.jitterSeconds) * 1000
  }

  function MaxAgeMs(cfg: Config): int {
    (MaxTtl(cfg.ttlSeconds, cfg.jitterSeconds) + cfg.staleSeconds) * 1000
  }

  ghost predicate GoodEntry<V>(w: World<V>, e: Entry<V>) {
    && LoadedOk(w, e.from) && e.from.readAt <= e.setAt <= w.now
    && e.freshUntil <= e.setAt + FreshMs(w.cfg)
    && e.expireAt <= e.setAt + MaxAgeMs(w.cfg)
  }

  ghost predicate EntryOk<V>(w: World<V>) {
    w.entry.Some? ==> GoodEntry(w, w.entry.value)
  }

  ghost predicate PhaseOk<V>(w: World<V>, p: Phase<V>) {
    match p
    case Looked(entry, lookedAt) =>
      entry.Some? ==> GoodEntry(w, entry.value) && entry.value.setAt <= lookedAt <= Min(w.now, entry.value.expireAt)
    case Querying(mode, begunAt) => begunAt <= w.now && (mode.Fallback? ==> mode.deadline <= begunAt)
    case Queried(mode, got) => LoadedOk(w, got) && (mode.Fallback? ==> mode.deadline <= got.begunAt)
    case Storing(mode, got, freshSeconds, freshUntil) =>
      && LoadedOk(w, got) && !mode.Fallback? && !mode.Direct?
      && freshSeconds <= MaxTtl(w.cfg.ttlSeconds, w.cfg.jitterSeconds)
      && freshUntil <= w.now + freshSeconds * 1000
    case Releasing(_, result) => result.Some? ==> LoadedOk(w, result.value)
    case _ => true
  }

  // An answer was right when the database was read, and that is no longer ago than its source allows.
  ghost predicate AnswerOk<V>(w: World<V>, a: Answer<V>) {
    && WasValue(w.db, a.v, a.readAt) && a.begunAt <= a.readAt <= a.storedAt <= a.lookedAt <= a.at <= w.now
    && match a.source {
         case Hit => a.at - a.storedAt <= FreshMs(w.cfg)
         case Stale => a.lookedAt - a.storedAt <= MaxAgeMs(w.cfg)
         case Waited => a.lookedAt - a.storedAt <= MaxAgeMs(w.cfg)
         case Own => a.at == a.storedAt
       }
  }

  ghost predicate DbOk<V>(w: World<V>) {
    w.db != [] && w.db[|w.db| - 1].1 <= w.now
  }

  ghost predicate RequestAt<V>(w: World<V>, r: RequestId)
    requires r in w.requests
  {
    PhaseOk(w, w.requests[r].phase)
  }

  ghost predicate AnswerAt<V>(w: World<V>, i: nat)
    requires i < |w.answers|
  {
    AnswerOk(w, w.answers[i])
  }

  ghost predicate AgeInv<V>(w: World<V>) {
    && DbOk(w) && EntryOk(w)
    && (forall r {:trigger RequestAt(w, r)} :: r in w.requests ==> RequestAt(w, r))
    && (forall i: nat {:trigger AnswerAt(w, i)} :: i < |w.answers| ==> AnswerAt(w, i))
  }

  lemma DbFrame<V>(w: World<V>, st: Step<V>)
    requires DbOk(w)
    ensures var w' := Apply(w, st);
      && DbOk(w') && w'.now >= w.now && w'.cfg == w.cfg
      && forall v, t :: t <= w.now && WasValue(w.db, v, t) ==> WasValue(w'.db, v, t)
  {
    hide Apply;
    Outer(w, st);
    var w' := Apply(w, st);
    forall v, t | t <= w.now && WasValue(w.db, v, t) ensures WasValue(w'.db, v, t) {
      var i :| 0 <= i < |w.db| && ValueFrom(w.db, i, v, t);
      assert ValueFrom(w'.db, i, v, t);
    }
  }

  lemma EntryStep<V>(w: World<V>, st: Step<V>)
    requires AgeInv(w)
    ensures EntryOk(Apply(w, st))
  {
    hide Apply;
    hide StoreStep;
    DbFrame(w, st);
    EntryMoves(w, st);
    if Apply(w, st).entry != w.entry && Apply(w, st).entry.Some? { StoreEntry(w, st.r, st.ok); }
  }

  lemma EntryMoves<V>(w: World<V>, st: Step<V>)
    ensures var w' := Apply(w, st);
      || w'.entry == w.entry
      || w'.entry.None?
      || (st.Store? && st.r in w.requests && w.requests[st.r].phase.Storing? && w' == StoreStep(w, st.r, st.ok))
  {
  }

  lemma StoreEntry<V>(w: World<V>, r: RequestId, ok: bool)
    requires AgeInv(w) && r in w.requests && w.requests[r].phase.Storing?
    ensures EntryOk(StoreStep(w, r, ok))
  {
    assert RequestAt(w, r);
  }

  // Time and writes do not spoil what a phase remembers.
  lemma PhaseKept<V>(w: World<V>, st: Step<V>, p: Phase<V>)
    requires DbOk(w) && PhaseOk(w, p)
    ensures PhaseOk(Apply(w, st), p)
  {
    DbFrame(w, st);
  }

  lemma LoadStep<V>(w: World<V>, r: RequestId)
    requires AgeInv(w) && r in w.requests && w.requests[r].phase.Querying?
    ensures RequestAt(Apply(w, Step<V>.Query(r)), r)
  {
    assert RequestAt(w, r);
    assert ValueFrom(w.db, |w.db| - 1, w.db[|w.db| - 1].0, w.now);
  }

  lemma ReturnKeeps<V>(w: World<V>, r: RequestId, ok: bool, random: real)
    requires AgeInv(w) && r in w.requests && 0.0 <= random < 1.0
    requires w.requests[r].phase.Querying? || w.requests[r].phase.Queried?
    ensures r in ReturnStep(w, r, ok, random).requests && RequestAt(ReturnStep(w, r, ok, random), r)
  {
    assert RequestAt(w, r);
    TtlInRange(w.cfg.ttlSeconds, w.cfg.jitterSeconds, random);
  }

  lemma LookKeeps<V>(w: World<V>, r: RequestId, ok: bool)
    requires AgeInv(w) && r in w.requests
    ensures r in LookStep(w, r, ok).requests && RequestAt(LookStep(w, r, ok), r)
  {
    assert RequestAt(w, r);
  }

  lemma DecideKeeps<V>(w: World<V>, r: RequestId, refresher: RequestId)
    requires AgeInv(w) && r in w.requests && w.requests[r].phase.Looked?
    ensures r in DecideStep(w, r, refresher).requests && RequestAt(DecideStep(w, r, refresher), r)
  {
    assert RequestAt(w, r);
  }

  lemma StoreKeeps<V>(w: World<V>, r: RequestId, ok: bool)
    requires AgeInv(w) && r in w.requests && w.requests[r].phase.Storing?
    ensures r in StoreStep(w, r, ok).requests && RequestAt(StoreStep(w, r, ok), r)
  {
    assert RequestAt(w, r);
  }

  lemma ReleaseKeeps<V>(w: World<V>, r: RequestId, ok: bool)
    requires AgeInv(w) && r in w.requests && w.requests[r].phase.Releasing?
    ensures r in ReleaseStep(w, r, ok).requests && RequestAt(ReleaseStep(w, r, ok), r)
  {
    assert RequestAt(w, r);
  }

  // A request that moves moves into a phase whose memory is right.
  lemma MoverStep<V>(w: World<V>, st: Step<V>, r: RequestId)
    requires AgeInv(w) && r in w.requests && Mover(st) == Some(r)
    ensures r in Apply(w, st).requests && RequestAt(Apply(w, st), r)
  {
    hide GoodEntry;
    hide LoadedOk;
    hide LookStep;
    hide DecideStep;
    hide ReturnStep;
    hide StoreStep;
    hide ReleaseStep;
    assert RequestAt(w, r);
    match st
    case Look(_, ok) => LookKeeps(w, r, ok);
    case Decide(_, refresher) => if w.requests[r].phase.Looked? { DecideKeeps(w, r, refresher); }
    case Query(_) => if w.requests[r].phase.Querying? { LoadStep(w, r); }
    case Return(_, ok, random) =>
      if (w.requests[r].phase.Querying? || w.requests[r].phase.Queried?) && 0.0 <= random < 1.0 {
        ReturnKeeps(w, r, ok, random);
      }
    case Store(_, ok) => if w.requests[r].phase.Storing? { StoreKeeps(w, r, ok); }
    case Release(_, ok) => if w.requests[r].phase.Releasing? { ReleaseKeeps(w, r, ok); }
    case _ =>
  }

  lemma NewRequest<V>(w: World<V>, st: Step<V>, r: RequestId)
    requires r !in w.requests && r in Apply(w, st).requests
    ensures Apply(w, st).requests[r].phase.Looking? || Apply(w, st).requests[r].phase.Acquiring?
  {
  }

  lemma RequestStep<V>(w: World<V>, st: Step<V>, r: RequestId)
    requires AgeInv(w) && r in Apply(w, st).requests
    ensures RequestAt(Apply(w, st), r)
  {
    hide Apply;
    if r !in w.requests {
      NewRequest(w, st, r);
    } else if Mover(st) == Some(r) {
      MoverStep(w, st, r);
    } else {
      assert RequestAt(w, r);
      OthersStand(w, st, r);
      PhaseKept(w, st, w.requests[r].phase);
    }
  }

  lemma AnswerStep<V>(w: World<V>, st: Step<V>, i: nat)
    requires AgeInv(w) && i < |Apply(w, st).answers|
    ensures AnswerAt(Apply(w, st), i)
  {
    hide Apply;
    DbFrame(w, st);
    AnswersStay(w, st);
    if i < |w.answers| {
      assert AnswerAt(w, i);
      assert Apply(w, st).answers[i] == w.answers[i];
    } else {
      NewAnswer(w, st);
    }
  }

  lemma AnswersStay<V>(w: World<V>, st: Step<V>)
    ensures w.answers <= Apply(w, st).answers
  {
  }

  // Whatever has just been answered is right.
  ghost predicate OneMore<V>(w: World<V>, w': World<V>) {
    |w'.answers| > |w.answers| ==> |w'.answers| == |w.answers| + 1 && AnswerAt(w', |w.answers|)
  }

  lemma DecideAnswers<V>(w: World<V>, r: RequestId, refresher: RequestId)
    requires AgeInv(w) && r in w.requests && w.requests[r].phase.Looked?
    ensures OneMore(w, DecideStep(w, r, refresher))
  {
    assert RequestAt(w, r);
  }

  lemma ReturnAnswers<V>(w: World<V>, r: RequestId, ok: bool, random: real)
    requires AgeInv(w) && r in w.requests && (w.requests[r].phase.Querying? || w.requests[r].phase.Queried?)
    ensures OneMore(w, ReturnStep(w, r, ok, random))
  {
    assert RequestAt(w, r);
  }

  lemma StoreAnswers<V>(w: World<V>, r: RequestId, ok: bool)
    requires AgeInv(w) && r in w.requests && w.requests[r].phase.Storing?
    ensures OneMore(w, StoreStep(w, r, ok))
  {
    assert RequestAt(w, r);
  }

  lemma ReleaseAnswers<V>(w: World<V>, r: RequestId, ok: bool)
    requires AgeInv(w) && r in w.requests && w.requests[r].phase.Releasing?
    ensures OneMore(w, ReleaseStep(w, r, ok))
  {
    assert RequestAt(w, r);
  }

  lemma NewAnswer<V>(w: World<V>, st: Step<V>)
    requires AgeInv(w) && |Apply(w, st).answers| > |w.answers|
    ensures |Apply(w, st).answers| == |w.answers| + 1 && AnswerAt(Apply(w, st), |w.answers|)
  {
    match st
    case Decide(r, refresher) => DecideAnswers(w, r, refresher);
    case PollRead(r, ok) => assert RequestAt(w, r);
    case Return(r, ok, random) => ReturnAnswers(w, r, ok, random);
    case Store(r, ok) => StoreAnswers(w, r, ok);
    case Release(r, ok) => ReleaseAnswers(w, r, ok);
  }

  lemma {:induction false} AgeRun<V>(cfg: Config, v: V, steps: seq<Step<V>>)
    ensures AgeInv(Run(Init(cfg, v), steps)) && Run(Init(cfg, v), steps).cfg == cfg
  {
    if steps == [] {
    } else {
      AgeRun(cfg, v, steps[..|steps| - 1]);
      var w, st := Run(Init(cfg, v), steps[..|steps| - 1]), steps[|steps| - 1];
      DbFrame(w, st);
      EntryStep(w, st);
      forall r | r in Apply(w, st).requests ensures RequestAt(Apply(w, st), r) { RequestStep(w, st, r); }
      forall i: nat | i < |Apply(w, st).answers| ensures AnswerAt(Apply(w, st), i) { AnswerStep(w, st, i); }
    }
  }

  // Bounded staleness, over every interleaving of readers, refreshers, writes, invalidations, lost
  // operations and crashes: whatever getOrLoad answers was the database value at an instant that,
  // when Redis was asked, was no longer ago than the entry's longest life plus the time its load
  // took; a fresh hit is within the freshness alone even when it is handed over, and a caller's own
  // load is no older than the load was long. Negative results are values like any other.
  lemma BoundedStaleness<V>(cfg: Config, v: V, steps: seq<Step<V>>, i: nat)
    requires i < |Run(Init(cfg, v), steps).answers|
    ensures var w := Run(Init(cfg, v), steps);
      var a := w.answers[i];
      var load := a.storedAt - a.begunAt;
      && WasValue(w.db, a.v, a.readAt) && a.begunAt <= a.readAt <= a.storedAt <= a.lookedAt <= a.at
      && (a.source.Own? ==> a.at - a.readAt <= load)
      && (a.source.Hit? ==> a.at - a.readAt <= MaxTtl(cfg.ttlSeconds, cfg.jitterSeconds) * 1000 + load)
      && (a.source.Stale? || a.source.Waited? ==>
            a.lookedAt - a.readAt <= (MaxTtl(cfg.ttlSeconds, cfg.jitterSeconds) + cfg.staleSeconds) * 1000 + load)
  {
    AgeRun(cfg, v, steps);
    assert AnswerAt(Run(Init(cfg, v), steps), i);
  }
}
