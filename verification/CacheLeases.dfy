/** Single flight: who loads, and when two loads may overlap. */
module CacheLeases {
  import opened Cache
  import opened Leases
  import opened Wrappers

  // The lease a request is working under, until when.
  function Under<V>(p: Phase<V>): Option<int> {
    match p
    case Querying(mode, _) => if mode.Leased? then Some(mode.until) else None
    case Queried(mode, _) => if mode.Leased? then Some(mode.until) else None
    case Storing(mode, _, _, _) => if mode.Leased? then Some(mode.until) else None
    case Releasing(until, _) => Some(until)
    case _ => None
  }

  predicate Loads<V>(p: Phase<V>) {
    p.Querying? || p.Queried? || p.Storing?
  }

  function ModeOf<V>(p: Phase<V>): Mode
    requires Loads(p)
  {
    match p
    case Querying(mode, _) => mode
    case Queried(mode, _) => mode
    case Storing(mode, _, _, _) => mode
  }

  // Whoever works under a lease that has not run out is the one the lock names.
  ghost predicate LeaseAt<V>(w: World<V>, r: RequestId)
    requires r in w.requests
  {
    var p := w.requests[r].phase;
    && (Under(p).Some? && w.now <= Under(p).value ==> w.lease == Some(Lease(r, Under(p).value)))
    && (Loads(p) && w.cfg.enabled && w.cfg.protection ==> ModeOf(p).Leased? || ModeOf(p).Fallback?)
    && (Loads(p) && ModeOf(p).Fallback? ==> ModeOf(p).deadline <= w.now)
  }

  ghost predicate LeaseInv<V>(w: World<V>) {
    forall r {:trigger LeaseAt(w, r)} :: r in w.requests ==> LeaseAt(w, r)
  }

  lemma AcquireLease<V>(w: World<V>, r: RequestId)
    requires r in w.requests && LeaseAt(w, r)
    ensures r in AcquireStep(w, r).requests && LeaseAt(AcquireStep(w, r), r)
  {
  }

  lemma DecideLease<V>(w: World<V>, r: RequestId, refresher: RequestId)
    requires r in w.requests && LeaseAt(w, r) && w.requests[r].phase.Looked?
    ensures r in DecideStep(w, r, refresher).requests && LeaseAt(DecideStep(w, r, refresher), r)
  {
  }

  lemma ReturnLease<V>(w: World<V>, r: RequestId, ok: bool, random: real)
    requires r in w.requests && LeaseAt(w, r) && (w.requests[r].phase.Querying? || w.requests[r].phase.Queried?)
    ensures r in ReturnStep(w, r, ok, random).requests && LeaseAt(ReturnStep(w, r, ok, random), r)
  {
  }

  lemma StoreLease<V>(w: World<V>, r: RequestId, ok: bool)
    requires r in w.requests && LeaseAt(w, r) && w.requests[r].phase.Storing?
    ensures r in StoreStep(w, r, ok).requests && LeaseAt(StoreStep(w, r, ok), r)
  {
  }

  lemma OwnLease<V>(w: World<V>, st: Step<V>, r: RequestId)
    requires r in w.requests && LeaseAt(w, r) && Mover(st) == Some(r)
    ensures r in Apply(w, st).requests && LeaseAt(Apply(w, st), r)
  {
    hide AcquireStep;
    hide DecideStep;
    hide ReturnStep;
    hide StoreStep;
    match st
    case Acquire(_) => AcquireLease(w, r);
    case Decide(_, refresher) => if w.requests[r].phase.Looked? { DecideLease(w, r, refresher); }
    case Return(_, ok, random) =>
      if w.requests[r].phase.Querying? || w.requests[r].phase.Queried? { ReturnLease(w, r, ok, random); }
    case Store(_, ok) => if w.requests[r].phase.Storing? { StoreLease(w, r, ok); }
    case _ =>
  }

  lemma OthersLease<V>(w: World<V>, st: Step<V>, r: RequestId)
    requires r in w.requests && LeaseAt(w, r) && Mover(st) != Some(r)
    ensures r in Apply(w, st).requests && LeaseAt(Apply(w, st), r)
  {
    OthersStand(w, st, r);
    Outer(w, st);
    if Live(w.lease, w.now) && w.lease.value.token == r { LeaseStandsStep(w, st); }
  }

  lemma LeaseStep<V>(w: World<V>, st: Step<V>, r: RequestId)
    requires LeaseInv(w) && r in Apply(w, st).requests
    ensures LeaseAt(Apply(w, st), r)
  {
    if r in w.requests {
      assert LeaseAt(w, r);
      if Mover(st) == Some(r) { OwnLease(w, st, r); } else { OthersLease(w, st, r); }
    }
  }

  lemma {:induction false} LeaseRun<V>(cfg: Config, v: V, steps: seq<Step<V>>)
    ensures LeaseInv(Run(Init(cfg, v), steps)) && Run(Init(cfg, v), steps).cfg == cfg
  {
    hide Apply;
    hide LeaseAt;
    if steps == [] {
    } else {
      LeaseRun(cfg, v, steps[..|steps| - 1]);
      var w, st := Run(Init(cfg, v), steps[..|steps| - 1]), steps[|steps| - 1];
      Outer(w, st);
      forall r | r in Apply(w, st).requests ensures LeaseAt(Apply(w, st), r) { LeaseStep(w, st, r); }
    }
  }

  // Why a load is not covered by a live lease: it outlived it, or it is a waiter's last resort.
  ghost predicate Excused<V>(w: World<V>, r: RequestId)
    requires r in w.requests && Loads(w.requests[r].phase)
  {
    match ModeOf(w.requests[r].phase)
    case Leased(until) => w.now > until
    case Fallback(deadline) => w.now >= deadline
    case _ => false
  }

  // With protection on, two loads of the key overlap only if one of them is excused.
  lemma LoadsOverlapOnlyIfExcused<V>(cfg: Config, v: V, steps: seq<Step<V>>, r: RequestId, q: RequestId)
    requires cfg.enabled && cfg.protection && r != q
    requires var w := Run(Init(cfg, v), steps);
      r in w.requests && q in w.requests && Loads(w.requests[r].phase) && Loads(w.requests[q].phase)
    ensures var w := Run(Init(cfg, v), steps);
      Excused(w, r) || Excused(w, q)
  {
    LeaseRun(cfg, v, steps);
    var w := Run(Init(cfg, v), steps);
    assert LeaseAt(w, r) && LeaseAt(w, q);
  }

  predicate ReleasesFor<V>(st: Step<V>, holder: Token) {
    st.Release? && st.r == holder
  }

  lemma LeaseStandsStep<V>(w: World<V>, st: Step<V>)
    requires Live(w.lease, w.now) && !ReleasesFor(st, w.lease.value.token)
    ensures Apply(w, st).lease == w.lease && Apply(w, st).now >= w.now
  {
    if st.Release? { ReleaseSparesOthers(w.lease, st.r, w.now); }
  }

  // Until it runs out, a lease stands through anything the others do, late releases of earlier
  // holders included: only its own holder's release ends it.
  lemma {:induction false} LeaseStands<V>(w: World<V>, steps: seq<Step<V>>)
    requires Live(w.lease, w.now) && Run(w, steps).now <= w.lease.value.expireAt
    requires forall st :: st in steps ==> !ReleasesFor(st, w.lease.value.token)
    ensures Run(w, steps).lease == w.lease && Run(w, steps).now >= w.now
  {
    if steps == [] {
    } else {
      var before, last := steps[..|steps| - 1], steps[|steps| - 1];
      Outer(Run(w, before), last);
      LeaseStands(w, before);
      LeaseStandsStep(Run(w, before), last);
    }
  }
}
