/**
 The counting semaphore of a consumer process: a counter, and a queue of waiters to whom a finished
 run hands its permit directly. Every step is one synchronous stretch of code between awaits.
 */
module SemaphoreRuns {
  import opened Arithmetic

  type RunId = nat

  // `available` and `waiters` are the code's fields. The rest is history: the runs that asked, in
  // order, the runs that got a permit, in order, those that ended, and those holding a permit now.
  datatype World = World(permits: nat, available: nat, waiters: seq<RunId>, running: set<RunId>,
                         arrivals: seq<RunId>, served: seq<RunId>, finished: seq<RunId>, strays: nat)

  datatype Step =
    | Start(r: RunId)
    | Finish(r: RunId, threw: bool)
    | Stray  // release() by somebody who holds nothing

  function Init(permits: nat): World {
    World(permits, permits, [], {}, [], [], [], 0)
  }

  function AcquireStep(w: World, r: RunId): World {
    var w' := w.(arrivals := w.arrivals + [r]);
    if w.available > 0 then
      w'.(available := w.available - 1, running := w.running + {r}, served := w.served + [r])
    else
      w'.(waiters := w.waiters + [r])
  }

  function ReleaseStep(w: World): World {
    if w.waiters != [] then
      var next := w.waiters[0];
      w.(waiters := w.waiters[1..], running := w.running + {next}, served := w.served + [next])
    else if w.available < w.permits then w.(available := w.available + 1)
    else w
  }

  // A body that throws gives its permit back like one that returns.
  function Apply(w: World, st: Step): World {
    match st
    case Start(r) => if r in w.arrivals then w else AcquireStep(w, r)
    case Finish(r, _) =>
      if r in w.running then ReleaseStep(w.(running := w.running - {r}, finished := w.finished + [r])) else w
    case Stray => ReleaseStep(w.(strays := w.strays + 1))
  }

  function Run(w: World, steps: seq<Step>): World {
    if steps == [] then w else Apply(Run(w, steps[..|steps| - 1]), steps[|steps| - 1])
  }

  lemma RunSnoc(w: World, steps: seq<Step>, st: Step)
    ensures Run(w, steps + [st]) == Apply(Run(w, steps), st)
  {
    assert (steps + [st])[..|steps|] == steps;
  }

  predicate NoStrays(steps: seq<Step>) {
    Stray !in steps
  }

  // ---------- What holds in every reachable state ----------

  predicate Distinct(s: seq<RunId>) {
    forall i, j :: 0 <= i < j < |s| ==> s[i] != s[j]
  }

  // First come, first served, and nobody waits beside a free permit.
  ghost predicate QueueOk(w: World) {
    && w.served + w.waiters == w.arrivals && Distinct(w.arrivals)
    && w.available <= w.permits && (w.waiters != [] ==> w.available == 0)
  }

  // Permits are neither lost nor made, except by stray releases.
  ghost predicate PermitsOk(w: World) {
    && w.available + |w.running| <= w.permits + w.strays
    && (w.strays == 0 ==> w.available + |w.running| == w.permits)
    && |w.finished| + |w.running| == |w.served|
    && (forall r :: r in w.running ==> r in w.served)
    && (forall r :: r in w.finished ==> r in w.served && r !in w.running)
    && (forall r :: r in w.served ==> r in w.running || r in w.finished)
  }

  lemma FrontOfQueue(w: World)
    requires QueueOk(w) && w.waiters != []
    ensures w.waiters[0] !in w.served && (w.served + [w.waiters[0]]) + w.waiters[1..] == w.arrivals
  {
    var n := |w.served|;
    assert w.arrivals[n] == w.waiters[0];
    forall i | 0 <= i < n ensures w.served[i] != w.waiters[0] { assert w.arrivals[i] == w.served[i]; }
  }

  lemma QueueStep(w: World, st: Step)
    requires QueueOk(w)
    ensures QueueOk(Apply(w, st)) && Apply(w, st).permits == w.permits
  {
    if w.waiters != [] { FrontOfQueue(w); }
    if st.Start? && st.r !in w.arrivals {
      assert Apply(w, st).served + Apply(w, st).waiters == w.arrivals + [st.r];
    }
  }

  lemma ReleasePermits(w: World)
    requires QueueOk(w) && |w.finished| + |w.running| == |w.served|
    requires w.available + |w.running| <= w.permits + w.strays - 1
    requires w.strays == 0 ==> w.available + |w.running| == w.permits - 1
    requires forall r :: r in w.running ==> r in w.served
    requires forall r :: r in w.finished ==> r in w.served && r !in w.running
    requires forall r :: r in w.served ==> r in w.running || r in w.finished
    ensures PermitsOk(ReleaseStep(w))
  {
    if w.waiters != [] { FrontOfQueue(w); }
  }

  lemma PermitsStep(w: World, st: Step)
    requires QueueOk(w) && PermitsOk(w)
    ensures PermitsOk(Apply(w, st))
  {
    match st
    case Start(r) =>
      if r !in w.arrivals {
        assert r !in w.served by { assert forall i :: 0 <= i < |w.served| ==> w.arrivals[i] == w.served[i]; }
      }
    case Finish(r, _) =>
      if r in w.running {
        ReleasePermits(w.(running := w.running - {r}, finished := w.finished + [r]));
      }
    case Stray => ReleasePermits(w.(strays := w.strays + 1));
  }

  lemma {:induction false} QueueRun(permits: nat, steps: seq<Step>)
    ensures QueueOk(Run(Init(permits), steps)) && Run(Init(permits), steps).permits == permits
  {
    if steps == [] {
    } else {
      QueueRun(permits, steps[..|steps| - 1]);
      QueueStep(Run(Init(permits), steps[..|steps| - 1]), steps[|steps| - 1]);
    }
  }

  lemma {:induction false} PermitsRun(permits: nat, steps: seq<Step>)
    ensures PermitsOk(Run(Init(permits), steps))
  {
    if steps == [] {
    } else {
      QueueRun(permits, steps[..|steps| - 1]);
      PermitsRun(permits, steps[..|steps| - 1]);
      PermitsStep(Run(Init(permits), steps[..|steps| - 1]), steps[|steps| - 1]);
    }
  }

  lemma {:induction false} StraysCounted(permits: nat, steps: seq<Step>)
    requires NoStrays(steps)
    ensures Run(Init(permits), steps).strays == 0
  {
    if steps == [] {
    } else {
      assert steps[|steps| - 1] in steps;
      StraysCounted(permits, steps[..|steps| - 1]);
    }
  }

  lemma InvRun(permits: nat, steps: seq<Step>)
    ensures var w := Run(Init(permits), steps);
      QueueOk(w) && PermitsOk(w) && w.permits == permits && (NoStrays(steps) ==> w.strays == 0)
  {
    QueueRun(permits, steps);
    PermitsRun(permits, steps);
    if NoStrays(steps) { StraysCounted(permits, steps); }
  }

  // A run has not come, waits, runs, or has ended.
  lemma RunIsSomewhere(permits: nat, steps: seq<Step>, r: RunId)
    ensures var w := Run(Init(permits), steps);
      && (r in w.arrivals ==> r in w.waiters || r in w.running || r in w.finished)
      && (r !in w.arrivals ==> r !in w.finished)
      && (r in w.finished ==> r !in w.running)
  {
    InvRun(permits, steps);
    var w := Run(Init(permits), steps);
    assert w.arrivals == w.served + w.waiters;
  }

  // Over every sequence of runs, bodies that throw included: free permits plus permits held are all
  // the permits, at most that many bodies run at once, and a queue means no permit is free.
  lemma PermitsConserved(permits: nat, steps: seq<Step>)
    requires NoStrays(steps)
    ensures var w := Run(Init(permits), steps);
      w.available + |w.running| == permits && |w.running| <= permits && (w.waiters != [] ==> w.available == 0)
  {
    InvRun(permits, steps);
  }

  // Who has been served is exactly the first arrivals, as many as the permits and the ended runs
  // allow; who runs is who has been served and has not ended.
  ghost predicate ServedFirstCome(w: World) {
    var n := Min(|w.arrivals|, w.permits + |w.finished|);
    && w.served == w.arrivals[..n] && w.waiters == w.arrivals[n..]
    && forall r :: r in w.running <==> r in w.served && r !in w.finished
  }

  // So waiters are served in arrival order, none is passed over, none is served early, and a permit
  // given back is never lost.
  lemma {:induction false} ServedExactly(permits: nat, steps: seq<Step>)
    requires NoStrays(steps)
    ensures ServedFirstCome(Run(Init(permits), steps)) && Run(Init(permits), steps).permits == permits
  {
    InvRun(permits, steps);
    ServedShape(Run(Init(permits), steps));
  }

  lemma ServedShape(w: World)
    requires QueueOk(w) && PermitsOk(w) && w.strays == 0
    ensures ServedFirstCome(w)
  {
    assert |w.arrivals| == |w.served| + |w.waiters|;
    assert w.served == w.arrivals[..|w.served|] && w.waiters == w.arrivals[|w.served|..];
  }

  // When every run that asked has ended, every permit is back and nobody is waiting.
  lemma AllPermitsReturn(permits: nat, steps: seq<Step>)
    requires permits >= 1 && NoStrays(steps)
    requires var w := Run(Init(permits), steps);
      w.running == {}
    ensures var w := Run(Init(permits), steps);
      w.available == permits && w.waiters == [] && w.served == w.arrivals
      && multiset(w.finished) == multiset(w.arrivals)
  {
    InvRun(permits, steps);
    FinishedOnce(permits, steps);
    var w := Run(Init(permits), steps);
    assert w.served == w.arrivals;
    SameElements(w.finished, w.arrivals);
  }

  lemma {:induction false} FinishedOnce(permits: nat, steps: seq<Step>)
    ensures Distinct(Run(Init(permits), steps).finished)
  {
    if steps == [] {
    } else {
      FinishedOnce(permits, steps[..|steps| - 1]);
      InvRun(permits, steps[..|steps| - 1]);
    }
  }

  lemma {:induction false} OccursOnce(s: seq<RunId>, r: RunId)
    requires Distinct(s)
    ensures multiset(s)[r] == if r in s then 1 else 0
  {
    if s == [] {
    } else {
      var n := |s| - 1;
      assert s == s[..n] + [s[n]];
      OccursOnce(s[..n], r);
    }
  }

  lemma SameElements(a: seq<RunId>, b: seq<RunId>)
    requires Distinct(a) && Distinct(b) && forall r :: r in a <==> r in b
    ensures multiset(a) == multiset(b)
  {
    forall r ensures multiset(a)[r] == multiset(b)[r] {
      OccursOnce(a, r);
      OccursOnce(b, r);
    }
  }

  // Stray releases cannot push the counter past the permits or break the order of service, and each
  // lets at most one body too many run.
  lemma StraysAreBounded(permits: nat, steps: seq<Step>)
    ensures var w := Run(Init(permits), steps);
      && w.available <= permits && |w.running| <= permits + w.strays
      && w.served + w.waiters == w.arrivals && (w.waiters != [] ==> w.available == 0)
  {
    InvRun(permits, steps);
  }

  // And one does, if it comes while a run is waiting.
  lemma StrayOverruns(permits: nat, steps: seq<Step>)
    requires NoStrays(steps) && Run(Init(permits), steps).waiters != []
    ensures |Run(Init(permits), steps + [Stray]).running| == permits + 1
  {
    InvRun(permits, steps);
    RunSnoc(Init(permits), steps, Stray);
    FrontOfQueue(Run(Init(permits), steps));
  }
}
