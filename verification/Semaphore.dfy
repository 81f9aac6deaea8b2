/**
 The semaphore object. At every await the next burst of the schedule (the other runs of the process)
 happens; what a method does itself is proved to be one run's steps of module SemaphoreRuns.
 */
module Semaphores {
  import opened SemaphoreRuns
  import opened Wrappers

  datatype Outcome = Returned | Threw | Pending

  class Semaphore {
    const permits: nat
    var available: nat
    var waiters: seq<RunId>
    // History, and what the other runs of the process do at each await.
    var running: set<RunId>
    var arrivals: seq<RunId>
    var served: seq<RunId>
    var finished: seq<RunId>
    var strays: nat
    var schedule: seq<seq<Step>>
    ghost var trace: seq<Step>

    constructor (permits: nat, schedule: seq<seq<Step>>)
      ensures Valid() && trace == [] && this.permits == permits && this.schedule == schedule
    {
      this.permits, this.schedule, available, waiters := permits, schedule, permits, [];
      running, arrivals, served, finished, strays, trace := {}, [], [], [], 0, [];
    }

    // A semaphore needs at least one permit; a smaller number is refused with null.
    static method Make(permits: int, schedule: seq<seq<Step>>) returns (s: Semaphore?)
      ensures s == null <==> permits < 1
      ensures s != null ==> fresh(s) && s.Valid() && s.permits == permits && s.trace == [] && s.schedule == schedule
    {
      if permits < 1 { return null; }
      s := new Semaphore(permits, schedule);
    }

    function State(): World
      reads this
    {
      World(permits, available, waiters, running, arrivals, served, finished, strays)
    }

    ghost predicate Valid()
      reads this
    {
      State() == SemaphoreRuns.Run(Init(permits), trace)
    }

    function InFlight(): int
      reads this
    {
      permits - available
    }

    function Queued(): nat
      reads this
    {
      |waiters|
    }

    ghost predicate NotMine(r: RunId)
      reads this
    {
      forall env, st :: env in schedule && st in env ==> st != Start(r) && !(st.Finish? && st.r == r)
    }

    ghost method Record(st: Step)
      requires State() == Apply(SemaphoreRuns.Run(Init(permits), trace), st)
      modifies this`trace
      ensures Valid() && trace == old(trace) + [st]
    {
      RunSnoc(Init(permits), trace, st);
      trace := trace + [st];
    }

    // Takes a free permit, or joins the queue.
    method Acquire(r: RunId) returns (granted: bool)
      requires Valid() && r !in arrivals
      modifies this`available, this`waiters, this`running, this`arrivals, this`served, this`trace
      ensures Valid() && trace == old(trace) + [Start(r)] && State() == AcquireStep(old(State()), r)
      ensures granted <==> old(available) > 0
    {
      hide SemaphoreRuns.Run;
      ghost var w := State();
      arrivals := arrivals + [r];
      granted := available > 0;
      if granted {
        available := available - 1;
        running, served := running + {r}, served + [r];
      } else {
        waiters := waiters + [r];
      }
      assert State() == Apply(w, Start(r));
      Record(Start(r));
    }

    // Hands the permit to the longest waiter, or puts it back. `ended` is the run giving it up.
    method Release(ended: Option<RunId>, ghost threw: bool)
      requires Valid() && (ended.Some? ==> ended.value in running)
      modifies this`available, this`waiters, this`running, this`served, this`finished, this`strays, this`trace
      ensures Valid()
      ensures trace == old(trace) + [if ended.Some? then Finish(ended.value, threw) else Stray]
      ensures waiters == if old(waiters) == [] then [] else old(waiters)[1..]
      ensures available == if old(waiters) == [] && old(available) < permits then old(available) + 1 else old(available)
      ensures ended.Some? ==> finished == old(finished) + [ended.value]
    {
      hide SemaphoreRuns.Run;
      ghost var w := State();
      if ended.Some? {
        running, finished := running - {ended.value}, finished + [ended.value];
      } else {
        strays := strays + 1;
      }
      if |waiters| > 0 {
        var next := waiters[0];
        waiters := waiters[1..];
        running, served := running + {next}, served + [next];
      } else if available < permits {
        available := available + 1;
      }
      assert State() == Apply(w, if ended.Some? then Finish(ended.value, threw) else Stray);
      Record(if ended.Some? then Finish(ended.value, threw) else Stray);
    }

    method Interleave(st: Step)
      requires Valid()
      modifies this`available, this`waiters, this`running, this`arrivals, this`served, this`finished, this`strays,
               this`trace
      ensures Valid() && trace == old(trace) + [st] && State() == Apply(old(State()), st)
    {
      hide SemaphoreRuns.Run;
      hide Apply;
      var w := Apply(State(), st);
      PermitsStay(State(), st);
      available, waiters, running, arrivals, served, finished, strays :=
        w.available, w.waiters, w.running, w.arrivals, w.served, w.finished, w.strays;
      Record(st);
    }

    // An await of run r.
    method Yield(r: RunId)
      requires Valid() && NotMine(r) && r in arrivals && r !in finished
      modifies this
      ensures Valid() && NotMine(r) && r in arrivals && r !in finished && old(trace) <= trace
      ensures r in old(running) ==> r in running
      ensures |schedule| == if old(schedule) == [] then 0 else |old(schedule)| - 1
    {
      hide SemaphoreRuns.Run;
      hide Apply;
      if schedule == [] { return; }
      var env := schedule[0];
      var i := 0;
      while i < |env|
        invariant 0 <= i <= |env| && schedule == old(schedule)
        invariant Valid() && NotMine(r) && r in arrivals && r !in finished && old(trace) <= trace
        invariant r in old(running) ==> r in running
      {
        assert env in schedule && env[i] in env;
        OthersStay(State(), env[i], r);
        Interleave(env[i]);
        i := i + 1;
      }
      schedule := schedule[1..];
    }

    // Runs a body under a permit; `fails` says whether it throws. Pending means the schedule ended
    // with the run still in the queue.
    method Run(r: RunId, fails: bool) returns (outcome: Outcome)
      requires Valid() && NotMine(r) && r !in arrivals
      modifies this
      ensures Valid() && NotMine(r) && old(trace) <= trace
      ensures outcome.Pending? ==> r in waiters && r !in finished && schedule == []
      ensures old(available) > 0 ==> !outcome.Pending?
      ensures !outcome.Pending? ==>
        r in finished && r !in running && (outcome.Threw? <==> fails) && trace[|trace| - 1] == Finish(r, fails)
    {
      hide SemaphoreRuns.Run;
      hide Apply;
      RunIsSomewhere(permits, trace, r);
      var granted := Acquire(r);
      outcome := Pending;
      while r !in running && schedule != []
        invariant Valid() && NotMine(r) && r in arrivals && r !in finished && old(trace) <= trace
        invariant old(available) > 0 ==> r in running
        decreases |schedule|
      {
        Yield(r);
      }
      RunIsSomewhere(permits, trace, r);
      if r !in running { return; }
      Yield(r);
      Release(Some(r), fails);
      RunIsSomewhere(permits, trace, r);
      outcome := if fails then Threw else Returned;
    }
  }

  lemma PermitsStay(w: World, st: Step)
    ensures Apply(w, st).permits == w.permits
  {
  }

  lemma OthersStay(w: World, st: Step, r: RunId)
    requires r in w.arrivals && r !in w.finished && !(st.Finish? && st.r == r)
    ensures r in Apply(w, st).arrivals && r !in Apply(w, st).finished
    ensures r in w.running ==> r in Apply(w, st).running
  {
  }
}
