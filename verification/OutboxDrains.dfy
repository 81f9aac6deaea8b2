/** Draining the outbox: no pending row is stuck, and draining terminates. */
module OutboxDrains {
  import opened Arithmetic
  import opened Outbox
  import B = Bookings

  // ---------- No pending row is stuck ----------

  // A pending row that is due and that nobody holds goes out with the next drain that takes it.
  lemma DueRowGoesOut(w: World, r: RelayId, t: RowId)
    requires Inv(w) && w.cfg.batchSize >= 1 && r !in w.relays
    requires t in w.db.outbox && w.db.outbox[t].status.Pending? && w.db.outbox[t].availableAt <= w.db.now
    requires forall q :: q in w.relays ==> t !in w.relays[q].rows
    ensures var v := Apply(Apply(Apply(w, Poll(r, [t])), Publish(r, true, [])), Mark(r));
      && t in v.db.outbox && v.db.outbox[t] == w.db.outbox[t].(status := B.Published)
      && Message(t, w.db.outbox[t]) in v.log
  {
    assert MayPoll(w, r, [t]);
    var w1 := Apply(w, Poll(r, [t]));
    InvStep(w, Poll(r, [t]));
    PublishEffect(w1, r, true, []);
    var w2 := Apply(w1, Publish(r, true, []));
    InvStep(w1, Publish(r, true, []));
    assert HeldAt(w2, r, t);
    MarkedAt(w2, r, t);
  }

  // So from every state that is ever reached each pending row can still go out: whoever holds it
  // dies, its backoff passes, and a relay drains it.
  lemma {:induction false} PendingRowCanGoOut(db: B.Config, cfg: Config, before: seq<Step>, t: RowId)
    returns (more: seq<Step>)
    requires cfg.batchSize >= 1
    requires var w := Run(Init(db, cfg), before); t in w.db.outbox && w.db.outbox[t].status.Pending?
    ensures var w := Run(Init(db, cfg), before);
      var v := Run(w, more);
      && t in v.db.outbox && v.db.outbox[t] == w.db.outbox[t].(status := B.Published)
      && Message(t, w.db.outbox[t]) in v.log
  {
    InvRun(Init(db, cfg), before);
    CfgRun(Init(db, cfg), before);
    var w := Run(Init(db, cfg), before);
    var free;
    more, free := LetGo(w, t);
    var ms := Max(0, free.db.outbox[t].availableAt - free.db.now);
    var due := Apply(free, Sale(B.Tick(ms)));
    assert due == free.(db := free.db.(now := free.db.now + ms));
    RunSnoc(w, more, Sale(B.Tick(ms)));
    more := more + [Sale(B.Tick(ms))];
    InvStep(free, Sale(B.Tick(ms)));
    var r := SpareId(due.relays.Keys);
    assert r !in due.relays.Keys;
    DueRowGoesOut(due, r, t);
    RunThree(w, more, Poll(r, [t]), Publish(r, true, []), Mark(r));
    more := more + [Poll(r, [t]), Publish(r, true, []), Mark(r)];
  }

  // Whoever holds the row dies.
  lemma LetGo(w: World, t: RowId) returns (more: seq<Step>, v: World)
    requires Inv(w) && t in w.db.outbox
    ensures v == Run(w, more) && Inv(v) && v.db == w.db && v.cfg == w.cfg
    ensures forall q :: q in v.relays ==> t !in v.relays[q].rows
  {
    more, v := [], w;
    if q :| q in w.relays && t in w.relays[q].rows {
      assert HeldAt(w, q, t);
      more, v := [Crash(q)], Apply(w, Crash(q));
      RunSnoc(w, [], Crash(q));
      assert [] + [Crash(q)] == more;
      InvStep(w, Crash(q));
    }
  }

  lemma RunThree(w: World, steps: seq<Step>, a: Step, b: Step, c: Step)
    ensures Run(w, steps + [a, b, c]) == Apply(Apply(Apply(Run(w, steps), a), b), c)
  {
    hide Run;
    hide Apply;
    RunSnoc(w, steps, a);
    RunSnoc(w, steps + [a], b);
    RunSnoc(w, steps + [a] + [b], c);
    assert steps + [a] + [b] + [c] == steps + [a, b, c];
  }

  // ---------- Draining terminates ----------

  // Failed drains a row can still survive.
  function Weight(w: World, t: RowId): int {
    if t in w.db.outbox && w.db.outbox[t].status.Pending? then Limit(w.cfg) - w.db.outbox[t].attempts else 0
  }

  function Potential(w: World, n: nat): int
    requires n <= |w.db.bookings|
  {
    if n == 0 then 0 else Potential(w, n - 1) + Weight(w, w.db.bookings[n - 1].id)
  }

  function Backlog(w: World): int {
    Potential(w, |w.db.bookings|)
  }

  lemma {:induction false} PotentialDrops(w: World, v: World, n: nat, k: nat)
    requires w.db.bookings == v.db.bookings && n <= |w.db.bookings|
    requires forall i :: 0 <= i < n ==> Weight(v, w.db.bookings[i].id) <= Weight(w, w.db.bookings[i].id)
    ensures Potential(v, n) <= Potential(w, n)
    ensures k < n && Weight(v, w.db.bookings[k].id) < Weight(w, w.db.bookings[k].id) ==>
      Potential(v, n) < Potential(w, n)
  {
    if n > 0 { PotentialDrops(w, v, n - 1, k); }
  }

  lemma {:induction false} PotentialNonNegative(w: World, n: nat)
    requires Inv(w) && n <= |w.db.bookings|
    ensures Potential(w, n) >= 0
    ensures Potential(w, n) == 0 ==> forall i :: 0 <= i < n ==> Weight(w, w.db.bookings[i].id) == 0
  {
    if n > 0 {
      PotentialNonNegative(w, n - 1);
      if w.db.bookings[n - 1].id in w.db.outbox { assert RowAt(w, w.db.bookings[n - 1].id); }
    }
  }

  predicate Sells(w: World, st: Step) {
    st.Sale? && B.Commits(w.db, st.st)
  }

  lemma WeightStep(w: World, st: Step, t: RowId)
    requires Inv(w) && !Sells(w, st)
    ensures Weight(Apply(w, st), t) <= Weight(w, t)
    ensures MayMark(w, st) && t in w.relays[st.r].rows ==> Weight(Apply(w, st), t) < Weight(w, t)
  {
    hide Apply;
    CfgStep(w, st);
    if t !in w.db.outbox {
      NoNewRow(w, st, t);
      if MayMark(w, st) && t in w.relays[st.r].rows { assert HeldAt(w, st.r, t); }
    } else {
      assert RowAt(w, t);
      RowStep(w, st, t);
      if MayMark(w, st) && t in w.relays[st.r].rows {
        assert HeldAt(w, st.r, t);
        MarkedAt(w, st.r, t);
      }
    }
  }

  lemma NoNewRow(w: World, st: Step, t: RowId)
    requires Inv(w) && !Sells(w, st) && t !in w.db.outbox
    ensures t !in Apply(w, st).db.outbox
  {
    if st.Sale? { SaleEffect(w.db, st.st); }
  }

  lemma BacklogStep(w: World, st: Step)
    requires Inv(w) && !Sells(w, st)
    ensures Apply(w, st).db.bookings == w.db.bookings
    ensures Backlog(Apply(w, st)) <= Backlog(w) - if MayMark(w, st) then 1 else 0
  {
    var v := Apply(w, st);
    if st.Sale? { PairedSale(w.db, st.st); }
    var n := |w.db.bookings|;
    forall t { WeightStep(w, st, t); }
    PotentialDrops(w, v, n, 0);
    if MayMark(w, st) {
      var t := w.relays[st.r].rows[0];
      assert HeldAt(w, st.r, t);
      var k :| 0 <= k < n && w.db.bookings[k].id == t;
      PotentialDrops(w, v, n, k);
    }
  }

  function Drains(w: World, steps: seq<Step>): nat {
    if steps == [] then 0
    else
      var before := steps[..|steps| - 1];
      Drains(w, before) + if MayMark(Run(w, before), steps[|steps| - 1]) then 1 else 0
  }

  ghost predicate Quiet(w: World, steps: seq<Step>) {
    forall k :: 0 <= k < |steps| ==> !Sells(Run(w, steps[..k]), steps[k])
  }

  lemma {:induction false} DrainingLowersBacklog(w: World, steps: seq<Step>)
    requires Inv(w) && Quiet(w, steps)
    ensures var v := Run(w, steps);
      v.db.bookings == w.db.bookings && Inv(v) && Backlog(v) <= Backlog(w) - Drains(w, steps)
  {
    InvRun(w, steps);
    if steps != [] {
      var before := steps[..|steps| - 1];
      assert forall k :: 0 <= k < |before| ==> before[..k] == steps[..k];
      DrainingLowersBacklog(w, before);
      assert steps[..|steps| - 1] == before;
      BacklogStep(Run(w, before), steps[|steps| - 1]);
    }
  }

  // While nothing new is sold, every committed drain of a non-empty batch lowers the backlog by at
  // least one, so at most Backlog(w) drains can commit, and once that many have, every row has
  // reached a terminal status.
  lemma {:induction false} EveryRowSettles(db: B.Config, cfg: Config, before: seq<Step>, steps: seq<Step>)
    requires Quiet(Run(Init(db, cfg), before), steps)
    ensures var w := Run(Init(db, cfg), before);
      var v := Run(w, steps);
      && Drains(w, steps) <= Backlog(w) - Backlog(v) && Backlog(v) >= 0
      && (Backlog(v) == 0 <==> forall t :: t in v.db.outbox ==> !v.db.outbox[t].status.Pending?)
  {
    var w := Run(Init(db, cfg), before);
    InvRun(Init(db, cfg), before);
    DrainingLowersBacklog(w, steps);
    var v := Run(w, steps);
    PotentialNonNegative(v, |v.db.bookings|);
    forall t | t in v.db.outbox && Backlog(v) == 0 ensures !v.db.outbox[t].status.Pending? {
      var k :| 0 <= k < |v.db.bookings| && v.db.bookings[k].id == t;
      assert Weight(v, v.db.bookings[k].id) == 0 && RowAt(v, t);
    }
    if forall t :: t in v.db.outbox ==> !v.db.outbox[t].status.Pending? {
      NothingPending(v, |v.db.bookings|);
    }
  }

  lemma {:induction false} NothingPending(w: World, n: nat)
    requires n <= |w.db.bookings| && forall t :: t in w.db.outbox ==> !w.db.outbox[t].status.Pending?
    ensures Potential(w, n) == 0
  {
    if n > 0 { NothingPending(w, n - 1); }
  }
}
