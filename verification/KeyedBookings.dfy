/**
 Booking requests with idempotency keys, end to end: the key table around the booking transaction.
 A request whose claim lets it proceed runs one transaction of the booking machine; its commit makes
 the booking row and the seat update visible and is, for the key, the booking that counts.
 */
module KeyedBookings {
  import opened Wrappers
  import B = Bookings
  import L = LockedBookings
  import I = Idempotency

  // A request's number also names its transaction.
  datatype World = World(keys: I.World, db: B.Db)

  datatype Step =
    | Key(k: I.Step)
    | Enter(r: I.RequestId, e: B.EventId, user: string, quantity: int, strategy: B.Strategy)
    | Act(r: I.RequestId, verb: B.Verb)
    | Reply(r: I.RequestId)
    | Throw(r: I.RequestId, code: int)
    | Die(r: I.RequestId)
    | Other(st: B.Step)

  function Init(cfg: B.Config): World {
    World(I.Init(), B.Init(cfg))
  }

  predicate Confirmed(db: B.Db, r: I.RequestId) {
    r in db.txs && db.txs[r].phase.Done? && db.txs[r].phase.outcome.Confirmed?
  }

  // What a step does to the key table and its requests, if anything. A handler throws when its
  // transaction did not go through; only the naive strategy can throw after its commit.
  function OnKeys(w: World, st: Step): Option<I.Step> {
    match st
    case Key(k) =>
      if k.Call? || k.Insert? || k.Lookup? || k.Complete? || k.Release? || k.Sweep? || k.Tick? then Some(k) else None
    case Act(r, verb) =>
      if I.In(w.keys, r, I.Working) && B.Commits(w.db, B.Act(r, verb)) then Some(I.Commit(r)) else None
    case Reply(r) => if Confirmed(w.db, r) then Some(I.Respond(r)) else None
    case Throw(r, code) =>
      if !Confirmed(w.db, r) then Some(I.Fail(r, code))
      else if w.db.txs[r].strategy.Naive? then Some(I.ThrowLate(r, code))
      else None
    case Die(r) => Some(I.Crash(r))
    case _ => None
  }

  // What it does to the database. A handler that throws and a process that
  // dies take their open transaction with them.
  function OnDb(w: World, st: Step): Option<B.Step> {
    match st
    case Enter(r, e, user, quantity, strategy) =>
      if I.In(w.keys, r, I.Working) then Some(B.Begin(r, e, user, quantity, strategy, w.keys.requests[r].key)) else None
    case Act(r, verb) => if I.In(w.keys, r, I.Working) then Some(B.Act(r, verb)) else None
    case Throw(r, _) => Some(B.Act(r, B.Abort))
    case Die(r) => Some(B.Act(r, B.Abort))
    case Other(b) => if b.CreateEvent? || b.Tick? then Some(b) else None
    case _ => None
  }

  function Apply(w: World, st: Step): World {
    World(if OnKeys(w, st).Some? then I.Apply(w.keys, OnKeys(w, st).value) else w.keys,
          if OnDb(w, st).Some? then B.Apply(w.db, OnDb(w, st).value) else w.db)
  }

  function Run(w: World, steps: seq<Step>): World {
    if steps == [] then w else Apply(Run(w, steps[..|steps| - 1]), steps[|steps| - 1])
  }

  // ---------- The two halves of a run ----------

  function AsSeq<T>(o: Option<T>): seq<T> {
    if o.Some? then [o.value] else []
  }

  function KeySteps(w: World, steps: seq<Step>): seq<I.Step> {
    if steps == [] then []
    else KeySteps(w, steps[..|steps| - 1]) + AsSeq(OnKeys(Run(w, steps[..|steps| - 1]), steps[|steps| - 1]))
  }

  function DbSteps(w: World, steps: seq<Step>): seq<B.Step> {
    if steps == [] then []
    else DbSteps(w, steps[..|steps| - 1]) + AsSeq(OnDb(Run(w, steps[..|steps| - 1]), steps[|steps| - 1]))
  }

  lemma {:induction false} HalvesOf(w: World, steps: seq<Step>)
    ensures Run(w, steps).keys == I.Run(w.keys, KeySteps(w, steps))
    ensures Run(w, steps).db == B.Run(w.db, DbSteps(w, steps))
  {
    if steps == [] {
    } else {
      var before, last := steps[..|steps| - 1], steps[|steps| - 1];
      HalvesOf(w, before);
      var v := Run(w, before);
      if OnKeys(v, last).Some? { I.RunSnoc(w.keys, KeySteps(w, before), OnKeys(v, last).value); }
      if OnDb(v, last).Some? { B.RunSnoc(w.db, DbSteps(w, before), OnDb(v, last).value); }
      assert KeySteps(w, before) + [] == KeySteps(w, before) && DbSteps(w, before) + [] == DbSteps(w, before);
    }
  }

  // ---------- The conditions ----------

  // No handler uses the naive strategy.
  ghost predicate Locked(steps: seq<Step>) {
    forall st :: st in steps && st.Enter? ==> !st.strategy.Naive?
  }

  // No request reads a row that is gone, and no row is swept while its owner is at work.
  ghost predicate RowsStay(w: World, steps: seq<Step>) {
    steps == [] ||
    (RowsStay(w, steps[..|steps| - 1])
     && var last := steps[|steps| - 1];
     last.Key? && (last.k.Lookup? || last.k.Sweep?) ==> !I.Hazard(Run(w, steps[..|steps| - 1]).keys, last.k))
  }

  ghost predicate NoNaive(db: B.Db) {
    forall t :: t in db.txs ==> !db.txs[t].strategy.Naive?
  }

  lemma NoNaiveStep(w: World, st: Step)
    requires NoNaive(w.db) && (st.Enter? ==> !st.strategy.Naive?)
    ensures NoNaive(Apply(w, st).db)
  {
  }

  // A locked transaction that throws has not committed.
  lemma NoHazard(w: World, st: Step)
    requires NoNaive(w.db) && OnKeys(w, st).Some?
    requires st.Key? && (st.k.Lookup? || st.k.Sweep?) ==> !I.Hazard(w.keys, st.k)
    ensures !I.Hazard(w.keys, OnKeys(w, st).value)
  {
  }

  lemma CalmSnoc(w: I.World, steps: seq<I.Step>, st: I.Step)
    requires I.Calm(w, steps) && !I.Hazard(I.Run(w, steps), st)
    ensures I.Calm(w, steps + [st])
  {
    assert (steps + [st])[..|steps|] == steps;
  }

  // Under these conditions the key table sees no hazard.
  lemma {:induction false} LockedRunsAreCalm(w: World, steps: seq<Step>)
    requires NoNaive(w.db) && Locked(steps) && RowsStay(w, steps)
    ensures NoNaive(Run(w, steps).db) && I.Calm(w.keys, KeySteps(w, steps))
  {
    if steps == [] {
    } else {
      var before, last := steps[..|steps| - 1], steps[|steps| - 1];
      assert last in steps;
      LockedRunsAreCalm(w, before);
      HalvesOf(w, before);
      NoNaiveStep(Run(w, before), last);
      if OnKeys(Run(w, before), last).Some? {
        NoHazard(Run(w, before), last);
        CalmSnoc(w.keys, KeySteps(w, before), OnKeys(Run(w, before), last).value);
      } else {
        assert KeySteps(w, before) + [] == KeySteps(w, before);
      }
    }
  }

  // ---------- The tables agree ----------

  ghost predicate RowAt(w: World, i: nat) {
    i < |w.db.bookings| ==>
      && i < |w.keys.bookings|
      && w.db.bookings[i].id == w.keys.bookings[i].request
      && w.db.bookings[i].idempotencyKey == w.keys.bookings[i].key
  }

  ghost predicate TxAt(w: World, r: I.RequestId) {
    r in w.db.txs ==>
      r in w.keys.requests && w.keys.requests[r].key == w.db.txs[r].idempotencyKey
  }

  ghost predicate Agree(w: World) {
    && |w.db.bookings| == |w.keys.bookings|
    && (forall i {:trigger RowAt(w, i)} :: RowAt(w, i))
    && (forall r {:trigger TxAt(w, r)} :: TxAt(w, r))
  }

  lemma KeysBook(w: I.World, k: I.Step)
    ensures I.Apply(w, k).bookings ==
      if k.Commit? && I.In(w, k.r, I.Working)
      then w.bookings + [I.Booking(w.requests[k.r].key, k.r, I.Epoch(w, w.requests[k.r].key))]
      else w.bookings
  {
  }

  lemma RowsBook(db: B.Db, st: B.Step)
    ensures B.Apply(db, st).bookings ==
      if B.Commits(db, st) then db.bookings + [B.BookingOf(st.t, db.txs[st.t])] else db.bookings
  {
  }

  // Only a commit adds a booking, on both sides at once.
  lemma SidesMoveTogether(w: World, st: Step)
    requires Agree(w)
    ensures var w' := Apply(w, st);
      && |w'.db.bookings| == |w'.keys.bookings|
      && w.db.bookings <= w'.db.bookings && w.keys.bookings <= w'.keys.bookings
      && (forall i: nat :: |w.db.bookings| <= i < |w'.db.bookings| ==> RowAt(w', i))
  {
    hide I.Apply;
    hide B.Apply;
    if st.Act? { assert TxAt(w, st.r); }
    if OnKeys(w, st).Some? { KeysBook(w.keys, OnKeys(w, st).value); }
    if OnDb(w, st).Some? { RowsBook(w.db, OnDb(w, st).value); }
  }

  lemma TxsBegin(db: B.Db, st: B.Step, t: B.TxId)
    requires t in B.Apply(db, st).txs
    ensures t in db.txs ==> B.Apply(db, st).txs[t].idempotencyKey == db.txs[t].idempotencyKey
    ensures t !in db.txs ==> st.Begin? && st.t == t && B.Apply(db, st).txs[t].idempotencyKey == st.key
  {
  }

  lemma TxStep(w: World, st: Step, r: I.RequestId)
    requires Agree(w)
    ensures TxAt(Apply(w, st), r)
  {
    hide I.Apply;
    hide B.Apply;
    assert TxAt(w, r);
    if OnKeys(w, st).Some? { I.Frame(w.keys, OnKeys(w, st).value); }
    if OnDb(w, st).Some? && r in B.Apply(w.db, OnDb(w, st).value).txs { TxsBegin(w.db, OnDb(w, st).value, r); }
  }

  lemma AgreeStep(w: World, st: Step)
    requires Agree(w)
    ensures Agree(Apply(w, st))
  {
    var w' := Apply(w, st);
    SidesMoveTogether(w, st);
    forall i: nat ensures RowAt(w', i) {
      if i < |w.db.bookings| { assert RowAt(w, i); }
    }
    forall r: nat ensures TxAt(w', r) { TxStep(w, st, r); }
  }

  lemma {:induction false} AgreeRun(w: World, steps: seq<Step>)
    requires Agree(w)
    ensures Agree(Run(w, steps))
  {
    if steps == [] {
    } else {
      AgreeRun(w, steps[..|steps| - 1]);
      AgreeStep(Run(w, steps[..|steps| - 1]), steps[|steps| - 1]);
    }
  }

  // ---------- The theorems ----------

  lemma Sound(cfg: B.Config, steps: seq<Step>)
    requires Locked(steps) && RowsStay(Init(cfg), steps)
    ensures var w := Run(Init(cfg), steps);
      Agree(w) && I.CalmInv(w.keys) && I.Guarantee(w.keys)
  {
    hide I.Run;
    hide B.Run;
    hide Run;
    HalvesOf(Init(cfg), steps);
    AgreeRun(Init(cfg), steps);
    LockedRunsAreCalm(Init(cfg), steps);
    I.CalmRun(I.Init(), KeySteps(Init(cfg), steps));
  }

  // With the locked strategies, two rows of the bookings table with one key were committed in
  // different lives of the key: between two sweeps a key costs its client seats at most once,
  // over any interleaving of retries, crashes and failed completes or releases.
  lemma KeyBooksOnce(cfg: B.Config, steps: seq<Step>, i: nat, j: nat)
    requires Locked(steps) && RowsStay(Init(cfg), steps)
    requires var bookings := Run(Init(cfg), steps).db.bookings;
      i < j < |bookings| && bookings[i].idempotencyKey.Some?
      && bookings[i].idempotencyKey == bookings[j].idempotencyKey
    ensures var keys := Run(Init(cfg), steps).keys;
      j < |keys.bookings| && keys.bookings[i].epoch != keys.bookings[j].epoch
  {
    var w := Run(Init(cfg), steps);
    Sound(cfg, steps);
    assert RowAt(w, i) && RowAt(w, j);
    assert I.OneBooking(w.keys, i, j);
  }

  // In particular a key that was never swept has one booking row at most.
  lemma {:induction false} UnsweptKeyBooksOnce(cfg: B.Config, steps: seq<Step>, k: I.Key, i: nat, j: nat)
    requires Locked(steps) && RowsStay(Init(cfg), steps) && k !in Run(Init(cfg), steps).keys.sweeps
    requires var bookings := Run(Init(cfg), steps).db.bookings;
      i < |bookings| && j < |bookings|
      && bookings[i].idempotencyKey == Some(k) && bookings[j].idempotencyKey == Some(k)
    ensures i == j
  {
    var w := Run(Init(cfg), steps);
    Sound(cfg, steps);
    assert RowAt(w, i) && RowAt(w, j);
    assert I.BookingAt(w.keys, i) && I.BookingAt(w.keys, j);
    if i < j { KeyBooksOnce(cfg, steps, i, j); }
    if j < i { KeyBooksOnce(cfg, steps, j, i); }
  }

  // Every success answered for a key names a row of the bookings table with that key.
  lemma {:induction false} SuccessHasItsRow(cfg: B.Config, steps: seq<Step>, i: nat)
    requires Locked(steps) && RowsStay(Init(cfg), steps)
    requires var keys := Run(Init(cfg), steps).keys;
      i < |keys.answers| && keys.answers[i].key.Some? && keys.answers[i].booking.Some?
    ensures var w := Run(Init(cfg), steps);
      var b := w.keys.answers[i].booking.value;
      b < |w.db.bookings| && w.db.bookings[b].idempotencyKey == w.keys.answers[i].key
  {
    var w := Run(Init(cfg), steps);
    Sound(cfg, steps);
    assert I.RightAnswer(w.keys, i);
    assert RowAt(w, w.keys.answers[i].booking.value);
  }

  // And the locked strategies keep their own promise underneath.
  lemma SeatsStillAddUp(cfg: B.Config, steps: seq<Step>, e: B.EventId)
    requires Locked(steps) && e in Run(Init(cfg), steps).db.events
    ensures var db := Run(Init(cfg), steps).db;
      db.events[e].availableSeats >= 0
      && db.events[e].availableSeats + B.Sold(db.bookings, e) == db.events[e].totalSeats
  {
    HalvesOf(Init(cfg), steps);
    LockedDb(Init(cfg), steps);
    L.NeverOversold(cfg, DbSteps(Init(cfg), steps), e);
  }

  lemma {:induction false} LockedDb(w: World, steps: seq<Step>)
    requires Locked(steps)
    ensures B.LockedOnly(DbSteps(w, steps))
  {
    if steps == [] {
    } else {
      var before, last := steps[..|steps| - 1], steps[|steps| - 1];
      assert last in steps && forall st :: st in before ==> st in steps;
      LockedDb(w, before);
    }
  }
}
