/** Runs of row-lock and compare-and-set bookings, freely mixed: exact accounting, and what each
 request is told. */
module LockedBookings {
  import opened Bookings
  import opened Wrappers

  ghost predicate StrictRow(row: EventRow, sold: int, count: int) {
    row.availableSeats >= 0 && row.availableSeats + sold == row.totalSeats && row.version == count
  }

  ghost predicate StrictTx(tx: Tx, row: Option<EventRow>) {
    && tx.quantity >= 1 && !tx.strategy.Naive?
    && (tx.phase.Deciding? && tx.phase.seen.Some? ==>
          && row.Some?
          && Since(tx.phase.seen.value, row.value)
          && (tx.strategy.Pessimistic? ==> tx.phase.seen == row))
    && (tx.phase.Writing? ==>
          && row.Some?
          && tx.phase.row == row.value.(availableSeats := row.value.availableSeats - tx.quantity,
                                        version := row.value.version + 1)
          && tx.phase.remaining == tx.phase.row.availableSeats >= 0)
    && (tx.phase == Done(SoldOut) ==> row.Some? && row.value.availableSeats < tx.quantity)
  }

  // `later` is what became of the row `seen`: only a bumped version can hide a change.
  ghost predicate Since(seen: EventRow, later: EventRow) {
    && seen.version <= later.version
    && seen.availableSeats >= later.availableSeats
    && seen.totalSeats == later.totalSeats
    && (seen.version == later.version ==> seen == later)
  }

  ghost predicate StrictAt(s: Db, t: TxId)
    requires t in s.txs
  {
    StrictTx(s.txs[t], RowOf(s, s.txs[t].eventId))
  }

  ghost predicate StrictEvent(s: Db, e: EventId)
    requires e in s.events
  {
    StrictRow(s.events[e], Sold(s.bookings, e), CountOf(s.bookings, e))
  }

  ghost predicate StrictInv(s: Db) {
    && LocksOk(s)
    && BookingsOk(s)
    && (forall e {:trigger StrictEvent(s, e)} :: e in s.events ==> StrictEvent(s, e))
    && (forall t {:trigger StrictAt(s, t)} :: t in s.txs ==> StrictAt(s, t))
  }

  lemma StrictMove(verb: Verb, tx: Tx, row: Option<EventRow>, free: bool, cfg: Config)
    requires StrictTx(tx, row) && (row.Some? ==> row.value.availableSeats >= 0)
    ensures StrictTx(tx.(phase := NextMove(verb, tx, row, free, cfg).phase), row)
  {
  }

  lemma StrictEventStep(s: Db, st: Step, e: EventId)
    requires StrictInv(s) && LockedOnly([st]) && e in Apply(s, st).events
    ensures StrictEvent(Apply(s, st), e)
    ensures e in s.events ==> Since(s.events[e], Apply(s, st).events[e])
  {
    if Commits(s, st) {
      CommitEffect(s, st, e);
      assert StrictAt(s, st.t);
    }
    if e in s.events { assert StrictEvent(s, e); } else { NoBookingsNoSeats(s.bookings, e); }
  }

  lemma EventsStay(s: Db, st: Step)
    ensures forall e :: e in s.events ==> e in Apply(s, st).events
  {
  }

  lemma StrictStep(s: Db, st: Step)
    requires StrictInv(s) && LockedOnly([st])
    ensures StrictInv(Apply(s, st))
    ensures forall e :: e in s.events ==> e in Apply(s, st).events && Since(s.events[e], Apply(s, st).events[e])
  {
    var s' := Apply(s, st);
    LocksStep(s, st);
    EventsStay(s, st);
    if Commits(s, st) { assert StrictAt(s, st.t); }
    forall e | e in s'.events ensures StrictEvent(s', e) && (e in s.events ==> Since(s.events[e], s'.events[e])) {
      StrictEventStep(s, st, e);
    }
    forall t | t in s'.txs ensures StrictAt(s', t) { StrictAtStep(s, st, t); }
  }

  // A commit moves nobody but the committer, and leaves what the others know about the row true.
  lemma StrictAtCommit(s: Db, st: Step, t: TxId)
    requires StrictInv(s) && Commits(s, st) && t in s.txs
    ensures t in Apply(s, st).txs && StrictAt(Apply(s, st), t)
  {
    var e := s.txs[t].eventId;
    assert StrictAt(s, t) && StrictAt(s, st.t);
    CommitEffect(s, st, e);
    if e in s.events { assert StrictEvent(s, e); }
  }

  // Nor does any other step of somebody else.
  lemma StrictAtOther(s: Db, st: Step, t: TxId)
    requires t in s.txs && StrictAt(s, t) && !Commits(s, st) && !(st.Act? && st.t == t)
    ensures t in Apply(s, st).txs && StrictAt(Apply(s, st), t)
  {
  }

  lemma StrictAtOwn(s: Db, verb: Verb, t: TxId)
    requires StrictInv(s) && t in s.txs && !Commits(s, Act(t, verb))
    ensures t in Apply(s, Act(t, verb)).txs && StrictAt(Apply(s, Act(t, verb)), t)
  {
    var tx, e := s.txs[t], s.txs[t].eventId;
    assert StrictAt(s, t);
    if e in s.events { assert StrictEvent(s, e); }
    StrictMove(verb, tx, RowOf(s, e), Free(s, e, t), s.cfg);
  }

  lemma StrictAtStep(s: Db, st: Step, t: TxId)
    requires StrictInv(s) && LockedOnly([st]) && t in Apply(s, st).txs
    ensures StrictAt(Apply(s, st), t)
  {
    assert st in [st];
    if t !in s.txs {
    } else if Commits(s, st) {
      StrictAtCommit(s, st, t);
    } else if st.Act? && st.t == t {
      StrictAtOwn(s, st.verb, t);
    } else {
      assert StrictAt(s, t);
      StrictAtOther(s, st, t);
    }
  }

  lemma {:induction false} StrictRun(s: Db, steps: seq<Step>)
    requires StrictInv(s) && LockedOnly(steps)
    ensures StrictInv(Run(s, steps))
    ensures forall e :: e in s.events ==> e in Run(s, steps).events && Since(s.events[e], Run(s, steps).events[e])
  {
    if steps != [] {
      var before, last := steps[..|steps| - 1], steps[|steps| - 1];
      StrictRun(s, before);
      assert last in steps;
      StrictStep(Run(s, before), last);
    }
  }

  // Locked strategies, freely mixed, sell every seat at most once, and the counter
  // tells the same story as the bookings table.
  lemma NeverOversold(cfg: Config, steps: seq<Step>, e: EventId)
    requires LockedOnly(steps) && e in Run(Init(cfg), steps).events
    ensures var s := Run(Init(cfg), steps);
      && s.events[e].availableSeats >= 0
      && s.events[e].availableSeats + Sold(s.bookings, e) == s.events[e].totalSeats
      && Sold(s.bookings, e) <= s.events[e].totalSeats
      && s.events[e].version == CountOf(s.bookings, e)
  {
    StrictRun(Init(cfg), steps);
    assert StrictEvent(Run(Init(cfg), steps), e);
  }

  // A version that still matches proves that the row, counter included, has not moved.
  lemma MatchingVersionMeansUnchanged(cfg: Config, before: seq<Step>, between: seq<Step>, e: EventId)
    requires LockedOnly(before) && LockedOnly(between) && e in Run(Init(cfg), before).events
    ensures var seen := Run(Init(cfg), before);
      var later := Run(Init(cfg), before + between);
      && e in later.events
      && (later.events[e].version == seen.events[e].version <==> later.events[e] == seen.events[e])
      && later.events[e].version - seen.events[e].version
           == CountOf(later.bookings, e) - CountOf(seen.bookings, e)
  {
    var seen := Run(Init(cfg), before);
    RunConcat(Init(cfg), before, between);
    StrictRun(Init(cfg), before);
    StrictRun(seen, between);
    assert StrictEvent(seen, e) && StrictEvent(Run(seen, between), e);
  }

  // "Sold out" is never said while enough seats are left: the refusal is true when it is given
  // and stays true.
  lemma SoldOutIsTrue(cfg: Config, steps: seq<Step>, t: TxId)
    requires LockedOnly(steps)
    requires t in Run(Init(cfg), steps).txs && Run(Init(cfg), steps).txs[t].phase == Done(SoldOut)
    ensures var s := Run(Init(cfg), steps);
      var e := s.txs[t].eventId;
      e in s.events && s.events[e].totalSeats - Sold(s.bookings, e) < s.txs[t].quantity
  {
    StrictRun(Init(cfg), steps);
    var s := Run(Init(cfg), steps);
    assert StrictAt(s, t) && StrictEvent(s, s.txs[t].eventId);
  }

  // ---------- What each winner is told ----------

  // The seatsRemaining answered to the j-th booking is the counter its own commit left behind.
  ghost predicate Receipt(s: Db, j: nat)
    requires j < |s.bookings|
  {
    var b := s.bookings[j];
    && b.id in s.txs && b.eventId in s.events
    && b == BookingOf(b.id, s.txs[b.id])
    && s.txs[b.id].phase ==
         Done(Confirmed(s.events[b.eventId].totalSeats - Sold(s.bookings[..j + 1], b.eventId)))
  }

  ghost predicate Receipts(s: Db) {
    && (forall j: nat {:trigger Receipt(s, j)} :: j < |s.bookings| ==> Receipt(s, j))
    && (forall i, j :: 0 <= i < j < |s.bookings| ==> s.bookings[i].id != s.bookings[j].id)
    && (forall t :: t in s.txs && s.txs[t].phase.Done? && s.txs[t].phase.outcome.Confirmed? ==>
          Booked(s.bookings, t))
  }

  lemma DoneStays(s: Db, st: Step, t: TxId)
    requires t in s.txs && s.txs[t].phase.Done?
    ensures t in Apply(s, st).txs && Apply(s, st).txs[t] == s.txs[t]
  {
  }

  lemma ReceiptStays(s: Db, st: Step, j: nat)
    requires StrictInv(s) && LockedOnly([st]) && j < |s.bookings| && Receipt(s, j)
    ensures s.bookings <= Apply(s, st).bookings && Receipt(Apply(s, st), j)
  {
    StrictStep(s, st);
    BookingsGrow(s, st);
    ReceiptKept(s, st, j);
  }

  lemma BookingsGrow(s: Db, st: Step)
    ensures s.bookings <= Apply(s, st).bookings
  {
  }

  lemma ReceiptKept(s: Db, st: Step, j: nat)
    requires j < |s.bookings| && s.bookings <= Apply(s, st).bookings && Receipt(s, j)
    requires var e := s.bookings[j].eventId;
      e in Apply(s, st).events && Apply(s, st).events[e].totalSeats == s.events[e].totalSeats
    ensures Receipt(Apply(s, st), j)
  {
    DoneStays(s, st, s.bookings[j].id);
    assert Apply(s, st).bookings[..j + 1] == s.bookings[..j + 1];
  }

  lemma NewReceipt(s: Db, st: Step)
    requires StrictInv(s) && Receipts(s) && LockedOnly([st]) && Commits(s, st)
    ensures var s' := Apply(s, st);
      && s'.bookings == s.bookings + [BookingOf(st.t, s.txs[st.t])]
      && Receipt(s', |s.bookings|)
      && forall i :: 0 <= i < |s.bookings| ==> s.bookings[i].id != st.t
  {
    var tx, s' := s.txs[st.t], Apply(s, st);
    CommitEffect(s, st, tx.eventId);
    assert StrictAt(s, st.t) && StrictEvent(s, tx.eventId);
    assert s'.bookings[..|s.bookings| + 1] == s'.bookings;
    forall i | 0 <= i < |s.bookings| ensures s.bookings[i].id != st.t {
      assert Receipt(s, i);
    }
  }

  lemma ReceiptsStep(s: Db, st: Step)
    requires StrictInv(s) && Receipts(s) && LockedOnly([st])
    ensures Receipts(Apply(s, st))
  {
    var s' := Apply(s, st);
    if Commits(s, st) { NewReceipt(s, st); }
    forall j: nat | j < |s'.bookings| ensures Receipt(s', j) {
      if j < |s.bookings| { ReceiptStays(s, st, j); }
    }
    forall t | t in s'.txs && s'.txs[t].phase.Done? && s'.txs[t].phase.outcome.Confirmed?
      ensures Booked(s'.bookings, t)
    {
      if Commits(s, st) && t == st.t {
        assert s'.bookings[|s.bookings|].id == t;
      } else {
        ConfirmedOnlyByCommit(s, st, t);
        var j :| 0 <= j < |s.bookings| && s.bookings[j].id == t;
        assert s'.bookings[j].id == t;
      }
    }
  }

  lemma ConfirmedOnlyByCommit(s: Db, st: Step, t: TxId)
    requires t in Apply(s, st).txs && Apply(s, st).txs[t].phase.Done?
    requires Apply(s, st).txs[t].phase.outcome.Confirmed? && !(Commits(s, st) && st.t == t)
    ensures t in s.txs && s.txs[t].phase == Apply(s, st).txs[t].phase
    ensures s.bookings <= Apply(s, st).bookings
  {
  }

  lemma {:induction false} ReceiptsRun(cfg: Config, steps: seq<Step>)
    requires LockedOnly(steps)
    ensures StrictInv(Run(Init(cfg), steps)) && Receipts(Run(Init(cfg), steps))
  {
    StrictRun(Init(cfg), steps);
    if steps != [] {
      var before, last := steps[..|steps| - 1], steps[|steps| - 1];
      ReceiptsRun(cfg, before);
      assert last in steps;
      ReceiptsStep(Run(Init(cfg), before), last);
    }
  }

  lemma {:induction false} SoldGrows(bookings: seq<Booking>, i: nat, j: nat, e: EventId)
    requires i < j <= |bookings| && bookings[j - 1].eventId == e
    requires forall b :: b in bookings ==> b.quantity >= 1
    ensures Sold(bookings[..i], e) < Sold(bookings[..j], e)
    decreases j
  {
    assert bookings[..j][..j - 1] == bookings[..j - 1];
    if i < j - 1 {
      SoldMonotone(bookings, i, j - 1, e);
    }
  }

  lemma {:induction false} SoldMonotone(bookings: seq<Booking>, i: nat, j: nat, e: EventId)
    requires i <= j <= |bookings|
    requires forall b :: b in bookings ==> b.quantity >= 1
    ensures Sold(bookings[..i], e) <= Sold(bookings[..j], e)
    decreases j
  {
    if i < j {
      assert bookings[..j][..j - 1] == bookings[..j - 1];
      assert bookings[j - 1] in bookings;
      SoldMonotone(bookings, i, j - 1, e);
    }
  }

  lemma ReceiptsCountDown(s: Db, i: nat, j: nat)
    requires StrictInv(s) && i < j < |s.bookings| && s.bookings[i].eventId == s.bookings[j].eventId
    ensures Sold(s.bookings[..i + 1], s.bookings[i].eventId) < Sold(s.bookings[..j + 1], s.bookings[i].eventId)
    ensures Sold(s.bookings[..j + 1], s.bookings[i].eventId) <= s.events[s.bookings[i].eventId].totalSeats
  {
    hide Sold;
    hide CountOf;
    hide LocksOk;
    var e := s.bookings[j].eventId;
    SoldGrows(s.bookings, i + 1, j + 1, e);
    SoldMonotone(s.bookings, j + 1, |s.bookings|, e);
    assert s.bookings[..|s.bookings|] == s.bookings;
    assert StrictEvent(s, e);
  }

  // What the j-th winner was told.
  function Told(s: Db, j: nat): Option<int>
    requires j < |s.bookings|
  {
    var id := s.bookings[j].id;
    if id in s.txs && s.txs[id].phase.Done? && s.txs[id].phase.outcome.Confirmed?
    then Some(s.txs[id].phase.outcome.seatsRemaining) else None
  }

  // Every winner is told the event's committed counter right after its own commit, so winners of
  // one event are told strictly decreasing numbers in commit order. Nobody books twice.
  lemma WinnersCountDown(cfg: Config, steps: seq<Step>, i: nat, j: nat)
    requires LockedOnly(steps)
    requires i <= j < |Run(Init(cfg), steps).bookings|
    ensures var s := Run(Init(cfg), steps);
      var a, b := s.bookings[i], s.bookings[j];
      && (i < j ==> a.id != b.id) && b.eventId in s.events
      && Told(s, i).Some?
      && Told(s, j) == Some(s.events[b.eventId].totalSeats - Sold(s.bookings[..j + 1], b.eventId))
      && (i < j && a.eventId == b.eventId ==> Told(s, i).value > Told(s, j).value >= 0)
  {
    hide Sold;
    hide LocksOk;
    ReceiptsRun(cfg, steps);
    hide Run;
    var s := Run(Init(cfg), steps);
    assert Receipt(s, i) && Receipt(s, j);
    if i < j && s.bookings[i].eventId == s.bookings[j].eventId { ReceiptsCountDown(s, i, j); }
  }

  // ---------- Optimistic retries ----------

  // While a transaction begun at version v is in its attempt-th try, at least `attempt` others
  // have committed since.
  ghost predicate LostRaces(s: Db, t: TxId, v: int)
    requires t in s.txs
  {
    var tx := s.txs[t];
    var e := tx.eventId;
    tx.strategy.Optimistic? && e in s.events && s.events[e].version >= v &&
    match tx.phase
    case Reading(attempt) => s.events[e].version >= v + attempt
    case Deciding(Some(seen), attempt) => seen.version >= v + attempt
    case Done(Contention) => s.events[e].version >= v + s.cfg.maxRetries + 1
    case _ => true
  }

  // Its own step that does not commit leaves the row alone; a lost write means the version moved.
  lemma LostRacesMove(s: Db, verb: Verb, t: TxId, v: int)
    requires StrictInv(s) && t in s.txs && LostRaces(s, t, v)
    ensures t in Apply(s, Act(t, verb)).txs && LostRaces(Apply(s, Act(t, verb)), t, v)
  {
    assert StrictAt(s, t);
  }

  lemma OthersMove(s: Db, st: Step, t: TxId)
    requires t in s.txs && !(st.Act? && st.t == t)
    ensures t in Apply(s, st).txs && Apply(s, st).txs[t] == s.txs[t]
  {
  }

  lemma LostRacesStep(s: Db, st: Step, t: TxId, v: int)
    requires StrictInv(s) && LockedOnly([st]) && t in s.txs && LostRaces(s, t, v)
    ensures t in Apply(s, st).txs && LostRaces(Apply(s, st), t, v)
    ensures Apply(s, st).cfg == s.cfg && Apply(s, st).txs[t].eventId == s.txs[t].eventId
  {
    if st.Act? && st.t == t {
      LostRacesMove(s, st.verb, t, v);
    } else {
      EventsStay(s, st);
      StrictEventStep(s, st, s.txs[t].eventId);
      OthersMove(s, st, t);
    }
  }

  lemma {:induction false} LostRacesRun(s: Db, steps: seq<Step>, t: TxId, v: int)
    requires StrictInv(s) && LockedOnly(steps) && t in s.txs && LostRaces(s, t, v)
    ensures t in Run(s, steps).txs && LostRaces(Run(s, steps), t, v)
    ensures Run(s, steps).cfg == s.cfg && Run(s, steps).txs[t].eventId == s.txs[t].eventId
  {
    if steps != [] {
      var before, last := steps[..|steps| - 1], steps[|steps| - 1];
      LostRacesRun(s, before, t, v);
      StrictRun(s, before);
      assert last in steps;
      LostRacesStep(Run(s, before), last, t, v);
    }
  }

  // A loser is only sent away for contention after maxRetries + 1 other bookings of the same
  // event committed while it was trying.
  lemma {:induction false} ContentionMeansOthersWon(cfg: Config, before: seq<Step>, steps: seq<Step>, t: TxId,
                                 e: EventId, user: string, quantity: int, key: Option<string>)
    requires LockedOnly(before) && LockedOnly(steps) && quantity >= 1
    requires t !in Run(Init(cfg), before).txs && e in Run(Init(cfg), before).events
    requires var began := before + [Begin(t, e, user, quantity, Optimistic, key)];
      t in Run(Init(cfg), began + steps).txs
      && Run(Init(cfg), began + steps).txs[t].phase == Done(Contention)
    ensures var began := before + [Begin(t, e, user, quantity, Optimistic, key)];
      CountOf(Run(Init(cfg), began + steps).bookings, e)
        >= CountOf(Run(Init(cfg), before).bookings, e) + cfg.maxRetries + 1
  {
    var begin := Begin(t, e, user, quantity, Optimistic, key);
    var began := before + [begin];
    var s0 := Run(Init(cfg), before);
    StrictRun(Init(cfg), before);
    StrictRun(Init(cfg), began + steps);
    RunConcat(Init(cfg), began, steps);
    RunSnoc(Init(cfg), before, begin);
    hide Run;
    var s1 := Run(Init(cfg), began);
    StrictStep(s0, begin);
    CfgStays(Init(cfg), before);
    assert StrictEvent(s0, e);
    LostRacesRun(s1, steps, t, s0.events[e].version);
    assert StrictEvent(Run(s1, steps), e);
  }

  lemma {:induction false} CfgStays(s: Db, steps: seq<Step>)
    ensures Run(s, steps).cfg == s.cfg
  {
    if steps != [] { CfgStays(s, steps[..|steps| - 1]); }
  }
}
