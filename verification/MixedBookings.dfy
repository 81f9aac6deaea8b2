/** Runs that mix all three strategies: what even the unprotected one keeps. */
module MixedBookings {
  import opened Bookings
  import opened Wrappers

  ghost predicate MixedRow(row: EventRow, sold: int) {
    row.availableSeats >= 0 && row.availableSeats + sold >= row.totalSeats
  }

  ghost predicate MixedTx(tx: Tx, row: Option<EventRow>, sold: int) {
    && tx.quantity >= 1
    && (tx.phase.Deciding? && tx.phase.seen.Some? ==>
          && row.Some?
          && (tx.strategy.Naive? ==> tx.phase.seen.value.availableSeats + sold >= row.value.totalSeats)
          && (tx.strategy.Pessimistic? ==> tx.phase.seen == row))
    && (tx.phase.Writing? ==>
          && row.Some? && tx.phase.row.totalSeats == row.value.totalSeats
          && tx.phase.row.availableSeats >= 0
          && tx.phase.row.availableSeats + tx.quantity + sold >= row.value.totalSeats)
  }

  ghost predicate MixedAt(s: Db, t: TxId)
    requires t in s.txs
  {
    MixedTx(s.txs[t], RowOf(s, s.txs[t].eventId), Sold(s.bookings, s.txs[t].eventId))
  }

  ghost predicate MixedEvent(s: Db, e: EventId)
    requires e in s.events
  {
    MixedRow(s.events[e], Sold(s.bookings, e))
  }

  ghost predicate MixedInv(s: Db) {
    && LocksOk(s)
    && BookingsOk(s)
    && (forall e {:trigger MixedEvent(s, e)} :: e in s.events ==> MixedEvent(s, e))
    && (forall t {:trigger MixedAt(s, t)} :: t in s.txs ==> MixedAt(s, t))
  }

  lemma MixedMove(verb: Verb, tx: Tx, row: Option<EventRow>, free: bool, cfg: Config, sold: int)
    requires MixedTx(tx, row, sold)
    requires row.Some? ==> MixedRow(row.value, sold)
    ensures MixedTx(tx.(phase := NextMove(verb, tx, row, free, cfg).phase), row, sold)
  {
  }

  lemma MixedEventStep(s: Db, st: Step, e: EventId)
    requires MixedInv(s) && e in Apply(s, st).events
    ensures MixedEvent(Apply(s, st), e)
  {
    if Commits(s, st) {
      CommitEffect(s, st, e);
      assert MixedAt(s, st.t);
    }
    if e in s.events {
      assert MixedEvent(s, e);
    } else {
      NoBookingsNoSeats(s.bookings, e);
    }
  }

  lemma MixedAtCommit(s: Db, st: Step, t: TxId)
    requires MixedInv(s) && Commits(s, st) && t in s.txs
    ensures t in Apply(s, st).txs && MixedAt(Apply(s, st), t)
  {
    var e := s.txs[t].eventId;
    assert MixedAt(s, t) && MixedAt(s, st.t);
    CommitEffect(s, st, e);
    if e in s.events { assert MixedEvent(s, e); }
  }

  lemma MixedAtStep(s: Db, st: Step, t: TxId)
    requires MixedInv(s) && t in Apply(s, st).txs
    ensures MixedAt(Apply(s, st), t)
  {
    if t in s.txs {
      var tx, e := s.txs[t], s.txs[t].eventId;
      assert MixedAt(s, t);
      if Commits(s, st) {
        MixedAtCommit(s, st, t);
      } else {
        if e in s.events { assert MixedEvent(s, e); }
        if st.Act? && st.t == t { MixedMove(st.verb, tx, RowOf(s, e), Free(s, e, t), s.cfg, Sold(s.bookings, e)); }
      }
    }
  }

  lemma MixedStep(s: Db, st: Step)
    requires MixedInv(s)
    ensures MixedInv(Apply(s, st))
  {
    var s' := Apply(s, st);
    LocksStep(s, st);
    if Commits(s, st) {
      CommitEffect(s, st, s.txs[st.t].eventId);
      assert MixedAt(s, st.t);
    }
    forall e | e in s'.events ensures MixedEvent(s', e) { MixedEventStep(s, st, e); }
    forall t | t in s'.txs ensures MixedAt(s', t) { MixedAtStep(s, st, t); }
  }

  lemma {:induction false} MixedRun(s: Db, steps: seq<Step>)
    requires MixedInv(s)
    ensures MixedInv(Run(s, steps))
  {
    if steps != [] {
      MixedRun(s, steps[..|steps| - 1]);
      MixedStep(Run(s, steps[..|steps| - 1]), steps[|steps| - 1]);
    }
  }

  // Even with the unprotected strategy in the mix the counter never goes negative and never
  // claims fewer seats than are left.
  lemma CounterNeverUnderReports(cfg: Config, steps: seq<Step>, e: EventId)
    requires e in Run(Init(cfg), steps).events
    ensures var s := Run(Init(cfg), steps);
      s.events[e].availableSeats >= 0
      && s.events[e].availableSeats >= s.events[e].totalSeats - Sold(s.bookings, e)
  {
    MixedRun(Init(cfg), steps);
    assert MixedEvent(Run(Init(cfg), steps), e);
  }
}
