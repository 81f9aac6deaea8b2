/** What the outbox guarantees over every run of sales, relays and crashes. */
module OutboxGuarantee {
  import opened Arithmetic
  import opened Outbox
  import B = Bookings

  // With the outbox on, committed bookings and outbox rows are in one-to-one correspondence in
  // every reachable state, whatever the strategies, relays and crashes: each booking has the row
  // that carries its content, each row belongs to a booking, and no two bookings share one.
  lemma BookingsAndRowsPaired(db: B.Config, cfg: Config, steps: seq<Step>)
    requires db.outboxEnabled
    ensures var w := Run(Init(db, cfg), steps);
      && (forall b :: b in w.db.bookings ==> b.id in w.db.outbox && RowFor(w.db.outbox[b.id], b))
      && (forall t :: t in w.db.outbox ==> exists b :: b in w.db.bookings && b.id == t)
      && (forall i, j :: 0 <= i < j < |w.db.bookings| ==> w.db.bookings[i].id != w.db.bookings[j].id)
  {
    InvRun(Init(db, cfg), steps);
    CfgRun(Init(db, cfg), steps);
    var w := Run(Init(db, cfg), steps);
    forall b | b in w.db.bookings ensures b.id in w.db.outbox && RowFor(w.db.outbox[b.id], b) {
      var j :| 0 <= j < |w.db.bookings| && w.db.bookings[j] == b;
      assert BookingAt(w.db, j);
    }
    forall t | t in w.db.outbox ensures exists b :: b in w.db.bookings && b.id == t {
      var j :| 0 <= j < |w.db.bookings| && w.db.bookings[j].id == t;
      assert w.db.bookings[j] in w.db.bookings;
    }
  }

  // Rows never disappear, keep their content, and only ever leave `pending`, for good; the log
  // only grows.
  lemma {:induction false} MovesForwardFrom(w: World, steps: seq<Step>, t: RowId)
    requires Inv(w) && t in w.db.outbox
    ensures t in Run(w, steps).db.outbox && RowMoves(w.db.outbox[t], Run(w, steps).db.outbox[t])
    ensures |w.log| <= |Run(w, steps).log| && w.log == Run(w, steps).log[..|w.log|]
  {
    if steps != [] {
      var before := steps[..|steps| - 1];
      MovesForwardFrom(w, before, t);
      InvRun(w, before);
      RowStep(Run(w, before), steps[|steps| - 1], t);
    }
  }

  // So over every run, and whatever follows: a row never vanishes or changes what it says, and once
  // published or failed it never changes again; the log only grows.
  lemma RowsOnlyMoveForward(db: B.Config, cfg: Config, before: seq<Step>, steps: seq<Step>, t: RowId)
    requires t in Run(Init(db, cfg), before).db.outbox
    ensures var w := Run(Init(db, cfg), before);
      var v := Run(w, steps);
      t in v.db.outbox && RowMoves(w.db.outbox[t], v.db.outbox[t]) && w.log <= v.log
  {
    InvRun(Init(db, cfg), before);
    MovesForwardFrom(Run(Init(db, cfg), before), steps, t);
  }

  // A committed booking's event is in the log, will be tried again, or is on record as given up.
  ghost predicate Accounted(w: World, b: B.Booking) {
    b.id in w.db.outbox &&
    match w.db.outbox[b.id].status {
      case Published => Message(b.id, w.db.outbox[b.id]) in w.log
      case Pending => w.db.outbox[b.id].attempts < Limit(w.cfg)
      case Failed => Tally(w.failures, b.id) >= 1 && Tally(w.failures, b.id) >= w.cfg.maxAttempts
    }
  }

  ghost predicate EventOf(m: Record, b: B.Booking) {
    && m.messageId == b.id && m.key == b.eventId
    && m.payload.bookingId == b.id && m.payload.eventId == b.eventId
    && m.payload.userId == b.userId && m.payload.quantity == b.quantity
  }

  // Nothing is lost silently and nothing is invented: every committed booking is accounted for,
  // and every record in the log is the event of a committed booking.
  lemma NoSilentLoss(db: B.Config, cfg: Config, steps: seq<Step>)
    requires db.outboxEnabled
    ensures var w := Run(Init(db, cfg), steps);
      && (forall b :: b in w.db.bookings ==> Accounted(w, b))
      && (forall m :: m in w.log ==> exists b :: b in w.db.bookings && EventOf(m, b))
  {
    BookingsAndRowsPaired(db, cfg, steps);
    InvRun(Init(db, cfg), steps);
    var w := Run(Init(db, cfg), steps);
    forall b | b in w.db.bookings ensures Accounted(w, b) {
      assert b.id in w.db.outbox && RowAt(w, b.id);
    }
    forall m | m in w.log ensures exists b :: b in w.db.bookings && EventOf(m, b) {
      var i :| 0 <= i < |w.log| && w.log[i] == m;
      assert RecordAt(w, i);
      var b :| b in w.db.bookings && b.id == m.messageId;
      assert RowFor(w.db.outbox[b.id], b);
      assert EventOf(m, b);
    }
  }

  // The wait after a failure doubles with every attempt, from half a second up to a minute.
  lemma BackoffDoubles(attempts: nat)
    ensures BackoffMs(attempts + 1) == Min(2 * BackoffMs(attempts), 60_000)
    ensures 250 <= BackoffMs(attempts) <= 60_000 && BackoffMs(1) == 500
  {
    PowPositive(attempts);
    assert BackoffMs(1) == 500 by { assert Pow2(1) == 2 * Pow2(0); }
  }

  lemma {:induction false} PowPositive(n: nat)
    ensures Pow2(n) >= 1
  {
    if n > 0 { PowPositive(n - 1); }
  }

  // A row that is waiting out its backoff is left alone, whatever the relays do, until it is due.
  lemma {:induction false} LeftAloneFrom(w: World, steps: seq<Step>, t: RowId)
    requires Inv(w) && t in w.db.outbox && !Held(w.relays, t)
    requires w.db.outbox[t].availableAt > Run(w, steps).db.now
    ensures t in Run(w, steps).db.outbox && Run(w, steps).db.outbox[t] == w.db.outbox[t]
    ensures !Held(Run(w, steps).relays, t)
  {
    if steps == [] {
    } else {
      var before, last := steps[..|steps| - 1], steps[|steps| - 1];
      ClockRises(Run(w, before), last);
      InvRun(w, before);
      LeftAloneFrom(w, before, t);
      LeftAloneStep(Run(w, before), last, t);
    }
  }

  lemma LeftAloneStep(w: World, st: Step, t: RowId)
    requires Inv(w) && t in w.db.outbox && !Held(w.relays, t) && w.db.outbox[t].availableAt > w.db.now
    ensures t in Apply(w, st).db.outbox && Apply(w, st).db.outbox[t] == w.db.outbox[t]
    ensures !Held(Apply(w, st).relays, t)
  {
    if st.Sale? { SaleEffect(w.db, st.st); }
  }

  // What a failed drain's marks leave of one row of its batch.
  lemma FailedMark(w: World, r: RelayId, t: RowId)
    requires Inv(w) && MayMark(w, Mark(r)) && w.relays[r].phase.Refused? && t in w.relays[r].rows
    ensures var v := Apply(w, Mark(r));
      && t in w.db.outbox && t in v.db.outbox && !Held(v.relays, t)
      && v.db.outbox[t].attempts == w.db.outbox[t].attempts + 1
      && v.db.outbox[t].availableAt == w.db.now + BackoffMs(w.db.outbox[t].attempts + 1)
      && (v.db.outbox[t].status.Failed? <==> w.db.outbox[t].attempts + 1 >= w.cfg.maxAttempts)
  {
    assert HeldAt(w, r, t);
  }

  // In v, after a failed drain in w, row t has one attempt more and nobody holds it.
  ghost predicate FailedOnce(w: World, v: World, t: RowId)
    requires t in w.db.outbox
  {
    && t in v.db.outbox && !Held(v.relays, t)
    && v.db.outbox[t].attempts == w.db.outbox[t].attempts + 1
    && (v.db.outbox[t].status.Failed? <==> w.db.outbox[t].attempts + 1 >= w.cfg.maxAttempts)
  }

  // So after a failed publish a row of the batch, with one attempt more, is not touched again before
  // the backoff of that attempt has passed, by whichever relay.
  lemma {:induction false} WaitsAfterFailure(w: World, r: RelayId, t: RowId, more: seq<Step>)
    requires Inv(w) && MayMark(w, Mark(r)) && w.relays[r].phase.Refused?
    requires t in w.relays[r].rows && t in w.db.outbox
    requires Run(Apply(w, Mark(r)), more).db.now < w.db.now + BackoffMs(w.db.outbox[t].attempts + 1)
    ensures FailedOnce(w, Run(Apply(w, Mark(r)), more), t)
  {
    InvStep(w, Mark(r));
    FailedMark(w, r, t);
    LeftAloneFrom(Apply(w, Mark(r)), more, t);
  }

  // From any state a run reaches, a row waiting out its backoff is left alone until it is due.
  lemma BackingOffRowsAreLeftAlone(db: B.Config, cfg: Config, before: seq<Step>, steps: seq<Step>, t: RowId)
    requires var w := Run(Init(db, cfg), before);
      t in w.db.outbox && !Held(w.relays, t) && w.db.outbox[t].availableAt > Run(w, steps).db.now
    ensures var w := Run(Init(db, cfg), before);
      var v := Run(w, steps);
      t in v.db.outbox && v.db.outbox[t] == w.db.outbox[t] && !Held(v.relays, t)
  {
    InvRun(Init(db, cfg), before);
    LeftAloneFrom(Run(Init(db, cfg), before), steps, t);
  }

  // And after a failed drain that is every row of its batch, with one attempt more, for the backoff
  // of that attempt.
  lemma {:induction false} FailedRowsWait(db: B.Config, cfg: Config, before: seq<Step>, r: RelayId, t: RowId,
                                          more: seq<Step>)
    requires var w := Run(Init(db, cfg), before);
      && MayMark(w, Mark(r)) && w.relays[r].phase.Refused? && t in w.relays[r].rows && t in w.db.outbox
      && Run(Apply(w, Mark(r)), more).db.now < w.db.now + BackoffMs(w.db.outbox[t].attempts + 1)
    ensures var w := Run(Init(db, cfg), before);
      FailedOnce(w, Run(Apply(w, Mark(r)), more), t)
  {
    hide Apply;
    hide FailedOnce;
    InvRun(Init(db, cfg), before);
    WaitsAfterFailure(Run(Init(db, cfg), before), r, t, more);
  }

  ghost predicate Unmoved(w: World, r: RelayId, t: RowId)
    requires r in w.relays
  {
    t in w.db.outbox && t in w.relays[r].seen && w.relays[r].seen[t] == w.db.outbox[t]
  }

  // SKIP LOCKED: no row is ever in two relays' hands, and a held row cannot have moved since it
  // was read, which is why writing attempts as an absolute number loses no update.
  lemma RelaysHoldDisjointRows(db: B.Config, cfg: Config, steps: seq<Step>, r: RelayId, q: RelayId)
    requires r in Run(Init(db, cfg), steps).relays && q in Run(Init(db, cfg), steps).relays && r != q
    ensures var w := Run(Init(db, cfg), steps);
      && (forall t :: t in w.relays[r].rows ==> t !in w.relays[q].rows)
      && (forall t :: t in w.relays[r].rows ==> Unmoved(w, r, t))
  {
    InvRun(Init(db, cfg), steps);
    var w := Run(Init(db, cfg), steps);
    forall t | t in w.relays[r].rows ensures HeldAt(w, r, t) && Unmoved(w, r, t) {}
  }

  // attempts is exactly the number of committed failed drains of the row.
  lemma AttemptsCountFailedDrains(db: B.Config, cfg: Config, steps: seq<Step>, t: RowId)
    requires t in Run(Init(db, cfg), steps).db.outbox
    ensures var w := Run(Init(db, cfg), steps);
      w.db.outbox[t].attempts == Tally(w.failures, t)
      && (w.db.outbox[t].status.Failed? ==> w.db.outbox[t].attempts >= cfg.maxAttempts)
  {
    InvRun(Init(db, cfg), steps);
    CfgRun(Init(db, cfg), steps);
    assert RowAt(Run(Init(db, cfg), steps), t);
  }
}
