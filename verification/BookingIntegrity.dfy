/** The integrity report: an event row and a sum of bookings, read in two statements. */
module BookingIntegrity {
  import opened Bookings
  import opened LockedBookings
  import opened MixedBookings
  import opened Wrappers

  datatype Integrity = Integrity(totalSeats: int, availableSeats: int, confirmedSeats: int,
                                 oversoldBy: int, counterDrift: bool)

  function Report(row: EventRow, confirmedSeats: int): Integrity {
    Integrity(row.totalSeats, row.availableSeats, confirmedSeats,
              if confirmedSeats > row.totalSeats then confirmedSeats - row.totalSeats else 0,
              row.availableSeats != row.totalSeats - confirmedSeats)
  }

  // The report reads the event and the sum in two statements. It never reports overselling, but
  // it does report drift exactly when a booking of the event commits between the two reads.
  lemma {:induction false} IntegrityReport(cfg: Config, before: seq<Step>, between: seq<Step>, e: EventId)
    requires LockedOnly(before) && LockedOnly(between) && e in Run(Init(cfg), before).events
    ensures var first := Run(Init(cfg), before);
      var second := Run(Init(cfg), before + between);
      var r := Report(first.events[e], Sold(second.bookings, e));
      && r.oversoldBy == 0
      && (r.counterDrift <==> CountOf(second.bookings, e) != CountOf(first.bookings, e))
      && (between == [] ==> !r.counterDrift)
  {
    var first := Run(Init(cfg), before);
    RunConcat(Init(cfg), before, between);
    StrictRun(Init(cfg), before);
    StrictRun(first, between);
    var second := Run(first, between);
    assert StrictEvent(first, e) && StrictEvent(second, e);
    SoldTracksCount(first, between, e);
  }

  lemma {:induction false} SoldTracksCount(s: Db, steps: seq<Step>, e: EventId)
    requires StrictInv(s) && LockedOnly(steps)
    ensures var s' := Run(s, steps);
      && CountOf(s'.bookings, e) - CountOf(s.bookings, e) >= 0
      && Sold(s'.bookings, e) - Sold(s.bookings, e) >= CountOf(s'.bookings, e) - CountOf(s.bookings, e)
      && (CountOf(s'.bookings, e) == CountOf(s.bookings, e) ==> Sold(s'.bookings, e) == Sold(s.bookings, e))
  {
    if steps != [] {
      var before, last := steps[..|steps| - 1], steps[|steps| - 1];
      SoldTracksCount(s, before, e);
      StrictRun(s, before);
      SoldByStep(Run(s, before), last, e);
    }
  }

  lemma SoldByStep(s: Db, st: Step, e: EventId)
    requires StrictInv(s)
    ensures var s' := Apply(s, st);
      var more := CountOf(s'.bookings, e) - CountOf(s.bookings, e);
      more >= 0 && Sold(s'.bookings, e) - Sold(s.bookings, e) >= more
      && (more == 0 ==> Sold(s'.bookings, e) == Sold(s.bookings, e))
  {
    if Commits(s, st) {
      CommitEffect(s, st, e);
      assert StrictAt(s, st.t);
    }
  }

  // Whatever the strategies, naive included: the counter the report shows is never below the seats
  // really left, and overselling never goes without drift.
  lemma MixedReport(cfg: Config, before: seq<Step>, between: seq<Step>, e: EventId)
    requires e in Run(Init(cfg), before).events
    ensures var first := Run(Init(cfg), before);
      var second := Run(Init(cfg), before + between);
      var r := Report(first.events[e], Sold(second.bookings, e));
      && r.availableSeats >= 0 && r.availableSeats >= r.totalSeats - r.confirmedSeats
      && (r.oversoldBy > 0 ==> r.counterDrift)
      && e in second.events && second.events[e].totalSeats == r.totalSeats
  {
    var first := Run(Init(cfg), before);
    RunConcat(Init(cfg), before, between);
    MixedRun(Init(cfg), before);
    assert MixedEvent(first, e);
    SoldNeverFalls(first, between, e);
  }

  lemma {:induction false} SoldNeverFalls(s: Db, steps: seq<Step>, e: EventId)
    requires MixedInv(s) && e in s.events
    ensures var s' := Run(s, steps);
      Sold(s'.bookings, e) >= Sold(s.bookings, e) && e in s'.events && s'.events[e].totalSeats == s.events[e].totalSeats
  {
    if steps == [] {
    } else {
      var before, last := steps[..|steps| - 1], steps[|steps| - 1];
      SoldNeverFalls(s, before, e);
      MixedRun(s, before);
      SoldNotLess(Run(s, before), last, e);
    }
  }

  lemma SoldNotLess(s: Db, st: Step, e: EventId)
    requires MixedInv(s) && e in s.events
    ensures Sold(Apply(s, st).bookings, e) >= Sold(s.bookings, e)
    ensures e in Apply(s, st).events && Apply(s, st).events[e].totalSeats == s.events[e].totalSeats
  {
    if Commits(s, st) {
      CommitEffect(s, st, e);
      assert MixedAt(s, st.t);
    }
  }

  // A concrete false alarm: one ordinary sale lands between the two reads.
  lemma {:induction false} SpuriousDriftExample(cfg: Config) returns (before: seq<Step>, sale: seq<Step>)
    ensures LockedOnly(before) && LockedOnly(sale)
    ensures var first := Run(Init(cfg), before);
      var second := Run(Init(cfg), before + sale);
      0 in first.events && Report(first.events[0], Sold(second.bookings, 0)).counterDrift
  {
    var s;
    before, s := Extend(cfg, [], Init(cfg), CreateEvent(0, "gala", 2));
    var reserve;
    reserve, s := SeatReserved(cfg, before, s);
    var tail;
    tail, s := SaleConcluded(cfg, before + reserve, s, s.txs[1]);
    sale := reserve + tail;
    assert before + reserve + tail == before + sale;
    assert Sold(s.bookings, 0) == 1 by {
      SoldAppend([], s.bookings[0], 0);
      assert [] + [s.bookings[0]] == s.bookings;
    }
  }

  lemma SaleConcluded(cfg: Config, steps: seq<Step>, s: Db, tx: Tx) returns (tail: seq<Step>, next: Db)
    requires s == Run(Init(cfg), steps) && 1 in s.txs && s.txs[1] == tx && s.locks == map[tx.eventId := 1]
    requires tx.phase.Writing? && tx.phase.stage == Updated
    ensures next == Run(Init(cfg), steps + tail) && LockedOnly(tail)
    ensures next.bookings == s.bookings + [BookingOf(1, tx)]
  {
    SellOut(s, 1, tx);
    var all;
    all, next := Extend(cfg, steps, s, Act(1, Save));
    all, next := Extend(cfg, all, next, Act(1, Enqueue));
    all, next := Extend(cfg, all, next, Act(1, Commit));
    tail := [Act(1, Save), Act(1, Enqueue), Act(1, Commit)];
    assert all == steps + tail;
  }

  // One buyer has locked the row and updated it.
  lemma SeatReserved(cfg: Config, before: seq<Step>, s0: Db) returns (steps: seq<Step>, s: Db)
    requires s0 == Run(Init(cfg), before)
    requires s0 == Init(cfg).(events := map[0 := EventRow("gala", 2, 2, 0)])
    ensures s == Run(Init(cfg), before + steps) && LockedOnly(steps)
    ensures s.cfg == cfg && s.bookings == [] && s.locks == map[0 := 1] && 1 in s.txs
    ensures s.txs[1].eventId == 0 && s.txs[1].quantity == 1
    ensures s.txs[1].phase == Writing(Updated, EventRow("gala", 2, 1, 1), 1, "gala")
  {
    hide Run;
    hide Apply;
    var all;
    FirstSale(s0);
    all, s := Extend(cfg, before, s0, Begin(1, 0, "ann", 1, Pessimistic, None));
    all, s := Extend(cfg, all, s, Act(1, Read));
    all, s := Extend(cfg, all, s, Act(1, Write));
    steps := [Begin(1, 0, "ann", 1, Pessimistic, None), Act(1, Read), Act(1, Write)];
    assert all == before + steps;
  }

  lemma FirstSale(s: Db)
    requires s.events == map[0 := EventRow("gala", 2, 2, 0)] && s.locks == map[] && s.txs == map[]
    ensures var tx := Tx(0, "ann", 1, Pessimistic, None, Reading(0));
      var written := tx.(phase := Writing(Updated, EventRow("gala", 2, 1, 1), 1, "gala"));
      Apply(Apply(Apply(s, Begin(1, 0, "ann", 1, Pessimistic, None)), Act(1, Read)), Act(1, Write))
        == s.(txs := map[1 := written], locks := map[0 := 1])
  {
    var s1 := Apply(s, Begin(1, 0, "ann", 1, Pessimistic, None));
    assert s1 == s.(txs := map[1 := Tx(0, "ann", 1, Pessimistic, None, Reading(0))]);
    var s2 := Apply(s1, Act(1, Read));
    assert s2 == s.(locks := map[0 := 1],
      txs := map[1 := Tx(0, "ann", 1, Pessimistic, None, Deciding(Some(EventRow("gala", 2, 2, 0)), 0))]);
  }

  lemma Extend(cfg: Config, steps: seq<Step>, s: Db, st: Step) returns (longer: seq<Step>, next: Db)
    requires s == Run(Init(cfg), steps)
    ensures longer == steps + [st] && next == Apply(s, st) == Run(Init(cfg), longer)
  {
    longer, next := steps + [st], Apply(s, st);
    RunSnoc(Init(cfg), steps, st);
  }
}
