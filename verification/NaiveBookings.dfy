/** The unprotected strategy oversells without bound. */
module NaiveBookings {
  import opened Bookings
  import opened BookingIntegrity
  import opened Wrappers

  // CreateEvent, then k buyers of one seat each who all read before anyone writes.
  function Readers(total: int, k: nat): seq<Step> {
    if k == 0 then [CreateEvent(0, "gala", total)]
    else Readers(total, k - 1) + [Begin(k - 1, 0, "buyer", 1, Naive, None), Act(k - 1, Read)]
  }

  // Then the first k buyers write and commit one after the other.
  function Writers(k: nat): seq<Step> {
    if k == 0 then []
    else Writers(k - 1) + [Act(k - 1, Write), Act(k - 1, Save), Act(k - 1, Enqueue), Act(k - 1, Commit)]
  }

  function Stale(total: int): Tx {
    Tx(0, "buyer", 1, Naive, None, Deciding(Some(EventRow("gala", total, total, 0)), 0))
  }

  // Buyers sold.. have read `total` seats and are still to write.
  ghost predicate Racing(s: Db, cfg: Config, total: int, sold: nat, buyers: nat) {
    && s.cfg == cfg && s.locks == map[] && 0 in s.events
    && s.events[0] == EventRow("gala", total, if sold == 0 then total else total - 1, 0)
    && Sold(s.bookings, 0) == sold
    && (forall t :: sold <= t < buyers ==> t in s.txs && s.txs[t] == Stale(total))
    && (forall t :: t in s.txs ==> t < buyers)
  }

  lemma RunTwo(s: Db, steps: seq<Step>, a: Step, b: Step)
    ensures Run(s, steps + [a, b]) == Apply(Apply(Run(s, steps), a), b)
  {
    assert (steps + [a]) + [b] == steps + [a, b];
    RunSnoc(s, steps, a);
    RunSnoc(s, steps + [a], b);
  }

  lemma OneRead(s: Db, cfg: Config, total: int, k: nat)
    requires total >= 1 && Racing(s, cfg, total, 0, k)
    ensures Racing(Apply(Apply(s, Begin(k, 0, "buyer", 1, Naive, None)), Act(k, Read)), cfg, total, 0, k + 1)
  {
    var s1 := Apply(s, Begin(k, 0, "buyer", 1, Naive, None));
    assert s1 == s.(txs := s.txs[k := Tx(0, "buyer", 1, Naive, None, Reading(0))]);
    var s2 := Apply(s1, Act(k, Read));
    assert s2.txs == s1.txs[k := Stale(total)];
    assert s2 == s1.(txs := s2.txs);
  }

  lemma OneEvent(cfg: Config, total: int)
    requires total >= 1
    ensures Racing(Run(Init(cfg), [CreateEvent(0, "gala", total)]), cfg, total, 0, 0)
  {
    RunSnoc(Init(cfg), [], CreateEvent(0, "gala", total));
    assert [] + [CreateEvent(0, "gala", total)] == [CreateEvent(0, "gala", total)];
    assert Run(Init(cfg), []) == Init(cfg);
  }

  lemma {:induction false} AllRead(cfg: Config, total: int, k: nat)
    requires total >= 1
    ensures Racing(Run(Init(cfg), Readers(total, k)), cfg, total, 0, k)
  {
    hide Run;
    if k == 0 {
      OneEvent(cfg, total);
    } else {
      AllRead(cfg, total, k - 1);
      OneRead(Run(Init(cfg), Readers(total, k - 1)), cfg, total, k - 1);
      RunTwo(Init(cfg), Readers(total, k - 1), Begin(k - 1, 0, "buyer", 1, Naive, None), Act(k - 1, Read));
    }
  }

  lemma StaleWrite(s: Db, cfg: Config, total: int, sold: nat, buyers: nat)
    requires total >= 1 && sold < buyers && Racing(s, cfg, total, sold, buyers)
    ensures Apply(s, Act(sold, Write)) == s.(
        txs := s.txs[sold := Stale(total).(phase :=
                 Writing(Updated, EventRow("gala", total, total - 1, 0), total - 1, "gala"))],
        locks := map[0 := sold])
  {
    assert s.txs[sold] == Stale(total);
  }

  lemma OneStaleSale(s: Db, cfg: Config, total: int, sold: nat, buyers: nat)
    requires total >= 1 && sold < buyers && Racing(s, cfg, total, sold, buyers)
    ensures var s' := Apply(Apply(Apply(Apply(s, Act(sold, Write)), Act(sold, Save)),
                                  Act(sold, Enqueue)), Act(sold, Commit));
      Racing(s', cfg, total, sold + 1, buyers)
  {
    StaleWrite(s, cfg, total, sold, buyers);
    var s1 := Apply(s, Act(sold, Write));
    SellOut(s1, sold, s1.txs[sold]);
    SoldAppend(s.bookings, BookingOf(sold, s1.txs[sold]), 0);
  }

  lemma RunSale(s: Db, done: seq<Step>, t: TxId)
    ensures Run(s, done + [Act(t, Write), Act(t, Save), Act(t, Enqueue), Act(t, Commit)]) ==
      Apply(Apply(Apply(Apply(Run(s, done), Act(t, Write)), Act(t, Save)), Act(t, Enqueue)), Act(t, Commit))
  {
    RunTwo(s, done, Act(t, Write), Act(t, Save));
    RunTwo(s, done + [Act(t, Write), Act(t, Save)], Act(t, Enqueue), Act(t, Commit));
    assert done + [Act(t, Write), Act(t, Save)] + [Act(t, Enqueue), Act(t, Commit)]
        == done + [Act(t, Write), Act(t, Save), Act(t, Enqueue), Act(t, Commit)];
  }

  lemma {:induction false} AllWrite(cfg: Config, total: int, buyers: nat, k: nat)
    requires total >= 1 && k <= buyers
    ensures Racing(Run(Init(cfg), Readers(total, buyers) + Writers(k)), cfg, total, k, buyers)
  {
    hide Run;
    hide Apply;
    hide Racing;
    var readers := Readers(total, buyers);
    if k == 0 {
      AllRead(cfg, total, buyers);
      assert readers + Writers(0) == readers;
    } else {
      AllWrite(cfg, total, buyers, k - 1);
      NextWrite(cfg, total, buyers, k - 1, readers + Writers(k - 1));
      assert readers + Writers(k) == readers + Writers(k - 1)
        + [Act(k - 1, Write), Act(k - 1, Save), Act(k - 1, Enqueue), Act(k - 1, Commit)];
    }
  }

  lemma NextWrite(cfg: Config, total: int, buyers: nat, t: nat, done: seq<Step>)
    requires total >= 1 && t < buyers && Racing(Run(Init(cfg), done), cfg, total, t, buyers)
    ensures Racing(Run(Init(cfg), done + [Act(t, Write), Act(t, Save), Act(t, Enqueue), Act(t, Commit)]),
                   cfg, total, t + 1, buyers)
  {
    hide Run;
    hide Apply;
    hide Racing;
    RunSale(Init(cfg), done, t);
    OneStaleSale(Run(Init(cfg), done), cfg, total, t, buyers);
  }

  // For every venue size and every n there is an unprotected run that sells n seats too many
  // while the counter still claims all seats but one.
  lemma {:induction false} NaiveOversells(cfg: Config, total: int, n: nat) returns (steps: seq<Step>)
    requires total >= 1
    ensures var s := Run(Init(cfg), steps);
      && 0 in s.events && s.events[0].totalSeats == total
      && Report(s.events[0], Sold(s.bookings, 0)).oversoldBy == n
      && (n > 0 ==> s.events[0].availableSeats == total - 1)
  {
    steps := Readers(total, total + n) + Writers(total + n);
    AllWrite(cfg, total, total + n, total + n);
  }
}
