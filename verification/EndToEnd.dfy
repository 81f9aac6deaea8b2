/**
 The whole path of a booking: sales and relays on one side, the notification pipeline on the other,
 joined by the booking topic. A record published by a relay is a copy on the consumers' main topic,
 and nothing else is.
 */
module EndToEnd {
  import B = Bookings
  import C = RetryChains
  import G = OutboxGuarantee
  import L = NotificationLoss
  import N = Notifications
  import O = Outbox

  const BOOKING_CONFIRMED := "booking.confirmed"

  datatype World = World(sales: O.World, mail: N.World<B.Payload>)

  datatype Step = Sell(o: O.Step) | Notify(n: N.Step<B.Payload>)

  function Init(db: B.Config, relay: O.Config, mail: N.Config): World {
    World(O.Init(db, relay), N.Init(mail))
  }

  function Arrival(m: O.Record): N.Step<B.Payload> {
    N.Arrive(m.messageId, BOOKING_CONFIRMED, N.Json(m.payload))
  }

  function Arrivals(log: seq<O.Record>): (steps: seq<N.Step<B.Payload>>)
    ensures |steps| == |log| && forall i :: 0 <= i < |log| ==> steps[i] == Arrival(log[i])
  {
    seq(|log|, i requires 0 <= i < |log| => Arrival(log[i]))
  }

  // What a step of the whole is to the pipeline: nothing, the arrival of what a relay published, or
  // a step of its own.
  function Delivered(w: World, st: Step): seq<N.Step<B.Payload>> {
    match st
    case Sell(o) =>
      var log, log' := w.sales.log, O.Apply(w.sales, o).log;
      if |log| <= |log'| then Arrivals(log'[|log|..]) else []
    case Notify(n) => if n.Arrive? then [] else [n]
  }

  function Apply(w: World, st: Step): World {
    World(if st.Sell? then O.Apply(w.sales, st.o) else w.sales, N.Run(w.mail, Delivered(w, st)))
  }

  function Run(w: World, steps: seq<Step>): World {
    if steps == [] then w else Apply(Run(w, steps[..|steps| - 1]), steps[|steps| - 1])
  }

  // ---------- The two halves of a run ----------

  function Sales(steps: seq<Step>): seq<O.Step> {
    if steps == [] then []
    else
      var last := steps[|steps| - 1];
      Sales(steps[..|steps| - 1]) + if last.Sell? then [last.o] else []
  }

  function Mail(w: World, steps: seq<Step>): seq<N.Step<B.Payload>> {
    if steps == [] then []
    else Mail(w, steps[..|steps| - 1]) + Delivered(Run(w, steps[..|steps| - 1]), steps[|steps| - 1])
  }

  lemma {:induction false} HalvesOf(w: World, steps: seq<Step>)
    ensures Run(w, steps).sales == O.Run(w.sales, Sales(steps))
    ensures Run(w, steps).mail == N.Run(w.mail, Mail(w, steps))
  {
    if steps == [] {
    } else {
      var before, last := steps[..|steps| - 1], steps[|steps| - 1];
      HalvesOf(w, before);
      N.RunConcat(w.mail, Mail(w, before), Delivered(Run(w, before), last));
      if last.Sell? {
        O.RunSnoc(w.sales, Sales(before), last.o);
      } else {
        assert Sales(before) + [] == Sales(before);
      }
    }
  }

  // ---------- The topic carries exactly what the relays published ----------

  ghost predicate OnTopic(w: World, m: O.Record, c: N.CopyId) {
    && c < |w.mail.copies| && w.mail.copies[c].topic.Main?
    && w.mail.copies[c].messageId == m.messageId && w.mail.copies[c].body == N.Json(m.payload)
  }

  ghost predicate CarriedAt(w: World, i: nat) {
    i < |w.sales.log| ==> exists c: N.CopyId :: OnTopic(w, w.sales.log[i], c)
  }

  ghost predicate SourceAt(w: World, c: N.CopyId) {
    c < |w.mail.copies| && w.mail.copies[c].topic.Main? ==>
      exists i :: 0 <= i < |w.sales.log| && OnTopic(w, w.sales.log[i], c)
  }

  ghost predicate TopicInv(w: World) {
    && (forall i {:trigger CarriedAt(w, i)} :: CarriedAt(w, i))
    && (forall c {:trigger SourceAt(w, c)} :: SourceAt(w, c))
  }

  // Copies from n on are those of the records, one for one.
  ghost predicate CopiesOf(copies: seq<N.Copy<B.Payload>>, n: nat, log: seq<O.Record>) {
    |copies| == n + |log|
    && forall i :: 0 <= i < |log| ==> CopyOf(copies[n + i], log[i])
  }

  ghost predicate CopyOf(copy: N.Copy<B.Payload>, m: O.Record) {
    copy.topic.Main? && copy.messageId == m.messageId && copy.body == N.Json(m.payload)
  }

  // Records arriving one after the other become that many copies at the end of the main topic.
  lemma {:induction false} ArrivalsAppend(mail: N.World<B.Payload>, log: seq<O.Record>)
    ensures var after := N.Run(mail, Arrivals(log));
      && after == mail.(copies := after.copies) && mail.copies <= after.copies
      && CopiesOf(after.copies, |mail.copies|, log)
  {
    if log == [] {
    } else {
      var n := |log| - 1;
      var before, mid := log[..n], N.Run(mail, Arrivals(log[..n]));
      ArrivalsAppend(mail, before);
      assert Arrivals(log)[..n] == Arrivals(before);
      var after := N.Apply(mid, Arrival(log[n]));
      assert N.Run(mail, Arrivals(log)) == after;
      assert CopyOf(after.copies[|mail.copies| + n], log[n]);
      forall i | 0 <= i < |log| ensures CopyOf(after.copies[|mail.copies| + i], log[i]) {
        if i < n { assert after.copies[|mail.copies| + i] == mid.copies[|mail.copies| + i]; }
      }
    }
  }

  // v is w with more records in the log and, one for one, more copies on the main topic.
  ghost predicate Grown(w: World, v: World, more: seq<O.Record>) {
    && v.sales.log == w.sales.log + more
    && |v.mail.copies| == |w.mail.copies| + |more| && v.mail.copies[..|w.mail.copies|] == w.mail.copies
    && forall i :: 0 <= i < |more| ==> OnTopic(v, more[i], |w.mail.copies| + i)
  }

  lemma GrownCarried(w: World, v: World, more: seq<O.Record>, i: nat)
    requires TopicInv(w) && Grown(w, v, more)
    ensures CarriedAt(v, i)
  {
    var n := |w.sales.log|;
    if i < n {
      assert CarriedAt(w, i);
      var c: N.CopyId :| OnTopic(w, w.sales.log[i], c);
      assert v.mail.copies[c] == w.mail.copies[c];
      assert OnTopic(v, v.sales.log[i], c);
    } else if i < |v.sales.log| {
      assert v.sales.log[i] == more[i - n];
      var c: N.CopyId := |w.mail.copies| + (i - n);
      assert OnTopic(v, v.sales.log[i], c);
    }
  }

  lemma GrownSource(w: World, v: World, more: seq<O.Record>, c: N.CopyId)
    requires TopicInv(w) && Grown(w, v, more)
    ensures SourceAt(v, c)
  {
    var n := |w.mail.copies|;
    if c < n {
      assert SourceAt(w, c);
      assert v.mail.copies[c] == w.mail.copies[c];
      if w.mail.copies[c].topic.Main? {
        var i :| 0 <= i < |w.sales.log| && OnTopic(w, w.sales.log[i], c);
        assert OnTopic(v, v.sales.log[i], c);
      }
    } else if c < |v.mail.copies| {
      assert OnTopic(v, more[c - n], n + (c - n));
      assert v.sales.log[|w.sales.log| + (c - n)] == more[c - n];
    }
  }

  lemma LogGrows(w: O.World, st: O.Step)
    ensures w.log <= O.Apply(w, st).log
  {
  }

  lemma PublishedGrows(w: World, sales: O.World, more: seq<O.Record>)
    requires sales.log == w.sales.log + more
    ensures Grown(w, World(sales, N.Run(w.mail, Arrivals(more))), more)
  {
    ArrivalsAppend(w.mail, more);
    var copies := N.Run(w.mail, Arrivals(more)).copies;
    forall i | 0 <= i < |more|
      ensures OnTopic(World(sales, N.Run(w.mail, Arrivals(more))), more[i], |w.mail.copies| + i)
    {
      assert CopyOf(copies[|w.mail.copies| + i], more[i]);
    }
  }

  lemma SaleGrows(w: World, o: O.Step) returns (more: seq<O.Record>)
    ensures Grown(w, Apply(w, Sell(o)), more)
  {
    var sales := O.Apply(w.sales, o);
    LogGrows(w.sales, o);
    more := sales.log[|w.sales.log|..];
    PublishedGrows(w, sales, more);
    assert Apply(w, Sell(o)) == World(sales, N.Run(w.mail, Arrivals(more)));
  }

  lemma TopicStep(w: World, st: Step)
    requires TopicInv(w)
    ensures TopicInv(Apply(w, st))
  {
    match st
    case Sell(o) =>
      var more := SaleGrows(w, o);
      forall i: nat ensures CarriedAt(Apply(w, st), i) { GrownCarried(w, Apply(w, st), more, i); }
      forall c: nat ensures SourceAt(Apply(w, st), c) { GrownSource(w, Apply(w, st), more, c); }
    case Notify(n) =>
      if !n.Arrive? { OwnStep(w, n); }
  }

  lemma OwnStepOf(w: World, n: N.Step<B.Payload>)
    requires !n.Arrive?
    ensures Apply(w, Notify(n)) == World(w.sales, N.Apply(w.mail, n))
  {
    hide N.Apply;
    N.RunSnoc(w.mail, [], n);
    assert [] + [n] == [n];
  }

  // A step of the pipeline itself puts nothing on the main topic and takes nothing off it.
  lemma OwnStep(w: World, n: N.Step<B.Payload>)
    requires TopicInv(w) && !n.Arrive?
    ensures TopicInv(Apply(w, Notify(n)))
  {
    OwnStepOf(w, n);
    var w' := World(w.sales, N.Apply(w.mail, n));
    forall i: nat ensures CarriedAt(w', i) { OwnStepCarries(w, n, i); }
    forall c: nat ensures SourceAt(w', c) { OwnStepSource(w, n, c); }
  }

  lemma OwnStepCarries(w: World, n: N.Step<B.Payload>, i: nat)
    requires TopicInv(w) && !n.Arrive?
    ensures CarriedAt(World(w.sales, N.Apply(w.mail, n)), i)
  {
    hide N.Apply;
    assert CarriedAt(w, i);
    if i < |w.sales.log| {
      var c: N.CopyId :| OnTopic(w, w.sales.log[i], c);
      N.CopiesStay(w.mail, n, c);
      assert OnTopic(World(w.sales, N.Apply(w.mail, n)), w.sales.log[i], c);
    }
  }

  lemma NewCopiesAreRetries(w: N.World<B.Payload>, n: N.Step<B.Payload>, c: N.CopyId)
    requires !n.Arrive? && |w.copies| <= c < |N.Apply(w, n).copies|
    ensures N.Apply(w, n).copies[c].topic.Retry?
  {
  }

  lemma OwnStepSource(w: World, n: N.Step<B.Payload>, c: N.CopyId)
    requires TopicInv(w) && !n.Arrive?
    ensures SourceAt(World(w.sales, N.Apply(w.mail, n)), c)
  {
    hide N.Apply;
    var w' := World(w.sales, N.Apply(w.mail, n));
    assert SourceAt(w, c);
    if c < |w.mail.copies| {
      N.CopiesStay(w.mail, n, c);
      if w.mail.copies[c].topic.Main? {
        var i :| 0 <= i < |w.sales.log| && OnTopic(w, w.sales.log[i], c);
        assert OnTopic(w', w'.sales.log[i], c);
      }
    } else if c < |w'.mail.copies| {
      NewCopiesAreRetries(w.mail, n, c);
    }
  }

  lemma {:induction false} TopicRun(w: World, steps: seq<Step>)
    requires TopicInv(w)
    ensures TopicInv(Run(w, steps))
  {
    if steps == [] {
    } else {
      TopicRun(w, steps[..|steps| - 1]);
      TopicStep(Run(w, steps[..|steps| - 1]), steps[|steps| - 1]);
    }
  }

  // ---------- No booking without its notification ----------

  // The pipeline meets none of its faults.
  ghost predicate Fair(w: World, steps: seq<Step>) {
    steps == [] ||
    (Fair(w, steps[..|steps| - 1])
     && var last := steps[|steps| - 1];
     last.Notify? ==> !L.Fault(Run(w, steps[..|steps| - 1]).mail, last.n))
  }

  lemma {:induction false} ArrivalsAreFaultFree(a: N.World<B.Payload>, log: seq<O.Record>)
    ensures L.FaultFree(a, Arrivals(log))
  {
    if log != [] {
      ArrivalsAreFaultFree(a, log[..|log| - 1]);
      assert Arrivals(log)[..|log| - 1] == Arrivals(log[..|log| - 1]);
    }
  }

  lemma {:induction false} FaultFreeConcat(w: N.World<B.Payload>, a: seq<N.Step<B.Payload>>, b: seq<N.Step<B.Payload>>)
    requires L.FaultFree(w, a) && L.FaultFree(N.Run(w, a), b)
    ensures L.FaultFree(w, a + b)
  {
    hide N.Run;
    hide N.Apply;
    hide L.Fault;
    if b == [] {
      assert a + b == a;
    } else {
      var before, last := b[..|b| - 1], b[|b| - 1];
      FaultFreeConcat(w, a, before);
      N.RunConcat(w, a, before);
      assert a + b == (a + before) + [last];
      assert (a + b)[..|a + b| - 1] == a + before;
    }
  }

  lemma OneStepFaultFree(w: N.World<B.Payload>, n: N.Step<B.Payload>)
    requires !L.Fault(w, n)
    ensures L.FaultFree(w, [n])
  {
    assert [n][..0] == [];
  }

  lemma {:induction false} FairMail(w: World, steps: seq<Step>)
    requires Fair(w, steps)
    ensures L.FaultFree(w.mail, Mail(w, steps))
  {
    if steps == [] {
    } else {
      var before, last := steps[..|steps| - 1], steps[|steps| - 1];
      FairMail(w, before);
      HalvesOf(w, before);
      DeliveredFaultFree(Run(w, before), last);
      FaultFreeConcat(w.mail, Mail(w, before), Delivered(Run(w, before), last));
    }
  }

  lemma DeliveredFaultFree(w: World, st: Step)
    requires st.Notify? ==> !L.Fault(w.mail, st.n)
    ensures L.FaultFree(w.mail, Delivered(w, st))
  {
    match st
    case Sell(o) =>
      LogGrows(w.sales, o);
      ArrivalsAreFaultFree(w.mail, O.Apply(w.sales, o).log[|w.sales.log|..]);
    case Notify(n) => if !n.Arrive? { OneStepFaultFree(w.mail, n); }
  }

  // What has become of a booking's event.
  ghost predicate Notified(w: World, b: B.Booking) {
    b.id in w.mail.sent || L.Dead(w.mail, b.id) || L.LiveFor(w.mail, b.id)
  }

  ghost predicate StillInOutbox(w: World, b: B.Booking) {
    b.id in w.sales.db.outbox && w.sales.db.outbox[b.id].status.Pending?
  }

  // Publishing was given up after the allowed attempts, and the row says so.
  ghost predicate GivenUp(w: World, b: B.Booking) {
    && b.id in w.sales.db.outbox && w.sales.db.outbox[b.id].status.Failed?
    && w.sales.db.outbox[b.id].attempts >= O.Limit(w.sales.cfg)
  }

  // Every committed booking, in every reachable state, still waits in the outbox, is on record as
  // given up, or has reached the pipeline, where it is sent, dead-lettered or still to be handled.
  lemma {:induction false} NoBookingForgotten(db: B.Config, relay: O.Config, mail: N.Config, steps: seq<Step>,
                                              b: B.Booking)
    requires db.outboxEnabled && Fair(Init(db, relay, mail), steps)
    requires b in Run(Init(db, relay, mail), steps).sales.db.bookings
    ensures var w := Run(Init(db, relay, mail), steps);
      StillInOutbox(w, b) || GivenUp(w, b) || Notified(w, b)
  {
    var w0 := Init(db, relay, mail);
    var w := Run(w0, steps);
    HalvesOf(w0, steps);
    G.NoSilentLoss(db, relay, Sales(steps));
    assert G.Accounted(w.sales, b);
    if w.sales.db.outbox[b.id].status.Published? {
      Reaches(db, relay, mail, steps, O.Message(b.id, w.sales.db.outbox[b.id]));
    } else if w.sales.db.outbox[b.id].status.Failed? {
      G.AttemptsCountFailedDrains(db, relay, Sales(steps), b.id);
      O.CfgRun(O.Init(db, relay), Sales(steps));
    }
  }

  // Whatever a relay published is sent, dead-lettered or still to be handled.
  lemma Reaches(db: B.Config, relay: O.Config, mail: N.Config, steps: seq<Step>, m: O.Record)
    requires Fair(Init(db, relay, mail), steps) && m in Run(Init(db, relay, mail), steps).sales.log
    ensures var w := Run(Init(db, relay, mail), steps);
      m.messageId in w.mail.sent || L.Dead(w.mail, m.messageId) || L.LiveFor(w.mail, m.messageId)
  {
    var w0 := Init(db, relay, mail);
    var w := Run(w0, steps);
    HalvesOf(w0, steps);
    FairMail(w0, steps);
    TopicRun(w0, steps);
    var i :| 0 <= i < |w.sales.log| && w.sales.log[i] == m;
    assert CarriedAt(w, i);
    var c: N.CopyId :| OnTopic(w, m, c);
    L.EveryMessageAccountedFor(mail, Mail(w0, steps), c);
  }

  // ---------- No notification without its booking, and none twice ----------

  ghost predicate SentAt(w: N.World<B.Payload>, i: nat) {
    i < |w.sent| ==> exists c: N.CopyId :: CopyHas(w, c, w.sent[i])
  }

  ghost predicate CopyHas(w: N.World<B.Payload>, c: N.CopyId, m: N.MessageId) {
    c < |w.copies| && w.copies[c].messageId == m
  }

  lemma {:induction false} SentFromCopies(w: N.World<B.Payload>, steps: seq<N.Step<B.Payload>>, i: nat)
    requires forall i: nat {:trigger SentAt(w, i)} :: SentAt(w, i)
    ensures SentAt(N.Run(w, steps), i)
  {
    if steps == [] {
      assert SentAt(w, i);
    } else {
      var before, last := steps[..|steps| - 1], steps[|steps| - 1];
      var v := N.Run(w, before);
      SentFromCopies(w, before, i);
      if i < |v.sent| {
        var c: N.CopyId :| CopyHas(v, c, v.sent[i]);
        N.CopiesStay(v, last, c);
        assert N.Apply(v, last).sent[i] == v.sent[i];
        assert CopyHas(N.Apply(v, last), c, v.sent[i]);
      } else if i < |N.Apply(v, last).sent| {
        assert CopyHas(N.Apply(v, last), v.handlers[last.h].copy, N.Apply(v, last).sent[i]);
      }
    }
  }

  // However often records are published, redelivered, retried or duplicated, and whatever crashes
  // or fails: a notification is sent only for a committed booking, with that booking's content on
  // the topic, and at most once.
  lemma NotifiedOnceAndOnlyForBookings(db: B.Config, relay: O.Config, mail: N.Config, steps: seq<Step>)
    requires db.outboxEnabled
    ensures var w := Run(Init(db, relay, mail), steps);
      && (forall i, j :: 0 <= i < j < |w.mail.sent| ==> w.mail.sent[i] != w.mail.sent[j])
      && (forall m :: m in w.mail.sent ==> exists b :: b in w.sales.db.bookings && b.id == m && Announced(w, b))
  {
    var w0 := Init(db, relay, mail);
    var w := Run(w0, steps);
    HalvesOf(w0, steps);
    N.DeliveredAtMostOnce(mail, Mail(w0, steps));
    forall m | m in w.mail.sent ensures exists b :: b in w.sales.db.bookings && b.id == m && Announced(w, b) {
      var i: nat :| i < |w.mail.sent| && w.mail.sent[i] == m;
      SentFromCopies(w0.mail, Mail(w0, steps), i);
      assert SentAt(w.mail, i);
      var c: N.CopyId :| CopyHas(w.mail, c, m);
      BookingBehind(db, relay, mail, steps, c);
    }
  }

  // A main-topic copy carries the booking's content.
  ghost predicate Announced(w: World, b: B.Booking) {
    exists m, c: N.CopyId :: m in w.sales.log && OnTopic(w, m, c) && G.EventOf(m, b)
  }

  // Follow the retry chain back to the main topic, the record to its row, the row to its booking.
  lemma BookingBehind(db: B.Config, relay: O.Config, mail: N.Config, steps: seq<Step>, c: N.CopyId)
    requires db.outboxEnabled && c < |Run(Init(db, relay, mail), steps).mail.copies|
    ensures var w := Run(Init(db, relay, mail), steps);
      exists b :: b in w.sales.db.bookings && b.id == w.mail.copies[c].messageId && Announced(w, b)
  {
    var w0 := Init(db, relay, mail);
    var w := Run(w0, steps);
    HalvesOf(w0, steps);
    TopicRun(w0, steps);
    C.ChainRun(mail, Mail(w0, steps));
    C.RetryChain(w.mail, c);
    var first := C.Chain(w.mail, c)[0];
    assert C.SameMessage(w.mail, first, c);
    assert SourceAt(w, first);
    var i :| 0 <= i < |w.sales.log| && OnTopic(w, w.sales.log[i], first);
    var m := w.sales.log[i];
    G.NoSilentLoss(db, relay, Sales(steps));
    assert m in w.sales.log;
    var b :| b in w.sales.db.bookings && G.EventOf(m, b);
    assert Announced(w, b);
  }

  // When the outbox holds nothing pending and the topics nothing unconsumed, every committed
  // booking was notified exactly once, dead-lettered, or given up by the relay on record.
  lemma {:induction false} SettledMeansNotified(db: B.Config, relay: O.Config, mail: N.Config, steps: seq<Step>,
                                                b: B.Booking)
    requires db.outboxEnabled && Fair(Init(db, relay, mail), steps)
    requires var w := Run(Init(db, relay, mail), steps);
      && b in w.sales.db.bookings
      && (forall t :: t in w.sales.db.outbox ==> !w.sales.db.outbox[t].status.Pending?)
      && (forall c :: 0 <= c < |w.mail.copies| ==> w.mail.copies[c].consumed)
    ensures var w := Run(Init(db, relay, mail), steps);
      multiset(w.mail.sent)[b.id] == 1 || L.Dead(w.mail, b.id) || GivenUp(w, b)
  {
    var w := Run(Init(db, relay, mail), steps);
    NoBookingForgotten(db, relay, mail, steps, b);
    NotifiedOnceAndOnlyForBookings(db, relay, mail, steps);
    if b.id in w.mail.sent { CountOnce(w.mail.sent, b.id); }
  }

  lemma {:induction false} CountOnce(s: seq<N.MessageId>, m: N.MessageId)
    requires forall i, j :: 0 <= i < j < |s| ==> s[i] != s[j]
    ensures multiset(s)[m] == if m in s then 1 else 0
  {
    if s == [] {
    } else {
      var n := |s| - 1;
      assert s == s[..n] + [s[n]];
      CountOnce(s[..n], m);
    }
  }
}
