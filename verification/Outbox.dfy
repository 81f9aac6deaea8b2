/**
 The transactional outbox and any number of relays draining it, on top of the booking machine.

 A relay's transaction polls (FOR UPDATE SKIP LOCKED), publishes, marks and commits. Its marks are
 private until the commit, so they are one step with it. A publish that fails may still have
 delivered any part of the batch. A crash drops the relay's transaction, never the log.
 */
module Outbox {
  import opened Arithmetic
  import B = Bookings

  type RowId = B.TxId
  type RelayId = nat

  // One record of the booking topic: the headers and body the relay writes for a row.
  datatype Record = Record(messageId: RowId, key: B.EventId, payload: B.Payload)

  datatype RelayPhase = Polled | Sent | Refused

  // The rows a relay holds locked, as it read them.
  datatype Relay = Relay(rows: seq<RowId>, seen: map<RowId, B.OutboxRow>, phase: RelayPhase)

  datatype Config = Config(batchSize: int, maxAttempts: int)

  // `failures` counts, per row, the committed drains whose publish failed (history only).
  datatype World = World(db: B.Db, cfg: Config, log: seq<Record>, relays: map<RelayId, Relay>,
                         failures: map<RowId, nat>)

  datatype Step =
    | Sale(st: B.Step)
    | Poll(r: RelayId, rows: seq<RowId>)
    | Publish(r: RelayId, ok: bool, delivered: seq<RowId>)
    | Mark(r: RelayId)
    | Crash(r: RelayId)

  // ---------- The steps ----------

  function Init(db: B.Config, cfg: Config): World {
    World(B.Init(db), cfg, [], map[], map[])
  }

  predicate Held(relays: map<RelayId, Relay>, t: RowId) {
    exists r :: r in relays && t in relays[r].rows
  }

  // WHERE status = 'pending' AND available_at <= now(), not locked by a sibling.
  predicate Eligible(w: World, t: RowId) {
    && t in w.db.outbox && w.db.outbox[t].status.Pending?
    && w.db.outbox[t].availableAt <= w.db.now && !Held(w.relays, t)
  }

  predicate Distinct(rows: seq<RowId>) {
    forall i, j :: 0 <= i < j < |rows| ==> rows[i] != rows[j]
  }

  predicate MayPoll(w: World, r: RelayId, rows: seq<RowId>) {
    && r !in w.relays && rows != [] && |rows| <= w.cfg.batchSize && Distinct(rows)
    && forall t :: t in rows ==> Eligible(w, t)
  }

  function Message(t: RowId, row: B.OutboxRow): Record {
    Record(t, row.messageKey, row.payload)
  }

  function Messages(rows: seq<RowId>, seen: map<RowId, B.OutboxRow>): (log: seq<Record>)
    requires forall t :: t in rows ==> t in seen
    ensures |log| == |rows|
    ensures forall i :: 0 <= i < |rows| ==> log[i] == Message(rows[i], seen[rows[i]])
  {
    if rows == [] then [] else [Message(rows[0], seen[rows[0]])] + Messages(rows[1..], seen)
  }

  function Only(rows: seq<RowId>, held: seq<RowId>): (some: seq<RowId>)
    ensures forall t :: t in some <==> t in rows && t in held
  {
    if rows == [] then []
    else (if rows[0] in held then [rows[0]] else []) + Only(rows[1..], held)
  }

  // min(2 ** attempts * 250, 60_000)
  function BackoffMs(attempts: nat): int {
    Min(Pow2(attempts) * 250, 60_000)
  }

  function MarkPublished(row: B.OutboxRow): B.OutboxRow {
    row.(status := B.Published)
  }

  // The attempts written are one more than those read at poll time.
  function MarkFailed(row: B.OutboxRow, seen: B.OutboxRow, maxAttempts: int, now: int): B.OutboxRow {
    var attempts := seen.attempts + 1;
    row.(attempts := attempts, status := if attempts >= maxAttempts then B.Failed else B.Pending,
         availableAt := now + BackoffMs(attempts))
  }

  function Marked(w: World, relay: Relay): map<RowId, B.OutboxRow> {
    map t | t in w.db.outbox ::
      if t !in relay.rows || t !in relay.seen then w.db.outbox[t]
      else if relay.phase.Sent? then MarkPublished(w.db.outbox[t])
      else MarkFailed(w.db.outbox[t], relay.seen[t], w.cfg.maxAttempts, w.db.now)
  }

  function Tally(failures: map<RowId, nat>, t: RowId): nat {
    if t in failures then failures[t] else 0
  }

  function Without(relays: map<RelayId, Relay>, r: RelayId): map<RelayId, Relay> {
    map q | q in relays && q != r :: relays[q]
  }

  predicate MayMark(w: World, st: Step) {
    st.Mark? && st.r in w.relays && !w.relays[st.r].phase.Polled?
  }

  function Apply(w: World, st: Step): World {
    match st
    case Sale(s) => w.(db := B.Apply(w.db, s))
    case Poll(r, rows) =>
      if !MayPoll(w, r, rows) then w
      else w.(relays := w.relays[r := Relay(rows, map t | t in w.db.outbox && t in rows :: w.db.outbox[t], Polled)])
    case Publish(r, ok, delivered) =>
      if r !in w.relays || !w.relays[r].phase.Polled? then w
      else
        var relay := w.relays[r];
        var out := if ok then relay.rows else Only(delivered, relay.rows);
        if forall t :: t in relay.rows ==> t in relay.seen then
          w.(log := w.log + Messages(out, relay.seen),
             relays := w.relays[r := relay.(phase := if ok then Sent else Refused)])
        else w
    case Mark(r) =>
      if !MayMark(w, st) then w
      else
        var relay := w.relays[r];
        w.(db := w.db.(outbox := Marked(w, relay)), relays := Without(w.relays, r),
           failures := if relay.phase.Sent? then w.failures
                       else map t | t in w.failures.Keys + (set u | u in relay.rows) ::
                              Tally(w.failures, t) + if t in relay.rows then 1 else 0)
    case Crash(r) => w.(relays := Without(w.relays, r))
  }

  function Run(w: World, steps: seq<Step>): World {
    if steps == [] then w else Apply(Run(w, steps[..|steps| - 1]), steps[|steps| - 1])
  }

  lemma RunSnoc(w: World, steps: seq<Step>, st: Step)
    ensures Run(w, steps + [st]) == Apply(Run(w, steps), st)
  {
    assert (steps + [st])[..|steps|] == steps;
  }

  // ---------- Bookings and their rows ----------

  ghost predicate RowFor(row: B.OutboxRow, b: B.Booking) {
    && row.aggregateId == b.id && row.messageKey == b.eventId
    && row.payload.bookingId == b.id && row.payload.eventId == b.eventId
    && row.payload.userId == b.userId && row.payload.quantity == b.quantity
  }

  // The j-th booking is finished business and has its row.
  ghost predicate BookingAt(db: B.Db, j: nat)
    requires j < |db.bookings|
  {
    var b := db.bookings[j];
    && b.id in db.txs && db.txs[b.id].phase.Done?
    && (db.cfg.outboxEnabled ==> b.id in db.outbox && RowFor(db.outbox[b.id], b))
  }

  ghost predicate Paired(db: B.Db) {
    && (forall j: nat {:trigger BookingAt(db, j)} :: j < |db.bookings| ==> BookingAt(db, j))
    && (forall t :: t in db.outbox ==> B.Booked(db.bookings, t))
    && (forall i, j :: 0 <= i < j < |db.bookings| ==> db.bookings[i].id != db.bookings[j].id)
  }

  // Only a commit adds bookings or rows, and what is there stays.
  lemma SaleEffect(db: B.Db, st: B.Step)
    requires Paired(db)
    ensures var db' := B.Apply(db, st);
      && (forall t :: t in db.outbox ==> t in db'.outbox && db'.outbox[t] == db.outbox[t])
      && (forall t :: t in db'.outbox && t !in db.outbox ==>
            db'.outbox[t].status == B.Pending && db'.outbox[t].attempts == 0)
      && db.bookings <= db'.bookings && db'.cfg == db.cfg
      && (!B.Commits(db, st) ==> db'.bookings == db.bookings && db'.outbox == db.outbox)
  {
    if B.Commits(db, st) { CommitterIsNew(db, st); }
  }

  // Whoever commits has no booking and no row yet.
  lemma CommitterIsNew(db: B.Db, st: B.Step)
    requires Paired(db) && B.Commits(db, st)
    ensures st.t !in db.outbox && forall j :: 0 <= j < |db.bookings| ==> db.bookings[j].id != st.t
  {
    forall j: nat | j < |db.bookings| ensures db.bookings[j].id != st.t { assert BookingAt(db, j); }
  }

  lemma BookingStays(db: B.Db, st: B.Step, j: nat)
    requires Paired(db) && j < |B.Apply(db, st).bookings|
    ensures BookingAt(B.Apply(db, st), j)
  {
    SaleEffect(db, st);
    if B.Commits(db, st) { CommitterIsNew(db, st); }
    if j < |db.bookings| { assert BookingAt(db, j); }
  }

  lemma PairedSale(db: B.Db, st: B.Step)
    requires Paired(db)
    ensures Paired(B.Apply(db, st))
  {
    var db' := B.Apply(db, st);
    SaleEffect(db, st);
    if B.Commits(db, st) { CommitterIsNew(db, st); }
    forall j: nat | j < |db'.bookings| ensures BookingAt(db', j) { BookingStays(db, st, j); }
    forall t | t in db'.outbox ensures B.Booked(db'.bookings, t) {
      if t in db.outbox {
        var j :| 0 <= j < |db.bookings| && db.bookings[j].id == t;
        assert db'.bookings[j].id == t;
      } else {
        assert db'.bookings[|db.bookings|].id == t;
      }
    }
  }

  // ---------- The invariant ----------

  ghost predicate InLog(w: World, t: RowId)
    requires t in w.db.outbox
  {
    Message(t, w.db.outbox[t]) in w.log
  }

  // With maxAttempts below one the first failure is already the last.
  function Limit(cfg: Config): int {
    Max(1, cfg.maxAttempts)
  }

  ghost predicate RowAt(w: World, t: RowId)
    requires t in w.db.outbox
  {
    var row := w.db.outbox[t];
    && row.attempts == Tally(w.failures, t)
    && (row.status.Pending? ==> row.attempts < Limit(w.cfg))
    && (row.status.Failed? ==> row.attempts >= 1 && row.attempts >= w.cfg.maxAttempts)
    && (row.status.Published? ==> InLog(w, t))
  }

  // What a relay holds is pending, still exactly as it read it, and nobody else's.
  ghost predicate HeldAt(w: World, r: RelayId, t: RowId)
    requires r in w.relays && t in w.relays[r].rows
  {
    && t in w.db.outbox && t in w.relays[r].seen && w.relays[r].seen[t] == w.db.outbox[t]
    && w.db.outbox[t].status.Pending?
    && (w.relays[r].phase.Sent? ==> InLog(w, t))
    && forall q :: q in w.relays && t in w.relays[q].rows ==> q == r
  }

  ghost predicate RecordAt(w: World, i: nat)
    requires i < |w.log|
  {
    w.log[i].messageId in w.db.outbox
    && w.log[i] == Message(w.log[i].messageId, w.db.outbox[w.log[i].messageId])
  }

  ghost predicate Inv(w: World) {
    && Paired(w.db)
    && (forall t {:trigger RowAt(w, t)} :: t in w.db.outbox ==> RowAt(w, t))
    && (forall r, t {:trigger HeldAt(w, r, t)} :: r in w.relays && t in w.relays[r].rows ==> HeldAt(w, r, t))
    && (forall r :: r in w.relays ==> w.relays[r].rows != [] && Distinct(w.relays[r].rows))
    && (forall i: nat {:trigger RecordAt(w, i)} :: i < |w.log| ==> RecordAt(w, i))
    && (forall t :: t in w.failures ==> t in w.db.outbox)
  }

  // How one step may change a row: it stays, keeps its content, and only a pending row moves.
  ghost predicate RowMoves(old_: B.OutboxRow, new_: B.OutboxRow) {
    && new_.aggregateId == old_.aggregateId && new_.messageKey == old_.messageKey
    && new_.payload == old_.payload && new_.createdAt == old_.createdAt && new_.attempts >= old_.attempts
    && (!old_.status.Pending? ==> new_ == old_)
  }

  lemma StepSale(w: World, s: B.Step)
    requires Inv(w)
    ensures Inv(Apply(w, Sale(s)))
  {
    var w' := Apply(w, Sale(s));
    SaleEffect(w.db, s);
    PairedSale(w.db, s);
    forall t | t in w'.db.outbox ensures RowAt(w', t) {
      if t in w.db.outbox { assert RowAt(w, t); }
    }
    forall r, t | r in w'.relays && t in w'.relays[r].rows ensures HeldAt(w', r, t) { assert HeldAt(w, r, t); }
    forall i: nat | i < |w'.log| ensures RecordAt(w', i) { assert RecordAt(w, i); }
  }

  lemma StepPoll(w: World, r: RelayId, rows: seq<RowId>)
    requires Inv(w) && MayPoll(w, r, rows)
    ensures Inv(Apply(w, Poll(r, rows)))
  {
    var w' := Apply(w, Poll(r, rows));
    forall t | t in w'.db.outbox ensures RowAt(w', t) { assert RowAt(w, t); }
    forall q, t | q in w'.relays && t in w'.relays[q].rows ensures HeldAt(w', q, t) {
      if q != r { assert HeldAt(w, q, t); }
      if t in rows { assert Eligible(w, t); }
    }
    forall i: nat | i < |w'.log| ensures RecordAt(w', i) { assert RecordAt(w, i); }
  }

  lemma PublishEffect(w: World, r: RelayId, ok: bool, delivered: seq<RowId>)
    requires Inv(w) && r in w.relays && w.relays[r].phase.Polled?
    ensures var relay := w.relays[r];
      var out := if ok then relay.rows else Only(delivered, relay.rows);
      && (forall t :: t in relay.rows ==> HeldAt(w, r, t) && t in relay.seen)
      && Apply(w, Publish(r, ok, delivered)) ==
           w.(log := w.log + Messages(out, relay.seen),
              relays := w.relays[r := relay.(phase := if ok then Sent else Refused)])
  {
    forall t | t in w.relays[r].rows ensures HeldAt(w, r, t) && t in w.relays[r].seen { assert HeldAt(w, r, t); }
  }

  lemma StepPublish(w: World, r: RelayId, ok: bool, delivered: seq<RowId>)
    requires Inv(w) && r in w.relays && w.relays[r].phase.Polled?
    ensures Inv(Apply(w, Publish(r, ok, delivered)))
  {
    PublishEffect(w, r, ok, delivered);
    var w' := Apply(w, Publish(r, ok, delivered));
    var relay := w.relays[r];
    forall t | t in w'.db.outbox ensures RowAt(w', t) { assert RowAt(w, t); }
    forall q, t | q in w'.relays && t in w'.relays[q].rows ensures HeldAt(w', q, t) {
      assert HeldAt(w, q, t);
      if q == r && ok { PublishedInLog(w, relay.rows, relay.seen, t); }
    }
    forall i: nat | i < |w'.log| ensures RecordAt(w', i) { PublishedRecord(w, r, ok, delivered, i); }
  }

  lemma PublishedRecord(w: World, r: RelayId, ok: bool, delivered: seq<RowId>, i: nat)
    requires Inv(w) && r in w.relays && w.relays[r].phase.Polled?
    requires i < |Apply(w, Publish(r, ok, delivered)).log|
    ensures RecordAt(Apply(w, Publish(r, ok, delivered)), i)
  {
    PublishEffect(w, r, ok, delivered);
    var relay := w.relays[r];
    if i < |w.log| { assert RecordAt(w, i); }
    RecordsOfRows(w, Apply(w, Publish(r, ok, delivered)), if ok then relay.rows else Only(delivered, relay.rows),
                  relay.seen, i);
  }

  // Messages made from rows as they are in the table are their records.
  lemma RecordsOfRows(w: World, v: World, out: seq<RowId>, seen: map<RowId, B.OutboxRow>, i: nat)
    requires forall t :: t in out ==> t in seen && t in w.db.outbox && seen[t] == w.db.outbox[t]
    requires v.db == w.db && v.log == w.log + Messages(out, seen)
    requires i < |v.log| && (i < |w.log| ==> RecordAt(w, i))
    ensures RecordAt(v, i)
  {
    hide Messages;
    if i >= |w.log| {
      var t := out[i - |w.log|];
      assert t in out && v.log[i] == Message(t, seen[t]);
    }
  }

  lemma PublishedInLog(w: World, out: seq<RowId>, seen: map<RowId, B.OutboxRow>, t: RowId)
    requires t in out && forall u :: u in out ==> u in seen
    ensures Message(t, seen[t]) in w.log + Messages(out, seen)
  {
    var i :| 0 <= i < |out| && out[i] == t;
    assert (w.log + Messages(out, seen))[|w.log| + i] == Messages(out, seen)[i];
  }

  lemma MarkRow(w: World, r: RelayId, t: RowId)
    requires Inv(w) && MayMark(w, Mark(r)) && t in w.db.outbox
    ensures var w' := Apply(w, Mark(r));
      && t in w'.db.outbox && RowAt(w', t) && RowMoves(w.db.outbox[t], w'.db.outbox[t])
      && (t !in w.relays[r].rows ==> w'.db.outbox[t] == w.db.outbox[t])
  {
    hide Apply;
    MarkedAt(w, r, t);
    assert RowAt(w, t);
    if t in w.relays[r].rows { assert HeldAt(w, r, t); }
  }

  lemma MarkedAt(w: World, r: RelayId, t: RowId)
    requires MayMark(w, Mark(r)) && t in w.db.outbox
    ensures var relay, v := w.relays[r], Apply(w, Mark(r));
      && t in v.db.outbox && v.cfg == w.cfg && v.log == w.log
      && v.db.outbox[t] == (if t !in relay.rows || t !in relay.seen then w.db.outbox[t]
                            else if relay.phase.Sent? then MarkPublished(w.db.outbox[t])
                            else MarkFailed(w.db.outbox[t], relay.seen[t], w.cfg.maxAttempts, w.db.now))
      && Tally(v.failures, t) == Tally(w.failures, t) + if relay.phase.Refused? && t in relay.rows then 1 else 0
  {
  }

  lemma StepMark(w: World, r: RelayId)
    requires Inv(w) && MayMark(w, Mark(r))
    ensures Inv(Apply(w, Mark(r)))
  {
    var w' := Apply(w, Mark(r));
    forall t | t in w'.db.outbox ensures RowAt(w', t) { MarkRow(w, r, t); }
    forall q, t | q in w'.relays && t in w'.relays[q].rows ensures HeldAt(w', q, t) {
      assert HeldAt(w, q, t);
      MarkRow(w, r, t);
    }
    forall i: nat | i < |w'.log| ensures RecordAt(w', i) {
      assert RecordAt(w, i);
      MarkRow(w, r, w.log[i].messageId);
    }
    forall j: nat | j < |w'.db.bookings| ensures BookingAt(w'.db, j) {
      assert BookingAt(w.db, j);
      if w.db.bookings[j].id in w.db.outbox { MarkRow(w, r, w.db.bookings[j].id); }
    }
    forall t | t in w.relays[r].rows ensures t in w.db.outbox { assert HeldAt(w, r, t); }
  }

  lemma StepCrash(w: World, r: RelayId)
    requires Inv(w)
    ensures Inv(Apply(w, Crash(r)))
  {
    var w' := Apply(w, Crash(r));
    forall t | t in w'.db.outbox ensures RowAt(w', t) { assert RowAt(w, t); }
    forall q, t | q in w'.relays && t in w'.relays[q].rows ensures HeldAt(w', q, t) { assert HeldAt(w, q, t); }
    forall i: nat | i < |w'.log| ensures RecordAt(w', i) { assert RecordAt(w, i); }
  }

  lemma InvStep(w: World, st: Step)
    requires Inv(w)
    ensures Inv(Apply(w, st))
  {
    match st
    case Sale(s) => StepSale(w, s);
    case Poll(r, rows) => if MayPoll(w, r, rows) { StepPoll(w, r, rows); }
    case Publish(r, ok, delivered) =>
      if r in w.relays && w.relays[r].phase.Polled? { StepPublish(w, r, ok, delivered); }
    case Mark(r) => if MayMark(w, st) { StepMark(w, r); }
    case Crash(r) => StepCrash(w, r);
  }

  lemma {:induction false} InvRun(w: World, steps: seq<Step>)
    requires Inv(w)
    ensures Inv(Run(w, steps))
  {
    if steps != [] {
      InvRun(w, steps[..|steps| - 1]);
      InvStep(Run(w, steps[..|steps| - 1]), steps[|steps| - 1]);
    }
  }

  // ---------- One step ----------

  lemma CfgStep(w: World, st: Step)
    ensures Apply(w, st).cfg == w.cfg && Apply(w, st).db.cfg == w.db.cfg
  {
  }

  lemma {:induction false} CfgRun(w: World, steps: seq<Step>)
    ensures Run(w, steps).cfg == w.cfg && Run(w, steps).db.cfg == w.db.cfg
  {
    if steps != [] {
      CfgRun(w, steps[..|steps| - 1]);
      CfgStep(Run(w, steps[..|steps| - 1]), steps[|steps| - 1]);
    }
  }

  lemma RowStep(w: World, st: Step, t: RowId)
    requires Inv(w) && t in w.db.outbox
    ensures t in Apply(w, st).db.outbox && RowMoves(w.db.outbox[t], Apply(w, st).db.outbox[t])
    ensures |w.log| <= |Apply(w, st).log| && w.log == Apply(w, st).log[..|w.log|]
  {
    match st
    case Sale(s) => SaleEffect(w.db, s);
    case Mark(r) => if MayMark(w, st) { MarkRow(w, r, t); }
    case _ =>
  }

  lemma ClockRises(w: World, st: Step)
    ensures Apply(w, st).db.now >= w.db.now
  {
  }
}
