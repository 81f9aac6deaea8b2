/**
 The booking transaction as a state machine over one database.

 Each step is one atomic statement of one transaction under Read Committed: a plain SELECT
 sees the latest committed row, SELECT ... FOR UPDATE and UPDATE take the row lock until the
 transaction ends, and UPDATE re-evaluates its WHERE on the latest committed row. A step that
 is not enabled (a blocked lock, a finished transaction) leaves the state alone, so every
 sequence of steps is a legal interleaving and "every run" is "every sequence of steps".
 */
module Bookings {
  import opened Wrappers

  type EventId = nat
  // A transaction's number also names the booking row and the outbox row it inserts.
  type TxId = nat

  datatype Strategy = Naive | Pessimistic | Optimistic

  datatype EventRow = EventRow(name: string, totalSeats: int, availableSeats: int, version: int)

  datatype Booking = Booking(id: TxId, eventId: EventId, userId: string, quantity: int,
                             idempotencyKey: Option<string>)

  datatype OutboxStatus = Pending | Published | Failed

  datatype Payload = Payload(bookingId: TxId, eventId: EventId, userId: string, quantity: int,
                             eventName: string)

  datatype OutboxRow = OutboxRow(aggregateId: TxId, messageKey: EventId, payload: Payload, createdAt: int,
                                 status: OutboxStatus, attempts: nat, availableAt: int)

  datatype Outcome = Confirmed(seatsRemaining: int) | NotFound | SoldOut | Contention | Errored

  // What a transaction has written but not committed.
  datatype Stage = Updated | Saved | Enqueued

  datatype Phase =
    | Reading(attempt: int)
    | Deciding(seen: Option<EventRow>, attempt: int)
    | Writing(stage: Stage, row: EventRow, remaining: int, eventName: string)
    | Done(outcome: Outcome)

  datatype Tx = Tx(eventId: EventId, userId: string, quantity: int, strategy: Strategy,
                   idempotencyKey: Option<string>, phase: Phase)

  datatype Config = Config(outboxEnabled: bool, maxRetries: int)

  datatype Db = Db(cfg: Config, now: int, events: map<EventId, EventRow>,
                   locks: map<EventId, TxId>, bookings: seq<Booking>,
                   outbox: map<TxId, OutboxRow>, txs: map<TxId, Tx>)

  datatype Verb = Read | Write | Save | Enqueue | Commit | Abort

  datatype Step =
    | CreateEvent(e: EventId, name: string, totalSeats: int)
    | Begin(t: TxId, event: EventId, userId: string, quantity: int, strategy: Strategy,
            key: Option<string>)
    | Act(t: TxId, verb: Verb)
    | Tick(ms: nat)

  // ---------- What one statement does to its own transaction ----------

  datatype LockMove = Keep | Take | Leave
  datatype Move = Move(phase: Phase, lock: LockMove)

  // `row` is the committed event row, `free` says that nobody else holds its lock.
  function ReadMove(tx: Tx, row: Option<EventRow>, free: bool, cfg: Config): Move
    requires tx.phase.Reading?
  {
    var attempt := tx.phase.attempt;
    if tx.strategy.Optimistic? && attempt > cfg.maxRetries then Move(Done(Contention), Leave)
    else if row.None? || !tx.strategy.Pessimistic? then Move(Deciding(row, attempt), Keep)
    else if free then Move(Deciding(row, attempt), Take)
    else Move(tx.phase, Keep)
  }

  function WriteMove(tx: Tx, row: Option<EventRow>, free: bool): Move
    requires tx.phase.Deciding?
  {
    if tx.phase.seen.None? then Move(Done(NotFound), Leave)
    else
      var seen := tx.phase.seen.value;
      var remaining := seen.availableSeats - tx.quantity;
      if seen.availableSeats < tx.quantity then Move(Done(SoldOut), Leave)
      else if row.None? || !free then Move(tx.phase, Keep)
      else
        var current := row.value;
        match tx.strategy
        case Naive =>
          Move(Writing(Updated, current.(availableSeats := remaining), remaining, seen.name), Take)
        case Pessimistic =>
          Move(Writing(Updated, current.(availableSeats := remaining, version := current.version + 1),
                       remaining, seen.name), Take)
        case Optimistic =>
          if current.version == seen.version && current.availableSeats >= tx.quantity then
            Move(Writing(Updated, current.(availableSeats := current.availableSeats - tx.quantity,
                                           version := current.version + 1),
                         remaining, seen.name), Take)
          else Move(Reading(tx.phase.attempt + 1), Keep)
  }

  predicate MayCommit(tx: Tx, cfg: Config) {
    tx.phase.Writing? && tx.phase.stage == if cfg.outboxEnabled then Enqueued else Saved
  }

  function NextMove(verb: Verb, tx: Tx, row: Option<EventRow>, free: bool, cfg: Config): Move {
    match verb
    case Read => if tx.phase.Reading? then ReadMove(tx, row, free, cfg) else Move(tx.phase, Keep)
    case Write => if tx.phase.Deciding? then WriteMove(tx, row, free) else Move(tx.phase, Keep)
    case Save =>
      if tx.phase.Writing? && tx.phase.stage.Updated? then Move(tx.phase.(stage := Saved), Keep)
      else Move(tx.phase, Keep)
    case Enqueue =>
      if cfg.outboxEnabled && tx.phase.Writing? && tx.phase.stage.Saved?
      then Move(tx.phase.(stage := Enqueued), Keep)
      else Move(tx.phase, Keep)
    case Commit =>
      if MayCommit(tx, cfg) then Move(Done(Confirmed(tx.phase.remaining)), Leave)
      else Move(tx.phase, Keep)
    case Abort =>
      if tx.phase.Done? then Move(tx.phase, Keep) else Move(Done(Errored), Leave)
  }

  // ---------- The machine ----------

  function Init(cfg: Config): Db {
    Db(cfg, 0, map[], map[], [], map[], map[])
  }

  function RowOf(s: Db, e: EventId): Option<EventRow> {
    if e in s.events then Some(s.events[e]) else None
  }

  predicate Free(s: Db, e: EventId, t: TxId) {
    e in s.locks ==> s.locks[e] == t
  }

  function MoveLock(locks: map<EventId, TxId>, e: EventId, t: TxId, move: LockMove): map<EventId, TxId> {
    match move
    case Keep => locks
    case Take => locks[e := t]
    case Leave => map f | f in locks && locks[f] != t :: locks[f]
  }

  function MoveOf(s: Db, t: TxId, verb: Verb): Move
    requires t in s.txs
  {
    var e := s.txs[t].eventId;
    NextMove(verb, s.txs[t], RowOf(s, e), Free(s, e, t), s.cfg)
  }

  function Advance(s: Db, t: TxId, m: Move): Db
    requires t in s.txs
  {
    s.(txs := s.txs[t := s.txs[t].(phase := m.phase)],
       locks := MoveLock(s.locks, s.txs[t].eventId, t, m.lock))
  }

  function BookingOf(t: TxId, tx: Tx): Booking {
    Booking(t, tx.eventId, tx.userId, tx.quantity, tx.idempotencyKey)
  }

  function OutboxOf(t: TxId, tx: Tx, eventName: string, now: int): OutboxRow {
    OutboxRow(t, tx.eventId, Payload(t, tx.eventId, tx.userId, tx.quantity, eventName), now, Pending, 0, now)
  }

  predicate Commits(s: Db, st: Step) {
    st.Act? && st.verb.Commit? && st.t in s.txs && MayCommit(s.txs[st.t], s.cfg)
  }

  // The seat counter, the booking row and the outbox row become visible together.
  function Publicise(s: Db, t: TxId, tx: Tx): Db
    requires tx.phase.Writing?
  {
    s.(events := s.events[tx.eventId := tx.phase.row],
       bookings := s.bookings + [BookingOf(t, tx)],
       outbox := if s.cfg.outboxEnabled then s.outbox[t := OutboxOf(t, tx, tx.phase.eventName, s.now)]
                 else s.outbox)
  }

  function Apply(s: Db, st: Step): Db {
    match st
    case CreateEvent(e, name, total) =>
      if e in s.events || total < 1 then s
      else s.(events := s.events[e := EventRow(name, total, total, 0)])
    case Begin(t, e, user, quantity, strategy, key) =>
      if t in s.txs || quantity < 1 then s
      else s.(txs := s.txs[t := Tx(e, user, quantity, strategy, key, Reading(0))])
    case Act(t, verb) =>
      if t !in s.txs then s
      else if Commits(s, st) then Advance(Publicise(s, t, s.txs[t]), t, MoveOf(s, t, verb))
      else Advance(s, t, MoveOf(s, t, verb))
    case Tick(ms) => s.(now := s.now + ms)
  }

  function Run(s: Db, steps: seq<Step>): Db {
    if steps == [] then s else Apply(Run(s, steps[..|steps| - 1]), steps[|steps| - 1])
  }

  lemma {:induction false} RunConcat(s: Db, a: seq<Step>, b: seq<Step>)
    ensures Run(s, a + b) == Run(Run(s, a), b)
  {
    if b == [] {
      assert a + b == a;
    } else {
      assert (a + b)[..|a + b| - 1] == a + b[..|b| - 1];
      RunConcat(s, a, b[..|b| - 1]);
    }
  }

  lemma RunSnoc(s: Db, steps: seq<Step>, st: Step)
    ensures Run(s, steps + [st]) == Apply(Run(s, steps), st)
  {
    assert (steps + [st])[..|steps|] == steps;
  }

  predicate LockedOnly(steps: seq<Step>) {
    forall st :: st in steps && st.Begin? ==> !st.strategy.Naive?
  }

  // ---------- Ground truth: the bookings table ----------

  // SUM(quantity) over the confirmed bookings of one event.
  function Sold(bookings: seq<Booking>, e: EventId): int {
    if bookings == [] then 0
    else
      var b := bookings[|bookings| - 1];
      Sold(bookings[..|bookings| - 1], e) + if b.eventId == e then b.quantity else 0
  }

  function CountOf(bookings: seq<Booking>, e: EventId): nat {
    if bookings == [] then 0
    else
      var b := bookings[|bookings| - 1];
      CountOf(bookings[..|bookings| - 1], e) + if b.eventId == e then 1 else 0
  }

  lemma SoldAppend(bookings: seq<Booking>, b: Booking, e: EventId)
    ensures Sold(bookings + [b], e) == Sold(bookings, e) + if b.eventId == e then b.quantity else 0
    ensures CountOf(bookings + [b], e) == CountOf(bookings, e) + if b.eventId == e then 1 else 0
  {
    assert (bookings + [b])[..|bookings|] == bookings;
  }

  lemma NoBookingsNoSeats(bookings: seq<Booking>, e: EventId)
    requires forall b :: b in bookings ==> b.eventId != e
    ensures Sold(bookings, e) == 0 && CountOf(bookings, e) == 0
  {
  }

  // ---------- Lock discipline ----------

  predicate HoldsLock(tx: Tx) {
    tx.phase.Writing? || (tx.phase.Deciding? && tx.phase.seen.Some? && tx.strategy.Pessimistic?)
  }

  // A row lock belongs to exactly one live transaction on that row.
  ghost predicate RowLock(s: Db, e: EventId) {
    e in s.locks ==>
      s.locks[e] in s.txs && s.txs[s.locks[e]].eventId == e && HoldsLock(s.txs[s.locks[e]])
  }

  ghost predicate TxLock(s: Db, t: TxId)
    requires t in s.txs
  {
    HoldsLock(s.txs[t]) ==>
      s.txs[t].eventId in s.events && s.txs[t].eventId in s.locks && s.locks[s.txs[t].eventId] == t
  }

  ghost predicate LocksOk(s: Db) {
    && (forall e {:trigger RowLock(s, e)} :: RowLock(s, e))
    && (forall t {:trigger TxLock(s, t)} :: t in s.txs ==> TxLock(s, t))
  }

  lemma MoveLocks(s: Db, t: TxId, verb: Verb)
    requires LocksOk(s) && t in s.txs
    ensures LocksOk(Advance(s, t, MoveOf(s, t, verb)))
  {
    var s' := Advance(s, t, MoveOf(s, t, verb));
    assert TxLock(s, t) && RowLock(s, s.txs[t].eventId);
    forall e ensures RowLock(s', e) {
      assert RowLock(s, e);
    }
    forall u | u in s'.txs ensures TxLock(s', u) {
      assert TxLock(s, u);
    }
  }

  lemma LocksStep(s: Db, st: Step)
    requires LocksOk(s)
    ensures LocksOk(Apply(s, st))
  {
    if st.Act? && st.t in s.txs {
      MoveLocks(s, st.t, st.verb);
    }
    var s' := Apply(s, st);
    forall e ensures RowLock(s', e) {
      assert RowLock(s, e);
      if st.Act? && st.t in s.txs { assert RowLock(Advance(s, st.t, MoveOf(s, st.t, st.verb)), e); }
    }
    forall u | u in s'.txs ensures TxLock(s', u) {
      if u in s.txs {
        assert TxLock(s, u);
        if st.Act? && st.t in s.txs { assert TxLock(Advance(s, st.t, MoveOf(s, st.t, st.verb)), u); }
      }
    }
  }

  ghost predicate BookingsOk(s: Db) {
    forall b :: b in s.bookings ==> b.eventId in s.events && b.quantity >= 1
  }

  // How a commit changes the sums, and that nobody else was about to write the same row.
  lemma CommitEffect(s: Db, st: Step, e: EventId)
    requires LocksOk(s) && Commits(s, st)
    ensures var tx, s' := s.txs[st.t], Apply(s, st);
      && tx.eventId in s.events
      && s'.bookings == s.bookings + [BookingOf(st.t, tx)]
      && s'.events == s.events[tx.eventId := tx.phase.row]
      && Sold(s'.bookings, e) == Sold(s.bookings, e) + (if tx.eventId == e then tx.quantity else 0)
      && CountOf(s'.bookings, e) == CountOf(s.bookings, e) + (if tx.eventId == e then 1 else 0)
      && forall u :: u in s.txs && u != st.t && HoldsLock(s.txs[u]) ==> s.txs[u].eventId != tx.eventId
  {
    var tx := s.txs[st.t];
    assert TxLock(s, st.t);
    SoldAppend(s.bookings, BookingOf(st.t, tx), e);
    forall u | u in s.txs && u != st.t && HoldsLock(s.txs[u]) ensures s.txs[u].eventId != tx.eventId {
      assert TxLock(s, u);
    }
  }

  lemma Staged(s: Db, t: TxId, tx: Tx)
    requires t in s.txs && s.txs[t] == tx && tx.phase.Writing? && tx.phase.stage == Updated
    ensures var saved := tx.(phase := tx.phase.(stage := Saved));
      var ready := if s.cfg.outboxEnabled then tx.(phase := tx.phase.(stage := Enqueued)) else saved;
      && Apply(s, Act(t, Save)) == s.(txs := s.txs[t := saved])
      && Apply(Apply(s, Act(t, Save)), Act(t, Enqueue)) == s.(txs := s.txs[t := ready])
      && MayCommit(ready, s.cfg)
  {
    var s1 := Apply(s, Act(t, Save));
    assert s1 == s.(txs := s.txs[t := tx.(phase := tx.phase.(stage := Saved))]);
  }

  // Saving, enqueueing and committing a written transaction that holds the only lock.
  lemma SellOut(s: Db, t: TxId, tx: Tx)
    requires t in s.txs && s.txs[t] == tx && tx.phase.Writing? && tx.phase.stage == Updated
    requires s.locks == map[tx.eventId := t]
    ensures var s' := Apply(Apply(Apply(s, Act(t, Save)), Act(t, Enqueue)), Act(t, Commit));
      && s'.cfg == s.cfg && s'.locks == map[]
      && s'.events == s.events[tx.eventId := tx.phase.row]
      && s'.bookings == s.bookings + [BookingOf(t, tx)]
      && s'.txs == s.txs[t := tx.(phase := Done(Confirmed(tx.phase.remaining)))]
  {
    Staged(s, t, tx);
  }

  ghost predicate Booked(bookings: seq<Booking>, t: TxId) {
    exists j :: 0 <= j < |bookings| && bookings[j].id == t
  }
}
