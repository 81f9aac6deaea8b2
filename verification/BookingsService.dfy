/**
 The service's own control flow over the shared tables. Every `await` is a place where other
 requests run: `Yield` lets the next burst of the schedule happen there. The methods change the
 tables statement by statement; `Valid` says that what they did so far is a run of the machine in
 module Bookings, so every theorem about runs holds after every call.
 */
module BookingsServices {
  import opened Arithmetic
  import opened Wrappers
  import opened Bookings
  import opened BookingIntegrity
  import opened MixedBookings

  // What a caller of book gets: a success, the reason why nothing was booked, or an error although
  // the booking is committed.
  datatype Answer = Success(seatsRemaining: int) | Failure(error: Outcome) | LateFailure

  datatype Decrement = Decremented(seatsRemaining: int, eventName: string) | Threw(error: Outcome)

  // Not a step of transaction t, nor of anybody else on event e.
  predicate Elsewhere(txs: map<TxId, Tx>, st: Step, t: TxId, e: EventId) {
    match st
    case CreateEvent(f, _, _) => f != e
    case Begin(u, f, _, _, _, _) => u != t && f != e
    case Act(u, _) => u != t && (u in txs ==> txs[u].eventId != e)
    case Tick(_) => true
  }

  // What a request that nobody disturbs gets out of the event row.
  function Expected(row: Option<EventRow>, quantity: int): Outcome {
    if row.None? then NotFound
    else if row.value.availableSeats < quantity then SoldOut
    else Confirmed(row.value.availableSeats - quantity)
  }

  // The row after a sale; only the naive strategy leaves the version alone.
  function SoldFrom(row: EventRow, quantity: int, strategy: Strategy): EventRow {
    row.(availableSeats := row.availableSeats - quantity,
         version := if strategy.Naive? then row.version else row.version + 1)
  }

  class BookingsService {
    const cfg: Config
    var now: int
    var events: map<EventId, EventRow>
    var locks: map<EventId, TxId>
    var bookings: seq<Booking>
    var outbox: map<TxId, OutboxRow>
    var txs: map<TxId, Tx>
    // What the other requests do at each suspension of this one.
    var schedule: seq<seq<Step>>
    ghost var trace: seq<Step>

    constructor (cfg: Config, schedule: seq<seq<Step>>)
      ensures Valid() && trace == [] && this.cfg == cfg && this.schedule == schedule
      ensures State() == Init(cfg)
    {
      this.cfg, this.schedule := cfg, schedule;
      now, events, locks, bookings, outbox, txs := 0, map[], map[], [], map[], map[];
      trace := [];
    }

    function State(): Db
      reads this
    {
      Db(cfg, now, events, locks, bookings, outbox, txs)
    }

    ghost predicate Valid()
      reads this
    {
      State() == Run(Init(cfg), trace)
    }

    // Nobody else acts in the name of transaction t.
    ghost predicate Others(t: TxId)
      reads this
    {
      forall env, st :: env in schedule && st in env ==>
        (st.Act? ==> st.t != t) && (st.Begin? ==> st.t != t)
    }

    // Transaction t is where its caller believes it is, and it has not booked.
    ghost predicate At(t: TxId, tx: Tx)
      reads this
    {
      Valid() && Others(t) && t in txs && txs[t] == tx && forall b :: b in bookings ==> b.id != t
    }

    // Transaction t, once tx, has its UPDATE pending.
    ghost predicate Written(t: TxId, tx: Tx, remaining: int, name: string)
      reads this
    {
      t in txs && txs[t].phase.Writing?
      && At(t, tx.(phase := Writing(Updated, txs[t].phase.row, remaining, name)))
    }

    // Nobody but t is going to touch event e.
    ghost predicate Alone(t: TxId, e: EventId)
      reads this
    {
      forall env, st :: env in schedule && st in env ==> Elsewhere(txs, st, t, e)
    }

    // Nor does anybody but t hold its row.
    ghost predicate Undisturbed(t: TxId, e: EventId)
      reads this
    {
      Alone(t, e) && Free(State(), e, t)
    }

    function Row(e: EventId): Option<EventRow>
      reads this
    {
      RowOf(State(), e)
    }

    // What has become, since the start of a method, of the run and of event e as transaction t sees it.
    twostate predicate Awaited(t: TxId, e: EventId)
      reads this
    {
      && old(trace) <= trace && old(events.Keys) <= events.Keys
      && (old(Undisturbed(t, e)) ==> Undisturbed(t, e) && Row(e) == old(Row(e)))
    }

    // Book-keeping for the proof: the fields have just made step `st`.
    ghost method Record(st: Step)
      requires State() == Apply(Run(Init(cfg), trace), st)
      modifies this`trace
      ensures Valid() && trace == old(trace) + [st]
    {
      RunSnoc(Init(cfg), trace, st);
      trace := trace + [st];
    }

    // One step of some other request.
    method Interleave(st: Step)
      requires Valid()
      modifies this`now, this`events, this`locks, this`bookings, this`outbox, this`txs, this`trace
      ensures Valid() && trace == old(trace) + [st] && State() == Apply(old(State()), st)
    {
      hide Run;
      var s := Apply(State(), st);
      CfgKept(State(), st);
      now, events, locks, bookings, outbox, txs := s.now, s.events, s.locks, s.bookings, s.outbox, s.txs;
      Record(st);
    }

    // An await: the next burst of the schedule runs.
    method Yield(t: TxId, ghost tx: Tx)
      requires At(t, tx)
      modifies this
      ensures At(t, tx) && Awaited(t, tx.eventId)
      ensures schedule == if old(schedule) == [] then [] else old(schedule)[1..]
    {
      hide Run;
      hide Apply;
      hide Elsewhere;
      if schedule == [] { return; }
      var env := schedule[0];
      var i := 0;
      while i < |env|
        invariant 0 <= i <= |env| && schedule == old(schedule)
        invariant At(t, tx) && Awaited(t, tx.eventId)
      {
        assert env in schedule && env[i] in env;
        OthersLeaveMineAlone(State(), env[i], t);
        EventsStay(State(), env[i]);
        if old(Undisturbed(t, tx.eventId)) { ElsewhereLeavesRow(State(), env[i], t, tx.eventId); }
        Interleave(env[i]);
        i := i + 1;
      }
      schedule := schedule[1..];
    }

    // Blocks on the row lock; a request whose turn never comes is cut off with free == false.
    method AwaitLock(t: TxId, ghost tx: Tx) returns (free: bool)
      requires At(t, tx)
      modifies this
      ensures At(t, tx) && Awaited(t, tx.eventId)
      ensures free <==> Free(State(), tx.eventId, t)
    {
      hide Run;
      hide Elsewhere;
      while txs[t].eventId in locks && locks[txs[t].eventId] != t && schedule != []
        invariant At(t, tx) && Awaited(t, tx.eventId)
        decreases |schedule|
      {
        Yield(t, tx);
      }
      free := txs[t].eventId in locks ==> locks[txs[t].eventId] == t;
    }

    // ---------- The statements ----------

    // SELECT ... WHERE id = :id
    method FindOne(t: TxId, ghost tx: Tx) returns (event: Option<EventRow>)
      requires At(t, tx) && tx.phase.Reading? && !tx.strategy.Pessimistic?
      requires tx.strategy.Optimistic? ==> tx.phase.attempt <= cfg.maxRetries
      modifies this
      ensures At(t, tx.(phase := Deciding(event, tx.phase.attempt))) && Awaited(t, tx.eventId)
      ensures event == Row(tx.eventId)
    {
      hide Run;
      Yield(t, tx);
      event := if txs[t].eventId in events then Some(events[txs[t].eventId]) else None;
      txs := txs[t := txs[t].(phase := Deciding(event, txs[t].phase.attempt))];
      Record(Act(t, Read));
    }

    // SELECT ... WHERE id = :id FOR UPDATE
    method FindOneForUpdate(t: TxId, ghost tx: Tx) returns (event: Option<EventRow>, timedOut: bool)
      requires At(t, tx) && tx.phase.Reading? && tx.strategy.Pessimistic?
      modifies this
      ensures At(t, if timedOut then tx else tx.(phase := Deciding(event, tx.phase.attempt)))
      ensures !timedOut && event.Some? ==> tx.eventId in locks && locks[tx.eventId] == t
      ensures event == Row(tx.eventId) && Awaited(t, tx.eventId)
      ensures timedOut <==> event.Some? && !Free(State(), tx.eventId, t)
    {
      hide Run;
      hide Apply;
      hide Elsewhere;
      Yield(t, tx);
      var free := AwaitLock(t, tx);
      event := if txs[t].eventId in events then Some(events[txs[t].eventId]) else None;
      timedOut := event.Some? && !free;
      if timedOut { return; }
      MyStepsElsewhere(txs, t, txs[t].(phase := Deciding(event, txs[t].phase.attempt)), tx.eventId);
      ActApplied(State(), t, Read, Move(Deciding(event, txs[t].phase.attempt), if event.Some? then Take else Keep));
      if event.Some? { locks := locks[txs[t].eventId := t]; }
      txs := txs[t := txs[t].(phase := Deciding(event, txs[t].phase.attempt))];
      Record(Act(t, Read));
    }

    // UPDATE events SET available_seats = :remaining [, version = version + 1] WHERE id = :id
    method UpdateSeats(t: TxId, ghost tx: Tx, remaining: int, bumpVersion: bool, name: string)
      returns (timedOut: bool)
      requires At(t, tx) && tx.phase.Deciding? && tx.phase.seen.Some? && !tx.strategy.Optimistic?
      requires bumpVersion == tx.strategy.Pessimistic? && name == tx.phase.seen.value.name
      requires tx.phase.seen.value.availableSeats >= tx.quantity
      requires remaining == tx.phase.seen.value.availableSeats - tx.quantity
      modifies this
      ensures tx.eventId in events && Awaited(t, tx.eventId)
      ensures timedOut ==> At(t, tx) && !Free(State(), tx.eventId, t)
      ensures !timedOut ==> Free(State(), tx.eventId, t) && Written(t, tx, remaining, name)
      ensures !timedOut ==>
        txs[t].phase.row == SoldFrom(events[tx.eventId], tx.quantity, tx.strategy).(availableSeats := remaining)
    {
      hide Run;
      hide Elsewhere;
      Yield(t, tx);
      var free := AwaitLock(t, tx);
      SeenRowIsThere(cfg, trace, t);
      timedOut := !free;
      if !timedOut { WriteSeats(t, tx, remaining, bumpVersion, name); }
    }

    // The update itself, once nobody else holds the row.
    method WriteSeats(t: TxId, ghost tx: Tx, remaining: int, bumpVersion: bool, name: string)
      requires At(t, tx) && tx.phase.Deciding? && tx.phase.seen.Some? && !tx.strategy.Optimistic?
      requires bumpVersion == tx.strategy.Pessimistic? && name == tx.phase.seen.value.name
      requires tx.phase.seen.value.availableSeats >= tx.quantity
      requires remaining == tx.phase.seen.value.availableSeats - tx.quantity
      requires Free(State(), tx.eventId, t) && tx.eventId in events
      modifies this`locks, this`txs, this`trace
      ensures Written(t, tx, remaining, name) && Awaited(t, tx.eventId)
      ensures txs[t].phase.row == SoldFrom(events[tx.eventId], tx.quantity, tx.strategy).(availableSeats := remaining)
      ensures locks == old(locks)[tx.eventId := t]
    {
      hide Run;
      hide Apply;
      var e := txs[t].eventId;
      var row := events[e].(availableSeats := remaining);
      if bumpVersion { row := row.(version := row.version + 1); }
      ActApplied(State(), t, Write, Move(Writing(Updated, row, remaining, name), Take));
      locks := locks[e := t];
      txs := txs[t := txs[t].(phase := Writing(Updated, row, remaining, name))];
      Record(Act(t, Write));
    }

    // UPDATE ... WHERE id = :id AND version = :version AND available_seats >= :quantity
    method CompareAndSet(t: TxId, ghost tx: Tx, version: int, quantity: int, remaining: int, name: string)
      returns (affected: nat, timedOut: bool)
      requires At(t, tx) && tx.phase.Deciding? && tx.phase.seen.Some? && tx.strategy.Optimistic?
      requires version == tx.phase.seen.value.version && name == tx.phase.seen.value.name
      requires quantity == tx.quantity <= tx.phase.seen.value.availableSeats
      requires remaining == tx.phase.seen.value.availableSeats - quantity
      modifies this
      ensures tx.eventId in events && Awaited(t, tx.eventId) && affected <= 1
      ensures timedOut ==> At(t, tx) && !Free(State(), tx.eventId, t)
      ensures !timedOut ==> Free(State(), tx.eventId, t)
      ensures !timedOut ==>
        (affected == 1 <==> events[tx.eventId].version == version && events[tx.eventId].availableSeats >= quantity)
      ensures !timedOut && affected == 0 ==> At(t, tx.(phase := Reading(tx.phase.attempt + 1)))
      ensures !timedOut && affected == 1 ==>
        Written(t, tx, remaining, name) && txs[t].phase.row == SoldFrom(events[tx.eventId], quantity, tx.strategy)
    {
      hide Run;
      hide Elsewhere;
      affected := 0;
      Yield(t, tx);
      var free := AwaitLock(t, tx);
      SeenRowIsThere(cfg, trace, t);
      timedOut := !free;
      if !timedOut { affected := UpdateIfUnchanged(t, tx, version, quantity, remaining, name); }
    }

    // The update itself, once nobody else holds the row.
    method UpdateIfUnchanged(t: TxId, ghost tx: Tx, version: int, quantity: int, remaining: int, name: string)
      returns (affected: nat)
      requires At(t, tx) && tx.phase.Deciding? && tx.phase.seen.Some? && tx.strategy.Optimistic?
      requires version == tx.phase.seen.value.version && name == tx.phase.seen.value.name
      requires quantity == tx.quantity <= tx.phase.seen.value.availableSeats
      requires remaining == tx.phase.seen.value.availableSeats - quantity
      requires Free(State(), tx.eventId, t) && tx.eventId in events
      modifies this`locks, this`txs, this`trace
      ensures Awaited(t, tx.eventId) && affected <= 1
      ensures affected == 1 <==> events[tx.eventId].version == version && events[tx.eventId].availableSeats >= quantity
      ensures affected == 0 ==> At(t, tx.(phase := Reading(tx.phase.attempt + 1))) && locks == old(locks)
      ensures affected == 1 ==> Written(t, tx, remaining, name) && locks == old(locks)[tx.eventId := t]
      ensures affected == 1 ==> txs[t].phase.row == SoldFrom(events[tx.eventId], quantity, tx.strategy)
    {
      hide Run;
      hide Apply;
      var e := txs[t].eventId;
      affected := 0;
      if events[e].version == version && events[e].availableSeats >= quantity {
        var row := events[e].(availableSeats := events[e].availableSeats - quantity, version := version + 1);
        ActApplied(State(), t, Write, Move(Writing(Updated, row, remaining, name), Take));
        locks := locks[e := t];
        txs := txs[t := txs[t].(phase := Writing(Updated, row, remaining, name))];
        affected := 1;
      } else {
        ActApplied(State(), t, Write, Move(Reading(txs[t].phase.attempt + 1), Keep));
        txs := txs[t := txs[t].(phase := Reading(txs[t].phase.attempt + 1))];
      }
      Record(Act(t, Write));
    }

    // INSERT INTO bookings
    method SaveBooking(t: TxId, ghost tx: Tx)
      requires At(t, tx) && tx.phase.Writing? && tx.phase.stage.Updated?
      modifies this
      ensures At(t, tx.(phase := tx.phase.(stage := Saved))) && Awaited(t, tx.eventId)
    {
      hide Run;
      Yield(t, tx);
      txs := txs[t := txs[t].(phase := txs[t].phase.(stage := Saved))];
      Record(Act(t, Save));
    }

    // INSERT INTO outbox_messages, in the same transaction
    method EnqueueEvent(t: TxId, ghost tx: Tx)
      requires At(t, tx) && tx.phase.Writing? && tx.phase.stage.Saved? && cfg.outboxEnabled
      modifies this
      ensures At(t, tx.(phase := tx.phase.(stage := Enqueued))) && Awaited(t, tx.eventId)
    {
      hide Run;
      Yield(t, tx);
      txs := txs[t := txs[t].(phase := txs[t].phase.(stage := Enqueued))];
      Record(Act(t, Enqueue));
    }

    // COMMIT
    method CommitTransaction(t: TxId, ghost tx: Tx)
      requires At(t, tx) && MayCommit(tx, cfg)
      modifies this
      ensures Valid() && Others(t) && old(trace) <= trace
      ensures t in txs && txs[t] == tx.(phase := Done(Confirmed(tx.phase.remaining)))
      ensures bookings != [] && bookings[|bookings| - 1] == BookingOf(t, tx)
      ensures forall b :: b in bookings[..|bookings| - 1] ==> b.id != t
      ensures tx.eventId in events && events[tx.eventId] == tx.phase.row
      ensures cfg.outboxEnabled ==> t in outbox && outbox[t] == OutboxOf(t, tx, tx.phase.eventName, now)
      ensures forall e :: e in locks ==> locks[e] != t
    {
      hide Run;
      hide Alone;
      hide Elsewhere;
      hide Apply;
      Yield(t, tx);
      CommitApplied(State(), t);
      var mine := txs[t];
      events := events[mine.eventId := mine.phase.row];
      bookings := bookings + [BookingOf(t, mine)];
      if cfg.outboxEnabled { outbox := outbox[t := OutboxOf(t, mine, mine.phase.eventName, now)]; }
      locks := map e | e in locks && locks[e] != t :: locks[e];
      txs := txs[t := mine.(phase := Done(Confirmed(mine.phase.remaining)))];
      Record(Act(t, Commit));
    }

    // ROLLBACK: the pending row, booking and outbox row vanish, the lock goes.
    method Rollback(t: TxId, ghost tx: Tx, error: Outcome, ghost verb: Verb)
      requires At(t, tx) && !tx.phase.Done?
      requires NextMove(verb, tx, RowOf(State(), tx.eventId), Free(State(), tx.eventId, t), cfg)
        == Move(Done(error), Leave)
      requires !error.Confirmed?
      modifies this`locks, this`txs, this`trace
      ensures At(t, tx.(phase := Done(error))) && Awaited(t, tx.eventId)
      ensures forall e :: e in locks ==> locks[e] != t
      ensures forall e :: e in old(locks) && old(locks)[e] != t ==> e in locks && locks[e] == old(locks)[e]
    {
      hide Run;
      hide Elsewhere;
      hide Apply;
      hide NextMove;
      ActApplied(State(), t, verb, Move(Done(error), Leave));
      MyStepsElsewhere(txs, t, txs[t].(phase := Done(error)), tx.eventId);
      locks := map e | e in locks && locks[e] != t :: locks[e];
      txs := txs[t := txs[t].(phase := Done(error))];
      Record(Act(t, verb));
    }

    // ---------- The three strategies ----------

    // Another transaction holds the event's row, and nobody is left to make it let go.
    ghost predicate LockedOut(t: TxId, e: EventId)
      reads this
    {
      e in locks && locks[e] != t
    }

    // What a strategy leaves behind: its row update pending, or the transaction rolled back, for a reason.
    ghost predicate Ended(t: TxId, tx: Tx, d: Decrement)
      reads this
    {
      match d
      case Decremented(remaining, name) => Written(t, tx, remaining, name)
      case Threw(error) =>
        && At(t, tx.(phase := Done(error))) && !error.Confirmed? && (forall e :: e in locks ==> locks[e] != t)
        && (error.Errored? ==> LockedOut(t, tx.eventId))
    }

    // And nobody who is undisturbed gets anything but what the row says.
    twostate predicate Decremented?(t: TxId, tx: Tx, d: Decrement)
      reads this
    {
      && Ended(t, tx, d) && Awaited(t, tx.eventId)
      && (d.Threw? && d.error.NotFound? ==> tx.eventId !in old(events))
      && (old(Undisturbed(t, tx.eventId)) && (tx.strategy.Optimistic? ==> cfg.maxRetries >= 0) ==>
            Taken(t, tx, old(Row(tx.eventId)), d))
    }

    // d is what the row as it is has for transaction t.
    ghost predicate Taken(t: TxId, tx: Tx, row: Option<EventRow>, d: Decrement)
      reads this
    {
      match Expected(row, tx.quantity)
      case Confirmed(remaining) =>
        && d == Decremented(remaining, row.value.name)
        && t in txs && txs[t].phase.Writing? && txs[t].phase.row == SoldFrom(row.value, tx.quantity, tx.strategy)
      case error => d == Threw(error)
    }

    // Read, decide, write, with a gap in between.
    method DecrementNaive(t: TxId, ghost tx: Tx, quantity: int) returns (d: Decrement)
      requires At(t, tx) && tx.phase == Reading(0) && tx.strategy.Naive? && quantity == tx.quantity
      modifies this
      ensures Decremented?(t, tx, d)
    {
      hide Run;
      hide Alone;
      var event := FindOne(t, tx);
      ghost var tx1 := tx.(phase := Deciding(event, 0));
      if event.None? {
        Rollback(t, tx1, NotFound, Write);
        return Threw(NotFound);
      }
      d := SellSeats(t, tx1, event.value, quantity, false);
    }

    // Lock on read; everybody else queues.
    method DecrementPessimistic(t: TxId, ghost tx: Tx, quantity: int) returns (d: Decrement)
      requires At(t, tx) && tx.phase == Reading(0) && tx.strategy.Pessimistic? && quantity == tx.quantity
      modifies this
      ensures Decremented?(t, tx, d)
    {
      hide Run;
      hide SoldFrom;
      hide Alone;
      hide Others;
      var event, timedOut := FindOneForUpdate(t, tx);
      if timedOut {
        Rollback(t, tx, Errored, Abort);
        return Threw(Errored);
      }
      ghost var tx1 := tx.(phase := Deciding(event, 0));
      if event.None? {
        Rollback(t, tx1, NotFound, Write);
        return Threw(NotFound);
      }
      d := SellSeats(t, tx1, event.value, quantity, true);
    }

    // The row is read: refuse, or write what is left.
    method SellSeats(t: TxId, ghost tx: Tx, event: EventRow, quantity: int, bumpVersion: bool) returns (d: Decrement)
      requires At(t, tx) && tx.phase == Deciding(Some(event), 0) && !tx.strategy.Optimistic?
      requires quantity == tx.quantity && bumpVersion == tx.strategy.Pessimistic?
      modifies this
      ensures Ended(t, tx, d) && Awaited(t, tx.eventId) && !(d.Threw? && d.error.NotFound?)
      ensures old(Undisturbed(t, tx.eventId) && Row(tx.eventId) == Some(event)) ==> Taken(t, tx, Some(event), d)
    {
      hide Run;
      hide Alone;
      if event.availableSeats < quantity {
        Rollback(t, tx, SoldOut, Write);
        return Threw(SoldOut);
      }
      var remaining := event.availableSeats - quantity;
      var timedOut := UpdateSeats(t, tx, remaining, bumpVersion, event.name);
      if timedOut {
        Rollback(t, tx, Errored, Abort);
        return Threw(Errored);
      }
      d := Decremented(remaining, event.name);
    }

    // No lock: compare-and-set on the version, bounded retry.
    method DecrementOptimistic(t: TxId, ghost tx: Tx, quantity: int) returns (d: Decrement)
      requires At(t, tx) && tx.phase == Reading(0) && tx.strategy.Optimistic? && quantity == tx.quantity
      modifies this
      ensures Decremented?(t, tx, d)
    {
      hide Run;
      hide Alone;
      hide Others;
      var attempt := 0;
      while attempt <= cfg.maxRetries
        invariant attempt >= 0 && At(t, tx.(phase := Reading(attempt))) && Awaited(t, tx.eventId)
        invariant old(Undisturbed(t, tx.eventId)) ==> attempt == 0
        decreases cfg.maxRetries - attempt
      {
        var tried := TryOnce(t, tx.(phase := Reading(attempt)), attempt, quantity);
        if tried.Some? { return tried.value; }
        attempt := attempt + 1;
      }
      Rollback(t, tx.(phase := Reading(attempt)), Contention, Read);
      d := Threw(Contention);
    }

    // One attempt. None: somebody else won the race.
    method TryOnce(t: TxId, ghost tx: Tx, attempt: int, quantity: int) returns (d: Option<Decrement>)
      requires At(t, tx) && tx.phase == Reading(attempt) && tx.strategy.Optimistic? && quantity == tx.quantity
      requires attempt <= cfg.maxRetries
      modifies this
      ensures d.None? ==> At(t, tx.(phase := Reading(attempt + 1))) && Awaited(t, tx.eventId)
      ensures d.None? ==> !old(Undisturbed(t, tx.eventId))
      ensures d.Some? ==> Decremented?(t, tx, d.value)
    {
      hide Run;
      hide Alone;
      hide Others;
      var event := FindOne(t, tx);
      ghost var tx1 := tx.(phase := Deciding(event, attempt));
      if event.None? {
        Rollback(t, tx1, NotFound, Write);
        return Some(Threw(NotFound));
      }
      if event.value.availableSeats < quantity {
        Rollback(t, tx1, SoldOut, Write);
        return Some(Threw(SoldOut));
      }
      d := SwapSeats(t, tx1, event.value, quantity);
    }

    // The row is read, and there are seats enough in it.
    method SwapSeats(t: TxId, ghost tx: Tx, event: EventRow, quantity: int) returns (d: Option<Decrement>)
      requires At(t, tx) && tx.phase.Deciding? && tx.phase.seen == Some(event) && tx.strategy.Optimistic?
      requires quantity == tx.quantity <= event.availableSeats
      modifies this
      ensures Awaited(t, tx.eventId)
      ensures d.None? ==> At(t, tx.(phase := Reading(tx.phase.attempt + 1)))
      ensures d.Some? ==> Ended(t, tx, d.value) && !(d.value.Threw? && d.value.error.NotFound?)
      ensures old(Undisturbed(t, tx.eventId) && Row(tx.eventId) == Some(event)) ==>
        d.Some? && Taken(t, tx, Some(event), d.value)
    {
      hide Run;
      hide Alone;
      hide Others;
      var remaining := event.availableSeats - quantity;
      var affected, timedOut := CompareAndSet(t, tx, event.version, quantity, remaining, event.name);
      if timedOut {
        Rollback(t, tx, Errored, Abort);
        return Some(Threw(Errored));
      }
      d := if affected == 1 then Some(Decremented(remaining, event.name)) else None;
    }

    // ---------- The whole request ----------

    // One transaction. Confirmed exactly when this request's booking row is in the table, together
    // with its seat update and its outbox row; any other outcome leaves nothing behind. An error means
    // that somebody else holds the row, and a request that nobody disturbs gets what the row says.
    method Transact(t: TxId, eventId: EventId, userId: string, quantity: int, strategy: Strategy,
                    key: Option<string>) returns (r: Outcome)
      requires Valid() && Others(t) && t !in txs && quantity >= 1
      requires forall b :: b in bookings ==> b.id != t
      modifies this
      ensures Valid() && Others(t) && old(trace) <= trace
      ensures t in txs && txs[t] == Tx(eventId, userId, quantity, strategy, key, Done(r))
      ensures r.Confirmed? <==> Booking(t, eventId, userId, quantity, key) in bookings
      ensures !r.Confirmed? ==> forall b :: b in bookings ==> b.id != t
      ensures r.Confirmed? && cfg.outboxEnabled ==>
        t in outbox && outbox[t].payload.bookingId == t && outbox[t].status == Pending
      ensures r.Confirmed? ==> eventId in events
      ensures forall e :: e in locks ==> locks[e] != t
      ensures r.Errored? ==> LockedOut(t, eventId)
      ensures r.NotFound? ==> eventId !in old(events)
      ensures old(Undisturbed(t, eventId)) && (strategy.Optimistic? ==> cfg.maxRetries >= 0) ==>
        Served(t, eventId, old(Row(eventId)), r)
    {
      hide Run;
      hide Alone;
      hide Others;
      hide Elsewhere;
      hide Apply;
      var tx := Tx(eventId, userId, quantity, strategy, key, Reading(0));
      Start(t, tx);
      var d;
      match strategy {
        case Pessimistic => d := DecrementPessimistic(t, tx, quantity);
        case Optimistic => d := DecrementOptimistic(t, tx, quantity);
        case Naive => d := DecrementNaive(t, tx, quantity);
      }
      if d.Threw? { return d.error; }
      SaveAndCommit(t, txs[t]);
      assert Booking(t, eventId, userId, quantity, key) == bookings[|bookings| - 1];
      r := Confirmed(d.seatsRemaining);
    }

    // BEGIN
    method Start(t: TxId, tx: Tx)
      requires Valid() && Others(t) && t !in txs && tx.quantity >= 1 && tx.phase == Reading(0)
      requires forall b :: b in bookings ==> b.id != t
      modifies this`txs, this`trace
      ensures At(t, tx) && Awaited(t, tx.eventId)
    {
      hide Run;
      txs := txs[t := tx];
      Record(Begin(t, tx.eventId, tx.userId, tx.quantity, tx.strategy, tx.idempotencyKey));
    }

    // The outcome of transaction t is what the row it found had for it, and so is the row it leaves
    // behind, and its outbox row.
    ghost predicate Served(t: TxId, e: EventId, row: Option<EventRow>, r: Outcome)
      reads this
    {
      && t in txs && r == Expected(row, txs[t].quantity)
      && Row(e) == (if r.Confirmed? then Some(SoldFrom(row.value, txs[t].quantity, txs[t].strategy)) else row)
      && (r.Confirmed? && cfg.outboxEnabled ==>
            t in outbox && outbox[t] == OutboxRow(
              t, e, Payload(t, e, txs[t].userId, txs[t].quantity, row.value.name), now, Pending, 0, now))
    }

    // The transaction, then what follows its commit: the cache invalidation, and for the naive
    // strategy the integrity read, which may throw (`reportFails`). A success has its row in the
    // table; a row without a success is a naive booking whose integrity read threw.
    method Book(t: TxId, eventId: EventId, userId: string, quantity: int, strategy: Strategy,
                key: Option<string>, reportFails: bool) returns (a: Answer, oversold: bool)
      requires Valid() && Others(t) && t !in txs && quantity >= 1
      requires forall b :: b in bookings ==> b.id != t
      modifies this
      ensures Valid() && old(trace) <= trace
      ensures a.Success? ==> Booking(t, eventId, userId, quantity, key) in bookings
      ensures a.Success? && cfg.outboxEnabled ==>
        t in outbox && outbox[t].payload.bookingId == t && outbox[t].status == Pending
      ensures a.Failure? <==> Booking(t, eventId, userId, quantity, key) !in bookings
      ensures a.Failure? ==> forall b :: b in bookings ==> b.id != t
      ensures a.LateFailure? ==> strategy.Naive? && reportFails
      ensures a.Success? && strategy.Naive? ==> !reportFails
      ensures a.Failure? && a.error.Errored? ==> LockedOut(t, eventId)
      ensures a.Failure? && a.error.NotFound? ==> eventId !in old(events)
      ensures old(Undisturbed(t, eventId)) && (strategy.Optimistic? ==> cfg.maxRetries >= 0) ==>
        match Expected(old(Row(eventId)), quantity)
        case Confirmed(remaining) => a == if strategy.Naive? && reportFails then LateFailure else Success(remaining)
        case error => a == Failure(error)
      ensures t in txs && txs[t] == Tx(eventId, userId, quantity, strategy, key, txs[t].phase)
      ensures a.Success? ==> txs[t].phase == Done(Confirmed(a.seatsRemaining))
      ensures a.Failure? ==> txs[t].phase == Done(a.error)
      ensures a.Success? && strategy.Naive? ==>
        (oversold <==> eventId in events && Sold(bookings, eventId) > events[eventId].totalSeats)
      ensures !(a.Success? && strategy.Naive?) ==> !oversold
    {
      hide Run;
      oversold := false;
      var r := Transact(t, eventId, userId, quantity, strategy, key);
      if !r.Confirmed? { return Failure(r), false; }
      ghost var tx := txs[t];
      Linger(t, tx, eventId);
      if strategy.Naive? {
        if reportFails { return LateFailure, false; }
        oversold := RecordOversoldIfAny(t, tx, eventId);
      }
      a := Success(r.seatsRemaining);
    }

    // Transaction tx of t has committed, and its rows are in the tables.
    ghost predicate Committed(t: TxId, tx: Tx)
      reads this
    {
      && Valid() && Others(t) && t in txs && txs[t] == tx && tx.phase.Done? && tx.eventId in events
      && BookingOf(t, tx) in bookings
      && (cfg.outboxEnabled ==> t in outbox && outbox[t].payload.bookingId == t && outbox[t].status == Pending)
    }

    // An await after the commit.
    method Linger(t: TxId, ghost tx: Tx, ghost e: EventId)
      requires Committed(t, tx)
      modifies this
      ensures Committed(t, tx) && old(trace) <= trace
    {
      hide Run;
      var env := NextBurst();
      BurstAfterCommit(t, tx, env);
    }

    method NextBurst() returns (env: seq<Step>)
      modifies this`schedule
      ensures old(schedule) == [] ==> env == [] && schedule == []
      ensures old(schedule) != [] ==> [env] + schedule == old(schedule)
    {
      env := [];
      if schedule != [] {
        env := schedule[0];
        schedule := schedule[1..];
      }
    }

    method BurstAfterCommit(t: TxId, ghost tx: Tx, env: seq<Step>)
      requires Committed(t, tx) && forall st :: st in env ==> (st.Act? ==> st.t != t) && (st.Begin? ==> st.t != t)
      modifies this`now, this`events, this`locks, this`bookings, this`outbox, this`txs, this`trace
      ensures Committed(t, tx) && trace == old(trace) + env
    {
      hide Run;
      CommittedStays(State(), env, t, tx);
      RunConcat(Init(cfg), trace, env);
      Burst(env);
    }

    // Counts an oversold event after a naive booking.
    method RecordOversoldIfAny(t: TxId, ghost tx: Tx, e: EventId) returns (oversold: bool)
      requires Committed(t, tx) && e == tx.eventId
      modifies this
      ensures Committed(t, tx) && old(trace) <= trace
      ensures oversold <==> Sold(bookings, e) > events[e].totalSeats
    {
      hide Run;
      var env := NextBurst();
      CommittedStays(State(), env, t, tx);
      RunConcat(Init(cfg), trace, env);
      var report := ReadIntegrity(e, env);
      oversold := report.value.oversoldBy > 0;
    }

    // The rest of the transaction, once the seats are taken.
    method SaveAndCommit(t: TxId, ghost tx: Tx)
      requires At(t, tx) && tx.phase.Writing? && tx.phase.stage.Updated?
      modifies this
      ensures Valid() && Others(t) && old(trace) <= trace
      ensures t in txs && txs[t] == tx.(phase := Done(Confirmed(tx.phase.remaining)))
      ensures bookings != [] && bookings[|bookings| - 1] == BookingOf(t, tx)
      ensures tx.eventId in events && events[tx.eventId] == tx.phase.row
      ensures cfg.outboxEnabled ==> t in outbox && outbox[t] == OutboxOf(t, tx, tx.phase.eventName, now)
      ensures forall e :: e in locks ==> locks[e] != t
    {
      hide Run;
      hide Apply;
      SaveBooking(t, tx);
      if cfg.outboxEnabled { EnqueueEvent(t, txs[t]); }
      CommitTransaction(t, txs[t]);
    }

    // ---------- The report ----------

    // Two statements, the event row and the sum of its bookings; other requests run between them.
    // Over any strategies the report shows what each statement read, a counter never below the seats
    // really left, and drift with every overselling; over the locked ones, no overselling, and drift
    // exactly when a booking committed meanwhile.
    method ReadIntegrity(e: EventId, env: seq<Step>) returns (r: Option<Integrity>)
      requires Valid()
      modifies this`now, this`events, this`locks, this`bookings, this`outbox, this`txs, this`trace
      ensures Valid() && trace == old(trace) + if r.Some? then env else []
      ensures r.None? <==> e !in old(events)
      ensures r.Some? ==> e in events && events[e].totalSeats == old(events)[e].totalSeats == r.value.totalSeats
      ensures r.Some? ==> r.value.availableSeats == old(events)[e].availableSeats
      ensures r.Some? ==> r.value.confirmedSeats == Sold(bookings, e)
      ensures r.Some? ==> r.value.availableSeats >= Max(0, r.value.totalSeats - r.value.confirmedSeats)
      ensures r.Some? ==> r.value.oversoldBy == Max(0, Sold(bookings, e) - events[e].totalSeats)
      ensures r.Some? && r.value.oversoldBy > 0 ==> r.value.counterDrift
      ensures r.Some? && LockedOnly(old(trace)) && LockedOnly(env) ==>
        r.value.oversoldBy == 0 && (r.value.counterDrift <==> CountOf(bookings, e) != CountOf(old(bookings), e))
    {
      hide Run;
      if e !in events {
        assert trace + [] == trace;
        return None;
      }
      var event := events[e];
      Burst(env);
      var confirmed := SumQuantity(e);
      MixedReport(cfg, old(trace), env, e);
      if LockedOnly(old(trace)) && LockedOnly(env) { IntegrityReport(cfg, old(trace), env, e); }
      r := Some(Report(event, confirmed));
    }

    method Burst(env: seq<Step>)
      requires Valid()
      modifies this`now, this`events, this`locks, this`bookings, this`outbox, this`txs, this`trace
      ensures Valid() && trace == old(trace) + env
    {
      hide Run;
      var i := 0;
      while i < |env|
        invariant 0 <= i <= |env| && Valid() && trace == old(trace) + env[..i]
      {
        Interleave(env[i]);
        assert env[..i + 1] == env[..i] + [env[i]];
        i := i + 1;
      }
    }

    // SELECT COALESCE(SUM(quantity), 0) ... WHERE event_id = :e AND status = 'confirmed'
    method SumQuantity(e: EventId) returns (sum: int)
      ensures sum == Sold(bookings, e)
    {
      sum := 0;
      var i := 0;
      while i < |bookings|
        invariant 0 <= i <= |bookings| && sum == Sold(bookings[..i], e)
      {
        assert bookings[..i + 1][..i] == bookings[..i];
        if bookings[i].eventId == e { sum := sum + bookings[i].quantity; }
        i := i + 1;
      }
      assert bookings[..i] == bookings;
    }
  }

  lemma EventsStay(s: Db, st: Step)
    ensures s.events.Keys <= Apply(s, st).events.Keys
  {
  }

  // What somebody has read of an event is still an event.
  lemma SeenRowIsThere(cfg: Config, trace: seq<Step>, t: TxId)
    requires var s := Run(Init(cfg), trace);
      t in s.txs && s.txs[t].phase.Deciding? && s.txs[t].phase.seen.Some?
    ensures Run(Init(cfg), trace).txs[t].eventId in Run(Init(cfg), trace).events
  {
    MixedRun(Init(cfg), trace);
    assert MixedAt(Run(Init(cfg), trace), t);
  }

  lemma MyStepsElsewhere(txs: map<TxId, Tx>, t: TxId, tx: Tx, e: EventId)
    ensures forall st :: Elsewhere(txs, st, t, e) <==> Elsewhere(txs[t := tx], st, t, e)
  {
  }

  // A step elsewhere leaves the event's row alone, and a row that is free for t free for t.
  lemma ElsewhereLeavesRow(s: Db, st: Step, t: TxId, e: EventId)
    requires Elsewhere(s.txs, st, t, e)
    ensures RowOf(Apply(s, st), e) == RowOf(s, e) && (Free(s, e, t) ==> Free(Apply(s, st), e, t))
    ensures forall other :: Elsewhere(s.txs, other, t, e) ==> Elsewhere(Apply(s, st).txs, other, t, e)
  {
  }

  // What a transaction has committed, other requests leave alone.
  lemma {:induction false} CommittedStays(s: Db, env: seq<Step>, t: TxId, tx: Tx)
    requires t in s.txs && s.txs[t] == tx && tx.phase.Done? && tx.eventId in s.events && BookingOf(t, tx) in s.bookings
    requires forall st :: st in env ==> (st.Act? ==> st.t != t) && (st.Begin? ==> st.t != t)
    ensures var s' := Run(s, env);
      && t in s'.txs && s'.txs[t] == tx && tx.eventId in s'.events && BookingOf(t, tx) in s'.bookings
      && (t in s.outbox ==> t in s'.outbox && s'.outbox[t] == s.outbox[t])
  {
    if env == [] {
    } else {
      assert env[|env| - 1] in env;
      CommittedStays(s, env[..|env| - 1], t, tx);
      CommittedStaysStep(Run(s, env[..|env| - 1]), env[|env| - 1], t, tx);
    }
  }

  lemma CommittedStaysStep(s: Db, st: Step, t: TxId, tx: Tx)
    requires t in s.txs && s.txs[t] == tx && tx.eventId in s.events && BookingOf(t, tx) in s.bookings
    requires (st.Act? ==> st.t != t) && (st.Begin? ==> st.t != t)
    ensures var s' := Apply(s, st);
      && t in s'.txs && s'.txs[t] == tx && tx.eventId in s'.events && BookingOf(t, tx) in s'.bookings
      && (t in s.outbox ==> t in s'.outbox && s'.outbox[t] == s.outbox[t])
  {
  }

  // A statement that is not a successful COMMIT moves its own transaction and its lock.
  lemma ActApplied(s: Db, t: TxId, verb: Verb, m: Move)
    requires t in s.txs && m == MoveOf(s, t, verb) && !(m.phase.Done? && m.phase.outcome.Confirmed?)
    ensures Apply(s, Act(t, verb)) ==
      s.(txs := s.txs[t := s.txs[t].(phase := m.phase)], locks := MoveLock(s.locks, s.txs[t].eventId, t, m.lock))
  {
  }

  lemma CommitApplied(s: Db, t: TxId)
    requires t in s.txs && MayCommit(s.txs[t], s.cfg)
    ensures var tx := s.txs[t];
      Apply(s, Act(t, Commit)) == s.(
        events := s.events[tx.eventId := tx.phase.row],
        bookings := s.bookings + [BookingOf(t, tx)],
        outbox := if s.cfg.outboxEnabled then s.outbox[t := OutboxOf(t, tx, tx.phase.eventName, s.now)] else s.outbox,
        txs := s.txs[t := tx.(phase := Done(Confirmed(tx.phase.remaining)))],
        locks := map e | e in s.locks && s.locks[e] != t :: s.locks[e])
  {
  }

  lemma CfgKept(s: Db, st: Step)
    ensures Apply(s, st).cfg == s.cfg
  {
  }

  lemma OthersLeaveMineAlone(s: Db, st: Step, t: TxId)
    requires (st.Act? ==> st.t != t) && (st.Begin? ==> st.t != t)
    requires t in s.txs && forall b :: b in s.bookings ==> b.id != t
    ensures t in Apply(s, st).txs && Apply(s, st).txs[t] == s.txs[t]
    ensures forall b :: b in Apply(s, st).bookings ==> b.id != t
  {
  }
}
