/**
 Idempotency keys: the key table, the requests that claim keys, the bookings their handlers commit
 and the responses they get. Each step is one statement on the key table, one outcome of a handler,
 or the passing of time; requests, retries, crashes and the sweeper interleave freely.

 A stored fingerprint is the request line itself: the hash is taken to be injective.
 */
module Idempotency {
  import opened Fingerprint
  import opened Wrappers

  type Key = string
  type RequestId = nat
  type BookingId = nat

  const TTL_MS := 24 * 3600 * 1000
  const CREATED := 201
  const CONFLICT := 409
  const UNPROCESSABLE := 422

  datatype Status = InProgress | Completed(code: int, booking: BookingId)

  // A row of idempotency_keys. `owner`, the request that inserted it, is history.
  datatype KeyRow = KeyRow(hash: Text, status: Status, expiresAt: int, owner: RequestId)

  // A request claims its key (insert, and read if the insert conflicts), runs its handler, answers,
  // and then completes or releases the key behind the client's back.
  datatype Phase =
    | Inserting
    | Reading
    | Working
    | Committed(booking: BookingId)
    | Completing(booking: BookingId)
    | Releasing
    | Closed

  // No key: the client accepted the risk of duplicates.
  datatype Request = Request(key: Option<Key>, line: Text, at: int, phase: Phase)

  // `epoch` is history: how often the key had been swept.
  datatype Booking = Booking(key: Option<Key>, request: RequestId, epoch: nat)
  datatype Answer = Answer(request: RequestId, key: Option<Key>, epoch: nat, code: int,
                           booking: Option<BookingId>, replay: bool)

  datatype World = World(now: int, rows: map<Key, KeyRow>, requests: map<RequestId, Request>,
                         bookings: seq<Booking>, answers: seq<Answer>, sweeps: map<Key, nat>)

  datatype Step =
    | Call(r: RequestId, key: Option<Key>, line: Text)
    | Insert(r: RequestId)
    | Lookup(r: RequestId)
    | Commit(r: RequestId)
    | Respond(r: RequestId)
    | Fail(r: RequestId, code: int)
    | ThrowLate(r: RequestId, code: int)
    | Complete(r: RequestId, ok: bool)
    | Release(r: RequestId, ok: bool)
    | Crash(r: RequestId)
    | Sweep(swept: Key)
    | Tick(ms: nat)

  // ---------- The steps ----------

  function Init(): World {
    World(0, map[], map[], [], [], map[])
  }

  function Epoch(w: World, key: Option<Key>): nat {
    if key.Some? && key.value in w.sweeps then w.sweeps[key.value] else 0
  }

  predicate In(w: World, r: RequestId, p: Phase) {
    r in w.requests && w.requests[r].phase == p
  }

  function Goto(w: World, r: RequestId, p: Phase): World
    requires r in w.requests
  {
    w.(requests := w.requests[r := w.requests[r].(phase := p)])
  }

  function Reply(w: World, r: RequestId, code: int, booking: Option<BookingId>, replay: bool): Answer
    requires r in w.requests
  {
    Answer(r, w.requests[r].key, Epoch(w, w.requests[r].key), code, booking, replay)
  }

  // The request answers and moves on.
  function Say(w: World, r: RequestId, code: int, booking: Option<BookingId>, replay: bool, p: Phase): World
    requires r in w.requests
  {
    Goto(w, r, p).(answers := w.answers + [Reply(w, r, code, booking, replay)])
  }

  // INSERT ... ON CONFLICT DO NOTHING RETURNING key
  function InsertStep(w: World, r: RequestId): World
    requires r in w.requests && w.requests[r].key.Some?
  {
    var q := w.requests[r];
    if q.key.value in w.rows then Goto(w, r, Reading)
    else Goto(w, r, Working).(rows := w.rows[q.key.value := KeyRow(q.line, InProgress, q.at + TTL_MS, r)])
  }

  // The row is gone: proceed without it. Another fingerprint: 422. Completed: replay. Else 409.
  function LookupStep(w: World, r: RequestId): World
    requires r in w.requests && w.requests[r].key.Some?
  {
    var q := w.requests[r];
    if q.key.value !in w.rows then Goto(w, r, Working)
    else
      var row := w.rows[q.key.value];
      if row.hash != q.line then Say(w, r, UNPROCESSABLE, None, false, Closed)
      else if row.status.Completed? then Say(w, r, row.status.code, Some(row.status.booking), true, Closed)
      else Say(w, r, CONFLICT, None, false, Closed)
  }

  function CommitStep(w: World, r: RequestId): World
    requires r in w.requests
  {
    var key := w.requests[r].key;
    Goto(w, r, Committed(|w.bookings|)).(bookings := w.bookings + [Booking(key, r, Epoch(w, key))])
  }

  // UPDATE ... WHERE key, whoever's row that now is.
  function CompleteStep(w: World, r: RequestId, ok: bool): World
    requires r in w.requests && w.requests[r].phase.Completing? && w.requests[r].key.Some?
  {
    var q := w.requests[r];
    var w' := Goto(w, r, Closed);
    if ok && q.key.value in w.rows then
      w'.(rows := w.rows[q.key.value := w.rows[q.key.value].(status := Completed(CREATED, q.phase.booking))])
    else w'
  }

  // DELETE ... WHERE key, whoever's row that now is.
  function ReleaseStep(w: World, r: RequestId, ok: bool): World
    requires r in w.requests && w.requests[r].key.Some?
  {
    Goto(w, r, Closed).(rows := if ok then w.rows - {w.requests[r].key.value} else w.rows)
  }

  function Apply(w: World, st: Step): World {
    match st
    case Call(r, key, line) =>
      if r in w.requests then w
      else
        w.(requests := w.requests[r := Request(key, line, w.now, if key.Some? then Inserting else Working)])
    case Insert(r) =>
      if In(w, r, Inserting) && w.requests[r].key.Some? then InsertStep(w, r) else w
    case Lookup(r) => if In(w, r, Reading) && w.requests[r].key.Some? then LookupStep(w, r) else w
    case Commit(r) => if In(w, r, Working) then CommitStep(w, r) else w
    case Respond(r) =>
      if r in w.requests && w.requests[r].phase.Committed? then
        var b := w.requests[r].phase.booking;
        Say(w, r, CREATED, Some(b), false, if w.requests[r].key.Some? then Completing(b) else Closed)
      else w
    case Fail(r, code) =>
      if In(w, r, Working) then Say(w, r, code, None, false, AfterThrow(w.requests[r])) else w
    case ThrowLate(r, code) =>
      if r in w.requests && w.requests[r].phase.Committed?
      then Say(w, r, code, None, false, AfterThrow(w.requests[r])) else w
    case Complete(r, ok) =>
      if r in w.requests && w.requests[r].phase.Completing? && w.requests[r].key.Some?
      then CompleteStep(w, r, ok) else w
    case Release(r, ok) => if In(w, r, Releasing) && w.requests[r].key.Some? then ReleaseStep(w, r, ok) else w
    case Crash(r) => if r in w.requests then Goto(w, r, Closed) else w
    case Sweep(k) =>
      if Expired(w, k) then w.(rows := w.rows - {k}, sweeps := w.sweeps[k := Epoch(w, Some(k)) + 1]) else w
    case Tick(ms) => w.(now := w.now + ms)
  }

  function AfterThrow(q: Request): Phase {
    if q.key.Some? then Releasing else Closed
  }

  predicate Expired(w: World, k: Key) {
    k in w.rows && w.rows[k].expiresAt < w.now
  }

  function Run(w: World, steps: seq<Step>): World {
    if steps == [] then w else Apply(Run(w, steps[..|steps| - 1]), steps[|steps| - 1])
  }

  lemma RunSnoc(w: World, steps: seq<Step>, st: Step)
    ensures Run(w, steps + [st]) == Apply(Run(w, steps), st)
  {
    assert (steps + [st])[..|steps|] == steps;
  }

  // ---------- The condition ----------

  // Past its claim and not yet done with its key.
  predicate Active(q: Request) {
    q.key.Some? && (q.phase.Working? || q.phase.Committed? || q.phase.Completing? || q.phase.Releasing?)
  }

  // A step that the guarantee cannot survive: reading a row that is gone, sweeping a row whose owner
  // is still at work, and a handler that throws although its booking is committed.
  predicate Hazard(w: World, st: Step) {
    match st
    case Lookup(r) => In(w, r, Reading) && w.requests[r].key.Some? && w.requests[r].key.value !in w.rows
    case Sweep(k) => Expired(w, k) && w.rows[k].owner in w.requests && Active(w.requests[w.rows[k].owner])
    case ThrowLate(r, _) => r in w.requests && w.requests[r].phase.Committed? && w.requests[r].key.Some?
    case _ => false
  }

  // No step from w on is one.
  ghost predicate Calm(w: World, steps: seq<Step>) {
    steps == [] || (Calm(w, steps[..|steps| - 1]) && !Hazard(Run(w, steps[..|steps| - 1]), steps[|steps| - 1]))
  }

  // ---------- The guarantee ----------

  // At most one booking per key between two sweeps of the key.
  ghost predicate OneBooking(w: World, i: nat, j: nat) {
    i < j < |w.bookings| && w.bookings[i].key.Some? && w.bookings[i].key == w.bookings[j].key
    ==> w.bookings[i].epoch != w.bookings[j].epoch
  }

  // A success for a key carries the booking made for it since the last sweep, and it goes to the
  // same request, or one with the same fingerprint.
  ghost predicate RightAnswer(w: World, i: nat) {
    i < |w.answers| && w.answers[i].key.Some? && w.answers[i].booking.Some? ==>
      var a := w.answers[i];
      && a.booking.value < |w.bookings|
      && var b := w.bookings[a.booking.value];
      && b.key == a.key && b.epoch == a.epoch
      && a.request in w.requests && b.request in w.requests
      && w.requests[a.request].line == w.requests[b.request].line
      && (!a.replay ==> a.request == b.request)
  }

  ghost predicate Guarantee(w: World) {
    && (forall i, j {:trigger OneBooking(w, i, j)} :: OneBooking(w, i, j))
    && (forall i {:trigger RightAnswer(w, i)} :: RightAnswer(w, i))
  }

  // ---------- What calm runs keep ----------

  ghost predicate NoneYet(w: World, k: Key) {
    forall i :: 0 <= i < |w.bookings| ==> w.bookings[i].key != Some(k) || w.bookings[i].epoch != Epoch(w, Some(k))
  }

  ghost predicate Booked(w: World, b: BookingId, k: Key, r: RequestId) {
    b < |w.bookings| && w.bookings[b] == Booking(Some(k), r, Epoch(w, Some(k)))
  }

  // An active request owns its key's row, which is still in progress.
  ghost predicate RequestAt(w: World, r: RequestId) {
    r in w.requests && Active(w.requests[r]) ==>
      var q := w.requests[r];
      var k := q.key.value;
      && k in w.rows && w.rows[k].owner == r && w.rows[k].status.InProgress?
      && match q.phase {
           case Committed(b) => Booked(w, b, k, r)
           case Completing(b) => Booked(w, b, k, r)
           case _ => NoneYet(w, k)
         }
  }

  ghost predicate KeyAt(w: World, k: Key) {
    if k !in w.rows then NoneYet(w, k)
    else
      var row := w.rows[k];
      && row.owner in w.requests && w.requests[row.owner].key == Some(k) && w.requests[row.owner].line == row.hash
      && row.expiresAt == w.requests[row.owner].at + TTL_MS
      && (row.status.Completed? ==> Booked(w, row.status.booking, k, row.owner))
  }

  ghost predicate BookingAt(w: World, i: nat) {
    i < |w.bookings| ==>
      w.bookings[i].request in w.requests && w.bookings[i].epoch <= Epoch(w, w.bookings[i].key)
  }

  ghost predicate CalmInv(w: World) {
    && (forall r {:trigger RequestAt(w, r)} :: RequestAt(w, r))
    && (forall k {:trigger KeyAt(w, k)} :: KeyAt(w, k))
    && (forall i {:trigger BookingAt(w, i)} :: BookingAt(w, i))
  }

  // Requests keep who they are; what is booked or answered stays.
  lemma Frame(w: World, st: Step)
    ensures var w' := Apply(w, st);
      && (forall r :: r in w.requests ==>
            r in w'.requests && w'.requests[r] == w.requests[r].(phase := w'.requests[r].phase))
      && |w.bookings| <= |w'.bookings| && w'.bookings[..|w.bookings|] == w.bookings
      && |w.answers| <= |w'.answers| && w'.answers[..|w.answers|] == w.answers
  {
    forall r | r in w.requests
      ensures r in Apply(w, st).requests
      ensures Apply(w, st).requests[r] == w.requests[r].(phase := Apply(w, st).requests[r].phase)
    {
      RequestStays(w, st, r);
    }
    HistoryStays(w, st);
  }

  lemma RequestStays(w: World, st: Step, r: RequestId)
    requires r in w.requests
    ensures r in Apply(w, st).requests
    ensures Apply(w, st).requests[r] == w.requests[r].(phase := Apply(w, st).requests[r].phase)
  {
    if Mover(st) == Some(r) { MoverStays(w, st, r); } else { OthersStay(w, st, r); }
  }

  lemma MoverStays(w: World, st: Step, r: RequestId)
    requires r in w.requests && Mover(st) == Some(r)
    ensures r in Apply(w, st).requests
    ensures Apply(w, st).requests[r] == w.requests[r].(phase := Apply(w, st).requests[r].phase)
  {
  }

  // A step moves no request but its own.
  lemma OthersStay(w: World, st: Step, r: RequestId)
    requires Mover(st) != Some(r)
    ensures r in Apply(w, st).requests <==> r in w.requests
    ensures r in w.requests ==> Apply(w, st).requests[r] == w.requests[r]
  {
    hide Reply;
    hide Epoch;
  }

  // A new booking is the one a request at work has just made under its key.
  lemma NewBooking(w: World, st: Step, i: nat)
    requires |w.bookings| <= i < |Apply(w, st).bookings|
    ensures i == |w.bookings| && Mover(st).Some? && In(w, Mover(st).value, Working)
    ensures var key := w.requests[Mover(st).value].key;
      Apply(w, st).bookings[i] == Booking(key, Mover(st).value, Epoch(w, key))
    ensures Apply(w, st).sweeps == w.sweeps
  {
  }

  lemma EpochsGrow(w: World, st: Step, key: Option<Key>)
    ensures Epoch(w, key) <= Epoch(Apply(w, st), key)
  {
  }

  lemma HistoryStays(w: World, st: Step)
    ensures w.bookings <= Apply(w, st).bookings && w.answers <= Apply(w, st).answers
  {
  }

  function Mover(st: Step): Option<RequestId> {
    match st
    case Sweep(_) => None
    case Tick(_) => None
    case _ => Some(st.r)
  }

  // While a request owns its key's row, nobody else touches the row, books under the key or sweeps it.
  lemma OwnerUndisturbed(w: World, st: Step, r: RequestId)
    requires CalmInv(w) && !Hazard(w, st) && Mover(st) != Some(r)
    requires r in w.requests && Active(w.requests[r])
    ensures var k, w' := w.requests[r].key.value, Apply(w, st);
      && r in w'.requests && w'.requests[r] == w.requests[r]
      && k in w.rows && k in w'.rows && w'.rows[k] == w.rows[k] && Epoch(w', Some(k)) == Epoch(w, Some(k))
      && (forall i :: |w.bookings| <= i < |w'.bookings| ==> w'.bookings[i].key != Some(k))
  {
    assert RequestAt(w, r);
    OthersStay(w, st, r);
    RowUndisturbed(w, st, r);
    hide Apply;
    forall i | |w.bookings| <= i < |Apply(w, st).bookings|
      ensures Apply(w, st).bookings[i].key != w.requests[r].key
    {
      NewBooking(w, st, i);
      assert RequestAt(w, Mover(st).value);
    }
  }

  lemma RowUndisturbed(w: World, st: Step, r: RequestId)
    requires CalmInv(w) && !Hazard(w, st) && Mover(st) != Some(r)
    requires r in w.requests && Active(w.requests[r])
    ensures var k, w' := w.requests[r].key.value, Apply(w, st);
      k in w.rows && k in w'.rows && w'.rows[k] == w.rows[k] && Epoch(w', Some(k)) == Epoch(w, Some(k))
  {
    hide Reply;
    assert RequestAt(w, r);
    if Mover(st).Some? { assert RequestAt(w, Mover(st).value); }
  }

  lemma OthersAt(w: World, st: Step, r: RequestId)
    requires CalmInv(w) && !Hazard(w, st) && Mover(st) != Some(r)
    ensures RequestAt(Apply(w, st), r)
  {
    hide Apply;
    hide Hazard;
    HistoryStays(w, st);
    OthersStay(w, st, r);
    if r in w.requests && Active(w.requests[r]) {
      assert RequestAt(w, r);
      OwnerUndisturbed(w, st, r);
      NoneYetStays(w, Apply(w, st), w.requests[r].key.value);
    }
  }

  lemma NoneYetStays(w: World, w': World, k: Key)
    requires |w.bookings| <= |w'.bookings| && w'.bookings[..|w.bookings|] == w.bookings
    requires Epoch(w', Some(k)) == Epoch(w, Some(k))
    requires forall i :: |w.bookings| <= i < |w'.bookings| ==> w'.bookings[i].key != Some(k)
    ensures NoneYet(w, k) ==> NoneYet(w', k)
  {
    assert forall i :: 0 <= i < |w.bookings| ==> w'.bookings[i] == w.bookings[i];
  }

  lemma MoverAt(w: World, st: Step, r: RequestId)
    requires CalmInv(w) && !Hazard(w, st) && Mover(st) == Some(r)
    ensures RequestAt(Apply(w, st), r)
  {
    hide Reply;
    assert RequestAt(w, r);
    if r in w.requests && w.requests[r].key.Some? { assert KeyAt(w, w.requests[r].key.value); }
  }

  // A step that leaves the key's row and epoch alone leaves what is known about the key alone.
  lemma KeyKept(w: World, st: Step, k: Key)
    requires CalmInv(w)
    requires var w' := Apply(w, st); w'.rows == w.rows && w'.sweeps == w.sweeps
    ensures KeyAt(Apply(w, st), k)
  {
    hide Apply;
    Frame(w, st);
    assert KeyAt(w, k);
    var w' := Apply(w, st);
    if k !in w.rows {
      forall i | |w.bookings| <= i < |w'.bookings| ensures w'.bookings[i].key != Some(k) {
        NewBooking(w, st, i);
        assert RequestAt(w, Mover(st).value);
      }
      NoneYetStays(w, w', k);
    }
  }

  lemma InsertKey(w: World, r: RequestId, k: Key)
    requires CalmInv(w) && r in w.requests && w.requests[r].key.Some?
    ensures KeyAt(InsertStep(w, r), k)
  {
    assert KeyAt(w, k);
  }

  lemma CompleteKey(w: World, r: RequestId, ok: bool, k: Key)
    requires CalmInv(w) && r in w.requests && w.requests[r].phase.Completing? && w.requests[r].key.Some?
    ensures KeyAt(CompleteStep(w, r, ok), k)
  {
    assert KeyAt(w, k) && RequestAt(w, r);
  }

  lemma ReleaseKey(w: World, r: RequestId, ok: bool, k: Key)
    requires CalmInv(w) && In(w, r, Releasing) && w.requests[r].key.Some?
    ensures KeyAt(ReleaseStep(w, r, ok), k)
  {
    assert KeyAt(w, k) && RequestAt(w, r);
  }

  lemma SweepKey(w: World, swept: Key, k: Key)
    requires CalmInv(w) && Expired(w, swept)
    ensures KeyAt(Apply(w, Sweep(swept)), k)
  {
    assert KeyAt(w, k);
    forall i: nat | i < |w.bookings| && w.bookings[i].key == Some(k)
      ensures w.bookings[i].epoch <= Epoch(w, Some(k))
    {
      assert BookingAt(w, i);
    }
  }

  lemma KeyStep(w: World, st: Step, k: Key)
    requires CalmInv(w)
    ensures KeyAt(Apply(w, st), k)
  {
    assert KeyAt(w, k);
    if Apply(w, st) == w { return; }
    match st
    case Insert(r) => InsertKey(w, r, k);
    case Complete(r, ok) => CompleteKey(w, r, ok, k);
    case Release(r, ok) => ReleaseKey(w, r, ok, k);
    case Sweep(swept) => SweepKey(w, swept, k);
    case _ => KeyKept(w, st, k);
  }

  lemma BookingStep(w: World, st: Step, i: nat)
    requires CalmInv(w)
    ensures BookingAt(Apply(w, st), i)
  {
    hide Apply;
    Frame(w, st);
    if i < |w.bookings| {
      assert BookingAt(w, i);
      assert Apply(w, st).bookings[i] == w.bookings[i];
      EpochsGrow(w, st, w.bookings[i].key);
    } else if i < |Apply(w, st).bookings| {
      NewBooking(w, st, i);
    }
  }

  lemma CalmStep(w: World, st: Step)
    requires CalmInv(w) && !Hazard(w, st)
    ensures CalmInv(Apply(w, st))
  {
    var w' := Apply(w, st);
    forall r: RequestId ensures RequestAt(w', r) {
      if Mover(st) == Some(r) { MoverAt(w, st, r); } else { OthersAt(w, st, r); }
    }
    forall k ensures KeyAt(w', k) { KeyStep(w, st, k); }
    forall i: nat ensures BookingAt(w', i) { BookingStep(w, st, i); }
  }

  lemma OneBookingStep(w: World, st: Step, i: nat, j: nat)
    requires CalmInv(w) && Guarantee(w) && !Hazard(w, st)
    ensures OneBooking(Apply(w, st), i, j)
  {
    hide Apply;
    Frame(w, st);
    assert OneBooking(w, i, j);
    var w' := Apply(w, st);
    if i < j < |w'.bookings| {
      if i < |w.bookings| { assert w'.bookings[i] == w.bookings[i]; }
      if j < |w.bookings| {
        assert w'.bookings[j] == w.bookings[j];
      } else {
        NewBooking(w, st, j);
        assert RequestAt(w, Mover(st).value);
      }
    }
  }

  lemma OldAnswerStands(w: World, st: Step, i: nat)
    requires RightAnswer(w, i) && i < |w.answers|
    ensures RightAnswer(Apply(w, st), i)
  {
    Frame(w, st);
    assert Apply(w, st).answers[i] == w.answers[i];
    var a := w.answers[i];
    if a.booking.Some? && a.booking.value < |w.bookings| {
      assert Apply(w, st).bookings[a.booking.value] == w.bookings[a.booking.value];
    }
  }

  lemma NewAnswerRight(w: World, st: Step, i: nat)
    requires CalmInv(w) && !Hazard(w, st) && i >= |w.answers|
    ensures RightAnswer(Apply(w, st), i)
  {
    if Mover(st).Some? {
      var r := Mover(st).value;
      assert RequestAt(w, r);
      if r in w.requests && w.requests[r].key.Some? { assert KeyAt(w, w.requests[r].key.value); }
    }
  }

  lemma GuaranteeStep(w: World, st: Step)
    requires CalmInv(w) && Guarantee(w) && !Hazard(w, st)
    ensures Guarantee(Apply(w, st))
  {
    var w' := Apply(w, st);
    forall i: nat, j: nat ensures OneBooking(w', i, j) { OneBookingStep(w, st, i, j); }
    forall i: nat ensures RightAnswer(w', i) {
      if i < |w.answers| {
        assert RightAnswer(w, i);
        OldAnswerStands(w, st, i);
      } else {
        NewAnswerRight(w, st, i);
      }
    }
  }

  lemma {:induction false} CalmRun(w: World, steps: seq<Step>)
    requires CalmInv(w) && Guarantee(w) && Calm(w, steps)
    ensures CalmInv(Run(w, steps)) && Guarantee(Run(w, steps))
  {
    if steps == [] {
    } else {
      var before, last := steps[..|steps| - 1], steps[|steps| - 1];
      CalmRun(w, before);
      CalmStep(Run(w, before), last);
      GuaranteeStep(Run(w, before), last);
    }
  }
}
