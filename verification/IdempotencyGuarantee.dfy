/**
 What idempotency keys guarantee, and exactly when: over every run without a hazard the guarantee
 holds, and from any such run every hazard can be continued, without another one, to a state where
 it does not.
 */
module IdempotencyGuarantee {
  import opened Arithmetic
  import opened Fingerprint
  import opened Idempotency
  import RequestLines
  import opened Wrappers

  // Between two sweeps of a key at most one booking is made for it, over any interleaving of
  // retries, crashes and failed completes or releases.
  lemma {:induction false} AtMostOneBookingPerKey(steps: seq<Step>, i: nat, j: nat)
    requires Calm(Init(), steps)
    requires var w := Run(Init(), steps);
      i < j < |w.bookings| && w.bookings[i].key.Some? && w.bookings[i].key == w.bookings[j].key
    ensures var w := Run(Init(), steps);
      w.bookings[i].epoch != w.bookings[j].epoch
  {
    CalmRun(Init(), steps);
    assert OneBooking(Run(Init(), steps), i, j);
  }

  // Every success answered for a key between two sweeps carries that one booking, and all of them go
  // to requests with one and the same fingerprint.
  lemma {:induction false} SuccessesAgree(steps: seq<Step>, i: nat, j: nat)
    requires Calm(Init(), steps)
    requires var w := Run(Init(), steps);
      && i < |w.answers| && j < |w.answers|
      && w.answers[i].booking.Some? && w.answers[j].booking.Some?
      && w.answers[i].key.Some? && w.answers[i].key == w.answers[j].key && w.answers[i].epoch == w.answers[j].epoch
    ensures var w := Run(Init(), steps);
      var a, b := w.answers[i], w.answers[j];
      && a.booking == b.booking && a.request in w.requests && b.request in w.requests
      && w.requests[a.request].line == w.requests[b.request].line
      && (!a.replay && !b.replay ==> a.request == b.request)
  {
    CalmRun(Init(), steps);
    var w := Run(Init(), steps);
    assert RightAnswer(w, i) && RightAnswer(w, j);
    var m, n := w.answers[i].booking.value, w.answers[j].booking.value;
    assert OneBooking(w, m, n) && OneBooking(w, n, m);
  }

  // So a replay is only ever given to the same request again: same method, same path, and a body
  // that means the same.
  lemma ReplayMeansSameRequest(steps: seq<Step>, i: nat, b: BookingId,
                               m1: Text, p1: Text, v: Value, m2: Text, p2: Text, u: Value, leq: Order)
    requires Calm(Init(), steps)
    requires var w := Run(Init(), steps);
      && i < |w.answers| && w.answers[i].replay && w.answers[i].booking == Some(b) && w.answers[i].key.Some?
      && w.answers[i].request in w.requests && b < |w.bookings| && w.bookings[b].request in w.requests
      && w.requests[w.answers[i].request].line == RequestLine(m1, p1, v, leq)
      && w.requests[w.bookings[b].request].line == RequestLine(m2, p2, u, leq)
    requires Valid(v) && Valid(u)
    requires RequestLines.NoSpace(Upper(m1)) && RequestLines.NoSpace(Upper(m2))
    requires RequestLines.NoSpace(p1) && RequestLines.NoSpace(p2)
    ensures Upper(m1) == Upper(m2) && p1 == p2 && Mean(v) == Mean(u)
  {
    CalmRun(Init(), steps);
    assert RightAnswer(Run(Init(), steps), i);
    RequestLines.LineDeterminesRequest(m1, p1, v, m2, p2, u, leq);
  }

  // The sweeping hazard takes a request that is still at work a day after it came.
  lemma OnlyDayOldRequestsAreSwept(steps: seq<Step>, k: Key)
    requires Calm(Init(), steps) && Hazard(Run(Init(), steps), Sweep(k))
    ensures var w := Run(Init(), steps);
      w.now - w.requests[w.rows[k].owner].at > 24 * 60 * 60 * 1000
  {
    CalmRun(Init(), steps);
    assert KeyAt(Run(Init(), steps), k);
  }

  // ---------- Every hazard breaks it ----------

  // One more step of a continuation.
  lemma Extend(w0: World, more: seq<Step>, w: World, st: Step) returns (longer: seq<Step>, next: World)
    requires w == Run(w0, more) && Calm(w0, more) && !Hazard(w, st)
    ensures longer == more + [st] && next == Apply(w, st) == Run(w0, longer) && Calm(w0, longer)
  {
    longer, next := more + [st], Apply(w, st);
    RunSnoc(w0, more, st);
    assert longer[..|more|] == more;
  }

  lemma Start(w0: World)
    ensures Run(w0, []) == w0 && Calm(w0, [])
  {
  }

  lemma CallThenInsert(w: World, q: RequestId, k: Key, line: Text)
    requires q !in w.requests
    ensures Apply(Apply(w, Call(q, Some(k), line)), Insert(q)) ==
      if k in w.rows then w.(requests := w.requests[q := Request(Some(k), line, w.now, Reading)])
      else w.(requests := w.requests[q := Request(Some(k), line, w.now, Working)],
              rows := w.rows[k := KeyRow(line, InProgress, w.now + TTL_MS, q)])
  {
    var called := w.(requests := w.requests[q := Request(Some(k), line, w.now, Inserting)]);
    assert Apply(w, Call(q, Some(k), line)) == called;
    assert Apply(called, Insert(q)) == InsertStep(called, q);
    assert called.requests[q := Request(Some(k), line, w.now, Reading)]
      == w.requests[q := Request(Some(k), line, w.now, Reading)];
    assert called.requests[q := Request(Some(k), line, w.now, Working)]
      == w.requests[q := Request(Some(k), line, w.now, Working)];
  }

  // A newcomer takes a key that has no row.
  lemma Take(w0: World, more: seq<Step>, w: World, q: RequestId, k: Key, line: Text)
    returns (longer: seq<Step>, next: World)
    requires w == Run(w0, more) && Calm(w0, more) && q !in w.requests && k !in w.rows
    ensures next == Run(w0, longer) && Calm(w0, longer)
    ensures next == w.(requests := w.requests[q := Request(Some(k), line, w.now, Working)],
                       rows := w.rows[k := KeyRow(line, InProgress, w.now + TTL_MS, q)])
  {
    hide Run;
    hide Calm;
    hide Guarantee;
    hide Apply;
    CallThenInsert(w, q, k, line);
    longer, next := Extend(w0, more, w, Call(q, Some(k), line));
    longer, next := Extend(w0, longer, next, Insert(q));
  }

  // A newcomer whose insert conflicts.
  lemma Collide(w0: World, more: seq<Step>, w: World, q: RequestId, k: Key, line: Text)
    returns (longer: seq<Step>, next: World)
    requires w == Run(w0, more) && Calm(w0, more) && q !in w.requests && k in w.rows
    ensures next == Run(w0, longer) && Calm(w0, longer)
    ensures next == w.(requests := w.requests[q := Request(Some(k), line, w.now, Reading)])
  {
    hide Run;
    hide Calm;
    hide Guarantee;
    hide Apply;
    CallThenInsert(w, q, k, line);
    longer, next := Extend(w0, more, w, Call(q, Some(k), line));
    longer, next := Extend(w0, longer, next, Insert(q));
  }

  lemma Two(w: World, i: nat, j: nat)
    requires i < j < |w.bookings| && w.bookings[i].key.Some? && w.bookings[i].key == w.bookings[j].key
    requires w.bookings[i].epoch == w.bookings[j].epoch
    ensures !Guarantee(w)
  {
    assert !OneBooking(w, i, j);
  }

  // Two requests at work under one key both book.
  lemma BothBook(w0: World, more: seq<Step>, w: World, q: RequestId, p: RequestId) returns (longer: seq<Step>)
    requires w == Run(w0, more) && Calm(w0, more) && q != p && In(w, q, Working) && In(w, p, Working)
    requires w.requests[q].key.Some? && w.requests[q].key == w.requests[p].key
    ensures Calm(w0, longer) && !Guarantee(Run(w0, longer))
  {
    hide Run;
    hide Calm;
    hide Guarantee;
    var x;
    longer, x := Extend(w0, more, w, Commit(q));
    longer, x := Extend(w0, longer, x, Commit(p));
    Two(x, |w.bookings|, |w.bookings| + 1);
  }

  lemma Wrong(w: World, i: nat)
    requires !RightAnswer(w, i)
    ensures !Guarantee(w)
  {
  }

  // The row was gone: the reader proceeds without one, and so a newcomer gets the key as well.
  lemma {:induction false} MissingRowBreaks(w: World, r: RequestId) returns (more: seq<Step>)
    requires Hazard(w, Lookup(r))
    ensures Calm(Apply(w, Lookup(r)), more) && !Guarantee(Run(Apply(w, Lookup(r)), more))
  {
    hide Run;
    hide Calm;
    hide Guarantee;
    var key, line := w.requests[r].key, w.requests[r].line;
    var w0 := Apply(w, Lookup(r));
    var q := SpareId(w0.requests.Keys);
    assert q !in w0.requests.Keys;
    var x := w0;
    Start(w0);
    more := [];
    more, x := Take(w0, more, x, q, key.value, line);
    more := BothBook(w0, more, x, r, q);
  }

  // Ids nobody has used.
  lemma Newcomers(w: World) returns (q: RequestId, p: RequestId)
    ensures q !in w.requests && p !in w.requests && q != p
  {
    q := SpareId(w.requests.Keys);
    p := q + 1;
    assert q !in w.requests.Keys && p !in w.requests.Keys;
  }

  // The booking stands, but the key is released: a retry books again.
  lemma {:induction false} LateThrowBreaks(w: World, r: RequestId, code: int) returns (more: seq<Step>)
    requires CalmInv(w) && Hazard(w, ThrowLate(r, code))
    ensures Calm(Apply(w, ThrowLate(r, code)), more) && !Guarantee(Run(Apply(w, ThrowLate(r, code)), more))
  {
    hide Run;
    hide Calm;
    hide Guarantee;
    assert RequestAt(w, r);
    var key, line, b := w.requests[r].key, w.requests[r].line, w.requests[r].phase.booking;
    var w0 := Apply(w, ThrowLate(r, code));
    var q, _ := Newcomers(w0);
    var x := w0;
    Start(w0);
    more := [];
    more, x := Extend(w0, more, x, Release(r, true));
    more, x := Take(w0, more, x, q, key.value, line);
    more, x := Extend(w0, more, x, Commit(q));
    Two(x, b, |w.bookings|);
  }

  // Swept before its handler commits: a newcomer takes the key, and both book.
  lemma {:induction false} SweptWorkingBreaks(w: World, k: Key, o: RequestId) returns (more: seq<Step>)
    requires Expired(w, k) && In(w, o, Working) && w.requests[o].key == Some(k)
    ensures Calm(Apply(w, Sweep(k)), more) && !Guarantee(Run(Apply(w, Sweep(k)), more))
  {
    hide Run;
    hide Calm;
    hide Guarantee;
    var w0 := Apply(w, Sweep(k));
    var q, _ := Newcomers(w0);
    var x := w0;
    Start(w0);
    more := [];
    more, x := Take(w0, more, x, q, k, []);
    more := BothBook(w0, more, x, o, q);
  }

  // Swept before it answers: its success belongs to a key that starts afresh.
  lemma {:induction false} SweptCommittedBreaks(w: World, k: Key, o: RequestId) returns (more: seq<Step>)
    requires CalmInv(w) && Expired(w, k) && o in w.requests && w.requests[o].phase.Committed?
    requires w.requests[o].key == Some(k)
    ensures Calm(Apply(w, Sweep(k)), more) && !Guarantee(Run(Apply(w, Sweep(k)), more))
  {
    hide Run;
    hide Calm;
    hide Guarantee;
    assert RequestAt(w, o);
    var w0 := Apply(w, Sweep(k));
    var x := w0;
    Start(w0);
    more := [];
    more, x := Extend(w0, more, x, Respond(o));
    Wrong(x, |w.answers|);
  }

  // Swept before its response is stored: it completes a newcomer's row, whose retry is then given
  // somebody else's booking.
  lemma {:induction false} SweptCompletingBreaks(w: World, k: Key, o: RequestId) returns (more: seq<Step>)
    requires CalmInv(w) && Expired(w, k) && o in w.requests && w.requests[o].phase.Completing?
    requires w.requests[o].key == Some(k)
    ensures Calm(Apply(w, Sweep(k)), more) && !Guarantee(Run(Apply(w, Sweep(k)), more))
  {
    hide Run;
    hide Calm;
    hide Guarantee;
    assert RequestAt(w, o);
    var line := w.requests[o].line + [SPACE];
    var w0 := Apply(w, Sweep(k));
    var q, p := Newcomers(w0);
    var x := w0;
    Start(w0);
    more := [];
    more, x := Take(w0, more, x, q, k, line);
    more := CompletedByAnother(w0, more, x, o, p, k);
  }

  lemma CompletedByAnother(w0: World, more: seq<Step>, w: World, o: RequestId, p: RequestId, k: Key)
    returns (longer: seq<Step>)
    requires w == Run(w0, more) && Calm(w0, more) && p !in w.requests
    requires o in w.requests && w.requests[o].phase.Completing? && w.requests[o].key == Some(k)
    requires k in w.rows && w.rows[k].hash != w.requests[o].line
    requires w.requests[o].phase.booking < |w.bookings| && w.bookings[w.requests[o].phase.booking].request == o
    ensures Calm(w0, longer) && !Guarantee(Run(w0, longer))
  {
    hide Run;
    hide Calm;
    hide Guarantee;
    var x;
    longer, x := Extend(w0, more, w, Complete(o, true));
    longer, x := Collide(w0, longer, x, p, k, w.rows[k].hash);
    longer, x := Extend(w0, longer, x, Lookup(p));
    Wrong(x, |w.answers|);
  }

  // Swept before its release: it releases a newcomer's key, and the next newcomer books as well.
  lemma {:induction false} SweptReleasingBreaks(w: World, k: Key, o: RequestId) returns (more: seq<Step>)
    requires Expired(w, k) && In(w, o, Releasing) && w.requests[o].key == Some(k)
    ensures Calm(Apply(w, Sweep(k)), more) && !Guarantee(Run(Apply(w, Sweep(k)), more))
  {
    hide Run;
    hide Calm;
    hide Guarantee;
    var w0 := Apply(w, Sweep(k));
    var q, p := Newcomers(w0);
    var x := w0;
    Start(w0);
    more := [];
    more, x := Take(w0, more, x, q, k, []);
    more, x := Extend(w0, more, x, Release(o, true));
    more, x := Take(w0, more, x, p, k, []);
    more := BothBook(w0, more, x, q, p);
  }

  lemma {:induction false} HazardBreaks(w: World, st: Step) returns (more: seq<Step>)
    requires CalmInv(w) && Hazard(w, st)
    ensures Calm(Apply(w, st), more) && !Guarantee(Run(Apply(w, st), more))
  {
    match st
    case Lookup(r) => more := MissingRowBreaks(w, r);
    case ThrowLate(r, code) => more := LateThrowBreaks(w, r, code);
    case Sweep(k) =>
      var o := w.rows[k].owner;
      assert KeyAt(w, k);
      match w.requests[o].phase {
        case Working => more := SweptWorkingBreaks(w, k, o);
        case Committed(_) => more := SweptCommittedBreaks(w, k, o);
        case Completing(_) => more := SweptCompletingBreaks(w, k, o);
        case Releasing => more := SweptReleasingBreaks(w, k, o);
      }
  }

  // The condition is exact. After any run without a hazard, a step keeps the guarantee safe (over
  // every hazard-free continuation) if and only if it is not a hazard itself.
  lemma SafeIffNoHazard(steps: seq<Step>, st: Step)
    requires Calm(Init(), steps)
    ensures var w := Run(Init(), steps);
      !Hazard(w, st) <==> forall more :: Calm(Apply(w, st), more) ==> Guarantee(Run(Apply(w, st), more))
  {
    CalmRun(Init(), steps);
    var w := Run(Init(), steps);
    if Hazard(w, st) {
      var more := HazardBreaks(w, st);
    } else {
      CalmStep(w, st);
      GuaranteeStep(w, st);
      forall more | Calm(Apply(w, st), more) ensures Guarantee(Run(Apply(w, st), more)) {
        CalmRun(Apply(w, st), more);
      }
    }
  }

  // Whoever is about to read a key's row when its owner's release deletes it, runs into the hazard.
  lemma ReleaseExposesReader(w: World, o: RequestId, r: RequestId)
    requires In(w, o, Releasing) && In(w, r, Reading)
    requires w.requests[o].key.Some? && w.requests[r].key == w.requests[o].key
    ensures Hazard(Apply(w, Release(o, true)), Lookup(r))
  {
  }

  // So the missing row needs no day-old request: a first request that fails and releases its key
  // between a second one's insert and read is enough, at once.
  lemma {:induction false} ReleaseInTheGapIsAHazard(k: Key, line: Text) returns (steps: seq<Step>, r: RequestId)
    ensures Calm(Init(), steps) && Run(Init(), steps).now == 0 && Hazard(Run(Init(), steps), Lookup(r))
  {
    var w;
    steps, r, w := FailedAndColliding(k, line);
    ReleaseExposesReader(w, 0, r);
    steps, w := Extend(Init(), steps, w, Release(0, true));
  }

  lemma FailedAndColliding(k: Key, line: Text) returns (steps: seq<Step>, r: RequestId, w: World)
    ensures Calm(Init(), steps) && w == Run(Init(), steps) && w.now == 0 && r != 0
    ensures In(w, 0, Releasing) && In(w, r, Reading) && w.requests[0].key == w.requests[r].key == Some(k)
  {
    Start(Init());
    hide Run;
    hide Calm;
    w, steps, r := Init(), [], 1;
    steps, w := Take(Init(), steps, w, 0, k, line);
    steps, w := Collide(Init(), steps, w, 1, k, line);
    steps, w := Extend(Init(), steps, w, Fail(0, CONFLICT));
  }
}
