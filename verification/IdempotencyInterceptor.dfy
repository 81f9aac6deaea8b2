/**
 The interceptor's own control flow around one request, over the key table. At every await the next
 burst of the schedule (other requests, the sweeper, time) runs; what a method does itself is proved
 to be one request's steps of module Idempotency.
 */
module IdempotencyInterceptors {
  import opened Fingerprint
  import opened Idempotency
  import opened Wrappers

  datatype Claim = Proceed | Replay(code: int, booking: BookingId) | Rejected(code: int)

  // What the handler behind the interceptor does.
  datatype Handling = Books | Throws(code: int) | BooksThenThrows(code: int)

  // String.prototype.trim
  predicate IsBlank(c: char) {
    var u := c as int;
    9 <= u <= 13 || u == 32 || u == 0xA0 || u == 0x1680 || 0x2000 <= u <= 0x200A || u == 0x2028 || u == 0x2029
    || u == 0x202F || u == 0x205F || u == 0x3000 || u == 0xFEFF
  }

  predicate Blanks(s: string, i: nat, j: nat)
    requires j <= |s|
  {
    forall k :: i <= k < j ==> IsBlank(s[k])
  }

  // s[i..j] is s without the blanks around it.
  ghost predicate Core(s: string, i: nat, j: nat) {
    && i <= j <= |s| && Blanks(s, 0, i) && Blanks(s, j, |s|)
    && (i < j ==> !IsBlank(s[i]) && !IsBlank(s[j - 1]))
  }

  function TrimStart(s: string): (t: string)
    ensures |t| <= |s| && t == s[|s| - |t|..] && Blanks(s, 0, |s| - |t|)
    ensures t != [] ==> !IsBlank(t[0])
  {
    if s != [] && IsBlank(s[0]) then
      var t := TrimStart(s[1..]);
      assert forall k :: 1 <= k < |s| - |t| ==> s[k] == s[1..][k - 1];
      t
    else s
  }

  function TrimEnd(s: string): (t: string)
    ensures |t| <= |s| && t == s[..|t|] && Blanks(s, |t|, |s|)
    ensures t != [] ==> !IsBlank(t[|t| - 1])
  {
    if s != [] && IsBlank(s[|s| - 1]) then
      var t := TrimEnd(s[..|s| - 1]);
      assert forall k :: |t| <= k < |s| - 1 ==> s[k] == s[..|s| - 1][k];
      t
    else s
  }

  function Trim(s: string): string {
    TrimEnd(TrimStart(s))
  }

  // Trimming takes the blanks at both ends, and nothing else.
  lemma TrimIsCore(s: string) returns (i: nat, j: nat)
    ensures Core(s, i, j) && Trim(s) == s[i..j]
  {
    hide TrimStart;
    hide TrimEnd;
    var t := TrimStart(s);
    i := |s| - |t|;
    j := i + |Trim(s)|;
    assert forall k :: 0 <= k < |t| ==> t[k] == s[i + k];
    assert forall k :: j <= k < |s| ==> s[k] == t[k - i];
  }

  // And there is only one way to do that.
  lemma OneCore(s: string, i: nat, j: nat, k: nat, l: nat)
    requires Core(s, i, j) && Core(s, k, l)
    ensures s[i..j] == s[k..l]
  {
  }

  // A missing or blank header is no key.
  function KeyOf(header: Option<string>): Option<Key> {
    if header.None? || Trim(header.value) == [] then None else Some(Trim(header.value))
  }

  // The key is what stands between the blanks around the header.
  lemma KeyIsTheHeadersCore(header: Option<string>, i: nat, j: nat)
    requires header.Some? ==> Core(header.value, i, j)
    ensures KeyOf(header) == if header.None? || i == j then None else Some(header.value[i..j])
  {
    if header.Some? {
      var k, l := TrimIsCore(header.value);
      OneCore(header.value, i, j, k, l);
    }
  }

  // So two headers name one key if and only if they differ in outer blanks alone.
  lemma SameKeyIffSameCore(a: string, i: nat, j: nat, b: string, k: nat, l: nat)
    requires Core(a, i, j) && Core(b, k, l)
    ensures KeyOf(Some(a)) == KeyOf(Some(b)) <==> a[i..j] == b[k..l]
  {
    KeyIsTheHeadersCore(Some(a), i, j);
    KeyIsTheHeadersCore(Some(b), k, l);
  }

  // Not a step of request r, nor of any other request of key k, nor a sweep of k.
  predicate Elsewhere(requests: map<RequestId, Request>, st: Step, r: RequestId, k: Key) {
    match st
    case Call(q, key, _) => q != r && key != Some(k)
    case Sweep(swept) => swept != k
    case Tick(_) => true
    case _ => st.r != r && (st.r in requests ==> requests[st.r].key != Some(k))
  }

  // What the key's row, if there is one, says to a request with this line.
  function Verdict(row: Option<KeyRow>, line: Text): Claim {
    match row
    case None => Proceed
    case Some(r) =>
      if r.hash != line then Rejected(UNPROCESSABLE)
      else if r.status.Completed? then Replay(r.status.code, r.status.booking)
      else Rejected(CONFLICT)
  }

  // The answer that follows from a claim: a replay, a refusal, or what the handler did.
  predicate Follows(claim: Claim, handling: Handling, code: int, booking: Option<BookingId>, replay: bool) {
    match claim
    case Replay(c, b) => code == c && booking == Some(b) && replay
    case Rejected(c) => code == c && booking.None? && !replay
    case Proceed =>
      !replay && (booking.Some? <==> handling.Books?) && code == if handling.Books? then CREATED else handling.code
  }

  class IdempotencyInterceptor {
    // localeCompare
    const leq: Order
    var now: int
    var rows: map<Key, KeyRow>
    var requests: map<RequestId, Request>
    var bookings: seq<Booking>
    var answers: seq<Answer>
    var sweeps: map<Key, nat>
    var schedule: seq<seq<Step>>
    ghost var trace: seq<Step>

    constructor (leq: Order, schedule: seq<seq<Step>>)
      ensures Valid() && trace == [] && this.leq == leq && this.schedule == schedule
    {
      this.leq, this.schedule := leq, schedule;
      now, rows, requests, bookings, answers, sweeps, trace := 0, map[], map[], [], [], map[], [];
    }

    function World(): World
      reads this
    {
      Idempotency.World(now, rows, requests, bookings, answers, sweeps)
    }

    ghost predicate Valid()
      reads this
    {
      World() == Run(Init(), trace)
    }

    ghost predicate NotMine(r: RequestId)
      reads this
    {
      forall env, st :: env in schedule && st in env ==> Mover(st) != Some(r)
    }

    // Request r is where its caller believes it is.
    ghost predicate At(r: RequestId, q: Request)
      reads this
    {
      Valid() && NotMine(r) && r in requests && requests[r] == q
    }

    function Row(k: Key): Option<KeyRow>
      reads this
    {
      if k in rows then Some(rows[k]) else None
    }

    // Nobody but request r is going to touch key k.
    ghost predicate Alone(r: RequestId, k: Key)
      reads this
    {
      forall env, st :: env in schedule && st in env ==> Elsewhere(requests, st, r, k)
    }

    // Of the bookings from number n on, one is request r's.
    ghost predicate BookedSince(r: RequestId, n: nat)
      reads this
    {
      exists i :: n <= i < |bookings| && bookings[i].request == r
    }

    ghost method Record(st: Step)
      requires World() == Apply(Run(Init(), trace), st)
      modifies this`trace
      ensures Valid() && trace == old(trace) + [st]
    {
      RunSnoc(Init(), trace, st);
      trace := trace + [st];
    }

    method Interleave(st: Step)
      requires Valid()
      modifies this`now, this`rows, this`requests, this`bookings, this`answers, this`sweeps, this`trace
      ensures Valid() && trace == old(trace) + [st] && World() == Apply(old(World()), st)
    {
      hide Run;
      hide Apply;
      var w := Apply(World(), st);
      now, rows, requests, bookings, answers, sweeps := w.now, w.rows, w.requests, w.bookings, w.answers, w.sweeps;
      Record(st);
    }

    // An await.
    method Yield(r: RequestId, ghost q: Request)
      requires At(r, q)
      modifies this
      ensures At(r, q) && old(trace) <= trace
      ensures old(bookings) <= bookings && !BookedSince(r, |old(bookings)|)
      ensures q.key.Some? && old(Alone(r, q.key.value)) ==>
        Alone(r, q.key.value) && Row(q.key.value) == old(Row(q.key.value))
    {
      hide Run;
      hide Apply;
      if schedule == [] { return; }
      var env := schedule[0];
      var i := 0;
      while i < |env|
        invariant 0 <= i <= |env| && schedule == old(schedule)
        invariant At(r, q) && old(trace) <= trace
        invariant old(bookings) <= bookings && !BookedSince(r, |old(bookings)|)
        invariant q.key.Some? && old(Alone(r, q.key.value)) ==>
          Alone(r, q.key.value) && Row(q.key.value) == old(Row(q.key.value))
      {
        assert env in schedule && env[i] in env;
        OthersStand(World(), env[i], r);
        OthersBook(World(), env[i], r);
        if q.key.Some? && old(Alone(r, q.key.value)) { ElsewhereLeavesRow(World(), env[i], r, q.key.value); }
        Interleave(env[i]);
        i := i + 1;
      }
      schedule := schedule[1..];
    }

    method Answer(r: RequestId, code: int, booking: Option<BookingId>, replay: bool, next: Phase, ghost st: Step)
      requires Valid() && NotMine(r) && r in requests
      requires Apply(World(), st) == Say(World(), r, code, booking, replay, next)
      modifies this`requests, this`answers, this`trace
      ensures At(r, old(requests)[r].(phase := next)) && trace == old(trace) + [st]
      ensures World() == Say(old(World()), r, code, booking, replay, next)
    {
      hide Run;
      answers := answers + [Reply(World(), r, code, booking, replay)];
      requests := requests[r := requests[r].(phase := next)];
      Record(st);
    }

    // INSERT ... ON CONFLICT DO NOTHING RETURNING key
    method InsertRow(r: RequestId, key: Key, line: Text, expiresAt: int) returns (inserted: seq<Key>)
      requires r in requests && At(r, Request(Some(key), line, expiresAt - TTL_MS, Inserting))
      modifies this`rows, this`requests, this`trace
      ensures old(trace) <= trace
      ensures inserted == if key in old(rows) then [] else [key]
      ensures rows == if key in old(rows) then old(rows) else old(rows)[key := KeyRow(line, InProgress, expiresAt, r)]
      ensures At(r, Request(Some(key), line, expiresAt - TTL_MS, if key in old(rows) then Reading else Working))
      ensures old(Alone(r, key)) ==> Alone(r, key)
    {
      hide Run;
      inserted := [];
      if key !in rows {
        rows := rows[key := KeyRow(line, InProgress, expiresAt, r)];
        inserted := [key];
      }
      requests := requests[r := requests[r].(phase := if |inserted| > 0 then Working else Reading)];
      Record(Insert(r));
    }

    // Insert the row and go ahead, or look at the row that is there.
    method ClaimKey(r: RequestId, key: Key, line: Text, at: int) returns (claim: Claim)
      requires At(r, Request(Some(key), line, at, Inserting))
      modifies this
      ensures old(trace) <= trace
      ensures At(r, Request(Some(key), line, at, if claim.Proceed? then Working else Closed))
      ensures claim.Replay? ==> Answered(r, claim.code, Some(claim.booking), true)
      ensures claim.Rejected? ==>
        Answered(r, claim.code, None, false) && (claim.code == CONFLICT || claim.code == UNPROCESSABLE)
      ensures old(bookings) <= bookings && !BookedSince(r, |old(bookings)|)
      ensures old(Alone(r, key)) ==> claim == Verdict(old(Row(key)), line)
    {
      hide Run;
      hide Apply;
      Yield(r, requests[r]);
      var expiresAt := at + TTL_MS;
      var inserted := InsertRow(r, key, line, expiresAt);
      if |inserted| > 0 { return Proceed; }
      Yield(r, requests[r]);
      claim := ReadRow(r, key, line, at);
    }

    method ReadRow(r: RequestId, key: Key, line: Text, at: int) returns (claim: Claim)
      requires At(r, Request(Some(key), line, at, Reading))
      modifies this`requests, this`answers, this`trace
      ensures old(trace) <= trace
      ensures At(r, Request(Some(key), line, at, if claim.Proceed? then Working else Closed))
      ensures claim == Verdict(Row(key), line)
      ensures claim.Replay? ==> Answered(r, claim.code, Some(claim.booking), true)
      ensures claim.Rejected? ==> Answered(r, claim.code, None, false)
    {
      hide Run;
      if key !in rows {
        requests := requests[r := requests[r].(phase := Working)];
        Record(Lookup(r));
        return Proceed;
      }
      var existing := rows[key];
      if existing.hash != line {
        Answer(r, UNPROCESSABLE, None, false, Closed, Lookup(r));
        return Rejected(UNPROCESSABLE);
      }
      if existing.status.Completed? {
        Answer(r, existing.status.code, Some(existing.status.booking), true, Closed, Lookup(r));
        return Replay(existing.status.code, existing.status.booking);
      }
      Answer(r, CONFLICT, None, false, Closed, Lookup(r));
      claim := Rejected(CONFLICT);
    }

    // The last answer given is r's.
    ghost predicate Answered(r: RequestId, code: int, booking: Option<BookingId>, replay: bool)
      reads this
    {
      && answers != []
      && var a := answers[|answers| - 1];
      && a.request == r && a.code == code && a.booking == booking && a.replay == replay
    }

    // The handler: it books and answers, throws before it books, or throws although it has booked.
    method Handle(r: RequestId, key: Option<Key>, line: Text, at: int, handling: Handling)
      returns (booking: Option<BookingId>)
      requires At(r, Request(key, line, at, Working))
      modifies this
      ensures old(trace) <= trace && (booking.Some? <==> handling.Books?)
      ensures old(bookings) <= bookings && (BookedSince(r, |old(bookings)|) <==> !handling.Throws?)
      ensures booking.Some? ==>
        && At(r, Request(key, line, at, if key.Some? then Completing(booking.value) else Closed))
        && Answered(r, CREATED, booking, false)
        && |old(bookings)| <= booking.value < |bookings| && bookings[booking.value].request == r
      ensures booking.None? ==>
        At(r, Request(key, line, at, if key.Some? then Releasing else Closed))
        && Answered(r, handling.code, None, false)
    {
      hide Run;
      Yield(r, requests[r]);
      if handling.Throws? {
        Answer(r, handling.code, None, false, AfterThrow(requests[r]), Fail(r, handling.code));
        return None;
      }
      hide Apply;
      var b := CommitBooking(r);
      booking := AfterCommit(r, key, line, at, b, handling);
      assert bookings[b].request == r;
    }

    // The handler's end, its booking committed.
    method AfterCommit(r: RequestId, key: Option<Key>, line: Text, at: int, b: BookingId, handling: Handling)
      returns (booking: Option<BookingId>)
      requires At(r, Request(key, line, at, Committed(b))) && !handling.Throws?
      modifies this
      ensures old(trace) <= trace && booking == if handling.Books? then Some(b) else None
      ensures old(bookings) <= bookings
      ensures booking.Some? ==>
        At(r, Request(key, line, at, if key.Some? then Completing(b) else Closed))
        && Answered(r, CREATED, Some(b), false)
      ensures booking.None? ==>
        At(r, Request(key, line, at, if key.Some? then Releasing else Closed))
        && Answered(r, handling.code, None, false)
    {
      hide Run;
      Yield(r, requests[r]);
      if handling.BooksThenThrows? {
        Answer(r, handling.code, None, false, AfterThrow(requests[r]), ThrowLate(r, handling.code));
        return None;
      }
      Answer(r, CREATED, Some(b), false, if key.Some? then Completing(b) else Closed, Respond(r));
      booking := Some(b);
    }

    method CommitBooking(r: RequestId) returns (b: BookingId)
      requires r in requests && requests[r].phase.Working? && At(r, requests[r])
      modifies this`requests, this`bookings, this`trace
      ensures At(r, old(requests)[r].(phase := Committed(b))) && old(trace) <= trace
      ensures b == |old(bookings)|
      ensures bookings == old(bookings) + [Booking(requests[r].key, r, Epoch(World(), requests[r].key))]
    {
      hide Run;
      b := |bookings|;
      bookings := bookings + [Booking(requests[r].key, r, Epoch(World(), requests[r].key))];
      requests := requests[r := requests[r].(phase := Committed(b))];
      Record(Commit(r));
    }

    method Arrive(r: RequestId, key: Option<Key>, line: Text)
      requires Valid() && NotMine(r) && r !in requests
      modifies this`requests, this`trace
      ensures At(r, Request(key, line, now, if key.Some? then Inserting else Working)) && old(trace) <= trace
      ensures forall k {:trigger Alone(r, k)} :: old(Alone(r, k)) ==> Alone(r, k)
    {
      hide Run;
      requests := requests[r := Request(key, line, now, if key.Some? then Inserting else Working)];
      Record(Call(r, key, line));
    }

    // Answers the request: `claim` is what it found its key to be, and the answer follows from that. What
    // it still owes its key is left to Complete or Release. With nobody else about on the key, the claim
    // is what the key's row says.
    method Intercept(r: RequestId, header: Option<string>, httpMethod: Text, url: Text, body: Value, handling: Handling)
      returns (code: int, booking: Option<BookingId>, replay: bool, ghost claim: Claim)
      requires Valid() && NotMine(r) && r !in requests
      modifies this
      ensures Valid() && NotMine(r) && old(trace) <= trace && Answered(r, code, booking, replay)
      ensures r in requests && requests[r].key == KeyOf(header)
      ensures requests[r].line == RequestLine(httpMethod, url, body, leq)
      ensures Follows(claim, handling, code, booking, replay)
      ensures claim.Rejected? ==> claim.code == CONFLICT || claim.code == UNPROCESSABLE
      ensures KeyOf(header).None? ==> claim.Proceed?
      ensures KeyOf(header).Some? && old(Alone(r, KeyOf(header).value)) ==>
        claim == Verdict(old(Row(KeyOf(header).value)), requests[r].line)
      ensures old(bookings) <= bookings
      ensures BookedSince(r, |old(bookings)|) <==> claim.Proceed? && !handling.Throws?
      ensures claim.Proceed? && handling.Books? ==> booking.value < |bookings| && bookings[booking.value].request == r
      ensures requests[r].phase == if !claim.Proceed? || KeyOf(header).None? then Closed
                                   else if handling.Books? then Completing(booking.value) else Releasing
    {
      hide Run;
      hide Apply;
      hide KeyOf;
      hide RequestLine;
      hide Verdict;
      var key := KeyOf(header);
      var line := RequestLine(httpMethod, url, body, leq);
      var at := now;
      Arrive(r, key, line);
      claim := Proceed;
      if key.Some? {
        var found := ClaimKey(r, key.value, line, at);
        claim := found;
        if found.Replay? { return found.code, Some(found.booking), true, claim; }
        if found.Rejected? { return found.code, None, false, claim; }
      }
      booking := Handle(r, key, line, at, handling);
      code, replay := if booking.Some? then CREATED else handling.code, false;
    }

    // Stores the response; a failed update is logged.
    method Complete(r: RequestId, ok: bool)
      requires r in requests && requests[r].phase.Completing? && requests[r].key.Some? && At(r, requests[r])
      modifies this
      ensures At(r, old(requests)[r].(phase := Closed)) && old(trace) <= trace
      ensures trace != [] && trace[|trace| - 1] == Step.Complete(r, ok)
      ensures ok && requests[r].key.value in rows ==>
        rows[requests[r].key.value].status == Completed(CREATED, old(requests)[r].phase.booking)
    {
      hide Run;
      var q := requests[r];
      Yield(r, q);
      var k := q.key.value;
      if ok && k in rows { rows := rows[k := rows[k].(status := Completed(CREATED, q.phase.booking))]; }
      requests := requests[r := requests[r].(phase := Closed)];
      Record(Step.Complete(r, ok));
    }

    // Failures are not cached: the row goes. A failed delete is swallowed.
    method Release(r: RequestId, ok: bool)
      requires r in requests && requests[r].phase.Releasing? && requests[r].key.Some? && At(r, requests[r])
      modifies this
      ensures At(r, old(requests)[r].(phase := Closed)) && old(trace) <= trace
      ensures trace != [] && trace[|trace| - 1] == Step.Release(r, ok)
      ensures ok ==> requests[r].key.value !in rows
    {
      hide Run;
      var q := requests[r];
      Yield(r, q);
      if ok { rows := rows - {q.key.value}; }
      requests := requests[r := requests[r].(phase := Closed)];
      Record(Step.Release(r, ok));
    }

    // The sweeper's DELETE for one expired key.
    method Sweep(k: Key) returns (swept: bool)
      requires Valid()
      modifies this`rows, this`sweeps, this`trace
      ensures Valid() && trace == old(trace) + [Step.Sweep(k)]
      ensures swept <==> Expired(old(World()), k)
      ensures rows == if swept then old(rows) - {k} else old(rows)
    {
      hide Run;
      swept := k in rows && rows[k].expiresAt < now;
      if swept {
        sweeps := sweeps[k := (if k in sweeps then sweeps[k] else 0) + 1];
        rows := rows - {k};
      }
      Record(Step.Sweep(k));
    }
  }

  lemma OthersBook(w: World, st: Step, r: RequestId)
    requires Mover(st) != Some(r)
    ensures w.bookings <= Apply(w, st).bookings
    ensures forall i :: |w.bookings| <= i < |Apply(w, st).bookings| ==> Apply(w, st).bookings[i].request != r
  {
  }

  lemma ElsewhereLeavesRow(w: World, st: Step, r: RequestId, k: Key)
    requires Elsewhere(w.requests, st, r, k)
    ensures k in Apply(w, st).rows <==> k in w.rows
    ensures k in w.rows ==> Apply(w, st).rows[k] == w.rows[k]
    ensures forall other :: Elsewhere(w.requests, other, r, k) ==> Elsewhere(Apply(w, st).requests, other, r, k)
  {
    forall other | Elsewhere(w.requests, other, r, k) ensures Elsewhere(Apply(w, st).requests, other, r, k) {
      if !other.Call? && Mover(other).Some? { KeysStay(w, st, Mover(other).value, k); }
    }
  }

  // A step elsewhere makes no request one of key k.
  lemma KeysStay(w: World, st: Step, q: RequestId, k: Key)
    requires st.Call? ==> st.key != Some(k)
    requires q in w.requests ==> w.requests[q].key != Some(k)
    ensures q in Apply(w, st).requests ==> Apply(w, st).requests[q].key != Some(k)
  {
  }

  lemma OthersStand(w: World, st: Step, r: RequestId)
    requires r in w.requests && Mover(st) != Some(r)
    ensures r in Apply(w, st).requests && Apply(w, st).requests[r] == w.requests[r]
  {
  }
}
