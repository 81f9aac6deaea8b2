/**
 The consumer's and the notification service's own control flow for one message, over the shared
 topics and tables. At every await the next burst of the schedule (other handlers, redelivery,
 time) runs; everything done here is proved to be one handler's steps of module Notifications.
 */
module NotificationsConsumers {
  import opened Arithmetic
  import opened Wrappers
  import opened RetryPolicy
  import opened Notifications

  const HEARTBEAT_INTERVAL_MS := 3000

  datatype Result = Sent | Duplicate | Threw

  // What has become of a copy that was consumed, or not (Thrown).
  datatype Handling = Dropped | Delivered | Skipped | DeadLettered | Retried | Thrown

  // How the outside world answers one handling of a message.
  datatype Weather = Weather(insert: Fate, delivered: bool, deleted: bool, publish: Fate, random: real,
                             error: string)

  class NotificationsConsumer<P> {
    const cfg: Config
    // Shutdown is requested at this instant, if ever.
    const stopAt: Option<int>
    var now: int
    var copies: seq<Copy<P>>
    var handlers: map<HandlerId, Handler>
    var claims: set<MessageId>
    var sent: seq<MessageId>
    var dlq: seq<DeadLetter<P>>
    var schedule: seq<seq<Step<P>>>
    ghost var trace: seq<Step<P>>

    constructor (cfg: Config, stopAt: Option<int>, schedule: seq<seq<Step<P>>>)
      ensures Valid() && trace == [] && World() == Init(cfg)
      ensures this.cfg == cfg && this.stopAt == stopAt && this.schedule == schedule
    {
      this.cfg, this.stopAt, this.schedule := cfg, stopAt, schedule;
      now, copies, handlers, claims, sent, dlq, trace := 0, [], map[], {}, [], [], [];
    }

    function World(): World<P>
      reads this
    {
      Notifications.World(cfg, now, copies, handlers, claims, sent, dlq)
    }

    predicate Stopping()
      reads this
    {
      stopAt.Some? && now >= stopAt.value
    }

    ghost predicate Valid()
      reads this
    {
      World() == Run(Init(cfg), trace)
    }

    ghost predicate NotMine(h: HandlerId)
      reads this
    {
      forall env, st :: env in schedule && st in env ==> Actor(st) != Some(h)
    }

    // Handler h is on copy c, in the phase its caller believes.
    ghost predicate At(h: HandlerId, c: CopyId, phase: Phase)
      reads this
    {
      Valid() && NotMine(h) && Works(World(), h, phase) && handlers[h].copy == c
    }

    // What has become of the world since the start of a method, as a handler on copy c sees it.
    twostate predicate Awaited(c: CopyId)
      reads this
    {
      && old(trace) <= trace && now >= old(now) && |old(dlq)| <= |dlq|
      && c < old(|copies|) <= |copies| && SameCopy(copies[c], old(copies)[c])
      && (old(schedule) == [] ==> schedule == [] && claims == old(claims))
    }

    ghost function Here(): Marks
      reads this
    {
      Marks(|trace|, |copies|, |dlq|)
    }

    ghost method Record(st: Step<P>)
      requires World() == Apply(Run(Init(cfg), trace), st)
      modifies this`trace
      ensures Valid() && trace == old(trace) + [st]
    {
      RunSnoc(Init(cfg), trace, st);
      trace := trace + [st];
    }

    method Interleave(st: Step<P>)
      requires Valid()
      modifies this`now, this`copies, this`handlers, this`claims, this`sent, this`dlq, this`trace
      ensures Valid() && trace == old(trace) + [st] && World() == Apply(old(World()), st)
    {
      hide Run;
      var w := Apply(World(), st);
      CfgStays(World(), st);
      now, copies, handlers, claims, sent, dlq := w.now, w.copies, w.handlers, w.claims, w.sent, w.dlq;
      Record(st);
    }

    // An await.
    method Yield(h: HandlerId, ghost c: CopyId, ghost phase: Phase)
      requires At(h, c, phase)
      modifies this
      ensures At(h, c, phase) && Awaited(c)
      ensures old(schedule) == [] ==> now == old(now)
    {
      hide Run;
      hide Apply;
      if schedule == [] { return; }
      var env := schedule[0];
      var i := 0;
      while i < |env|
        invariant 0 <= i <= |env| && schedule == old(schedule)
        invariant At(h, c, phase) && old(trace) <= trace && now >= old(now) && |old(dlq)| <= |dlq|
        invariant c < old(|copies|) <= |copies| && SameCopy(copies[c], old(copies)[c])
      {
        assert env in schedule && env[i] in env;
        OthersStay(World(), env[i], h);
        CopiesStay(World(), env[i], c);
        TimePasses(World(), env[i]);
        OnlyMore(World(), env[i]);
        Interleave(env[i]);
        i := i + 1;
      }
      schedule := schedule[1..];
    }

    // setTimeout: at least `ms` later.
    method Sleep(h: HandlerId, ghost c: CopyId, ghost phase: Phase, ms: nat)
      requires At(h, c, phase)
      modifies this
      ensures At(h, c, phase) && Awaited(c) && now >= old(now) + ms
      ensures old(schedule) == [] ==> now == old(now) + ms
    {
      hide Run;
      var wake := now + ms;
      Yield(h, c, phase);
      if now < wake {
        CopiesStay(World(), Step<P>.Tick(wake - now), c);
        Interleave(Tick(wake - now));
      }
    }

    // Sleeps in heartbeat-sized pieces until the retry is due or the consumer is stopping; left alone, no
    // longer than that.
    method WaitUntilDue(h: HandlerId, ghost c: CopyId, retryAt: int)
      requires At(h, c, Received)
      modifies this
      ensures At(h, c, Received) && Awaited(c)
      ensures now >= retryAt || Stopping()
      ensures old(schedule) == [] ==> now <= Max(old(now), retryAt)
    {
      while !Stopping()
        invariant At(h, c, Received) && Awaited(c)
        invariant old(schedule) == [] ==> now <= Max(old(now), retryAt)
        decreases retryAt - now
      {
        var remaining := retryAt - now;
        if remaining <= 0 { return; }
        Sleep(h, c, Received, Min(remaining, HEARTBEAT_INTERVAL_MS));
      }
    }

    // ---------- NotificationsService.handle ----------

    // INSERT ... ON CONFLICT DO NOTHING RETURNING message_id
    method InsertClaim(h: HandlerId, ghost c: CopyId, fate: Fate) returns (rows: nat)
      requires At(h, c, Ready) && copies[c].body.Json?
      modifies this`claims, this`handlers, this`trace
      ensures At(h, c, if fate != Fine then Failing else if rows == 0 then Acking else Claimed)
      ensures fate == Fine ==> (rows == 0 <==> copies[c].messageId in old(claims))
      ensures old(trace) <= trace
    {
      hide Run;
      var m := copies[handlers[h].copy].messageId;
      rows := if fate == Fine && m !in claims then 1 else 0;
      if fate != Refused { claims := claims + {m}; }
      var phase := if fate != Fine then Failing else if rows == 0 then Acking else Claimed;
      handlers := handlers[h := handlers[h].(phase := phase)];
      assert World() == Apply(old(World()), Insert(h, fate));
      Record(Insert(h, fate));
    }

    method SendEmail(h: HandlerId, ghost c: CopyId, delivered: bool)
      requires At(h, c, Claimed)
      modifies this`sent, this`handlers, this`trace
      ensures At(h, c, if delivered then Acking else Undelivered) && old(trace) <= trace
      ensures sent == if delivered then old(sent) + [copies[c].messageId] else old(sent)
    {
      hide Run;
      if delivered { sent := sent + [copies[handlers[h].copy].messageId]; }
      handlers := handlers[h := handlers[h].(phase := if delivered then Acking else Undelivered)];
      Record(Deliver(h, delivered));
    }

    // Release the claim: the work did not happen.
    method DeleteClaim(h: HandlerId, ghost c: CopyId, deleted: bool)
      requires At(h, c, Undelivered)
      modifies this`claims, this`handlers, this`trace
      ensures At(h, c, Failing) && old(trace) <= trace
      ensures claims == if deleted then old(claims) - {copies[c].messageId} else old(claims)
    {
      hide Run;
      if deleted { claims := claims - {copies[handlers[h].copy].messageId}; }
      handlers := handlers[h := handlers[h].(phase := Failing)];
      Record(Unclaim(h, deleted));
    }

    // A copy that loses the insert is a duplicate; a failed delivery takes its claim back before
    // it throws.
    method Handle(h: HandlerId, ghost c: CopyId, weather: Weather) returns (r: Result)
      requires At(h, c, Ready) && copies[c].body.Json?
      modifies this
      ensures At(h, c, if r.Threw? then Failing else Acking)
      ensures old(trace) <= trace && |old(dlq)| <= |dlq| && |old(copies)| <= |copies| && now >= old(now)
      ensures SameCopy(copies[c], old(copies)[c])
      ensures r.Sent? ==> sent != [] && sent[|sent| - 1] == copies[c].messageId && weather.delivered
      ensures r.Duplicate? ==> ClaimedSince(cfg, trace, |old(trace)|, copies[c].messageId)
      ensures r.Threw? <==> weather.insert != Fine || (!r.Duplicate? && !weather.delivered)
      ensures r.Threw? && weather.insert == Fine && weather.deleted ==> copies[c].messageId !in claims
      ensures old(schedule) == [] && weather.insert == Fine ==>
        (r.Duplicate? <==> copies[c].messageId in old(claims))
    {
      hide Run;
      Yield(h, c, Ready);
      label Before:
      assert trace[..|trace|] == trace;
      assert copies[c].messageId in claims ==> ClaimedAfter(cfg, trace[..|trace|], copies[c].messageId);
      var rows := InsertClaim(h, c, weather.insert);
      if weather.insert != Fine { return Threw; }
      if rows == 0 {
        assert trace[..old@Before(|trace|)] == old@Before(trace);
        return Duplicate;
      }
      DeliverOrUnclaim(h, c, weather);
      r := if weather.delivered then Sent else Threw;
    }

    method DeliverOrUnclaim(h: HandlerId, ghost c: CopyId, weather: Weather)
      requires At(h, c, Claimed)
      modifies this
      ensures At(h, c, if weather.delivered then Acking else Failing)
      ensures old(trace) <= trace && |old(dlq)| <= |dlq| && |old(copies)| <= |copies| && now >= old(now)
      ensures SameCopy(copies[c], old(copies)[c])
      ensures weather.delivered ==> sent != [] && sent[|sent| - 1] == copies[c].messageId
      ensures !weather.delivered && weather.deleted ==> copies[c].messageId !in claims
    {
      hide Run;
      Yield(h, c, Claimed);
      SendEmail(h, c, weather.delivered);
      if weather.delivered { return; }
      Yield(h, c, Undelivered);
      DeleteClaim(h, c, weather.deleted);
    }

    // ---------- scheduleRetryOrDeadLetter ----------

    // Publishes to the retry topic with one more attempt, or to the dead-letter topic once the
    // attempts are spent. False means the publish threw and the copy is unconsumed again.
    method ScheduleRetryOrDeadLetter(h: HandlerId, c: CopyId, weather: Weather) returns (done: bool)
      requires At(h, c, Failing) && copies[c].body.Json? && 0.0 <= weather.random < 1.0
      modifies this
      ensures Valid() && NotMine(h) && old(trace) <= trace && now >= old(now)
      ensures done ==> At(h, c, Acking)
      ensures !done ==> h !in handlers && c < |copies| && !copies[c].consumed
      ensures Routed(World(), old(copies)[c], c, old(Here()), weather, done)
    {
      hide Run;
      Yield(h, c, Failing);
      var attempts := copies[c].attempts + 1;
      if ShouldDeadLetter(attempts, cfg.maxAttempts) {
        DeadLetterCopy(h, c, Failing, weather, copies[c].body, attempts, weather.error);
        assert !weather.publish.Refused? ==> dlq[|dlq| - 1].source == c;
        return true;
      }
      var backoffMs := ComputeBackoffMs(attempts, cfg.retryBaseMs, cfg.retryMaxMs, weather.random);
      done := PublishRetry(h, c, weather, attempts, backoffMs);
    }

    method PublishRetry(h: HandlerId, c: CopyId, weather: Weather, attempts: int, backoffMs: int)
      returns (done: bool)
      requires At(h, c, Failing) && copies[c].body.Json? && 0.0 <= weather.random < 1.0
      requires attempts == copies[c].attempts + 1 < cfg.maxAttempts
      requires backoffMs == ComputeBackoffMs(attempts, cfg.retryBaseMs, cfg.retryMaxMs, weather.random)
      modifies this`copies, this`handlers, this`trace
      ensures Valid() && old(trace) <= trace
      ensures done <==> weather.publish == Fine
      ensures done ==> At(h, c, Acking)
      ensures !done ==> h !in handlers && c < |copies| && !copies[c].consumed
      ensures weather.publish != Refused ==>
        |copies| == |old(copies)| + 1 && RetryOf(cfg, copies[|old(copies)|], c, old(copies)[c], weather.random)
        && copies[|old(copies)|].scheduledAt == now
    {
      hide Run;
      hide Apply;
      hide ComputeBackoffMs;
      RetryApplied(World(), h, weather.publish, weather.random, weather.error);
      var copy := copies[c];
      var again := Copy(Retry, copy.messageId, copy.eventType, copy.body, attempts, now + backoffMs, Some(c), now,
                        false);
      if weather.publish != Refused { copies := copies + [again]; }
      done := weather.publish == Fine;
      if done {
        handlers := handlers[h := handlers[h].(phase := Acking)];
      } else {
        copies := copies[c := copies[c].(consumed := false)];
        handlers := Leave(handlers, h);
      }
      Record(Route(h, weather.publish, weather.random, weather.error));
    }

    // A failed dead-letter write is logged and swallowed.
    method DeadLetterCopy(h: HandlerId, ghost c: CopyId, ghost phase: Phase, weather: Weather, raw: Body<P>,
                          attempts: int, reason: string)
      requires At(h, c, phase) && MayRoute(World(), h) && DeadLetters(World(), h)
      requires 0.0 <= weather.random < 1.0
      requires DeadLetter(raw, reason, attempts, copies[c].topic, c) == Letter(World(), h, weather.error)
      modifies this`handlers, this`dlq, this`trace
      ensures At(h, c, Acking) && old(trace) <= trace
      ensures dlq == if weather.publish.Refused? then old(dlq)
                     else old(dlq) + [DeadLetter(raw, reason, attempts, copies[c].topic, c)]
    {
      hide Run;
      if !weather.publish.Refused? {
        dlq := dlq + [DeadLetter(raw, reason, attempts, copies[handlers[h].copy].topic, handlers[h].copy)];
      }
      handlers := handlers[h := handlers[h].(phase := Acking)];
      Record(Route(h, weather.publish, weather.random, weather.error));
    }

    // ---------- onMessage ----------

    // From the parsed message on: deliver, or route the failure.
    method Process(h: HandlerId, c: CopyId, weather: Weather) returns (done: bool, ghost what: Handling)
      requires At(h, c, Ready) && 0.0 <= weather.random < 1.0
      modifies this
      ensures Valid() && NotMine(h) && old(trace) <= trace && now >= old(now)
      ensures done ==> At(h, c, Acking)
      ensures !done ==> h !in handlers && c < |copies| && !copies[c].consumed
      ensures done == !what.Thrown? && !what.Dropped?
      ensures Became(World(), trace, old(copies)[c], c, old(Here()), weather, what)
      ensures old(schedule) == [] && old(copies)[c].body.Json? && weather.insert == Fine ==>
        (what.Skipped? <==> old(copies)[c].messageId in old(claims))
    {
      hide Run;
      hide Apply;
      if copies[c].body.Malformed? {
        DeadLetterCopy(h, c, Ready, weather, copies[c].body, copies[c].attempts, "payload is not valid JSON");
        assert !weather.publish.Refused? ==> dlq[|dlq| - 1].source == c;
        return true, DeadLettered;
      }
      var r := Handle(h, c, weather);
      done := true;
      what := if r.Sent? then Delivered else Skipped;
      if r.Threw? {
        ghost var failed, later := copies[c], Here();
        done := ScheduleRetryOrDeadLetter(h, c, weather);
        SameRoute(World(), failed, old(copies)[c], c, later, old(Here()), weather, done);
        what := if !done then Thrown else if failed.attempts + 1 >= cfg.maxAttempts then DeadLettered else Retried;
      }
    }

    // Take the copy and, on the retry topic, wait until it is due.
    method Open(h: HandlerId, c: CopyId, isRetryTopic: bool) returns (stopping: bool)
      requires Valid() && NotMine(h) && h !in handlers && c < |copies| && !copies[c].consumed
      requires isRetryTopic == copies[c].topic.Retry?
      modifies this
      ensures At(h, c, if stopping then Received else Ready) && Awaited(c)
      ensures stopping <==> Stopping()
      ensures !stopping && isRetryTopic ==> now >= copies[c].retryAt
    {
      hide Run;
      handlers := handlers[h := Handler(c, Received)];
      Record(Take(h, c));
      stopping := Stopping();
      if !stopping && isRetryTopic {
        WaitUntilDue(h, c, copies[c].retryAt);
        stopping := Stopping();
      }
      if !stopping {
        handlers := handlers[h := handlers[h].(phase := Ready)];
        Record(Wake(h));
      }
    }

    // Handles copy c; `what` says what has become of it. True means the offset is committed: the copy was
    // sent, skipped as a duplicate, rescheduled or dead-lettered, or dropped because the consumer is
    // stopping. False means the handler threw and Kafka will redeliver.
    method OnMessage(h: HandlerId, c: CopyId, isRetryTopic: bool, weather: Weather)
      returns (committed: bool, ghost what: Handling)
      requires Valid() && NotMine(h) && h !in handlers && c < |copies| && !copies[c].consumed
      requires isRetryTopic == copies[c].topic.Retry? && 0.0 <= weather.random < 1.0
      modifies this
      ensures Valid() && h !in handlers && old(trace) <= trace
      ensures c < |copies| && copies[c].consumed == committed == !what.Thrown?
      ensures Became(World(), trace, old(copies)[c], c, old(Here()), weather, what)
      ensures what.Dropped? ==> Stopping()
      ensures old(Stopping()) ==> what.Dropped?
      ensures old(schedule) == [] && !what.Dropped? && old(copies)[c].body.Json? && weather.insert == Fine ==>
        (what.Skipped? <==> old(copies)[c].messageId in old(claims))
    {
      hide Run;
      hide Apply;
      var stopping := Open(h, c, isRetryTopic);
      if stopping {
        Settle(h, c, Received);
        return true, Dropped;
      }
      committed, what := Process(h, c, weather);
      if committed { Commit(h, c, old(copies)[c], old(Here()), weather, what); }
    }

    // The offset of a copy that was handled.
    method Commit(h: HandlerId, c: CopyId, ghost copy: Copy<P>, ghost before: Marks, ghost weather: Weather,
                  ghost what: Handling)
      requires At(h, c, Acking) && Became(World(), trace, copy, c, before, weather, what)
      modifies this`handlers, this`copies, this`trace
      ensures Valid() && h !in handlers && c < |copies| && copies[c].consumed && old(trace) <= trace
      ensures Became(World(), trace, copy, c, before, weather, what)
    {
      hide Run;
      hide Apply;
      ghost var w, steps := World(), trace;
      Settle(h, c, Acking);
      BecameStays(w, World(), steps, trace, copy, c, before, weather, what);
    }

    // Returning from the handler commits the offset.
    method Settle(h: HandlerId, c: CopyId, ghost phase: Phase)
      requires At(h, c, phase) && (phase == Received || phase == Acking)
      modifies this`handlers, this`copies, this`trace
      ensures Valid() && h !in handlers && c < |copies| && old(trace) <= trace
      ensures copies == old(copies)[c := old(copies)[c].(consumed := true)]
    {
      hide Run;
      if handlers[h].phase == Received {
        handlers := handlers[h := handlers[h].(phase := Acking)];
        Record(Drop(h));
      }
      copies := copies[c := copies[c].(consumed := true)];
      handlers := Leave(handlers, h);
      Record(Ack(h));
    }
  }

  ghost predicate SameCopy<P>(a: Copy<P>, b: Copy<P>) {
    a.(consumed := b.consumed) == b
  }

  // Message m was claimed at some point of the run, from its n-th step on.
  ghost predicate ClaimedSince<P>(cfg: Config, steps: seq<Step<P>>, n: nat, m: MessageId) {
    exists k :: n <= k <= |steps| && ClaimedAfter(cfg, steps[..k], m)
  }

  // The dead-letter topic has a record made from copy c, from number n on.
  ghost predicate LetterSince<P>(w: World<P>, n: nat, c: CopyId, copy: Copy<P>, attempts: int, reason: string) {
    exists i :: n <= i < |w.dlq| && w.dlq[i] == DeadLetter(copy.body, reason, attempts, copy.topic, c)
  }

  // The retry topic has a copy made from copy c, from number n on.
  ghost predicate RetrySince<P>(w: World<P>, n: nat, c: CopyId, copy: Copy<P>, random: real) {
    exists d :: n <= d < |w.copies| && RetryOf(w.cfg, w.copies[d], c, copy, random)
  }

  // How many steps, copies and dead letters there were.
  datatype Marks = Marks(steps: nat, copies: nat, letters: nat)

  // A failed copy went on record with its attempts spent, or to the retry topic with one attempt more;
  // only a publish that fails leaves neither.
  ghost predicate Routed<P>(w: World<P>, copy: Copy<P>, c: CopyId, before: Marks, weather: Weather, done: bool) {
    var attempts := copy.attempts + 1;
    if attempts >= w.cfg.maxAttempts then
      done && (weather.publish.Refused? || LetterSince(w, before.letters, c, copy, attempts, weather.error))
    else
      && (done <==> weather.publish.Fine?)
      && (weather.publish.Refused? || RetrySince(w, before.copies, c, copy, weather.random))
  }

  // What has become of a copy, handled in this weather, in the world w that `steps` lead to.
  ghost predicate Became<P>(w: World<P>, steps: seq<Step<P>>, copy: Copy<P>, c: CopyId, before: Marks, weather: Weather,
                            what: Handling)
  {
    match what
    case Dropped => true
    case Delivered => copy.body.Json? && weather.insert == Fine && weather.delivered && copy.messageId in w.sent
    case Skipped =>
      copy.body.Json? && weather.insert == Fine && ClaimedSince(w.cfg, steps, before.steps, copy.messageId)
    case _ =>
      if copy.body.Malformed? then
        && what.DeadLettered?
        && (weather.publish.Refused?
            || LetterSince(w, before.letters, c, copy, copy.attempts, "payload is not valid JSON"))
      else
        && (weather.insert != Fine || !weather.delivered)
        && (what.DeadLettered? <==> copy.attempts + 1 >= w.cfg.maxAttempts)
        && Routed(w, copy, c, before, weather, !what.Thrown?)
  }

  lemma SameRoute<P>(w: World<P>, a: Copy<P>, b: Copy<P>, c: CopyId, later: Marks, before: Marks, weather: Weather,
                     done: bool)
    requires SameCopy(a, b) && before.copies <= later.copies && before.letters <= later.letters
    requires Routed(w, a, c, later, weather, done)
    ensures Routed(w, b, c, before, weather, done)
  {
    if RetrySince(w, later.copies, c, a, weather.random) {
      var d :| later.copies <= d < |w.copies| && RetryOf(w.cfg, w.copies[d], c, a, weather.random);
      assert RetryOf(w.cfg, w.copies[d], c, b, weather.random);
    }
  }

  // Committing the offset changes nothing of that.
  lemma BecameStays<P>(w: World<P>, v: World<P>, steps: seq<Step<P>>, longer: seq<Step<P>>, copy: Copy<P>, c: CopyId,
                       before: Marks, weather: Weather, what: Handling)
    requires Became(w, steps, copy, c, before, weather, what) && steps <= longer && c < |w.copies|
    requires v.cfg == w.cfg && v.sent == w.sent && v.dlq == w.dlq
    requires v.copies == w.copies[c := w.copies[c].(consumed := true)]
    ensures Became(v, longer, copy, c, before, weather, what)
  {
    if what.Skipped? {
      var k :| before.steps <= k <= |steps| && ClaimedAfter(w.cfg, steps[..k], copy.messageId);
      assert longer[..k] == steps[..k];
    }
    if RetrySince(w, before.copies, c, copy, weather.random) {
      var d :| before.copies <= d < |w.copies| && RetryOf(w.cfg, w.copies[d], c, copy, weather.random);
      assert RetryOf(v.cfg, v.copies[d], c, copy, weather.random);
    }
  }

  // The copy that a failed handling of copy c leaves on the retry topic.
  ghost predicate RetryOf<P>(cfg: Config, again: Copy<P>, c: CopyId, copy: Copy<P>, random: real) {
    && again.parent == Some(c) && again.topic.Retry? && again.attempts == copy.attempts + 1
    && again.messageId == copy.messageId && again.eventType == copy.eventType && again.body == copy.body
    && again.retryAt == again.scheduledAt + ComputeBackoffMs(copy.attempts + 1, cfg.retryBaseMs, cfg.retryMaxMs, random)
  }

  ghost predicate ClaimedAfter<P>(cfg: Config, steps: seq<Step<P>>, m: MessageId) {
    m in Run(Init(cfg), steps).claims
  }

  lemma OnlyMore<P>(w: World<P>, st: Step<P>)
    ensures |w.copies| <= |Apply(w, st).copies| && |w.dlq| <= |Apply(w, st).dlq|
  {
  }

  lemma CfgStays<P>(w: World<P>, st: Step<P>)
    ensures Apply(w, st).cfg == w.cfg
  {
  }

  lemma TimePasses<P>(w: World<P>, st: Step<P>)
    ensures Apply(w, st).now >= w.now
  {
  }

  // Scheduling a retry, whether its publish is acknowledged, refused or in doubt.
  lemma RetryApplied<P>(w: World<P>, h: HandlerId, fate: Fate, random: real, reason: string)
    requires Works(w, h, Failing) && 0.0 <= random < 1.0 && !DeadLetters(w, h)
    ensures var c := w.handlers[h].copy;
      var copies := if fate.Refused? then w.copies else w.copies + [Again(w, h, random)];
      Apply(w, Route(h, fate, random, reason)) ==
        if fate.Fine? then w.(copies := copies, handlers := w.handlers[h := Handler(c, Acking)])
        else w.(copies := copies[c := copies[c].(consumed := false)], handlers := Leave(w.handlers, h))
  {
  }
}
