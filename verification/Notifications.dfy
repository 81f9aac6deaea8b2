/**
 The notification pipeline: copies of messages on the main and retry topics, handlers working on
 them, the claim table, the delivered effects and the dead-letter topic.

 Any number of handlers run at once; each step is one database or Kafka operation of one handler.
 Kafka redelivers a copy whose handler throws or dies, and may redeliver any copy again.
 */
module Notifications {
  import opened Wrappers
  import opened RetryPolicy

  type MessageId = nat
  type CopyId = nat
  type HandlerId = nat

  datatype Topic = Main | Retry
  datatype Body<+P> = Json(value: P) | Malformed(text: string)

  // One record on a topic. `parent` and `scheduledAt` are history: the copy whose failed handling
  // scheduled this one, and when.
  datatype Copy<+P> = Copy(topic: Topic, messageId: MessageId, eventType: string, body: Body<P>,
                           attempts: int, retryAt: int, parent: Option<CopyId>, scheduledAt: int,
                           consumed: bool)

  // `source` is history: the copy the record was made from.
  datatype DeadLetter<+P> = DeadLetter(raw: Body<P>, reason: string, attempts: int, originalTopic: Topic,
                                       source: CopyId)

  // Received -> Ready -> Claimed -> Acking is the happy path. Undelivered still has its claim row;
  // Failing has tried to delete it; Acking only has its offset left to commit.
  datatype Phase = Received | Ready | Claimed | Undelivered | Failing | Acking

  datatype Handler = Handler(copy: CopyId, phase: Phase)

  datatype Config = Config(maxAttempts: int, retryBaseMs: int, retryMaxMs: int)

  datatype World<+P> = World(cfg: Config, now: int, copies: seq<Copy<P>>, handlers: map<HandlerId, Handler>,
                             claims: set<MessageId>, sent: seq<MessageId>, dlq: seq<DeadLetter<P>>)

  // An operation that reports an error may have happened or not.
  datatype Fate = Fine | Refused | Ambiguous

  datatype Step<+P> =
    | Arrive(messageId: MessageId, eventType: string, body: Body<P>)
    | Redeliver(c: CopyId)
    | Take(h: HandlerId, c: CopyId)
    | Drop(h: HandlerId)
    | Wake(h: HandlerId)
    | Insert(h: HandlerId, fate: Fate)
    | Deliver(h: HandlerId, ok: bool)
    | Unclaim(h: HandlerId, ok: bool)
    | Route(h: HandlerId, fate: Fate, random: real, reason: string)
    | Ack(h: HandlerId)
    | Crash(h: HandlerId)
    | Tick(ms: nat)

  // ---------- The steps ----------

  function Init<P>(cfg: Config): World<P> {
    World(cfg, 0, [], map[], {}, [], [])
  }

  predicate Works<P>(w: World<P>, h: HandlerId, phase: Phase) {
    h in w.handlers && w.handlers[h].phase == phase && w.handlers[h].copy < |w.copies|
  }

  function CopyOf<P>(w: World<P>, h: HandlerId): Copy<P>
    requires h in w.handlers && w.handlers[h].copy < |w.copies|
  {
    w.copies[w.handlers[h].copy]
  }

  function Goto<P>(w: World<P>, h: HandlerId, phase: Phase): World<P>
    requires h in w.handlers
  {
    w.(handlers := w.handlers[h := w.handlers[h].(phase := phase)])
  }

  function Leave(handlers: map<HandlerId, Handler>, h: HandlerId): map<HandlerId, Handler> {
    map g | g in handlers && g != h :: handlers[g]
  }

  function SetConsumed<P>(w: World<P>, c: CopyId, consumed: bool): World<P>
    requires c < |w.copies|
  {
    w.(copies := w.copies[c := w.copies[c].(consumed := consumed)])
  }

  // INSERT ... ON CONFLICT DO NOTHING on the claim table.
  function InsertStep<P>(w: World<P>, h: HandlerId, fate: Fate): World<P>
    requires Works(w, h, Ready)
  {
    var m := CopyOf(w, h).messageId;
    match fate
    case Fine =>
      if m in w.claims then Goto(w, h, Acking) else Goto(w, h, Claimed).(claims := w.claims + {m})
    case Refused => Goto(w, h, Failing)
    case Ambiguous => Goto(w, h, Failing).(claims := w.claims + {m})
  }

  // Failures number `attempts` so far go to the dead-letter topic once they reach the limit.
  predicate DeadLetters<P>(w: World<P>, h: HandlerId)
    requires h in w.handlers && w.handlers[h].copy < |w.copies|
  {
    var copy := CopyOf(w, h);
    copy.body.Malformed? || ShouldDeadLetter(copy.attempts + 1, w.cfg.maxAttempts)
  }

  function Letter<P>(w: World<P>, h: HandlerId, reason: string): DeadLetter<P>
    requires h in w.handlers && w.handlers[h].copy < |w.copies|
  {
    var copy := CopyOf(w, h);
    if copy.body.Malformed?
    then DeadLetter(copy.body, "payload is not valid JSON", copy.attempts, copy.topic, w.handlers[h].copy)
    else DeadLetter(copy.body, reason, copy.attempts + 1, copy.topic, w.handlers[h].copy)
  }

  function Again<P>(w: World<P>, h: HandlerId, random: real): Copy<P>
    requires h in w.handlers && w.handlers[h].copy < |w.copies|
  {
    var copy := CopyOf(w, h);
    var attempts := copy.attempts + 1;
    var backoffMs := ComputeBackoffMs(attempts, w.cfg.retryBaseMs, w.cfg.retryMaxMs, random);
    Copy(Retry, copy.messageId, copy.eventType, copy.body, attempts, w.now + backoffMs,
         Some(w.handlers[h].copy), w.now, false)
  }

  predicate MayRoute<P>(w: World<P>, h: HandlerId) {
    Works(w, h, Failing) || (Works(w, h, Ready) && CopyOf(w, h).body.Malformed?)
  }

  // Dead-letter (a failed write is swallowed) or schedule a retry (a failed publish throws).
  function RouteStep<P>(w: World<P>, h: HandlerId, fate: Fate, random: real, reason: string): World<P>
    requires MayRoute(w, h)
  {
    if DeadLetters(w, h) then
      Goto(w, h, Acking).(dlq := if fate.Refused? then w.dlq else w.dlq + [Letter(w, h, reason)])
    else
      var copies := if fate.Refused? then w.copies else w.copies + [Again(w, h, random)];
      if fate.Fine? then Goto(w, h, Acking).(copies := copies)
      else SetConsumed(w.(copies := copies, handlers := Leave(w.handlers, h)), w.handlers[h].copy, false)
  }

  function Apply<P>(w: World<P>, st: Step<P>): World<P> {
    match st
    case Arrive(m, eventType, body) =>
      w.(copies := w.copies + [Copy(Main, m, eventType, body, 0, 0, None, w.now, false)])
    case Redeliver(c) => if c < |w.copies| then SetConsumed(w, c, false) else w
    case Take(h, c) =>
      if h !in w.handlers && c < |w.copies| && !w.copies[c].consumed
      then w.(handlers := w.handlers[h := Handler(c, Received)]) else w
    case Drop(h) => if Works(w, h, Received) then Goto(w, h, Acking) else w
    case Wake(h) =>
      if Works(w, h, Received) && (CopyOf(w, h).topic.Main? || w.now >= CopyOf(w, h).retryAt)
      then Goto(w, h, Ready) else w
    case Insert(h, fate) =>
      if Works(w, h, Ready) && CopyOf(w, h).body.Json? then InsertStep(w, h, fate) else w
    case Deliver(h, ok) =>
      if !Works(w, h, Claimed) then w
      else if ok then Goto(w, h, Acking).(sent := w.sent + [CopyOf(w, h).messageId])
      else Goto(w, h, Undelivered)
    case Unclaim(h, ok) =>
      if !Works(w, h, Undelivered) then w
      else Goto(w, h, Failing).(claims := if ok then w.claims - {CopyOf(w, h).messageId} else w.claims)
    case Route(h, fate, random, reason) =>
      if MayRoute(w, h) && 0.0 <= random < 1.0 then RouteStep(w, h, fate, random, reason) else w
    case Ack(h) =>
      if Works(w, h, Acking)
      then SetConsumed(w.(handlers := Leave(w.handlers, h)), w.handlers[h].copy, true) else w
    case Crash(h) => w.(handlers := Leave(w.handlers, h))
    case Tick(ms) => w.(now := w.now + ms)
  }

  function Run<P>(w: World<P>, steps: seq<Step<P>>): World<P> {
    if steps == [] then w else Apply(Run(w, steps[..|steps| - 1]), steps[|steps| - 1])
  }

  lemma RunSnoc<P>(w: World<P>, steps: seq<Step<P>>, st: Step<P>)
    ensures Run(w, steps + [st]) == Apply(Run(w, steps), st)
  {
    assert (steps + [st])[..|steps|] == steps;
  }

  lemma RunNone<P>(w: World<P>)
    ensures Run(w, []) == w
  {
  }

  lemma {:induction false} RunConcat<P>(w: World<P>, a: seq<Step<P>>, b: seq<Step<P>>)
    ensures Run(w, a + b) == Run(Run(w, a), b)
  {
    hide Run;
    hide Apply;
    if b == [] {
      assert a + b == a;
      RunNone(Run(w, a));
    } else {
      var before, last := b[..|b| - 1], b[|b| - 1];
      RunConcat(w, a, before);
      assert a + b == (a + before) + [last];
      RunSnoc(w, a + before, last);
      assert b == before + [last];
      RunSnoc(Run(w, a), before, last);
    }
  }

  // ---------- At most one effect ----------

  predicate HoldsClaim(phase: Phase) {
    phase.Claimed? || phase.Undelivered?
  }

  ghost predicate HolderAt<P>(w: World<P>, h: HandlerId) {
    h in w.handlers ==>
      && w.handlers[h].copy < |w.copies|
      && (HoldsClaim(w.handlers[h].phase) ==>
            && CopyOf(w, h).messageId in w.claims
            && CopyOf(w, h).messageId !in w.sent)
  }

  ghost predicate SoleHolder<P>(w: World<P>, h: HandlerId, g: HandlerId) {
    h in w.handlers && g in w.handlers && h != g
    && w.handlers[h].copy < |w.copies| && w.handlers[g].copy < |w.copies|
    && HoldsClaim(w.handlers[h].phase) && HoldsClaim(w.handlers[g].phase)
    ==> CopyOf(w, h).messageId != CopyOf(w, g).messageId
  }

  ghost predicate OnceInv<P>(w: World<P>) {
    && (forall h {:trigger HolderAt(w, h)} :: HolderAt(w, h))
    && (forall h, g {:trigger SoleHolder(w, h, g)} :: SoleHolder(w, h, g))
    && (forall m :: m in w.sent ==> m in w.claims)
    && (forall i, j :: 0 <= i < j < |w.sent| ==> w.sent[i] != w.sent[j])
  }

  // Copies never vanish or change what they say.
  lemma CopiesStay<P>(w: World<P>, st: Step<P>, c: CopyId)
    requires c < |w.copies|
    ensures c < |Apply(w, st).copies|
    ensures Apply(w, st).copies[c] == w.copies[c].(consumed := Apply(w, st).copies[c].consumed)
  {
  }

  function Actor<P>(st: Step<P>): Option<HandlerId> {
    match st
    case Arrive(_, _, _) => None
    case Redeliver(_) => None
    case Tick(_) => None
    case Take(h, _) => Some(h)
    case Drop(h) => Some(h)
    case Wake(h) => Some(h)
    case Insert(h, _) => Some(h)
    case Deliver(h, _) => Some(h)
    case Unclaim(h, _) => Some(h)
    case Route(h, _, _, _) => Some(h)
    case Ack(h) => Some(h)
    case Crash(h) => Some(h)
  }

  lemma OthersStay<P>(w: World<P>, st: Step<P>, g: HandlerId)
    requires Actor(st) != Some(g)
    ensures (g in Apply(w, st).handlers) == (g in w.handlers)
    ensures g in w.handlers ==> Apply(w, st).handlers[g] == w.handlers[g]
  {
  }

  // Whoever holds a claim after its own step held it before, or has just inserted it.
  lemma Claiming<P>(w: World<P>, st: Step<P>, h: HandlerId)
    requires Actor(st) == Some(h) && h in Apply(w, st).handlers && HoldsClaim(Apply(w, st).handlers[h].phase)
    requires h in w.handlers ==> w.handlers[h].copy < |w.copies|
    ensures h in w.handlers && Apply(w, st).handlers[h].copy == w.handlers[h].copy
    ensures var m := CopyOf(w, h).messageId;
      && Apply(w, st).sent == w.sent && w.claims <= Apply(w, st).claims
      && (HoldsClaim(w.handlers[h].phase) || (m !in w.claims && m in Apply(w, st).claims))
  {
  }

  // A step releases or spends only the claim its own handler holds.
  lemma ClaimsStay<P>(w: World<P>, st: Step<P>, m: MessageId)
    requires m in w.claims
    requires Actor(st).Some? ==>
      var g := Actor(st).value;
      g in w.handlers && w.handlers[g].copy < |w.copies| && HoldsClaim(w.handlers[g].phase) ==>
        CopyOf(w, g).messageId != m
    ensures m in Apply(w, st).claims && (m in Apply(w, st).sent <==> m in w.sent)
  {
  }

  lemma OnACopy<P>(w: World<P>, st: Step<P>, h: HandlerId)
    requires h in w.handlers ==> w.handlers[h].copy < |w.copies|
    ensures h in Apply(w, st).handlers ==> Apply(w, st).handlers[h].copy < |Apply(w, st).copies|
  {
  }

  lemma HolderStep<P>(w: World<P>, st: Step<P>, h: HandlerId)
    requires OnceInv(w)
    ensures HolderAt(Apply(w, st), h)
  {
    hide Apply;
    var w' := Apply(w, st);
    assert HolderAt(w, h);
    OnACopy(w, st, h);
    if h in w'.handlers && HoldsClaim(w'.handlers[h].phase) {
      if Actor(st) == Some(h) {
        Claiming(w, st, h);
      } else {
        OthersStay(w, st, h);
        if Actor(st).Some? { assert SoleHolder(w, h, Actor(st).value); }
        ClaimsStay(w, st, CopyOf(w, h).messageId);
      }
      CopiesStay(w, st, w.handlers[h].copy);
    }
  }

  lemma SoleStep<P>(w: World<P>, st: Step<P>, h: HandlerId, g: HandlerId)
    requires OnceInv(w)
    ensures SoleHolder(Apply(w, st), h, g)
  {
    hide Apply;
    var w' := Apply(w, st);
    assert HolderAt(w, h) && HolderAt(w, g) && SoleHolder(w, h, g);
    if h != g && h in w'.handlers && g in w'.handlers
       && HoldsClaim(w'.handlers[h].phase) && HoldsClaim(w'.handlers[g].phase) {
      HeldBefore(w, st, h);
      HeldBefore(w, st, g);
    }
  }

  lemma HeldBefore<P>(w: World<P>, st: Step<P>, h: HandlerId)
    requires OnceInv(w) && h in Apply(w, st).handlers && HoldsClaim(Apply(w, st).handlers[h].phase)
    ensures h in w.handlers && w.handlers[h].copy < |w.copies|
    ensures Apply(w, st).handlers[h].copy == w.handlers[h].copy < |Apply(w, st).copies|
    ensures CopyOf(Apply(w, st), h).messageId == CopyOf(w, h).messageId
    ensures HoldsClaim(w.handlers[h].phase) || (Actor(st) == Some(h) && CopyOf(w, h).messageId !in w.claims)
  {
    hide Apply;
    assert HolderAt(w, h);
    if Actor(st) == Some(h) { Claiming(w, st, h); } else { OthersStay(w, st, h); }
    CopiesStay(w, st, w.handlers[h].copy);
  }

  lemma OnceStep<P>(w: World<P>, st: Step<P>)
    requires OnceInv(w)
    ensures OnceInv(Apply(w, st))
  {
    var w' := Apply(w, st);
    forall h ensures HolderAt(w', h) { HolderStep(w, st, h); }
    forall h, g ensures SoleHolder(w', h, g) { SoleStep(w, st, h, g); }
    if Actor(st).Some? {
      var h := Actor(st).value;
      assert HolderAt(w, h);
    }
  }

  lemma {:induction false} OnceRun<P>(w: World<P>, steps: seq<Step<P>>)
    requires OnceInv(w)
    ensures OnceInv(Run(w, steps))
  {
    if steps != [] {
      OnceRun(w, steps[..|steps| - 1]);
      OnceStep(Run(w, steps[..|steps| - 1]), steps[|steps| - 1]);
    }
  }

  // Whatever is redelivered, duplicated, retried, crashed or half-failed, no message is delivered
  // twice; and while its claim is held by a handler it has not been delivered at all.
  lemma DeliveredAtMostOnce<P>(cfg: Config, steps: seq<Step<P>>)
    ensures var w := Run(Init(cfg), steps);
      && (forall i, j :: 0 <= i < j < |w.sent| ==> w.sent[i] != w.sent[j])
      && (forall m :: m in w.sent ==> m in w.claims)
  {
    OnceRun(Init(cfg), steps);
  }
}
