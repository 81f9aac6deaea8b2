/**
 When a notification is lost, exactly: a run without the faults below never loses a message, and
 after any such run every one of these faults can be continued, without another one, to a state
 where its message is gone.
 */
module NotificationLoss {
  import opened Notifications
  import opened Wrappers

  // ---------- What has become of a message ----------

  // Copy c will be looked at again, or is being looked at by a handler that has not settled yet.
  ghost predicate Live<P>(w: World<P>, c: CopyId) {
    c < |w.copies| && !w.copies[c].consumed
    && forall h :: h in w.handlers && w.handlers[h].copy == c ==> !w.handlers[h].phase.Acking?
  }

  ghost predicate LiveCopy<P>(w: World<P>, c: CopyId, m: MessageId) {
    Live(w, c) && w.copies[c].messageId == m
  }

  ghost predicate LiveFor<P>(w: World<P>, m: MessageId) {
    exists c: CopyId :: LiveCopy(w, c, m)
  }

  // Some dead letter carries the body of a copy of m.
  ghost predicate LetterFor<P>(w: World<P>, i: nat, m: MessageId) {
    i < |w.dlq| && w.dlq[i].source < |w.copies|
    && w.copies[w.dlq[i].source].messageId == m && w.dlq[i].raw == w.copies[w.dlq[i].source].body
  }

  ghost predicate Dead<P>(w: World<P>, m: MessageId) {
    exists i: nat :: LetterFor(w, i, m)
  }

  // Neither sent nor in the dead-letter topic.
  ghost predicate Unsettled<P>(w: World<P>, m: MessageId) {
    m !in w.sent && !Dead(w, m)
  }

  ghost predicate Accounted<P>(w: World<P>, m: MessageId) {
    !Unsettled(w, m) || LiveFor(w, m)
  }

  ghost predicate CopyAccounted<P>(w: World<P>, c: CopyId) {
    c < |w.copies| ==> Accounted(w, w.copies[c].messageId)
  }

  ghost predicate AllAccounted<P>(w: World<P>) {
    forall c {:trigger CopyAccounted(w, c)} :: CopyAccounted(w, c)
  }

  predicate CopyFor<P>(w: World<P>, c: CopyId, m: MessageId) {
    c < |w.copies| && w.copies[c].messageId == m
  }

  // Handler h is on a copy of m.
  predicate WorksOn<P>(w: World<P>, h: HandlerId, m: MessageId) {
    h in w.handlers && CopyFor(w, w.handlers[h].copy, m)
  }

  predicate Holder<P>(w: World<P>, h: HandlerId, m: MessageId) {
    WorksOn(w, h, m) && HoldsClaim(w.handlers[h].phase)
  }

  // Neither sent nor dead-lettered, every copy consumed, nobody working on it.
  ghost predicate Gone<P>(w: World<P>, m: MessageId) {
    && Unsettled(w, m) && (exists c: CopyId :: CopyFor(w, c, m))
    && (forall c: CopyId :: CopyFor(w, c, m) ==> w.copies[c].consumed)
    && (forall h :: !WorksOn(w, h, m))
  }

  // ---------- The faults ----------

  ghost predicate OtherLive<P>(w: World<P>, c: CopyId, m: MessageId) {
    exists d: CopyId :: d != c && LiveCopy(w, d, m)
  }

  // A step that can cost a message which is neither sent nor dead-lettered yet: its claim is left
  // behind (a claimant dies, a claim delete fails, a claim insert happens but reports an error), its
  // last live copy is let go (by a stopping consumer, or with a refused dead-letter write), or a
  // second handler takes a copy that one is still on (a consumer that outlives its eviction).
  ghost predicate Fault<P>(w: World<P>, st: Step<P>) {
    match st
    case Crash(h) =>
      h in w.handlers && w.handlers[h].copy < |w.copies| && HoldsClaim(w.handlers[h].phase)
      && Unsettled(w, CopyOf(w, h).messageId)
    case Unclaim(h, ok) => !ok && Works(w, h, Undelivered) && Unsettled(w, CopyOf(w, h).messageId)
    case Insert(h, fate) =>
      fate.Ambiguous? && Works(w, h, Ready) && CopyOf(w, h).body.Json?
      && CopyOf(w, h).messageId !in w.claims && Unsettled(w, CopyOf(w, h).messageId)
    case Drop(h) =>
      Works(w, h, Received) && Unsettled(w, CopyOf(w, h).messageId)
      && !OtherLive(w, w.handlers[h].copy, CopyOf(w, h).messageId)
    case Route(h, fate, random, _) =>
      fate.Refused? && 0.0 <= random < 1.0 && MayRoute(w, h) && DeadLetters(w, h)
      && Unsettled(w, CopyOf(w, h).messageId) && !OtherLive(w, w.handlers[h].copy, CopyOf(w, h).messageId)
    case Take(h, c) =>
      h !in w.handlers && c < |w.copies| && !w.copies[c].consumed && w.copies[c].body.Json?
      && Unsettled(w, w.copies[c].messageId) && exists g :: g in w.handlers && w.handlers[g].copy == c
    case _ => false
  }

  ghost predicate FaultFree<P>(w: World<P>, steps: seq<Step<P>>) {
    steps == [] || (FaultFree(w, steps[..|steps| - 1]) && !Fault(Run(w, steps[..|steps| - 1]), steps[|steps| - 1]))
  }

  // The message a fault costs.
  function Victim<P>(w: World<P>, st: Step<P>): Option<MessageId> {
    match st
    case Take(_, c) => if c < |w.copies| then Some(w.copies[c].messageId) else None
    case _ =>
      match Actor(st)
      case None => None
      case Some(h) =>
        if h in w.handlers && w.handlers[h].copy < |w.copies| then Some(CopyOf(w, h).messageId) else None
  }

  // ---------- What fault-free runs keep ----------

  // A claim row exists only if its message was sent or dead-lettered, or its claimant is at work.
  ghost predicate ClaimAt<P>(w: World<P>, m: MessageId) {
    m in w.claims && Unsettled(w, m) ==> exists h :: Holder(w, h, m)
  }

  predicate Inserted(phase: Phase) {
    phase.Claimed? || phase.Undelivered? || phase.Failing?
  }

  // A copy that can still be delivered is unconsumed while a handler is on it, and in no other's hands.
  ghost predicate HandAt<P>(w: World<P>, h: HandlerId) {
    h in w.handlers ==>
      && w.handlers[h].copy < |w.copies|
      && (Inserted(w.handlers[h].phase) ==> CopyOf(w, h).body.Json?)
      && (CopyOf(w, h).body.Json? && Unsettled(w, CopyOf(w, h).messageId) ==>
            && !CopyOf(w, h).consumed
            && forall g :: g in w.handlers && w.handlers[g].copy == w.handlers[h].copy ==> g == h)
  }

  ghost predicate LettersOk<P>(w: World<P>) {
    forall i :: 0 <= i < |w.dlq| ==> w.dlq[i].source < |w.copies|
  }

  ghost predicate KeepInv<P>(w: World<P>) {
    && OnceInv(w) && LettersOk(w) && AllAccounted(w)
    && (forall m {:trigger ClaimAt(w, m)} :: ClaimAt(w, m))
    && (forall h {:trigger HandAt(w, h)} :: HandAt(w, h))
  }

  lemma DeadStays<P>(w: World<P>, st: Step<P>, m: MessageId)
    requires Dead(w, m)
    ensures Dead(Apply(w, st), m)
  {
    var i: nat :| LetterFor(w, i, m);
    CopiesStay(w, st, w.dlq[i].source);
    assert LetterFor(Apply(w, st), i, m);
  }

  lemma SettledStays<P>(w: World<P>, st: Step<P>, m: MessageId)
    requires !Unsettled(w, m)
    ensures !Unsettled(Apply(w, st), m)
  {
    if Dead(w, m) { DeadStays(w, st, m); } else { SentStays(w, st, m); }
  }

  lemma SentStays<P>(w: World<P>, st: Step<P>, m: MessageId)
    requires m in w.sent
    ensures m in Apply(w, st).sent
  {
  }

  lemma LettersStep<P>(w: World<P>, st: Step<P>)
    requires LettersOk(w)
    ensures LettersOk(Apply(w, st))
  {
  }

  // Who is on which copy changes by taking and leaving only.
  lemma HandlersMove<P>(w: World<P>, st: Step<P>, g: HandlerId)
    requires g in Apply(w, st).handlers
    ensures g in w.handlers ==> Apply(w, st).handlers[g].copy == w.handlers[g].copy
    ensures g !in w.handlers ==>
      st == Take(g, Apply(w, st).handlers[g].copy) && Apply(w, st).handlers[g].phase.Received?
      && st.c < |w.copies| && !w.copies[st.c].consumed
  {
  }

  lemma HandStep<P>(w: World<P>, st: Step<P>, h: HandlerId)
    requires KeepInv(w) && !Fault(w, st)
    ensures HandAt(Apply(w, st), h)
  {
    var w' := Apply(w, st);
    if h in w'.handlers {
      HandlersMove(w, st, h);
      assert HandAt(w, h);
      var c := w'.handlers[h].copy;
      CopiesStay(w, st, c);
      HandPhase(w, st, h);
      var m := w.copies[c].messageId;
      if w.copies[c].body.Json? && Unsettled(w', m) {
        if !Unsettled(w, m) {
          SettledStays(w, st, m);
        } else {
          AloneOn(w, st, h);
        }
      }
    }
  }

  lemma HandPhase<P>(w: World<P>, st: Step<P>, h: HandlerId)
    requires KeepInv(w) && h in Apply(w, st).handlers
    requires Apply(w, st).handlers[h].copy < |w.copies|
    ensures Inserted(Apply(w, st).handlers[h].phase) ==> w.copies[Apply(w, st).handlers[h].copy].body.Json?
  {
    assert HandAt(w, h);
    if Actor(st) != Some(h) { OthersStay(w, st, h); }
  }

  lemma AloneOn<P>(w: World<P>, st: Step<P>, h: HandlerId)
    requires KeepInv(w) && !Fault(w, st) && h in Apply(w, st).handlers
    requires var c := Apply(w, st).handlers[h].copy;
      c < |w.copies| && w.copies[c].body.Json? && Unsettled(w, w.copies[c].messageId)
    ensures var w' := Apply(w, st);
      var c := w'.handlers[h].copy;
      && c < |w'.copies| && !w'.copies[c].consumed
      && forall g :: g in w'.handlers && w'.handlers[g].copy == c ==> g == h
  {
    var w' := Apply(w, st);
    var c := w'.handlers[h].copy;
    CopiesStay(w, st, c);
    HandlersMove(w, st, h);
    assert HandAt(w, h);
    forall g | g in w'.handlers && w'.handlers[g].copy == c ensures g == h {
      HandlersMove(w, st, g);
      assert HandAt(w, g);
    }
    StillUnconsumed(w, st, h);
  }

  // Only the handler that leaves consumes a copy, and it was alone on it.
  lemma StillUnconsumed<P>(w: World<P>, st: Step<P>, h: HandlerId)
    requires KeepInv(w) && h in Apply(w, st).handlers
    requires var c := Apply(w, st).handlers[h].copy;
      c < |w.copies| && w.copies[c].body.Json? && Unsettled(w, w.copies[c].messageId)
    ensures var c := Apply(w, st).handlers[h].copy;
      c < |Apply(w, st).copies| && !Apply(w, st).copies[c].consumed
  {
    HandlersMove(w, st, h);
    assert HandAt(w, h);
    CopiesStay(w, st, Apply(w, st).handlers[h].copy);
    if Actor(st).Some? { assert HandAt(w, Actor(st).value); }
  }

  lemma ClaimStep<P>(w: World<P>, st: Step<P>, m: MessageId)
    requires KeepInv(w) && !Fault(w, st)
    ensures ClaimAt(Apply(w, st), m)
  {
    var w' := Apply(w, st);
    assert ClaimAt(w, m);
    if m in w'.claims && Unsettled(w', m) {
      if !Unsettled(w, m) {
        SettledStays(w, st, m);
      } else if m in w.claims {
        var h :| Holder(w, h, m);
        HolderStays(w, st, h, m);
      } else {
        NewClaimHasHolder(w, st, m);
      }
    }
  }

  lemma HolderStays<P>(w: World<P>, st: Step<P>, h: HandlerId, m: MessageId)
    requires KeepInv(w) && !Fault(w, st) && Holder(w, h, m) && Unsettled(w, m)
    requires m in Apply(w, st).claims && Unsettled(Apply(w, st), m)
    ensures Holder(Apply(w, st), h, m)
  {
    CopiesStay(w, st, w.handlers[h].copy);
    if Actor(st) != Some(h) { OthersStay(w, st, h); }
  }

  lemma NewClaimHasHolder<P>(w: World<P>, st: Step<P>, m: MessageId)
    requires KeepInv(w) && !Fault(w, st) && m !in w.claims && m in Apply(w, st).claims && Unsettled(w, m)
    ensures exists h :: Holder(Apply(w, st), h, m)
  {
    CopiesStay(w, st, w.handlers[st.h].copy);
    assert Holder(Apply(w, st), st.h, m);
  }

  // A live copy stays live unless it is the acting handler's own copy.
  lemma LiveStays<P>(w: World<P>, st: Step<P>, c: CopyId, m: MessageId)
    requires LiveCopy(w, c, m)
    requires forall h :: Actor(st) == Some(h) && h in w.handlers ==> w.handlers[h].copy != c
    ensures LiveCopy(Apply(w, st), c, m)
  {
    var w' := Apply(w, st);
    CopiesStay(w, st, c);
    forall g | g in w'.handlers && w'.handlers[g].copy == c ensures !w'.handlers[g].phase.Acking? {
      HandlersMove(w, st, g);
      if Actor(st) != Some(g) { OthersStay(w, st, g); }
    }
  }

  // The acting handler's own copy stays live while the handler does not settle it.
  lemma StillLive<P>(w: World<P>, st: Step<P>, h: HandlerId, m: MessageId)
    requires Actor(st) == Some(h) && h in w.handlers && LiveCopy(w, w.handlers[h].copy, m)
    requires h in Apply(w, st).handlers ==> !Apply(w, st).handlers[h].phase.Acking?
    requires !Apply(w, st).copies[w.handlers[h].copy].consumed
    ensures LiveCopy(Apply(w, st), w.handlers[h].copy, m)
  {
    var w', c := Apply(w, st), w.handlers[h].copy;
    CopiesStay(w, st, c);
    forall g | g in w'.handlers && w'.handlers[g].copy == c ensures !w'.handlers[g].phase.Acking? {
      HandlersMove(w, st, g);
      if g != h { OthersStay(w, st, g); }
    }
  }

  // A duplicate is let go only because another handler has the message.
  lemma DuplicateIsCovered<P>(w: World<P>, h: HandlerId, m: MessageId)
    requires KeepInv(w) && Works(w, h, Ready) && CopyOf(w, h).body.Json? && CopyOf(w, h).messageId == m
    requires m in w.claims && Unsettled(w, m)
    ensures LiveFor(Apply(w, Step<P>.Insert(h, Fine)), m)
  {
    assert ClaimAt(w, m) && HandAt(w, h);
    var g :| Holder(w, g, m);
    assert HandAt(w, g);
    var d := w.handlers[g].copy;
    assert LiveCopy(w, d, m);
    LiveStays(w, Step<P>.Insert(h, Fine), d, m);
  }

  // A copy just appended is live.
  lemma FreshIsLive<P>(w: World<P>, st: Step<P>)
    requires KeepInv(w) && |Apply(w, st).copies| > |w.copies|
    ensures LiveFor(Apply(w, st), Apply(w, st).copies[|w.copies|].messageId)
  {
    var w', n := Apply(w, st), |w.copies|;
    forall g | g in w'.handlers ensures w'.handlers[g].copy < n {
      HandlersMove(w, st, g);
      assert HandAt(w, g);
    }
    assert LiveCopy(w', n, w'.copies[n].messageId);
  }

  // Letting a copy go without a fault leaves another one live.
  lemma LetGoIsCovered<P>(w: World<P>, st: Step<P>, h: HandlerId, m: MessageId)
    requires Actor(st) == Some(h) && h in w.handlers && OtherLive(w, w.handlers[h].copy, m)
    ensures LiveFor(Apply(w, st), m)
  {
    var d: CopyId :| d != w.handlers[h].copy && LiveCopy(w, d, m);
    LiveStays(w, st, d, m);
  }

  lemma RouteSettles<P>(w: World<P>, h: HandlerId, fate: Fate, random: real, reason: string, m: MessageId)
    requires KeepInv(w) && !Fault(w, Route(h, fate, random, reason)) && MayRoute(w, h) && 0.0 <= random < 1.0
    requires LiveCopy(w, w.handlers[h].copy, m) && Unsettled(w, m)
    ensures Accounted(Apply(w, Route(h, fate, random, reason)), m)
  {
    var st := Route(h, fate, random, reason);
    CopiesStay(w, st, w.handlers[h].copy);
    if DeadLetters(w, h) {
      if fate.Refused? { LetGoIsCovered(w, st, h, m); } else { assert LetterFor(Apply(w, st), |w.dlq|, m); }
    } else if fate.Fine? {
      FreshIsLive(w, st);
    } else {
      StillLive(w, st, h, m);
    }
  }

  lemma OwnCopySettles<P>(w: World<P>, st: Step<P>, h: HandlerId, m: MessageId)
    requires KeepInv(w) && !Fault(w, st) && Actor(st) == Some(h) && h in w.handlers
    requires LiveCopy(w, w.handlers[h].copy, m) && Unsettled(w, m)
    ensures Accounted(Apply(w, st), m)
  {
    match st
    case Drop(_) => if Works(w, h, Received) { LetGoIsCovered(w, st, h, m); } else { StillLive(w, st, h, m); }
    case Insert(_, fate) =>
      if Works(w, h, Ready) && CopyOf(w, h).body.Json? && fate.Fine? && m in w.claims {
        DuplicateIsCovered(w, h, m);
      } else {
        StillLive(w, st, h, m);
      }
    case Deliver(_, ok) => if !(Works(w, h, Claimed) && ok) { StillLive(w, st, h, m); }
    case Route(_, fate, random, reason) =>
      if MayRoute(w, h) && 0.0 <= random < 1.0 {
        RouteSettles(w, h, fate, random, reason, m);
      } else {
        StillLive(w, st, h, m);
      }
    case _ => StillLive(w, st, h, m);
  }

  lemma AccountedStays<P>(w: World<P>, st: Step<P>, m: MessageId)
    requires KeepInv(w) && !Fault(w, st) && Accounted(w, m)
    ensures Accounted(Apply(w, st), m)
  {
    if !Unsettled(w, m) {
      SettledStays(w, st, m);
    } else {
      var c: CopyId :| LiveCopy(w, c, m);
      if Actor(st).Some? && Actor(st).value in w.handlers && w.handlers[Actor(st).value].copy == c {
        OwnCopySettles(w, st, Actor(st).value, m);
      } else {
        LiveStays(w, st, c, m);
      }
    }
  }

  lemma CopyAccountedStep<P>(w: World<P>, st: Step<P>, c: CopyId)
    requires KeepInv(w) && !Fault(w, st)
    ensures CopyAccounted(Apply(w, st), c)
  {
    if c < |w.copies| {
      assert CopyAccounted(w, c);
      CopiesStay(w, st, c);
      AccountedStays(w, st, w.copies[c].messageId);
    } else if c < |Apply(w, st).copies| {
      FreshIsLive(w, st);
    }
  }

  lemma KeepStep<P>(w: World<P>, st: Step<P>)
    requires KeepInv(w) && !Fault(w, st)
    ensures KeepInv(Apply(w, st))
  {
    var w' := Apply(w, st);
    OnceStep(w, st);
    LettersStep(w, st);
    forall m ensures ClaimAt(w', m) { ClaimStep(w, st, m); }
    forall h ensures HandAt(w', h) { HandStep(w, st, h); }
    forall c: CopyId ensures CopyAccounted(w', c) { CopyAccountedStep(w, st, c); }
  }

  lemma {:induction false} KeepRun<P>(w: World<P>, steps: seq<Step<P>>)
    requires KeepInv(w) && FaultFree(w, steps)
    ensures KeepInv(Run(w, steps))
  {
    if steps == [] {
    } else {
      KeepRun(w, steps[..|steps| - 1]);
      KeepStep(Run(w, steps[..|steps| - 1]), steps[|steps| - 1]);
    }
  }

  // Without these faults every message that ever reached a topic is, in every reachable state, sent,
  // in the dead-letter topic, or still to be dealt with: waiting unconsumed, or in the hands of a
  // handler that has not settled it. Races between duplicate copies, throwing handlers and
  // redelivery change nothing.
  lemma {:induction false} EveryMessageAccountedFor<P>(cfg: Config, steps: seq<Step<P>>, c: CopyId)
    requires FaultFree(Init(cfg), steps) && c < |Run(Init(cfg), steps).copies|
    ensures var w := Run(Init(cfg), steps);
      var m := w.copies[c].messageId;
      && (m in w.sent || Dead(w, m) || LiveFor(w, m))
      && (m in w.claims && m !in w.sent && !Dead(w, m) ==> exists h :: Holder(w, h, m))
  {
    KeepRun(Init(cfg), steps);
    var w := Run(Init(cfg), steps);
    assert CopyAccounted(w, c) && ClaimAt(w, w.copies[c].messageId);
  }

  // Once everything is consumed, every message was sent (once) or is in the dead-letter topic.
  lemma {:induction false} DrainedMeansSentOrDead<P>(cfg: Config, steps: seq<Step<P>>, c: CopyId)
    requires FaultFree(Init(cfg), steps)
    requires forall k: nat :: k < |Run(Init(cfg), steps).copies| ==> Run(Init(cfg), steps).copies[k].consumed
    requires c < |Run(Init(cfg), steps).copies|
    ensures var w := Run(Init(cfg), steps);
      w.copies[c].messageId in w.sent || Dead(w, w.copies[c].messageId)
  {
    EveryMessageAccountedFor(cfg, steps, c);
  }
}
