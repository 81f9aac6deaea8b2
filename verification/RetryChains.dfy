/** How often and how late the copies of one message are handled. */
module RetryChains {
  import opened Arithmetic
  import opened Notifications
  import opened RetryPolicy
  import opened Wrappers

  ghost predicate ChainAt<P>(w: World<P>, c: CopyId)
    requires c < |w.copies|
  {
    var copy := w.copies[c];
    && copy.scheduledAt <= w.now
    && match copy.parent
       case None => copy.topic.Main? && copy.attempts == 0
       case Some(p) =>
         && p < c && copy.topic.Retry? && copy.attempts == w.copies[p].attempts + 1
         && 1 <= copy.attempts < w.cfg.maxAttempts
         && copy.messageId == w.copies[p].messageId && copy.eventType == w.copies[p].eventType
         && copy.body == w.copies[p].body
         && exists random :: 0.0 <= random < 1.0 && copy.retryAt == copy.scheduledAt
              + ComputeBackoffMs(copy.attempts, w.cfg.retryBaseMs, w.cfg.retryMaxMs, random)
  }

  ghost predicate EarlyAt<P>(w: World<P>, h: HandlerId) {
    h in w.handlers ==>
      && w.handlers[h].copy < |w.copies|
      && (CopyOf(w, h).topic.Retry? && (w.handlers[h].phase.Ready? || w.handlers[h].phase.Claimed?) ==>
            CopyOf(w, h).retryAt <= w.now)
  }

  ghost predicate ChainInv<P>(w: World<P>) {
    && (forall c: CopyId {:trigger ChainAt(w, c)} :: c < |w.copies| ==> ChainAt(w, c))
    && (forall h {:trigger EarlyAt(w, h)} :: EarlyAt(w, h))
  }

  lemma ClockRises<P>(w: World<P>, st: Step<P>)
    ensures Apply(w, st).now >= w.now && Apply(w, st).cfg == w.cfg
  {
  }

  // A new copy starts a message, or is scheduled by the handler that failed on its parent.
  lemma NewCopy<P>(w: World<P>, st: Step<P>, c: CopyId)
    requires |w.copies| <= c < |Apply(w, st).copies|
    ensures Apply(w, st).now == w.now && (st.Arrive? || (st.Route? && MayRoute(w, st.h) && 0.0 <= st.random < 1.0))
    ensures st.Arrive? ==>
      Apply(w, st).copies[c] == Copy(Main, st.messageId, st.eventType, st.body, 0, 0, None, w.now, false)
    ensures st.Route? ==> !DeadLetters(w, st.h) && Apply(w, st).copies[c] == Again(w, st.h, st.random)
  {
  }

  lemma ChainAtStep<P>(w: World<P>, st: Step<P>, c: CopyId)
    requires ChainInv(w) && c < |Apply(w, st).copies|
    ensures ChainAt(Apply(w, st), c)
  {
    hide Apply;
    ClockRises(w, st);
    if c < |w.copies| {
      assert ChainAt(w, c);
      CopiesStay(w, st, c);
      if w.copies[c].parent.Some? { CopiesStay(w, st, w.copies[c].parent.value); }
    } else {
      NewCopy(w, st, c);
      if st.Route? {
        CopiesStay(w, st, w.handlers[st.h].copy);
        assert ChainAt(w, w.handlers[st.h].copy);
      }
    }
  }

  lemma EarlyStep<P>(w: World<P>, st: Step<P>, h: HandlerId)
    requires ChainInv(w)
    ensures EarlyAt(Apply(w, st), h)
  {
    assert EarlyAt(w, h);
    if h in w.handlers { CopiesStay(w, st, w.handlers[h].copy); }
    if Actor(st) != Some(h) { OthersStay(w, st, h); }
  }

  lemma ChainStep<P>(w: World<P>, st: Step<P>)
    requires ChainInv(w)
    ensures ChainInv(Apply(w, st)) && Apply(w, st).cfg == w.cfg
  {
    hide Apply;
    ClockRises(w, st);
    forall c: CopyId | c < |Apply(w, st).copies| ensures ChainAt(Apply(w, st), c) { ChainAtStep(w, st, c); }
    forall h ensures EarlyAt(Apply(w, st), h) { EarlyStep(w, st, h); }
  }

  lemma {:induction false} ChainRun<P>(cfg: Config, steps: seq<Step<P>>)
    ensures ChainInv(Run(Init(cfg), steps)) && Run(Init(cfg), steps).cfg == cfg
  {
    if steps != [] {
      ChainRun(cfg, steps[..|steps| - 1]);
      ChainStep(Run(Init(cfg), steps[..|steps| - 1]), steps[|steps| - 1]);
    }
  }

  // The copies handled on the way to copy c, oldest first, ending with c itself.
  ghost function Chain<P>(w: World<P>, c: CopyId): seq<CopyId>
    requires ChainInv(w) && c < |w.copies|
    decreases c
  {
    assert ChainAt(w, c);
    if w.copies[c].parent.None? then [c] else Chain(w, w.copies[c].parent.value) + [c]
  }

  // Along a chain the message keeps its id, type and body; attempts counts the links; and the
  // chain, hence the number of handlings of one main-topic copy, is at most max(1, maxAttempts).
  lemma {:induction false} RetryChain<P>(w: World<P>, c: CopyId)
    requires ChainInv(w) && c < |w.copies|
    ensures var chain := Chain(w, c);
      && 1 <= |chain| <= Max(1, w.cfg.maxAttempts)
      && chain[|chain| - 1] == c && |chain| == w.copies[c].attempts + 1
      && chain[0] < |w.copies| && w.copies[chain[0]].topic.Main?
      && forall k :: 0 <= k < |chain| ==> SameMessage(w, chain[k], c) && w.copies[chain[k]].attempts == k
    decreases c
  {
    assert ChainAt(w, c);
    if w.copies[c].parent.Some? { RetryChain(w, w.copies[c].parent.value); }
  }

  ghost predicate SameMessage<P>(w: World<P>, a: CopyId, b: CopyId) {
    a < |w.copies| && b < |w.copies|
    && w.copies[a].messageId == w.copies[b].messageId && w.copies[a].eventType == w.copies[b].eventType
    && w.copies[a].body == w.copies[b].body
  }

  lemma {:induction false} RetryChainsAreBounded<P>(cfg: Config, steps: seq<Step<P>>, c: CopyId)
    requires c < |Run(Init(cfg), steps).copies|
    ensures var w := Run(Init(cfg), steps);
      && ChainInv(w)
      && |Chain(w, c)| <= Max(1, cfg.maxAttempts) && |Chain(w, c)| == w.copies[c].attempts + 1
      && forall k :: 0 <= k < |Chain(w, c)| ==> SameMessage(w, Chain(w, c)[k], c)
  {
    ChainRun(cfg, steps);
    RetryChain(Run(Init(cfg), steps), c);
  }

  // Every retry waits for a delay inside the capped exponential window of its attempt, and no
  // retry is handled before it is due.
  lemma RetriesWait<P>(cfg: Config, steps: seq<Step<P>>, h: HandlerId)
    requires cfg.retryBaseMs >= 0 && cfg.retryMaxMs >= 0
    requires h in Run(Init(cfg), steps).handlers
    requires var w := Run(Init(cfg), steps);
      Works(w, h, Claimed) && CopyOf(w, h).topic.Retry?
    ensures var w := Run(Init(cfg), steps);
      var copy := CopyOf(w, h);
      && copy.retryAt <= w.now
      && 0 <= copy.retryAt - copy.scheduledAt <= Window(copy.attempts, cfg.retryBaseMs, cfg.retryMaxMs)
      && Window(copy.attempts, cfg.retryBaseMs, cfg.retryMaxMs) <= cfg.retryMaxMs
  {
    ChainRun(cfg, steps);
    var w := Run(Init(cfg), steps);
    assert EarlyAt(w, h) && ChainAt(w, w.handlers[h].copy);
    var copy := CopyOf(w, h);
    var random :| 0.0 <= random < 1.0 && copy.retryAt == copy.scheduledAt
      + ComputeBackoffMs(copy.attempts, cfg.retryBaseMs, cfg.retryMaxMs, random);
    BackoffInWindow(copy.attempts, cfg.retryBaseMs, cfg.retryMaxMs, random);
  }

  // ---------- Dead letters ----------

  // A dead letter is made from a copy; one that could be parsed had its attempts spent.
  ghost predicate LetterAt<P>(w: World<P>, i: nat) {
    i < |w.dlq| ==>
      var letter := w.dlq[i];
      && letter.source < |w.copies| && letter.raw == w.copies[letter.source].body
      && letter.originalTopic == w.copies[letter.source].topic
      && (letter.raw.Json? ==>
            letter.attempts == w.copies[letter.source].attempts + 1 && letter.attempts >= w.cfg.maxAttempts)
  }

  lemma LetterStep<P>(w: World<P>, st: Step<P>, i: nat)
    requires LetterAt(w, i)
    ensures LetterAt(Apply(w, st), i)
  {
    if i < |w.dlq| {
      CopiesStay(w, st, w.dlq[i].source);
      LettersStay(w, st, i);
      ClockRises(w, st);
    } else if i < |Apply(w, st).dlq| {
      NewLetter(w, st, i);
    }
  }

  lemma LettersStay<P>(w: World<P>, st: Step<P>, i: nat)
    requires i < |w.dlq|
    ensures i < |Apply(w, st).dlq| && Apply(w, st).dlq[i] == w.dlq[i]
  {
  }

  lemma NewLetter<P>(w: World<P>, st: Step<P>, i: nat)
    requires |w.dlq| <= i < |Apply(w, st).dlq|
    ensures LetterAt(Apply(w, st), i)
  {
  }

  lemma {:induction false} LetterRun<P>(cfg: Config, steps: seq<Step<P>>, i: nat)
    ensures LetterAt(Run(Init(cfg), steps), i)
  {
    if steps == [] {
    } else {
      LetterRun(cfg, steps[..|steps| - 1], i);
      LetterStep(Run(Init(cfg), steps[..|steps| - 1]), steps[|steps| - 1], i);
    }
  }

  // A message that can be parsed goes to the dead-letter topic after exactly max(1, maxAttempts)
  // handlings: as many copies are on its chain, and that is the number on the record.
  lemma {:induction false} DeadLettersSpentTheirAttempts<P>(cfg: Config, steps: seq<Step<P>>, i: nat)
    requires var w := Run(Init(cfg), steps); i < |w.dlq| && w.dlq[i].raw.Json?
    ensures var w := Run(Init(cfg), steps);
      var letter := w.dlq[i];
      && letter.source < |w.copies| && letter.raw == w.copies[letter.source].body && ChainInv(w)
      && letter.attempts == |Chain(w, letter.source)| == Max(1, cfg.maxAttempts)
  {
    ChainRun(cfg, steps);
    LetterRun(cfg, steps, i);
    RetryChain(Run(Init(cfg), steps), Run(Init(cfg), steps).dlq[i].source);
  }
}
