/**
 Every fault loses its message: from any fault-free run that a fault follows there is a continuation
 without another fault after which the message is gone.
 */
module NotificationFaults {
  import opened Arithmetic
  import opened NotificationLoss
  import opened Notifications
  import opened Wrappers

  // One more step of a continuation.
  lemma Extend<P>(w0: World<P>, more: seq<Step<P>>, w: World<P>, st: Step<P>)
    returns (longer: seq<Step<P>>, next: World<P>)
    requires Reached(w0, more, w) && !Fault(w, st)
    ensures longer == more + [st] && next == Apply(w, st) && Reached(w0, longer, next)
  {
    hide Apply;
    hide Fault;
    longer, next := more + [st], Apply(w, st);
    RunSnoc(w0, more, st);
    assert longer[..|more|] == more;
  }

  ghost predicate Reached<P>(w0: World<P>, more: seq<Step<P>>, w: World<P>) {
    w == Run(w0, more) && FaultFree(w0, more)
  }

  // ---------- Letting go of what nobody will look at ----------

  ghost predicate AckingOn<P>(w: World<P>, h: HandlerId, c: CopyId) {
    h in w.handlers && w.handlers[h].copy == c && w.handlers[h].phase.Acking?
  }

  // Copy c is consumed, or about to be.
  ghost predicate LetGo<P>(w: World<P>, c: CopyId) {
    c < |w.copies| && !w.copies[c].consumed ==> exists h :: AckingOn(w, h, c)
  }

  ghost predicate OnCopies<P>(w: World<P>) {
    forall h :: h in w.handlers ==> w.handlers[h].copy < |w.copies|
  }

  ghost predicate NoHolder<P>(w: World<P>, m: MessageId) {
    forall h :: !Holder(w, h, m)
  }

  // Unsettled, with every copy let go and nobody holding the claim.
  ghost predicate Abandoned<P>(w: World<P>, m: MessageId) {
    && Unsettled(w, m) && LettersOk(w) && OnCopies(w) && NoHolder(w, m)
    && (exists c: CopyId :: CopyFor(w, c, m))
    && (forall c: CopyId {:trigger CopyFor(w, c, m)} :: CopyFor(w, c, m) ==> LetGo(w, c))
  }

  // Steps that neither send nor dead-letter nor add copies leave a message unsettled.
  lemma UnsettledStays<P>(w: World<P>, v: World<P>, m: MessageId)
    requires Unsettled(w, m) && LettersOk(w) && v.sent == w.sent && v.dlq == w.dlq && |w.copies| <= |v.copies|
    requires forall c: CopyId :: c < |w.copies| ==>
      v.copies[c].messageId == w.copies[c].messageId && v.copies[c].body == w.copies[c].body
    ensures Unsettled(v, m)
  {
    if Dead(v, m) {
      var i: nat :| LetterFor(v, i, m);
      assert LetterFor(w, i, m);
      assert false;
    }
  }

  function Leaving<P>(w: World<P>, h: HandlerId): Step<P>
    requires h in w.handlers
  {
    if w.handlers[h].phase.Acking? then Ack(h) else Crash(h)
  }

  lemma LeavingAbandons<P>(w: World<P>, h: HandlerId, m: MessageId)
    requires Abandoned(w, m) && WorksOn(w, h, m)
    ensures !Fault(w, Leaving(w, h)) && Abandoned(Apply(w, Leaving(w, h)), m)
    ensures Apply(w, Leaving(w, h)).handlers.Keys == w.handlers.Keys - {h}
  {
    assert !Holder(w, h, m);
    var v := Apply(w, Leaving(w, h));
    assert v.handlers == Leave(w.handlers, h);
    UnsettledStays(w, v, m);
    forall g ensures !Holder(v, g, m) { assert !Holder(w, g, m); }
    assert CopyFor(v, w.handlers[h].copy, m);
    forall c: CopyId | CopyFor(v, c, m) ensures LetGo(v, c) {
      assert CopyFor(w, c, m);
      if c < |v.copies| && !v.copies[c].consumed {
        var g :| AckingOn(w, g, c);
        assert AckingOn(v, g, c);
      }
    }
  }

  // Acknowledge what is acknowledged, let the rest die: the message is gone.
  lemma {:induction false} Drain<P>(w0: World<P>, more: seq<Step<P>>, w: World<P>, m: MessageId)
    returns (longer: seq<Step<P>>)
    requires Reached(w0, more, w) && Abandoned(w, m)
    ensures FaultFree(w0, longer) && Gone(Run(w0, longer), m)
    decreases w.handlers.Keys
  {
    if h :| WorksOn(w, h, m) {
      LeavingAbandons(w, h, m);
      var v;
      longer, v := Extend(w0, more, w, Leaving(w, h));
      longer := Drain(w0, longer, v, m);
    } else {
      longer := more;
      forall c: CopyId | CopyFor(w, c, m) ensures w.copies[c].consumed {
        if !w.copies[c].consumed {
          var h :| AckingOn(w, h, c);
          assert WorksOn(w, h, m);
          assert false;
        }
      }
    }
  }

  // ---------- Evicting handlers ----------

  function Evicted<P>(w: World<P>, h: HandlerId): World<P>
    requires h in w.handlers && w.handlers[h].copy < |w.copies|
  {
    w.(handlers := Leave(w.handlers, h),
       claims := if HoldsClaim(w.handlers[h].phase) then w.claims - {CopyOf(w, h).messageId} else w.claims)
  }

  // A handler that fails to deliver, takes its claim back and dies.
  lemma EvictOne<P>(w0: World<P>, more: seq<Step<P>>, w: World<P>, h: HandlerId)
    returns (longer: seq<Step<P>>, v: World<P>)
    requires Reached(w0, more, w) && h in w.handlers && w.handlers[h].copy < |w.copies|
    ensures Reached(w0, longer, v) && v == Evicted(w, h)
  {
    hide Reached;
    longer, v := more, w;
    if w.handlers[h].phase.Claimed? { longer, v := Extend(w0, longer, v, Deliver(h, false)); }
    if v.handlers[h].phase.Undelivered? { longer, v := Extend(w0, longer, v, Unclaim(h, true)); }
    longer, v := Extend(w0, longer, v, Crash(h));
    assert v.handlers == Leave(w.handlers, h);
  }

  // v is w without the handlers on m that are not to be kept.
  ghost predicate Cleared<P>(w: World<P>, v: World<P>, m: MessageId, keep: set<HandlerId>) {
    && v == w.(handlers := v.handlers, claims := v.claims)
    && v.claims <= w.claims && w.claims <= v.claims + {m}
    && (forall h :: h in v.handlers <==> h in w.handlers && (h in keep || !WorksOn(w, h, m)))
    && (forall h :: h in v.handlers ==> v.handlers[h] == w.handlers[h])
    && (m in v.claims ==> forall h :: Holder(w, h, m) ==> h in keep)
    && ((forall h :: Holder(w, h, m) ==> h in keep) ==> v.claims == w.claims)
  }

  lemma {:induction false} Clear<P>(w0: World<P>, more: seq<Step<P>>, w: World<P>, m: MessageId, keep: set<HandlerId>)
    returns (longer: seq<Step<P>>, v: World<P>)
    requires Reached(w0, more, w)
    ensures Reached(w0, longer, v) && Cleared(w, v, m, keep)
    decreases w.handlers.Keys
  {
    hide Reached;
    if h :| WorksOn(w, h, m) && h !in keep {
      var u;
      longer, u := EvictOne(w0, more, w, h);
      assert u.handlers.Keys == w.handlers.Keys - {h};
      longer, v := Clear(w0, longer, u, m, keep);
      ClearedAfter(w, h, v, m, keep);
    } else {
      longer, v := more, w;
    }
  }

  lemma ClearedAfter<P>(w: World<P>, h: HandlerId, v: World<P>, m: MessageId, keep: set<HandlerId>)
    requires WorksOn(w, h, m) && h !in keep && Cleared(Evicted(w, h), v, m, keep)
    ensures Cleared(w, v, m, keep)
  {
    var u := Evicted(w, h);
    forall g ensures g != h ==> (WorksOn(u, g, m) <==> WorksOn(w, g, m)) && (Holder(u, g, m) <==> Holder(w, g, m)) {}
    assert !Holder(u, h, m);
    if Holder(w, h, m) { assert m !in u.claims; }
  }

  // ---------- Letting go of every copy under cover of a new one ----------

  ghost predicate NobodyOn<P>(w: World<P>, c: CopyId) {
    forall h :: h in w.handlers ==> w.handlers[h].copy != c
  }

  // m's claim is taken, `cover` is a live copy of it nobody is on, and every other copy is let go
  // or has nobody on it.
  ghost predicate Covered<P>(w: World<P>, m: MessageId, cover: CopyId) {
    && Unsettled(w, m) && LettersOk(w) && OnCopies(w) && m in w.claims
    && LiveCopy(w, cover, m) && w.copies[cover].topic.Main? && w.copies[cover].body.Json? && NobodyOn(w, cover)
    && (forall d: CopyId {:trigger CopyFor(w, d, m)} :: CopyFor(w, d, m) && d != cover ==>
          LetGo(w, d) || NobodyOn(w, d))
  }

  // v is w with more handlers that only have their offset left to commit.
  ghost predicate MoreAcking<P>(w: World<P>, v: World<P>) {
    && v == w.(handlers := v.handlers)
    && (forall h :: h in w.handlers ==> h in v.handlers && v.handlers[h] == w.handlers[h])
    && (forall h :: h in v.handlers && h !in w.handlers ==> v.handlers[h].phase.Acking?)
  }

  lemma MoreAckingKeeps<P>(w: World<P>, v: World<P>, m: MessageId)
    requires MoreAcking(w, v)
    ensures forall d: CopyId :: LetGo(w, d) ==> LetGo(v, d)
    ensures forall h :: Holder(v, h, m) <==> Holder(w, h, m)
    ensures Unsettled(w, m) && LettersOk(w) ==> Unsettled(v, m) && LettersOk(v)
  {
    forall d: CopyId | LetGo(w, d) ensures LetGo(v, d) {
      if d < |w.copies| && !w.copies[d].consumed {
        var h :| AckingOn(w, h, d);
        assert AckingOn(v, h, d);
      }
    }
    if Unsettled(w, m) && LettersOk(w) { UnsettledStays(w, v, m); }
  }

  // Somebody takes the copy and drops it.
  lemma LetGoOne<P>(w0: World<P>, more: seq<Step<P>>, w: World<P>, m: MessageId, cover: CopyId, d: CopyId)
    returns (longer: seq<Step<P>>, v: World<P>)
    requires Reached(w0, more, w) && Covered(w, m, cover) && CopyFor(w, d, m) && d != cover && !LetGo(w, d)
    ensures Reached(w0, longer, v) && MoreAcking(w, v) && Covered(v, m, cover) && LetGo(v, d)
  {
    hide Reached;
    var q := SpareId(w.handlers.Keys);
    assert q !in w.handlers;
    longer, v := Extend(w0, more, w, Take(q, d));
    assert v == w.(handlers := w.handlers[q := Handler(d, Received)]);
    UnsettledStays(w, v, m);
    assert LiveCopy(v, cover, m);
    longer, v := Extend(w0, longer, v, Drop(q));
    assert v.handlers == w.handlers[q := Handler(d, Acking)];
    assert AckingOn(v, q, d);
    StaysCovered(w, v, q, m, cover, d);
  }

  lemma StaysCovered<P>(w: World<P>, v: World<P>, q: HandlerId, m: MessageId, cover: CopyId, d: CopyId)
    requires Covered(w, m, cover) && CopyFor(w, d, m) && d != cover && q !in w.handlers
    requires v == w.(handlers := w.handlers[q := Handler(d, Acking)])
    ensures MoreAcking(w, v) && Covered(v, m, cover)
  {
    MoreAckingKeeps(w, v, m);
    assert AckingOn(v, q, d);
    forall e: CopyId | CopyFor(v, e, m) && e != cover ensures LetGo(v, e) || NobodyOn(v, e) {
      assert CopyFor(w, e, m);
    }
  }

  ghost predicate GoBelow<P>(w: World<P>, m: MessageId, cover: CopyId, k: nat) {
    forall d: CopyId {:trigger CopyFor(w, d, m)} :: d < k && d != cover && CopyFor(w, d, m) ==> LetGo(w, d)
  }

  lemma OneMoreBelow<P>(w: World<P>, u: World<P>, v: World<P>, m: MessageId, cover: CopyId, k: nat)
    requires MoreAcking(w, u) && MoreAcking(u, v) && GoBelow(u, m, cover, k)
    requires CopyFor(v, k, m) && k != cover ==> LetGo(v, k)
    ensures MoreAcking(w, v) && GoBelow(v, m, cover, k + 1)
  {
    MoreAckingKeeps(u, v, m);
    forall d: CopyId | d < k + 1 && d != cover && CopyFor(v, d, m) ensures LetGo(v, d) { assert CopyFor(u, d, m); }
  }

  // All copies below k but the cover.
  lemma {:induction false} LetGoBelow<P>(w0: World<P>, more: seq<Step<P>>, w: World<P>, m: MessageId, cover: CopyId,
                                         k: nat)
    returns (longer: seq<Step<P>>, v: World<P>)
    requires Reached(w0, more, w) && Covered(w, m, cover) && k <= |w.copies|
    ensures Reached(w0, longer, v) && MoreAcking(w, v) && Covered(v, m, cover) && GoBelow(v, m, cover, k)
  {
    hide Reached;
    if k == 0 {
      longer, v := more, w;
    } else {
      var u;
      longer, u := LetGoBelow(w0, more, w, m, cover, k - 1);
      v := u;
      if CopyFor(u, k - 1, m) && k - 1 != cover && !LetGo(u, k - 1) {
        longer, v := LetGoOne(w0, longer, u, m, cover, k - 1);
      }
      OneMoreBelow(w, u, v, m, cover, k - 1);
    }
  }

  // The cover itself goes as a duplicate, because the claim is taken.
  lemma CoverGoes<P>(w0: World<P>, more: seq<Step<P>>, w: World<P>, m: MessageId, cover: CopyId)
    returns (longer: seq<Step<P>>, v: World<P>)
    requires Reached(w0, more, w) && Covered(w, m, cover)
    ensures Reached(w0, longer, v) && MoreAcking(w, v) && LetGo(v, cover) && OnCopies(v)
  {
    hide Reached;
    var q := SpareId(w.handlers.Keys);
    assert q !in w.handlers;
    longer, v := Extend(w0, more, w, Take(q, cover));
    assert v.handlers == w.handlers[q := Handler(cover, Received)];
    longer, v := Extend(w0, longer, v, Wake(q));
    assert v.handlers == w.handlers[q := Handler(cover, Ready)];
    longer, v := Extend(w0, longer, v, Insert(q, Fine));
    assert v.handlers == w.handlers[q := Handler(cover, Acking)];
    assert AckingOn(v, q, cover);
  }

  // Every copy is let go.
  lemma AllGo<P>(w0: World<P>, more: seq<Step<P>>, w: World<P>, m: MessageId, cover: CopyId)
    returns (longer: seq<Step<P>>, v: World<P>)
    requires Reached(w0, more, w) && Covered(w, m, cover)
    ensures Reached(w0, longer, v) && MoreAcking(w, v) && OnCopies(v)
    ensures forall d: CopyId {:trigger CopyFor(v, d, m)} :: CopyFor(v, d, m) ==> LetGo(v, d)
  {
    hide Reached;
    var u;
    longer, u := LetGoBelow(w0, more, w, m, cover, |w.copies|);
    longer, v := CoverGoes(w0, longer, u, m, cover);
    MoreAckingKeeps(u, v, m);
    forall d: CopyId | CopyFor(v, d, m) ensures LetGo(v, d) { assert CopyFor(u, d, m); }
  }

  // If nobody holds the claim, the message is gone.
  lemma NobodyClaims<P>(w0: World<P>, more: seq<Step<P>>, w: World<P>, m: MessageId, cover: CopyId)
    returns (longer: seq<Step<P>>)
    requires Reached(w0, more, w) && Covered(w, m, cover) && NoHolder(w, m)
    ensures FaultFree(w0, longer) && Gone(Run(w0, longer), m)
  {
    hide Reached;
    var v;
    longer, v := AllGo(w0, more, w, m, cover);
    MoreAckingKeeps(w, v, m);
    assert CopyFor(v, cover, m);
    longer := Drain(w0, longer, v, m);
  }

  // If only x does, on a copy that is let go, x fails to deliver and takes its claim back too late.
  lemma ClaimantFails<P>(w0: World<P>, more: seq<Step<P>>, w: World<P>, m: MessageId, cover: CopyId, x: HandlerId)
    returns (longer: seq<Step<P>>)
    requires Reached(w0, more, w) && Covered(w, m, cover) && Holder(w, x, m)
    requires forall h :: Holder(w, h, m) ==> h == x
    ensures FaultFree(w0, longer) && Gone(Run(w0, longer), m)
  {
    hide Reached;
    var u;
    longer, u := AllGo(w0, more, w, m, cover);
    MoreAckingKeeps(w, u, m);
    assert CopyFor(u, cover, m) && Holder(u, x, m);
    var v;
    longer, v := TakeBack(w0, longer, u, x);
    TakenBack(u, v, x, m);
    longer := Drain(w0, longer, v, m);
  }

  lemma TakeBack<P>(w0: World<P>, more: seq<Step<P>>, w: World<P>, x: HandlerId)
    returns (longer: seq<Step<P>>, v: World<P>)
    requires Reached(w0, more, w) && x in w.handlers && w.handlers[x].copy < |w.copies|
    requires HoldsClaim(w.handlers[x].phase)
    ensures Reached(w0, longer, v)
    ensures v == w.(handlers := w.handlers[x := w.handlers[x].(phase := Failing)],
                    claims := w.claims - {CopyOf(w, x).messageId})
  {
    hide Reached;
    longer, v := more, w;
    if w.handlers[x].phase.Claimed? { longer, v := Extend(w0, longer, v, Deliver(x, false)); }
    longer, v := Extend(w0, longer, v, Unclaim(x, true));
  }

  lemma TakenBack<P>(u: World<P>, v: World<P>, x: HandlerId, m: MessageId)
    requires Unsettled(u, m) && LettersOk(u) && OnCopies(u) && Holder(u, x, m)
    requires forall h :: Holder(u, h, m) ==> h == x
    requires forall d: CopyId {:trigger CopyFor(u, d, m)} :: CopyFor(u, d, m) ==> LetGo(u, d)
    requires v == u.(handlers := u.handlers[x := u.handlers[x].(phase := Failing)], claims := v.claims)
    ensures Abandoned(v, m)
  {
    UnsettledStays(u, v, m);
    forall h ensures !Holder(v, h, m) { if h != x { assert Holder(v, h, m) ==> Holder(u, h, m); } }
    assert CopyFor(v, u.handlers[x].copy, m);
    forall d: CopyId | CopyFor(v, d, m) ensures LetGo(v, d) {
      assert CopyFor(u, d, m);
      if !u.copies[d].consumed {
        var h :| AckingOn(u, h, d);
        assert AckingOn(v, h, d);
      }
    }
  }

  // ---------- The faults ----------

  // m's claim is left behind: taken, m unsettled, and nobody holds it.
  ghost predicate Orphaned<P>(w: World<P>, m: MessageId) {
    Unsettled(w, m) && LettersOk(w) && OnCopies(w) && m in w.claims && NoHolder(w, m)
  }

  // A new copy arrives, and is live.
  lemma Cover<P>(w0: World<P>, more: seq<Step<P>>, w: World<P>, m: MessageId, body: P)
    returns (longer: seq<Step<P>>, v: World<P>, cover: CopyId)
    requires Reached(w0, more, w) && Unsettled(w, m) && LettersOk(w) && OnCopies(w)
    ensures Reached(w0, longer, v) && Unsettled(v, m) && LettersOk(v) && OnCopies(v)
    ensures v == w.(copies := v.copies) && cover == |w.copies| && w.copies <= v.copies && |v.copies| == cover + 1
    ensures LiveCopy(v, cover, m) && v.copies[cover].topic.Main? && v.copies[cover].body.Json? && NobodyOn(v, cover)
  {
    hide Reached;
    longer, v := Extend(w0, more, w, Arrive(m, "", Json(body)));
    cover := |w.copies|;
    UnsettledStays(w, v, m);
  }

  lemma OrphanLoses<P>(w0: World<P>, more: seq<Step<P>>, w: World<P>, m: MessageId, body: P)
    returns (longer: seq<Step<P>>)
    requires Reached(w0, more, w) && Orphaned(w, m)
    ensures FaultFree(w0, longer) && Gone(Run(w0, longer), m)
  {
    hide Reached;
    var u, v, cover;
    longer, u := Clear(w0, more, w, m, {});
    UnsettledStays(w, u, m);
    assert u.claims == w.claims;
    longer, v, cover := Cover(w0, longer, u, m, body);
    forall h ensures !Holder(v, h, m) { assert !WorksOn(u, h, m); }
    forall d: CopyId | CopyFor(v, d, m) && d != cover ensures NobodyOn(v, d) {
      forall h | h in v.handlers ensures v.handlers[h].copy != d { assert !WorksOn(u, h, m); }
    }
    longer := NobodyClaims(w0, longer, v, m, cover);
  }

  // A copy let go while it was the last live one.
  lemma LastCopyGone<P>(w: World<P>, st: Step<P>, h: HandlerId)
    requires KeepInv(w) && Fault(w, st) && (st.Drop? || st.Route?) && st.h == h
    ensures Abandoned(Apply(w, st), CopyOf(w, h).messageId)
  {
    var m, c, v := CopyOf(w, h).messageId, w.handlers[h].copy, Apply(w, st);
    LettersStep(w, st);
    UnsettledStays(w, v, m);
    assert AckingOn(v, h, c);
    assert CopyFor(v, c, m);
    forall d: CopyId | CopyFor(v, d, m) ensures LetGo(v, d) {
      if d != c { OthersGone(w, v, h, d, m); }
    }
    forall g ensures !Holder(v, g, m) {
      if Holder(w, g, m) { HolderIsLive(w, g, m); }
    }
    forall g | g in v.handlers ensures v.handlers[g].copy < |v.copies| { assert HandAt(w, g); }
  }

  lemma OthersGone<P>(w: World<P>, v: World<P>, h: HandlerId, d: CopyId, m: MessageId)
    requires h in w.handlers && w.handlers[h].copy != d && CopyFor(w, d, m) && !OtherLive(w, w.handlers[h].copy, m)
    requires v.copies == w.copies && h in v.handlers && v.handlers == w.handlers[h := v.handlers[h]]
    ensures LetGo(v, d)
  {
    if !w.copies[d].consumed {
      assert !LiveCopy(w, d, m);
      var g :| g in w.handlers && w.handlers[g].copy == d && w.handlers[g].phase.Acking?;
      assert AckingOn(v, g, d);
    }
  }

  // Who holds the claim of an unsettled message keeps its copy live.
  lemma HolderIsLive<P>(w: World<P>, g: HandlerId, m: MessageId)
    requires KeepInv(w) && Holder(w, g, m) && Unsettled(w, m)
    ensures LiveCopy(w, w.handlers[g].copy, m)
    ensures forall h :: h in w.handlers && w.handlers[h].copy == w.handlers[g].copy ==> h == g
  {
    assert HandAt(w, g);
  }

  // A claim left behind by a crash, a failed delete or an insert that reported an error.
  lemma ClaimOrphaned<P>(w: World<P>, st: Step<P>, h: HandlerId)
    requires KeepInv(w) && Fault(w, st) && (st.Crash? || st.Unclaim? || st.Insert?) && st.h == h
    ensures h in w.handlers && w.handlers[h].copy < |w.copies|
    ensures CopyOf(w, h).body.Json? && Orphaned(Apply(w, st), CopyOf(w, h).messageId)
  {
    var m, v := CopyOf(w, h).messageId, Apply(w, st);
    assert HandAt(w, h) && HolderAt(w, h);
    LettersStep(w, st);
    UnsettledStays(w, v, m);
    forall g ensures !Holder(v, g, m) {
      assert HolderAt(w, g) && SoleHolder(w, g, h);
    }
    forall g | g in v.handlers ensures v.handlers[g].copy < |v.copies| { assert HandAt(w, g); }
  }

  // ---------- Two handlers on one copy ----------

  predicate Early(phase: Phase) {
    phase.Received? || phase.Ready? || HoldsClaim(phase)
  }

  ghost predicate UnderCover<P>(w: World<P>, m: MessageId, cover: CopyId) {
    && Unsettled(w, m) && LettersOk(w) && OnCopies(w) && NobodyOn(w, cover)
    && LiveCopy(w, cover, m) && w.copies[cover].topic.Main? && w.copies[cover].body.Json?
  }

  ghost predicate ClaimsOf<P>(w: World<P>, m: MessageId) {
    && (m in w.claims ==> exists k :: Holder(w, k, m))
    && (forall k :: Holder(w, k, m) ==> m in w.claims)
    && (forall k, l :: Holder(w, k, m) && Holder(w, l, m) ==> k == l)
  }

  // Copy c is let go by y while x can still claim its message.
  ghost predicate Paired<P>(w: World<P>, m: MessageId, c: CopyId, x: HandlerId, y: HandlerId) {
    && CopyFor(w, c, m) && w.copies[c].body.Json? && x != y && AckingOn(w, y, c)
    && x in w.handlers && w.handlers[x].copy == c && Early(w.handlers[x].phase)
  }

  // A step of a handler that holds no claim before or after, and that touches no claim.
  lemma ClaimsUntouched<P>(w: World<P>, v: World<P>, g: HandlerId, m: MessageId)
    requires ClaimsOf(w, m) && v.claims == w.claims && OnCopies(w)
    requires forall h :: h != g ==>
      (h in v.handlers <==> h in w.handlers) && (h in w.handlers ==> v.handlers[h] == w.handlers[h])
    requires g in w.handlers ==> !HoldsClaim(w.handlers[g].phase)
    requires g in v.handlers ==> !HoldsClaim(v.handlers[g].phase)
    requires |w.copies| <= |v.copies|
    requires forall c: CopyId :: c < |w.copies| ==> v.copies[c].messageId == w.copies[c].messageId
    ensures ClaimsOf(v, m)
  {
    forall h ensures Holder(v, h, m) <==> Holder(w, h, m) {}
    if m in v.claims {
      var k :| Holder(w, k, m);
      assert Holder(v, k, m);
    }
  }

  lemma ClaimsFromInvariant<P>(w: World<P>, m: MessageId)
    requires KeepInv(w) && Unsettled(w, m)
    ensures ClaimsOf(w, m)
  {
    assert ClaimAt(w, m);
    forall k, l | Holder(w, k, m) && Holder(w, l, m) ensures k == l { assert SoleHolder(w, k, l); }
    forall k | Holder(w, k, m) ensures m in w.claims { assert HolderAt(w, k); }
  }

  // The handler that was there first lets go by a refused dead letter, which the cover excuses, or
  // by scheduling a retry.
  lemma FirstLetsGo<P>(w0: World<P>, more: seq<Step<P>>, w: World<P>, m: MessageId, c: CopyId, g: HandlerId,
                       cover: CopyId)
    returns (longer: seq<Step<P>>, v: World<P>)
    requires Reached(w0, more, w) && UnderCover(w, m, cover) && ClaimsOf(w, m)
    requires CopyFor(w, c, m) && c != cover && Works(w, g, Failing) && w.handlers[g].copy == c
    ensures Reached(w0, longer, v) && UnderCover(v, m, cover) && ClaimsOf(v, m)
    ensures v.handlers == w.handlers[g := Handler(c, Acking)] && w.copies <= v.copies
  {
    hide Reached;
    var refused := DeadLetters(w, g);
    longer, v := Extend(w0, more, w, Route(g, if refused then Refused else Fine, 0.0, ""));
    assert v.sent == w.sent && v.dlq == w.dlq && v.claims == w.claims && w.copies <= v.copies;
    UnsettledStays(w, v, m);
    ClaimsUntouched(w, v, g, m);
  }

  lemma SecondDrops<P>(w0: World<P>, more: seq<Step<P>>, w: World<P>, m: MessageId, c: CopyId, h: HandlerId,
                       cover: CopyId)
    returns (longer: seq<Step<P>>, v: World<P>)
    requires Reached(w0, more, w) && UnderCover(w, m, cover) && ClaimsOf(w, m)
    requires CopyFor(w, c, m) && c != cover && Works(w, h, Received) && w.handlers[h].copy == c
    ensures Reached(w0, longer, v) && UnderCover(v, m, cover) && ClaimsOf(v, m)
    ensures v == w.(handlers := w.handlers[h := Handler(c, Acking)])
  {
    hide Reached;
    longer, v := Extend(w0, more, w, Drop(h));
    UnsettledStays(w, v, m);
    ClaimsUntouched(w, v, h, m);
  }

  // Of two handlers on one copy, one lets the copy go while the other can still claim the message.
  lemma OneLetsGo<P>(w0: World<P>, more: seq<Step<P>>, w: World<P>, m: MessageId, c: CopyId, g: HandlerId, h: HandlerId,
                     cover: CopyId)
    returns (longer: seq<Step<P>>, v: World<P>, x: HandlerId, y: HandlerId)
    requires Reached(w0, more, w) && UnderCover(w, m, cover) && ClaimsOf(w, m)
    requires CopyFor(w, c, m) && c != cover && w.copies[c].body.Json?
    requires g != h && g in w.handlers && w.handlers[g].copy == c
    requires h in w.handlers && w.handlers[h] == Handler(c, Received)
    ensures Reached(w0, longer, v) && UnderCover(v, m, cover) && ClaimsOf(v, m) && Paired(v, m, c, x, y)
  {
    hide Reached;
    x, y := h, g;
    longer, v := more, w;
    if w.handlers[g].phase.Failing? {
      longer, v := FirstLetsGo(w0, more, w, m, c, g, cover);
      assert v.copies[c] == w.copies[c];
    } else if !w.handlers[g].phase.Acking? {
      x, y := g, h;
      longer, v := SecondDrops(w0, more, w, m, c, h, cover);
    }
  }

  // v is w, later, with m's claim in x's hands.
  ghost predicate ClaimedBy<P>(w: World<P>, v: World<P>, m: MessageId, c: CopyId, x: HandlerId) {
    && x in v.handlers && v.handlers[x].copy == c && HoldsClaim(v.handlers[x].phase)
    && v == w.(now := v.now, handlers := w.handlers[x := v.handlers[x]], claims := w.claims + {m})
  }

  // With everybody else out of the way, x claims the message.
  lemma Claims<P>(w0: World<P>, more: seq<Step<P>>, w: World<P>, m: MessageId, c: CopyId, x: HandlerId)
    returns (longer: seq<Step<P>>, v: World<P>)
    requires Reached(w0, more, w) && CopyFor(w, c, m) && w.copies[c].body.Json?
    requires x in w.handlers && w.handlers[x].copy == c && Early(w.handlers[x].phase)
    requires m in w.claims <==> Holder(w, x, m)
    ensures Reached(w0, longer, v) && ClaimedBy(w, v, m, c, x)
  {
    hide Reached;
    longer, v := more, w;
    if w.handlers[x].phase.Received? { longer, v := WaitsAndWakes(w0, more, w, c, x); }
    if v.handlers[x].phase.Ready? {
      var u := v;
      longer, v := Extend(w0, longer, u, Insert(x, Fine));
      assert v == u.(handlers := u.handlers[x := Handler(c, Claimed)], claims := u.claims + {m});
    }
  }

  lemma WaitsAndWakes<P>(w0: World<P>, more: seq<Step<P>>, w: World<P>, c: CopyId, x: HandlerId)
    returns (longer: seq<Step<P>>, v: World<P>)
    requires Reached(w0, more, w) && c < |w.copies|
    requires x in w.handlers && w.handlers[x] == Handler(c, Received)
    ensures Reached(w0, longer, v)
    ensures v == w.(now := v.now, handlers := w.handlers[x := Handler(c, Ready)])
  {
    hide Reached;
    var ms := Max(0, w.copies[c].retryAt - w.now);
    longer, v := Extend(w0, more, w, Tick(ms));
    assert v == w.(now := w.now + ms);
    longer, v := Extend(w0, longer, v, Wake(x));
    assert v.handlers == w.handlers[x := Handler(c, Ready)];
  }

  lemma ClearedForX<P>(w: World<P>, v: World<P>, m: MessageId, c: CopyId, x: HandlerId, y: HandlerId, cover: CopyId)
    requires UnderCover(w, m, cover) && ClaimsOf(w, m) && Paired(w, m, c, x, y) && c != cover
    requires Cleared(w, v, m, {x, y})
    ensures UnderCover(v, m, cover) && Paired(v, m, c, x, y)
    ensures m in v.claims <==> Holder(v, x, m)
    ensures forall h :: WorksOn(v, h, m) ==> h == x || h == y
  {
    UnsettledStays(w, v, m);
    assert !Holder(w, y, m);
    forall h ensures WorksOn(v, h, m) ==> h == x || h == y { assert WorksOn(v, h, m) ==> WorksOn(w, h, m); }
    if Holder(w, x, m) {
      forall h | Holder(w, h, m) ensures h in {x, y} {}
      assert v.claims == w.claims;
    } else {
      forall k | Holder(w, k, m) ensures k !in {x, y} {}
    }
  }

  lemma XLoses<P>(w0: World<P>, more: seq<Step<P>>, w: World<P>, m: MessageId, c: CopyId, x: HandlerId, y: HandlerId,
                  cover: CopyId)
    returns (longer: seq<Step<P>>)
    requires Reached(w0, more, w) && UnderCover(w, m, cover) && Paired(w, m, c, x, y) && c != cover
    requires m in w.claims <==> Holder(w, x, m)
    requires forall h :: WorksOn(w, h, m) ==> h == x || h == y
    ensures FaultFree(w0, longer) && Gone(Run(w0, longer), m)
  {
    hide Reached;
    var v;
    longer, v := Claims(w0, more, w, m, c, x);
    CoveredOnceClaimed(w, v, m, c, x, y, cover);
    longer := ClaimantFails(w0, longer, v, m, cover, x);
  }

  lemma CoveredOnceClaimed<P>(w: World<P>, v: World<P>, m: MessageId, c: CopyId, x: HandlerId, y: HandlerId,
                              cover: CopyId)
    requires UnderCover(w, m, cover) && Paired(w, m, c, x, y) && c != cover && ClaimedBy(w, v, m, c, x)
    requires forall h :: WorksOn(w, h, m) ==> h == x || h == y
    ensures Covered(v, m, cover) && Holder(v, x, m) && forall h :: Holder(v, h, m) ==> h == x
  {
    UnsettledStays(w, v, m);
    assert AckingOn(v, y, c);
    forall h | h in v.handlers ensures v.handlers[h].copy == w.handlers[h].copy {}
    forall d: CopyId | CopyFor(v, d, m) && d != cover ensures LetGo(v, d) || NobodyOn(v, d) {
      if d != c {
        forall h | h in v.handlers ensures v.handlers[h].copy != d {
          assert !(CopyFor(w, d, m) && w.handlers[h].copy == d) || WorksOn(w, h, m);
        }
      }
    }
    forall h | Holder(v, h, m) ensures h == x {
      assert WorksOn(w, h, m);
    }
  }

  lemma TwoHandlersLose<P>(w: World<P>, h: HandlerId, c: CopyId) returns (more: seq<Step<P>>)
    requires KeepInv(w) && Fault(w, Take(h, c))
    ensures FaultFree(Apply(w, Step<P>.Take(h, c)), more)
    ensures Gone(Run(Apply(w, Step<P>.Take(h, c)), more), w.copies[c].messageId)
  {
    var w0, m := Apply(w, Step<P>.Take(h, c)), w.copies[c].messageId;
    var g :| g in w.handlers && w.handlers[g].copy == c;
    ClaimsFromInvariant(w, m);
    UnsettledStays(w, w0, m);
    forall k | k in w0.handlers ensures w0.handlers[k].copy < |w0.copies| { assert HandAt(w, k); }
    forall k | k in w.handlers ensures w.handlers[k].copy < |w.copies| { assert HandAt(w, k); }
    ClaimsUntouched(w, w0, h, m);
    var u, v, cover, x, y;
    more, u, cover := Cover(w0, [], w0, m, w.copies[c].body.value);
    ClaimsUntouched(w0, u, h, m);
    more, v, x, y := OneLetsGo(w0, more, u, m, c, g, h, cover);
    u := v;
    more, v := Clear(w0, more, u, m, {x, y});
    ClearedForX(u, v, m, c, x, y, cover);
    more := XLoses(w0, more, v, m, c, x, y, cover);
  }

  // ---------- The condition is exact ----------

  lemma FaultLoses<P>(w: World<P>, st: Step<P>) returns (more: seq<Step<P>>)
    requires KeepInv(w) && Fault(w, st)
    ensures Victim(w, st).Some? && FaultFree(Apply(w, st), more)
    ensures Gone(Run(Apply(w, st), more), Victim(w, st).value)
  {
    match st
    case Take(h, c) => more := TwoHandlersLose(w, h, c);
    case Drop(h) => more := LastCopyLoses(w, st, h);
    case Route(h, _, _, _) => more := LastCopyLoses(w, st, h);
    case Crash(h) => more := OrphanedClaimLoses(w, st, h);
    case Unclaim(h, _) => more := OrphanedClaimLoses(w, st, h);
    case Insert(h, _) => more := OrphanedClaimLoses(w, st, h);
  }

  lemma LastCopyLoses<P>(w: World<P>, st: Step<P>, h: HandlerId) returns (more: seq<Step<P>>)
    requires KeepInv(w) && Fault(w, st) && (st.Drop? || st.Route?) && st.h == h
    ensures Victim(w, st).Some? && FaultFree(Apply(w, st), more)
    ensures Gone(Run(Apply(w, st), more), Victim(w, st).value)
  {
    LastCopyGone(w, st, h);
    more := Drain(Apply(w, st), [], Apply(w, st), CopyOf(w, h).messageId);
  }

  lemma OrphanedClaimLoses<P>(w: World<P>, st: Step<P>, h: HandlerId) returns (more: seq<Step<P>>)
    requires KeepInv(w) && Fault(w, st) && (st.Crash? || st.Unclaim? || st.Insert?) && st.h == h
    ensures Victim(w, st).Some? && FaultFree(Apply(w, st), more)
    ensures Gone(Run(Apply(w, st), more), Victim(w, st).value)
  {
    ClaimOrphaned(w, st, h);
    more := OrphanLoses(Apply(w, st), [], Apply(w, st), CopyOf(w, h).messageId, CopyOf(w, h).body.value);
  }

  // Every message stays accounted for, whatever fault-free steps follow.
  ghost predicate StaysAccounted<P(!new)>(w: World<P>) {
    forall more :: FaultFree(w, more) ==> AllAccounted(Run(w, more))
  }

  lemma GoneIsUnaccounted<P(!new)>(w: World<P>, more: seq<Step<P>>, m: MessageId)
    requires FaultFree(w, more) && Gone(Run(w, more), m)
    ensures !StaysAccounted(w)
  {
    var v := Run(w, more);
    var c: CopyId :| CopyFor(v, c, m);
    assert !CopyAccounted(v, c);
  }

  lemma {:induction false} KeepsAccounted<P(!new)>(w: World<P>)
    requires KeepInv(w)
    ensures StaysAccounted(w)
  {
    forall more | FaultFree(w, more) ensures AllAccounted(Run(w, more)) { KeepRun(w, more); }
  }

  // After any fault-free run a step keeps every message accounted for, over every fault-free
  // continuation, if and only if it is not a fault.
  lemma SafeIffNoFault<P(!new)>(cfg: Config, steps: seq<Step<P>>, st: Step<P>)
    requires FaultFree(Init(cfg), steps)
    ensures !Fault(Run(Init(cfg), steps), st) <==> StaysAccounted(Apply(Run(Init(cfg), steps), st))
  {
    KeepRun(Init(cfg), steps);
    var w := Run(Init(cfg), steps);
    if Fault(w, st) {
      var more := FaultLoses(w, st);
      GoneIsUnaccounted(Apply(w, st), more, Victim(w, st).value);
    } else {
      KeepStep(w, st);
      KeepsAccounted(Apply(w, st));
    }
  }

  // ---------- A run for each fault ----------

  lemma RunToLoss<P>(cfg: Config, before: seq<Step<P>>, w: World<P>, st: Step<P>) returns (steps: seq<Step<P>>)
    requires Reached(Init(cfg), before, w) && Fault(w, st)
    ensures before + [st] <= steps && Victim(w, st).Some? && Gone(Run(Init(cfg), steps), Victim(w, st).value)
  {
    KeepRun(Init(cfg), before);
    var more := FaultLoses(w, st);
    RunSnoc(Init(cfg), before, st);
    RunConcat(Init(cfg), before + [st], more);
    steps := before + [st] + more;
  }

  function Alone<P>(cfg: Config, body: Body<P>, phase: Phase, claims: set<MessageId>): World<P> {
    World(cfg, 0, [Copy(Main, 7, "booking.confirmed", body, 0, 0, None, 0, false)], map[0 := Handler(0, phase)],
          claims, [], [])
  }

  // One message has arrived, and one handler has received it.
  lemma TakenUp<P>(cfg: Config, body: Body<P>) returns (steps: seq<Step<P>>)
    ensures Reached(Init(cfg), steps, Alone(cfg, body, Received, {}))
  {
    var w := Init<P>(cfg);
    steps := [];
    steps, w := Extend(Init(cfg), steps, w, Arrive(7, "booking.confirmed", body));
    steps, w := Extend(Init(cfg), steps, w, Take(0, 0));
  }

  lemma MadeReady<P>(cfg: Config, body: Body<P>) returns (steps: seq<Step<P>>)
    ensures Reached(Init(cfg), steps, Alone(cfg, body, Ready, {}))
  {
    hide Reached;
    var w;
    steps := TakenUp(cfg, body);
    steps, w := Extend(Init(cfg), steps, Alone(cfg, body, Received, {}), Wake(0));
    assert w == Alone(cfg, body, Ready, {});
  }

  lemma HoldsIt<P>(cfg: Config, body: P) returns (steps: seq<Step<P>>)
    ensures Reached(Init(cfg), steps, Alone(cfg, Json(body), Claimed, {7}))
  {
    hide Reached;
    var w;
    steps := MadeReady(cfg, Json(body));
    steps, w := Extend(Init(cfg), steps, Alone(cfg, Json(body), Ready, {}), Insert(0, Fine));
    assert w == Alone(cfg, Json(body), Claimed, {7});
  }

  lemma NothingSettled<P>(w: World<P>, m: MessageId)
    requires w.sent == [] && w.dlq == []
    ensures Unsettled(w, m)
  {
  }

  // A handler dies between claiming and delivering; the redelivered copy then counts as a duplicate.
  lemma DeadClaimantLosesMessage<P>(cfg: Config, body: P) returns (steps: seq<Step<P>>)
    ensures Crash(0) in steps && Gone(Run(Init(cfg), steps), 7)
  {
    var before := HoldsIt(cfg, body);
    var w := Alone(cfg, Json(body), Claimed, {7});
    NothingSettled(w, 7);
    steps := RunToLoss(cfg, before, w, Crash(0));
    assert (before + [Crash(0)])[|before|] == Step<P>.Crash(0);
  }

  // The delivery fails, and so does taking the claim back.
  lemma FailedUnclaimLosesMessage<P>(cfg: Config, body: P) returns (steps: seq<Step<P>>)
    ensures Unclaim(0, false) in steps && Gone(Run(Init(cfg), steps), 7)
  {
    var before := HoldsIt(cfg, body);
    var w;
    before, w := Extend(Init(cfg), before, Alone(cfg, Json(body), Claimed, {7}), Deliver(0, false));
    assert w == Alone(cfg, Json(body), Undelivered, {7});
    NothingSettled(w, 7);
    steps := RunToLoss(cfg, before, w, Unclaim(0, false));
    assert (before + [Unclaim(0, false)])[|before|] == Step<P>.Unclaim(0, false);
  }

  // The claim is inserted, but the insert reports an error.
  lemma AmbiguousClaimLosesMessage<P>(cfg: Config, body: P) returns (steps: seq<Step<P>>)
    ensures Insert(0, Ambiguous) in steps && Gone(Run(Init(cfg), steps), 7)
  {
    var before := MadeReady(cfg, Json(body));
    var w := Alone(cfg, Json(body), Ready, {});
    NothingSettled(w, 7);
    steps := RunToLoss(cfg, before, w, Insert(0, Ambiguous));
    assert (before + [Insert(0, Ambiguous)])[|before|] == Step<P>.Insert(0, Ambiguous);
  }

  lemma OnlyCopy<P>(w: World<P>, m: MessageId)
    requires |w.copies| == 1
    ensures !OtherLive(w, 0, m)
  {
  }

  // A consumer that is shutting down returns early, which commits the offset of a message it never
  // looked at.
  lemma ShutdownLosesMessage<P>(cfg: Config, body: Body<P>) returns (steps: seq<Step<P>>)
    ensures Drop(0) in steps && Gone(Run(Init(cfg), steps), 7)
  {
    var before := TakenUp(cfg, body);
    var w := Alone(cfg, body, Received, {});
    NothingSettled(w, 7);
    OnlyCopy(w, 7);
    steps := RunToLoss(cfg, before, w, Drop(0));
    assert (before + [Drop(0)])[|before|] == Step<P>.Drop(0);
  }

  // The dead-letter write of a message that cannot be parsed fails and is swallowed.
  lemma FailedDeadLetterLosesMessage<P>(cfg: Config, text: string) returns (steps: seq<Step<P>>)
    ensures Route(0, Refused, 0.0, "") in steps && Gone(Run(Init(cfg), steps), 7)
  {
    var before := MadeReady<P>(cfg, Malformed(text));
    var w := Alone(cfg, Malformed(text), Ready, {});
    NothingSettled(w, 7);
    OnlyCopy(w, 7);
    steps := RunToLoss(cfg, before, w, Route(0, Refused, 0.0, ""));
    assert (before + [Route(0, Refused, 0.0, "")])[|before|] == Step<P>.Route(0, Refused, 0.0, "");
  }

  // A second handler takes the copy while the first is still on it.
  lemma SecondHandlerLosesMessage<P>(cfg: Config, body: P) returns (steps: seq<Step<P>>)
    ensures Take(1, 0) in steps && Gone(Run(Init(cfg), steps), 7)
  {
    var before := TakenUp(cfg, Json(body));
    var w := Alone(cfg, Json(body), Received, {});
    NothingSettled(w, 7);
    assert 0 in w.handlers && w.handlers[0].copy == 0;
    steps := RunToLoss(cfg, before, w, Take(1, 0));
    assert (before + [Take(1, 0)])[|before|] == Step<P>.Take(1, 0);
  }
}
