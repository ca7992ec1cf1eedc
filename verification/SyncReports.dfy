/**
 Exactly when a pass posts a report, and exactly when the report of one pass is posted again by the next.
 */
module SyncReports {
  import opened Text
  import opened Storage
  import opened Bundle
  import opened CaSync
  import opened SyncService
  import opened SyncReach
  import opened SyncSafety

  // ---- When a pass gets to its acknowledgement ----

  /** Every write after an `Applied` reply goes through. */
  predicate PersistWorks(cfg: Config, pin: File, e: PassEnv) {
    && e.generationWrite.Written? && e.fingerprintWrite.Written? && e.successWrite.Written?
    && (cfg.operatorPin.Some? || (e.pinRecheck && (pin.Absent? ==> e.pinWrite.Written?)))
  }

  /** The contact is recorded, and the helper rolls back, or applies and everything is recorded. */
  predicate GetsThrough(cfg: Config, pin: File, e: PassEnv) {
    e.syncWrite.Written? && (e.helper.RolledBack? || (e.helper.Applied? && PersistWorks(cfg, pin, e)))
  }

  /** The pass calls `acknowledge`; the report is posted if it can be signed. */
  predicate Acknowledges(cfg: Config, w: World, e: PassEnv, o: Offer) {
    Fresh(w, o) && GetsThrough(cfg, w.disk.pin, e)
  }

  function ReportOn(b: CaBundle, reply: HelperOutcome): AckReport {
    AckReport(b.generation, b.fingerprint, if reply.Applied? then AckApplied else AckRollback)
  }

  lemma PinWorksIff(cfg: Config, pin: File, b: CaBundle, e: PassEnv)
    ensures FirstFailure(PinEffects(cfg, pin, b, e)).None?
       <==> cfg.operatorPin.Some? || (e.pinRecheck && (pin.Absent? ==> e.pinWrite.Written?))
  {
    var write := Write(PinFile, b.signingKey + "\n", e.pinWrite);
    PerformedFirst(CheckPin(e.pinRecheck), []);
    PerformedFirst(write, []);
    PerformedFirst(CheckPin(e.pinRecheck), [write]);
    assert [CheckPin(e.pinRecheck)] + [write] == [CheckPin(e.pinRecheck), write];
  }

  lemma TailWorksIff(cfg: Config, pin: File, b: CaBundle, e: PassEnv)
    ensures FirstFailure(AfterPersist(cfg, pin, b, e)).None?
       <==> FirstFailure(PinEffects(cfg, pin, b, e)).None? && e.successWrite.Written?
  {
    var pins, ack := PinEffects(cfg, pin, b, e), AckEffects(b, AckApplied, e);
    PersistThenAck(cfg, pin, b, e);
    PerformedAppend(pins + [WriteSuccess(e)], ack);
    PerformedAppend(pins, [WriteSuccess(e)]);
    PerformedFirst(WriteSuccess(e), []);
  }

  lemma PersistWorksIff(cfg: Config, pin: File, b: CaBundle, e: PassEnv)
    ensures FirstFailure(PlanPersist(cfg, pin, b, e).effects).None? <==> PersistWorks(cfg, pin, e)
  {
    var tail := AfterPersist(cfg, pin, b, e);
    PerformedFirst(WriteGeneration(b, e), [WriteFingerprint(b, e)] + tail);
    PerformedFirst(WriteFingerprint(b, e), tail);
    TailWorksIff(cfg, pin, b, e);
    PinWorksIff(cfg, pin, b, e);
  }

  lemma ApplyWorksIff(cfg: Config, pin: File, e: PassEnv, o: Offer)
    ensures FirstFailure(PlanApply(cfg, pin, e, CallOf(o)).effects).None?
       <==> e.helper.RolledBack? || (e.helper.Applied? && PersistWorks(cfg, pin, e))
  {
    var ask := AskHelper(CallOf(o), e.helper);
    match e.helper
    case Applied =>
      PersistWorksIff(cfg, pin, o.bundle, e);
      PerformedFirst(ask, PlanPersist(cfg, pin, o.bundle, e).effects);
    case RolledBack =>
      RollbackAckWorks(o.bundle, e);
      PerformedFirst(ask, AckEffects(o.bundle, AckRollback, e));
    case CallFailed(_, _) => PerformedFirst(ask, []);
  }

  lemma RollbackAckWorks(b: CaBundle, e: PassEnv)
    ensures FirstFailure(AckEffects(b, AckRollback, e)).None?
  {
    PerformedFirst(PostAck(AckReport(b.generation, b.fingerprint, AckRollback)), []);
  }

  /** The whole plan for a fresh offer goes through exactly if the pass gets to its acknowledgement. */
  lemma PlanWorksIff(cfg: Config, w: World, e: PassEnv, o: Offer, p: Plan)
    requires p == Before(WriteSync(e), PlanApply(cfg, w.disk.pin, e, CallOf(o)))
    ensures FirstFailure(p.effects).None? <==> GetsThrough(cfg, w.disk.pin, e)
  {
    ApplyWorksIff(cfg, w.disk.pin, e, o);
    PerformedFirst(WriteSync(e), PlanApply(cfg, w.disk.pin, e, CallOf(o)).effects);
  }

  // ---- Reports and effects ----

  /** Reports are logged for posts and for nothing else. */
  lemma {:induction false} ReportsArePosts(w: World, es: seq<Effect>)
    requires forall i :: 0 <= i < |es| ==> !es[i].PostAck?
    ensures Fold(w, es).acks == w.acks
  {
    if es != [] {
      ReportsArePosts(w, es[..|es| - 1]);
    }
  }

  lemma {:induction false} PerformedToTheEnd(es: seq<Effect>)
    requires es != [] && |Performed(es)| == |es| && Failure(es[|es| - 1]).None?
    ensures FirstFailure(es).None?
  {
    if |es| > 1 {
      PerformedToTheEnd(es[1..]);
    }
  }

  /** The post, if there is one, is the last effect of the plan. */
  lemma PostIsLast(cfg: Config, pin: File, e: PassEnv, o: Offer, i: nat)
    requires i < |PlanApply(cfg, pin, e, CallOf(o)).effects| && PlanApply(cfg, pin, e, CallOf(o)).effects[i].PostAck?
    ensures i == |PlanApply(cfg, pin, e, CallOf(o)).effects| - 1 && e.ackSigned
  {
    if e.helper.Applied? {
      TailPostIsLast(cfg, pin, e, o, i - 3);
    }
  }

  lemma TailPostIsLast(cfg: Config, pin: File, e: PassEnv, o: Offer, i: int)
    requires 0 <= i < |AfterPersist(cfg, pin, o.bundle, e)| && AfterPersist(cfg, pin, o.bundle, e)[i].PostAck?
    ensures i == |AfterPersist(cfg, pin, o.bundle, e)| - 1 && e.ackSigned
  {
  }

  /** If a post was among the performed effects, all of the plan was performed, and it is the last. */
  lemma PostedAtTheEnd(cfg: Config, w: World, e: PassEnv, o: Offer, p: Plan, i: nat)
    requires p == Before(WriteSync(e), PlanApply(cfg, w.disk.pin, e, CallOf(o)))
    requires i < |Performed(p.effects)| && Performed(p.effects)[i].PostAck?
    ensures i == |Performed(p.effects)| - 1 && e.ackSigned && GetsThrough(cfg, w.disk.pin, e)
  {
    assert p.effects[i] == Performed(p.effects)[i];
    PostIsLast(cfg, w.disk.pin, e, o, i - 1);
    LastPerformed(p.effects, i);
    PlanWorksIff(cfg, w, e, o, p);
  }

  lemma LastPerformed(es: seq<Effect>, i: nat)
    requires i < |Performed(es)| && i == |es| - 1 && es[i].PostAck?
    ensures |Performed(es)| == |es| && FirstFailure(es).None?
  {
    PerformedToTheEnd(es);
  }

  /** At a point of a pass where something was reported, the pass was over and had got to its acknowledgement. */
  lemma ReportedMeans(c: Crypto, cfg: Config, w: World, e: PassEnv, k: nat)
    requires HexDigests(c) && KeyLines(c) && k <= |Effects(c, cfg, w, e)|
    requires Fold(w, Effects(c, cfg, w, e)[..k]).acks != w.acks
    ensures var offer := OfferOf(c, cfg, w.disk, e);
            k == |Effects(c, cfg, w, e)| && offer.Some? && Acknowledges(cfg, w, e, offer.value) && e.ackSigned
  {
    PassAcknowledges(c, cfg, w, e, k);
    var o := OfferOf(c, cfg, w.disk, e).value;
    FreshPlan(c, cfg, w, e, o);
    PostFound(w, Effects(c, cfg, w, e), k);
    var i :| 0 <= i < k && Effects(c, cfg, w, e)[i].PostAck?;
    PostedAtTheEnd(cfg, w, e, o, PlanOf(c, cfg, w.disk, e), i);
  }

  lemma PostFound(w: World, es: seq<Effect>, k: nat)
    requires k <= |es| && Fold(w, es[..k]).acks != w.acks
    ensures exists i :: 0 <= i < k && es[i].PostAck?
  {
    if forall i :: 0 <= i < k ==> !es[i].PostAck? {
      ReportsArePosts(w, es[..k]);
    }
  }

  // ---- A pass that gets to its acknowledgement reports ----

  lemma AppliedReports(c: Crypto, cfg: Config, w: World, e: PassEnv, o: Offer)
    requires HexDigests(c) && KeyLines(c) && OfferOf(c, cfg, w.disk, e) == Some(o)
    requires Acknowledges(cfg, w, e, o) && e.helper.Applied?
    ensures PassResult(c, cfg, w, e).Ok? && PassResult(c, cfg, w, e).value.Updated?
    ensures PassWorld(c, cfg, w, e).acks == w.acks + (if e.ackSigned then [ReportOn(o.bundle, e.helper)] else [])
  {
    FreshPlan(c, cfg, w, e, o);
    PlanWorksIff(cfg, w, e, o, PlanOf(c, cfg, w.disk, e));
    SuccessMeans(c, cfg, w, e);
  }

  lemma FoldFirst(w: World, a: Effect, es: seq<Effect>)
    ensures Fold(w, [a] + es) == Fold(Step(w, a), es)
  {
    FoldAppend(w, [a], es);
    FoldOne(w, [], a);
    assert [] + [a] == [a];
  }

  lemma ThreeEffects(w: World, a: Effect, b: Effect, es: seq<Effect>)
    requires Failure(a).None? && Failure(b).None? && FirstFailure(es).None?
    ensures Fold(w, Performed([a] + ([b] + es))) == Fold(Step(Step(w, a), b), es)
  {
    PerformedFirst(a, [b] + es);
    PerformedFirst(b, es);
    PerformedWhole(es);
    FoldFirst(w, a, [b] + es);
    FoldFirst(Step(w, a), b, es);
  }

  lemma RolledBackReports(c: Crypto, cfg: Config, w: World, e: PassEnv, o: Offer)
    requires HexDigests(c) && KeyLines(c) && OfferOf(c, cfg, w.disk, e) == Some(o)
    requires Acknowledges(cfg, w, e, o) && e.helper.RolledBack?
    ensures PassWorld(c, cfg, w, e).acks == w.acks + (if e.ackSigned then [ReportOn(o.bundle, e.helper)] else [])
  {
    FreshPlan(c, cfg, w, e, o);
    RollbackAckWorks(o.bundle, e);
    RollbackEffects(cfg, w, e, o);
  }

  lemma RollbackEffects(cfg: Config, w: World, e: PassEnv, o: Offer)
    requires e.syncWrite.Written? && e.helper.RolledBack? && FirstFailure(AckEffects(o.bundle, AckRollback, e)).None?
    ensures Fold(w, Performed(Before(WriteSync(e), PlanApply(cfg, w.disk.pin, e, CallOf(o))).effects)).acks
         == w.acks + (if e.ackSigned then [ReportOn(o.bundle, e.helper)] else [])
  {
    var ack, w2 := AckEffects(o.bundle, AckRollback, e), Step(Step(w, WriteSync(e)), AskHelper(CallOf(o), e.helper));
    ThreeEffects(w, WriteSync(e), AskHelper(CallOf(o), e.helper), ack);
    RollbackPost(w2, o.bundle, e);
  }

  lemma RollbackPost(w: World, b: CaBundle, e: PassEnv)
    requires e.helper.RolledBack?
    ensures Fold(w, AckEffects(b, AckRollback, e)).acks
        == w.acks + (if e.ackSigned then [ReportOn(b, e.helper)] else [])
  {
    if e.ackSigned {
      FoldOne(w, [], PostAck(ReportOn(b, e.helper)));
      assert [] + [PostAck(ReportOn(b, e.helper))] == AckEffects(b, AckRollback, e);
    }
  }

  /**
   What has been reported after `k` effects of a pass: one report on the offer if and only if the pass is over,
   the offer was fresh, the contact was recorded, the helper rolled back or applied with every later write
   going through, and the report could be signed; otherwise nothing.
   */
  lemma ReportedIff(c: Crypto, cfg: Config, w: World, e: PassEnv, k: nat)
    requires HexDigests(c) && KeyLines(c) && k <= |Effects(c, cfg, w, e)|
    ensures var offer, w' := OfferOf(c, cfg, w.disk, e), Fold(w, Effects(c, cfg, w, e)[..k]);
            if k == |Effects(c, cfg, w, e)| && offer.Some? && Acknowledges(cfg, w, e, offer.value) && e.ackSigned
            then w'.acks == w.acks + [ReportOn(offer.value.bundle, e.helper)]
            else w'.acks == w.acks
  {
    WholeIsPrefix(c, cfg, w, e);
    var offer := OfferOf(c, cfg, w.disk, e);
    if offer.Some? && Acknowledges(cfg, w, e, offer.value) {
      if e.helper.Applied? {
        AppliedReports(c, cfg, w, e, offer.value);
      } else {
        RolledBackReports(c, cfg, w, e, offer.value);
      }
    }
    if Fold(w, Effects(c, cfg, w, e)[..k]).acks != w.acks {
      ReportedMeans(c, cfg, w, e, k);
    }
  }

  // ---- Whether a report is posted again by the next pass ----

  /** The next pass is over, is offered the same generation and fingerprint, and gets through to its report. */
  predicate Repeats(c: Crypto, cfg: Config, w: World, e: PassEnv, k: nat, b: CaBundle) {
    var offer := OfferOf(c, cfg, w.disk, e);
    && k == |Effects(c, cfg, w, e)| && e.ackSigned && GetsThrough(cfg, w.disk.pin, e)
    && offer.Some? && offer.value.bundle.generation == b.generation && offer.value.bundle.fingerprint == b.fingerprint
  }

  lemma StillFresh(w: World, o: Offer, w1: World, o': Offer)
    requires Fresh(w, o) && w1.disk.generation == w.disk.generation && w1.disk.fingerprint == w.disk.fingerprint
    requires o'.bundle.generation == o.bundle.generation && o'.bundle.fingerprint == o.bundle.fingerprint
    ensures Fresh(w1, o')
  {
  }

  /** While its offer is fresh, a pass reports on a bundle exactly if it repeats it. */
  lemma RepeatsIff(c: Crypto, cfg: Config, w: World, o: Offer, w1: World, e: PassEnv, k: nat)
    requires HexDigests(c) && KeyLines(c) && k <= |Effects(c, cfg, w1, e)|
    requires Fresh(w, o) && w1.disk.generation == w.disk.generation && w1.disk.fingerprint == w.disk.fingerprint
    ensures !NotReported(o.bundle, w1, Fold(w1, Effects(c, cfg, w1, e)[..k])) <==> Repeats(c, cfg, w1, e, k, o.bundle)
  {
    ReportedIff(c, cfg, w1, e, k);
    var offer, w' := OfferOf(c, cfg, w1.disk, e), Fold(w1, Effects(c, cfg, w1, e)[..k]);
    if Repeats(c, cfg, w1, e, k, o.bundle) {
      StillFresh(w, o, w1, offer.value);
    }
    if w'.acks != w1.acks {
      OneReport(o.bundle, w1, w', ReportOn(offer.value.bundle, e.helper));
    }
  }

  lemma OneReport(b: CaBundle, w: World, w': World, ack: AckReport)
    requires w'.acks == w.acks + [ack]
    ensures NotReported(b, w, w') <==> !Names(ack, b)
  {
    assert w'.acks[|w.acks|] == ack;
  }

  lemma RollbackKeepsRecords(c: Crypto, cfg: Config, w: World, e: PassEnv, o: Offer)
    requires HexDigests(c) && KeyLines(c) && OfferOf(c, cfg, w.disk, e) == Some(o)
    requires Acknowledges(cfg, w, e, o) && e.helper.RolledBack?
    ensures var w1 := PassWorld(c, cfg, w, e);
            w1.disk.generation == w.disk.generation && w1.disk.fingerprint == w.disk.fingerprint
  {
    WholeIsPrefix(c, cfg, w, e);
    FreshGetsToHelper(c, cfg, w, e, o);
    FreshReaches(c, cfg, w, e, o, |Effects(c, cfg, w, e)|);
  }

  /**
   The retry that the log line of a failed acknowledgement promises: after a pass that called `acknowledge`,
   whatever became of the report, the next pass has posted one on the same generation and fingerprint after `k`
   effects if and only if the first was about a rollback and the next is offered that generation and
   fingerprint again, gets through to its own report and can sign it.
   */
  lemma ReportRetriedIff(c: Crypto, cfg: Config, w: World, e: PassEnv, o: Offer, e': PassEnv, k: nat)
    requires HexDigests(c) && KeyLines(c) && OfferOf(c, cfg, w.disk, e) == Some(o) && Acknowledges(cfg, w, e, o)
    requires k <= |Effects(c, cfg, PassWorld(c, cfg, w, e), e')|
    ensures var w1 := PassWorld(c, cfg, w, e);
            !NotReported(o.bundle, w1, Fold(w1, Effects(c, cfg, w1, e')[..k]))
            <==> e.helper.RolledBack? && Repeats(c, cfg, w1, e', k, o.bundle)
  {
    if e.helper.RolledBack? {
      RollbackKeepsRecords(c, cfg, w, e, o);
      RepeatsIff(c, cfg, w, o, PassWorld(c, cfg, w, e), e', k);
    } else {
      AppliedReports(c, cfg, w, e, o);
      AppliedIsNotRetried(c, cfg, w, e, o, e', k);
    }
  }

  lemma AppliedIsNotRetried(c: Crypto, cfg: Config, w: World, e: PassEnv, o: Offer, e': PassEnv, k: nat)
    requires HexDigests(c) && OfferOf(c, cfg, w.disk, e) == Some(o)
    requires PassResult(c, cfg, w, e).Ok? && PassResult(c, cfg, w, e).value.Updated?
    requires k <= |Effects(c, cfg, PassWorld(c, cfg, w, e), e')|
    ensures var w1 := PassWorld(c, cfg, w, e);
            NotReported(o.bundle, w1, Fold(w1, Effects(c, cfg, w1, e')[..k]))
  {
    SuccessMeans(c, cfg, w, e);
    OfferIsTrustworthy(c, cfg, w, e, o);
    RecordedDescribes(c, PassWorld(c, cfg, w, e), o.bundle);
    RecordedIsNotReported(c, cfg, PassWorld(c, cfg, w, e), e', k, o.bundle);
  }

  /** So the report of an update is never retried, whatever the key lines and whether or not it could be signed. */
  lemma LostReportIsNotRetried(c: Crypto, cfg: Config, w: World, e: PassEnv, e': PassEnv, k: nat)
    requires HexDigests(c) && PassResult(c, cfg, w, e).Ok? && PassResult(c, cfg, w, e).value.Updated?
    requires k <= |Effects(c, cfg, PassWorld(c, cfg, w, e), e')|
    ensures var done, w1 := PassResult(c, cfg, w, e).value, PassWorld(c, cfg, w, e);
            var w' := Fold(w1, Effects(c, cfg, w1, e')[..k]);
            && w1.acks <= w'.acks
            && forall i :: |w1.acks| <= i < |w'.acks| ==>
                 w'.acks[i].generation != done.generation || w'.acks[i].fingerprint != done.fingerprint
  {
    SuccessMeans(c, cfg, w, e);
    AppliedIsNotRetried(c, cfg, w, e, OfferOf(c, cfg, w.disk, e).value, e', k);
  }
}
