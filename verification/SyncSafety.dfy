/**
 What every pass keeps and what its results mean, for every response, helper reply and failed write.
 */
module SyncSafety {
  import opened Text
  import opened Storage
  import opened Bundle
  import opened CaSync
  import opened SyncService
  import opened SyncReach
  import Rendering
  import TrustedCa
  import Canonical

  // ---- What a successful pass has done ----

  lemma WholeAfterFirst(w: World, a: Effect, p: Plan)
    requires ResultOf(Before(a, p)).Ok?
    ensures Failure(a).None? && ResultOf(Before(a, p)) == ResultOf(p)
    ensures Fold(w, Performed(Before(a, p).effects)) == Fold(Step(w, a), Performed(p.effects))
  {
    BeforePerforms(a, p);
    var k := |Performed(Before(a, p).effects)|;
    PrefixAfterFirst(w, a, p, k);
    assert Performed(Before(a, p).effects)[..k] == Performed(Before(a, p).effects);
    assert Performed(p.effects)[..k - 1] == Performed(p.effects);
  }

  /** The report on a bundle that was applied and recorded, if it can be signed. */
  function Reports(b: CaBundle, e: PassEnv): seq<AckReport> {
    if e.ackSigned then [AppliedAck(b)] else []
  }

  lemma FingerprintCompletes(cfg: Config, w: World, o: Offer, e: PassEnv, r: Result<SyncOutcome, Error>)
    requires ResultOf(Before(WriteFingerprint(o.bundle, e), Plan(AfterPersist(cfg, w.disk.pin, o.bundle, e), r))).Ok?
    ensures var p := Before(WriteFingerprint(o.bundle, e), Plan(AfterPersist(cfg, w.disk.pin, o.bundle, e), r));
            var w' := Fold(w, Performed(p.effects));
            && ResultOf(p) == r && w'.host == w.host
            && w'.disk.generation == w.disk.generation && w'.disk.fingerprint == FingerprintText(o.bundle)
            && w'.acks == w.acks + Reports(o.bundle, e)
  {
    var tail := Plan(AfterPersist(cfg, w.disk.pin, o.bundle, e), r);
    var w1 := Step(w, WriteFingerprint(o.bundle, e));
    WholeAfterFirst(w, WriteFingerprint(o.bundle, e), tail);
    PerformedWhole(tail.effects);
    TailCompletes(cfg, w1, o, e);
  }

  lemma PersistCompletes(cfg: Config, w: World, o: Offer, e: PassEnv)
    requires ResultOf(PlanPersist(cfg, w.disk.pin, o.bundle, e)).Ok?
    ensures var w' := Fold(w, Performed(PlanPersist(cfg, w.disk.pin, o.bundle, e).effects));
            Recorded(o.bundle, w') && w'.host == w.host && w'.acks == w.acks + Reports(o.bundle, e)
    ensures ResultOf(PlanPersist(cfg, w.disk.pin, o.bundle, e))
         == Ok(Updated(o.bundle.generation, o.bundle.fingerprint, Acknowledged(e)))
  {
    var b := o.bundle;
    var r: Result<SyncOutcome, Error> := Ok(Updated(b.generation, b.fingerprint, Acknowledged(e)));
    WholeAfterFirst(w, WriteGeneration(b, e),
                    Before(WriteFingerprint(b, e), Plan(AfterPersist(cfg, w.disk.pin, b, e), r)));
    FingerprintCompletes(cfg, Step(w, WriteGeneration(b, e)), o, e, r);
  }

  /**
   What a pass that returned `r` from `w` in `w'` has done, given what it was offered: `acknowledged` says that
   the report was posted and answered with a 2xx status.
   */
  ghost predicate Accomplished(r: SyncOutcome, w: World, offer: Option<Offer>, e: PassEnv, w': World) {
    match r
    case NotModified(g) => Untouched(w, w') && g == DiskGeneration(w)
    case Unchanged(g) =>
      && Untouched(w, w') && offer.Some? && g == offer.value.bundle.generation && DiskDescribes(w, offer.value.bundle)
    case Updated(g, f, acknowledged) =>
      && offer.Some? && g == offer.value.bundle.generation && f == offer.value.bundle.fingerprint
      && w'.host == Some(Host(Rendering.Render(offer.value.bundle), offer.value.bundle))
      && Recorded(offer.value.bundle, w')
      && w'.acks == w.acks + (if e.ackSigned then [AckReport(g, f, AckApplied)] else [])
      && (acknowledged <==> w'.acks != w.acks && e.ackStatus.Some? && 200 <= e.ackStatus.value < 300)
  }

  lemma PinAndSuccessComplete(cfg: Config, w: World, b: CaBundle, e: PassEnv)
    ensures var es := PinEffects(cfg, w.disk.pin, b, e) + [WriteSuccess(e)];
            FirstFailure(es).None? ==> Untouched(w, Fold(w, Performed(es)))
  {
    var es := PinEffects(cfg, w.disk.pin, b, e) + [WriteSuccess(e)];
    if FirstFailure(es).None? {
      PinAndSuccessAreMinor(cfg, w.disk.pin, b, e);
      PerformedWhole(es);
      MinorEffects(w, es, PinToWrite(cfg, w.disk.pin, b));
    }
  }

  lemma AppliedCompletes(cfg: Config, w: World, o: Offer, e: PassEnv, p: Plan)
    requires p == PlanPersist(cfg, w.disk.pin, o.bundle, e) && e.helper.Applied?
    requires ResultOf(Before(AskHelper(CallOf(o), e.helper), p)).Ok?
    ensures var whole := Before(AskHelper(CallOf(o), e.helper), p);
            Accomplished(ResultOf(whole).value, w, Some(o), e, Fold(w, Performed(whole.effects)))
  {
    WholeAfterFirst(w, AskHelper(CallOf(o), e.helper), p);
    PersistCompletes(cfg, Step(w, AskHelper(CallOf(o), e.helper)), o, e);
  }

  /** From the helper call on, only an `Applied` reply can end in success. */
  lemma ApplyCompletes(cfg: Config, w: World, o: Offer, e: PassEnv)
    requires ResultOf(PlanApply(cfg, w.disk.pin, e, CallOf(o))).Ok?
    ensures var p := PlanApply(cfg, w.disk.pin, e, CallOf(o));
            Accomplished(ResultOf(p).value, w, Some(o), e, Fold(w, Performed(p.effects)))
  {
    var ask := AskHelper(CallOf(o), e.helper);
    match e.helper
    case Applied => AppliedCompletes(cfg, w, o, e, PlanPersist(cfg, w.disk.pin, o.bundle, e));
    case RolledBack => BeforePerforms(ask, Plan(AckEffects(o.bundle, AckRollback, e), Err(CaReloadFailed)));
    case CallFailed(error, _) => BeforePerforms(ask, Plan([], Err(Helper(error))));
  }

  lemma BundleCompletes(cfg: Config, w: World, l: Loaded, o: Offer, e: PassEnv,
                        defect: Option<TrustedCa.TrustedCaError>)
    requires Describe(l, w)
    requires ResultOf(PlanForBundle(cfg, w.disk.pin, l, e, CallOf(o), defect)).Ok?
    ensures var p := PlanForBundle(cfg, w.disk.pin, l, e, CallOf(o), defect);
            Accomplished(ResultOf(p).value, w, Some(o), e, Fold(w, Performed(p.effects)))
  {
    BundleCases(cfg, w.disk.pin, w, l, o, e, defect);
    if DiskDescribes(w, o.bundle) {
      PinAndSuccessComplete(cfg, w, o.bundle, e);
    } else if Fresh(w, o) && defect.None? {
      ApplyCompletes(cfg, w, o, e);
    }
  }

  lemma ResponseCompletes(c: Crypto, cfg: Config, w: World, l: Loaded, e: PassEnv, response: HttpResponse,
                          offer: Option<Offer>)
    requires Describe(l, w)
    requires Success(response.status) && response.bundle.Some? && Verdict(c, cfg, l, e, response.bundle.value).Ok? ==>
               offer == Some(Offer(response.bundle.value, Verdict(c, cfg, l, e, response.bundle.value).value))
    requires ResultOf(PlanForResponse(c, cfg, w.disk.pin, l, e, response)).Ok?
    ensures var p := PlanForResponse(c, cfg, w.disk.pin, l, e, response);
            Accomplished(ResultOf(p).value, w, offer, e, Fold(w, Performed(p.effects)))
  {
    if response.status == 304 {
      PerformedWhole([WriteSuccess(e)]);
      MinorEffects(w, [WriteSuccess(e)], None);
    } else {
      var b := Verdict(c, cfg, l, e, response.bundle.value).value;
      BundleCompletes(cfg, w, l, Offer(response.bundle.value, b), e, DefectOf(Rendering.Render(b)));
    }
  }

  /** The result of a pass says what it did: nothing, nothing needed, or a bundle taken and recorded. */
  lemma SuccessMeans(c: Crypto, cfg: Config, w: World, e: PassEnv)
    requires PassResult(c, cfg, w, e).Ok?
    ensures Accomplished(PassResult(c, cfg, w, e).value, w, OfferOf(c, cfg, w.disk, e), e, PassWorld(c, cfg, w, e))
  {
    var l := Load(w.disk, e).value;
    LoadedDescribes(w, e, l);
    ContactCompletes(c, cfg, w, l, e, e.response.value, OfferOf(c, cfg, w.disk, e));
  }

  lemma ContactCompletes(c: Crypto, cfg: Config, w: World, l: Loaded, e: PassEnv, response: HttpResponse,
                         offer: Option<Offer>)
    requires Describe(l, w)
    requires Success(response.status) && response.bundle.Some? && Verdict(c, cfg, l, e, response.bundle.value).Ok? ==>
               offer == Some(Offer(response.bundle.value, Verdict(c, cfg, l, e, response.bundle.value).value))
    requires ResultOf(Before(WriteSync(e), PlanForResponse(c, cfg, w.disk.pin, l, e, response))).Ok?
    ensures var p := Before(WriteSync(e), PlanForResponse(c, cfg, w.disk.pin, l, e, response));
            Accomplished(ResultOf(p).value, w, offer, e, Fold(w, Performed(p.effects)))
  {
    var p := PlanForResponse(c, cfg, w.disk.pin, l, e, response);
    WholeAfterFirst(w, WriteSync(e), p);
    ResponseCompletes(c, cfg, Step(w, WriteSync(e)), l, e, response, offer);
    AccomplishedAfterStamp(ResultOf(p).value, w, e, offer, Fold(Step(w, WriteSync(e)), Performed(p.effects)));
  }

  lemma AccomplishedAfterStamp(r: SyncOutcome, w: World, e: PassEnv, offer: Option<Offer>, w': World)
    requires Accomplished(r, Step(w, WriteSync(e)), offer, e, w')
    ensures Accomplished(r, w, offer, e, w')
  {
  }

  /** A whole pass is its longest prefix. */
  lemma WholeIsPrefix(c: Crypto, cfg: Config, w: World, e: PassEnv)
    ensures PassWorld(c, cfg, w, e) == Fold(w, Effects(c, cfg, w, e)[..|Effects(c, cfg, w, e)|])
  {
    var es := Effects(c, cfg, w, e);
    assert es[..|es|] == es;
  }

  // ---- Authenticity ----

  /** The key a pass verifies against: the operator's, else the pinned one. */
  function TrustAnchor(cfg: Config, w: World): Option<string> {
    if cfg.operatorPin.Some? then cfg.operatorPin
    else match ReadText(w.disk.pin, true)
      case Ok(k) => k
      case Err(_) => None
  }

  /** The body of a call is the rendering of a valid bundle whose signature verified under `anchor`'s material. */
  ghost predicate Trustworthy(c: Crypto, call: Call, anchor: Option<string>) {
    && ValidBundle(c, call.bundle) && call.body == Rendering.Render(call.bundle)
    && Verified(c, call.raw) && call.raw.signingKey == Some(call.bundle.signingKey)
    && call.raw.generation == Some(call.bundle.generation) && multiset(call.raw.keys) == multiset(call.bundle.keys)
    && (anchor.Some? ==> SameMaterial(anchor.value, call.bundle.signingKey))
  }

  lemma OfferIsTrustworthy(c: Crypto, cfg: Config, w: World, e: PassEnv, o: Offer)
    requires OfferOf(c, cfg, w.disk, e) == Some(o)
    ensures Trustworthy(c, CallOf(o), TrustAnchor(cfg, w))
  {
    var l := Load(w.disk, e).value;
    LoadedDescribes(w, e, l);
    AcceptedBundle(c, o.raw, e.now, ExpectedKey(cfg, l), o.bundle);
  }

  /** The host's body is the rendering of a valid bundle. */
  ghost predicate HostAuthentic(c: Crypto, w: World) {
    w.host.Some? ==> ValidBundle(c, w.host.value.source) && w.host.value.body == Rendering.Render(w.host.value.source)
  }

  lemma ReachIsAuthentic(c: Crypto, cfg: Config, w: World, offer: Option<Offer>, reply: HelperOutcome, w': World)
    requires HostAuthentic(c, w) && Reach(cfg, w, offer, reply, w')
    requires offer.Some? ==> Trustworthy(c, CallOf(offer.value), TrustAnchor(cfg, w))
    ensures HostAuthentic(c, w')
    ensures w'.calls == w.calls || (offer.Some? && w'.calls == w.calls + [CallOf(offer.value)])
  {
  }

  /** At every point of a pass the host runs an authenticated bundle, and every new call is trustworthy. */
  lemma PassIsAuthentic(c: Crypto, cfg: Config, w: World, e: PassEnv, k: nat)
    requires HostAuthentic(c, w) && k <= |Effects(c, cfg, w, e)|
    ensures var w', offer := Fold(w, Effects(c, cfg, w, e)[..k]), OfferOf(c, cfg, w.disk, e);
            && HostAuthentic(c, w')
            && (|| w'.calls == w.calls
                || (&& offer.Some? && w'.calls == w.calls + [CallOf(offer.value)]
                    && Trustworthy(c, CallOf(offer.value), TrustAnchor(cfg, w))))
  {
    var offer := OfferOf(c, cfg, w.disk, e);
    if offer.Some? {
      OfferIsTrustworthy(c, cfg, w, e, offer.value);
    }
    PassReaches(c, cfg, w, e, k);
    ReachIsAuthentic(c, cfg, w, offer, e.helper, Fold(w, Effects(c, cfg, w, e)[..k]));
  }

  lemma {:induction false} NoEffectIsADefect(es: seq<Effect>)
    ensures FirstFailure(es).Some? ==> !FirstFailure(es).value.InvalidTrustedCa?
  {
    if es != [] {
      NoEffectIsADefect(es[1..]);
    }
  }

  lemma NoDefectNoRejection(cfg: Config, pin: File, l: Loaded, e: PassEnv, o: Offer)
    ensures var p := PlanForBundle(cfg, pin, l, e, CallOf(o), None);
            p.result.Err? ==> !p.result.error.InvalidTrustedCa?
  {
  }

  /** The defensive parse of the rendered body before an apply never rejects it. */
  lemma ReparseNeverRejects(c: Crypto, cfg: Config, w: World, e: PassEnv)
    requires HexDigests(c) && KeyLines(c)
    ensures PassResult(c, cfg, w, e).Err? ==> !PassResult(c, cfg, w, e).error.InvalidTrustedCa?
  {
    NoEffectIsADefect(PlanOf(c, cfg, w.disk, e).effects);
    var offer := OfferOf(c, cfg, w.disk, e);
    if offer.Some? {
      OfferIsTrustworthy(c, cfg, w, e, offer.value);
      Rendering.ParseRendered(c, offer.value.bundle);
    }
    PlanRejectsOnlyDefects(c, cfg, w.disk, e);
  }

  /** The plan of a pass with an offer whose body parses. */
  lemma PlanOfOffer(c: Crypto, cfg: Config, d: Disk, e: PassEnv, o: Offer)
    requires OfferOf(c, cfg, d, e) == Some(o) && DefectOf(Rendering.Render(o.bundle)) == None
    ensures Load(d, e).Ok?
    ensures PlanOf(c, cfg, d, e) == Before(WriteSync(e),
        PlanForBundle(cfg, d.pin, Load(d, e).value, e, CallOf(o), None))
  {
  }

  lemma NoOfferNoDefect(c: Crypto, cfg: Config, d: Disk, e: PassEnv)
    requires OfferOf(c, cfg, d, e) == None
    ensures var p := PlanOf(c, cfg, d, e);
            p.result.Err? ==> !p.result.error.InvalidTrustedCa?
  {
  }

  lemma PlanRejectsOnlyDefects(c: Crypto, cfg: Config, d: Disk, e: PassEnv)
    requires var offer := OfferOf(c, cfg, d, e);
             offer.Some? ==> DefectOf(Rendering.Render(offer.value.bundle)) == None
    ensures var p := PlanOf(c, cfg, d, e);
            p.result.Err? ==> !p.result.error.InvalidTrustedCa?
  {
    var offer := OfferOf(c, cfg, d, e);
    if offer.Some? {
      PlanOfOffer(c, cfg, d, e, offer.value);
      NoDefectNoRejection(cfg, d.pin, Load(d, e).value, e, offer.value);
    } else {
      NoOfferNoDefect(c, cfg, d, e);
    }
  }

  // ---- Downgrade protection ----

  /** The recorded generation is behind the host's, or level with it. */
  ghost predicate GenerationBounded(w: World) {
    match w.host
    case None => DiskGeneration(w) == 0
    case Some(h) => DiskGeneration(w) <= h.source.generation
  }

  lemma ReachKeepsGeneration(cfg: Config, w: World, offer: Option<Offer>, reply: HelperOutcome, w': World)
    requires Reach(cfg, w, offer, reply, w')
    ensures DiskGeneration(w) <= DiskGeneration(w') && (GenerationBounded(w) ==> GenerationBounded(w'))
  {
    if offer.Some? {
      GenerationRecorded(offer.value.bundle);
    }
  }

  /** At every point of a pass, whatever fails, the recorded generation has not fallen nor overtaken the host. */
  lemma PassKeepsGeneration(c: Crypto, cfg: Config, w: World, e: PassEnv, k: nat)
    requires k <= |Effects(c, cfg, w, e)|
    ensures var w' := Fold(w, Effects(c, cfg, w, e)[..k]);
            DiskGeneration(w) <= DiskGeneration(w') && (GenerationBounded(w) ==> GenerationBounded(w'))
  {
    PassReaches(c, cfg, w, e, k);
    ReachKeepsGeneration(cfg, w, OfferOf(c, cfg, w.disk, e), e.helper, Fold(w, Effects(c, cfg, w, e)[..k]));
  }

  /** A fresh offer is sent to the helper right after the contact stamp. */
  lemma FreshPlan(c: Crypto, cfg: Config, w: World, e: PassEnv, o: Offer)
    requires HexDigests(c) && KeyLines(c) && OfferOf(c, cfg, w.disk, e) == Some(o) && Fresh(w, o)
    ensures PlanOf(c, cfg, w.disk, e) == Before(WriteSync(e), PlanApply(cfg, w.disk.pin, e, CallOf(o)))
  {
    OfferIsTrustworthy(c, cfg, w, e, o);
    Rendering.ParseRendered(c, o.bundle);
    PlanOfOffer(c, cfg, w.disk, e, o);
    var l := Load(w.disk, e).value;
    LoadedDescribes(w, e, l);
    BundleCases(cfg, w.disk.pin, w, l, o, e, None);
  }

  /** The helper was asked with the offer's body, and the host took it or not as the reply says. */
  predicate AskedFor(w: World, o: Offer, reply: HelperOutcome, w': World) {
    if Takes(reply) then Taken(w, o, reply, w') else NotTaken(w, o, reply, w')
  }

  /** Where a pass with a fresh offer is after its first two effects. */
  lemma FreshReaches(c: Crypto, cfg: Config, w: World, e: PassEnv, o: Offer, k: nat)
    requires HexDigests(c) && KeyLines(c) && OfferOf(c, cfg, w.disk, e) == Some(o) && Fresh(w, o)
    requires 2 <= k <= |Effects(c, cfg, w, e)|
    ensures AskedFor(w, o, e.helper, Fold(w, Effects(c, cfg, w, e)[..k]))
  {
    FreshPlan(c, cfg, w, e, o);
    StampThenAsk(cfg, w, e, o, PlanApply(cfg, w.disk.pin, e, CallOf(o)), k);
  }

  lemma StampThenAsk(cfg: Config, w: World, e: PassEnv, o: Offer, p: Plan, k: nat)
    requires p == PlanApply(cfg, w.disk.pin, e, CallOf(o)) && 2 <= k <= |Performed(Before(WriteSync(e), p).effects)|
    ensures AskedFor(w, o, e.helper, Fold(w, Performed(Before(WriteSync(e), p).effects)[..k]))
  {
    if k - 1 <= |Performed(p.effects)| {
      AskAfterStamp(cfg, w, Step(w, WriteSync(e)), e, o, k - 1);
    }
    StampThen(w, e, o, p, k);
  }

  lemma StampThen(w: World, e: PassEnv, o: Offer, p: Plan, k: nat)
    requires 2 <= k <= |Performed(Before(WriteSync(e), p).effects)|
    requires k - 1 <= |Performed(p.effects)| ==>
               AskedFor(w, o, e.helper, Fold(Step(w, WriteSync(e)), Performed(p.effects)[..k - 1]))
    ensures AskedFor(w, o, e.helper, Fold(w, Performed(Before(WriteSync(e), p).effects)[..k]))
  {
    PrefixAfterFirst(w, WriteSync(e), p, k);
  }

  /** The stamp plays no part in what the helper call and the rest do. */
  lemma AskAfterStamp(cfg: Config, w: World, w1: World, e: PassEnv, o: Offer, k: nat)
    requires w1 == Step(w, WriteSync(e)) && 0 < k <= |Performed(PlanApply(cfg, w.disk.pin, e, CallOf(o)).effects)|
    ensures AskedFor(w, o, e.helper, Fold(w1, Performed(PlanApply(cfg, w.disk.pin, e, CallOf(o)).effects)[..k]))
  {
    assert w1.disk.pin == w.disk.pin;
    ApplyReaches(cfg, w1, o, e, k);
    AskedAfterStamp(cfg, w, o, e, k, Fold(w1, Performed(PlanApply(cfg, w.disk.pin, e, CallOf(o)).effects)[..k]));
  }

  lemma AskedAfterStamp(cfg: Config, w: World, o: Offer, e: PassEnv, k: nat, w': World)
    requires k > 0 && Asked(cfg, Step(w, WriteSync(e)), o, e.helper, k, w')
    ensures AskedFor(w, o, e.helper, w')
  {
    var w1 := Step(w, WriteSync(e));
    assert Untouched(w, w1) && w1.disk.pin == w.disk.pin;
  }

  lemma StampFirst(w: World, e: PassEnv, p: Plan)
    ensures |Performed(Before(WriteSync(e), p).effects)| >= 1
    ensures Untouched(w, Fold(w, Performed(Before(WriteSync(e), p).effects)[..1]))
  {
    BeforePerforms(WriteSync(e), p);
    PrefixAfterFirst(w, WriteSync(e), p, 1);
  }

  /** The contact stamp alone changes nothing but itself. */
  lemma FirstEffectIsStamp(c: Crypto, cfg: Config, w: World, e: PassEnv, k: nat)
    requires k <= |Effects(c, cfg, w, e)| && k < 2
    ensures Untouched(w, Fold(w, Effects(c, cfg, w, e)[..k]))
  {
    if k == 1 {
      StampFirst(w, e, PlanForResponse(c, cfg, w.disk.pin, Load(w.disk, e).value, e, e.response.value));
    }
  }

  /** The host's generation is lower in `w'`. */
  predicate HostFell(w: World, w': World) {
    w.host.Some? && w'.host.Some? && w'.host.value.source.generation < w.host.value.source.generation
  }

  /** The offer would take the host back: not behind the record, not on record, and below what the host runs. */
  predicate TakesBack(w: World, o: Offer) {
    w.host.Some? && Fresh(w, o) && o.bundle.generation < w.host.value.source.generation
  }

  lemma ReachFalls(cfg: Config, w: World, offer: Option<Offer>, reply: HelperOutcome, w': World)
    requires Reach(cfg, w, offer, reply, w') && HostFell(w, w')
    ensures offer.Some? && TakesBack(w, offer.value) && Takes(reply)
  {
  }

  /**
   After `k` effects of a pass the host's generation has fallen if and only if the offer lies between the
   recorded generation and the host's without being on record, the helper lets the host take the body, and the
   pass got past the contact stamp to the helper call.
   */
  lemma HostRegressesIff(c: Crypto, cfg: Config, w: World, e: PassEnv, k: nat)
    requires HexDigests(c) && KeyLines(c) && k <= |Effects(c, cfg, w, e)|
    ensures var offer := OfferOf(c, cfg, w.disk, e);
            HostFell(w, Fold(w, Effects(c, cfg, w, e)[..k]))
            <==> k >= 2 && offer.Some? && TakesBack(w, offer.value)
                 && (e.helper.Applied? || (e.helper.CallFailed? && e.helper.changed))
  {
    var offer, w' := OfferOf(c, cfg, w.disk, e), Fold(w, Effects(c, cfg, w, e)[..k]);
    if HostFell(w, w') {
      PassReaches(c, cfg, w, e, k);
      ReachFalls(cfg, w, offer, e.helper, w');
      if k < 2 {
        FirstEffectIsStamp(c, cfg, w, e, k);
      }
    }
    if k >= 2 && Takes(e.helper) && offer.Some? && TakesBack(w, offer.value) {
      FreshReaches(c, cfg, w, e, offer.value, k);
    }
  }

  lemma FreshGetsToHelper(c: Crypto, cfg: Config, w: World, e: PassEnv, o: Offer)
    requires HexDigests(c) && KeyLines(c) && OfferOf(c, cfg, w.disk, e) == Some(o) && Fresh(w, o)
        && e.syncWrite.Written?
    ensures |Effects(c, cfg, w, e)| >= 2
  {
    FreshPlan(c, cfg, w, e, o);
    var apply := PlanApply(cfg, w.disk.pin, e, CallOf(o));
    BeforePerforms(WriteSync(e), apply);
    assert |Performed(apply.effects)| > 0;
  }

  /** The same for a whole pass whose contact stamp is written and whose helper call takes effect. */
  lemma PassRegressesIff(c: Crypto, cfg: Config, w: World, e: PassEnv, o: Offer)
    requires HexDigests(c) && KeyLines(c) && OfferOf(c, cfg, w.disk, e) == Some(o)
    requires e.syncWrite.Written? && Takes(e.helper)
    ensures HostFell(w, PassWorld(c, cfg, w, e)) <==> TakesBack(w, o)
  {
    WholeIsPrefix(c, cfg, w, e);
    if TakesBack(w, o) {
      FreshGetsToHelper(c, cfg, w, e, o);
    }
    HostRegressesIff(c, cfg, w, e, |Effects(c, cfg, w, e)|);
  }

  /** So, whatever the digests and key lines, the host's generation falls only if the record was behind it. */
  lemma HostRegressesOnlyIfTorn(c: Crypto, cfg: Config, w: World, e: PassEnv, k: nat)
    requires k <= |Effects(c, cfg, w, e)| && HostFell(w, Fold(w, Effects(c, cfg, w, e)[..k]))
    ensures DiskGeneration(w) < w.host.value.source.generation
  {
    PassReaches(c, cfg, w, e, k);
    ReachFalls(cfg, w, OfferOf(c, cfg, w.disk, e), e.helper, Fold(w, Effects(c, cfg, w, e)[..k]));
  }

  // ---- The pin ----

  /** A pinned (or operator) key stays; a pin file that exists, even a blank one, is never rewritten. */
  lemma PassKeepsPin(c: Crypto, cfg: Config, w: World, e: PassEnv, k: nat)
    requires k <= |Effects(c, cfg, w, e)|
    ensures var w' := Fold(w, Effects(c, cfg, w, e)[..k]);
            && (!w.disk.pin.Absent? || cfg.operatorPin.Some? ==> w'.disk.pin == w.disk.pin)
            && (TrustAnchor(cfg, w).Some? ==> TrustAnchor(cfg, w') == TrustAnchor(cfg, w))
            && (w'.disk.pin != w.disk.pin ==>
                  && OfferOf(c, cfg, w.disk, e).Some?
                  && w'.disk.pin == PinText(OfferOf(c, cfg, w.disk, e).value.bundle))
  {
    PassReaches(c, cfg, w, e, k);
  }

  /** A key written as the pin is read back with the same algorithm and blob. */
  lemma PinReadsBack(c: Crypto, key: string, text: string)
    requires KeyLines(c) && ValidKeyLine(c, key)
    requires text == key || text == Trim(key)
    ensures ReadText(Holds(text + "\n"), true) == Ok(Some(Trim(text + "\n")))
    ensures SameMaterial(Trim(text + "\n"), key)
  {
    assert c.sshEd25519(key);
    TokensTrim(key);
    assert Tokens(text) == Tokens(key);
    TokensAppendBlank(text, '\n');
    assert text + ['\n'] == text + "\n";
    TokensTrim(text + "\n");
  }

  // ---- Acknowledgements ----

  /** The report names the bundle. */
  predicate Names(ack: AckReport, b: CaBundle) {
    ack.generation == b.generation && ack.fingerprint == b.fingerprint
  }

  /** The acknowledgement of a pass from `w` was true in `w'`, when it was posted. */
  predicate TrueReport(ack: AckReport, w: World, o: Offer, reply: HelperOutcome, w': World) {
    && Names(ack, o.bundle) && Fresh(w, o)
    && w'.calls == w.calls + [CallOf(o)]
    && (ack.status.AckApplied? ==>
          && reply.Applied? && Recorded(o.bundle, w') && w'.host == Some(Host(Rendering.Render(o.bundle), o.bundle)))
    && (ack.status.AckRollback? ==>
          && reply.RolledBack? && w'.host == w.host && w'.disk.generation == w.disk.generation
          && w'.disk.fingerprint == w.disk.fingerprint && w'.disk.pin == w.disk.pin)
  }

  lemma ReachAcknowledges(cfg: Config, w: World, offer: Option<Offer>, reply: HelperOutcome, w': World)
    requires Reach(cfg, w, offer, reply, w')
    ensures w.calls <= w'.calls && |w'.calls| <= |w.calls| + 1
    ensures w.acks <= w'.acks && |w'.acks| <= |w.acks| + 1
    ensures |w'.acks| > |w.acks| ==> offer.Some? && TrueReport(w'.acks[|w.acks|], w, offer.value, reply, w')
  {
  }

  /** At every point of a pass: at most one call and one acknowledgement, each only when it is true. */
  lemma PassAcknowledges(c: Crypto, cfg: Config, w: World, e: PassEnv, k: nat)
    requires k <= |Effects(c, cfg, w, e)|
    ensures var w', offer := Fold(w, Effects(c, cfg, w, e)[..k]), OfferOf(c, cfg, w.disk, e);
            && w.calls <= w'.calls && |w'.calls| <= |w.calls| + 1
            && w.acks <= w'.acks && |w'.acks| <= |w.acks| + 1
            && (|w'.acks| > |w.acks| ==>
                  offer.Some? && TrueReport(w'.acks[|w.acks|], w, offer.value, e.helper, w'))
  {
    PassReaches(c, cfg, w, e, k);
    ReachAcknowledges(cfg, w, OfferOf(c, cfg, w.disk, e), e.helper, Fold(w, Effects(c, cfg, w, e)[..k]));
  }

  /** A pass that succeeds without updating posts nothing. */
  lemma OnlyUpdatesAcknowledge(c: Crypto, cfg: Config, w: World, e: PassEnv)
    requires PassResult(c, cfg, w, e).Ok? && !PassResult(c, cfg, w, e).value.Updated?
    ensures PassWorld(c, cfg, w, e).acks == w.acks
  {
    SuccessMeans(c, cfg, w, e);
  }

  /** No report on `b` was added from `w` to `w'`. */
  predicate NotReported(b: CaBundle, w: World, w': World) {
    w.acks <= w'.acks && forall i :: |w.acks| <= i < |w'.acks| ==> !Names(w'.acks[i], b)
  }

  lemma ReachReportsNew(cfg: Config, w: World, offer: Option<Offer>, reply: HelperOutcome, w': World, b: CaBundle)
    requires Reach(cfg, w, offer, reply, w') && DiskDescribes(w, b)
    ensures NotReported(b, w, w')
  {
    ReachAcknowledges(cfg, w, offer, reply, w');
    if |w'.acks| > |w.acks| {
      assert Names(w'.acks[|w.acks|], b) ==> DiskDescribes(w, offer.value.bundle);
    }
  }

  /** While the records name a bundle, no pass posts a report on it, `applied` or `rollback`. */
  lemma RecordedIsNotReported(c: Crypto, cfg: Config, w: World, e: PassEnv, k: nat, b: CaBundle)
    requires DiskDescribes(w, b) && k <= |Effects(c, cfg, w, e)|
    ensures NotReported(b, w, Fold(w, Effects(c, cfg, w, e)[..k]))
  {
    PassReaches(c, cfg, w, e, k);
    ReachReportsNew(cfg, w, OfferOf(c, cfg, w.disk, e), e.helper, Fold(w, Effects(c, cfg, w, e)[..k]), b);
  }

  // ---- Agreement of the records and the host ----

  ghost predicate Agrees(w: World, b: CaBundle) {
    DiskDescribes(w, b) && w.host.Some? && w.host.value.body == Rendering.Render(b)
  }

  lemma RecordedDescribes(c: Crypto, w: World, b: CaBundle)
    requires HexDigests(c) && ValidBundle(c, b) && Recorded(b, w)
    ensures DiskDescribes(w, b)
  {
    GenerationRecorded(b);
    Rendering.FingerprintGraphic(c, b);
    TrimFramed(b.fingerprint);
  }

  /** What a pass wrote is what the next one loads: the same generation and fingerprint, and the same key material. */
  lemma LoadReadsBack(c: Crypto, w: World, e: PassEnv, b: CaBundle)
    requires HexDigests(c) && KeyLines(c) && ValidBundle(c, b) && Recorded(b, w) && w.disk.pin == PinText(b)
    ensures var l := Load(w.disk, e);
            && (l.Ok? <==> e.generationReadable && e.fingerprintReadable && e.pinReadable)
            && (l.Ok? ==>
                  && l.value.generation == Some(b.generation) && l.value.fingerprint == Some(b.fingerprint)
                  && l.value.signingKey.Some? && SameMaterial(l.value.signingKey.value, b.signingKey))
  {
    RecordedDescribes(c, w, b);
    PinReadsBack(c, b.signingKey, b.signingKey);
  }

  /** The digests of the two bundles' documents do not collide. */
  ghost predicate NoCollision(c: Crypto, b: CaBundle, b': CaBundle) {
    var d, d' := Canonical.FingerprintDocument(b.generation, b.keys),
        Canonical.FingerprintDocument(b'.generation, b'.keys);
    c.digest(d) == c.digest(d') ==> d == d'
  }

  lemma SameRendering(c: Crypto, b: CaBundle, b': CaBundle)
    requires ValidBundle(c, b) && ValidBundle(c, b') && NoCollision(c, b, b')
    requires b.fingerprint == b'.fingerprint
    ensures Rendering.Render(b) == Rendering.Render(b')
  {
    FingerprintBindsKeys(c, b, b');
  }

  /** `Unchanged` is truthful exactly when the records describe what the host runs. */
  lemma UnchangedTruthfulIff(c: Crypto, cfg: Config, w: World, e: PassEnv)
    requires HexDigests(c) && HostAuthentic(c, w) && w.host.Some?
    requires PassResult(c, cfg, w, e).Ok? && PassResult(c, cfg, w, e).value.Unchanged?
    requires OfferOf(c, cfg, w.disk, e).Some? ==>
               NoCollision(c, w.host.value.source, OfferOf(c, cfg, w.disk, e).value.bundle)
    ensures OfferOf(c, cfg, w.disk, e).Some? && PassWorld(c, cfg, w, e).host == w.host
    ensures w.host.value.body == Rendering.Render(OfferOf(c, cfg, w.disk, e).value.bundle)
       <==> DiskDescribes(w, w.host.value.source)
  {
    SuccessMeans(c, cfg, w, e);
    var o := OfferOf(c, cfg, w.disk, e).value;
    OfferIsTrustworthy(c, cfg, w, e, o);
    if w.host.value.body == Rendering.Render(o.bundle) {
      Rendering.RenderDetermines(c, w.host.value.source, o.bundle);
    }
    if DiskDescribes(w, w.host.value.source) {
      SameRendering(c, w.host.value.source, o.bundle);
    }
  }

  /**
   Self-healing: whatever the records say, a pass that validates the bundle the host already runs and
   succeeds leaves records and host in agreement on it. An update does so from any state at all.
   */
  lemma SelfHeals(c: Crypto, cfg: Config, w: World, e: PassEnv, o: Offer)
    requires HexDigests(c) && OfferOf(c, cfg, w.disk, e) == Some(o)
    requires PassResult(c, cfg, w, e).Ok? && !PassResult(c, cfg, w, e).value.NotModified?
    requires PassResult(c, cfg, w, e).value.Unchanged? ==>
               w.host.Some? && w.host.value.body == Rendering.Render(o.bundle)
    ensures Agrees(PassWorld(c, cfg, w, e), o.bundle)
  {
    SuccessMeans(c, cfg, w, e);
    OfferIsTrustworthy(c, cfg, w, e, o);
    if PassResult(c, cfg, w, e).value.Updated? {
      RecordedDescribes(c, PassWorld(c, cfg, w, e), o.bundle);
    }
  }

  /** Two bundles that render alike: all that the host sees of them is the same. */
  predicate SameContent(b: CaBundle, b': CaBundle) {
    b.generation == b'.generation && b.fingerprint == b'.fingerprint && b.keys == b'.keys
    && b.bundleVersion == b'.bundleVersion
  }

  /** A pass cut off or failed anywhere after the host took a bundle is healed by the next that validates it. */
  lemma TornPersistHeals(c: Crypto, cfg: Config, w: World, e: PassEnv, k: nat, e': PassEnv, o: Offer, o': Offer)
    requires HexDigests(c) && k <= |Effects(c, cfg, w, e)|
    requires OfferOf(c, cfg, w.disk, e) == Some(o)
    requires var torn := Fold(w, Effects(c, cfg, w, e)[..k]);
             && torn.host == Some(Host(Rendering.Render(o.bundle), o.bundle))
             && OfferOf(c, cfg, torn.disk, e') == Some(o') && SameContent(o.bundle, o'.bundle)
             && PassResult(c, cfg, torn, e').Ok? && !PassResult(c, cfg, torn, e').value.NotModified?
    ensures Agrees(PassWorld(c, cfg, Fold(w, Effects(c, cfg, w, e)[..k]), e'), o.bundle)
  {
    SelfHeals(c, cfg, Fold(w, Effects(c, cfg, w, e)[..k]), e', o');
  }
}
