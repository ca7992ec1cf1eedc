/**
 Passes without a torn persist: records and host always describe one authenticated bundle.
 */
module SyncConsistency {
  import opened Text
  import opened Storage
  import opened Bundle
  import opened CaSync
  import opened SyncService
  import opened SyncReach
  import opened SyncSafety
  import Rendering
  import TrustedCa

  // ---- What was performed ----

  /** A write of `f` reached the disk. */
  ghost predicate TookEffect(es: seq<Effect>, f: StateFile) {
    exists i :: 0 <= i < |es| && es[i].Write? && es[i].file == f && !es[i].outcome.FailedBefore?
  }

  ghost predicate HostTook(es: seq<Effect>) {
    exists i :: 0 <= i < |es| && es[i].AskHelper? && Takes(es[i].reply)
  }

  /** If the host took a body, both records were written after it. */
  ghost predicate NotTorn(es: seq<Effect>) {
    HostTook(es) ==> TookEffect(es, GenerationFile) && TookEffect(es, FingerprintFile)
  }

  /** What the effects of a pass for `offer` can be. */
  predicate Describes(a: Effect, offer: Option<Offer>, reply: HelperOutcome) {
    match a
    case Write(f, t, _) =>
      && (f == GenerationFile ==> offer.Some? && Holds(t) == GenerationText(offer.value.bundle))
      && (f == FingerprintFile ==> offer.Some? && Holds(t) == FingerprintText(offer.value.bundle))
    case AskHelper(_, r) => r == reply
    case _ => true
  }

  lemma {:induction false} WrittenStays(w: World, es: seq<Effect>, f: StateFile, t: string)
    requires forall i :: 0 <= i < |es| && es[i].Write? && es[i].file == f ==> es[i].text == t
    requires TookEffect(es, f)
    ensures Get(Fold(w, es).disk, f) == Holds(t)
  {
    var n := |es| - 1;
    var last := es[n];
    if !(last.Write? && last.file == f && !last.outcome.FailedBefore?) {
      var i :| 0 <= i < |es| && es[i].Write? && es[i].file == f && !es[i].outcome.FailedBefore?;
      assert es[..n][i] == es[i];
      WrittenStays(w, es[..n], f, t);
    }
  }

  /** Calls are logged for helper requests and for nothing else. */
  lemma {:induction false} CallsAreRequests(w: World, es: seq<Effect>)
    ensures |Fold(w, es).calls| > |w.calls| <==> exists i :: 0 <= i < |es| && es[i].AskHelper?
    ensures |Fold(w, es).calls| >= |w.calls|
  {
    if es != [] {
      var n := |es| - 1;
      CallsAreRequests(w, es[..n]);
      if !es[n].AskHelper? && exists i :: 0 <= i < |es| && es[i].AskHelper? {
        var i :| 0 <= i < |es| && es[i].AskHelper?;
        assert es[..n][i].AskHelper?;
      }
    }
  }

  lemma TailDescribes(cfg: Config, pin: File, e: PassEnv, o: Offer, i: nat)
    requires i < |AfterPersist(cfg, pin, o.bundle, e)|
    ensures Describes(AfterPersist(cfg, pin, o.bundle, e)[i], Some(o), e.helper)
  {
  }

  lemma PersistDescribes(cfg: Config, pin: File, e: PassEnv, o: Offer, i: nat)
    requires i < |PlanPersist(cfg, pin, o.bundle, e).effects|
    ensures Describes(PlanPersist(cfg, pin, o.bundle, e).effects[i], Some(o), e.helper)
  {
    if i >= 2 {
      TailDescribes(cfg, pin, e, o, i - 2);
    }
  }

  lemma ApplyDescribes(cfg: Config, pin: File, e: PassEnv, o: Offer, i: nat)
    requires i < |PlanApply(cfg, pin, e, CallOf(o)).effects|
    ensures Describes(PlanApply(cfg, pin, e, CallOf(o)).effects[i], Some(o), e.helper)
  {
    if i >= 1 && e.helper.Applied? {
      PersistDescribes(cfg, pin, e, o, i - 1);
    }
  }

  lemma PlanDescribes(cfg: Config, pin: File, l: Loaded, e: PassEnv, o: Offer,
                      defect: Option<TrustedCa.TrustedCaError>, i: nat)
    requires i < |PlanForBundle(cfg, pin, l, e, CallOf(o), defect).effects|
    ensures Describes(PlanForBundle(cfg, pin, l, e, CallOf(o), defect).effects[i], Some(o), e.helper)
  {
    var p := PlanForBundle(cfg, pin, l, e, CallOf(o), defect);
    if p == PlanApply(cfg, pin, e, CallOf(o)) {
      ApplyDescribes(cfg, pin, e, o, i);
    }
  }

  /** The records a pass writes are those of its offer, and its helper call got the reply it got. */
  lemma EffectsDescribe(c: Crypto, cfg: Config, w: World, e: PassEnv, i: nat)
    requires i < |Effects(c, cfg, w, e)|
    ensures Describes(Effects(c, cfg, w, e)[i], OfferOf(c, cfg, w.disk, e), e.helper)
  {
    var plan := PlanOf(c, cfg, w.disk, e).effects;
    assert Effects(c, cfg, w, e)[i] == plan[i];
    if i > 0 {
      var l := Load(w.disk, e).value;
      ResponseDescribes(c, cfg, w.disk.pin, l, e, e.response.value, OfferOf(c, cfg, w.disk, e), i - 1);
    }
  }

  lemma ResponseDescribes(c: Crypto, cfg: Config, pin: File, l: Loaded, e: PassEnv, response: HttpResponse,
                          offer: Option<Offer>, i: nat)
    requires Success(response.status) && response.bundle.Some? && Verdict(c, cfg, l, e, response.bundle.value).Ok? ==>
               offer == Some(Offer(response.bundle.value, Verdict(c, cfg, l, e, response.bundle.value).value))
    requires i < |PlanForResponse(c, cfg, pin, l, e, response).effects|
    ensures Describes(PlanForResponse(c, cfg, pin, l, e, response).effects[i], offer, e.helper)
  {
    if response.status != 304 {
      var b := Verdict(c, cfg, l, e, response.bundle.value).value;
      PlanDescribes(cfg, pin, l, e, Offer(response.bundle.value, b), DefectOf(Rendering.Render(b)), i);
    }
  }

  // ---- Consistency ----

  /** Nothing applied and nothing recorded, or one authenticated bundle on the host and in the records. */
  ghost predicate Consistent(c: Crypto, w: World) {
    match w.host
    case None =>
      ReadGeneration(w.disk.generation, true) == Ok(None) && ReadText(w.disk.fingerprint, true) == Ok(None)
    case Some(h) =>
      ValidBundle(c, h.source) && h.body == Rendering.Render(h.source) && DiskDescribes(w, h.source)
  }

  lemma PrefixDescribes(c: Crypto, cfg: Config, w: World, e: PassEnv, k: nat)
    requires k <= |Effects(c, cfg, w, e)|
    ensures forall i :: 0 <= i < k ==> Describes(Effects(c, cfg, w, e)[..k][i], OfferOf(c, cfg, w.disk, e), e.helper)
  {
    forall i | 0 <= i < k
      ensures Describes(Effects(c, cfg, w, e)[..k][i], OfferOf(c, cfg, w.disk, e), e.helper)
    {
      EffectsDescribe(c, cfg, w, e, i);
    }
  }

  lemma TookMeansTaken(c: Crypto, cfg: Config, w: World, e: PassEnv, k: nat)
    requires k <= |Effects(c, cfg, w, e)| && HostTook(Effects(c, cfg, w, e)[..k])
    ensures var w', offer := Fold(w, Effects(c, cfg, w, e)[..k]), OfferOf(c, cfg, w.disk, e);
            offer.Some? && w'.host == Some(Host(Rendering.Render(offer.value.bundle), offer.value.bundle))
  {
    PrefixDescribes(c, cfg, w, e, k);
    CallsAreRequests(w, Effects(c, cfg, w, e)[..k]);
    PassReaches(c, cfg, w, e, k);
  }

  lemma WrittenRecorded(w: World, es: seq<Effect>, o: Offer, reply: HelperOutcome)
    requires forall i :: 0 <= i < |es| ==> Describes(es[i], Some(o), reply)
    requires TookEffect(es, GenerationFile) && TookEffect(es, FingerprintFile)
    ensures Recorded(o.bundle, Fold(w, es))
  {
    WrittenStays(w, es, GenerationFile, GenerationText(o.bundle).text);
    WrittenStays(w, es, FingerprintFile, FingerprintText(o.bundle).text);
  }

  /** If the host took a body and the pass was not torn, host and records are those of the offer. */
  lemma NotTornRecorded(c: Crypto, cfg: Config, w: World, e: PassEnv, k: nat)
    requires k <= |Effects(c, cfg, w, e)|
    requires HostTook(Effects(c, cfg, w, e)[..k]) && NotTorn(Effects(c, cfg, w, e)[..k])
    ensures var w', offer := Fold(w, Effects(c, cfg, w, e)[..k]), OfferOf(c, cfg, w.disk, e);
            && offer.Some? && Recorded(offer.value.bundle, w')
            && w'.host == Some(Host(Rendering.Render(offer.value.bundle), offer.value.bundle))
  {
    TookMeansTaken(c, cfg, w, e, k);
    PrefixDescribes(c, cfg, w, e, k);
    WrittenRecorded(w, Effects(c, cfg, w, e)[..k], OfferOf(c, cfg, w.disk, e).value, e.helper);
  }

  /** A call that the host did not take had a reply that does not let it. */
  lemma RefusedReply(c: Crypto, cfg: Config, w: World, e: PassEnv, k: nat)
    requires k <= |Effects(c, cfg, w, e)| && !HostTook(Effects(c, cfg, w, e)[..k])
    requires |Fold(w, Effects(c, cfg, w, e)[..k]).calls| > |w.calls|
    ensures !Takes(e.helper)
  {
    var es := Effects(c, cfg, w, e)[..k];
    CallsAreRequests(w, es);
    var i :| 0 <= i < |es| && es[i].AskHelper?;
    EffectsDescribe(c, cfg, w, e, i);
  }

  /** If the host took nothing, host and records are as they were. */
  lemma NothingTaken(c: Crypto, cfg: Config, w: World, e: PassEnv, k: nat)
    requires k <= |Effects(c, cfg, w, e)|
    requires !HostTook(Effects(c, cfg, w, e)[..k])
    ensures var w' := Fold(w, Effects(c, cfg, w, e)[..k]);
            && w'.host == w.host
            && w'.disk.generation == w.disk.generation && w'.disk.fingerprint == w.disk.fingerprint
  {
    var w' := Fold(w, Effects(c, cfg, w, e)[..k]);
    if |w'.calls| > |w.calls| {
      RefusedReply(c, cfg, w, e, k);
    }
    PassReaches(c, cfg, w, e, k);
    ReachTakesNothing(cfg, w, OfferOf(c, cfg, w.disk, e), e.helper, w');
  }

  lemma ReachTakesNothing(cfg: Config, w: World, offer: Option<Offer>, reply: HelperOutcome, w': World)
    requires Reach(cfg, w, offer, reply, w') && (|w'.calls| > |w.calls| ==> !Takes(reply))
    ensures w'.host == w.host && w'.disk.generation == w.disk.generation && w'.disk.fingerprint == w.disk.fingerprint
  {
  }

  /** A pass that is not torn, complete or cut off, keeps records and host on one authenticated bundle. */
  lemma PassKeepsConsistent(c: Crypto, cfg: Config, w: World, e: PassEnv, k: nat)
    requires HexDigests(c) && Consistent(c, w) && k <= |Effects(c, cfg, w, e)|
    requires NotTorn(Effects(c, cfg, w, e)[..k])
    ensures Consistent(c, Fold(w, Effects(c, cfg, w, e)[..k]))
  {
    if HostTook(Effects(c, cfg, w, e)[..k]) {
      NotTornRecorded(c, cfg, w, e, k);
      var o := OfferOf(c, cfg, w.disk, e).value;
      OfferIsTrustworthy(c, cfg, w, e, o);
      RecordedDescribes(c, Fold(w, Effects(c, cfg, w, e)[..k]), o.bundle);
    } else {
      NothingTaken(c, cfg, w, e, k);
    }
  }

  /** From a consistent world `Unchanged` is returned only for the bundle the host runs. */
  lemma UnchangedIsTruthful(c: Crypto, cfg: Config, w: World, e: PassEnv)
    requires HexDigests(c) && Consistent(c, w)
    requires PassResult(c, cfg, w, e).Ok? && PassResult(c, cfg, w, e).value.Unchanged?
    requires w.host.Some? && OfferOf(c, cfg, w.disk, e).Some? ==>
               NoCollision(c, w.host.value.source, OfferOf(c, cfg, w.disk, e).value.bundle)
    ensures OfferOf(c, cfg, w.disk, e).Some? && w.host.Some?
    ensures w.host.value.body == Rendering.Render(OfferOf(c, cfg, w.disk, e).value.bundle)
  {
    SuccessMeans(c, cfg, w, e);
    UnchangedTruthfulIff(c, cfg, w, e);
  }
}
