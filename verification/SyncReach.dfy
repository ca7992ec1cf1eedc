/**
 Where a pass can leave the world: a relation that covers every point at which it can complete, fail
 or be cut off by a crash, stated without the list of effects.
 */
module SyncReach {
  import opened Text
  import opened Storage
  import opened Bundle
  import opened CaSync
  import opened SyncService
  import Rendering
  import TrustedCa

  /** A response that passed authentication and validation, with the bundle it became. */
  datatype Offer = Offer(raw: RawBundle, bundle: CaBundle)

  /** The offer of a pass, if it got that far. */
  function OfferOf(c: Crypto, cfg: Config, d: Disk, e: PassEnv): Option<Offer> {
    match Load(d, e)
    case Err(_) => None
    case Ok(l) =>
      if !e.requestSigned || e.response.None? || !Success(e.response.value.status) || e.response.value.bundle.None?
      then None
      else
        match Verdict(c, cfg, l, e, e.response.value.bundle.value)
        case Err(_) => None
        case Ok(b) => Some(Offer(e.response.value.bundle.value, b))
  }

  function CallOf(o: Offer): Call {
    Call(Rendering.Render(o.bundle), o.raw, o.bundle)
  }

  // ---- What is recorded ----

  /** The generation a file records; zero when it records none. */
  function GenerationIn(f: File): nat {
    match ReadGeneration(f, true)
    case Ok(Some(g)) => g
    case _ => 0
  }

  function DiskGeneration(w: World): nat {
    GenerationIn(w.disk.generation)
  }

  function GenerationText(b: CaBundle): File {
    Holds(Dec(b.generation) + "\n")
  }

  function FingerprintText(b: CaBundle): File {
    Holds(b.fingerprint + "\n")
  }

  function PinText(b: CaBundle): File {
    Holds(b.signingKey + "\n")
  }

  lemma GenerationRecorded(b: CaBundle)
    ensures ReadGeneration(GenerationText(b), true) == Ok(Some(b.generation))
    ensures GenerationIn(GenerationText(b)) == b.generation
  {
    GenerationTextRoundTrip(b.generation);
  }

  // ---- The relation ----

  predicate Quiet(w: World, w': World) {
    w'.disk.generation == w.disk.generation && w'.disk.fingerprint == w.disk.fingerprint
    && w'.host == w.host && w'.calls == w.calls
  }

  /** The pin file is as it was, or was absent, not overridden by the operator, and holds the offer's key. */
  predicate PinKept(cfg: Config, w: World, offer: Option<Offer>, w': World) {
    || w'.disk.pin == w.disk.pin
    || (cfg.operatorPin.None? && w.disk.pin.Absent? && offer.Some? && w'.disk.pin == PinText(offer.value.bundle))
  }

  /** The helper was asked but the host did not take the body. */
  predicate NotTaken(w: World, o: Offer, reply: HelperOutcome, w': World) {
    && !Takes(reply)
    && w'.disk.generation == w.disk.generation && w'.disk.fingerprint == w.disk.fingerprint
    && w'.host == w.host
    && w'.calls == w.calls + [CallOf(o)]
    && (|| w'.acks == w.acks
        || (w'.acks == w.acks + [AckReport(o.bundle.generation, o.bundle.fingerprint, AckRollback)]
            && reply.RolledBack? && w'.disk.pin == w.disk.pin))
  }

  /** The host took the body; generation and fingerprint are recorded in that order, or not yet. */
  predicate Taken(w: World, o: Offer, reply: HelperOutcome, w': World) {
    && Takes(reply)
    && w'.host == Some(Host(Rendering.Render(o.bundle), o.bundle))
    && w'.calls == w.calls + [CallOf(o)]
    && (w'.disk.generation == w.disk.generation || w'.disk.generation == GenerationText(o.bundle))
    && (|| w'.disk.fingerprint == w.disk.fingerprint
        || (w'.disk.fingerprint == FingerprintText(o.bundle) && w'.disk.generation == GenerationText(o.bundle)))
    && (|| w'.acks == w.acks
        || (w'.acks == w.acks + [AckReport(o.bundle.generation, o.bundle.fingerprint, AckApplied)]
            && reply.Applied? && Recorded(o.bundle, w')))
  }

  predicate Recorded(b: CaBundle, w: World) {
    w.disk.generation == GenerationText(b) && w.disk.fingerprint == FingerprintText(b)
  }

  /** The records name the bundle's generation and fingerprint. */
  predicate DiskDescribes(w: World, b: CaBundle) {
    ReadGeneration(w.disk.generation, true) == Ok(Some(b.generation))
    && ReadText(w.disk.fingerprint, true) == Ok(Some(b.fingerprint))
  }

  /** The offer does not fall behind the recorded generation and is not the bundle on record. */
  predicate Fresh(w: World, o: Offer) {
    DiskGeneration(w) <= o.bundle.generation && !DiskDescribes(w, o.bundle)
  }

  /** Nothing has happened to host, records and logs. */
  predicate Untouched(w: World, w': World) {
    Quiet(w, w') && w'.acks == w.acks
  }

  predicate Reach(cfg: Config, w: World, offer: Option<Offer>, reply: HelperOutcome, w': World) {
    && PinKept(cfg, w, offer, w')
    && (|| Untouched(w, w')
        || (offer.Some? && Fresh(w, offer.value)
            && (NotTaken(w, offer.value, reply, w') || Taken(w, offer.value, reply, w'))))
  }

  // ---- Effects that touch neither the host nor the two records ----

  predicate Minor(e: Effect, pin: Option<string>) {
    match e
    case Write(f, t, _) => f == LastSyncFile || f == LastSuccessFile || (f == PinFile && pin == Some(t))
    case CheckPin(_) => true
    case AskHelper(_, _) => false
    case PostAck(_) => false
  }

  lemma {:induction false} MinorEffects(w: World, es: seq<Effect>, pin: Option<string>)
    requires forall i :: 0 <= i < |es| ==> Minor(es[i], pin)
    ensures var w' := Fold(w, es);
            Quiet(w, w') && w'.acks == w.acks
            && (w'.disk.pin == w.disk.pin || (pin.Some? && w'.disk.pin == Holds(pin.value)))
  {
    if es != [] {
      var n := |es| - 1;
      MinorEffects(w, es[..n], pin);
      assert Minor(es[n], pin);
    }
  }

  /** What `persist_pin_if_needed` may write. */
  function PinToWrite(cfg: Config, pin: File, b: CaBundle): Option<string> {
    if cfg.operatorPin.None? && pin.Absent? then Some(b.signingKey + "\n") else None
  }

  lemma PinAndSuccessAreMinor(cfg: Config, pin: File, b: CaBundle, e: PassEnv)
    ensures var es := PinEffects(cfg, pin, b, e) + [WriteSuccess(e)];
            forall i :: 0 <= i < |es| ==> Minor(es[i], PinToWrite(cfg, pin, b))
  {
  }

  // ---- Prefixes of what is performed ----

  /** A performed prefix after a first effect: nothing, or that effect and a prefix of the rest. */
  lemma PrefixAfterFirst(w: World, a: Effect, p: Plan, k: nat)
    requires k <= |Performed(Before(a, p).effects)|
    ensures k == 0 ==> Fold(w, Performed(Before(a, p).effects)[..k]) == w
    ensures k > 0 ==>
              && (k > 1 ==> Failure(a).None?)
              && k - 1 <= |Performed(p.effects)|
              && Fold(w, Performed(Before(a, p).effects)[..k]) == Fold(Step(w, a), Performed(p.effects)[..k - 1])
  {
    BeforePerforms(a, p);
    var es := Performed(Before(a, p).effects);
    if k > 0 {
      assert es[..k] == [a] + (if k == 1 then [] else Performed(p.effects)[..k - 1]);
      assert Fold(w, [a]) == Step(w, a) by {
        assert [a][..0] == [];
      }
      FoldAppend(w, [a], es[1..k]);
      assert es[..k] == [a] + es[1..k];
      assert es[1..k] == Performed(p.effects)[..k - 1];
    }
  }

  lemma PerformedIsPrefix(es: seq<Effect>, k: nat)
    requires k <= |Performed(es)|
    ensures Performed(es)[..k] == es[..k]
  {
  }

  lemma PrefixOfAppend(a: seq<Effect>, b: seq<Effect>, k: nat)
    requires k <= |a + b|
    ensures k <= |a| ==> (a + b)[..k] == a[..k]
    ensures k > |a| ==> (a + b)[..k] == a + b[..k - |a|]
  {
  }

  // ---- Covering the pass ----

  /** After the pin, the stamp and the acknowledgement, the records and the host are as before. */
  lemma TailReaches(cfg: Config, w: World, o: Offer, e: PassEnv, k: nat)
    requires k <= |AfterPersist(cfg, w.disk.pin, o.bundle, e)|
    ensures var w' := Fold(w, AfterPersist(cfg, w.disk.pin, o.bundle, e)[..k]);
            && Quiet(w, w') && PinKept(cfg, w, Some(o), w')
            && (w'.acks == w.acks || w'.acks == w.acks + [AppliedAck(o.bundle)])
  {
    var b := o.bundle;
    var minor := PinEffects(cfg, w.disk.pin, b, e) + [WriteSuccess(e)];
    var ack := AckEffects(b, AckApplied, e);
    PinAndSuccessAreMinor(cfg, w.disk.pin, b, e);
    PrefixOfAppend(minor, ack, k);
    if k <= |minor| {
      MinorEffects(w, minor[..k], PinToWrite(cfg, w.disk.pin, b));
    } else {
      assert ack[..k - |minor|] == [ack[0]];
      MinorEffects(w, minor, PinToWrite(cfg, w.disk.pin, b));
      FoldOne(w, minor, ack[0]);
    }
  }

  /** All of it: an acknowledgement is posted exactly if it can be signed. */
  lemma TailCompletes(cfg: Config, w: World, o: Offer, e: PassEnv)
    ensures var w' := Fold(w, AfterPersist(cfg, w.disk.pin, o.bundle, e));
            Quiet(w, w') && w'.acks == w.acks + (if e.ackSigned then [AppliedAck(o.bundle)] else [])
  {
    var b := o.bundle;
    var minor := PinEffects(cfg, w.disk.pin, b, e) + [WriteSuccess(e)];
    PinAndSuccessAreMinor(cfg, w.disk.pin, b, e);
    MinorEffects(w, minor, PinToWrite(cfg, w.disk.pin, b));
    if e.ackSigned {
      FoldOne(w, minor, PostAck(AppliedAck(b)));
    } else {
      assert AfterPersist(cfg, w.disk.pin, b, e) == minor;
    }
  }

  function AppliedAck(b: CaBundle): AckReport {
    AckReport(b.generation, b.fingerprint, AckApplied)
  }

  /** From the fingerprint write on: an acknowledgement only once the fingerprint is written. */
  lemma FingerprintReaches(cfg: Config, w: World, o: Offer, e: PassEnv, r: Result<SyncOutcome, Error>, k: nat)
    requires k <= |Performed(Before(WriteFingerprint(o.bundle, e),
        Plan(AfterPersist(cfg, w.disk.pin, o.bundle, e), r)).effects)|
    ensures var p := Before(WriteFingerprint(o.bundle, e), Plan(AfterPersist(cfg, w.disk.pin, o.bundle, e), r));
            var w' := Fold(w, Performed(p.effects)[..k]);
            && PinKept(cfg, w, Some(o), w') && w'.host == w.host && w'.calls == w.calls
            && w'.disk.generation == w.disk.generation
            && (w'.disk.fingerprint == w.disk.fingerprint || w'.disk.fingerprint == FingerprintText(o.bundle))
            && (w'.acks == w.acks
                || (w'.acks == w.acks + [AppliedAck(o.bundle)] && w'.disk.fingerprint == FingerprintText(o.bundle)))
  {
    var tail := Plan(AfterPersist(cfg, w.disk.pin, o.bundle, e), r);
    PrefixAfterFirst(w, WriteFingerprint(o.bundle, e), tail, k);
    if k > 0 {
      PerformedIsPrefix(tail.effects, k - 1);
      TailReaches(cfg, Step(w, WriteFingerprint(o.bundle, e)), o, e, k - 1);
    }
  }

  /** After an `Applied` reply: generation, then fingerprint, then the rest. */
  lemma PersistReaches(cfg: Config, w: World, o: Offer, e: PassEnv, k: nat)
    requires k <= |Performed(PlanPersist(cfg, w.disk.pin, o.bundle, e).effects)|
    ensures var w' := Fold(w, Performed(PlanPersist(cfg, w.disk.pin, o.bundle, e).effects)[..k]);
            && PinKept(cfg, w, Some(o), w') && w'.host == w.host && w'.calls == w.calls
            && (w'.disk.generation == w.disk.generation || w'.disk.generation == GenerationText(o.bundle))
            && (|| w'.disk.fingerprint == w.disk.fingerprint
                || (w'.disk.fingerprint == FingerprintText(o.bundle) && w'.disk.generation == GenerationText(o.bundle)))
            && (w'.acks == w.acks || (w'.acks == w.acks + [AppliedAck(o.bundle)] && Recorded(o.bundle, w')))
  {
    var b := o.bundle;
    var r: Result<SyncOutcome, Error> := Ok(Updated(b.generation, b.fingerprint, Acknowledged(e)));
    var rest := Before(WriteFingerprint(b, e), Plan(AfterPersist(cfg, w.disk.pin, b, e), r));
    PrefixAfterFirst(w, WriteGeneration(b, e), rest, k);
    if k > 0 {
      var w1 := Step(w, WriteGeneration(b, e));
      PrefixAfterFirst(w1, WriteFingerprint(b, e), Plan(AfterPersist(cfg, w.disk.pin, b, e), r), k - 1);
      FingerprintReaches(cfg, w1, o, e, r, k - 1);
    }
  }

  /** Where the plan from the helper call on can leave the world after `k` effects. */
  predicate Asked(cfg: Config, w: World, o: Offer, reply: HelperOutcome, k: nat, w': World) {
    && PinKept(cfg, w, Some(o), w')
    && (if k == 0 then w' == w
        else if Takes(reply) then Taken(w, o, reply, w') else NotTaken(w, o, reply, w'))
  }

  lemma AppliedReaches(cfg: Config, w: World, o: Offer, e: PassEnv, k: nat)
    requires e.helper.Applied?
    requires k <= |Performed(Before(AskHelper(CallOf(o), e.helper), PlanPersist(cfg, w.disk.pin, o.bundle, e)).effects)|
    ensures var p := Before(AskHelper(CallOf(o), e.helper), PlanPersist(cfg, w.disk.pin, o.bundle, e));
            Asked(cfg, w, o, e.helper, k, Fold(w, Performed(p.effects)[..k]))
  {
    PrefixAfterFirst(w, AskHelper(CallOf(o), e.helper), PlanPersist(cfg, w.disk.pin, o.bundle, e), k);
    if k > 0 {
      PersistReaches(cfg, Step(w, AskHelper(CallOf(o), e.helper)), o, e, k - 1);
    }
  }

  lemma RolledBackReaches(cfg: Config, w: World, o: Offer, e: PassEnv, r: Result<SyncOutcome, Error>, k: nat)
    requires e.helper.RolledBack?
    requires k <= |Performed(Before(AskHelper(CallOf(o), e.helper),
        Plan(AckEffects(o.bundle, AckRollback, e), r)).effects)|
    ensures var p := Before(AskHelper(CallOf(o), e.helper), Plan(AckEffects(o.bundle, AckRollback, e), r));
            Asked(cfg, w, o, e.helper, k, Fold(w, Performed(p.effects)[..k]))
  {
    var ack := AckEffects(o.bundle, AckRollback, e);
    PrefixAfterFirst(w, AskHelper(CallOf(o), e.helper), Plan(ack, r), k);
    if k > 1 {
      assert Performed(ack)[..k - 1] == [] + [ack[0]];
      FoldOne(Step(w, AskHelper(CallOf(o), e.helper)), [], ack[0]);
    }
  }

  lemma FailedReaches(cfg: Config, w: World, o: Offer, e: PassEnv, r: Result<SyncOutcome, Error>, k: nat)
    requires e.helper.CallFailed?
    requires k <= |Performed(Before(AskHelper(CallOf(o), e.helper), Plan([], r)).effects)|
    ensures var p := Before(AskHelper(CallOf(o), e.helper), Plan([], r));
            Asked(cfg, w, o, e.helper, k, Fold(w, Performed(p.effects)[..k]))
  {
    PrefixAfterFirst(w, AskHelper(CallOf(o), e.helper), Plan([], r), k);
  }

  lemma ApplyReaches(cfg: Config, w: World, o: Offer, e: PassEnv, k: nat)
    requires k <= |Performed(PlanApply(cfg, w.disk.pin, e, CallOf(o)).effects)|
    ensures Asked(cfg, w, o, e.helper, k, Fold(w, Performed(PlanApply(cfg, w.disk.pin, e, CallOf(o)).effects)[..k]))
  {
    match e.helper
    case Applied => AppliedReaches(cfg, w, o, e, k);
    case RolledBack => RolledBackReaches(cfg, w, o, e, Err(CaReloadFailed), k);
    case CallFailed(error, _) => FailedReaches(cfg, w, o, e, Err(Helper(error)), k);
  }

  /** What was loaded is what the two records say. */
  predicate Describe(l: Loaded, w: World) {
    ReadGeneration(w.disk.generation, true) == Ok(l.generation)
      && ReadText(w.disk.fingerprint, true) == Ok(l.fingerprint)
  }

  /** The three outcomes for a bundle: refused, already on record, or sent to the helper. */
  lemma BundleCases(cfg: Config, pin: File, w: World, l: Loaded, o: Offer, e: PassEnv,
                    defect: Option<TrustedCa.TrustedCaError>)
    requires Describe(l, w)
    ensures var p := PlanForBundle(cfg, pin, l, e, CallOf(o), defect);
            && (DiskDescribes(w, o.bundle) ==> p.effects == PinEffects(cfg, pin, o.bundle, e) + [WriteSuccess(e)])
            && (!DiskDescribes(w, o.bundle) && !Fresh(w, o) ==> p.effects == [])
            && (Fresh(w, o) ==> if defect.None? then p == PlanApply(cfg, pin, e, CallOf(o)) else p.effects == [])
  {
  }

  lemma BundleReaches(cfg: Config, w: World, l: Loaded, o: Offer, e: PassEnv,
                      defect: Option<TrustedCa.TrustedCaError>, k: nat)
    requires Describe(l, w)
    requires k <= |Performed(PlanForBundle(cfg, w.disk.pin, l, e, CallOf(o), defect).effects)|
    ensures var p := PlanForBundle(cfg, w.disk.pin, l, e, CallOf(o), defect);
            Reach(cfg, w, Some(o), e.helper, Fold(w, Performed(p.effects)[..k]))
  {
    var b := o.bundle;
    BundleCases(cfg, w.disk.pin, w, l, o, e, defect);
    if DiskDescribes(w, b) {
      var es := PinEffects(cfg, w.disk.pin, b, e) + [WriteSuccess(e)];
      PinAndSuccessAreMinor(cfg, w.disk.pin, b, e);
      PerformedIsPrefix(es, k);
      MinorEffects(w, es[..k], PinToWrite(cfg, w.disk.pin, b));
    } else if Fresh(w, o) && defect.None? {
      ApplyReaches(cfg, w, o, e, k);
    }
  }

  lemma ResponseReaches(c: Crypto, cfg: Config, w: World, l: Loaded, e: PassEnv, response: HttpResponse, k: nat)
    requires Describe(l, w)
    requires k <= |Performed(PlanForResponse(c, cfg, w.disk.pin, l, e, response).effects)|
    ensures var w' := Fold(w, Performed(PlanForResponse(c, cfg, w.disk.pin, l, e, response).effects)[..k]);
            || (Quiet(w, w') && w'.acks == w.acks && w'.disk.pin == w.disk.pin)
            || (&& Success(response.status) && response.bundle.Some?
                && Verdict(c, cfg, l, e, response.bundle.value).Ok?
                && var o := Offer(response.bundle.value, Verdict(c, cfg, l, e, response.bundle.value).value);
                   Reach(cfg, w, Some(o), e.helper, w'))
  {
    if response.status == 304 {
      PerformedIsPrefix([WriteSuccess(e)], k);
      MinorEffects(w, [WriteSuccess(e)][..k], None);
    } else if Success(response.status) && response.bundle.Some? {
      var verdict := Verdict(c, cfg, l, e, response.bundle.value);
      if verdict.Ok? {
        var o := Offer(response.bundle.value, verdict.value);
        BundleReaches(cfg, w, l, o, e, DefectOf(Rendering.Render(verdict.value)), k);
      }
    }
  }

  lemma LoadedDescribes(w: World, e: PassEnv, l: Loaded)
    requires Load(w.disk, e) == Ok(l)
    ensures Describe(l, w) && ReadText(w.disk.pin, true) == Ok(l.signingKey)
  {
  }

  /** The contact stamp plays no part in the relation. */
  lemma StampIrrelevant(cfg: Config, w: World, e: PassEnv, offer: Option<Offer>, reply: HelperOutcome, w': World)
    requires Reach(cfg, Step(w, WriteSync(e)), offer, reply, w')
    ensures Reach(cfg, w, offer, reply, w')
  {
    var w1 := Step(w, WriteSync(e));
    assert Quiet(w, w1) && w1.acks == w.acks && w1.disk.pin == w.disk.pin;
  }

  lemma ContactReaches(c: Crypto, cfg: Config, w: World, l: Loaded, e: PassEnv, response: HttpResponse,
                       offer: Option<Offer>, k: nat)
    requires Describe(l, w)
    requires Success(response.status) && response.bundle.Some? && Verdict(c, cfg, l, e, response.bundle.value).Ok? ==>
               offer == Some(Offer(response.bundle.value, Verdict(c, cfg, l, e, response.bundle.value).value))
    requires 0 < k <= |Performed(Before(WriteSync(e), PlanForResponse(c, cfg, w.disk.pin, l, e, response)).effects)|
    ensures var es := Performed(Before(WriteSync(e), PlanForResponse(c, cfg, w.disk.pin, l, e, response)).effects);
            Reach(cfg, w, offer, e.helper, Fold(w, es[..k]))
  {
    var p := PlanForResponse(c, cfg, w.disk.pin, l, e, response);
    var w1 := Step(w, WriteSync(e));
    PrefixAfterFirst(w, WriteSync(e), p, k);
    ResponseReaches(c, cfg, w1, l, e, response, k - 1);
    StampIrrelevant(cfg, w, e, offer, e.helper, Fold(w1, Performed(p.effects)[..k - 1]));
  }

  /** Every point at which a pass can end, fail or be cut off lies in the relation. */
  lemma PassReaches(c: Crypto, cfg: Config, w: World, e: PassEnv, k: nat)
    requires k <= |Effects(c, cfg, w, e)|
    ensures Reach(cfg, w, OfferOf(c, cfg, w.disk, e), e.helper, Fold(w, Effects(c, cfg, w, e)[..k]))
  {
    if k > 0 {
      var l := Load(w.disk, e).value;
      LoadedDescribes(w, e, l);
      ContactReaches(c, cfg, w, l, e, e.response.value, OfferOf(c, cfg, w.disk, e), k);
    }
  }
}
