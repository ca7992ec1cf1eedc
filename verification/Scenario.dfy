/**
 Passes in which everything works, or everything but one write, against servers that sign every bundle
 with a given key: what such a pass does from a given state.
 */
module Scenario {
  import opened Text
  import opened Storage
  import opened Bundle
  import opened CaSync
  import opened SyncService
  import opened SyncReach
  import opened SyncSafety
  import Rendering

  // ---- The server and the state ----

  /** Whatever key of its signer's material is expected, the response is accepted as the bundle. */
  ghost predicate Accepts(c: Crypto, o: Offer) {
    forall expected: Option<string> ::
      (expected.Some? ==> SameMaterial(expected.value, o.bundle.signingKey)) ==>
        FromResponse(c, o.raw, 1, expected) == Ok(o.bundle)
  }

  /** Digests and key lines are as they should be, and both responses come from one signer. */
  ghost predicate Signed(c: Crypto, key: string, o: Offer) {
    HexDigests(c) && KeyLines(c) && Accepts(c, o) && o.bundle.signingKey == key
  }

  /** Everything works, except that the generation write ends as given and no report is ever answered. */
  function Env(raw: RawBundle, generationWrite: WriteOutcome): PassEnv {
    PassEnv(true, true, true, true, Some(HttpResponse(200, Some(raw))), 1, "", "",
            Written, generationWrite, Written, true, Written, Written, Applied, true, None)
  }

  /** Everything can be read, and the server answers with the response at time one. */
  predicate Receives(e: PassEnv, raw: RawBundle) {
    && e.generationReadable && e.fingerprintReadable && e.pinReadable && e.requestSigned && e.now == 1
    && e.response == Some(HttpResponse(200, Some(raw)))
  }

  const NO_PIN := Config(None)
  const EMPTY := World(Disk(Absent, Absent, Absent, Absent, Absent), None, [], [])

  /** The pin file is absent or blank: passes load no key from it. */
  predicate Unpinned(f: File) {
    ReadText(f, true) == Ok(None)
  }

  /** The records are those of `b` (none for `None`), and a pin, if any, is `key`. */
  ghost predicate OnDisk(w: World, key: string, b: Option<CaBundle>) {
    && (Unpinned(w.disk.pin) || w.disk.pin == Holds(key + "\n"))
    && (b.None? ==> w.disk.generation == Absent && w.disk.fingerprint == Absent)
    && (b.Some? ==> Recorded(b.value, w))
  }

  predicate OnHost(w: World, b: CaBundle) {
    w.host == Some(Host(Rendering.Render(b), b))
  }

  lemma Valid(c: Crypto, key: string, o: Offer)
    requires Signed(c, key, o)
    ensures ValidBundle(c, o.bundle) && DefectOf(Rendering.Render(o.bundle)) == None
  {
    assert FromResponse(c, o.raw, 1, None) == Ok(o.bundle);
    AcceptedBundle(c, o.raw, 1, None, o.bundle);
    Rendering.ParseRendered(c, o.bundle);
  }

  lemma Loads(c: Crypto, key: string, w: World, b: Option<CaBundle>, e: PassEnv)
    requires HexDigests(c) && KeyLines(c) && ValidKeyLine(c, key) && OnDisk(w, key, b)
    requires b.Some? ==> ValidBundle(c, b.value)
    requires e.generationReadable && e.fingerprintReadable && e.pinReadable
    ensures var r := Load(w.disk, e);
            && r.Ok?
            && r.value.generation == (if b.None? then None else Some(b.value.generation))
            && r.value.fingerprint == (if b.None? then None else Some(b.value.fingerprint))
            && (r.value.signingKey.Some? ==> SameMaterial(r.value.signingKey.value, key))
  {
    if b.Some? {
      RecordedDescribes(c, w, b.value);
    }
    PinReadsBack(c, key, key);
  }

  lemma OfferOfAccepted(c: Crypto, cfg: Config, d: Disk, e: PassEnv, l: Loaded, o: Offer)
    requires Load(d, e) == Ok(l) && e.requestSigned && e.response == Some(HttpResponse(200, Some(o.raw)))
    requires Verdict(c, cfg, l, e, o.raw) == Ok(o.bundle)
    ensures OfferOf(c, cfg, d, e) == Some(o)
  {
  }

  /** A response the server signs is offered, whatever the helper and the writes do. */
  lemma Offered(c: Crypto, key: string, w: World, b: Option<CaBundle>, o: Offer, e: PassEnv)
    requires Signed(c, key, o) && OnDisk(w, key, b) && (b.Some? ==> ValidBundle(c, b.value))
    requires Receives(e, o.raw)
    ensures OfferOf(c, NO_PIN, w.disk, e) == Some(o)
  {
    Valid(c, key, o);
    Loads(c, key, w, b, e);
    var l := Load(w.disk, e).value;
    assert FromResponse(c, o.raw, 1, l.signingKey) == Ok(o.bundle);
    OfferOfAccepted(c, NO_PIN, w.disk, e, l, o);
  }

  /** `b` is not the bundle of the offer, nor ahead of it. */
  predicate Outdated(b: Option<CaBundle>, o: Offer) {
    b.Some? ==>
      b.value.generation < o.bundle.generation
      || (b.value.generation == o.bundle.generation && b.value.fingerprint != o.bundle.fingerprint)
  }

  lemma FreshOnDisk(c: Crypto, key: string, w: World, b: Option<CaBundle>, o: Offer)
    requires HexDigests(c) && OnDisk(w, key, b) && (b.Some? ==> ValidBundle(c, b.value)) && Outdated(b, o)
    ensures Fresh(w, o)
  {
    if b.Some? {
      RecordedDescribes(c, w, b.value);
    }
  }

  lemma {:induction false} NoFailures(es: seq<Effect>)
    requires forall i :: 0 <= i < |es| ==> Failure(es[i]).None?
    ensures FirstFailure(es).None?
  {
    if es != [] {
      NoFailures(es[1..]);
    }
  }

  predicate AllWorks(e: PassEnv) {
    && e.syncWrite.Written? && e.generationWrite.Written? && e.fingerprintWrite.Written? && e.pinWrite.Written?
    && e.successWrite.Written? && e.pinRecheck && e.helper.Applied?
  }

  lemma WorkingTail(cfg: Config, pin: File, e: PassEnv, b: CaBundle)
    requires AllWorks(e)
    ensures FirstFailure(AfterPersist(cfg, pin, b, e)).None?
    ensures FirstFailure(PinEffects(cfg, pin, b, e) + [WriteSuccess(e)]).None?
  {
    NoFailures(AfterPersist(cfg, pin, b, e));
    NoFailures(PinEffects(cfg, pin, b, e) + [WriteSuccess(e)]);
  }

  lemma WorkingApply(cfg: Config, pin: File, e: PassEnv, o: Offer)
    requires AllWorks(e)
    ensures FirstFailure(PlanApply(cfg, pin, e, CallOf(o)).effects).None?
  {
    var b := o.bundle;
    WorkingTail(cfg, pin, e, b);
    PerformedFirst(WriteFingerprint(b, e), AfterPersist(cfg, pin, b, e));
    PerformedFirst(WriteGeneration(b, e), [WriteFingerprint(b, e)] + AfterPersist(cfg, pin, b, e));
    PerformedFirst(AskHelper(CallOf(o), e.helper), PlanPersist(cfg, pin, b, e).effects);
  }

  lemma WorkingPlan(cfg: Config, pin: File, l: Loaded, e: PassEnv, o: Offer)
    requires AllWorks(e) && (l.generation.Some? ==> l.generation.value <= o.bundle.generation)
    ensures var p := Before(WriteSync(e), PlanForBundle(cfg, pin, l, e, CallOf(o), None));
            ResultOf(p) == p.result && p.result.Ok?
  {
    WorkingTail(cfg, pin, e, o.bundle);
    WorkingApply(cfg, pin, e, o);
    PerformedFirst(WriteSync(e), PlanForBundle(cfg, pin, l, e, CallOf(o), None).effects);
  }

  /** A pass in which everything works applies, records and reports a bundle that is not yet on record. */
  lemma Updates(c: Crypto, key: string, w: World, b: Option<CaBundle>, o: Offer)
    requires Signed(c, key, o) && OnDisk(w, key, b) && (b.Some? ==> ValidBundle(c, b.value)) && Outdated(b, o)
    ensures var w' := PassWorld(c, NO_PIN, w, Env(o.raw, Written));
            && OnDisk(w', key, Some(o.bundle)) && OnHost(w', o.bundle)
            && w'.calls == w.calls + [CallOf(o)] && w'.acks == w.acks + [AppliedAck(o.bundle)]
            && (!w.disk.pin.Absent? ==> w'.disk.pin == w.disk.pin)
  {
    var e := Env(o.raw, Written);
    Offered(c, key, w, b, o, e);
    FreshOnDisk(c, key, w, b, o);
    FreshPlan(c, NO_PIN, w, e, o);
    WorkingApply(NO_PIN, w.disk.pin, e, o);
    BeforePerforms(WriteSync(e), PlanApply(NO_PIN, w.disk.pin, e, CallOf(o)));
    SuccessMeans(c, NO_PIN, w, e);
    WholePass(c, w, e, o);
  }

  /** The call and the pin after a whole pass with a fresh offer. */
  lemma WholePass(c: Crypto, w: World, e: PassEnv, o: Offer)
    requires HexDigests(c) && KeyLines(c) && OfferOf(c, NO_PIN, w.disk, e) == Some(o) && Fresh(w, o)
        && e.syncWrite.Written?
    ensures var w' := PassWorld(c, NO_PIN, w, e);
            && w'.calls == w.calls + [CallOf(o)]
            && (w'.disk.pin == w.disk.pin || (w.disk.pin.Absent? && w'.disk.pin == PinText(o.bundle)))
  {
    WholeIsPrefix(c, NO_PIN, w, e);
    FreshGetsToHelper(c, NO_PIN, w, e, o);
    FreshReaches(c, NO_PIN, w, e, o, |Effects(c, NO_PIN, w, e)|);
    PassKeepsPin(c, NO_PIN, w, e, |Effects(c, NO_PIN, w, e)|);
  }

  lemma TornFold(w: World, a: Effect, b: Effect, p: Plan, x: Effect)
    requires Failure(a).None? && Failure(b).None? && p.effects != [] && p.effects[0] == x && Failure(x).Some?
    ensures Fold(w, Performed(Before(a, Before(b, p)).effects)) == Step(Step(Step(w, a), b), x)
  {
    BeforePerforms(a, Before(b, p));
    BeforePerforms(b, p);
    assert Performed(p.effects) == [x];
    assert Performed(Before(a, Before(b, p)).effects) == [] + [a] + [b] + [x];
    FoldOne(w, [], a);
    FoldOne(w, [] + [a], b);
    FoldOne(w, [] + [a] + [b], x);
  }

  /** An applied bundle whose generation write is lost: the host has it, the records do not. */
  lemma TornApply(cfg: Config, w: World, e: PassEnv, o: Offer)
    requires e.syncWrite.Written? && e.helper.Applied? && e.generationWrite.FailedBefore?
    ensures var p := Before(WriteSync(e), PlanApply(cfg, w.disk.pin, e, CallOf(o)));
            var w' := Fold(w, Performed(p.effects));
            && OnHost(w', o.bundle) && w'.disk.pin == w.disk.pin
            && w'.disk.generation == w.disk.generation && w'.disk.fingerprint == w.disk.fingerprint
  {
    TornFold(w, WriteSync(e), AskHelper(CallOf(o), e.helper), PlanPersist(cfg, w.disk.pin, o.bundle, e),
             WriteGeneration(o.bundle, e));
    TornSteps(w, e, o);
  }

  lemma TornSteps(w: World, e: PassEnv, o: Offer)
    requires e.helper.Applied? && e.generationWrite.FailedBefore?
    ensures var w' := Step(Step(Step(w, WriteSync(e)), AskHelper(CallOf(o), e.helper)), WriteGeneration(o.bundle, e));
            && OnHost(w', o.bundle) && w'.disk.pin == w.disk.pin
            && w'.disk.generation == w.disk.generation && w'.disk.fingerprint == w.disk.fingerprint
  {
  }

  lemma Tears(c: Crypto, key: string, w: World, b: CaBundle, o: Offer)
    requires Signed(c, key, o) && OnDisk(w, key, Some(b)) && ValidBundle(c, b) && Outdated(Some(b), o)
    ensures var w' := PassWorld(c, NO_PIN, w, Env(o.raw, FailedBefore));
            OnDisk(w', key, Some(b)) && OnHost(w', o.bundle)
  {
    var e := Env(o.raw, FailedBefore);
    Offered(c, key, w, Some(b), o, e);
    FreshOnDisk(c, key, w, Some(b), o);
    FreshPlan(c, NO_PIN, w, e, o);
    TornApply(NO_PIN, w, e, o);
  }

  /** A pass that offers what the records say returns `Unchanged`, whatever the host runs. */
  lemma SaysUnchanged(c: Crypto, key: string, w: World, o: Offer)
    requires Signed(c, key, o) && OnDisk(w, key, Some(o.bundle))
    ensures PassResult(c, NO_PIN, w, Env(o.raw, Written)) == Ok(Unchanged(o.bundle.generation))
    ensures OfferOf(c, NO_PIN, w.disk, Env(o.raw, Written)) == Some(o)
  {
    var e := Env(o.raw, Written);
    Valid(c, key, o);
    Offered(c, key, w, Some(o.bundle), o, e);
    PlanOfOffer(c, NO_PIN, w.disk, e, o);
    Loads(c, key, w, Some(o.bundle), e);
    WorkingPlan(NO_PIN, w.disk.pin, Load(w.disk, e).value, e, o);
  }
}
