/**
 Exactly when a pass ends in each of its outcomes, exactly what a pass that ends so leaves in the world, and
 exactly when a key reaches the pin file.
 */
module SyncOutcomes {
  import opened Text
  import opened Storage
  import opened Bundle
  import opened CaSync
  import opened SyncService
  import opened SyncReach
  import opened SyncSafety
  import opened SyncReports
  import Rendering
  import TrustedCa

  // ---- How a pass starts ----

  /** The text of a number below 2^64: an optional plus sign and digits. */
  predicate IsNumber(t: string) {
    var d := if t != [] && t[0] == '+' then t[1..] else t;
    d != [] && AllDigits(d) && Value(d) <= 0xFFFF_FFFF_FFFF_FFFF
  }

  /** The three records can be read as text, and the generation is blank or a number. */
  predicate RecordsUsable(d: Disk, e: PassEnv) {
    && e.generationReadable && e.fingerprintReadable && e.pinReadable
    && !d.generation.NotUtf8? && !d.fingerprint.NotUtf8? && !d.pin.NotUtf8?
    && (d.generation.Holds? && Trim(d.generation.text) != [] ==> IsNumber(Trim(d.generation.text)))
  }

  /** The pass gets an answer: its records load, its request can be signed, and the server answers. */
  predicate Answered(w: World, e: PassEnv) {
    RecordsUsable(w.disk, e) && e.requestSigned && e.response.Some?
  }

  lemma LoadsIff(d: Disk, e: PassEnv)
    ensures Load(d, e).Ok? <==> RecordsUsable(d, e)
  {
  }

  /** The error for a record that cannot be used: not read, not text, or, for the generation, not a number. */
  predicate Unusable(f: File, readable: bool, number: bool, x: Error) {
    if !readable then x == FileFailure(Io)
    else if f.NotUtf8? then x == FileFailure(InvalidText)
    else number && f.Holds? && Trim(f.text) != [] && !IsNumber(Trim(f.text)) && x == MachineRecordInvalid
  }

  /** The error for a pass without an answer: the first record that cannot be used, the signature, or the transport. */
  ghost predicate Unanswered(d: Disk, e: PassEnv, x: Error) {
    if exists y :: Unusable(d.generation, e.generationReadable, true, y) then
      Unusable(d.generation, e.generationReadable, true, x)
    else if exists y :: Unusable(d.fingerprint, e.fingerprintReadable, false, y) then
      Unusable(d.fingerprint, e.fingerprintReadable, false, x)
    else if exists y :: Unusable(d.pin, e.pinReadable, false, y) then Unusable(d.pin, e.pinReadable, false, x)
    else x == if !e.requestSigned then RequestSigning else CaBundleTransport
  }

  lemma UnusableReads(f: File, readable: bool, x: FileError)
    ensures ReadText(f, readable) == Err(x) <==> Unusable(f, readable, false, FileFailure(x))
    ensures forall y :: Unusable(f, readable, false, y) ==> y.FileFailure? && ReadText(f, readable).Err?
  {
  }

  lemma UnusableGeneration(f: File, readable: bool, x: Error)
    ensures ReadGeneration(f, readable) == Err(x) <==> Unusable(f, readable, true, x)
  {
  }

  lemma UnansweredFails(c: Crypto, cfg: Config, w: World, e: PassEnv)
    requires !Answered(w, e)
    ensures PassResult(c, cfg, w, e).Err? && Unanswered(w.disk, e, PassResult(c, cfg, w, e).error)
  {
    var d := w.disk;
    LoadsIff(d, e);
    forall x ensures ReadGeneration(d.generation, e.generationReadable) == Err(x)
                <==> Unusable(d.generation, e.generationReadable, true, x) {
      UnusableGeneration(d.generation, e.generationReadable, x);
    }
    forall x ensures ReadText(d.fingerprint, e.fingerprintReadable) == Err(x)
                <==> Unusable(d.fingerprint, e.fingerprintReadable, false, FileFailure(x)) {
      UnusableReads(d.fingerprint, e.fingerprintReadable, x);
    }
    forall x ensures ReadText(d.pin, e.pinReadable) == Err(x)
                <==> Unusable(d.pin, e.pinReadable, false, FileFailure(x)) {
      UnusableReads(d.pin, e.pinReadable, x);
    }
    UnusableReads(d.fingerprint, e.fingerprintReadable, Io);
    UnusableReads(d.pin, e.pinReadable, Io);
  }

  /** A pass without an answer does nothing at all and fails; one with an answer at least tries to stamp it. */
  lemma StartsIff(c: Crypto, cfg: Config, w: World, e: PassEnv)
    ensures Effects(c, cfg, w, e) == [] <==> !Answered(w, e)
    ensures !Answered(w, e) ==> PassWorld(c, cfg, w, e) == w && PassResult(c, cfg, w, e).Err?
  {
    LoadsIff(w.disk, e);
    if Answered(w, e) {
      var l := Load(w.disk, e).value;
      BeforePerforms(WriteSync(e), PlanForResponse(c, cfg, w.disk.pin, l, e, e.response.value));
    }
  }

  /** A response is offered if and only if it is a 2xx answer that is accepted under the trust anchor. */
  lemma OfferedIff(c: Crypto, cfg: Config, w: World, e: PassEnv, o: Offer)
    ensures OfferOf(c, cfg, w.disk, e) == Some(o) <==>
              && Answered(w, e) && 200 <= e.response.value.status < 300
              && e.response.value.bundle == Some(o.raw)
              && FromResponse(c, o.raw, e.now, TrustAnchor(cfg, w)) == Ok(o.bundle)
  {
    LoadsIff(w.disk, e);
    if Load(w.disk, e).Ok? {
      LoadedDescribes(w, e, Load(w.disk, e).value);
    }
  }

  // ---- The plan, with and without an offer ----

  lemma OfferedPlan(c: Crypto, cfg: Config, w: World, e: PassEnv, o: Offer)
    requires OfferOf(c, cfg, w.disk, e) == Some(o)
    ensures Load(w.disk, e).Ok? && Describe(Load(w.disk, e).value, w)
    ensures PlanOf(c, cfg, w.disk, e) == Before(WriteSync(e),
        PlanForBundle(cfg, w.disk.pin, Load(w.disk, e).value, e, CallOf(o), DefectOf(Rendering.Render(o.bundle))))
  {
    LoadedDescribes(w, e, Load(w.disk, e).value);
  }

  /** The error for an answer that is not taken up. */
  predicate Refuses(x: Error, c: Crypto, anchor: Option<string>, e: PassEnv, response: HttpResponse) {
    if response.status < 200 || response.status >= 300 then x == CaBundleRejected
    else if response.bundle.None? then x == InvalidCaBundle(InvalidKey)
    else x.InvalidCaBundle? && FromResponse(c, response.bundle.value, e.now, anchor) == Err(x.reason)
  }

  lemma UnofferedPlan(c: Crypto, cfg: Config, w: World, e: PassEnv)
    requires Answered(w, e) && OfferOf(c, cfg, w.disk, e) == None
    ensures var p := PlanOf(c, cfg, w.disk, e);
            if e.response.value.status == 304
            then p == Before(WriteSync(e), Plan([WriteSuccess(e)], Ok(NotModified(DiskGeneration(w)))))
            else p.result.Err? && p == Before(WriteSync(e), Plan([], p.result))
                 && Refuses(p.result.error, c, TrustAnchor(cfg, w), e, e.response.value)
  {
    LoadsIff(w.disk, e);
    LoadedDescribes(w, e, Load(w.disk, e).value);
  }

  // ---- When a pass ends in which outcome ----

  lemma StampWorks(e: PassEnv)
    ensures FirstFailure([WriteSuccess(e)]).None? <==> e.successWrite.Written?
  {
    PerformedFirst(WriteSuccess(e), []);
  }

  /** What a pass with an offer returns once the contact is stamped: nothing is said about its effects. */
  lemma OfferedResult(cfg: Config, w: World, l: Loaded, e: PassEnv, o: Offer)
    requires Describe(l, w)
    ensures var p := PlanForBundle(cfg, w.disk.pin, l, e, CallOf(o), None);
            && (o.bundle.generation < DiskGeneration(w) ==> p == Plan([], Err(InvalidCaBundle(GenerationRegressed))))
            && (DiskDescribes(w, o.bundle) ==>
                  p == Plan(PinEffects(cfg, w.disk.pin, o.bundle, e) + [WriteSuccess(e)],
                            Ok(Unchanged(o.bundle.generation))))
            && (Fresh(w, o) ==> p == PlanApply(cfg, w.disk.pin, e, CallOf(o)))
            && (o.bundle.generation < DiskGeneration(w) || DiskDescribes(w, o.bundle) || Fresh(w, o))
  {
  }

  /** The pin check and, if there is to be one, the pin write go through. */
  predicate PinWorks(cfg: Config, pin: File, e: PassEnv) {
    cfg.operatorPin.Some? || (e.pinRecheck && (pin.Absent? ==> e.pinWrite.Written?))
  }

  /** The result of a pass with an offer, in terms of the records and of what goes through. */
  predicate OfferedEnd(cfg: Config, w: World, e: PassEnv, o: Offer, r: Result<SyncOutcome, Error>) {
    var b := o.bundle;
    if !e.syncWrite.Written? then r == Err(FileFailure(Io))
    else if b.generation < DiskGeneration(w) then r == Err(InvalidCaBundle(GenerationRegressed))
    else if DiskDescribes(w, b) then
      r == if PinWorks(cfg, w.disk.pin, e) && e.successWrite.Written? then Ok(Unchanged(b.generation))
           else Err(FileFailure(Io))
    else
      match e.helper
      case CallFailed(error, _) => r == Err(Helper(error))
      case RolledBack => r == Err(CaReloadFailed)
      case Applied =>
        r == if PersistWorks(cfg, w.disk.pin, e)
             then Ok(Updated(b.generation, b.fingerprint,
                             e.ackSigned && e.ackStatus.Some? && 200 <= e.ackStatus.value < 300))
             else Err(FileFailure(Io))
  }

  predicate OnlyFiles(es: seq<Effect>) {
    forall i :: 0 <= i < |es| ==> es[i].Write? || es[i].CheckPin? || es[i].PostAck?
  }

  lemma {:induction false} FileErrors(es: seq<Effect>)
    requires OnlyFiles(es)
    ensures FirstFailure(es).Some? ==> FirstFailure(es).value == FileFailure(Io)
  {
    if es != [] {
      FileErrors(es[1..]);
    }
  }

  lemma UnchangedEnd(cfg: Config, w: World, e: PassEnv, o: Offer)
    ensures var p := Plan(PinEffects(cfg, w.disk.pin, o.bundle, e) + [WriteSuccess(e)],
                          Ok(Unchanged(o.bundle.generation)));
            ResultOf(p) == if PinWorks(cfg, w.disk.pin, e) && e.successWrite.Written? then p.result
                           else Err(FileFailure(Io))
  {
    var pins := PinEffects(cfg, w.disk.pin, o.bundle, e);
    PinWorksIff(cfg, w.disk.pin, o.bundle, e);
    StampWorks(e);
    PerformedAppend(pins, [WriteSuccess(e)]);
    FileErrors(pins + [WriteSuccess(e)]);
  }

  lemma AppliedEnd(cfg: Config, pin: File, e: PassEnv, o: Offer)
    ensures var p := PlanPersist(cfg, pin, o.bundle, e);
            ResultOf(p) == if PersistWorks(cfg, pin, e) then p.result else Err(FileFailure(Io))
  {
    PersistWorksIff(cfg, pin, o.bundle, e);
    FileErrors(PlanPersist(cfg, pin, o.bundle, e).effects);
  }

  lemma ApplyEnd(cfg: Config, w: World, e: PassEnv, o: Offer)
    requires e.syncWrite.Written? && Fresh(w, o)
    ensures OfferedEnd(cfg, w, e, o, ResultOf(PlanApply(cfg, w.disk.pin, e, CallOf(o))))
  {
    var ask := AskHelper(CallOf(o), e.helper);
    match e.helper
    case Applied =>
      AppliedEnd(cfg, w.disk.pin, e, o);
      BeforePerforms(ask, PlanPersist(cfg, w.disk.pin, o.bundle, e));
    case RolledBack =>
      RollbackAckWorks(o.bundle, e);
      BeforePerforms(ask, Plan(AckEffects(o.bundle, AckRollback, e), Err(CaReloadFailed)));
    case CallFailed(error, _) => BeforePerforms(ask, Plan([], Err(Helper(error))));
  }

  lemma OfferedEnds(c: Crypto, cfg: Config, w: World, e: PassEnv, o: Offer)
    requires HexDigests(c) && KeyLines(c) && OfferOf(c, cfg, w.disk, e) == Some(o)
    ensures OfferedEnd(cfg, w, e, o, PassResult(c, cfg, w, e))
  {
    OfferIsTrustworthy(c, cfg, w, e, o);
    Rendering.ParseRendered(c, o.bundle);
    OfferedPlan(c, cfg, w, e, o);
    var l := Load(w.disk, e).value;
    var p := PlanForBundle(cfg, w.disk.pin, l, e, CallOf(o), None);
    OfferedResult(cfg, w, l, e, o);
    BeforePerforms(WriteSync(e), p);
    UnchangedEnd(cfg, w, e, o);
    if e.syncWrite.Written? && Fresh(w, o) {
      ApplyEnd(cfg, w, e, o);
    }
  }

  /**
   What a pass returns, in every case: without an answer an error; for a 304 `NotModified` with the recorded
   generation; for an answer that is not taken up the reason; and for an offer by the records, the helper's reply and
   whether the writes go through.
   */
  lemma ResultIs(c: Crypto, cfg: Config, w: World, e: PassEnv)
    requires HexDigests(c) && KeyLines(c)
    ensures var r, offer := PassResult(c, cfg, w, e), OfferOf(c, cfg, w.disk, e);
            if !Answered(w, e) then r.Err? && Unanswered(w.disk, e, r.error)
            else if offer.Some? then OfferedEnd(cfg, w, e, offer.value, r)
            else if !e.syncWrite.Written? then r == Err(FileFailure(Io))
            else if e.response.value.status == 304 then
              r == if e.successWrite.Written? then Ok(NotModified(DiskGeneration(w))) else Err(FileFailure(Io))
            else r.Err? && Refuses(r.error, c, TrustAnchor(cfg, w), e, e.response.value)
  {
    StartsIff(c, cfg, w, e);
    if OfferOf(c, cfg, w.disk, e).Some? {
      OfferedIff(c, cfg, w, e, OfferOf(c, cfg, w.disk, e).value);
      OfferedEnds(c, cfg, w, e, OfferOf(c, cfg, w.disk, e).value);
    } else if !Answered(w, e) {
      UnansweredFails(c, cfg, w, e);
    } else {
      UnofferedPlan(c, cfg, w, e);
      StampWorks(e);
      FileErrors([WriteSuccess(e)]);
      BeforePerforms(WriteSync(e), Plan([WriteSuccess(e)], Ok(NotModified(DiskGeneration(w)))));
      BeforePerforms(WriteSync(e), Plan([], PlanOf(c, cfg, w.disk, e).result));
    }
  }

  // ---- What a pass leaves in the world ----

  /** The pin file once a pass has trusted `b`: its signing key, if there was no file and the operator set none. */
  function PinAfter(cfg: Config, pin: File, b: CaBundle): File {
    if cfg.operatorPin.None? && pin.Absent? then Holds(b.signingKey + "\n") else pin
  }

  /** Both time stamps are those of the pass. */
  function Stamped(d: Disk, e: PassEnv): Disk {
    d.(lastSync := Holds(e.syncStamp + "\n"), lastSuccess := Holds(e.successStamp + "\n"))
  }

  /** The whole world after a pass from `w` that succeeded with `r`, given what it was offered. */
  function WorldAfter(cfg: Config, w: World, offer: Option<Offer>, e: PassEnv, r: SyncOutcome): World {
    if offer.None? then w.(disk := Stamped(w.disk, e))
    else
      var b := offer.value.bundle;
      var d := Stamped(w.disk, e).(pin := PinAfter(cfg, w.disk.pin, b));
      match r
      case Updated(g, f, _) =>
        World(d.(generation := Holds(Dec(b.generation) + "\n"), fingerprint := Holds(b.fingerprint + "\n")),
              Some(Host(Rendering.Render(b), b)), w.calls + [Call(Rendering.Render(b), offer.value.raw, b)],
              w.acks + if e.ackSigned then [AckReport(g, f, AckApplied)] else [])
      case _ => w.(disk := d)
  }

  lemma PinsFold(cfg: Config, w: World, b: CaBundle, e: PassEnv)
    requires PinWorks(cfg, w.disk.pin, e)
    ensures Fold(w, PinEffects(cfg, w.disk.pin, b, e)) == w.(disk := w.disk.(pin := PinAfter(cfg, w.disk.pin, b)))
  {
    if cfg.operatorPin.None? {
      FoldOne(w, [], CheckPin(true));
      if w.disk.pin.Absent? {
        FoldOne(w, [] + [CheckPin(true)], Write(PinFile, b.signingKey + "\n", e.pinWrite));
        assert PinEffects(cfg, w.disk.pin, b, e) ==
          [] + [CheckPin(true)] + [Write(PinFile, b.signingKey + "\n", e.pinWrite)];
      } else {
        assert PinEffects(cfg, w.disk.pin, b, e) == [] + [CheckPin(true)];
      }
    }
  }

  /** The pin and the success stamp, the tail of both successful branches. */
  lemma TailFold(cfg: Config, w: World, b: CaBundle, e: PassEnv)
    requires PinWorks(cfg, w.disk.pin, e) && e.successWrite.Written?
    ensures Fold(w, PinEffects(cfg, w.disk.pin, b, e) + [WriteSuccess(e)]) ==
            w.(disk := w.disk.(pin := PinAfter(cfg, w.disk.pin, b), lastSuccess := Holds(e.successStamp + "\n")))
  {
    PinsFold(cfg, w, b, e);
    FoldOne(w, PinEffects(cfg, w.disk.pin, b, e), WriteSuccess(e));
  }

  /** The pin, the success stamp and the report. */
  lemma AfterFold(cfg: Config, w: World, b: CaBundle, e: PassEnv)
    requires PinWorks(cfg, w.disk.pin, e) && e.successWrite.Written?
    ensures Fold(w, AfterPersist(cfg, w.disk.pin, b, e)) ==
            w.(disk := w.disk.(pin := PinAfter(cfg, w.disk.pin, b), lastSuccess := Holds(e.successStamp + "\n")),
               acks := w.acks + if e.ackSigned then [AppliedAck(b)] else [])
  {
    var minor := PinEffects(cfg, w.disk.pin, b, e) + [WriteSuccess(e)];
    TailFold(cfg, w, b, e);
    if e.ackSigned {
      FoldOne(w, minor, PostAck(AppliedAck(b)));
    } else {
      assert AfterPersist(cfg, w.disk.pin, b, e) == minor;
    }
  }

  lemma RecordsFold(w: World, b: CaBundle, e: PassEnv, rest: seq<Effect>)
    requires e.generationWrite.Written? && e.fingerprintWrite.Written?
    ensures Fold(w, [WriteGeneration(b, e)] + ([WriteFingerprint(b, e)] + rest)) ==
            Fold(w.(disk := w.disk.(generation := Holds(Dec(b.generation) + "\n"),
                                    fingerprint := Holds(b.fingerprint + "\n"))), rest)
  {
    FoldFirst(w, WriteGeneration(b, e), [WriteFingerprint(b, e)] + rest);
    FoldFirst(Step(w, WriteGeneration(b, e)), WriteFingerprint(b, e), rest);
  }

  /** Everything a pass does once the host has taken the body. */
  lemma PersistFold(cfg: Config, w: World, o: Offer, e: PassEnv)
    requires PersistWorks(cfg, w.disk.pin, e)
    ensures var b := o.bundle;
            Fold(w, PlanPersist(cfg, w.disk.pin, b, e).effects) ==
            w.(disk := w.disk.(generation := Holds(Dec(b.generation) + "\n"),
                               fingerprint := Holds(b.fingerprint + "\n"),
                               pin := PinAfter(cfg, w.disk.pin, b), lastSuccess := Holds(e.successStamp + "\n")),
               acks := w.acks + if e.ackSigned then [AppliedAck(b)] else [])
  {
    var b := o.bundle;
    var d := w.disk.(generation := Holds(Dec(b.generation) + "\n"), fingerprint := Holds(b.fingerprint + "\n"));
    RecordsFold(w, b, e, AfterPersist(cfg, w.disk.pin, b, e));
    AfterFold(cfg, w.(disk := d), b, e);
  }

  lemma WholeFold(c: Crypto, cfg: Config, w: World, e: PassEnv, p: Plan)
    requires PlanOf(c, cfg, w.disk, e) == Before(WriteSync(e), p) && PassResult(c, cfg, w, e).Ok?
    ensures e.syncWrite.Written? && ResultOf(p).Ok?
    ensures PassWorld(c, cfg, w, e) == Fold(Step(w, WriteSync(e)), p.effects)
  {
    BeforePerforms(WriteSync(e), p);
    PerformedWhole(PlanOf(c, cfg, w.disk, e).effects);
    FoldFirst(w, WriteSync(e), p.effects);
  }

  lemma UpdatedWorld(cfg: Config, w: World, e: PassEnv, o: Offer)
    requires e.syncWrite.Written? && e.helper.Applied? && PersistWorks(cfg, w.disk.pin, e)
    ensures Fold(Step(w, WriteSync(e)), PlanApply(cfg, w.disk.pin, e, CallOf(o)).effects) ==
            WorldAfter(cfg, w, Some(o), e, Updated(o.bundle.generation, o.bundle.fingerprint, Acknowledged(e)))
  {
    var w1 := Step(w, WriteSync(e));
    FoldFirst(w1, AskHelper(CallOf(o), e.helper), PlanPersist(cfg, w.disk.pin, o.bundle, e).effects);
    PersistFold(cfg, Step(w1, AskHelper(CallOf(o), e.helper)), o, e);
  }

  /**
   A successful pass leaves exactly this: its two time stamps; for an offer, the offer's signing key in a pin file that
   was missing and is not overridden; after an update also the two records, the host on the body, one call and, if it
   could be signed, one report. Everything else is as it was.
   */
  lemma SuccessLeaves(c: Crypto, cfg: Config, w: World, e: PassEnv)
    requires HexDigests(c) && KeyLines(c) && PassResult(c, cfg, w, e).Ok?
    ensures PassWorld(c, cfg, w, e)
         == WorldAfter(cfg, w, OfferOf(c, cfg, w.disk, e), e, PassResult(c, cfg, w, e).value)
  {
    var offer := OfferOf(c, cfg, w.disk, e);
    ResultIs(c, cfg, w, e);
    if offer.None? {
      UnofferedPlan(c, cfg, w, e);
      WholeFold(c, cfg, w, e, Plan([WriteSuccess(e)], Ok(NotModified(DiskGeneration(w)))));
      FoldOne(Step(w, WriteSync(e)), [], WriteSuccess(e));
      assert [] + [WriteSuccess(e)] == [WriteSuccess(e)];
    } else {
      OfferLeaves(c, cfg, w, e, offer.value);
    }
  }

  /** The plan for an offer that is on record. */
  lemma RecordedPlan(c: Crypto, cfg: Config, w: World, e: PassEnv, o: Offer)
    requires OfferOf(c, cfg, w.disk, e) == Some(o) && DiskDescribes(w, o.bundle)
    ensures PlanOf(c, cfg, w.disk, e).effects ==
            [WriteSync(e)] + (PinEffects(cfg, w.disk.pin, o.bundle, e) + [WriteSuccess(e)])
  {
    OfferedPlan(c, cfg, w, e, o);
    BundleCases(cfg, w.disk.pin, w, Load(w.disk, e).value, o, e, DefectOf(Rendering.Render(o.bundle)));
  }

  lemma StampedWhole(w: World, e: PassEnv, tail: seq<Effect>)
    requires e.syncWrite.Written? && FirstFailure(tail).None?
    ensures Fold(w, Performed([WriteSync(e)] + tail)) == Fold(Step(w, WriteSync(e)), tail)
  {
    PerformedFirst(WriteSync(e), tail);
    PerformedWhole(tail);
    FoldFirst(w, WriteSync(e), tail);
  }

  lemma StampedTail(cfg: Config, w: World, e: PassEnv, o: Offer)
    requires e.syncWrite.Written? && PinWorks(cfg, w.disk.pin, e) && e.successWrite.Written?
    ensures Fold(w, Performed([WriteSync(e)] + (PinEffects(cfg, w.disk.pin, o.bundle, e) + [WriteSuccess(e)])))
         == WorldAfter(cfg, w, Some(o), e, Unchanged(o.bundle.generation))
  {
    var tail := PinEffects(cfg, w.disk.pin, o.bundle, e) + [WriteSuccess(e)];
    UnchangedEnd(cfg, w, e, o);
    StampedWhole(w, e, tail);
    TailFold(cfg, Step(w, WriteSync(e)), o.bundle, e);
  }

  lemma UnchangedLeaves(c: Crypto, cfg: Config, w: World, e: PassEnv, o: Offer)
    requires OfferOf(c, cfg, w.disk, e) == Some(o) && DiskDescribes(w, o.bundle)
    requires e.syncWrite.Written? && PinWorks(cfg, w.disk.pin, e) && e.successWrite.Written?
    ensures PassWorld(c, cfg, w, e) == WorldAfter(cfg, w, Some(o), e, Unchanged(o.bundle.generation))
  {
    RecordedPlan(c, cfg, w, e, o);
    StampedTail(cfg, w, e, o);
  }

  lemma UpdatedLeaves(c: Crypto, cfg: Config, w: World, e: PassEnv, o: Offer)
    requires HexDigests(c) && KeyLines(c) && OfferOf(c, cfg, w.disk, e) == Some(o) && Fresh(w, o)
    requires e.helper.Applied? && PersistWorks(cfg, w.disk.pin, e) && PassResult(c, cfg, w, e).Ok?
    ensures PassWorld(c, cfg, w, e) ==
            WorldAfter(cfg, w, Some(o), e, Updated(o.bundle.generation, o.bundle.fingerprint, Acknowledged(e)))
  {
    FreshPlan(c, cfg, w, e, o);
    WholeFold(c, cfg, w, e, PlanApply(cfg, w.disk.pin, e, CallOf(o)));
    UpdatedWorld(cfg, w, e, o);
  }

  lemma OfferLeaves(c: Crypto, cfg: Config, w: World, e: PassEnv, o: Offer)
    requires HexDigests(c) && KeyLines(c) && OfferOf(c, cfg, w.disk, e) == Some(o) && PassResult(c, cfg, w, e).Ok?
    ensures PassWorld(c, cfg, w, e) == WorldAfter(cfg, w, Some(o), e, PassResult(c, cfg, w, e).value)
  {
    OfferedEnds(c, cfg, w, e, o);
    if DiskDescribes(w, o.bundle) {
      UnchangedLeaves(c, cfg, w, e, o);
    } else {
      UpdatedLeaves(c, cfg, w, e, o);
    }
  }

  // ---- When a key reaches the pin file ----

  predicate PinWrite(e: Effect) {
    e.Write? && e.file == PinFile
  }

  /** An effect in front that is no pin write: the pin is decided by what follows, if it gets that far. */
  lemma PinBehind(w: World, a: Effect, p: Plan)
    requires !PinWrite(a)
    ensures Step(w, a).disk.pin == w.disk.pin
    ensures Fold(w, Performed(Before(a, p).effects)).disk.pin ==
            if Failure(a).Some? then w.disk.pin else Fold(Step(w, a), Performed(p.effects)).disk.pin
  {
    BeforePerforms(a, p);
    FoldFirst(w, a, []);
    FoldFirst(w, a, Performed(p.effects));
    assert [a] + [] == [a];
  }

  /** Effects behind that are no pin writes do not matter. */
  lemma {:induction false} PinBefore(w: World, es: seq<Effect>)
    requires forall i :: 0 <= i < |es| ==> !PinWrite(es[i])
    ensures Fold(w, es).disk.pin == w.disk.pin
  {
    if es != [] {
      PinBefore(w, es[..|es| - 1]);
    }
  }

  /** A pin write in front, and nothing behind that writes the pin. */
  lemma PinInFront(w: World, b: CaBundle, e: PassEnv, rest: seq<Effect>)
    requires w.disk.pin.Absent? && forall i :: 0 <= i < |rest| ==> !PinWrite(rest[i])
    ensures Fold(w, Performed([Write(PinFile, b.signingKey + "\n", e.pinWrite)] + rest)).disk.pin ==
            if e.pinWrite.FailedBefore? then Absent else PinText(b)
  {
    var write := Write(PinFile, b.signingKey + "\n", e.pinWrite);
    PerformedFirst(write, rest);
    FoldFirst(w, write, []);
    FoldFirst(w, write, Performed(rest));
    assert [write] + [] == [write];
    PinBefore(Step(w, write), Performed(rest));
  }

  lemma CheckInFront(w: World, e: PassEnv, rest: seq<Effect>)
    ensures Fold(w, Performed([CheckPin(e.pinRecheck)] + rest)) ==
            if e.pinRecheck then Fold(w, Performed(rest)) else w
  {
    PerformedFirst(CheckPin(e.pinRecheck), rest);
    FoldFirst(w, CheckPin(e.pinRecheck), []);
    FoldFirst(w, CheckPin(e.pinRecheck), Performed(rest));
    assert [CheckPin(e.pinRecheck)] + [] == [CheckPin(e.pinRecheck)];
  }

  lemma PinList(cfg: Config, pin: File, b: CaBundle, e: PassEnv, rest: seq<Effect>)
    requires cfg.operatorPin.None? && pin.Absent?
    ensures PinEffects(cfg, pin, b, e) + rest ==
            [CheckPin(e.pinRecheck)]
            + if e.pinRecheck then [Write(PinFile, b.signingKey + "\n", e.pinWrite)] + rest else rest
  {
    var check := [CheckPin(e.pinRecheck)];
    if e.pinRecheck {
      var write := [Write(PinFile, b.signingKey + "\n", e.pinWrite)];
      assert PinEffects(cfg, pin, b, e) == check + write;
      assert check + write + rest == check + (write + rest);
    } else {
      assert PinEffects(cfg, pin, b, e) == check;
    }
  }

  /** What the pin check and write leave, whatever follows them. */
  lemma PinsLeave(cfg: Config, w: World, b: CaBundle, e: PassEnv, rest: seq<Effect>)
    requires cfg.operatorPin.None? && w.disk.pin.Absent?
    requires forall i :: 0 <= i < |rest| ==> !PinWrite(rest[i])
    ensures Fold(w, Performed(PinEffects(cfg, w.disk.pin, b, e) + rest)).disk.pin ==
            if e.pinRecheck && !e.pinWrite.FailedBefore? then PinText(b) else Absent
  {
    PinList(cfg, w.disk.pin, b, e, rest);
    if e.pinRecheck {
      CheckInFront(w, e, [Write(PinFile, b.signingKey + "\n", e.pinWrite)] + rest);
      PinInFront(w, b, e, rest);
    } else {
      CheckInFront(w, e, rest);
    }
  }

  /** The pass trusts the offer: it is on record, or the helper applied it and both records were written. */
  predicate Trusts(w: World, e: PassEnv, o: Offer) {
    || DiskDescribes(w, o.bundle)
    || (Fresh(w, o) && e.helper.Applied? && e.generationWrite.Written? && e.fingerprintWrite.Written?)
  }

  /** The pin write is made and takes effect. */
  predicate WritesPin(w: World, e: PassEnv, o: Offer) {
    e.syncWrite.Written? && Trusts(w, e, o) && e.pinRecheck && !e.pinWrite.FailedBefore?
  }

  lemma RecordsPin(w: World, b: CaBundle, e: PassEnv, tail: Plan)
    ensures Fold(w, Performed(Before(WriteGeneration(b, e), Before(WriteFingerprint(b, e), tail)).effects)).disk.pin ==
            if e.generationWrite.Written? && e.fingerprintWrite.Written?
            then Fold(Step(Step(w, WriteGeneration(b, e)), WriteFingerprint(b, e)), Performed(tail.effects)).disk.pin
            else w.disk.pin
  {
    var w1 := Step(w, WriteGeneration(b, e));
    PinBehind(w, WriteGeneration(b, e), Before(WriteFingerprint(b, e), tail));
    PinBehind(w1, WriteFingerprint(b, e), tail);
  }

  lemma PersistPin(cfg: Config, w: World, o: Offer, e: PassEnv)
    requires cfg.operatorPin.None? && w.disk.pin.Absent?
    ensures Fold(w, Performed(PlanPersist(cfg, w.disk.pin, o.bundle, e).effects)).disk.pin ==
            if e.generationWrite.Written? && e.fingerprintWrite.Written? && e.pinRecheck && !e.pinWrite.FailedBefore?
            then PinText(o.bundle) else Absent
  {
    var b := o.bundle;
    var tail := Plan(AfterPersist(cfg, w.disk.pin, b, e), Ok(Updated(b.generation, b.fingerprint, Acknowledged(e))));
    var rest := [WriteSuccess(e)] + AckEffects(b, AckApplied, e);
    RecordsPin(w, b, e, tail);
    PinsLeave(cfg, Step(Step(w, WriteGeneration(b, e)), WriteFingerprint(b, e)), b, e, rest);
    assert tail.effects == PinEffects(cfg, w.disk.pin, b, e) + rest;
  }

  lemma AskPin(cfg: Config, w: World, o: Offer, e: PassEnv)
    requires cfg.operatorPin.None? && w.disk.pin.Absent?
    ensures Fold(w, Performed(PlanApply(cfg, w.disk.pin, e, CallOf(o)).effects)).disk.pin ==
            if && e.helper.Applied? && e.generationWrite.Written? && e.fingerprintWrite.Written?
               && e.pinRecheck && !e.pinWrite.FailedBefore?
            then PinText(o.bundle) else Absent
  {
    var ask := AskHelper(CallOf(o), e.helper);
    match e.helper
    case Applied =>
      PinBehind(w, ask, PlanPersist(cfg, w.disk.pin, o.bundle, e));
      PersistPin(cfg, Step(w, ask), o, e);
    case RolledBack =>
      PinBehind(w, ask, Plan(AckEffects(o.bundle, AckRollback, e), Err(CaReloadFailed)));
      PinBefore(Step(w, ask), Performed(AckEffects(o.bundle, AckRollback, e)));
    case CallFailed(error, _) => PinBehind(w, ask, Plan([], Err(Helper(error))));
  }

  lemma ApplyPin(cfg: Config, w: World, o: Offer, e: PassEnv)
    requires cfg.operatorPin.None? && w.disk.pin.Absent? && Fresh(w, o)
    ensures Fold(w, Performed(Before(WriteSync(e), PlanApply(cfg, w.disk.pin, e, CallOf(o))).effects)).disk.pin ==
            if WritesPin(w, e, o) then PinText(o.bundle) else Absent
  {
    PinBehind(w, WriteSync(e), PlanApply(cfg, w.disk.pin, e, CallOf(o)));
    AskPin(cfg, Step(w, WriteSync(e)), o, e);
  }

  lemma RecordedPin(cfg: Config, w: World, o: Offer, e: PassEnv)
    requires cfg.operatorPin.None? && w.disk.pin.Absent? && DiskDescribes(w, o.bundle)
    ensures Fold(w, Performed([WriteSync(e)]
                              + (PinEffects(cfg, w.disk.pin, o.bundle, e) + [WriteSuccess(e)]))).disk.pin ==
            if WritesPin(w, e, o) then PinText(o.bundle) else Absent
  {
    var tail := Plan(PinEffects(cfg, w.disk.pin, o.bundle, e) + [WriteSuccess(e)], Err(CaReloadFailed));
    PinBehind(w, WriteSync(e), tail);
    PinsLeave(cfg, Step(w, WriteSync(e)), o.bundle, e, [WriteSuccess(e)]);
  }

  lemma FreshPin(c: Crypto, cfg: Config, w: World, e: PassEnv, o: Offer)
    requires HexDigests(c) && KeyLines(c) && cfg.operatorPin.None? && w.disk.pin.Absent?
    requires OfferOf(c, cfg, w.disk, e) == Some(o) && Fresh(w, o)
    ensures PassWorld(c, cfg, w, e).disk.pin == if WritesPin(w, e, o) then PinText(o.bundle) else Absent
  {
    FreshPlan(c, cfg, w, e, o);
    ApplyPin(cfg, w, o, e);
  }

  lemma OfferedPin(c: Crypto, cfg: Config, w: World, e: PassEnv, o: Offer)
    requires HexDigests(c) && KeyLines(c) && cfg.operatorPin.None? && w.disk.pin.Absent?
    requires OfferOf(c, cfg, w.disk, e) == Some(o)
    ensures PassWorld(c, cfg, w, e).disk.pin == if WritesPin(w, e, o) then PinText(o.bundle) else Absent
  {
    if Fresh(w, o) {
      FreshPin(c, cfg, w, e, o);
    } else if DiskDescribes(w, o.bundle) {
      RecordedPlan(c, cfg, w, e, o);
      RecordedPin(cfg, w, o, e);
    } else {
      BehindPlan(c, cfg, w, e, o);
      PinBefore(w, Effects(c, cfg, w, e));
    }
  }

  /**
   Without an operator pin and without a pin file, a pass leaves the offer's signing key in the pin file if it trusts
   the offer and gets to a pin write that takes effect, and otherwise leaves no pin file: every pass, failed or not.
   */
  lemma PinWrittenIff(c: Crypto, cfg: Config, w: World, e: PassEnv)
    requires HexDigests(c) && KeyLines(c) && cfg.operatorPin.None? && w.disk.pin.Absent?
    ensures var offer := OfferOf(c, cfg, w.disk, e);
            PassWorld(c, cfg, w, e).disk.pin ==
            if offer.Some? && WritesPin(w, e, offer.value) then Holds(offer.value.bundle.signingKey + "\n") else Absent
  {
    var offer := OfferOf(c, cfg, w.disk, e);
    if offer.Some? {
      OfferedPin(c, cfg, w, e, offer.value);
    } else {
      WholeIsPrefix(c, cfg, w, e);
      PassKeepsPin(c, cfg, w, e, |Effects(c, cfg, w, e)|);
    }
  }

  lemma BehindPlan(c: Crypto, cfg: Config, w: World, e: PassEnv, o: Offer)
    requires OfferOf(c, cfg, w.disk, e) == Some(o) && !Fresh(w, o) && !DiskDescribes(w, o.bundle)
    ensures Effects(c, cfg, w, e) == [WriteSync(e)]
  {
    OfferedPlan(c, cfg, w, e, o);
    BundleCases(cfg, w.disk.pin, w, Load(w.disk, e).value, o, e, DefectOf(Rendering.Render(o.bundle)));
    PerformedFirst(WriteSync(e), []);
  }

  lemma SuccessPins(c: Crypto, cfg: Config, w: World, e: PassEnv, o: Offer)
    requires HexDigests(c) && KeyLines(c) && cfg.operatorPin.None? && w.disk.pin.Absent?
    requires OfferOf(c, cfg, w.disk, e) == Some(o) && PassResult(c, cfg, w, e).Ok?
    ensures PassWorld(c, cfg, w, e).disk.pin == Holds(o.bundle.signingKey + "\n")
  {
    SuccessLeaves(c, cfg, w, e);
  }

  /** A pin file with the key of an accepted bundle is an anchor with that key's material. */
  lemma PinAnchors(c: Crypto, cfg: Config, w: World, b: CaBundle)
    requires KeyLines(c) && cfg.operatorPin.None? && ValidKeyLine(c, b.signingKey)
    requires w.disk.pin == Holds(b.signingKey + "\n")
    ensures TrustAnchor(cfg, w).Some? && SameMaterial(TrustAnchor(cfg, w).value, b.signingKey)
  {
    PinReadsBack(c, b.signingKey, b.signingKey);
  }

  /**
   Trust on first use: the first pass that succeeds on an offer pins its key, and from then on that key's material is
   what passes expect, so that the next offer is signed under it.
   */
  lemma FirstUsePins(c: Crypto, cfg: Config, w: World, e: PassEnv, o: Offer, e': PassEnv)
    requires HexDigests(c) && KeyLines(c) && cfg.operatorPin.None? && w.disk.pin.Absent?
    requires OfferOf(c, cfg, w.disk, e) == Some(o) && PassResult(c, cfg, w, e).Ok?
    ensures var w1 := PassWorld(c, cfg, w, e);
            && w1.disk.pin == Holds(o.bundle.signingKey + "\n")
            && TrustAnchor(cfg, w1).Some? && SameMaterial(TrustAnchor(cfg, w1).value, o.bundle.signingKey)
            && (Load(w1.disk, e').Ok? ==> ExpectedKey(cfg, Load(w1.disk, e').value) == TrustAnchor(cfg, w1))
            && (OfferOf(c, cfg, w1.disk, e').Some? ==>
                  AlikeKeys(o.bundle.signingKey, OfferOf(c, cfg, w1.disk, e').value.bundle.signingKey))
  {
    var w1 := PassWorld(c, cfg, w, e);
    SuccessPins(c, cfg, w, e, o);
    OfferIsTrustworthy(c, cfg, w, e, o);
    PinAnchors(c, cfg, w1, o.bundle);
    if Load(w1.disk, e').Ok? {
      LoadedDescribes(w1, e', Load(w1.disk, e').value);
    }
    if OfferOf(c, cfg, w1.disk, e').Some? {
      OfferIsTrustworthy(c, cfg, w1, e', OfferOf(c, cfg, w1.disk, e').value);
    }
  }
}
