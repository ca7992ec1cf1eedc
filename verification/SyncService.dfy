/**
 `CaSyncService` as the program it is: it reads and overwrites the state files step by step, calls the
 helper, posts the acknowledgement, and returns at the first failure.
 */
module SyncService {
  import opened Text
  import opened Storage
  import opened Bundle
  import opened CaSync
  import Rendering
  import TrustedCa

  lemma EffectsAssoc(a: seq<Effect>, b: seq<Effect>, c: seq<Effect>)
    ensures a + b + c == a + (b + c)
  {
  }

  lemma FoldOne(w: World, es: seq<Effect>, e: Effect)
    ensures Fold(w, es + [e]) == Step(Fold(w, es), e)
  {
    assert (es + [e])[..|es + [e]| - 1] == es;
  }

  lemma StepWrite(w: World, f: StateFile, text: string, o: WriteOutcome)
    ensures var d := Put(w.disk, f, AfterWrite(Get(w.disk, f), Holds(text), o));
            Step(w, Write(f, text, o)) == World(d, w.host, w.calls, w.acks)
            && (f != PinFile ==> d.pin == w.disk.pin)
  {
  }

  lemma {:induction false} FoldAppend(w: World, a: seq<Effect>, b: seq<Effect>)
    ensures Fold(w, a + b) == Fold(Fold(w, a), b)
  {
    if b == [] {
      assert a + b == a;
    } else {
      var n := |b| - 1;
      assert (a + b)[..|a + b| - 1] == a + b[..n] && (a + b)[|a + b| - 1] == b[n];
      FoldAppend(w, a, b[..n]);
    }
  }

  /** One effect in front of a list is performed, and the rest only if it goes through. */
  lemma PerformedFirst(a: Effect, b: seq<Effect>)
    ensures FirstFailure([a] + b) == if Failure(a).Some? then Failure(a) else FirstFailure(b)
    ensures Performed([a] + b) == if Failure(a).Some? then [a] else [a] + Performed(b)
  {
    assert ([a] + b)[1..] == b;
  }

  /** A list that fails does so in its first part or, if that goes through, in its second. */
  lemma {:induction false} PerformedAppend(a: seq<Effect>, b: seq<Effect>)
    ensures FirstFailure(a).None? ==> Performed(a + b) == a + Performed(b) && FirstFailure(a + b) == FirstFailure(b)
    ensures FirstFailure(a).Some? ==> Performed(a + b) == Performed(a) && FirstFailure(a + b) == FirstFailure(a)
  {
    if a == [] {
      assert a + b == b;
    } else {
      var first, rest := a[0], a[1..];
      assert a == [first] + rest;
      EffectsAssoc([first], rest, b);
      PerformedFirst(first, rest + b);
      PerformedFirst(first, rest);
      PerformedAppend(rest, b);
      EffectsAssoc([first], rest, Performed(b));
    }
  }

  lemma BeforePerforms(a: Effect, p: Plan)
    ensures Performed(Before(a, p).effects) == if Failure(a).Some? then [a] else [a] + Performed(p.effects)
    ensures ResultOf(Before(a, p)) == if Failure(a).Some? then Err(Failure(a).value) else ResultOf(p)
  {
    PerformedFirst(a, p.effects);
  }

  /** Performing `a` and then, if it went through, all of `p` performs `Before(a, p)`. */
  lemma LogBefore(log: seq<Effect>, a: Effect, p: Plan)
    ensures Failure(a).Some? ==>
              log + [a] == log + Performed(Before(a, p).effects) && ResultOf(Before(a, p)) == Err(Failure(a).value)
    ensures Failure(a).None? ==>
              log + [a] + Performed(p.effects) == log + Performed(Before(a, p).effects)
              && ResultOf(Before(a, p)) == ResultOf(p)
  {
    BeforePerforms(a, p);
    EffectsAssoc(log, [a], Performed(p.effects));
  }

  lemma PerformedWhole(es: seq<Effect>)
    requires FirstFailure(es).None?
    ensures Performed(es) == es
  {
    PerformedAppend(es, []);
    assert es + [] == es;
  }

  /** `persist_after_apply`. */
  function PersistEffects(cfg: Config, pin: File, b: CaBundle, e: PassEnv): seq<Effect> {
    [WriteGeneration(b, e)] + ([WriteFingerprint(b, e)] + (PinEffects(cfg, pin, b, e) + [WriteSuccess(e)]))
  }

  lemma PersistThenAck(cfg: Config, pin: File, b: CaBundle, e: PassEnv)
    ensures PlanPersist(cfg, pin, b, e).effects == PersistEffects(cfg, pin, b, e) + AckEffects(b, AckApplied, e)
    ensures FirstFailure(AckEffects(b, AckApplied, e)).None?
  {
    if e.ackSigned {
      PerformedFirst(AckEffects(b, AckApplied, e)[0], []);
      assert AckEffects(b, AckApplied, e) == [AckEffects(b, AckApplied, e)[0]] + [];
    }
  }

  class CaSyncService {
    var disk: Disk
    var host: Option<Host>
    var calls: seq<Call>
    var acks: seq<AckReport>
    ghost const origin: World
    ghost var log: seq<Effect>

    function Snapshot(): World
      reads this
    {
      World(disk, host, calls, acks)
    }

    /** The current world is the original one after every logged effect. */
    ghost predicate Valid()
      reads this
    {
      Snapshot() == Fold(origin, log)
    }

    constructor (w: World)
      ensures Valid() && Snapshot() == w && log == []
    {
      disk, host, calls, acks := w.disk, w.host, w.calls, w.acks;
      origin, log := w, [];
    }

    /** `secure_write` of one state file. */
    method WriteFile(f: StateFile, text: string, o: WriteOutcome) returns (failure: Option<Error>)
      requires Valid()
      modifies this
      ensures Valid() && log == old(log) + [Write(f, text, o)]
      ensures failure == Failure(Write(f, text, o))
      ensures f != PinFile ==> disk.pin == old(disk.pin)
    {
      var e := Write(f, text, o);
      FoldOne(origin, log, e);
      StepWrite(Snapshot(), f, text, o);
      disk := Put(disk, f, AfterWrite(Get(disk, f), Holds(text), o));
      log := log + [e];
      return if o.Written? then None else Some(FileFailure(Io));
    }

    method AskHelperToApply(call: Call, reply: HelperOutcome)
      requires Valid()
      modifies this
      ensures Valid() && log == old(log) + [AskHelper(call, reply)]
      ensures disk == old(disk)
    {
      FoldOne(origin, log, AskHelper(call, reply));
      calls := calls + [call];
      if Takes(reply) {
        host := Some(Host(call.body, call.bundle));
      }
      log := log + [AskHelper(call, reply)];
    }

    /** `acknowledge`: a failure to sign or post is swallowed. */
    method Acknowledge(b: CaBundle, status: AckStatus, e: PassEnv) returns (acknowledged: bool)
      requires Valid()
      modifies this
      ensures Valid() && log == old(log) + AckEffects(b, status, e)
      ensures acknowledged == Acknowledged(e)
    {
      if !e.ackSigned {
        return false;
      }
      var report := AckReport(b.generation, b.fingerprint, status);
      FoldOne(origin, log, PostAck(report));
      acks := acks + [report];
      log := log + [PostAck(report)];
      return e.ackStatus.Some? && Success(e.ackStatus.value);
    }

    method LoadState(e: PassEnv) returns (r: Result<Loaded, Error>)
      ensures r == Load(disk, e)
    {
      var g := ReadGeneration(disk.generation, e.generationReadable);
      if g.Err? {
        return Err(g.error);
      }
      var f := ReadText(disk.fingerprint, e.fingerprintReadable);
      if f.Err? {
        return Err(FileFailure(f.error));
      }
      var k := ReadText(disk.pin, e.pinReadable);
      if k.Err? {
        return Err(FileFailure(k.error));
      }
      return Ok(Loaded(g.value, f.value, k.value));
    }

    method PersistPinIfNeeded(cfg: Config, b: CaBundle, e: PassEnv) returns (failure: Option<Error>)
      requires Valid()
      modifies this
      ensures Valid()
      ensures log == old(log) + Performed(PinEffects(cfg, old(disk).pin, b, e))
      ensures failure == FirstFailure(PinEffects(cfg, old(disk).pin, b, e))
    {
      if cfg.operatorPin.Some? {
        return None;
      }
      ghost var write := Write(PinFile, b.signingKey + "\n", e.pinWrite);
      PerformedFirst(CheckPin(e.pinRecheck), []);
      PerformedFirst(write, []);
      PerformedFirst(CheckPin(e.pinRecheck), [write]);
      assert [CheckPin(e.pinRecheck)] + [write] == [CheckPin(e.pinRecheck), write];
      FoldOne(origin, log, CheckPin(e.pinRecheck));
      log := log + [CheckPin(e.pinRecheck)];
      if !e.pinRecheck {
        return Some(FileFailure(Io));
      }
      if !disk.pin.Absent? {
        return None;
      }
      failure := WriteFile(PinFile, b.signingKey + "\n", e.pinWrite);
    }

    /** The pin, then the success stamp: the tail of both successful branches. */
    method PersistPinAndSuccess(cfg: Config, b: CaBundle, e: PassEnv) returns (failure: Option<Error>)
      requires Valid()
      modifies this
      ensures Valid()
      ensures var es := PinEffects(cfg, old(disk).pin, b, e) + [WriteSuccess(e)];
              log == old(log) + Performed(es) && failure == FirstFailure(es)
    {
      ghost var pins := PinEffects(cfg, disk.pin, b, e);
      PerformedAppend(pins, [WriteSuccess(e)]);
      failure := PersistPinIfNeeded(cfg, b, e);
      if failure.Some? {
        return;
      }
      PerformedAppend(pins, []);
      assert pins + [] == pins;
      failure := WriteFile(LastSuccessFile, e.successStamp + "\n", e.successWrite);
    }

    method PersistAfterApply(cfg: Config, b: CaBundle, e: PassEnv) returns (failure: Option<Error>)
      requires Valid()
      modifies this
      ensures Valid()
      ensures var es := PersistEffects(cfg, old(disk).pin, b, e);
              log == old(log) + Performed(es) && failure == FirstFailure(es)
    {
      ghost var tail := PinEffects(cfg, disk.pin, b, e) + [WriteSuccess(e)];
      ghost var rest := [WriteFingerprint(b, e)] + tail;
      PerformedFirst(WriteGeneration(b, e), rest);
      PerformedFirst(WriteFingerprint(b, e), tail);
      failure := WriteFile(GenerationFile, Dec(b.generation) + "\n", e.generationWrite);
      if failure.Some? {
        return;
      }
      failure := PersistFingerprint(cfg, b, e);
      EffectsAssoc(old(log), [WriteGeneration(b, e)], Performed(rest));
    }

    method PersistFingerprint(cfg: Config, b: CaBundle, e: PassEnv) returns (failure: Option<Error>)
      requires Valid()
      modifies this
      ensures Valid()
      ensures var es := [WriteFingerprint(b, e)] + (PinEffects(cfg, old(disk).pin, b, e) + [WriteSuccess(e)]);
              log == old(log) + Performed(es) && failure == FirstFailure(es)
    {
      ghost var tail := PinEffects(cfg, disk.pin, b, e) + [WriteSuccess(e)];
      PerformedFirst(WriteFingerprint(b, e), tail);
      failure := WriteFile(FingerprintFile, b.fingerprint + "\n", e.fingerprintWrite);
      if failure.Some? {
        return;
      }
      failure := PersistPinAndSuccess(cfg, b, e);
      EffectsAssoc(old(log), [WriteFingerprint(b, e)], Performed(tail));
    }

    /** Everything after the privileged apply reported success. */
    method FinishApplied(cfg: Config, b: CaBundle, e: PassEnv) returns (r: Result<SyncOutcome, Error>)
      requires Valid()
      modifies this
      ensures Valid()
      ensures var p := PlanPersist(cfg, old(disk).pin, b, e);
              log == old(log) + Performed(p.effects) && r == ResultOf(p)
    {
      ghost var persist := PersistEffects(cfg, disk.pin, b, e);
      PersistThenAck(cfg, disk.pin, b, e);
      PerformedAppend(persist, AckEffects(b, AckApplied, e));
      var failure := PersistAfterApply(cfg, b, e);
      if failure.Some? {
        return Err(failure.value);
      }
      PerformedWhole(persist);
      PerformedWhole(AckEffects(b, AckApplied, e));
      EffectsAssoc(old(log), persist, AckEffects(b, AckApplied, e));
      var acknowledged := Acknowledge(b, AckApplied, e);
      return Ok(Updated(b.generation, b.fingerprint, acknowledged));
    }

    /** `synchronize` from the authenticated bundle on. */
    method HandleBundle(cfg: Config, l: Loaded, e: PassEnv, call: Call, defect: Option<TrustedCa.TrustedCaError>)
      returns (r: Result<SyncOutcome, Error>)
      requires Valid()
      modifies this
      ensures Valid()
      ensures var p := PlanForBundle(cfg, old(disk).pin, l, e, call, defect);
              log == old(log) + Performed(p.effects) && r == ResultOf(p)
    {
      var b := call.bundle;
      if l.generation.Some? && b.generation < l.generation.value {
        return Err(InvalidCaBundle(GenerationRegressed));
      }
      if l.generation == Some(b.generation) && l.fingerprint == Some(b.fingerprint) {
        var failure := PersistPinAndSuccess(cfg, b, e);
        return if failure.Some? then Err(failure.value) else Ok(Unchanged(b.generation));
      }
      if defect.Some? {
        return Err(InvalidTrustedCa(defect.value));
      }
      r := ApplyBundle(cfg, e, call);
    }

    method ApplyBundle(cfg: Config, e: PassEnv, call: Call) returns (r: Result<SyncOutcome, Error>)
      requires Valid()
      modifies this
      ensures Valid()
      ensures var p := PlanApply(cfg, old(disk).pin, e, call);
              log == old(log) + Performed(p.effects) && r == ResultOf(p)
    {
      AskHelperToApply(call, e.helper);
      if e.helper.Applied? {
        LogBefore(old(log), AskHelper(call, e.helper), PlanPersist(cfg, disk.pin, call.bundle, e));
        r := FinishApplied(cfg, call.bundle, e);
      } else if e.helper.RolledBack? {
        LogBefore(old(log), AskHelper(call, e.helper),
                  Plan(AckEffects(call.bundle, AckRollback, e), Err(CaReloadFailed)));
        r := FinishRolledBack(call.bundle, e);
      } else {
        LogBefore(old(log), AskHelper(call, e.helper), Plan([], Err(Helper(e.helper.error))));
        r := Err(Helper(e.helper.error));
      }
    }

    method FinishRolledBack(b: CaBundle, e: PassEnv) returns (r: Result<SyncOutcome, Error>)
      requires Valid()
      modifies this
      ensures Valid()
      ensures log == old(log) + Performed(AckEffects(b, AckRollback, e))
      ensures r == ResultOf(Plan(AckEffects(b, AckRollback, e), Err(CaReloadFailed)))
    {
      PerformedFirst(PostAck(AckReport(b.generation, b.fingerprint, AckRollback)), []);
      var _ := Acknowledge(b, AckRollback, e);
      return Err(CaReloadFailed);
    }

    /** `synchronize`: its effects, result and final world are those of the plan. */
    method Synchronize(c: Crypto, cfg: Config, e: PassEnv) returns (r: Result<SyncOutcome, Error>)
      requires Valid()
      modifies this
      ensures Valid()
      ensures log == old(log) + Effects(c, cfg, old(Snapshot()), e)
      ensures Snapshot() == PassWorld(c, cfg, old(Snapshot()), e)
      ensures r == PassResult(c, cfg, old(Snapshot()), e)
    {
      r := Run(c, cfg, e);
      FoldAppend(origin, old(log), Effects(c, cfg, old(Snapshot()), e));
    }

    /** `synchronize` once the server has answered and the contact is recorded. */
    method HandleResponse(c: Crypto, cfg: Config, l: Loaded, e: PassEnv, response: HttpResponse)
      returns (r: Result<SyncOutcome, Error>)
      requires Valid()
      modifies this
      ensures Valid()
      ensures var p := PlanForResponse(c, cfg, old(disk).pin, l, e, response);
              log == old(log) + Performed(p.effects) && r == ResultOf(p)
    {
      if response.status == 304 {
        PerformedFirst(WriteSuccess(e), []);
        var failure := WriteFile(LastSuccessFile, e.successStamp + "\n", e.successWrite);
        return if failure.Some? then Err(failure.value) else Ok(NotModified(l.generation.GetOr(0)));
      }
      if !Success(response.status) {
        return Err(CaBundleRejected);
      }
      if response.bundle.None? {
        return Err(InvalidCaBundle(InvalidKey));
      }
      var raw := response.bundle.value;
      var verdict := Validate(c, raw, e.now, ExpectedKey(cfg, l));
      if verdict.Err? {
        return Err(InvalidCaBundle(verdict.error));
      }
      var body := Rendering.RenderTrustedUserCaKeys(verdict.value);
      var parsed := TrustedCa.ParseFile(body);
      var defect := if parsed.Ok? then None else Some(parsed.error);
      r := HandleBundle(cfg, l, e, Call(body, raw, verdict.value), defect);
    }

    method Run(c: Crypto, cfg: Config, e: PassEnv) returns (r: Result<SyncOutcome, Error>)
      requires Valid()
      modifies this
      ensures Valid()
      ensures log == old(log) + Performed(PlanOf(c, cfg, old(disk), e).effects)
      ensures r == ResultOf(PlanOf(c, cfg, old(disk), e))
    {
      var loaded := LoadState(e);
      if loaded.Err? {
        return Err(loaded.error);
      }
      if !e.requestSigned {
        return Err(RequestSigning);
      }
      if e.response.None? {
        return Err(CaBundleTransport);
      }
      r := RecordContact(c, cfg, loaded.value, e, e.response.value);
    }

    /** The contact is recorded whatever the answer. */
    method RecordContact(c: Crypto, cfg: Config, l: Loaded, e: PassEnv, response: HttpResponse)
      returns (r: Result<SyncOutcome, Error>)
      requires Valid()
      modifies this
      ensures Valid()
      ensures var p := Before(WriteSync(e), PlanForResponse(c, cfg, old(disk).pin, l, e, response));
              log == old(log) + Performed(p.effects) && r == ResultOf(p)
    {
      LogBefore(log, WriteSync(e), PlanForResponse(c, cfg, disk.pin, l, e, response));
      var failure := WriteFile(LastSyncFile, e.syncStamp + "\n", e.syncWrite);
      if failure.Some? {
        return Err(failure.value);
      }
      r := HandleResponse(c, cfg, l, e, response);
    }
  }
}
