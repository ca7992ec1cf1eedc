/**
 One synchronisation pass: what it decides, the effects it performs in order, and what it returns.

 Every effect that reports failure ends the pass, so a pass performs a prefix of a planned list of
 effects; a process that dies performs a shorter prefix.
 */
module CaSync {
  import opened Text
  import opened Storage
  import opened Bundle
  import Rendering
  import TrustedCa

  // ---- The world a pass acts on ----

  datatype Disk = Disk(generation: File, fingerprint: File, pin: File, lastSync: File, lastSuccess: File)

  /** The body the host last took, with the bundle it was rendered from. */
  datatype Host = Host(body: string, source: CaBundle)

  /** A request to the helper: the body sent, with the response and bundle it came from. */
  datatype Call = Call(body: string, raw: RawBundle, bundle: CaBundle)

  datatype AckStatus = AckApplied | AckRollback

  datatype AckReport = AckReport(generation: u64, fingerprint: string, status: AckStatus)

  datatype World = World(disk: Disk, host: Option<Host>, calls: seq<Call>, acks: seq<AckReport>)

  datatype Config = Config(operatorPin: Option<string>)

  // ---- What the environment decides during a pass ----

  datatype HelperError = HelperUnavailable | HelperUnauthenticated | HelperOperationFailed | HelperProtocol

  /** A failed call may, against its contract, still have changed the host. */
  datatype HelperOutcome = Applied | RolledBack | CallFailed(error: HelperError, changed: bool)

  /** A response: its status and its body, when that has the shape of a bundle. */
  datatype HttpResponse = HttpResponse(status: nat, bundle: Option<RawBundle>)

  datatype PassEnv = PassEnv(
    generationReadable: bool, fingerprintReadable: bool, pinReadable: bool,
    requestSigned: bool, response: Option<HttpResponse>, now: int,
    syncStamp: string, successStamp: string,
    syncWrite: WriteOutcome, generationWrite: WriteOutcome, fingerprintWrite: WriteOutcome,
    pinRecheck: bool, pinWrite: WriteOutcome, successWrite: WriteOutcome,
    helper: HelperOutcome, ackSigned: bool, ackStatus: Option<nat>)

  datatype Error =
    | FileFailure(error: FileError) | MachineRecordInvalid | RequestSigning | CaBundleTransport | CaBundleRejected
    | InvalidCaBundle(reason: BundleError) | InvalidTrustedCa(defect: TrustedCa.TrustedCaError)
    | Helper(failure: HelperError) | CaReloadFailed

  datatype SyncOutcome =
    | NotModified(generation: u64)
    | Unchanged(generation: u64)
    | Updated(generation: u64, fingerprint: string, acknowledged: bool)

  // ---- Loading ----

  datatype Loaded = Loaded(generation: Option<u64>, fingerprint: Option<string>, signingKey: Option<string>)

  function ReadGeneration(f: File, readable: bool): Result<Option<u64>, Error> {
    match ReadText(f, readable)
    case Err(e) => Err(FileFailure(e))
    case Ok(None) => Ok(None)
    case Ok(Some(text)) => (match ParseU64(text) case None => Err(MachineRecordInvalid) case Some(g) => Ok(Some(g)))
  }

  function Load(d: Disk, e: PassEnv): Result<Loaded, Error> {
    match ReadGeneration(d.generation, e.generationReadable)
    case Err(x) => Err(x)
    case Ok(g) =>
      match ReadText(d.fingerprint, e.fingerprintReadable)
      case Err(x) => Err(FileFailure(x))
      case Ok(f) =>
        match ReadText(d.pin, e.pinReadable)
        case Err(x) => Err(FileFailure(x))
        case Ok(k) => Ok(Loaded(g, f, k))
  }

  /** The operator pin if configured, else the persisted one, else none. */
  function ExpectedKey(cfg: Config, l: Loaded): Option<string> {
    if cfg.operatorPin.Some? then cfg.operatorPin else l.signingKey
  }

  predicate Success(status: nat) {
    200 <= status < 300
  }

  // ---- Effects ----

  datatype StateFile = GenerationFile | FingerprintFile | PinFile | LastSyncFile | LastSuccessFile

  datatype Effect =
    | Write(file: StateFile, text: string, outcome: WriteOutcome)
    | CheckPin(readable: bool)
    | AskHelper(call: Call, reply: HelperOutcome)
    | PostAck(ack: AckReport)

  function Get(d: Disk, f: StateFile): File {
    match f
    case GenerationFile => d.generation
    case FingerprintFile => d.fingerprint
    case PinFile => d.pin
    case LastSyncFile => d.lastSync
    case LastSuccessFile => d.lastSuccess
  }

  function Put(d: Disk, f: StateFile, contents: File): Disk {
    match f
    case GenerationFile => d.(generation := contents)
    case FingerprintFile => d.(fingerprint := contents)
    case PinFile => d.(pin := contents)
    case LastSyncFile => d.(lastSync := contents)
    case LastSuccessFile => d.(lastSuccess := contents)
  }

  /** Whether the host takes the body of a call with this reply. */
  predicate Takes(o: HelperOutcome) {
    o.Applied? || (o.CallFailed? && o.changed)
  }

  function Step(w: World, e: Effect): World {
    match e
    case Write(f, text, o) => w.(disk := Put(w.disk, f, AfterWrite(Get(w.disk, f), Holds(text), o)))
    case CheckPin(_) => w
    case AskHelper(call, o) =>
      w.(calls := w.calls + [call], host := if Takes(o) then Some(Host(call.body, call.bundle)) else w.host)
    case PostAck(a) => w.(acks := w.acks + [a])
  }

  /** The world after a list of effects. */
  function Fold(w: World, es: seq<Effect>): World {
    if es == [] then w else Step(Fold(w, es[..|es| - 1]), es[|es| - 1])
  }

  /** The error an effect ends the pass with, if it does. */
  function Failure(e: Effect): Option<Error> {
    match e
    case Write(_, _, o) => if o.Written? then None else Some(FileFailure(Io))
    case CheckPin(readable) => if readable then None else Some(FileFailure(Io))
    case AskHelper(_, o) => if o.CallFailed? then Some(Helper(o.error)) else None
    case PostAck(_) => None
  }

  // ---- The plan of a pass ----

  datatype Plan = Plan(effects: seq<Effect>, result: Result<SyncOutcome, Error>)

  /** One effect in front of a plan. */
  function Before(a: Effect, p: Plan): Plan {
    Plan([a] + p.effects, p.result)
  }

  function WriteSync(e: PassEnv): Effect {
    Write(LastSyncFile, e.syncStamp + "\n", e.syncWrite)
  }

  function WriteSuccess(e: PassEnv): Effect {
    Write(LastSuccessFile, e.successStamp + "\n", e.successWrite)
  }

  function WriteGeneration(b: CaBundle, e: PassEnv): Effect {
    Write(GenerationFile, Dec(b.generation) + "\n", e.generationWrite)
  }

  function WriteFingerprint(b: CaBundle, e: PassEnv): Effect {
    Write(FingerprintFile, b.fingerprint + "\n", e.fingerprintWrite)
  }

  /** `persist_pin_if_needed`: only without an operator pin, and only when there is no pin file at all. */
  function PinEffects(cfg: Config, pin: File, b: CaBundle, e: PassEnv): seq<Effect> {
    if cfg.operatorPin.Some? then []
    else if !e.pinRecheck || !pin.Absent? then [CheckPin(e.pinRecheck)]
    else [CheckPin(true), Write(PinFile, b.signingKey + "\n", e.pinWrite)]
  }

  /** `acknowledge`: nothing is posted when the request cannot be signed. */
  function AckEffects(b: CaBundle, status: AckStatus, e: PassEnv): seq<Effect> {
    if e.ackSigned then [PostAck(AckReport(b.generation, b.fingerprint, status))] else []
  }

  predicate Acknowledged(e: PassEnv) {
    e.ackSigned && e.ackStatus.Some? && Success(e.ackStatus.value)
  }

  /** What follows once generation and fingerprint are written. */
  function AfterPersist(cfg: Config, pin: File, b: CaBundle, e: PassEnv): seq<Effect> {
    PinEffects(cfg, pin, b, e) + [WriteSuccess(e)] + AckEffects(b, AckApplied, e)
  }

  /** What follows an `Applied` reply. */
  function PlanPersist(cfg: Config, pin: File, b: CaBundle, e: PassEnv): Plan {
    Before(WriteGeneration(b, e), Before(WriteFingerprint(b, e),
      Plan(AfterPersist(cfg, pin, b, e), Ok(Updated(b.generation, b.fingerprint, Acknowledged(e))))))
  }

  /** The plan from the helper call on. */
  function PlanApply(cfg: Config, pin: File, e: PassEnv, call: Call): Plan {
    Before(AskHelper(call, e.helper),
      match e.helper
      case Applied => PlanPersist(cfg, pin, call.bundle, e)
      case RolledBack => Plan(AckEffects(call.bundle, AckRollback, e), Err(CaReloadFailed))
      case CallFailed(error, _) => Plan([], Err(Helper(error))))
  }

  /** The plan for an authenticated bundle with its rendered body and the verdict of parsing that body. */
  function PlanForBundle(cfg: Config, pin: File, l: Loaded, e: PassEnv, call: Call,
                         defect: Option<TrustedCa.TrustedCaError>): Plan
  {
    var b := call.bundle;
    if l.generation.Some? && b.generation < l.generation.value then
      Plan([], Err(InvalidCaBundle(GenerationRegressed)))
    else if l.generation == Some(b.generation) && l.fingerprint == Some(b.fingerprint) then
      Plan(PinEffects(cfg, pin, b, e) + [WriteSuccess(e)], Ok(Unchanged(b.generation)))
    else if defect.Some? then
      Plan([], Err(InvalidTrustedCa(defect.value)))
    else
      PlanApply(cfg, pin, e, call)
  }

  /** The verdict on a response for what is loaded. */
  function Verdict(c: Crypto, cfg: Config, l: Loaded, e: PassEnv, raw: RawBundle): Result<CaBundle, BundleError> {
    FromResponse(c, raw, e.now, ExpectedKey(cfg, l))
  }

  function DefectOf(body: string): Option<TrustedCa.TrustedCaError> {
    match TrustedCa.Parse(body)
    case Ok(_) => None
    case Err(x) => Some(x)
  }

  /** The plan once the server has answered and the contact is recorded. */
  function PlanForResponse(c: Crypto, cfg: Config, pin: File, l: Loaded, e: PassEnv, response: HttpResponse): Plan {
    if response.status == 304 then Plan([WriteSuccess(e)], Ok(NotModified(l.generation.GetOr(0))))
    else if !Success(response.status) then Plan([], Err(CaBundleRejected))
    else if response.bundle.None? then Plan([], Err(InvalidCaBundle(InvalidKey)))
    else
      match Verdict(c, cfg, l, e, response.bundle.value)
      case Err(x) => Plan([], Err(InvalidCaBundle(x)))
      case Ok(b) =>
        var body := Rendering.Render(b);
        PlanForBundle(cfg, pin, l, e, Call(body, response.bundle.value, b), DefectOf(body))
  }

  /** The plan of `synchronize`: the effects it sets out to perform and what it returns if none fails. */
  function PlanOf(c: Crypto, cfg: Config, d: Disk, e: PassEnv): Plan {
    match Load(d, e)
    case Err(x) => Plan([], Err(x))
    case Ok(l) =>
      if !e.requestSigned then Plan([], Err(RequestSigning))
      else if e.response.None? then Plan([], Err(CaBundleTransport))
      else
        Before(WriteSync(e), PlanForResponse(c, cfg, d.pin, l, e, e.response.value))
  }

  // ---- What is performed ----

  /** The effects up to and including the first that fails. */
  function Performed(es: seq<Effect>): (r: seq<Effect>)
    ensures r <= es
  {
    if es == [] then []
    else if Failure(es[0]).Some? then [es[0]]
    else [es[0]] + Performed(es[1..])
  }

  function FirstFailure(es: seq<Effect>): Option<Error> {
    if es == [] then None
    else if Failure(es[0]).Some? then Failure(es[0])
    else FirstFailure(es[1..])
  }

  function Effects(c: Crypto, cfg: Config, w: World, e: PassEnv): seq<Effect> {
    Performed(PlanOf(c, cfg, w.disk, e).effects)
  }

  function ResultOf(p: Plan): Result<SyncOutcome, Error> {
    if FirstFailure(p.effects).Some? then Err(FirstFailure(p.effects).value) else p.result
  }

  function PassResult(c: Crypto, cfg: Config, w: World, e: PassEnv): Result<SyncOutcome, Error> {
    ResultOf(PlanOf(c, cfg, w.disk, e))
  }

  /** The world after a whole pass. */
  function PassWorld(c: Crypto, cfg: Config, w: World, e: PassEnv): World {
    Fold(w, Effects(c, cfg, w, e))
  }
}
