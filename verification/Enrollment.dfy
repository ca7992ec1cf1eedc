/**
 Enrollment: the machine key files, the machine record, the response the API client captured, and the
 retry loop that ends by pinning the bundle signing key.
 */
module Enrollment {
  import opened Text
  import opened Storage
  import opened Bundle
  import CaSync
  import Daemon
  import Backoff
  import Signing

  datatype EnrollmentResponse = EnrollmentResponse(
    machineId: string, heartbeatInterval: u64, syncInterval: u64, serverIdentity: string,
    bundleSigningKey: Option<string>)

  datatype MachineRecord = MachineRecord(
    machineId: string, hostname: string, serverUrl: string,
    heartbeatInterval: u64, syncInterval: u64, enrolledAt: int)

  datatype ResponseError =
    | EmptyMachineId | InvalidMachineId | IntervalOutOfRange | InvalidServerIdentity | InvalidBundleSigningKey

  datatype EnrollError =
    | AlreadyEnrolled | InvalidInput | KeyUnreadable | KeyAlreadyExists | KeyGeneration | WriteFailed
    | MalformedPublicKey | EnrollmentTransport | EnrollmentRejected | InvalidServerResponse(reason: ResponseError)
    | IdentityUnreadable

  // ---- Response validation ----

  const MAX_MACHINE_ID_LEN: nat := 128
  const MIN_INTERVAL_SECS: nat := 1
  const MAX_INTERVAL_SECS: nat := 86_400

  predicate IsMachineIdChar(c: char) {
    IsAlphanumeric(c) || c == '-' || c == '_' || c == '.'
  }

  predicate ValidInterval(secs: u64) {
    MIN_INTERVAL_SECS <= secs <= MAX_INTERVAL_SECS
  }

  /** `validate_response`; a non-ASCII machine id is rejected by either rule of its branch. */
  function ResponseDefect(c: Crypto, r: EnrollmentResponse): Option<ResponseError> {
    if r.machineId == [] then Some(EmptyMachineId)
    else if |r.machineId| > MAX_MACHINE_ID_LEN
            || exists i :: 0 <= i < |r.machineId| && !IsMachineIdChar(r.machineId[i]) then Some(InvalidMachineId)
    else if !ValidInterval(r.heartbeatInterval) || !ValidInterval(r.syncInterval) then Some(IntervalOutOfRange)
    else if !ValidKeyLine(c, r.serverIdentity) then Some(InvalidServerIdentity)
    else if r.bundleSigningKey.Some? && !ValidKeyLine(c, r.bundleSigningKey.value) then Some(InvalidBundleSigningKey)
    else None
  }

  /** A key line without control characters that reads as an Ed25519 key. */
  predicate IsKeyLine(c: Crypto, line: string) {
    (forall i :: 0 <= i < |line| ==> !IsControl(line[i])) && c.sshEd25519(line)
  }

  /** A machine id of the right length and characters. */
  predicate IsMachineId(id: string) {
    && 1 <= |id| <= 128
    && forall i :: 0 <= i < |id| ==>
         'a' <= id[i] <= 'z' || 'A' <= id[i] <= 'Z' || '0' <= id[i] <= '9' || id[i] in "-_."
  }

  /** A response is valid if and only if its machine id, both intervals and its keys are as they should be. */
  lemma NoDefectIff(c: Crypto, r: EnrollmentResponse)
    ensures ResponseDefect(c, r) == None <==>
              && IsMachineId(r.machineId)
              && 1 <= r.heartbeatInterval <= 86_400 && 1 <= r.syncInterval <= 86_400
              && IsKeyLine(c, r.serverIdentity)
              && (r.bundleSigningKey.Some? ==> IsKeyLine(c, r.bundleSigningKey.value))
  {
  }

  /** The reason given is what is wrong, and what is looked at earlier is right. */
  lemma DefectIs(c: Crypto, r: EnrollmentResponse)
    ensures match ResponseDefect(c, r)
            case Some(EmptyMachineId) => r.machineId == []
            case Some(InvalidMachineId) => r.machineId != [] && !IsMachineId(r.machineId)
            case Some(IntervalOutOfRange) =>
              IsMachineId(r.machineId)
              && !(1 <= r.heartbeatInterval <= 86_400 && 1 <= r.syncInterval <= 86_400)
            case Some(InvalidServerIdentity) =>
              && IsMachineId(r.machineId) && 1 <= r.heartbeatInterval <= 86_400 && 1 <= r.syncInterval <= 86_400
              && !IsKeyLine(c, r.serverIdentity)
            case Some(InvalidBundleSigningKey) =>
              && IsMachineId(r.machineId) && 1 <= r.heartbeatInterval <= 86_400 && 1 <= r.syncInterval <= 86_400
              && IsKeyLine(c, r.serverIdentity)
              && r.bundleSigningKey.Some? && !IsKeyLine(c, r.bundleSigningKey.value)
            case None => true
  {
  }

  // ---- State and environment ----

  /**
   The files (a private key stands for its key pair), and what has been sent and received: the public keys in
   the requests, every response that parsed, and the one the client holds.
   */
  datatype Identity = Identity(
    privateKey: Option<nat>, publicKey: Option<string>, record: Option<MachineRecord>,
    requests: seq<string>, responses: seq<EnrollmentResponse>, lastResponse: Option<EnrollmentResponse>)

  /** The answer to the post: none, or a status with the response its body parses to. */
  datatype Post = NoAnswer | Answer(status: nat, response: Option<EnrollmentResponse>)

  datatype AttemptEnv = AttemptEnv(
    inputsValid: bool, keyReadable: bool, generated: Option<nat>,
    privateWrite: WriteOutcome, publicWrite: WriteOutcome, post: Post,
    hostname: string, serverUrl: string, now: int, recordWrite: WriteOutcome, identityReadable: bool)

  /** The foreign part of a key pair: the public line of a private key. */
  type PublicLine = nat -> string

  // ---- One attempt ----

  /** `load_or_generate_keypair`: read the private key, or generate one and write both files in order. */
  function KeyStep(pub: PublicLine, s: Identity, e: AttemptEnv): (Identity, Result<nat, EnrollError>) {
    if s.privateKey.Some? then (s, if e.keyReadable then Ok(s.privateKey.value) else Err(KeyUnreadable))
    else if s.publicKey.Some? then (s, Err(KeyAlreadyExists))
    else if e.generated.None? then (s, Err(KeyGeneration))
    else
      var key := e.generated.value;
      var s1 := s.(privateKey := AfterWrite(None, Some(key), e.privateWrite));
      if !e.privateWrite.Written? then (s1, Err(WriteFailed))
      else
        var s2 := s1.(publicKey := AfterWrite(None, Some(pub(key) + "\n"), e.publicWrite));
        (s2, if e.publicWrite.Written? then Ok(key) else Err(WriteFailed))
  }

  /** The client's `enroll`: a parsed 2xx response is captured. */
  function PostStep(s: Identity, line: string, post: Post): (Identity, Result<EnrollmentResponse, EnrollError>) {
    var s1 := s.(requests := s.requests + [line]);
    match post
    case NoAnswer => (s1, Err(EnrollmentTransport))
    case Answer(status, response) =>
      if !CaSync.Success(status) || response.None? then (s1, Err(EnrollmentRejected))
      else (s1.(responses := s1.responses + [response.value], lastResponse := response), Ok(response.value))
  }

  function RecordFor(r: EnrollmentResponse, e: AttemptEnv): MachineRecord {
    MachineRecord(r.machineId, e.hostname, e.serverUrl, r.heartbeatInterval, r.syncInterval, e.now)
  }

  /** `persist_machine_identity`: validate, then write the record. */
  function PersistStep(c: Crypto, s: Identity, r: EnrollmentResponse, e: AttemptEnv)
    : (Identity, Result<string, EnrollError>)
  {
    var defect := ResponseDefect(c, r);
    if defect.Some? then (s, Err(InvalidServerResponse(defect.value)))
    else (s.(record := AfterWrite(s.record, Some(RecordFor(r, e)), e.recordWrite)),
          if e.recordWrite.Written? then Ok(r.machineId) else Err(WriteFailed))
  }

  /** `EnrollmentService::enroll`. */
  function EnrollStep(c: Crypto, pub: PublicLine, s: Identity, e: AttemptEnv): (Identity, Result<string, EnrollError>) {
    if s.record.Some? then (s, Err(AlreadyEnrolled))
    else if !e.inputsValid then (s, Err(InvalidInput))
    else
      var (s1, key) := KeyStep(pub, s, e);
      if key.Err? then (s1, Err(key.error))
      else if !ValidKeyLine(c, pub(key.value)) then (s1, Err(MalformedPublicKey))
      else
        var (s2, response) := PostStep(s1, pub(key.value), e.post);
        if response.Err? then (s2, Err(response.error)) else PersistStep(c, s2, response.value, e)
  }

  /** One turn of the retry: an existing record counts as success and is loaded. */
  function AttemptStep(c: Crypto, pub: PublicLine, s: Identity, e: AttemptEnv)
    : (Identity, Result<string, EnrollError>)
  {
    var (s1, r) := EnrollStep(c, pub, s, e);
    if r != Err(AlreadyEnrolled) then (s1, r)
    else if s1.record.Some? && s1.privateKey.Some? && e.identityReadable then (s1, Ok(s1.record.value.machineId))
    else (s1, Err(IdentityUnreadable))
  }

  // ---- Runs of attempts and restarts ----

  datatype Event = Attempt(env: AttemptEnv) | Restart

  function Next(c: Crypto, pub: PublicLine, s: Identity, ev: Event): Identity {
    match ev
    case Attempt(e) => AttemptStep(c, pub, s, e).0
    case Restart => s.(lastResponse := None)
  }

  function Run(c: Crypto, pub: PublicLine, s: Identity, evs: seq<Event>): Identity {
    if evs == [] then s else Next(c, pub, Run(c, pub, s, evs[..|evs| - 1]), evs[|evs| - 1])
  }

  /** `record` is the record of the response. */
  predicate RecordOf(record: MachineRecord, r: EnrollmentResponse) {
    record.machineId == r.machineId && record.heartbeatInterval == r.heartbeatInterval
    && record.syncInterval == r.syncInterval
  }

  /** A public key file has its private key beside it. */
  ghost predicate KeysMatch(pub: PublicLine, privateKey: Option<nat>, publicKey: Option<string>) {
    publicKey.Some? ==> privateKey.Some? && publicKey.value == pub(privateKey.value) + "\n"
  }

  /** Every request carried the public key of the private key on disk. */
  ghost predicate SentKey(pub: PublicLine, privateKey: Option<nat>, requests: seq<string>) {
    requests == [] || (privateKey.Some? && forall i :: 0 <= i < |requests| ==> requests[i] == pub(privateKey.value))
  }

  /** The record is that of a validated response. */
  ghost predicate Backed(c: Crypto, record: MachineRecord, responses: seq<EnrollmentResponse>) {
    exists i :: 0 <= i < |responses| && ResponseDefect(c, responses[i]) == None && RecordOf(record, responses[i])
  }

  /** The key files hang together, every request carried the key on disk, and a record has a valid response. */
  ghost predicate Sound(c: Crypto, pub: PublicLine, s: Identity) {
    && KeysMatch(pub, s.privateKey, s.publicKey)
    && SentKey(pub, s.privateKey, s.requests)
    && (s.record.Some? ==> Backed(c, s.record.value, s.responses))
  }

  const FRESH := Identity(None, None, None, [], [], None)

  lemma KeyStepSound(c: Crypto, pub: PublicLine, s: Identity, e: AttemptEnv)
    requires Sound(c, pub, s)
    ensures var (s', key) := KeyStep(pub, s, e);
            && Sound(c, pub, s') && (s.privateKey.Some? ==> s'.privateKey == s.privateKey)
            && (key.Ok? ==> s'.privateKey == Some(key.value)) && s'.record == s.record
            && s'.responses == s.responses && s'.lastResponse == s.lastResponse
  {
  }

  lemma PostStepSound(c: Crypto, pub: PublicLine, s: Identity, key: nat, post: Post)
    requires Sound(c, pub, s) && s.privateKey == Some(key) && s.record.None?
    ensures var (s', r) := PostStep(s, pub(key), post);
            && Sound(c, pub, s') && s'.privateKey == s.privateKey && s'.record.None?
            && (r.Ok? ==> s'.lastResponse == Some(r.value) && |s'.responses| > 0
                          && s'.responses[|s'.responses| - 1] == r.value)
  {
  }

  lemma PersistStepSound(c: Crypto, pub: PublicLine, s: Identity, r: EnrollmentResponse, e: AttemptEnv)
    requires Sound(c, pub, s) && s.record.None? && s.lastResponse == Some(r)
    requires |s.responses| > 0 && s.responses[|s.responses| - 1] == r
    ensures var s' := PersistStep(c, s, r, e).0;
            && Sound(c, pub, s') && s'.privateKey == s.privateKey && s'.lastResponse == s.lastResponse
            && (s'.record.Some? ==> ResponseDefect(c, r) == None && RecordOf(s'.record.value, r))
  {
    if ResponseDefect(c, r) == None {
      assert RecordOf(RecordFor(r, e), s.responses[|s.responses| - 1]);
    }
  }

  /** The record on disk is that of the response the client holds, which is valid. */
  predicate Captured(c: Crypto, s: Identity) {
    s.record.Some? ==>
      s.lastResponse.Some? && ResponseDefect(c, s.lastResponse.value) == None
      && RecordOf(s.record.value, s.lastResponse.value)
  }

  /** One `enroll` keeps what hangs together, never changes a private key, and succeeds only with a record. */
  lemma EnrollSound(c: Crypto, pub: PublicLine, s: Identity, e: AttemptEnv)
    requires Sound(c, pub, s)
    ensures var (s', r) := EnrollStep(c, pub, s, e);
            && Sound(c, pub, s') && (s.privateKey.Some? ==> s'.privateKey == s.privateKey)
            && (Captured(c, s) ==> Captured(c, s'))
            && (r.Ok? ==> s.record.None? && s'.record.Some? && s'.record.value.machineId == r.value)
  {
    if s.record.None? && e.inputsValid {
      var (s1, key) := KeyStep(pub, s, e);
      KeyStepSound(c, pub, s, e);
      if key.Ok? && ValidKeyLine(c, pub(key.value)) {
        var (s2, r) := PostStep(s1, pub(key.value), e.post);
        PostStepSound(c, pub, s1, key.value, e.post);
        if r.Ok? {
          PersistStepSound(c, pub, s2, r.value, e);
        }
      }
    }
  }

  lemma AttemptSound(c: Crypto, pub: PublicLine, s: Identity, e: AttemptEnv)
    requires Sound(c, pub, s)
    ensures var s' := AttemptStep(c, pub, s, e).0;
            && Sound(c, pub, s') && (s.privateKey.Some? ==> s'.privateKey == s.privateKey)
            && (Captured(c, s) ==> Captured(c, s'))
  {
    EnrollSound(c, pub, s, e);
  }

  /**
   Over any run of attempts and restarts from nothing, with rejections, lost answers, invalid responses and
   half-finished writes: a public key file implies its private key file, the private key never changes once it
   is there, every request carried its public key, and a record exists only for a validated response.
   */
  lemma {:induction false} RunsAreSound(c: Crypto, pub: PublicLine, s: Identity, evs: seq<Event>, i: nat)
    requires Sound(c, pub, s) && i <= |evs|
    ensures Sound(c, pub, Run(c, pub, s, evs))
    ensures var before := Run(c, pub, s, evs[..i]).privateKey;
            before.Some? ==> Run(c, pub, s, evs).privateKey == before
  {
    if i == |evs| {
      assert evs[..i] == evs;
    }
    if evs != [] {
      var n := |evs| - 1;
      if i < |evs| {
        assert evs[..n][..i] == evs[..i];
      }
      RunsAreSound(c, pub, s, evs[..n], if i < |evs| then i else 0);
      if evs[n].Attempt? {
        AttemptSound(c, pub, Run(c, pub, s, evs[..n]), evs[n].env);
      }
    }
  }

  /** The same, spelled out for a machine with no files at all. */
  lemma RunsFromNothing(c: Crypto, pub: PublicLine, evs: seq<Event>, i: nat)
    requires i <= |evs|
    ensures var s, before := Run(c, pub, FRESH, evs), Run(c, pub, FRESH, evs[..i]);
            && (s.publicKey.Some? ==> s.privateKey.Some?)
            && (before.privateKey.Some? ==> s.privateKey == before.privateKey)
            && (forall j :: 0 <= j < |s.requests| ==> s.privateKey.Some? && s.requests[j] == pub(s.privateKey.value))
            && (s.record.Some? ==> Backed(c, s.record.value, s.responses))
  {
    RunsAreSound(c, pub, FRESH, evs, i);
  }

  /**
   On every such run a recorded machine id is 1 to 128 letters, digits, hyphens, underscores and dots, so on one line:
   a request signed in its name is the only one with its canonical string exactly if nothing after the timestamp
   contains a newline.
   */
  lemma EnrolledRequestsUnique(c: Crypto, pub: PublicLine, evs: seq<Event>, r: Signing.SignedRequest)
    requires var s := Run(c, pub, FRESH, evs);
             s.record.Some? && r.machineId == s.record.value.machineId
    ensures 1 <= |r.machineId| <= 128 && NewlineFree(r.machineId)
    ensures Signing.Unique(r) <==> Signing.TailOnOneLine(r)
  {
    var s := Run(c, pub, FRESH, evs);
    RunsFromNothing(c, pub, evs, 0);
    var i :| 0 <= i < |s.responses| && ResponseDefect(c, s.responses[i]) == None
             && RecordOf(s.record.value, s.responses[i]);
    NoDefectIff(c, s.responses[i]);
    Signing.UniqueOnOneLine(r);
  }

  // ---- When an attempt enrolls ----

  /** The private key an attempt works with: the one on disk, read, or a new one with both its files written. */
  predicate UsesKey(pub: PublicLine, s: Identity, e: AttemptEnv, key: nat) {
    if s.privateKey.Some? then s.privateKey == Some(key) && e.keyReadable
    else s.publicKey.None? && e.generated == Some(key) && e.privateWrite.Written? && e.publicWrite.Written?
  }

  /** The response an attempt gets: a parsed 2xx answer. */
  predicate Receives(e: AttemptEnv, r: EnrollmentResponse) {
    e.post.Answer? && 200 <= e.post.status < 300 && e.post.response == Some(r)
  }

  /** The attempt gets as far as a valid response. */
  ghost predicate Obtains(c: Crypto, pub: PublicLine, s: Identity, e: AttemptEnv, key: nat, r: EnrollmentResponse) {
    s.record.None? && e.inputsValid && UsesKey(pub, s, e, key) && IsKeyLine(c, pub(key))
    && Receives(e, r) && ResponseDefect(c, r) == None
  }

  /** The state after such an attempt: key pair, request, captured response, and the record as its write ended. */
  function Enrolled(pub: PublicLine, s: Identity, e: AttemptEnv, key: nat, r: EnrollmentResponse): Identity {
    var record := MachineRecord(
      machineId := r.machineId, hostname := e.hostname, serverUrl := e.serverUrl,
      heartbeatInterval := r.heartbeatInterval, syncInterval := r.syncInterval, enrolledAt := e.now);
    Identity(
      privateKey := Some(key),
      publicKey := if s.privateKey.Some? then s.publicKey else Some(pub(key) + "\n"),
      record := if e.recordWrite.FailedBefore? then None else Some(record),
      requests := s.requests + [pub(key)], responses := s.responses + [r], lastResponse := Some(r))
  }

  /**
   `enroll` succeeds if and only if the machine has no record, the inputs are valid, there is a key or one can be
   made, the answer is valid, and the record is written; it then returns the answer's machine id.
   */
  lemma EnrollsIff(c: Crypto, pub: PublicLine, s: Identity, e: AttemptEnv, id: string)
    ensures EnrollStep(c, pub, s, e).1 == Ok(id) <==>
            exists key, r :: Obtains(c, pub, s, e, key, r) && e.recordWrite.Written? && r.machineId == id
  {
    var (s1, key) := KeyStep(pub, s, e);
    if EnrollStep(c, pub, s, e).1 == Ok(id) {
      assert Obtains(c, pub, s, e, key.value, e.post.response.value);
    }
    if key', r :| Obtains(c, pub, s, e, key', r) && e.recordWrite.Written? && r.machineId == id {
      ObtainedState(c, pub, s, e, key', r);
    }
  }

  /** What an attempt that obtains a valid response leaves, whether or not its record write goes through. */
  lemma ObtainedState(c: Crypto, pub: PublicLine, s: Identity, e: AttemptEnv, key: nat, r: EnrollmentResponse)
    requires Obtains(c, pub, s, e, key, r)
    ensures EnrollStep(c, pub, s, e) ==
            (Enrolled(pub, s, e, key, r), if e.recordWrite.Written? then Ok(r.machineId) else Err(WriteFailed))
  {
  }

  /** Why an attempt fails: each error names the step it ended at, and everything before that step went well. */
  ghost predicate FailsAt(c: Crypto, pub: PublicLine, s: Identity, e: AttemptEnv, x: EnrollError) {
    match x
    case AlreadyEnrolled => s.record.Some?
    case InvalidInput => s.record.None? && !e.inputsValid
    case KeyUnreadable => s.record.None? && e.inputsValid && s.privateKey.Some? && !e.keyReadable
    case KeyAlreadyExists => s.record.None? && e.inputsValid && s.privateKey.None? && s.publicKey.Some?
    case KeyGeneration =>
      s.record.None? && e.inputsValid && s.privateKey.None? && s.publicKey.None? && e.generated.None?
    case WriteFailed =>
      || (s.record.None? && e.inputsValid && s.privateKey.None? && s.publicKey.None? && e.generated.Some?
          && !(e.privateWrite.Written? && e.publicWrite.Written?))
      || (!e.recordWrite.Written? && exists key, r :: Obtains(c, pub, s, e, key, r))
    case MalformedPublicKey =>
      s.record.None? && e.inputsValid && exists key :: UsesKey(pub, s, e, key) && !IsKeyLine(c, pub(key))
    case EnrollmentTransport =>
      s.record.None? && e.inputsValid && e.post.NoAnswer?
      && exists key :: UsesKey(pub, s, e, key) && IsKeyLine(c, pub(key))
    case EnrollmentRejected =>
      s.record.None? && e.inputsValid && e.post.Answer? && (forall r :: !Receives(e, r))
      && exists key :: UsesKey(pub, s, e, key) && IsKeyLine(c, pub(key))
    case InvalidServerResponse(reason) =>
      s.record.None? && e.inputsValid
      && (exists r :: Receives(e, r) && ResponseDefect(c, r) == Some(reason))
      && exists key :: UsesKey(pub, s, e, key) && IsKeyLine(c, pub(key))
    case IdentityUnreadable => false
  }

  lemma KeyStepIff(pub: PublicLine, s: Identity, e: AttemptEnv)
    ensures var key := KeyStep(pub, s, e).1;
            && (forall k: nat :: key == Ok(k) <==> UsesKey(pub, s, e, k))
            && (key.Err? ==> s.record.None? && e.inputsValid ==> FailsAtKey(s, e, key.error))
  {
  }

  /** The same for the key pair alone. */
  predicate FailsAtKey(s: Identity, e: AttemptEnv, x: EnrollError) {
    match x
    case KeyUnreadable => s.privateKey.Some? && !e.keyReadable
    case KeyAlreadyExists => s.privateKey.None? && s.publicKey.Some?
    case KeyGeneration => s.privateKey.None? && s.publicKey.None? && e.generated.None?
    case WriteFailed =>
      s.privateKey.None? && s.publicKey.None? && e.generated.Some?
      && !(e.privateWrite.Written? && e.publicWrite.Written?)
    case _ => false
  }

  /** A failed attempt fails for the reason it gives. */
  lemma FailsFor(c: Crypto, pub: PublicLine, s: Identity, e: AttemptEnv)
    ensures var r := EnrollStep(c, pub, s, e).1;
            r.Err? ==> FailsAt(c, pub, s, e, r.error)
  {
    var key := KeyStep(pub, s, e).1;
    KeyStepIff(pub, s, e);
    if s.record.None? && e.inputsValid && key.Ok? && IsKeyLine(c, pub(key.value)) && e.post.Answer?
       && 200 <= e.post.status < 300 && e.post.response.Some? {
      assert Receives(e, e.post.response.value);
      if ResponseDefect(c, e.post.response.value) == None {
        assert Obtains(c, pub, s, e, key.value, e.post.response.value);
      }
    }
  }

  /**
   What a failed attempt leaves of a machine without a record when it gets no valid response: the key files as their
   writes ended, the request if it was sent, and the response, valid or not, if one was received; never a record.
   */
  lemma FailureLeaves(c: Crypto, pub: PublicLine, s: Identity, e: AttemptEnv)
    requires EnrollStep(c, pub, s, e).1.Err? && forall key, r :: !Obtains(c, pub, s, e, key, r)
    ensures var s' := EnrollStep(c, pub, s, e).0;
            && s'.record == s.record
            && (s.record.Some? || !e.inputsValid ==> s' == s)
            && (s'.requests == s.requests
                || exists key :: UsesKey(pub, s, e, key) && IsKeyLine(c, pub(key))
                                 && s'.requests == s.requests + [pub(key)])
            && ((s'.responses == s.responses && s'.lastResponse == s.lastResponse)
                || exists r :: Receives(e, r) && ResponseDefect(c, r) != None
                               && s'.responses == s.responses + [r] && s'.lastResponse == Some(r))
  {
    var key := KeyStep(pub, s, e).1;
    KeyStepIff(pub, s, e);
    if s.record.None? && e.inputsValid && key.Ok? && IsKeyLine(c, pub(key.value)) {
      assert UsesKey(pub, s, e, key.value);
      if e.post.Answer? && 200 <= e.post.status < 300 && e.post.response.Some? {
        assert Receives(e, e.post.response.value);
        if ResponseDefect(c, e.post.response.value) == None {
          assert Obtains(c, pub, s, e, key.value, e.post.response.value);
        }
      }
    }
  }

  /** A turn of the retry on a machine with a record sends nothing and returns the recorded id if it can be loaded. */
  lemma RecordedTurn(c: Crypto, pub: PublicLine, s: Identity, e: AttemptEnv)
    requires s.record.Some?
    ensures AttemptStep(c, pub, s, e).0 == s
    ensures AttemptStep(c, pub, s, e).1.Ok? <==> s.privateKey.Some? && e.identityReadable
    ensures AttemptStep(c, pub, s, e).1.Ok? ==> AttemptStep(c, pub, s, e).1.value == s.record.value.machineId
  {
  }

  // ---- The retry loop and the pin ----

  /** The state and result after the attempts up to the first that succeeds. */
  function Retried(c: Crypto, pub: PublicLine, s: Identity, attempts: seq<AttemptEnv>)
    : (Identity, Result<string, EnrollError>)
    decreases |attempts|
  {
    if attempts == [] then (s, Err(EnrollmentTransport))
    else
      var (s1, r) := AttemptStep(c, pub, s, attempts[0]);
      if r.Ok? || |attempts| == 1 then (s1, r) else Retried(c, pub, s1, attempts[1..])
  }

  /** The state after the first `n` attempts, and the result of the n-th. */
  function StateAfter(c: Crypto, pub: PublicLine, s: Identity, attempts: seq<AttemptEnv>, n: nat): Identity
    requires n <= |attempts|
    decreases n
  {
    if n == 0 then s else StateAfter(c, pub, AttemptStep(c, pub, s, attempts[0]).0, attempts[1..], n - 1)
  }

  function NthResult(c: Crypto, pub: PublicLine, s: Identity, attempts: seq<AttemptEnv>, n: nat)
    : Result<string, EnrollError>
  {
    if 1 <= n <= |attempts| then AttemptStep(c, pub, StateAfter(c, pub, s, attempts, n - 1), attempts[n - 1]).1
    else Err(EnrollmentTransport)
  }

  lemma {:induction false} RetriedStops(c: Crypto, pub: PublicLine, s: Identity, attempts: seq<AttemptEnv>, n: nat)
    requires 1 <= n <= |attempts| && (NthResult(c, pub, s, attempts, n).Ok? || n == |attempts|)
    requires forall i :: 1 <= i < n ==> NthResult(c, pub, s, attempts, i).Err?
    ensures Retried(c, pub, s, attempts) == (StateAfter(c, pub, s, attempts, n), NthResult(c, pub, s, attempts, n))
    decreases n
  {
    if n > 1 {
      var s1, rest := AttemptStep(c, pub, s, attempts[0]).0, attempts[1..];
      forall i | 1 <= i < n ensures NthResult(c, pub, s1, rest, i) == NthResult(c, pub, s, attempts, i + 1) {
      }
      assert NthResult(c, pub, s, attempts, 1).Err?;
      RetriedStops(c, pub, s1, rest, n - 1);
    }
  }

  /**
   The retry of `ensure_enrolled` is `retry_with_backoff`: for every result and every list of calls that loop can
   have had, when it ends in success or after the last of the attempts, state and result are these.
   */
  lemma RetriedIsRetry(c: Crypto, pub: PublicLine, s: Identity, attempts: seq<AttemptEnv>,
                       op: nat -> Result<string, EnrollError>, proceed: nat -> bool,
                       r: Result<string, EnrollError>, calls: seq<nat>, sleeps: seq<real>)
    requires forall n: nat :: op(n) == NthResult(c, pub, s, attempts, n)
    requires Backoff.Returned(r, op, EnrollmentTransport, proceed, calls, sleeps)
    requires |calls| <= |attempts| && (r.Err? ==> |calls| == |attempts|)
    ensures Retried(c, pub, s, attempts) == (StateAfter(c, pub, s, attempts, |calls|), r)
  {
    if calls != [] {
      forall i | 1 <= i < |calls| ensures NthResult(c, pub, s, attempts, i).Err? {
        assert op(i).Err?;
      }
      RetriedStops(c, pub, s, attempts, |calls|);
    }
  }

  /** The pin `ensure_enrolled` sets out to write after a successful retry. */
  function PinAfter(cfg: CaSync.Config, pin: File, s: Identity, readable: bool): Option<string> {
    if s.lastResponse.None? then None
    else Daemon.PinToKeep(cfg, pin, s.lastResponse.value.bundleSigningKey, readable)
  }

  /**
   A process that dies between writing the record and writing the pin loses that pin for good: after the restart no
   run of attempts and further restarts changes anything, and none of them leaves a key to pin.
   */
  lemma {:induction false} PinLostForGood(c: Crypto, pub: PublicLine, cfg: CaSync.Config, pin: File, s: Identity,
                                          evs: seq<Event>, readable: bool)
    requires s.record.Some?
    ensures var s1 := Run(c, pub, Next(c, pub, s, Restart), evs);
            s1 == s.(lastResponse := None) && PinAfter(cfg, pin, s1, readable) == None
  {
    if evs != [] {
      PinLostForGood(c, pub, cfg, pin, s, evs[..|evs| - 1], readable);
    }
  }

  /** An attempt of a machine with a private key in which everything works and the server answers `r`. */
  function GoodAttempt(r: EnrollmentResponse): AttemptEnv {
    AttemptEnv(true, true, None, Written, Written, Answer(200, Some(r)), "", "", 0, Written, true)
  }

  /**
   A machine that restarts before its pin is written can still come to pin the key of a valid response if and only if
   it has no record yet.
   */
  lemma PinStillComesIff(c: Crypto, pub: PublicLine, cfg: CaSync.Config, pin: File, s: Identity, r: EnrollmentResponse)
    requires cfg.operatorPin.None? && Daemon.BlankFile(pin)
    requires s.privateKey.Some? && IsKeyLine(c, pub(s.privateKey.value))
    requires ResponseDefect(c, r) == None && r.bundleSigningKey.Some?
    ensures (exists evs :: PinAfter(cfg, pin, Run(c, pub, Next(c, pub, s, Restart), evs), true)
                           == Some(Trim(r.bundleSigningKey.value) + "\n"))
            <==> s.record.None?
  {
    if s.record.Some? {
      forall evs ensures PinAfter(cfg, pin, Run(c, pub, Next(c, pub, s, Restart), evs), true) == None {
        PinLostForGood(c, pub, cfg, pin, s, evs, true);
      }
    } else {
      var s1 := Next(c, pub, s, Restart);
      var evs := [Attempt(GoodAttempt(r))];
      assert evs[..0] == [];
      assert Obtains(c, pub, s1, GoodAttempt(r), s.privateKey.value, r);
      ObtainedState(c, pub, s1, GoodAttempt(r), s.privateKey.value, r);
      assert Run(c, pub, s1, evs) == Enrolled(pub, s1, GoodAttempt(r), s.privateKey.value, r);
      PinAfterIff(cfg, pin, Run(c, pub, s1, evs), true, Trim(r.bundleSigningKey.value) + "\n");
      assert PinAfter(cfg, pin, Run(c, pub, s1, evs), true) == Some(Trim(r.bundleSigningKey.value) + "\n");
    }
  }

  /**
   The captured response's signing key is what is pinned, if it has one, there is no operator pin, and the pin file,
   which must be readable, is missing or blank; otherwise nothing is.
   */
  lemma PinAfterIff(cfg: CaSync.Config, pin: File, s: Identity, readable: bool, text: string)
    ensures PinAfter(cfg, pin, s, readable) == Some(text) <==>
              && s.lastResponse.Some? && s.lastResponse.value.bundleSigningKey.Some?
              && cfg.operatorPin.None? && readable && Daemon.BlankFile(pin)
              && text == Trim(s.lastResponse.value.bundleSigningKey.value) + "\n"
  {
  }

  lemma {:induction false} RetriedSound(c: Crypto, pub: PublicLine, s: Identity, attempts: seq<AttemptEnv>)
    requires Sound(c, pub, s) && Captured(c, s)
    ensures var (s', r) := Retried(c, pub, s, attempts);
            && Sound(c, pub, s') && Captured(c, s')
            && (r.Ok? ==> s'.record.Some? && r.value == s'.record.value.machineId)
    decreases |attempts|
  {
    if attempts != [] {
      AttemptSound(c, pub, s, attempts[0]);
      var (s1, r) := AttemptStep(c, pub, s, attempts[0]);
      if !(r.Ok? || |attempts| == 1) {
        RetriedSound(c, pub, s1, attempts[1..]);
      }
    }
  }

  /**
   In one process that starts unenrolled, a pin written after the retry loop is the bundle signing key of the
   very response whose machine id is in the record, and that response was validated; this includes a record
   write that reported failure after its rename, with the retry loading the record.
   */
  lemma PinComesWithRecord(c: Crypto, pub: PublicLine, s: Identity, attempts: seq<AttemptEnv>,
                           cfg: CaSync.Config, pin: File, readable: bool)
    requires Sound(c, pub, s) && s.record.None?
    requires Retried(c, pub, s, attempts).1.Ok?
    ensures var s' := Retried(c, pub, s, attempts).0;
            && s'.record.Some? && s'.lastResponse.Some? && ResponseDefect(c, s'.lastResponse.value) == None
            && RecordOf(s'.record.value, s'.lastResponse.value)
            && (PinAfter(cfg, pin, s', readable).Some? ==>
                  var key := s'.lastResponse.value.bundleSigningKey;
                  && key.Some? && PinAfter(cfg, pin, s', readable) == Some(Trim(key.value) + "\n")
                  && Daemon.ValidEvent(c, Daemon.PinAtEnrollment(key, readable, Written)))
  {
    RetriedSound(c, pub, s, attempts);
  }

  lemma {:induction false} RetriedIdentified(c: Crypto, pub: PublicLine, s: Identity, attempts: seq<AttemptEnv>)
    ensures var (s', r) := Retried(c, pub, s, attempts);
            r.Ok? ==> s'.record.Some? && s'.privateKey.Some? && r.value == s'.record.value.machineId
    decreases |attempts|
  {
    if attempts != [] {
      RetriedIdentified(c, pub, AttemptStep(c, pub, s, attempts[0]).0, attempts[1..]);
    }
  }

  /** The pin is the signing key of the captured response, which is valid and is the one on record. */
  predicate PinnedWithRecord(c: Crypto, s: Identity, pin: File) {
    && Captured(c, s) && s.record.Some? && s.lastResponse.value.bundleSigningKey.Some?
    && pin == Holds(Trim(s.lastResponse.value.bundleSigningKey.value) + "\n")
  }

  // ---- The service ----

  class EnrollmentService {
    var privateKey: Option<nat>
    var publicKey: Option<string>
    var record: Option<MachineRecord>
    var requests: seq<string>
    var responses: seq<EnrollmentResponse>
    var lastResponse: Option<EnrollmentResponse>
    var pin: File

    function State(): Identity
      reads this
    {
      Identity(privateKey, publicKey, record, requests, responses, lastResponse)
    }

    constructor (s: Identity, pin: File)
      ensures State() == s && this.pin == pin
    {
      privateKey, publicKey, record := s.privateKey, s.publicKey, s.record;
      requests, responses, lastResponse := s.requests, s.responses, s.lastResponse;
      this.pin := pin;
    }

    method LoadOrGenerateKeypair(pub: PublicLine, e: AttemptEnv) returns (r: Result<nat, EnrollError>)
      modifies this
      ensures r.Ok? ==> privateKey == Some(r.value)
      ensures old(privateKey).Some? ==> privateKey == old(privateKey) && publicKey == old(publicKey)
      ensures KeysMatch(pub, old(privateKey), old(publicKey)) ==> KeysMatch(pub, privateKey, publicKey)
      ensures (State(), r) == KeyStep(pub, old(State()), e) && pin == old(pin)
    {
      if privateKey.Some? {
        return if e.keyReadable then Ok(privateKey.value) else Err(KeyUnreadable);
      }
      if publicKey.Some? {
        return Err(KeyAlreadyExists);
      }
      if e.generated.None? {
        return Err(KeyGeneration);
      }
      if !e.privateWrite.FailedBefore? {
        privateKey := e.generated;
      }
      if !e.privateWrite.Written? {
        return Err(WriteFailed);
      }
      if !e.publicWrite.FailedBefore? {
        publicKey := Some(pub(e.generated.value) + "\n");
      }
      return if e.publicWrite.Written? then Ok(e.generated.value) else Err(WriteFailed);
    }

    method PostRequest(line: string, post: Post) returns (r: Result<EnrollmentResponse, EnrollError>)
      modifies this
      ensures r.Ok? <==> responses != old(responses)
      ensures r.Ok? ==> lastResponse == Some(r.value) && responses == old(responses) + [r.value]
      ensures r.Err? ==> lastResponse == old(lastResponse)
      ensures (State(), r) == PostStep(old(State()), line, post) && pin == old(pin)
    {
      requests := requests + [line];
      match post {
        case NoAnswer => return Err(EnrollmentTransport);
        case Answer(status, response) =>
          if !CaSync.Success(status) || response.None? {
            return Err(EnrollmentRejected);
          }
          responses := responses + [response.value];
          lastResponse := response;
          return Ok(response.value);
      }
    }

    method PersistMachineIdentity(c: Crypto, response: EnrollmentResponse, e: AttemptEnv)
      returns (r: Result<string, EnrollError>)
      modifies this
      ensures record != old(record) || r.Ok? ==>
                ResponseDefect(c, response) == None && record.Some? && RecordOf(record.value, response)
      ensures r.Ok? ==> r.value == record.value.machineId
      ensures (State(), r) == PersistStep(c, old(State()), response, e) && pin == old(pin)
    {
      var defect := ResponseDefect(c, response);
      if defect.Some? {
        return Err(InvalidServerResponse(defect.value));
      }
      if !e.recordWrite.FailedBefore? {
        record := Some(RecordFor(response, e));
      }
      return if e.recordWrite.Written? then Ok(response.machineId) else Err(WriteFailed);
    }

    method Enroll(c: Crypto, pub: PublicLine, e: AttemptEnv) returns (r: Result<string, EnrollError>)
      modifies this
      ensures Sound(c, pub, old(State())) ==> Sound(c, pub, State())
      ensures Sound(c, pub, old(State())) && Captured(c, old(State())) ==> Captured(c, State())
      ensures old(privateKey).Some? ==> privateKey == old(privateKey)
      ensures r.Ok? ==> old(record).None? && record.Some? && r.value == record.value.machineId
      ensures (State(), r) == EnrollStep(c, pub, old(State()), e) && pin == old(pin)
    {
      if Sound(c, pub, State()) {
        EnrollSound(c, pub, State(), e);
      }
      if record.Some? {
        return Err(AlreadyEnrolled);
      }
      if !e.inputsValid {
        return Err(InvalidInput);
      }
      var key := LoadOrGenerateKeypair(pub, e);
      if key.Err? {
        return Err(key.error);
      }
      var line := pub(key.value);
      if !ValidKeyLine(c, line) {
        return Err(MalformedPublicKey);
      }
      var response := PostRequest(line, e.post);
      if response.Err? {
        return Err(response.error);
      }
      r := PersistMachineIdentity(c, response.value, e);
    }

    method TryEnroll(c: Crypto, pub: PublicLine, e: AttemptEnv) returns (r: Result<string, EnrollError>)
      modifies this
      ensures (State(), r) == AttemptStep(c, pub, old(State()), e) && pin == old(pin)
    {
      r := Enroll(c, pub, e);
      if r == Err(AlreadyEnrolled) {
        r := if record.Some? && privateKey.Some? && e.identityReadable then Ok(record.value.machineId)
             else Err(IdentityUnreadable);
      }
    }

    /**
     `ensure_enrolled`: an enrolled machine loads its record and pins nothing; otherwise the attempts run until
     one succeeds (the last one ending the loop by shutdown), and then the captured key is pinned. Success means
     that the returned machine id is the recorded one and that a pin written on the way came with that record.
     */
    method EnsureEnrolled(c: Crypto, pub: PublicLine, cfg: CaSync.Config, attempts: seq<AttemptEnv>,
                          identityReadable: bool, pinReadable: bool, pinWrite: WriteOutcome)
      returns (r: Result<string, EnrollError>)
      modifies this
      ensures r.Ok? ==> record.Some? && privateKey.Some? && r.value == record.value.machineId
      ensures Sound(c, pub, old(State())) && pin != old(pin) ==> PinnedWithRecord(c, State(), pin)
      ensures old(record).Some? ==>
                && State() == old(State()) && pin == old(pin)
                && (r.Ok? <==> privateKey.Some? && identityReadable)
      ensures old(record).None? ==>
                var (s, result) := Retried(c, pub, old(State()), attempts);
                var text := if result.Ok? then PinAfter(cfg, old(pin), s, pinReadable) else None;
                && State() == s
                && pin == (if text.None? then old(pin) else AfterWrite(old(pin), Holds(text.value), pinWrite))
                && r == (if text.Some? && !pinWrite.Written? then Err(WriteFailed) else result)
    {
      if record.Some? {
        return if privateKey.Some? && identityReadable then Ok(record.value.machineId) else Err(IdentityUnreadable);
      }
      ghost var whole := Retried(c, pub, State(), attempts);
      RetriedIdentified(c, pub, State(), attempts);
      if Sound(c, pub, State()) {
        RetriedSound(c, pub, State(), attempts);
      }
      r := Err(EnrollmentTransport);
      var i := 0;
      while i < |attempts| && r.Err?
        invariant i <= |attempts| && pin == old(pin)
        invariant whole == if r.Ok? || i == |attempts| then (State(), r) else Retried(c, pub, State(), attempts[i..])
      {
        assert attempts[i..][1..] == attempts[i + 1..];
        r := TryEnroll(c, pub, attempts[i]);
        i := i + 1;
      }
      if r.Err? {
        return;
      }
      if lastResponse.Some? {
        var text := Daemon.PinToKeep(cfg, pin, lastResponse.value.bundleSigningKey, pinReadable);
        if text.Some? {
          pin := AfterWrite(pin, Holds(text.value), pinWrite);
          if !pinWrite.Written? {
            r := Err(WriteFailed);
          }
        }
      }
    }
  }
}
