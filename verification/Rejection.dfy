/**
 Why a response is rejected: every error names a rule that fails, and the first such in the order of the checks.
 */
module Rejection {
  import opened Text
  import opened KeyOrder
  import opened Canonical
  import opened Bundle

  /** A text the signing key can be. */
  predicate UsableKey(c: Crypto, key: string) {
    Trim(key) != [] && !AnyControl(key) && c.sshEd25519(key)
  }

  predicate UsableEntry(c: Crypto, k: CaBundleKey) {
    1 <= |k.keyId| <= 64 && AllGraphic(k.keyId) && !AnyControl(k.publicKey) && c.sshEd25519(k.publicKey)
  }

  ghost predicate WrongKeys(c: Crypto, keys: seq<CaBundleKey>, x: BundleError) {
    match x
    case NoKeys => keys == []
    case TooManyKeys => |keys| > 64
    case InvalidKey => exists i :: 0 <= i < |keys| && !UsableEntry(c, keys[i])
    case DuplicateKeyId => exists i, j :: 0 <= i < j < |keys| && keys[i].keyId == keys[j].keyId
    case DuplicatePublicKey => exists i, j :: 0 <= i < j < |keys| && keys[i].publicKey == keys[j].publicKey
    case _ => false
  }

  predicate WrongWindow(created: Option<int>, expires: Option<int>, now: int, x: BundleError) {
    match x
    case InvalidTimestamp => created.None? || expires.None? || expires.value <= created.value
    case Expired => expires.Some? && expires.value <= now
    case NotYetValid => created.Some? && now < created.value - 60_000_000_000
    case _ => false
  }

  predicate WrongEnvelope(c: Crypto, raw: RawBundle, expected: Option<string>, payload: string, x: BundleError) {
    var key := raw.signingKey.GetOr("");
    match x
    case UnsupportedVersion => raw.bundleVersion != Some(1)
    case UnsupportedSignatureAlgorithm => raw.signatureAlgorithm != Some("ssh-ed25519")
    case SignatureInvalid => !UsableKey(c, key) || !c.verifies(payload, raw.signature.GetOr(""), key)
    case SigningKeyMismatch => expected.Some? && !AlikeKeys(expected.value, key)
    case MissingFingerprint => raw.fingerprint.None? || Trim(raw.fingerprint.value) == []
    case _ => false
  }

  /** The rule that `x` names fails, for a signed payload and a recomputed fingerprint. */
  ghost predicate WrongAs(c: Crypto, raw: RawBundle, now: int, expected: Option<string>,
                          payload: string, computed: string, x: BundleError)
  {
    || WrongEnvelope(c, raw, expected, payload, x)
    || (x == MissingGeneration && (raw.generation.None? || raw.generation.value == 0))
    || WrongKeys(c, raw.keys, x)
    || (x == FingerprintMismatch && raw.fingerprint != Some(computed))
    || WrongWindow(c.instant(raw.createdAt.GetOr("")), c.instant(raw.expiresAt.GetOr("")), now, x)
  }

  /** The rule that `x` names fails of the response. */
  ghost predicate Wrong(c: Crypto, raw: RawBundle, now: int, expected: Option<string>, x: BundleError) {
    WrongAs(c, raw, now, expected,
      SigningPayload(Envelope(
        version := 1, createdAt := raw.createdAt.GetOr(""), expiresAt := raw.expiresAt.GetOr(""),
        fingerprint := raw.fingerprint.GetOr(""), generation := raw.generation.GetOr(0), keys := raw.keys)),
      "sha256:" + c.digest(FingerprintDocument(raw.generation.GetOr(0), raw.keys)), x)
  }

  /** The place of an error's rule among the checks; the signature comes after the gates, its key among them. */
  function Place(c: Crypto, raw: RawBundle, x: BundleError): nat {
    match x
    case UnsupportedVersion => 1
    case UnsupportedSignatureAlgorithm => 2
    case SignatureInvalid => if UsableKey(c, raw.signingKey.GetOr("")) then 6 else 3
    case SigningKeyMismatch => 4
    case MissingFingerprint => 5
    case MissingGeneration => 7
    case NoKeys => 8
    case TooManyKeys => 9
    case InvalidKey => 10
    case DuplicateKeyId => 11
    case DuplicatePublicKey => 12
    case FingerprintMismatch => 13
    case InvalidTimestamp => 14
    case Expired => 15
    case NotYetValid => 16
    case GenerationRegressed => 17
  }

  lemma KeysWrong(c: Crypto, raw: RawBundle, keys: seq<CaBundleKey>)
    ensures var r := CheckKeys(c, keys);
            if r.None? then forall y :: !WrongKeys(c, keys, y)
            else WrongKeys(c, keys, r.value)
                 && forall y :: WrongKeys(c, keys, y) ==> Place(c, raw, r.value) <= Place(c, raw, y)
  {
    assert forall k :: UsableEntry(c, k) <==> ValidKey(c, k);
  }

  lemma WindowWrong(c: Crypto, raw: RawBundle, created: Option<int>, expires: Option<int>, now: int)
    ensures var r := CheckWindow(created, expires, now);
            if r.None? then forall y :: !WrongWindow(created, expires, now, y)
            else WrongWindow(created, expires, now, r.value)
                 && forall y :: WrongWindow(created, expires, now, y) ==> Place(c, raw, r.value) <= Place(c, raw, y)
  {
  }

  lemma EnvelopeWrong(c: Crypto, raw: RawBundle, expected: Option<string>, payload: string)
    ensures var r := Authenticate(c, raw, expected, payload);
            if r.None? then forall y :: !WrongEnvelope(c, raw, expected, payload, y)
            else WrongEnvelope(c, raw, expected, payload, r.value)
                 && forall y :: WrongEnvelope(c, raw, expected, payload, y) ==>
                      Place(c, raw, r.value) <= Place(c, raw, y)
  {
  }

  lemma ContentWrong(c: Crypto, raw: RawBundle, now: int, expected: Option<string>,
                     payload: string, sorted: seq<CaBundleKey>, computed: string)
    requires computed != [] && Authenticate(c, raw, expected, payload) == None
    ensures var r := Decide(c, raw, now, expected, payload, sorted, computed);
            if r.Ok? then forall y :: !WrongAs(c, raw, now, expected, payload, computed, y)
            else WrongAs(c, raw, now, expected, payload, computed, r.error)
                 && forall y :: WrongAs(c, raw, now, expected, payload, computed, y) ==>
                      Place(c, raw, r.error) <= Place(c, raw, y)
  {
    EnvelopeWrong(c, raw, expected, payload);
    KeysWrong(c, raw, raw.keys);
    WindowWrong(c, raw, c.instant(raw.createdAt.GetOr("")), c.instant(raw.expiresAt.GetOr("")), now);
  }

  /** The rules on the content come after those on the envelope. */
  lemma ContentAfter(c: Crypto, raw: RawBundle, now: int, expected: Option<string>,
                     payload: string, computed: string, x: BundleError, y: BundleError)
    requires WrongEnvelope(c, raw, expected, payload, x) && WrongAs(c, raw, now, expected, payload, computed, y)
    ensures WrongEnvelope(c, raw, expected, payload, y) || Place(c, raw, x) <= Place(c, raw, y)
  {
  }

  lemma DecideWrong(c: Crypto, raw: RawBundle, now: int, expected: Option<string>,
                    payload: string, sorted: seq<CaBundleKey>, computed: string)
    requires computed != []
    ensures var r := Decide(c, raw, now, expected, payload, sorted, computed);
            if r.Ok? then forall y :: !WrongAs(c, raw, now, expected, payload, computed, y)
            else WrongAs(c, raw, now, expected, payload, computed, r.error)
                 && forall y :: WrongAs(c, raw, now, expected, payload, computed, y) ==>
                      Place(c, raw, r.error) <= Place(c, raw, y)
  {
    var refused := Authenticate(c, raw, expected, payload);
    if refused.None? {
      ContentWrong(c, raw, now, expected, payload, sorted, computed);
    } else {
      EnvelopeWrong(c, raw, expected, payload);
      forall y | WrongAs(c, raw, now, expected, payload, computed, y)
        ensures Place(c, raw, refused.value) <= Place(c, raw, y)
      {
        ContentAfter(c, raw, now, expected, payload, computed, refused.value, y);
      }
    }
  }

  lemma ComputedText(c: Crypto, raw: RawBundle)
    ensures Fingerprint(c, raw.generation.GetOr(0), SortBy(KeyId, raw.keys)) ==
            "sha256:" + c.digest(FingerprintDocument(raw.generation.GetOr(0), raw.keys))
  {
    SortBySorted(KeyId, raw.keys);
    SortSorted(KeyId, SortBy(KeyId, raw.keys));
    assert FingerprintDocument(raw.generation.GetOr(0), SortBy(KeyId, raw.keys)) ==
      FingerprintDocument(raw.generation.GetOr(0), raw.keys);
  }

  lemma WrongIs(c: Crypto, raw: RawBundle, now: int, expected: Option<string>)
    requires raw.bundleVersion == Some(1)
    ensures forall y :: Wrong(c, raw, now, expected, y) <==>
                        WrongAs(c, raw, now, expected, SigningPayload(EnvelopeOf(raw)),
                                Fingerprint(c, raw.generation.GetOr(0), SortBy(KeyId, raw.keys)), y)
  {
    ComputedText(c, raw);
    assert EnvelopeOf(raw) == Envelope(1, raw.createdAt.GetOr(""), raw.expiresAt.GetOr(""),
                                       raw.fingerprint.GetOr(""), raw.generation.GetOr(0), raw.keys);
  }

  lemma VersionFirst(c: Crypto, raw: RawBundle, now: int, expected: Option<string>)
    requires raw.bundleVersion != Some(1)
    ensures FromResponse(c, raw, now, expected) == Err(UnsupportedVersion)
    ensures Wrong(c, raw, now, expected, UnsupportedVersion)
    ensures forall y :: Place(c, raw, UnsupportedVersion) <= Place(c, raw, y)
  {
  }

  /**
   A response is rejected exactly if some rule fails of it, and the error names the first that does, in this order:
   version, algorithm, signing key, its match with the expected one, presence of a fingerprint, signature, generation,
   key count, each key, duplicate ids, duplicate public keys, fingerprint, time stamps, expiry, start.
   */
  lemma FirstFailingRule(c: Crypto, raw: RawBundle, now: int, expected: Option<string>)
    ensures var r := FromResponse(c, raw, now, expected);
            if r.Ok? then forall y :: !Wrong(c, raw, now, expected, y)
            else Wrong(c, raw, now, expected, r.error)
                 && forall y :: Wrong(c, raw, now, expected, y) ==> Place(c, raw, r.error) <= Place(c, raw, y)
  {
    var sorted := SortBy(KeyId, raw.keys);
    if raw.bundleVersion == Some(1) {
      WrongIs(c, raw, now, expected);
      DecideWrong(c, raw, now, expected, SigningPayload(EnvelopeOf(raw)), sorted,
                  Fingerprint(c, raw.generation.GetOr(0), sorted));
    } else {
      VersionFirst(c, raw, now, expected);
    }
  }

  lemma ContentMeansAuthenticated(c: Crypto, raw: RawBundle, now: int, expected: Option<string>,
                                  payload: string, sorted: seq<CaBundleKey>, computed: string)
    requires Decide(c, raw, now, expected, payload, sorted, computed).Err?
    requires Place(c, raw, Decide(c, raw, now, expected, payload, sorted, computed).error) > 6
    ensures c.verifies(payload, raw.signature.GetOr(""), raw.signingKey.GetOr(""))
    ensures expected.Some? ==> SameMaterial(expected.value, raw.signingKey.GetOr(""))
  {
    assert Authenticate(c, raw, expected, payload) == None;
  }

  /** Nothing of the content is judged before the signature over all of it has been found good. */
  lemma AuthenticatedFirst(c: Crypto, raw: RawBundle, now: int, expected: Option<string>)
    requires FromResponse(c, raw, now, expected).Err?
    requires Place(c, raw, FromResponse(c, raw, now, expected).error) > 6
    ensures Verified(c, raw)
    ensures expected.Some? ==> AlikeKeys(expected.value, raw.signingKey.GetOr(""))
  {
    var sorted := SortBy(KeyId, raw.keys);
    PayloadCovers(raw);
    ContentMeansAuthenticated(c, raw, now, expected, SigningPayload(EnvelopeOf(raw)), sorted,
                              Fingerprint(c, raw.generation.GetOr(0), sorted));
  }
}
