/**
 The CA bundle: authentication and validation of an untrusted response, its fingerprint, and what
 acceptance means.
 */
module Bundle {
  import opened Text
  import opened KeyOrder
  import opened Canonical
  import TrustedCa

  /**
   The foreign libraries, as arbitrary functions: the lowercase hex SHA-256 of a text, whether `ssh_key`
   reads a line as an Ed25519 key, whether a detached signature over a payload verifies under a key line,
   and the RFC 3339 reading of a time stamp in nanoseconds.
   */
  datatype Crypto = Crypto(
    digest: string -> string,
    sshEd25519: string -> bool,
    verifies: (string, string, string) -> bool,
    instant: string -> Option<int>)

  /** A digest prints as sixty-four graphic characters. */
  ghost predicate HexDigests(c: Crypto) {
    forall s :: |c.digest(s)| == 64 && AllGraphic(c.digest(s))
  }

  /** An Ed25519 key line starts with the algorithm name and a base64 blob. */
  ghost predicate KeyLines(c: Crypto) {
    forall s :: c.sshEd25519(s) ==>
      |Tokens(s)| >= 2 && Tokens(s)[0] == "ssh-ed25519" && TrustedCa.IsBase64(Tokens(s)[1])
  }

  datatype BundleError =
    | UnsupportedVersion | UnsupportedSignatureAlgorithm | SignatureInvalid | SigningKeyMismatch
    | MissingFingerprint | MissingGeneration | NoKeys | TooManyKeys | InvalidKey | DuplicateKeyId
    | DuplicatePublicKey | FingerprintMismatch | InvalidTimestamp | Expired | NotYetValid
    | GenerationRegressed

  datatype RawBundle = RawBundle(
    bundleVersion: Option<nat>, generation: Option<u64>, fingerprint: Option<string>,
    createdAt: Option<string>, expiresAt: Option<string>, keys: seq<CaBundleKey>,
    signatureAlgorithm: Option<string>, signature: Option<string>, signingKey: Option<string>)

  datatype CaBundle = CaBundle(
    bundleVersion: nat, generation: u64, fingerprint: string, createdAt: int, expiresAt: int,
    keys: seq<CaBundleKey>, signingKey: string)

  const SUPPORTED_BUNDLE_VERSION: nat := 1
  const SIGNATURE_ALGORITHM := "ssh-ed25519"
  const CLOCK_SKEW_GRACE: int := 60_000_000_000
  const MIN_KEYS: nat := 1
  const MAX_KEYS: nat := 64
  const MAX_KEY_ID_LEN: nat := 64

  // ---- Checks ----

  /** `validate_ed25519_public_key`. */
  predicate ValidKeyLine(c: Crypto, line: string) {
    !AnyControl(line) && c.sshEd25519(line)
  }

  /** `validate_key_id`. */
  predicate ValidKeyId(id: string) {
    0 < |id| <= MAX_KEY_ID_LEN && AllGraphic(id)
  }

  predicate ValidKey(c: Crypto, k: CaBundleKey) {
    ValidKeyId(k.keyId) && ValidKeyLine(c, k.publicKey)
  }

  /** The algorithm and blob of a key line, when it has both. */
  function Material(line: string): Option<(string, string)> {
    var t := Tokens(line);
    if |t| < 2 then None else Some((t[0], t[1]))
  }

  /** `public_keys_equal`: same algorithm and blob, comment and spacing ignored. */
  predicate SameMaterial(a: string, b: string) {
    Material(a).Some? && Material(a) == Material(b)
  }

  function EnvelopeOf(raw: RawBundle): Envelope {
    Envelope(raw.bundleVersion.GetOr(0), raw.createdAt.GetOr(""), raw.expiresAt.GetOr(""),
             raw.fingerprint.GetOr(""), raw.generation.GetOr(0), raw.keys)
  }

  function Fingerprint(c: Crypto, generation: u64, keys: seq<CaBundleKey>): string {
    "sha256:" + c.digest(FingerprintDocument(generation, keys))
  }

  /** Everything checked before any content is trusted, for the payload the signature must cover. */
  function Authenticate(c: Crypto, raw: RawBundle, expected: Option<string>, payload: string): Option<BundleError> {
    var key := raw.signingKey.GetOr("");
    if raw.bundleVersion != Some(SUPPORTED_BUNDLE_VERSION) then Some(UnsupportedVersion)
    else if raw.signatureAlgorithm.GetOr("") != SIGNATURE_ALGORITHM then Some(UnsupportedSignatureAlgorithm)
    else if Trim(key) == [] || !ValidKeyLine(c, key) then Some(SignatureInvalid)
    else if expected.Some? && !SameMaterial(expected.value, key) then Some(SigningKeyMismatch)
    else if Trim(raw.fingerprint.GetOr("")) == [] then Some(MissingFingerprint)
    else if !c.verifies(payload, raw.signature.GetOr(""), key) then Some(SignatureInvalid)
    else None
  }

  /** The rules on the key list, duplicates looked for anywhere in it. */
  function CheckKeys(c: Crypto, keys: seq<CaBundleKey>): Option<BundleError> {
    if |keys| < MIN_KEYS then Some(NoKeys)
    else if |keys| > MAX_KEYS then Some(TooManyKeys)
    else if exists i :: 0 <= i < |keys| && !ValidKey(c, keys[i]) then Some(InvalidKey)
    else if !Distinct(KeyId, keys) then Some(DuplicateKeyId)
    else if !Distinct(PublicKey, keys) then Some(DuplicatePublicKey)
    else None
  }

  function CheckWindow(created: Option<int>, expires: Option<int>, now: int): Option<BundleError> {
    if created.None? || expires.None? || expires.value <= created.value then Some(InvalidTimestamp)
    else if now >= expires.value then Some(Expired)
    else if created.value - now > CLOCK_SKEW_GRACE then Some(NotYetValid)
    else None
  }

  /** The checks in order, for a signed payload, a sorted key list and a recomputed fingerprint. */
  function Decide(c: Crypto, raw: RawBundle, now: int, expected: Option<string>,
                  payload: string, sorted: seq<CaBundleKey>, computed: string): Result<CaBundle, BundleError>
  {
    var generation := raw.generation.GetOr(0);
    var created := c.instant(raw.createdAt.GetOr(""));
    var expires := c.instant(raw.expiresAt.GetOr(""));
    var refused := Authenticate(c, raw, expected, payload);
    if refused.Some? then Err(refused.value)
    else if generation == 0 then Err(MissingGeneration)
    else if CheckKeys(c, raw.keys).Some? then Err(CheckKeys(c, raw.keys).value)
    else if computed != raw.fingerprint.GetOr("") then Err(FingerprintMismatch)
    else if CheckWindow(created, expires, now).Some? then Err(CheckWindow(created, expires, now).value)
    else Ok(CaBundle(SUPPORTED_BUNDLE_VERSION, generation, computed, created.value, expires.value, sorted,
                     raw.signingKey.GetOr("")))
  }

  /** `CaBundle::from_response`, with the key rules stated on the list as received. */
  function FromResponse(c: Crypto, raw: RawBundle, now: int, expected: Option<string>)
    : Result<CaBundle, BundleError>
  {
    var sorted := SortBy(KeyId, raw.keys);
    Decide(c, raw, now, expected, SigningPayload(EnvelopeOf(raw)), sorted,
           Fingerprint(c, raw.generation.GetOr(0), sorted))
  }

  /** The key rules as the code runs them: check each key, sort, scan neighbours, twice. */
  method ScanKeys(c: Crypto, keys: seq<CaBundleKey>) returns (r: Option<BundleError>)
    ensures r == CheckKeys(c, keys)
  {
    if |keys| < MIN_KEYS {
      return Some(NoKeys);
    }
    if |keys| > MAX_KEYS {
      return Some(TooManyKeys);
    }
    for i := 0 to |keys|
      invariant forall j :: 0 <= j < i ==> ValidKey(c, keys[j])
    {
      if !ValidKeyId(keys[i].keyId) || !ValidKeyLine(c, keys[i].publicKey) {
        assert !ValidKey(c, keys[i]);
        return Some(InvalidKey);
      }
    }
    assert !exists i :: 0 <= i < |keys| && !ValidKey(c, keys[i]);
    SortThenScan(KeyId, keys);
    var dup := AdjacentDuplicate(KeyId, SortBy(KeyId, keys));
    if dup {
      return Some(DuplicateKeyId);
    }
    SortThenScan(PublicKey, keys);
    dup := AdjacentDuplicate(PublicKey, SortBy(PublicKey, keys));
    if dup {
      return Some(DuplicatePublicKey);
    }
    return None;
  }

  /** The gates before any content is trusted, as the code runs them. */
  method AuthenticateEnvelope(c: Crypto, raw: RawBundle, expected: Option<string>, payload: string)
    returns (r: Option<BundleError>)
    ensures r == Authenticate(c, raw, expected, payload)
  {
    if raw.bundleVersion.None? || raw.bundleVersion.value != SUPPORTED_BUNDLE_VERSION {
      return Some(UnsupportedVersion);
    }
    if raw.signatureAlgorithm.GetOr("") != SIGNATURE_ALGORITHM {
      return Some(UnsupportedSignatureAlgorithm);
    }
    var signingKey := raw.signingKey.GetOr("");
    if Trim(signingKey) == [] || !ValidKeyLine(c, signingKey) {
      return Some(SignatureInvalid);
    }
    if expected.Some? && !SameMaterial(expected.value, signingKey) {
      return Some(SigningKeyMismatch);
    }
    if Trim(raw.fingerprint.GetOr("")) == [] {
      return Some(MissingFingerprint);
    }
    if !c.verifies(payload, raw.signature.GetOr(""), signingKey) {
      return Some(SignatureInvalid);
    }
    return None;
  }

  /** The whole chain of checks, as the code runs it. */
  method RunChecks(c: Crypto, raw: RawBundle, now: int, expected: Option<string>,
                   payload: string, sorted: seq<CaBundleKey>, computed: string)
    returns (r: Result<CaBundle, BundleError>)
    ensures r == Decide(c, raw, now, expected, payload, sorted, computed)
  {
    var refused := AuthenticateEnvelope(c, raw, expected, payload);
    if refused.Some? {
      return Err(refused.value);
    }
    var generation := raw.generation.GetOr(0);
    if generation == 0 {
      return Err(MissingGeneration);
    }
    var rejected := ScanKeys(c, raw.keys);
    if rejected.Some? {
      return Err(rejected.value);
    }
    if computed != raw.fingerprint.GetOr("") {
      return Err(FingerprintMismatch);
    }
    var created := c.instant(raw.createdAt.GetOr(""));
    if created.None? {
      return Err(InvalidTimestamp);
    }
    var expires := c.instant(raw.expiresAt.GetOr(""));
    if expires.None? || expires.value <= created.value {
      return Err(InvalidTimestamp);
    }
    if now >= expires.value {
      return Err(Expired);
    }
    if created.value - now > CLOCK_SKEW_GRACE {
      return Err(NotYetValid);
    }
    return Ok(CaBundle(raw.bundleVersion.value, generation, computed, created.value, expires.value, sorted,
                       raw.signingKey.GetOr("")));
  }

  /** `from_response` on the buffer programs, the sort and the scans. */
  method Validate(c: Crypto, raw: RawBundle, now: int, expected: Option<string>)
    returns (r: Result<CaBundle, BundleError>)
    ensures r == FromResponse(c, raw, now, expected)
  {
    var payload := CanonicalSigningPayload(EnvelopeOf(raw));
    var sorted := SortBy(KeyId, raw.keys);
    var document := CanonicalJson(raw.generation.GetOr(0), sorted);
    r := RunChecks(c, raw, now, expected, payload, sorted, "sha256:" + c.digest(document));
  }

  // ---- What acceptance means ----

  /** The construction guarantees of a validated bundle. */
  ghost predicate ValidBundle(c: Crypto, b: CaBundle) {
    && b.bundleVersion == SUPPORTED_BUNDLE_VERSION
    && b.generation > 0
    && MIN_KEYS <= |b.keys| <= MAX_KEYS
    && (forall i :: 0 <= i < |b.keys| ==> ValidKey(c, b.keys[i]))
    && SortedBy(KeyId, b.keys) && Distinct(KeyId, b.keys) && Distinct(PublicKey, b.keys)
    && b.fingerprint == Fingerprint(c, b.generation, b.keys)
    && Trim(b.signingKey) != [] && ValidKeyLine(c, b.signingKey)
  }

  /** Read as JSON, `payload` is the response's own fields, each under its name, with the keys in key-id order. */
  predicate Covers(payload: string, raw: RawBundle) {
    ReadSigningPayload(payload) == Some(Envelope(
      version := raw.bundleVersion.GetOr(0), createdAt := raw.createdAt.GetOr(""), expiresAt := raw.expiresAt.GetOr(""),
      fingerprint := raw.fingerprint.GetOr(""), generation := raw.generation.GetOr(0), keys := SortBy(KeyId, raw.keys)))
  }

  /** `raw` carries a signature over its own fields that verifies under its signing key. */
  ghost predicate Verified(c: Crypto, raw: RawBundle) {
    exists payload :: Covers(payload, raw) && c.verifies(payload, raw.signature.GetOr(""), raw.signingKey.GetOr(""))
  }

  /** Read as JSON, the digested document is the generation and the keys. */
  ghost predicate Fingerprints(c: Crypto, fingerprint: string, generation: u64, keys: seq<CaBundleKey>) {
    exists document :: ReadFingerprintDocument(document) == Some((generation, keys))
                       && fingerprint == "sha256:" + c.digest(document)
  }

  lemma PayloadCovers(raw: RawBundle)
    ensures Covers(SigningPayload(EnvelopeOf(raw)), raw)
  {
    ReadSigningPayloadPrinted(EnvelopeOf(raw));
  }

  lemma FingerprintCovers(c: Crypto, generation: u64, keys: seq<CaBundleKey>)
    ensures Fingerprints(c, Fingerprint(c, generation, keys), generation, SortBy(KeyId, keys))
  {
    ReadFingerprintDocumentPrinted(generation, keys);
  }

  lemma AcceptedKeys(c: Crypto, raw: seq<CaBundleKey>)
    requires CheckKeys(c, raw) == None
    ensures var keys := SortBy(KeyId, raw);
            && MIN_KEYS <= |keys| <= MAX_KEYS
            && (forall i :: 0 <= i < |keys| ==> ValidKey(c, keys[i]))
            && SortedBy(KeyId, keys) && Distinct(KeyId, keys) && Distinct(PublicKey, keys)
  {
    var keys := SortBy(KeyId, raw);
    SortBySorted(KeyId, raw);
    SortByPermutes(KeyId, raw);
    DistinctPermutation(KeyId, raw, keys);
    DistinctPermutation(PublicKey, raw, keys);
    forall i | 0 <= i < |keys| ensures ValidKey(c, keys[i]) {
      InMultiset(keys, i);
      assert keys[i] in multiset(raw);
    }
  }

  lemma Decided(c: Crypto, raw: RawBundle, now: int, expected: Option<string>,
                payload: string, sorted: seq<CaBundleKey>, computed: string, b: CaBundle)
    requires Decide(c, raw, now, expected, payload, sorted, computed) == Ok(b)
    ensures CheckKeys(c, raw.keys) == None && b.keys == sorted && b.generation > 0
    ensures b.bundleVersion == SUPPORTED_BUNDLE_VERSION
    ensures Some(b.generation) == raw.generation && Some(b.signingKey) == raw.signingKey
    ensures b.fingerprint == computed && (computed != [] ==> Some(computed) == raw.fingerprint)
    ensures Trim(b.signingKey) != [] && ValidKeyLine(c, b.signingKey)
    ensures c.verifies(payload, raw.signature.GetOr(""), b.signingKey)
    ensures expected.Some? ==> SameMaterial(expected.value, b.signingKey)
    ensures c.instant(raw.createdAt.GetOr("")) == Some(b.createdAt)
        && c.instant(raw.expiresAt.GetOr("")) == Some(b.expiresAt)
    ensures b.createdAt - CLOCK_SKEW_GRACE <= now < b.expiresAt && b.createdAt < b.expiresAt
  {
  }

  /** An accepted bundle is valid, is a permutation of what was received, was signed, and is in its window. */
  lemma AcceptedBundle(c: Crypto, raw: RawBundle, now: int, expected: Option<string>, b: CaBundle)
    requires FromResponse(c, raw, now, expected) == Ok(b)
    ensures ValidBundle(c, b)
    ensures multiset(b.keys) == multiset(raw.keys)
    ensures Some(b.generation) == raw.generation && Some(b.signingKey) == raw.signingKey
    ensures Some(b.fingerprint) == raw.fingerprint
    ensures Verified(c, raw) && Fingerprints(c, b.fingerprint, b.generation, b.keys)
    ensures expected.Some? ==> SameMaterial(expected.value, b.signingKey)
    ensures c.instant(raw.createdAt.GetOr("")) == Some(b.createdAt)
        && c.instant(raw.expiresAt.GetOr("")) == Some(b.expiresAt)
    ensures b.createdAt - CLOCK_SKEW_GRACE <= now < b.expiresAt && b.createdAt < b.expiresAt
  {
    var sorted := SortBy(KeyId, raw.keys);
    PayloadCovers(raw);
    FingerprintCovers(c, b.generation, sorted);
    Decided(c, raw, now, expected, SigningPayload(EnvelopeOf(raw)), sorted,
            Fingerprint(c, raw.generation.GetOr(0), sorted), b);
    AcceptedKeys(c, raw.keys);
    SortByPermutes(KeyId, raw.keys);
    SortSorted(KeyId, sorted);
  }

  /**
   The signature of an accepted response is over a text that reads as version 1 and the response's own times, in
   their places, with the fingerprint, generation and keys of the bundle; the fingerprint is the digest of a text
   that reads as the generation and keys of the bundle.
   */
  lemma SignedFields(c: Crypto, raw: RawBundle, now: int, expected: Option<string>, b: CaBundle)
    requires FromResponse(c, raw, now, expected) == Ok(b)
    ensures exists payload ::
              && c.verifies(payload, raw.signature.GetOr(""), b.signingKey)
              && ReadSigningPayload(payload) == Some(Envelope(1, raw.createdAt.GetOr(""), raw.expiresAt.GetOr(""),
                                                              b.fingerprint, b.generation, b.keys))
    ensures exists document ::
              && ReadFingerprintDocument(document) == Some((b.generation, b.keys))
              && b.fingerprint == "sha256:" + c.digest(document)
  {
    AcceptedBundle(c, raw, now, expected, b);
    Decided(c, raw, now, expected, SigningPayload(EnvelopeOf(raw)), SortBy(KeyId, raw.keys),
            Fingerprint(c, raw.generation.GetOr(0), SortBy(KeyId, raw.keys)), b);
    PayloadCovers(raw);
    AcceptedVersion(c, raw, now, expected);
  }

  lemma AcceptedVersion(c: Crypto, raw: RawBundle, now: int, expected: Option<string>)
    requires FromResponse(c, raw, now, expected).Ok?
    ensures raw.bundleVersion == Some(1)
  {
  }

  /** Both lines have an algorithm and a blob, and these are the same. */
  predicate AlikeKeys(a: string, b: string) {
    |Tokens(a)| >= 2 && |Tokens(b)| >= 2 && Tokens(a)[0] == Tokens(b)[0] && Tokens(a)[1] == Tokens(b)[1]
  }

  /** Signed, for the payload given, by a valid key of the expected material. */
  predicate Authentic(c: Crypto, raw: RawBundle, expected: Option<string>, payload: string) {
    && raw.bundleVersion == Some(1) && raw.signatureAlgorithm == Some("ssh-ed25519")
    && raw.signingKey.Some? && Trim(raw.signingKey.value) != []
    && !AnyControl(raw.signingKey.value) && c.sshEd25519(raw.signingKey.value)
    && (expected.Some? ==> AlikeKeys(expected.value, raw.signingKey.value))
    && c.verifies(payload, raw.signature.GetOr(""), raw.signingKey.value)
  }

  /** The right number of keys, each valid, no two alike. */
  ghost predicate GoodKeys(c: Crypto, keys: seq<CaBundleKey>) {
    && 1 <= |keys| <= 64
    && (forall i :: 0 <= i < |keys| ==>
          && 1 <= |keys[i].keyId| <= 64 && AllGraphic(keys[i].keyId)
          && !AnyControl(keys[i].publicKey) && c.sshEd25519(keys[i].publicKey))
    && (forall i, j :: 0 <= i < j < |keys| ==>
          keys[i].keyId != keys[j].keyId && keys[i].publicKey != keys[j].publicKey)
  }

  /** The window is a window and contains `now`, with some grace at its start. */
  predicate Current(created: Option<int>, expires: Option<int>, now: int) {
    && created.Some? && expires.Some? && created.value < expires.value
    && created.value - 60_000_000_000 <= now < expires.value
  }

  /** What a response must be, for a signed payload and a recomputed fingerprint. */
  ghost predicate AcceptableAs(c: Crypto, raw: RawBundle, now: int, expected: Option<string>,
                               payload: string, computed: string)
  {
    && Authentic(c, raw, expected, payload)
    && raw.generation.Some? && raw.generation.value > 0 && GoodKeys(c, raw.keys)
    && raw.fingerprint == Some(computed)
    && Current(c.instant(raw.createdAt.GetOr("")), c.instant(raw.expiresAt.GetOr("")), now)
  }

  /** What a response must be to be accepted, with nothing said about the order of the checks. */
  ghost predicate Acceptable(c: Crypto, raw: RawBundle, now: int, expected: Option<string>) {
    AcceptableAs(c, raw, now, expected,
      SigningPayload(Envelope(
        version := 1, createdAt := raw.createdAt.GetOr(""), expiresAt := raw.expiresAt.GetOr(""),
        fingerprint := raw.fingerprint.GetOr(""), generation := raw.generation.GetOr(0), keys := raw.keys)),
      "sha256:" + c.digest(FingerprintDocument(raw.generation.GetOr(0), raw.keys)))
  }

  lemma {:induction false} TrimEndKeepsFirst(s: string)
    requires s != [] && !IsWhitespace(s[0])
    ensures TrimEnd(s) != []
    decreases |s|
  {
    if IsWhitespace(s[|s| - 1]) {
      TrimEndKeepsFirst(s[..|s| - 1]);
    }
  }

  lemma FingerprintNotBlank(c: Crypto, generation: u64, keys: seq<CaBundleKey>)
    ensures Fingerprint(c, generation, keys) != [] && Trim(Fingerprint(c, generation, keys)) != []
  {
    TrimEndKeepsFirst(Fingerprint(c, generation, keys));
  }

  lemma AuthenticIff(c: Crypto, raw: RawBundle, expected: Option<string>, payload: string)
    ensures Authenticate(c, raw, expected, payload) == None
       <==> Authentic(c, raw, expected, payload) && raw.fingerprint.Some? && Trim(raw.fingerprint.value) != []
  {
  }

  lemma KeysIff(c: Crypto, keys: seq<CaBundleKey>)
    ensures CheckKeys(c, keys) == None <==> GoodKeys(c, keys)
  {
  }

  lemma WindowIff(created: Option<int>, expires: Option<int>, now: int)
    ensures CheckWindow(created, expires, now) == None <==> Current(created, expires, now)
  {
  }

  lemma DecidesIff(c: Crypto, raw: RawBundle, now: int, expected: Option<string>,
                   payload: string, sorted: seq<CaBundleKey>, computed: string)
    ensures Decide(c, raw, now, expected, payload, sorted, computed).Ok? <==>
              && Authenticate(c, raw, expected, payload) == None && raw.generation.GetOr(0) != 0
              && CheckKeys(c, raw.keys) == None && computed == raw.fingerprint.GetOr("")
              && CheckWindow(c.instant(raw.createdAt.GetOr("")), c.instant(raw.expiresAt.GetOr("")), now) == None
  {
  }

  lemma RulesIff(c: Crypto, raw: RawBundle, now: int, expected: Option<string>,
                 payload: string, sorted: seq<CaBundleKey>, computed: string)
    requires Trim(computed) != [] && computed != []
    ensures Decide(c, raw, now, expected, payload, sorted, computed).Ok?
       <==> AcceptableAs(c, raw, now, expected, payload, computed)
  {
    AuthenticIff(c, raw, expected, payload);
    KeysIff(c, raw.keys);
    WindowIff(c.instant(raw.createdAt.GetOr("")), c.instant(raw.expiresAt.GetOr("")), now);
    DecidesIff(c, raw, now, expected, payload, sorted, computed);
  }

  /** A response is accepted if and only if every rule holds of it, whatever the order of its keys. */
  lemma AcceptedIff(c: Crypto, raw: RawBundle, now: int, expected: Option<string>)
    ensures FromResponse(c, raw, now, expected).Ok? <==> Acceptable(c, raw, now, expected)
  {
    var sorted, g := SortBy(KeyId, raw.keys), raw.generation.GetOr(0);
    FingerprintNotBlank(c, g, sorted);
    SortBySorted(KeyId, raw.keys);
    SortSorted(KeyId, sorted);
    assert FingerprintDocument(g, sorted) == FingerprintDocument(g, raw.keys);
    RulesIff(c, raw, now, expected, SigningPayload(EnvelopeOf(raw)), sorted, Fingerprint(c, g, sorted));
    if raw.bundleVersion == Some(1) {
      assert EnvelopeOf(raw) == Envelope(1, raw.createdAt.GetOr(""), raw.expiresAt.GetOr(""),
                                         raw.fingerprint.GetOr(""), g, raw.keys);
    }
  }

  lemma CheckKeysPermutation(c: Crypto, s: seq<CaBundleKey>, t: seq<CaBundleKey>)
    requires multiset(s) == multiset(t)
    requires CheckKeys(c, s) == None
    ensures CheckKeys(c, t) == None
  {
    assert |s| == |multiset(s)| == |multiset(t)| == |t|;
    DistinctPermutation(KeyId, s, t);
    DistinctPermutation(PublicKey, s, t);
    forall i | 0 <= i < |t| ensures ValidKey(c, t[i]) {
      InMultiset(t, i);
      assert t[i] in multiset(s);
    }
  }

  lemma PayloadPermutation(e: Envelope, keys: seq<CaBundleKey>)
    requires SortBy(KeyId, keys) == SortBy(KeyId, e.keys)
    ensures SigningPayload(e.(keys := keys)) == SigningPayload(e)
  {
  }

  lemma DecidePermutation(c: Crypto, raw: RawBundle, keys: seq<CaBundleKey>, now: int, expected: Option<string>,
                          payload: string, sorted: seq<CaBundleKey>, computed: string)
    requires CheckKeys(c, raw.keys) == None == CheckKeys(c, keys)
    ensures Decide(c, raw.(keys := keys), now, expected, payload, sorted, computed)
         == Decide(c, raw, now, expected, payload, sorted, computed)
  {
  }

  /** Whether a bundle is accepted, and as what, does not depend on the order of its keys. */
  lemma PermutedKeysAccepted(c: Crypto, raw: RawBundle, keys: seq<CaBundleKey>, now: int, expected: Option<string>)
    requires FromResponse(c, raw, now, expected).Ok?
    requires multiset(keys) == multiset(raw.keys)
    ensures FromResponse(c, raw.(keys := keys), now, expected) == FromResponse(c, raw, now, expected)
  {
    AcceptedKeyRules(c, raw, now, expected);
    SortByPermutation(KeyId, raw.keys, keys);
    CheckKeysPermutation(c, raw.keys, keys);
    PayloadPermutation(EnvelopeOf(raw), keys);
    assert EnvelopeOf(raw.(keys := keys)) == EnvelopeOf(raw).(keys := keys);
    DecidePermutation(c, raw, keys, now, expected, SigningPayload(EnvelopeOf(raw)), SortBy(KeyId, keys),
                      Fingerprint(c, raw.generation.GetOr(0), SortBy(KeyId, keys)));
  }

  lemma AcceptedKeyRules(c: Crypto, raw: RawBundle, now: int, expected: Option<string>)
    requires FromResponse(c, raw, now, expected).Ok?
    ensures CheckKeys(c, raw.keys) == None && Distinct(KeyId, raw.keys)
  {
    var sorted := SortBy(KeyId, raw.keys);
    DecidesIff(c, raw, now, expected, SigningPayload(EnvelopeOf(raw)), sorted,
               Fingerprint(c, raw.generation.GetOr(0), sorted));
    KeysIff(c, raw.keys);
  }

  lemma DecideOnce(c: Crypto, raw: RawBundle, raw': RawBundle, now: int, now': int,
                   expected: Option<string>, expected': Option<string>,
                   payload: string, sorted: seq<CaBundleKey>, computed: string, b: CaBundle, b': CaBundle)
    requires Decide(c, raw, now, expected, payload, sorted, computed) == Ok(b)
    requires Decide(c, raw', now', expected', payload, sorted, computed) == Ok(b')
    requires raw.generation.GetOr(0) == raw'.generation.GetOr(0)
    requires raw.createdAt.GetOr("") == raw'.createdAt.GetOr("")
    requires raw.expiresAt.GetOr("") == raw'.expiresAt.GetOr("")
    ensures b' == b.(signingKey := b'.signingKey)
  {
  }

  /** Two accepted responses that one text covers, before or after pinning, are one bundle. */
  lemma SignatureBindsBundle(c: Crypto, raw: RawBundle, raw': RawBundle, now: int, now': int, payload: string,
                             expected: Option<string>, expected': Option<string>, b: CaBundle, b': CaBundle)
    requires FromResponse(c, raw, now, expected) == Ok(b)
    requires FromResponse(c, raw', now', expected') == Ok(b')
    requires Covers(payload, raw) && Covers(payload, raw')
    ensures b' == b.(signingKey := b'.signingKey)
  {
    var sorted := SortBy(KeyId, raw.keys);
    var computed := Fingerprint(c, raw.generation.GetOr(0), sorted);
    PayloadPermutation(EnvelopeOf(raw), raw'.keys);
    assert EnvelopeOf(raw') == EnvelopeOf(raw).(keys := raw'.keys);
    DecideOnce(c, raw, raw', now, now', expected, expected', SigningPayload(EnvelopeOf(raw)), sorted, computed, b, b');
  }

  /** Bundles whose fingerprints agree and whose documents do not collide have one generation and key list. */
  lemma FingerprintBindsKeys(c: Crypto, b: CaBundle, b': CaBundle)
    requires ValidBundle(c, b) && ValidBundle(c, b')
    requires b.fingerprint == b'.fingerprint
    requires var d, d' := FingerprintDocument(b.generation, b.keys), FingerprintDocument(b'.generation, b'.keys);
             c.digest(d) == c.digest(d') ==> d == d'
    ensures b.generation == b'.generation && b.keys == b'.keys
  {
    var d, d' := FingerprintDocument(b.generation, b.keys), FingerprintDocument(b'.generation, b'.keys);
    assert c.digest(d) == b.fingerprint[7..] && c.digest(d') == b'.fingerprint[7..];
    FingerprintDocumentInjective(b.generation, b.keys, b'.generation, b'.keys);
    SortSorted(KeyId, b.keys);
    SortSorted(KeyId, b'.keys);
  }
}
