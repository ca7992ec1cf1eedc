/**
 A concrete server for the scenarios: two signers, any generation, and two key lists with different
 fingerprints at generation one.
 */
module ToyServer {
  import opened Text
  import opened KeyOrder
  import opened Bundle
  import opened SyncReach
  import opened Scenario
  import Canonical
  import TrustedCa

  /** A signer, by the blob of its key. */
  datatype Signer = Alpha | Beta

  function Blob(s: Signer): string {
    if s.Alpha? then "AAAA" else "BBBB"
  }

  function KeyOf(s: Signer): string {
    SIGNATURE_ALGORITHM + (" " + Blob(s))
  }

  function Digits(d: char): (z: string)
    requires IsDigit(d)
    ensures |z| == 64 && AllGraphic(z)
  {
    seq(64, i => d)
  }

  /** The bundle's one key; its id tells the two key lists apart. */
  function KeysOf(id: char): seq<CaBundleKey> {
    [CaBundleKey([id], KeyOf(Alpha))]
  }

  predicate IsToyKey(key: string) {
    key == KeyOf(Alpha) || key == KeyOf(Beta)
  }

  /** All documents but one have the same digest. */
  function ToyDigest(document: string): (z: string)
    ensures |z| == 64 && AllGraphic(z)
  {
    if document == Canonical.FingerprintDocument(1, KeysOf('j')) then Digits('1') else Digits('0')
  }

  /** Every signature verifies, and all bundles are valid from 0 to 2. */
  function Toy(): Crypto {
    Crypto(ToyDigest, IsToyKey, (p, s, k) => true, s => if s == "a" then Some(0) else Some(2))
  }

  function ToyPrint(g: u64, id: char): string {
    Fingerprint(Toy(), g, KeysOf(id))
  }

  function ToyOffer(g: u64, id: char, s: Signer): Offer {
    Offer(RawBundle(Some(1), Some(g), Some(ToyPrint(g, id)), Some("a"), Some("b"), KeysOf(id),
                    Some(SIGNATURE_ALGORITHM), Some(""), Some(KeyOf(s))),
          CaBundle(1, g, ToyPrint(g, id), 0, 2, KeysOf(id), KeyOf(s)))
  }

  // ---- Its crypto is as it should be ----

  lemma ToyHexDigests()
    ensures HexDigests(Toy())
  {
  }

  lemma TwoWords(a: string, b: string)
    requires IsWord(a) && IsWord(b)
    ensures Tokens(a + (" " + b)) == [a, b]
  {
    TokensOfWord(a, " " + b);
    assert (" " + b)[1..] == b;
    TokensOfWord(b, "");
    assert b + "" == b;
  }

  lemma KeyTokens(s: Signer)
    ensures Tokens(KeyOf(s)) == [SIGNATURE_ALGORITHM, Blob(s)]
  {
    assert IsWord(SIGNATURE_ALGORITHM) && IsWord(Blob(s));
    TwoWords(SIGNATURE_ALGORITHM, Blob(s));
  }

  lemma BlobIsBase64(s: Signer)
    ensures TrustedCa.IsBase64(Blob(s))
  {
    if s.Alpha? {
      assert TrustedCa.Base64Body("AAAA", 4);
    } else {
      assert TrustedCa.Base64Body("BBBB", 4);
    }
  }

  lemma ToyKeyLines()
    ensures KeyLines(Toy())
  {
    forall key | IsToyKey(key)
      ensures |Tokens(key)| >= 2 && Tokens(key)[0] == "ssh-ed25519" && TrustedCa.IsBase64(Tokens(key)[1])
    {
      var s := if key == KeyOf(Alpha) then Alpha else Beta;
      KeyTokens(s);
      BlobIsBase64(s);
    }
  }

  /** The two signers have different key material. */
  lemma DifferentSigners()
    ensures !SameMaterial(KeyOf(Alpha), KeyOf(Beta))
  {
    KeyTokens(Alpha);
    KeyTokens(Beta);
    assert Blob(Alpha)[0] != Blob(Beta)[0];
  }

  lemma DifferentKeys()
    ensures multiset(KeysOf('k')) != multiset(KeysOf('j'))
  {
    var k := CaBundleKey("k", KeyOf(Alpha));
    assert k in multiset(KeysOf('k')) && k.keyId != KeysOf('j')[0].keyId;
  }

  /** At generation one the two key lists have different fingerprints. */
  lemma DifferentFingerprints()
    ensures ToyPrint(1, 'j') != ToyPrint(1, 'k')
  {
    DifferentKeys();
    if Canonical.FingerprintDocument(1, KeysOf('k')) == Canonical.FingerprintDocument(1, KeysOf('j')) {
      Canonical.FingerprintDocumentInjective(1, KeysOf('k'), 1, KeysOf('j'));
    }
    assert ToyPrint(1, 'j')[7] == '1' && ToyPrint(1, 'k')[7] == '0';
  }

  // ---- Its offers are accepted ----

  lemma Framed(s: Signer)
    ensures KeyOf(s)[0] == 's' && !IsWhitespace(KeyOf(s)[|KeyOf(s)| - 1])
  {
    assert KeyOf(s)[|KeyOf(s)| - 1] == Blob(s)[3];
  }

  lemma NoControl(s: Signer)
    ensures !AnyControl(KeyOf(s))
  {
    var key := KeyOf(s);
    forall i | 0 <= i < |key| ensures !IsControl(key[i]) {
      assert i < 11 ==> key[i] == SIGNATURE_ALGORITHM[i];
      assert i > 11 ==> key[i] == Blob(s)[i - 12];
    }
  }

  lemma KeyShape(s: Signer)
    ensures ValidKeyLine(Toy(), KeyOf(s)) && Trim(KeyOf(s)) == KeyOf(s) && KeyOf(s) != []
  {
    NoControl(s);
    assert IsToyKey(KeyOf(s));
    Framed(s);
    TrimFramed(KeyOf(s));
  }

  lemma KeysAccepted(id: char)
    requires IsGraphic(id)
    ensures CheckKeys(Toy(), KeysOf(id)) == None
    ensures SortBy(KeyId, KeysOf(id)) == KeysOf(id)
  {
    KeyShape(Alpha);
    assert KeysOf(id)[..0] == [];
    assert ValidKey(Toy(), KeysOf(id)[0]);
  }

  lemma PrintFramed(digest: string)
    requires |digest| == 64 && AllGraphic(digest)
    ensures Trim("sha256:" + digest) != []
  {
    var text := "sha256:" + digest;
    assert text[|text| - 1] == digest[63] && IsGraphic(digest[63]) && text[0] == 's';
    TrimFramed(text);
  }

  lemma PrintShape(g: u64, id: char)
    ensures Trim(ToyPrint(g, id)) != []
  {
    PrintFramed(ToyDigest(Canonical.FingerprintDocument(g, KeysOf(id))));
  }

  /** The checks one by one, for any key list, signer and fingerprint that pass them. */
  lemma Passes(raw: RawBundle, expected: Option<string>, payload: string, sorted: seq<CaBundleKey>, key: string,
               fp: string, g: u64)
    requires raw == RawBundle(Some(1), Some(g), Some(fp), Some("a"), Some("b"), raw.keys,
                              Some(SIGNATURE_ALGORITHM), Some(""), Some(key))
    requires g > 0 && Trim(fp) != [] && Trim(key) != [] && ValidKeyLine(Toy(), key)
        && CheckKeys(Toy(), raw.keys) == None
    requires expected.Some? ==> SameMaterial(expected.value, key)
    ensures Decide(Toy(), raw, 1, expected, payload, sorted, fp) == Ok(CaBundle(1, g, fp, 0, 2, sorted, key))
  {
  }

  lemma Decides(g: u64, id: char, s: Signer, expected: Option<string>, payload: string)
    requires g > 0 && IsGraphic(id) && (expected.Some? ==> SameMaterial(expected.value, KeyOf(s)))
    ensures Decide(Toy(), ToyOffer(g, id, s).raw, 1, expected, payload, KeysOf(id), ToyPrint(g, id))
         == Ok(ToyOffer(g, id, s).bundle)
  {
    KeyShape(s);
    PrintShape(g, id);
    KeysAccepted(id);
    Passes(ToyOffer(g, id, s).raw, expected, payload, KeysOf(id), KeyOf(s), ToyPrint(g, id), g);
  }

  lemma ToyAccepted(g: u64, id: char, s: Signer, expected: Option<string>)
    requires g > 0 && IsGraphic(id) && (expected.Some? ==> SameMaterial(expected.value, KeyOf(s)))
    ensures FromResponse(Toy(), ToyOffer(g, id, s).raw, 1, expected) == Ok(ToyOffer(g, id, s).bundle)
  {
    KeysAccepted(id);
    Decides(g, id, s, expected, Canonical.SigningPayload(EnvelopeOf(ToyOffer(g, id, s).raw)));
  }

  lemma ToySigned(g: u64, id: char, s: Signer)
    requires g > 0 && IsGraphic(id)
    ensures Signed(Toy(), KeyOf(s), ToyOffer(g, id, s))
  {
    ToyHexDigests();
    ToyKeyLines();
    forall expected: Option<string> | expected.Some? ==> SameMaterial(expected.value, KeyOf(s))
      ensures FromResponse(Toy(), ToyOffer(g, id, s).raw, 1, expected) == Ok(ToyOffer(g, id, s).bundle)
    {
      ToyAccepted(g, id, s, expected);
    }
  }
}
