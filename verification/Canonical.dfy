/**
 The two canonical encodings of a bundle: the document the fingerprint hashes and the payload the
 signature covers. Each is printed by appending to a buffer; a reader built from the JSON decoder
 takes it apart again, so each determines everything that went into it.

 A function named `...Then(x, rest)` is the text printed for `x` followed by `rest`.
 */
module Canonical {
  import opened Text
  import opened Json
  import opened KeyOrder

  datatype Envelope = Envelope(version: nat, createdAt: string, expiresAt: string, fingerprint: string,
                               generation: nat, keys: seq<CaBundleKey>)

  // ---- The text ----

  function QuotedThen(x: string, rest: string): string {
    "\"" + (Escape(x) + ("\"" + rest))
  }

  function ItemThen(k: CaBundleKey, rest: string): string {
    "{\"key_id\":" + QuotedThen(k.keyId, ",\"public_key\":" + QuotedThen(k.publicKey, "}" + rest))
  }

  function MoreItemsThen(keys: seq<CaBundleKey>, rest: string): string {
    if keys == [] then "]" + rest
    else "," + ItemThen(keys[0], MoreItemsThen(keys[1..], rest))
  }

  function ItemsThen(keys: seq<CaBundleKey>, rest: string): string {
    if keys == [] then "]" + rest else ItemThen(keys[0], MoreItemsThen(keys[1..], rest))
  }

  /** `canonical_json`: generation and keys in key-id order. */
  function FingerprintDocument(generation: nat, keys: seq<CaBundleKey>): string {
    "{\"generation\":" + (Dec(generation) + (",\"keys\":[" + ItemsThen(SortBy(KeyId, keys), "}")))
  }

  /** `canonical_signing_payload`: the whole envelope, keys in key-id order. */
  function SigningPayload(e: Envelope): string {
    "{\"bundle_version\":" + (Dec(e.version)
    + (",\"created_at\":" + QuotedThen(e.createdAt,
       ",\"expires_at\":" + QuotedThen(e.expiresAt,
       ",\"fingerprint\":" + QuotedThen(e.fingerprint,
       ",\"generation\":" + (Dec(e.generation)
    + (",\"keys\":[" + ItemsThen(SortBy(KeyId, e.keys), "}"))))))))
  }

  // ---- Printing into a buffer ----

  /** One push onto the buffer moves text from what is left to what is printed. */
  method Push(out: string, text: string, ghost rest: string) returns (res: string)
    ensures res == out + text
    ensures res + rest == out + (text + rest)
  {
    Assoc(out, text, rest);
    res := out + text;
  }

  method PushQuoted(out: string, x: string, ghost rest: string) returns (res: string)
    ensures res + rest == out + QuotedThen(x, rest)
  {
    res := Push(out, "\"", Escape(x) + ("\"" + rest));
    Assoc(res, Escape(x), "\"" + rest);
    res := JsonEscapeInto(x, res);
    res := Push(res, "\"", rest);
  }

  /** The array loop of `append_keys_array`, after its opening bracket. */
  method AppendKeysArray(out: string, sorted: seq<CaBundleKey>, ghost rest: string) returns (res: string)
    ensures res + rest == out + ItemsThen(sorted, rest)
  {
    res := out;
    ghost var left := ItemsThen(sorted, rest);
    for i := 0 to |sorted|
      invariant res + left == out + ItemsThen(sorted, rest)
      invariant left == if i == 0 then ItemsThen(sorted, rest) else MoreItemsThen(sorted[i..], rest)
    {
      ghost var after := MoreItemsThen(sorted[i + 1..], rest);
      assert sorted[i..][1..] == sorted[i + 1..];
      if i > 0 {
        res := Push(res, ",", ItemThen(sorted[i], after));
      }
      res := AppendItem(res, sorted[i], after);
      left := after;
    }
    res := Push(res, "]", rest);
  }

  method AppendItem(out: string, k: CaBundleKey, ghost rest: string) returns (res: string)
    ensures res + rest == out + ItemThen(k, rest)
  {
    ghost var closed := "}" + rest;
    ghost var second := ",\"public_key\":" + QuotedThen(k.publicKey, closed);
    res := Push(out, "{\"key_id\":", QuotedThen(k.keyId, second));
    res := PushQuoted(res, k.keyId, second);
    res := Push(res, ",\"public_key\":", QuotedThen(k.publicKey, closed));
    res := PushQuoted(res, k.publicKey, closed);
    res := Push(res, "}", rest);
  }

  /** `canonical_json` as the buffer program it is. */
  method CanonicalJson(generation: nat, keys: seq<CaBundleKey>) returns (out: string)
    ensures out == FingerprintDocument(generation, keys)
  {
    var sorted := SortBy(KeyId, keys);
    ghost var items := ItemsThen(sorted, "}");
    out := "{\"generation\":";
    out := Push(out, Dec(generation), ",\"keys\":[" + items);
    out := Push(out, ",\"keys\":[", items);
    out := AppendKeysArray(out, sorted, "}");
    out := Push(out, "}", "");
    assert out + "" == out;
  }

  /** `canonical_signing_payload` as the buffer program it is. */
  method CanonicalSigningPayload(e: Envelope) returns (out: string)
    ensures out == SigningPayload(e)
  {
    var sorted := SortBy(KeyId, e.keys);
    ghost var items := ItemsThen(sorted, "}");
    ghost var r4 := ",\"generation\":" + (Dec(e.generation) + (",\"keys\":[" + items));
    ghost var r3 := ",\"fingerprint\":" + QuotedThen(e.fingerprint, r4);
    ghost var r2 := ",\"expires_at\":" + QuotedThen(e.expiresAt, r3);
    out := "{\"bundle_version\":";
    out := Push(out, Dec(e.version), ",\"created_at\":" + QuotedThen(e.createdAt, r2));
    out := Push(out, ",\"created_at\":", QuotedThen(e.createdAt, r2));
    out := PushQuoted(out, e.createdAt, r2);
    out := Push(out, ",\"expires_at\":", QuotedThen(e.expiresAt, r3));
    out := PushQuoted(out, e.expiresAt, r3);
    out := Push(out, ",\"fingerprint\":", QuotedThen(e.fingerprint, r4));
    out := PushQuoted(out, e.fingerprint, r4);
    out := Push(out, ",\"generation\":", Dec(e.generation) + (",\"keys\":[" + items));
    out := Push(out, Dec(e.generation), ",\"keys\":[" + items);
    out := Push(out, ",\"keys\":[", items);
    out := AppendKeysArray(out, sorted, "}");
    out := Push(out, "}", "");
    assert out + "" == out;
  }

  // ---- Reading it back ----

  function ReadQuoted(s: string): (r: Option<(string, string)>)
    ensures r.Some? ==> |r.value.1| < |s|
  {
    var s1 :- Expect("\"", s);
    DecodeString(s1)
  }

  function ReadItem(s: string): (r: Option<(CaBundleKey, string)>)
    ensures r.Some? ==> |r.value.1| < |s|
  {
    var s1 :- Expect("{\"key_id\":", s);
    var (id, s2) :- ReadQuoted(s1);
    var s3 :- Expect(",\"public_key\":", s2);
    var (publicKey, s4) :- ReadQuoted(s3);
    var s5 :- Expect("}", s4);
    Some((CaBundleKey(id, publicKey), s5))
  }

  function ReadMoreItems(s: string): Option<(seq<CaBundleKey>, string)>
    decreases |s|
  {
    if Expect("]", s).Some? then Some(([], Expect("]", s).value))
    else
      var s1 :- Expect(",", s);
      var (k, s2) :- ReadItem(s1);
      var (ks, s3) :- ReadMoreItems(s2);
      Some(([k] + ks, s3))
  }

  function ReadItems(s: string): Option<(seq<CaBundleKey>, string)> {
    if Expect("]", s).Some? then Some(([], Expect("]", s).value))
    else
      var (k, s1) :- ReadItem(s);
      var (ks, s2) :- ReadMoreItems(s1);
      Some(([k] + ks, s2))
  }

  function ReadFingerprintDocument(s: string): Option<(nat, seq<CaBundleKey>)> {
    var s1 :- Expect("{\"generation\":", s);
    var (generation, s2) :- ReadNumber(s1);
    var s3 :- Expect(",\"keys\":[", s2);
    var (keys, s4) :- ReadItems(s3);
    if s4 == "}" then Some((generation, keys)) else None
  }

  function ReadSigningPayload(s: string): Option<Envelope> {
    var s1 :- Expect("{\"bundle_version\":", s);
    var (version, s2) :- ReadNumber(s1);
    var s3 :- Expect(",\"created_at\":", s2);
    var (createdAt, s4) :- ReadQuoted(s3);
    var s5 :- Expect(",\"expires_at\":", s4);
    var (expiresAt, s6) :- ReadQuoted(s5);
    var s7 :- Expect(",\"fingerprint\":", s6);
    var (fingerprint, s8) :- ReadQuoted(s7);
    var s9 :- Expect(",\"generation\":", s8);
    var (generation, s10) :- ReadNumber(s9);
    var s11 :- Expect(",\"keys\":[", s10);
    var (keys, s12) :- ReadItems(s11);
    if s12 == "}" then Some(Envelope(version, createdAt, expiresAt, fingerprint, generation, keys)) else None
  }

  lemma ReadQuotedPrinted(x: string, rest: string)
    ensures ReadQuoted(QuotedThen(x, rest)) == Some((x, rest))
  {
    ExpectPrinted("\"", Escape(x) + ("\"" + rest));
    DecodeEscaped(x, rest);
  }

  lemma ReadItemPrinted(k: CaBundleKey, rest: string)
    ensures ReadItem(ItemThen(k, rest)) == Some((k, rest))
    ensures ItemThen(k, rest) != [] && ItemThen(k, rest)[0] == '{'
  {
    var closed := "}" + rest;
    var second := ",\"public_key\":" + QuotedThen(k.publicKey, closed);
    ExpectPrinted("{\"key_id\":", QuotedThen(k.keyId, second));
    ReadQuotedPrinted(k.keyId, second);
    ExpectPrinted(",\"public_key\":", QuotedThen(k.publicKey, closed));
    ReadQuotedPrinted(k.publicKey, closed);
    ExpectPrinted("}", rest);
  }

  lemma {:induction false} ReadMoreItemsPrinted(keys: seq<CaBundleKey>, rest: string)
    ensures ReadMoreItems(MoreItemsThen(keys, rest)) == Some((keys, rest))
  {
    if keys == [] {
      ExpectPrinted("]", rest);
    } else {
      var after := MoreItemsThen(keys[1..], rest);
      ExpectPrinted(",", ItemThen(keys[0], after));
      ReadItemPrinted(keys[0], after);
      ReadMoreItemsPrinted(keys[1..], rest);
      assert keys == [keys[0]] + keys[1..];
      assert MoreItemsThen(keys, rest)[0] == ',';
    }
  }

  lemma ReadItemsPrinted(keys: seq<CaBundleKey>, rest: string)
    ensures ReadItems(ItemsThen(keys, rest)) == Some((keys, rest))
  {
    if keys == [] {
      ExpectPrinted("]", rest);
    } else {
      assert keys == [keys[0]] + keys[1..];
      ReadItemPrinted(keys[0], MoreItemsThen(keys[1..], rest));
      ReadMoreItemsPrinted(keys[1..], rest);
    }
  }

  /** The fingerprint document reads back to the generation and the sorted keys. */
  lemma ReadFingerprintDocumentPrinted(generation: nat, keys: seq<CaBundleKey>)
    ensures ReadFingerprintDocument(FingerprintDocument(generation, keys)) == Some((generation, SortBy(KeyId, keys)))
  {
    var items := ItemsThen(SortBy(KeyId, keys), "}");
    ExpectPrinted("{\"generation\":", Dec(generation) + (",\"keys\":[" + items));
    ReadPrinted(generation, ",\"keys\":[" + items);
    ExpectPrinted(",\"keys\":[", items);
    ReadItemsPrinted(SortBy(KeyId, keys), "}");
  }

  /** The signing payload reads back to every field of the envelope, keys sorted. */
  lemma ReadSigningPayloadPrinted(e: Envelope)
    ensures ReadSigningPayload(SigningPayload(e)) == Some(e.(keys := SortBy(KeyId, e.keys)))
  {
    var items := ItemsThen(SortBy(KeyId, e.keys), "}");
    var r5 := Dec(e.generation) + (",\"keys\":[" + items);
    var r4 := ",\"generation\":" + r5;
    var r3 := ",\"fingerprint\":" + QuotedThen(e.fingerprint, r4);
    var r2 := ",\"expires_at\":" + QuotedThen(e.expiresAt, r3);
    var r1 := ",\"created_at\":" + QuotedThen(e.createdAt, r2);
    ExpectPrinted("{\"bundle_version\":", Dec(e.version) + r1);
    ReadPrinted(e.version, r1);
    ExpectPrinted(",\"created_at\":", QuotedThen(e.createdAt, r2));
    ReadQuotedPrinted(e.createdAt, r2);
    ExpectPrinted(",\"expires_at\":", QuotedThen(e.expiresAt, r3));
    ReadQuotedPrinted(e.expiresAt, r3);
    ExpectPrinted(",\"fingerprint\":", QuotedThen(e.fingerprint, r4));
    ReadQuotedPrinted(e.fingerprint, r4);
    ExpectPrinted(",\"generation\":", r5);
    ReadPrinted(e.generation, ",\"keys\":[" + items);
    ExpectPrinted(",\"keys\":[", items);
    ReadItemsPrinted(SortBy(KeyId, e.keys), "}");
  }

  /** Equal signing payloads come from equal envelopes, up to the order of the keys. */
  lemma SigningPayloadInjective(e: Envelope, f: Envelope)
    requires SigningPayload(e) == SigningPayload(f)
    ensures e.version == f.version && e.createdAt == f.createdAt && e.expiresAt == f.expiresAt
    ensures e.fingerprint == f.fingerprint && e.generation == f.generation
    ensures SortBy(KeyId, e.keys) == SortBy(KeyId, f.keys)
    ensures multiset(e.keys) == multiset(f.keys)
  {
    ReadSigningPayloadPrinted(e);
    ReadSigningPayloadPrinted(f);
    SortByPermutes(KeyId, e.keys);
    SortByPermutes(KeyId, f.keys);
  }

  /** Equal fingerprint documents come from one generation and one set of keys. */
  lemma FingerprintDocumentInjective(g: nat, ks: seq<CaBundleKey>, h: nat, ls: seq<CaBundleKey>)
    requires FingerprintDocument(g, ks) == FingerprintDocument(h, ls)
    ensures g == h && SortBy(KeyId, ks) == SortBy(KeyId, ls)
    ensures multiset(ks) == multiset(ls)
  {
    ReadFingerprintDocumentPrinted(g, ks);
    ReadFingerprintDocumentPrinted(h, ls);
    SortByPermutes(KeyId, ks);
    SortByPermutes(KeyId, ls);
  }
}
