/**
 Rendering a validated bundle as a `TrustedUserCAKeys` body, and what the body says.
 */
module Rendering {
  import opened Text
  import opened KeyOrder
  import opened Bundle
  import opened TrustedCa

  /** `line` as one terminated line, followed by `rest`. */
  function LineThen(line: string, rest: string): string {
    line + "\n" + rest
  }

  /** `render_key_line`: algorithm, blob and a `mayfly:` comment. */
  function RenderKeyLine(k: CaBundleKey): string {
    var t := Tokens(k.publicKey);
    KeyLine(if |t| > 0 then t[0] else "ssh-ed25519", if |t| > 1 then t[1] else "", "mayfly:" + k.keyId)
  }

  function RenderKeys(keys: seq<CaBundleKey>): string {
    if keys == [] then "" else LineThen(RenderKeyLine(keys[0]), RenderKeys(keys[1..]))
  }

  const TITLE := "# Managed by mayfly-agent. DO NOT EDIT."

  function VersionLine(b: CaBundle): string {
    "# bundle_version: " + Dec(b.bundleVersion)
  }

  function GenerationLine(b: CaBundle): string {
    "# generation: " + Dec(b.generation)
  }

  function FingerprintLine(b: CaBundle): string {
    "# fingerprint: " + b.fingerprint
  }

  /** Four lines, followed by `rest`. */
  function FourLines(l1: string, l2: string, l3: string, l4: string, rest: string): string {
    LineThen(l1, LineThen(l2, LineThen(l3, LineThen(l4, rest))))
  }

  /** The whole body: four header lines, then one line per key. */
  function Render(b: CaBundle): string {
    FourLines(TITLE, VersionLine(b), GenerationLine(b), FingerprintLine(b), RenderKeys(b.keys))
  }

  method PushLine(out: string, line: string, ghost rest: string) returns (res: string)
    ensures res + rest == out + LineThen(line, rest)
  {
    Assoc(out, line, "\n" + rest);
    Assoc(out + line, "\n", rest);
    Assoc(line, "\n", rest);
    res := out + line;
    res := res + "\n";
  }

  /** `render_trusted_user_ca_keys` as the buffer program it is. */
  method RenderTrustedUserCaKeys(b: CaBundle) returns (out: string)
    ensures out == Render(b)
  {
    ghost var r3 := LineThen(FingerprintLine(b), RenderKeys(b.keys));
    ghost var r2 := LineThen(GenerationLine(b), r3);
    out := PushLine("", TITLE, LineThen(VersionLine(b), r2));
    out := PushLine(out, VersionLine(b), r2);
    out := PushLine(out, GenerationLine(b), r3);
    out := PushLine(out, FingerprintLine(b), RenderKeys(b.keys));
    assert b.keys[0..] == b.keys;
    for i := 0 to |b.keys|
      invariant out + RenderKeys(b.keys[i..]) == Render(b)
    {
      assert b.keys[i..][1..] == b.keys[i + 1..];
      out := PushLine(out, RenderKeyLine(b.keys[i]), RenderKeys(b.keys[i + 1..]));
    }
    assert out + "" == out;
  }

  // ---- Reading the body back ----

  /** The parsed form of a bundle key. */
  function Trusted(k: CaBundleKey): CaPublicKey {
    var t := Tokens(k.publicKey);
    CaPublicKey(if |t| > 0 then t[0] else "", if |t| > 1 then t[1] else "", Some("mayfly:" + k.keyId))
  }

  function TrustedKeys(keys: seq<CaBundleKey>): (r: seq<CaPublicKey>)
    ensures |r| == |keys|
    ensures forall i :: 0 <= i < |keys| ==> r[i] == Trusted(keys[i])
  {
    seq(|keys|, i requires 0 <= i < |keys| => Trusted(keys[i]))
  }

  lemma TrustedKeysFirst(keys: seq<CaBundleKey>)
    requires keys != []
    ensures TrustedKeys(keys) == [Trusted(keys[0])] + TrustedKeys(keys[1..])
  {
  }

  lemma MayflyComment(id: string)
    requires ValidKeyId(id)
    ensures AllGraphic("mayfly:" + id)
  {
    var s := "mayfly:" + id;
    forall i | 0 <= i < |s| ensures IsGraphic(s[i]) {
      if i >= 7 {
        assert s[i] == id[i - 7];
      }
    }
  }

  lemma RenderedKeyLine(c: Crypto, k: CaBundleKey)
    requires KeyLines(c) && ValidKey(c, k)
    ensures ParseKey(RenderKeyLine(k)) == Ok(Trusted(k))
    ensures var line := RenderKeyLine(k);
            line != [] && !Skipped(line) && NewlineFree(line) && line[|line| - 1] != '\r'
  {
    var t := Tokens(k.publicKey);
    assert c.sshEd25519(k.publicKey);
    MayflyComment(k.keyId);
    assert t[0] == ALLOWED_ALGORITHMS[0];
    ParseKeyLine(t[0], t[1], "mayfly:" + k.keyId);
  }

  /** A comment line that survives trimming and line splitting. */
  predicate IsHeader(text: string) {
    text != [] && text[0] == '#' && !IsWhitespace(text[|text| - 1]) && NewlineFree(text)
  }

  lemma ParseHeader(text: string, rest: string)
    requires IsHeader(text)
    ensures Parse(LineThen(text, rest)) == Parse(rest)
  {
    TrimFramed(text);
    LinesOfLine(text, rest);
    assert ([text] + Lines(rest))[1..] == Lines(rest);
  }

  lemma ParseFourHeaders(l1: string, l2: string, l3: string, l4: string, rest: string)
    requires IsHeader(l1) && IsHeader(l2) && IsHeader(l3) && IsHeader(l4)
    ensures Parse(FourLines(l1, l2, l3, l4, rest)) == Parse(rest)
  {
    ParseHeader(l4, rest);
    ParseHeader(l3, LineThen(l4, rest));
    ParseHeader(l2, LineThen(l3, LineThen(l4, rest)));
    ParseHeader(l1, LineThen(l2, LineThen(l3, LineThen(l4, rest))));
  }

  lemma TaggedHeader(tag: string, value: string)
    requires tag != [] && tag[0] == '#' && NewlineFree(tag)
    requires value != [] && AllGraphic(value)
    ensures IsHeader(tag + value)
  {
    var text := tag + value;
    assert text[|text| - 1] == value[|value| - 1];
    forall i | 0 <= i < |text| ensures text[i] != '\n' {
      if i >= |tag| {
        assert text[i] == value[i - |tag|];
      }
    }
  }

  lemma TitleHeader()
    ensures IsHeader(TITLE)
  {
  }

  lemma NumberHeaders(b: CaBundle)
    ensures IsHeader(VersionLine(b)) && IsHeader(GenerationLine(b))
  {
    DecGraphic(b.bundleVersion);
    DecGraphic(b.generation);
    TaggedHeader("# bundle_version: ", Dec(b.bundleVersion));
    TaggedHeader("# generation: ", Dec(b.generation));
  }

  lemma FingerprintHeader(b: CaBundle)
    requires b.fingerprint != [] && AllGraphic(b.fingerprint)
    ensures IsHeader(FingerprintLine(b))
  {
    TaggedHeader("# fingerprint: ", b.fingerprint);
  }

  lemma Headers(c: Crypto, b: CaBundle)
    requires HexDigests(c) && ValidBundle(c, b)
    ensures IsHeader(TITLE) && IsHeader(VersionLine(b)) && IsHeader(GenerationLine(b)) && IsHeader(FingerprintLine(b))
  {
    TitleHeader();
    NumberHeaders(b);
    FingerprintGraphic(c, b);
    FingerprintHeader(b);
  }

  lemma PrefixedDigest(d: string)
    requires AllGraphic(d)
    ensures AllGraphic("sha256:" + d)
  {
    var s := "sha256:" + d;
    forall i | 0 <= i < |s| ensures IsGraphic(s[i]) {
      if i >= 7 {
        assert s[i] == d[i - 7];
      }
    }
  }

  lemma FingerprintGraphic(c: Crypto, b: CaBundle)
    requires HexDigests(c) && ValidBundle(c, b)
    ensures b.fingerprint != [] && AllGraphic(b.fingerprint)
  {
    PrefixedDigest(c.digest(Canonical.FingerprintDocument(b.generation, b.keys)));
  }

  lemma DecGraphic(n: nat)
    ensures AllGraphic(Dec(n))
  {
    assert AllDigits(Dec(n));
  }

  lemma ParseOneMore(line: string, rest: string, k: CaPublicKey, ks: seq<CaPublicKey>)
    requires line != [] && !Skipped(line) && NewlineFree(line) && line[|line| - 1] != '\r'
    requires ParseKey(line) == Ok(k) && Parse(rest) == Ok(ks)
    ensures Parse(LineThen(line, rest)) == Ok([k] + ks)
  {
    LinesOfLine(line, rest);
    assert ([line] + Lines(rest))[1..] == Lines(rest);
  }

  lemma {:induction false} ParseKeys(c: Crypto, keys: seq<CaBundleKey>)
    requires KeyLines(c) && forall i :: 0 <= i < |keys| ==> ValidKey(c, keys[i])
    ensures Parse(RenderKeys(keys)) == Ok(TrustedKeys(keys))
  {
    if keys != [] {
      RenderedKeyLine(c, keys[0]);
      ParseKeys(c, keys[1..]);
      ParseOneMore(RenderKeyLine(keys[0]), RenderKeys(keys[1..]), Trusted(keys[0]), TrustedKeys(keys[1..]));
      TrustedKeysFirst(keys);
    }
  }

  /** The body of a valid bundle parses, and to exactly the bundle's keys in order. */
  lemma ParseRendered(c: Crypto, b: CaBundle)
    requires HexDigests(c) && KeyLines(c) && ValidBundle(c, b)
    ensures Parse(Render(b)) == Ok(TrustedKeys(b.keys))
  {
    Headers(c, b);
    ParseFourHeaders(TITLE, VersionLine(b), GenerationLine(b), FingerprintLine(b), RenderKeys(b.keys));
    ParseKeys(c, b.keys);
  }

  /** The lines for the keys: algorithm, blob and `mayfly:` with the key id, one blank between them. */
  function KeyTexts(keys: seq<CaBundleKey>): (r: seq<string>)
    requires forall i :: 0 <= i < |keys| ==> |Tokens(keys[i].publicKey)| >= 2
    ensures |r| == |keys|
    ensures forall i :: 0 <= i < |keys| ==>
              r[i] == Tokens(keys[i].publicKey)[0] + " " + Tokens(keys[i].publicKey)[1] + " mayfly:" + keys[i].keyId
  {
    seq(|keys|, i requires 0 <= i < |keys| =>
      Tokens(keys[i].publicKey)[0] + " " + Tokens(keys[i].publicKey)[1] + " mayfly:" + keys[i].keyId)
  }

  lemma KeyText(c: Crypto, k: CaBundleKey)
    requires KeyLines(c) && ValidKey(c, k)
    ensures |Tokens(k.publicKey)| >= 2
    ensures RenderKeyLine(k) == Tokens(k.publicKey)[0] + " " + Tokens(k.publicKey)[1] + " mayfly:" + k.keyId
  {
    assert c.sshEd25519(k.publicKey);
    var a, b, id := Tokens(k.publicKey)[0], Tokens(k.publicKey)[1], k.keyId;
    assert a + " " + b + " mayfly:" + id == a + (" " + (b + (" " + ("mayfly:" + id))));
  }

  lemma TwoFields(c: Crypto, keys: seq<CaBundleKey>)
    requires KeyLines(c) && forall i :: 0 <= i < |keys| ==> ValidKey(c, keys[i])
    ensures forall i :: 0 <= i < |keys| ==> |Tokens(keys[i].publicKey)| >= 2
  {
    forall i | 0 <= i < |keys| ensures |Tokens(keys[i].publicKey)| >= 2 {
      KeyText(c, keys[i]);
    }
  }

  lemma KeyTextsFirst(keys: seq<CaBundleKey>)
    requires keys != [] && forall i :: 0 <= i < |keys| ==> |Tokens(keys[i].publicKey)| >= 2
    ensures KeyTexts(keys) ==
            [Tokens(keys[0].publicKey)[0] + " " + Tokens(keys[0].publicKey)[1] + " mayfly:" + keys[0].keyId]
            + KeyTexts(keys[1..])
  {
  }

  lemma {:induction false} KeyLinesRead(c: Crypto, keys: seq<CaBundleKey>)
    requires KeyLines(c) && forall i :: 0 <= i < |keys| ==> ValidKey(c, keys[i])
    requires forall i :: 0 <= i < |keys| ==> |Tokens(keys[i].publicKey)| >= 2
    ensures Lines(RenderKeys(keys)) == KeyTexts(keys)
  {
    if keys != [] {
      RenderedKeyLine(c, keys[0]);
      KeyLinesRead(c, keys[1..]);
      LinesOfLine(RenderKeyLine(keys[0]), RenderKeys(keys[1..]));
      KeyText(c, keys[0]);
      KeyTextsFirst(keys);
    }
  }

  lemma FourHeaderLines(l1: string, l2: string, l3: string, l4: string, rest: string)
    requires IsHeader(l1) && IsHeader(l2) && IsHeader(l3) && IsHeader(l4)
    ensures Lines(FourLines(l1, l2, l3, l4, rest)) == [l1, l2, l3, l4] + Lines(rest)
  {
    LinesOfLine(l4, rest);
    LinesOfLine(l3, LineThen(l4, rest));
    LinesOfLine(l2, LineThen(l3, LineThen(l4, rest)));
    LinesOfLine(l1, LineThen(l2, LineThen(l3, LineThen(l4, rest))));
    FourThen(l1, l2, l3, l4, Lines(rest));
  }

  lemma FourThen(l1: string, l2: string, l3: string, l4: string, rest: seq<string>)
    ensures [l1] + ([l2] + ([l3] + ([l4] + rest))) == [l1, l2, l3, l4] + rest
  {
  }

  /** The body of a valid bundle, line by line. */
  lemma RenderedLines(c: Crypto, b: CaBundle)
    requires HexDigests(c) && KeyLines(c) && ValidBundle(c, b)
    ensures forall i :: 0 <= i < |b.keys| ==> |Tokens(b.keys[i].publicKey)| >= 2
    ensures Lines(Render(b)) ==
            ["# Managed by mayfly-agent. DO NOT EDIT.", "# bundle_version: " + Dec(b.bundleVersion),
             "# generation: " + Dec(b.generation), "# fingerprint: " + b.fingerprint] + KeyTexts(b.keys)
  {
    Headers(c, b);
    TwoFields(c, b.keys);
    KeyLinesRead(c, b.keys);
    FourHeaderLines(TITLE, VersionLine(b), GenerationLine(b), FingerprintLine(b), RenderKeys(b.keys));
  }

  // ---- What the body determines ----

  lemma SameFourLines(l1: string, l2: string, l3: string, l4: string, r: string,
                      m1: string, m2: string, m3: string, m4: string, s: string)
    requires NewlineFree(l1) && NewlineFree(l2) && NewlineFree(l3) && NewlineFree(l4)
    requires NewlineFree(m1) && NewlineFree(m2) && NewlineFree(m3) && NewlineFree(m4)
    requires FourLines(l1, l2, l3, l4, r) == FourLines(m1, m2, m3, m4, s)
    ensures l3 == m3 && l4 == m4 && r == s
  {
    SplitAtNewline(l1, LineThen(l2, LineThen(l3, LineThen(l4, r))), m1, LineThen(m2, LineThen(m3, LineThen(m4, s))));
    SplitAtNewline(l2, LineThen(l3, LineThen(l4, r)), m2, LineThen(m3, LineThen(m4, s)));
    SplitAtNewline(l3, LineThen(l4, r), m3, LineThen(m4, s));
    SplitAtNewline(l4, r, m4, s);
  }

  /** The body determines the generation and the fingerprint it was rendered from. */
  lemma RenderDetermines(c: Crypto, b: CaBundle, b': CaBundle)
    requires HexDigests(c) && ValidBundle(c, b) && ValidBundle(c, b')
    requires Render(b) == Render(b')
    ensures b.generation == b'.generation && b.fingerprint == b'.fingerprint
  {
    Headers(c, b);
    Headers(c, b');
    SameFourLines(TITLE, VersionLine(b), GenerationLine(b), FingerprintLine(b), RenderKeys(b.keys),
                  TITLE, VersionLine(b'), GenerationLine(b'), FingerprintLine(b'), RenderKeys(b'.keys));
    SameAfterPrefix("# generation: ", Dec(b.generation), Dec(b'.generation));
    SameAfterPrefix("# fingerprint: ", b.fingerprint, b'.fingerprint);
    DecValue(b.generation);
    DecValue(b'.generation);
  }
}
