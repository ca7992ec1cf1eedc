/**
 Parsing and structural validation of a `TrustedUserCAKeys` file.
 */
module TrustedCa {
  import opened Text

  datatype TrustedCaError = IllegalCharacter | EmptyLine | Malformed | DisallowedAlgorithm | InvalidEncoding

  datatype CaPublicKey = CaPublicKey(algorithm: string, keyData: string, comment: Option<string>)

  const ALLOWED_ALGORITHMS: seq<string> := [
    "ssh-ed25519", "ssh-rsa", "rsa-sha2-256", "rsa-sha2-512", "ecdsa-sha2-nistp256", "ecdsa-sha2-nistp384",
    "ecdsa-sha2-nistp521", "sk-ssh-ed25519@openssh.com", "sk-ecdsa-sha2-nistp256@openssh.com"
  ]

  // ---- Base64 ----

  predicate IsBase64Char(c: char) {
    IsAlphanumeric(c) || c == '+' || c == '/'
  }

  /** `n` alphabet characters, then only padding. */
  predicate Base64Body(s: string, n: nat)
    requires n <= |s|
  {
    && (forall i :: 0 <= i < n ==> IsBase64Char(s[i]))
    && (forall i :: n <= i < |s| ==> s[i] == '=')
  }

  /** Section 4 of RFC 4648: full quanta, at most two padding characters, all of them at the end. */
  predicate IsBase64(s: string) {
    |s| > 0 && |s| % 4 == 0 &&
    (Base64Body(s, |s|) || Base64Body(s, |s| - 1) || Base64Body(s, |s| - 2))
  }

  /** `is_valid_base64`: count the padding from the end, then check every character. */
  method IsValidBase64(s: string) returns (ok: bool)
    ensures ok <==> IsBase64(s)
  {
    if |s| == 0 || |s| % 4 != 0 {
      return false;
    }
    var padding := 0;
    while padding < |s| && s[|s| - 1 - padding] == '='
      invariant padding <= |s|
      invariant forall i :: |s| - padding <= i < |s| ==> s[i] == '='
    {
      padding := padding + 1;
    }
    if padding > 2 {
      assert s[|s| - 3] == '=' && !IsBase64Char('=');
      return false;
    }
    var bodyLen := |s| - padding;
    assert s[bodyLen - 1] != '=' && !IsBase64Char('=');
    for i := 0 to |s|
      invariant forall j :: 0 <= j < i && j < bodyLen ==> IsBase64Char(s[j])
    {
      if i >= bodyLen {
        if s[i] != '=' {
          return false;
        }
      } else if !IsBase64Char(s[i]) {
        return false;
      }
    }
    assert Base64Body(s, bodyLen);
    return bodyLen > 0;
  }

  /** The alphabet of section 4 of RFC 4648. */
  predicate InAlphabet(c: char) {
    'A' <= c <= 'Z' || 'a' <= c <= 'z' || '0' <= c <= '9' || c in {'+', '/'}
  }

  /** The first `n` characters are of the alphabet and the rest is padding. */
  predicate PaddedFrom(s: string, n: int) {
    forall i :: 0 <= i < |s| ==> if i < n then InAlphabet(s[i]) else s[i] == '='
  }

  /** Full quanta, and at most two characters of padding, written out. */
  lemma Base64Iff(s: string)
    ensures IsBase64(s) <==> s != "" && |s| % 4 == 0 && exists n :: |s| - 2 <= n <= |s| && PaddedFrom(s, n)
  {
    if IsBase64(s) {
      var n := if Base64Body(s, |s|) then |s| else if Base64Body(s, |s| - 1) then |s| - 1 else |s| - 2;
      assert PaddedFrom(s, n);
    }
    if n :| s != "" && |s| % 4 == 0 && |s| - 2 <= n <= |s| && PaddedFrom(s, n) {
      assert Base64Body(s, n);
    }
  }

  lemma Base64IsWord(s: string)
    requires IsBase64(s)
    ensures IsWord(s) && AllGraphic(s)
  {
  }

  // ---- One key line ----

  function StripPrefix(s: string, p: string): Option<string> {
    if p <= s then Some(s[|p|..]) else None
  }

  /** Everything after the first two fields, trimmed; nothing when that is blank. */
  function CollectComment(line: string, algorithm: string, keyData: string): Option<string> {
    var afterAlgorithm :- StripPrefix(TrimStart(line), algorithm);
    var afterKey :- StripPrefix(TrimStart(afterAlgorithm), keyData);
    if Trim(afterKey) == [] then None else Some(Trim(afterKey))
  }

  function ParseKey(line: string): Result<CaPublicKey, TrustedCaError> {
    if AnyControl(line) then Err(IllegalCharacter)
    else
      var trimmed := Trim(line);
      if trimmed == [] then Err(EmptyLine)
      else
        var tokens := Tokens(trimmed);
        if |tokens| < 2 then Err(Malformed)
        else if tokens[0] !in ALLOWED_ALGORITHMS then Err(DisallowedAlgorithm)
        else if !IsBase64(tokens[1]) then Err(InvalidEncoding)
        else Ok(CaPublicKey(tokens[0], tokens[1], CollectComment(trimmed, tokens[0], tokens[1])))
  }

  /** The nine key types, DSA not among them. */
  predicate IsKeyType(algorithm: string) {
    || algorithm in {"ssh-ed25519", "ssh-rsa", "rsa-sha2-256", "rsa-sha2-512"}
    || algorithm in {"ecdsa-sha2-nistp256", "ecdsa-sha2-nistp384", "ecdsa-sha2-nistp521"}
    || algorithm in {"sk-ssh-ed25519@openssh.com", "sk-ecdsa-sha2-nistp256@openssh.com"}
  }

  lemma AllowedIff(algorithm: string)
    ensures algorithm in ALLOWED_ALGORITHMS <==> IsKeyType(algorithm)
  {
    assert |ALLOWED_ALGORITHMS| == 9;
  }

  /** Why a key line is rejected, in terms of the line: control characters, too few fields, algorithm, blob. */
  lemma ParsedIff(line: string)
    ensures var fields := Tokens(line);
            match ParseKey(line)
            case Err(IllegalCharacter) => exists i :: 0 <= i < |line| && IsControl(line[i])
            case Err(EmptyLine) => (forall i :: 0 <= i < |line| ==> !IsControl(line[i])) && fields == []
            case Err(Malformed) => (forall i :: 0 <= i < |line| ==> !IsControl(line[i])) && |fields| == 1
            case Err(DisallowedAlgorithm) =>
              && (forall i :: 0 <= i < |line| ==> !IsControl(line[i]))
              && |fields| >= 2 && !IsKeyType(fields[0])
            case Err(InvalidEncoding) =>
              && (forall i :: 0 <= i < |line| ==> !IsControl(line[i]))
              && |fields| >= 2 && IsKeyType(fields[0]) && !IsBase64(fields[1])
            case Ok(k) =>
              && (forall i :: 0 <= i < |line| ==> !IsControl(line[i]))
              && |fields| >= 2 && IsKeyType(fields[0]) && IsBase64(fields[1])
              && k.algorithm == fields[0] && k.keyData == fields[1]
  {
    TokensTrim(line);
    if |Tokens(line)| > 0 {
      AllowedIff(Tokens(line)[0]);
    }
    if Trim(line) != [] {
      var a, b := TrimSplits(line);
      assert Tokens(Trim(line)) != [];
    }
  }

  /** The first field of a text that starts with one, and what follows it. */
  lemma FirstField(t: string) returns (rest: string)
    requires t != [] && !IsWhitespace(t[0])
    ensures Tokens(t) != [] && t == Tokens(t)[0] + rest && Tokens(t)[1..] == Tokens(rest)
    ensures rest == [] || IsWhitespace(rest[0])
  {
    WordLengthIs(t);
    rest := t[WordLength(t)..];
  }

  /**
   An accepted line is, up to blanks around it, its algorithm, blanks, its blob, and then nothing, or blanks and its
   comment, which neither starts nor ends with one.
   */
  lemma CommentIs(line: string, k: CaPublicKey) returns (gap: string, gap': string)
    requires ParseKey(line) == Ok(k)
    ensures AllBlank(gap) && gap != [] && AllBlank(gap')
    ensures Trim(line) == k.algorithm + gap + k.keyData + gap' + k.comment.GetOr("")
    ensures k.comment.Some? <==> gap' != []
    ensures k.comment.Some? ==> var t := k.comment.value; t != [] && !IsWhitespace(t[0]) && !IsWhitespace(t[|t| - 1])
  {
    var t := Trim(line);
    var a, b := TrimSplits(line);
    var rest := FirstField(t);
    gap := TrimStartSplits(rest);
    TokensTrimStart(rest);
    var tail := FirstField(TrimStart(rest));
    Stripped(t, k.algorithm, rest, TrimStart(rest), k.keyData, tail);
    var after: string;
    gap', after := TrimSplits(tail);
    Pieces(t, k.algorithm, gap, k.keyData, gap', Trim(tail), after, rest, tail);
  }

  lemma Pieces(t: string, algorithm: string, gap: string, keyData: string, gap': string, comment: string,
               after: string, rest: string, tail: string)
    requires t == algorithm + rest && rest == gap + (keyData + tail) && tail == gap' + comment + after
    requires t != [] && !IsWhitespace(t[|t| - 1]) && AllBlank(gap') && AllBlank(after)
    ensures t == algorithm + gap + keyData + gap' + comment
    ensures comment == [] ==> gap' == []
  {
    if after != [] {
      LastOf(t, algorithm + (gap + (keyData + (gap' + comment))), after);
    }
    if comment == [] && gap' != [] {
      LastOf(t, algorithm + (gap + keyData), gap');
    }
  }

  lemma LastOf(t: string, a: string, b: string)
    requires t == a + b && b != []
    ensures t[|t| - 1] == b[|b| - 1]
  {
  }

  lemma Stripped(t: string, algorithm: string, rest: string, second: string, keyData: string, tail: string)
    requires t != [] && !IsWhitespace(t[0]) && t == algorithm + rest
    requires TrimStart(rest) == second && second == keyData + tail
    ensures CollectComment(t, algorithm, keyData) == if Trim(tail) == [] then None else Some(Trim(tail))
  {
    assert t[|algorithm|..] == rest && second[|keyData|..] == tail;
  }

  // ---- The whole file ----

  predicate Skipped(line: string) {
    var t := Trim(line);
    t == [] || t[0] == '#'
  }

  /** The keys of the lines in order, or the error of the first bad one. */
  function ParseLines(lines: seq<string>): Result<seq<CaPublicKey>, TrustedCaError> {
    if lines == [] then Ok([])
    else if Skipped(lines[0]) then ParseLines(lines[1..])
    else
      match ParseKey(lines[0])
      case Err(e) => Err(e)
      case Ok(k) => Prefixed([k], ParseLines(lines[1..]))
  }

  function Parse(contents: string): Result<seq<CaPublicKey>, TrustedCaError> {
    ParseLines(Lines(contents))
  }

  function Prefixed(keys: seq<CaPublicKey>, r: Result<seq<CaPublicKey>, TrustedCaError>)
    : Result<seq<CaPublicKey>, TrustedCaError>
  {
    match r
    case Err(e) => Err(e)
    case Ok(ks) => Ok(keys + ks)
  }

  lemma PrefixedMore(keys: seq<CaPublicKey>, k: CaPublicKey, r: Result<seq<CaPublicKey>, TrustedCaError>)
    ensures Prefixed(keys, Prefixed([k], r)) == Prefixed(keys + [k], r)
  {
    if r.Ok? {
      assert keys + ([k] + r.value) == keys + [k] + r.value;
    }
  }

  /** `TrustedCaKeys::parse`: the loop that pushes keys and stops at the first error. */
  method ParseFile(contents: string) returns (r: Result<seq<CaPublicKey>, TrustedCaError>)
    ensures r == Parse(contents)
  {
    var lines := Lines(contents);
    var keys: seq<CaPublicKey> := [];
    assert lines[0..] == lines;
    assert Parse(contents).Ok? ==> [] + Parse(contents).value == Parse(contents).value;
    for i := 0 to |lines|
      invariant Parse(contents) == Prefixed(keys, ParseLines(lines[i..]))
    {
      assert lines[i..][1..] == lines[i + 1..];
      if Skipped(lines[i]) {
        continue;
      }
      match ParseKey(lines[i])
      case Err(e) => return Err(e);
      case Ok(k) =>
        PrefixedMore(keys, k, ParseLines(lines[i + 1..]));
        keys := keys + [k];
    }
    assert keys + [] == keys;
    return Ok(keys);
  }

  /** The line has no field, or its first field starts with `#`. */
  predicate Ignored(line: string) {
    Tokens(line) == [] || (Tokens(line)[0] != [] && Tokens(line)[0][0] == '#')
  }

  lemma SkippedIff(line: string)
    ensures Skipped(line) <==> Ignored(line)
  {
    TokensTrim(line);
    if Trim(line) != [] {
      var a, b := TrimSplits(line);
      var rest := FirstField(Trim(line));
      WordLengthIs(Trim(line));
    }
  }

  /** The line is ignored, or is a key. */
  predicate Fine(line: string) {
    Ignored(line) || ParseKey(line).Ok?
  }

  /** The lines that are not ignored, in order. */
  function KeptLines(lines: seq<string>): seq<string> {
    if lines == [] then []
    else (if Ignored(lines[0]) then [] else [lines[0]]) + KeptLines(lines[1..])
  }

  /** The keys of an accepted file are those of the lines that are not ignored, one each and in order. */
  lemma {:induction false} ParsedKeys(lines: seq<string>)
    requires ParseLines(lines).Ok?
    ensures var keys, kept := ParseLines(lines).value, KeptLines(lines);
            |keys| == |kept| && forall i :: 0 <= i < |keys| ==> ParseKey(kept[i]) == Ok(keys[i])
  {
    if lines != [] {
      SkippedIff(lines[0]);
      ParsedKeys(lines[1..]);
    }
  }

  /** A file is accepted exactly if each of its lines is; otherwise the error is that of the first line that is not. */
  lemma {:induction false} ParsedFileIff(lines: seq<string>)
    ensures ParseLines(lines).Ok? <==> forall i :: 0 <= i < |lines| ==> Fine(lines[i])
    ensures ParseLines(lines).Err? ==>
              exists i :: 0 <= i < |lines| && !Fine(lines[i]) && ParseKey(lines[i]) == Err(ParseLines(lines).error)
                          && forall j :: 0 <= j < i ==> Fine(lines[j])
  {
    if lines != [] {
      var rest := lines[1..];
      SkippedIff(lines[0]);
      ParsedFileIff(rest);
      if Fine(lines[0]) {
        assert forall i :: 0 < i < |lines| ==> lines[i] == rest[i - 1];
        assert ParseLines(lines).Ok? <==> ParseLines(rest).Ok?;
        if ParseLines(rest).Err? {
          var i :| 0 <= i < |rest| && !Fine(rest[i]) && ParseKey(rest[i]) == Err(ParseLines(rest).error)
                   && forall j :: 0 <= j < i ==> Fine(rest[j]);
          assert lines[i + 1] == rest[i];
          assert forall j :: 0 <= j < i + 1 ==> Fine(lines[j]);
        } else {
          assert forall i :: 0 <= i < |rest| ==> Fine(rest[i]);
        }
      }
    }
  }

  /** A normalised key line. */
  function KeyLine(algorithm: string, blob: string, comment: string): string {
    algorithm + (" " + (blob + (" " + comment)))
  }

  lemma LineCharacters(algorithm: string, blob: string, comment: string)
    requires AllGraphic(algorithm) && AllGraphic(blob) && AllGraphic(comment)
    ensures forall i :: 0 <= i < |KeyLine(algorithm, blob, comment)| ==>
              IsGraphic(KeyLine(algorithm, blob, comment)[i]) || KeyLine(algorithm, blob, comment)[i] == ' '
  {
  }

  lemma KeyLineTokens(algorithm: string, blob: string, comment: string)
    requires IsWord(algorithm) && IsWord(blob)
    ensures |Tokens(KeyLine(algorithm, blob, comment))| >= 2
    ensures Tokens(KeyLine(algorithm, blob, comment))[..2] == [algorithm, blob]
  {
    var tail := " " + comment;
    var rest := " " + (blob + tail);
    TokensOfWord(algorithm, rest);
    assert rest[1..] == blob + tail;
    TokensOfWord(blob, tail);
  }

  /** A normalised key line is one whole line, is not skipped, and parses to its three fields. */
  lemma ParseKeyLine(algorithm: string, blob: string, comment: string)
    requires algorithm in ALLOWED_ALGORITHMS && IsWord(algorithm) && AllGraphic(algorithm) && algorithm[0] != '#'
    requires IsBase64(blob) && comment != [] && AllGraphic(comment)
    ensures ParseKey(KeyLine(algorithm, blob, comment)) == Ok(CaPublicKey(algorithm, blob, Some(comment)))
    ensures !Skipped(KeyLine(algorithm, blob, comment)) && NewlineFree(KeyLine(algorithm, blob, comment))
    ensures KeyLine(algorithm, blob, comment)[|KeyLine(algorithm, blob, comment)| - 1] != '\r'
  {
    var line := KeyLine(algorithm, blob, comment);
    Base64IsWord(blob);
    LineCharacters(algorithm, blob, comment);
    assert line[0] == algorithm[0] && line[|line| - 1] == comment[|comment| - 1];
    TrimFramed(line);
    KeyLineTokens(algorithm, blob, comment);
    assert Tokens(line)[0] == Tokens(line)[..2][0] && Tokens(line)[1] == Tokens(line)[..2][1];
    CommentOfLine(line, algorithm, blob, comment);
  }

  lemma CommentOfLine(line: string, algorithm: string, blob: string, comment: string)
    requires IsWord(algorithm) && IsWord(blob) && comment != [] && AllGraphic(comment)
    requires line == KeyLine(algorithm, blob, comment)
    ensures CollectComment(line, algorithm, blob) == Some(comment)
  {
    assert line[0] == algorithm[0];
    var rest := " " + (blob + (" " + comment));
    assert line[|algorithm|..] == rest;
    assert rest[1..] == blob + (" " + comment) && rest[1..][0] == blob[0];
    assert TrimStart(rest) == rest[1..];
    var tail := " " + comment;
    assert rest[1..][|blob|..] == tail;
    assert tail[1..] == comment;
    assert TrimStart(tail) == comment;
    TrimFramed(comment);
  }
}
