/**
 Strings as the agent's code sees them: sequences of Unicode scalar values with Rust's notions of
 white space, control characters, trimming, tokens, lines and decimal numbers.
 */
module Text {

  datatype Option<+T> = None | Some(value: T) {
    predicate IsFailure() {
      None?
    }

    function PropagateFailure<U>(): Option<U>
      requires None?
    {
      None
    }

    function Extract(): T
      requires Some?
    {
      value
    }

    function GetOr(default: T): T {
      if Some? then value else default
    }
  }

  datatype Result<+T, +E> = Ok(value: T) | Err(error: E)

  // ---- Character classes ----

  /** `char::is_whitespace`: the Unicode White_Space property. */
  predicate IsWhitespace(c: char) {
    '\t' <= c <= '\r' || c == ' ' || c == '\U{85}' || c == '\U{A0}' || c == '\U{1680}'
    || '\U{2000}' <= c <= '\U{200A}' || c == '\U{2028}' || c == '\U{2029}' || c == '\U{202F}'
    || c == '\U{205F}' || c == '\U{3000}'
  }

  /** `char::is_control`: general category Cc. */
  predicate IsControl(c: char) {
    c < ' ' || '\U{7F}' <= c <= '\U{9F}'
  }

  /** `char::is_ascii_graphic`. */
  predicate IsGraphic(c: char) {
    '!' <= c <= '~'
  }

  predicate IsDigit(c: char) {
    '0' <= c <= '9'
  }

  predicate IsAlphanumeric(c: char) {
    IsDigit(c) || 'a' <= c <= 'z' || 'A' <= c <= 'Z'
  }

  predicate AnyControl(s: string) {
    exists i :: 0 <= i < |s| && IsControl(s[i])
  }

  predicate AllGraphic(s: string) {
    forall i :: 0 <= i < |s| ==> IsGraphic(s[i])
  }

  /** A non-empty run of non-blank characters: what `split_whitespace` yields. */
  predicate IsWord(s: string) {
    s != [] && forall i :: 0 <= i < |s| ==> !IsWhitespace(s[i])
  }

  lemma Assoc(a: string, b: string, c: string)
    ensures a + b + c == a + (b + c)
  {
  }

  // ---- Trimming and tokens ----

  function TrimStart(s: string): string {
    if s != [] && IsWhitespace(s[0]) then TrimStart(s[1..]) else s
  }

  function TrimEnd(s: string): string {
    if s != [] && IsWhitespace(s[|s| - 1]) then TrimEnd(s[..|s| - 1]) else s
  }

  function Trim(s: string): string {
    TrimEnd(TrimStart(s))
  }

  /** The number of leading non-blank characters. */
  function WordLength(s: string): (n: nat)
    ensures n <= |s|
    ensures s != [] && !IsWhitespace(s[0]) ==> n > 0
  {
    if s == [] || IsWhitespace(s[0]) then 0 else 1 + WordLength(s[1..])
  }

  /** `split_whitespace`. */
  function Tokens(s: string): seq<string> {
    if s == [] then []
    else if IsWhitespace(s[0]) then Tokens(s[1..])
    else [s[..WordLength(s)]] + Tokens(s[WordLength(s)..])
  }

  lemma {:induction false} WordLengthOfWord(w: string, rest: string)
    requires IsWord(w) || w == []
    requires rest == [] || IsWhitespace(rest[0])
    ensures WordLength(w + rest) == |w|
  {
    if w == [] {
      assert w + rest == rest;
    } else {
      assert (w + rest)[1..] == w[1..] + rest;
      WordLengthOfWord(w[1..], rest);
    }
  }

  /** A word followed by a blank is the first token, whatever comes after. */
  lemma TokensOfWord(w: string, rest: string)
    requires IsWord(w)
    requires rest == [] || IsWhitespace(rest[0])
    ensures Tokens(w + rest) == [w] + Tokens(rest)
  {
    WordLengthOfWord(w, rest);
    assert (w + rest)[..|w|] == w && (w + rest)[|w|..] == rest;
    assert (w + rest)[0] == w[0];
  }

  lemma {:induction false} WordLengthAppendBlank(s: string, b: char)
    requires IsWhitespace(b)
    ensures WordLength(s + [b]) == WordLength(s)
  {
    if s != [] && !IsWhitespace(s[0]) {
      assert (s + [b])[1..] == s[1..] + [b];
      WordLengthAppendBlank(s[1..], b);
    }
  }

  /** A trailing blank adds no token. */
  lemma {:induction false} TokensAppendBlank(s: string, b: char)
    requires IsWhitespace(b)
    ensures Tokens(s + [b]) == Tokens(s)
    decreases |s|
  {
    if s == [] {
      assert (s + [b])[1..] == [];
    } else if IsWhitespace(s[0]) {
      assert (s + [b])[1..] == s[1..] + [b];
      TokensAppendBlank(s[1..], b);
    } else {
      var n := WordLength(s);
      WordLengthAppendBlank(s, b);
      assert (s + [b])[..n] == s[..n] && (s + [b])[n..] == s[n..] + [b];
      TokensAppendBlank(s[n..], b);
    }
  }

  lemma {:induction false} TokensTrimStart(s: string)
    ensures Tokens(TrimStart(s)) == Tokens(s)
  {
    if s != [] && IsWhitespace(s[0]) {
      TokensTrimStart(s[1..]);
    }
  }

  lemma {:induction false} TokensTrimEnd(s: string)
    ensures Tokens(TrimEnd(s)) == Tokens(s)
    decreases |s|
  {
    if s != [] && IsWhitespace(s[|s| - 1]) {
      assert s == s[..|s| - 1] + [s[|s| - 1]];
      TokensAppendBlank(s[..|s| - 1], s[|s| - 1]);
      TokensTrimEnd(s[..|s| - 1]);
    }
  }

  /** Trimming does not change the tokens of a line. */
  lemma TokensTrim(s: string)
    ensures Tokens(Trim(s)) == Tokens(s)
  {
    TokensTrimStart(s);
    TokensTrimEnd(TrimStart(s));
  }

  /** A text that neither starts nor ends with a blank is its own trimming, with or without a newline. */
  lemma TrimFramed(s: string)
    requires s != [] && !IsWhitespace(s[0]) && !IsWhitespace(s[|s| - 1])
    ensures Trim(s) == s
    ensures Trim(s + "\n") == s
  {
    assert (s + "\n")[..|s|] == s;
    assert TrimStart(s + "\n") == s + "\n";
    assert TrimEnd(s + "\n") == TrimEnd(s);
  }

  predicate AllBlank(s: string) {
    forall i :: 0 <= i < |s| ==> IsWhitespace(s[i])
  }

  lemma {:induction false} TrimStartSplits(s: string) returns (a: string)
    ensures AllBlank(a) && s == a + TrimStart(s)
    ensures TrimStart(s) != [] ==> !IsWhitespace(TrimStart(s)[0])
  {
    a := [];
    if s != [] && IsWhitespace(s[0]) {
      var rest := TrimStartSplits(s[1..]);
      a := [s[0]] + rest;
      assert s == [s[0]] + s[1..];
    }
  }

  lemma {:induction false} TrimEndSplits(s: string) returns (b: string)
    ensures AllBlank(b) && s == TrimEnd(s) + b
    ensures TrimEnd(s) != [] ==> !IsWhitespace(TrimEnd(s)[|TrimEnd(s)| - 1]) && TrimEnd(s)[0] == s[0]
    decreases |s|
  {
    b := [];
    if s != [] && IsWhitespace(s[|s| - 1]) {
      var rest := TrimEndSplits(s[..|s| - 1]);
      b := rest + [s[|s| - 1]];
      assert s == s[..|s| - 1] + [s[|s| - 1]];
    }
  }

  /** Trimming takes blanks from both ends, and all of them. */
  lemma TrimSplits(s: string) returns (a: string, b: string)
    ensures AllBlank(a) && AllBlank(b) && s == a + Trim(s) + b
    ensures Trim(s) != [] ==> !IsWhitespace(Trim(s)[0]) && !IsWhitespace(Trim(s)[|Trim(s)| - 1])
  {
    a := TrimStartSplits(s);
    b := TrimEndSplits(TrimStart(s));
  }

  /** A word is as long as it can be. */
  lemma {:induction false} WordLengthIs(s: string)
    ensures forall i :: 0 <= i < WordLength(s) ==> !IsWhitespace(s[i])
    ensures WordLength(s) < |s| ==> IsWhitespace(s[WordLength(s)])
  {
    if s != [] && !IsWhitespace(s[0]) {
      WordLengthIs(s[1..]);
      forall i | 0 <= i < WordLength(s) ensures !IsWhitespace(s[i]) {
        assert i > 0 ==> s[i] == s[1..][i - 1];
      }
    }
  }

  // ---- Lines ----

  /** The length of the text before the first newline (all of it when there is none). */
  function LineLength(s: string): (n: nat)
    ensures n <= |s|
    ensures n < |s| ==> s[n] == '\n'
    ensures forall i :: 0 <= i < n ==> s[i] != '\n'
  {
    if s == [] || s[0] == '\n' then 0 else 1 + LineLength(s[1..])
  }

  /** Drop the carriage return of a `\r\n` line ending. */
  function StripCr(line: string): string {
    if line != [] && line[|line| - 1] == '\r' then line[..|line| - 1] else line
  }

  /** `str::lines`. */
  function Lines(s: string): seq<string> {
    var n := LineLength(s);
    if s == [] then []
    else if n == |s| then [s]
    else [StripCr(s[..n])] + Lines(s[n + 1..])
  }

  predicate NewlineFree(s: string) {
    forall i :: 0 <= i < |s| ==> s[i] != '\n'
  }

  /** The first newline of `a + "\n" + rest` ends `a` when `a` has none. */
  lemma LineLengthOfLine(a: string, rest: string)
    requires NewlineFree(a)
    ensures LineLength(a + "\n" + rest) == |a|
  {
    var s := a + "\n" + rest;
    assert s[|a|] == '\n';
    assert forall i :: 0 <= i < |a| ==> s[i] == a[i];
    var n := LineLength(s);
    assert !(n < |a|) && !(n > |a|);
  }

  /** A terminated line without line-ending characters is read back as is. */
  lemma LinesOfLine(a: string, rest: string)
    requires NewlineFree(a) && (a == [] || a[|a| - 1] != '\r')
    ensures Lines(a + "\n" + rest) == [a] + Lines(rest)
  {
    var s := a + "\n" + rest;
    LineLengthOfLine(a, rest);
    assert s[..|a|] == a && s[|a| + 1..] == rest;
  }

  /** A line ends with a newline, or a carriage return and a newline, or with the text. */
  lemma LineEndings(a: string, rest: string)
    requires NewlineFree(a)
    ensures Lines(a + "\r\n" + rest) == [a] + Lines(rest)
    ensures a == [] || a[|a| - 1] != '\r' ==> Lines(a + "\n" + rest) == [a] + Lines(rest)
    ensures a != [] ==> Lines(a) == [a]
  {
    var c := a + "\r";
    LineLengthOfLine(c, rest);
    assert a + "\r\n" + rest == c + "\n" + rest;
    assert (c + "\n" + rest)[..|c|] == c && (c + "\n" + rest)[|c| + 1..] == rest && c[..|c| - 1] == a;
    if a == [] || a[|a| - 1] != '\r' {
      LinesOfLine(a, rest);
    }
  }

  /** Two newline-terminated splits of one text are the same split. */
  lemma SplitAtNewline(a: string, r: string, b: string, t: string)
    requires NewlineFree(a) && NewlineFree(b)
    requires a + "\n" + r == b + "\n" + t
    ensures a == b && r == t
  {
    LineLengthOfLine(a, r);
    LineLengthOfLine(b, t);
    var s := a + "\n" + r;
    assert a == s[..|a|] && b == s[..|b|];
    assert r == s[|a| + 1..] && t == s[|b| + 1..];
  }

  // ---- Decimal numbers ----

  const U64_MAX: nat := 0xFFFF_FFFF_FFFF_FFFF

  type u64 = n: nat | n <= U64_MAX

  function Digit(d: nat): (c: char)
    requires d < 10
    ensures IsDigit(c) && DigitValue(c) == d
  {
    '0' + d as char
  }

  function DigitValue(c: char): (d: nat)
    requires IsDigit(c)
    ensures d < 10
  {
    (c - '0') as int
  }

  predicate AllDigits(s: string) {
    forall i :: 0 <= i < |s| ==> IsDigit(s[i])
  }

  /** `u64::to_string`: decimal without leading zeros. */
  function Dec(n: nat): (s: string)
    ensures s != [] && AllDigits(s)
  {
    if n < 10 then [Digit(n)] else Dec(n / 10) + [Digit(n % 10)]
  }

  /** `i64::to_string`. */
  function SignedDec(n: int): string {
    if n < 0 then "-" + Dec(-n) else Dec(n)
  }

  function Value(s: string): nat
    requires AllDigits(s)
  {
    if s == [] then 0 else Value(s[..|s| - 1]) * 10 + DigitValue(s[|s| - 1])
  }

  /** `str::parse::<u64>`: an optional plus sign, at least one digit, no overflow. */
  function ParseU64(s: string): Option<u64> {
    var t := if s != [] && s[0] == '+' then s[1..] else s;
    if t == [] || !AllDigits(t) || Value(t) > U64_MAX then None else Some(Value(t))
  }

  /** Reading a printed number gives the number. */
  lemma {:induction false} DecValue(n: nat)
    ensures Value(Dec(n)) == n
  {
    if n < 10 {
      assert Dec(n)[..0] == [];
    } else {
      var s := Dec(n);
      assert s[..|s| - 1] == Dec(n / 10) && s[|s| - 1] == Digit(n % 10);
      DecValue(n / 10);
    }
  }

  /** A printed number has no superfluous zero, and is the only text of digits without one that has its value. */
  lemma {:induction false} DecIsCanonical(n: nat, s: string)
    requires s != [] && AllDigits(s) && (|s| == 1 || s[0] != '0')
    ensures |Dec(n)| == 1 || Dec(n)[0] != '0'
    ensures Value(s) == n <==> s == Dec(n)
    decreases n, |s|
  {
    NoLeadingZero(n);
    DecValue(n);
    if Value(s) == n {
      SameValue(s, Dec(n));
    }
  }

  lemma {:induction false} NoLeadingZero(n: nat)
    ensures |Dec(n)| == 1 || Dec(n)[0] != '0'
    ensures n > 0 ==> Dec(n)[0] != '0'
  {
    if n >= 10 {
      NoLeadingZero(n / 10);
    } else if n > 0 {
      assert DigitValue(Dec(n)[0]) == n;
    }
  }

  lemma {:induction false} ValuePositive(s: string)
    requires s != [] && AllDigits(s) && s[0] != '0'
    ensures Value(s) > 0
  {
    if |s| > 1 {
      ValuePositive(s[..|s| - 1]);
    } else {
      assert s[..0] == [];
    }
  }

  lemma {:induction false} SameValue(s: string, t: string)
    requires s != [] && AllDigits(s) && (|s| == 1 || s[0] != '0')
    requires t != [] && AllDigits(t) && (|t| == 1 || t[0] != '0')
    requires Value(s) == Value(t)
    ensures s == t
    decreases |s|
  {
    var i, j := s[..|s| - 1], t[..|t| - 1];
    assert s == i + [s[|s| - 1]] && t == j + [t[|t| - 1]];
    SameLast(Value(i), DigitValue(s[|s| - 1]), Value(j), DigitValue(t[|t| - 1]));
    if i != [] {
      ValuePositive(i);
    }
    if j != [] {
      ValuePositive(j);
    }
    if i != [] && j != [] {
      SameValue(i, j);
    }
  }

  lemma SameLast(x: nat, d: nat, y: nat, e: nat)
    requires d < 10 && e < 10 && x * 10 + d == y * 10 + e
    ensures x == y && d == e
  {
  }

  /** A signed number is printed as its digits, after a minus sign if it is negative. */
  lemma SignedDecReads(n: int)
    ensures n >= 0 ==> AllDigits(SignedDec(n)) && Value(SignedDec(n)) == n
    ensures n < 0 ==> SignedDec(n)[0] == '-' && AllDigits(SignedDec(n)[1..]) && Value(SignedDec(n)[1..]) == -n
  {
    DecValue(if n < 0 then -n else n);
    if n < 0 {
      assert SignedDec(n)[1..] == Dec(-n);
    }
  }

  lemma SignedDecInjective(m: int, n: int)
    requires SignedDec(m) == SignedDec(n)
    ensures m == n
  {
    assert SignedDec(m)[0] == SignedDec(n)[0];
    if m < 0 && n < 0 {
      assert Dec(-m) == SignedDec(m)[1..] && Dec(-n) == SignedDec(n)[1..];
      DecValue(-m);
      DecValue(-n);
    } else if m >= 0 && n >= 0 {
      DecValue(m);
      DecValue(n);
    }
  }

  /** A generation written with its trailing newline is loaded back unchanged. */
  lemma GenerationTextRoundTrip(n: u64)
    ensures Trim(Dec(n) + "\n") == Dec(n)
    ensures ParseU64(Dec(n)) == Some(n)
  {
    var s := Dec(n);
    assert IsDigit(s[0]) && IsDigit(s[|s| - 1]);
    TrimFramed(s);
    DecValue(n);
  }

  // ---- Prefixes ----

  lemma SameAfterPrefix(p: string, x: string, y: string)
    requires p + x == p + y
    ensures x == y
  {
    assert x == (p + x)[|p|..] && y == (p + y)[|p|..];
  }
}
