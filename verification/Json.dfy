/**
 The JSON string escaping of the two canonical encodings, and an independent decoder for it that
 follows section 7 of RFC 8259.
 */
module Json {
  import opened Text

  // ---- Escaping, as the agent emits it ----

  function HexDigit(d: nat): (c: char)
    requires d < 16
    ensures HexValue(c) == Some(d)
  {
    if d < 10 then Digit(d) else 'a' + (d - 10) as char
  }

  /** The escape of one character, as `json_escape_into` writes it. */
  function EscapeChar(c: char): (e: string)
    ensures e != []
    ensures forall i :: 0 <= i < |e| ==> e[i] >= ' '
  {
    match c
    case '"' => "\\\""
    case '\\' => "\\\\"
    case '\n' => "\\n"
    case '\r' => "\\r"
    case '\t' => "\\t"
    case '\U{8}' => "\\b"
    case '\U{C}' => "\\f"
    case _ =>
      if c < ' ' then "\\u00" + [HexDigit(c as int / 16), HexDigit(c as int % 16)]
      else [c]
  }

  function Escape(s: string): string {
    if s == [] then [] else EscapeChar(s[0]) + Escape(s[1..])
  }

  lemma {:induction false} EscapeAppend(s: string, c: char)
    ensures Escape(s + [c]) == Escape(s) + EscapeChar(c)
  {
    if s == [] {
      assert (s + [c])[1..] == [];
    } else {
      assert (s + [c])[1..] == s[1..] + [c];
      EscapeAppend(s[1..], c);
      assert EscapeChar(s[0]) + (Escape(s[1..]) + EscapeChar(c)) == EscapeChar(s[0]) + Escape(s[1..]) + EscapeChar(c);
    }
  }

  lemma EscapeStep(s: string, i: nat, out: string)
    requires i < |s|
    ensures out + Escape(s[..i + 1]) == out + Escape(s[..i]) + EscapeChar(s[i])
  {
    assert s[..i + 1] == s[..i] + [s[i]];
    EscapeAppend(s[..i], s[i]);
    Assoc(out, Escape(s[..i]), EscapeChar(s[i]));
  }

  /** The buffer-appending loop of `json_escape_into`. */
  method JsonEscapeInto(s: string, out: string) returns (res: string)
    ensures res == out + Escape(s)
  {
    res := out;
    for i := 0 to |s|
      invariant res == out + Escape(s[..i])
    {
      EscapeStep(s, i, out);
      res := res + EscapeChar(s[i]);
    }
    assert s[..|s|] == s;
  }

  // ---- Decoding, from the standard ----

  function HexValue(c: char): (r: Option<nat>)
    ensures r.Some? ==> r.value < 16
  {
    if '0' <= c <= '9' then Some((c - '0') as int)
    else if 'a' <= c <= 'f' then Some(10 + (c - 'a') as int)
    else if 'A' <= c <= 'F' then Some(10 + (c - 'A') as int)
    else None
  }

  /** The code unit of a four-digit hexadecimal group at the start of `s`. */
  function Hex4(s: string): (r: Option<nat>)
    ensures r.Some? ==> |s| >= 4 && r.value < 0x1_0000
  {
    if |s| < 4 || HexValue(s[0]).None? || HexValue(s[1]).None? || HexValue(s[2]).None? || HexValue(s[3]).None? then
      None
    else
      Some(HexValue(s[0]).value * 0x1000 + HexValue(s[1]).value * 0x100
           + HexValue(s[2]).value * 0x10 + HexValue(s[3]).value)
  }

  /** A `\uXXXX` escape (or surrogate pair) after its `\u`: the character and the characters read. */
  function UnicodeEscape(s: string): (r: Option<(char, nat)>)
    ensures r.Some? ==> 0 < r.value.1 <= |s|
  {
    var u :- Hex4(s);
    if u < 0xD800 || u >= 0xE000 then Some((u as char, 4))
    else if u < 0xDC00 && |s| >= 6 && s[4..6] == "\\u" then
      var v :- Hex4(s[6..]);
      if 0xDC00 <= v < 0xE000 then
        Some(((0x1_0000 + (u - 0xD800) * 0x400 + (v - 0xDC00)) as char, 10))
      else None
    else None
  }

  /** One character of a string body: the character and the characters read; no quote, no raw control. */
  function DecodeChar(s: string): (r: Option<(char, nat)>)
    ensures r.Some? ==> 0 < r.value.1 <= |s|
  {
    if s == [] || s[0] == '"' || s[0] < ' ' then None
    else if s[0] != '\\' then Some((s[0], 1))
    else if |s| < 2 then None
    else match s[1]
      case '"' => Some(('"', 2))
      case '\\' => Some(('\\', 2))
      case '/' => Some(('/', 2))
      case 'b' => Some(('\U{8}', 2))
      case 'f' => Some(('\U{C}', 2))
      case 'n' => Some(('\n', 2))
      case 'r' => Some(('\r', 2))
      case 't' => Some(('\t', 2))
      case 'u' =>
        var (c, n) :- UnicodeEscape(s[2..]);
        Some((c, n + 2))
      case _ => None
  }

  /** A string body up to and including its closing quote: the string and the text after the quote. */
  function DecodeString(s: string): (r: Option<(string, string)>)
    ensures r.Some? ==> |r.value.1| < |s|
  {
    if s != [] && s[0] == '"' then Some(([], s[1..]))
    else
      var (c, n) :- DecodeChar(s);
      var (x, rest) :- DecodeString(s[n..]);
      Some(([c] + x, rest))
  }

  lemma DecodeEscapedChar(c: char, rest: string)
    ensures DecodeChar(EscapeChar(c) + rest) == Some((c, |EscapeChar(c)|))
    ensures EscapeChar(c)[0] != '"'
  {
    var s := EscapeChar(c) + rest;
    if c < ' ' && |EscapeChar(c)| == 6 {
      var u := s[2..];
      assert u[0] == '0' && u[1] == '0' && u[2] == HexDigit(c as int / 16) && u[3] == HexDigit(c as int % 16);
      assert Hex4(u) == Some(c as int);
    }
  }

  lemma DecodeOneMore(c: char, more: string, x: string, rest: string)
    requires DecodeString(more) == Some((x, rest))
    ensures DecodeString(EscapeChar(c) + more) == Some(([c] + x, rest))
  {
    var e := EscapeChar(c);
    DecodeEscapedChar(c, more);
    assert (e + more)[|e|..] == more && (e + more)[0] == e[0];
  }

  lemma EscapeFirst(x: string, tail: string)
    requires x != []
    ensures Escape(x) + tail == EscapeChar(x[0]) + (Escape(x[1..]) + tail)
    ensures [x[0]] + x[1..] == x
  {
    Assoc(EscapeChar(x[0]), Escape(x[1..]), tail);
  }

  /** The decoder inverts the escaping, whatever follows the closing quote. */
  lemma {:induction false} DecodeEscaped(x: string, rest: string)
    ensures DecodeString(Escape(x) + ("\"" + rest)) == Some((x, rest))
  {
    var tail := "\"" + rest;
    if x == [] {
      assert Escape(x) + tail == tail;
    } else {
      EscapeFirst(x, tail);
      DecodeEscaped(x[1..], rest);
      DecodeOneMore(x[0], Escape(x[1..]) + tail, x[1..], rest);
    }
  }

  /** No control character is emitted raw. */
  lemma {:induction false} EscapeHasNoControl(x: string)
    ensures forall i :: 0 <= i < |Escape(x)| ==> Escape(x)[i] >= ' '
  {
    if x != [] {
      EscapeHasNoControl(x[1..]);
    }
  }

  /** Reading `e` gives just the character `c`. */
  predicate Spells(e: string, c: char) {
    e != [] && e[0] != '"' && DecodeChar(e) == Some((c, |e|))
  }

  predicate NoUpperCase(e: string) {
    forall i :: 0 <= i < |e| ==> !('A' <= e[i] <= 'Z')
  }

  lemma SpellsItself(c: char)
    ensures Spells(EscapeChar(c), c)
  {
    DecodeEscapedChar(c, "");
    assert EscapeChar(c) + "" == EscapeChar(c);
  }

  lemma HexAgree(x: char, y: char)
    requires HexValue(x) == HexValue(y) && HexValue(x).Some? && !('A' <= x <= 'Z') && !('A' <= y <= 'Z')
    ensures x == y
  {
  }

  lemma HexGroupsAgree(s: string, t: string)
    requires |s| == 4 && |t| == 4 && Hex4(s).Some? && Hex4(s) == Hex4(t) && NoUpperCase(s) && NoUpperCase(t)
    ensures s == t
  {
    SameDigits(HexValue(s[0]).value, HexValue(s[1]).value, HexValue(s[2]).value, HexValue(s[3]).value,
               HexValue(t[0]).value, HexValue(t[1]).value, HexValue(t[2]).value, HexValue(t[3]).value);
    forall i | 0 <= i < 4 ensures s[i] == t[i] {
      HexAgree(s[i], t[i]);
    }
  }

  lemma SameDigits(a: nat, b: nat, c: nat, d: nat, a': nat, b': nat, c': nat, d': nat)
    requires a < 16 && b < 16 && c < 16 && d < 16 && a' < 16 && b' < 16 && c' < 16 && d' < 16
    requires a * 0x1000 + b * 0x100 + c * 0x10 + d == a' * 0x1000 + b' * 0x100 + c' * 0x10 + d'
    ensures a == a' && b == b' && c == c' && d == d'
  {
  }

  /** Only a `\u` escape takes more than two characters. */
  lemma LongMeansUnicode(e: string, c: char)
    requires Spells(e, c) && |e| > 2
    ensures |e| >= 6 && e[0] == '\\' && e[1] == 'u'
    ensures |e| == 6 ==> Hex4(e[2..]) == Some(c as int)
  {
  }

  /** The escape of a character is the shortest text that reads as it, and the only one of that length in lower case. */
  lemma EscapeIsShortest(c: char, e: string)
    requires Spells(e, c)
    ensures |EscapeChar(c)| <= |e|
    ensures |EscapeChar(c)| == |e| && (|e| == 1 || NoUpperCase(e)) ==> EscapeChar(c) == e
  {
    SpellsItself(c);
    if |EscapeChar(c)| > 2 {
      LongMeansUnicode(EscapeChar(c), c);
      if |e| > 2 {
        LongMeansUnicode(e, c);
        if |e| == 6 && NoUpperCase(e) {
          LowerCaseEscape(c);
          HexGroupsAgree(EscapeChar(c)[2..], e[2..]);
          assert e == e[..2] + e[2..] && EscapeChar(c) == EscapeChar(c)[..2] + EscapeChar(c)[2..];
        }
      }
    }
  }

  lemma LowerCaseEscape(c: char)
    requires |EscapeChar(c)| == 6
    ensures NoUpperCase(EscapeChar(c))
  {
  }

  // ---- Numbers and fixed text ----

  function DigitSpan(s: string): (n: nat)
    ensures n <= |s| && AllDigits(s[..n])
  {
    if s == [] || !IsDigit(s[0]) then 0
    else
      var n := 1 + DigitSpan(s[1..]);
      assert forall i :: 1 <= i < n ==> s[..n][i] == s[1..][..n - 1][i - 1];
      n
  }

  function ReadNumber(s: string): Option<(nat, string)> {
    var n := DigitSpan(s);
    if n == 0 then None else Some((Value(s[..n]), s[n..]))
  }

  function Expect(lit: string, s: string): Option<string> {
    if lit <= s then Some(s[|lit|..]) else None
  }

  lemma {:induction false} DigitSpanOf(d: string, rest: string)
    requires AllDigits(d)
    requires rest == [] || !IsDigit(rest[0])
    ensures DigitSpan(d + rest) == |d|
  {
    if d == [] {
      assert d + rest == rest;
    } else {
      assert (d + rest)[1..] == d[1..] + rest;
      DigitSpanOf(d[1..], rest);
    }
  }

  lemma ReadPrinted(n: nat, rest: string)
    requires rest == [] || !IsDigit(rest[0])
    ensures ReadNumber(Dec(n) + rest) == Some((n, rest))
  {
    DigitSpanOf(Dec(n), rest);
    assert (Dec(n) + rest)[..|Dec(n)|] == Dec(n) && (Dec(n) + rest)[|Dec(n)|..] == rest;
    DecValue(n);
  }

  lemma ExpectPrinted(lit: string, rest: string)
    ensures Expect(lit, lit + rest) == Some(rest)
  {
    assert (lit + rest)[|lit|..] == rest;
  }
}
