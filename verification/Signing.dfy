/**
 The canonical string of a signed request: seven lines, the last unterminated, and exactly which
 requests it determines.
 */
module Signing {
  import opened Text

  const SIGNING_DOMAIN := "mayfly-agent-auth-v1"

  /** `i64`. */
  type Timestamp = n: int | -0x8000_0000_0000_0000 <= n <= 0x7FFF_FFFF_FFFF_FFFF

  datatype SignedRequest = SignedRequest(
    machineId: string, timestamp: Timestamp, nonce: string, verb: string, path: string, bodyHash: string)

  function Line(line: string, rest: string): string {
    line + "\n" + rest
  }

  function CanonicalString(r: SignedRequest): string {
    Line(SIGNING_DOMAIN, Line(r.machineId, Line(SignedDec(r.timestamp),
      Line(r.nonce, Line(r.verb, Line(r.path, r.bodyHash))))))
  }

  /** The five fields that are followed by a newline contain none; the timestamp never does. */
  predicate FieldsOnOneLine(r: SignedRequest) {
    NewlineFree(r.machineId) && NewlineFree(r.nonce) && NewlineFree(r.verb) && NewlineFree(r.path)
  }

  lemma TimestampOnOneLine(n: int)
    ensures NewlineFree(SignedDec(n))
  {
    var d := Dec(if n < 0 then -n else n);
    assert AllDigits(d);
    if n < 0 {
      forall i | 0 <= i < |SignedDec(n)| ensures SignedDec(n)[i] != '\n' {
        if i > 0 {
          assert SignedDec(n)[i] == d[i - 1];
        }
      }
    }
  }

  lemma TailInjective(r: SignedRequest, s: SignedRequest)
    requires NewlineFree(r.nonce) && NewlineFree(r.verb) && NewlineFree(r.path)
    requires NewlineFree(s.nonce) && NewlineFree(s.verb) && NewlineFree(s.path)
    requires Line(r.nonce, Line(r.verb, Line(r.path, r.bodyHash)))
        == Line(s.nonce, Line(s.verb, Line(s.path, s.bodyHash)))
    ensures r.nonce == s.nonce && r.verb == s.verb && r.path == s.path && r.bodyHash == s.bodyHash
  {
    SplitAtNewline(r.nonce, Line(r.verb, Line(r.path, r.bodyHash)), s.nonce, Line(s.verb, Line(s.path, s.bodyHash)));
    SplitAtNewline(r.verb, Line(r.path, r.bodyHash), s.verb, Line(s.path, s.bodyHash));
    SplitAtNewline(r.path, r.bodyHash, s.path, s.bodyHash);
  }

  lemma HeadInjective(a: string, b: string, t: int, u: int, x: string, y: string)
    requires NewlineFree(a) && NewlineFree(b)
    requires Line(SIGNING_DOMAIN, Line(a, Line(SignedDec(t), x)))
        == Line(SIGNING_DOMAIN, Line(b, Line(SignedDec(u), y)))
    ensures a == b && t == u && x == y
  {
    SameAfterPrefix(SIGNING_DOMAIN + "\n", Line(a, Line(SignedDec(t), x)), Line(b, Line(SignedDec(u), y)));
    SplitAtNewline(a, Line(SignedDec(t), x), b, Line(SignedDec(u), y));
    TimestampOnOneLine(t);
    TimestampOnOneLine(u);
    SplitAtNewline(SignedDec(t), x, SignedDec(u), y);
    SignedDecInjective(t, u);
  }

  /** The pieces of a text between its newlines. */
  function Split(s: string): (r: seq<string>)
    ensures r != []
  {
    var n := LineLength(s);
    if n == |s| then [s] else [s[..n]] + Split(s[n + 1..])
  }

  lemma SplitLine(line: string, rest: string)
    requires NewlineFree(line)
    ensures Split(Line(line, rest)) == [line] + Split(rest)
  {
    LineLengthOfLine(line, rest);
    assert Line(line, rest)[..|line|] == line && Line(line, rest)[|line| + 1..] == rest;
  }

  lemma SevenOf(a: string, b: string, c: string, d: string, e: string, f: string, g: string)
    ensures [a] + ([b] + ([c] + ([d] + ([e] + ([f] + [g]))))) == [a, b, c, d, e, f, g]
  {
  }

  lemma SplitTail(r: SignedRequest)
    requires TailOnOneLine(r)
    ensures Split(Line(r.nonce, Line(r.verb, Line(r.path, r.bodyHash))))
         == [r.nonce] + ([r.verb] + ([r.path] + [r.bodyHash]))
  {
    SplitLine(r.nonce, Line(r.verb, Line(r.path, r.bodyHash)));
    SplitLine(r.verb, Line(r.path, r.bodyHash));
    SplitLine(r.path, r.bodyHash);
  }

  lemma SplitHead(id: string, stamp: string, tail: string)
    requires NewlineFree(id) && NewlineFree(stamp)
    ensures Split(Line(SIGNING_DOMAIN, Line(id, Line(stamp, tail))))
         == ["mayfly-agent-auth-v1"] + ([id] + ([stamp] + Split(tail)))
  {
    SplitLine(SIGNING_DOMAIN, Line(id, Line(stamp, tail)));
    SplitLine(id, Line(stamp, tail));
    SplitLine(stamp, tail);
  }

  /** The string is seven lines: the domain, then the fields in this order, each as it is, the timestamp in decimal. */
  lemma SevenLines(r: SignedRequest)
    requires NewlineFree(r.machineId) && TailOnOneLine(r)
    ensures Split(CanonicalString(r)) ==
            ["mayfly-agent-auth-v1", r.machineId, SignedDec(r.timestamp), r.nonce, r.verb, r.path, r.bodyHash]
  {
    TimestampOnOneLine(r.timestamp);
    SplitTail(r);
    SplitHead(r.machineId, SignedDec(r.timestamp), Line(r.nonce, Line(r.verb, Line(r.path, r.bodyHash))));
    SevenOf("mayfly-agent-auth-v1", r.machineId, SignedDec(r.timestamp), r.nonce, r.verb, r.path, r.bodyHash);
  }

  /** One canonical string, one request: for fields on one line, every timestamp and every length. */
  lemma CanonicalStringInjective(r: SignedRequest, s: SignedRequest)
    requires FieldsOnOneLine(r) && FieldsOnOneLine(s)
    requires CanonicalString(r) == CanonicalString(s)
    ensures r == s
  {
    HeadInjective(r.machineId, s.machineId, r.timestamp, s.timestamp,
                  Line(r.nonce, Line(r.verb, Line(r.path, r.bodyHash))),
                  Line(s.nonce, Line(s.verb, Line(s.path, s.bodyHash))));
    TailInjective(r, s);
  }

  // ---- Exactly when the string determines the request ----

  /** No other request has this request's canonical string. */
  ghost predicate Unique(r: SignedRequest) {
    forall s :: CanonicalString(s) == CanonicalString(r) ==> s == r
  }

  /** The nonce and what follows it contain no newline. */
  predicate TailOnOneLine(r: SignedRequest) {
    NewlineFree(r.nonce) && NewlineFree(r.verb) && NewlineFree(r.path) && NewlineFree(r.bodyHash)
  }

  /** A line of `id` other than its first could be a timestamp. */
  ghost predicate HidesTimestamp(id: string) {
    exists first: string, t: Timestamp, rest: string :: id + "\n" == Line(first, Line(SignedDec(t), rest))
  }

  lemma ShiftLine(a: string, b: string, rest: string)
    ensures Line(a + "\n" + b, rest) == Line(a, Line(b, rest))
  {
    assert a + "\n" + b + "\n" + rest == a + "\n" + (b + "\n" + rest);
  }

  /** The text before and after a newline. */
  lemma CutAtNewline(s: string) returns (a: string, b: string)
    requires !NewlineFree(s)
    ensures s == a + "\n" + b && a != s
  {
    var i :| 0 <= i < |s| && s[i] == '\n';
    a, b := s[..i], s[i + 1..];
    assert s == s[..i] + [s[i]] + s[i + 1..];
  }

  /** A newline in the nonce or later can be read as the end of a field. */
  lemma TailCollides(r: SignedRequest) returns (s: SignedRequest)
    requires !TailOnOneLine(r)
    ensures CanonicalString(s) == CanonicalString(r) && s != r
  {
    if !NewlineFree(r.nonce) {
      var a, b := CutAtNewline(r.nonce);
      s := r.(nonce := a, verb := b, path := r.verb + "\n" + r.path);
      ShiftLine(a, b, Line(r.verb, Line(r.path, r.bodyHash)));
      ShiftLine(r.verb, r.path, r.bodyHash);
    } else if !NewlineFree(r.verb) {
      var a, b := CutAtNewline(r.verb);
      s := r.(nonce := r.nonce + "\n" + a, verb := b);
      ShiftLine(a, b, Line(r.path, r.bodyHash));
      ShiftLine(r.nonce, a, Line(b, Line(r.path, r.bodyHash)));
      assert |s.nonce| > |r.nonce|;
    } else if !NewlineFree(r.path) {
      var a, b := CutAtNewline(r.path);
      s := r.(verb := r.verb + "\n" + a, path := b);
      ShiftLine(a, b, r.bodyHash);
      ShiftLine(r.verb, a, Line(b, r.bodyHash));
      assert |s.verb| > |r.verb|;
    } else {
      var a, b := CutAtNewline(r.bodyHash);
      s := r.(path := r.path + "\n" + a, bodyHash := b);
      ShiftLine(r.path, a, b);
      assert |s.path| > |r.path|;
    }
  }

  /** A timestamp hidden in the machine id can be read as the request's. */
  lemma HiddenTimestampCollides(r: SignedRequest, first: string, t: Timestamp, rest: string) returns (s: SignedRequest)
    requires r.machineId + "\n" == Line(first, Line(SignedDec(t), rest))
    ensures CanonicalString(s) == CanonicalString(r) && s != r
  {
    var stamp := SignedDec(r.timestamp);
    var tail := Line(r.nonce, Line(r.verb, Line(r.path, r.bodyHash)));
    s := SignedRequest(first, t, rest + stamp, r.nonce, r.verb, r.path + "\n" + r.bodyHash);
    ShiftLine(r.path, r.bodyHash, "");
    Regroup(r.machineId, first, SignedDec(t), rest, stamp, tail);
    assert |r.machineId| + 1 == |Line(first, Line(SignedDec(t), rest))|;
  }

  lemma Regroup(id: string, first: string, t: string, rest: string, stamp: string, tail: string)
    requires id + "\n" == Line(first, Line(t, rest))
    ensures Line(id, Line(stamp, tail)) == Line(first, Line(t, Line(rest + stamp, tail)))
  {
    calc {
      Line(id, Line(stamp, tail));
      (id + "\n") + (stamp + "\n" + tail);
      (first + "\n" + (t + "\n" + rest)) + (stamp + "\n" + tail);
      first + "\n" + (t + "\n" + ((rest + stamp) + "\n" + tail));
    }
  }

  // ---- Counting lines ----

  function Newlines(s: string): nat {
    if s == [] then 0 else (if s[0] == '\n' then 1 else 0) + Newlines(s[1..])
  }

  lemma {:induction false} NewlinesAppend(a: string, b: string)
    ensures Newlines(a + b) == Newlines(a) + Newlines(b)
  {
    if a == [] {
      assert a + b == b;
    } else {
      assert (a + b)[1..] == a[1..] + b;
      NewlinesAppend(a[1..], b);
    }
  }

  lemma NewlinesOfLine(a: string, rest: string)
    ensures Newlines(Line(a, rest)) == Newlines(a) + 1 + Newlines(rest)
  {
    NewlinesAppend(a + "\n", rest);
    NewlinesAppend(a, "\n");
    assert Newlines("\n") == 1 by {
      assert "\n"[1..] == [];
    }
  }

  lemma {:induction false} NoNewlines(s: string)
    ensures Newlines(s) == 0 <==> NewlineFree(s)
  {
    if s != [] {
      NoNewlines(s[1..]);
      if NewlineFree(s[1..]) && s[0] != '\n' {
        forall i | 0 <= i < |s| ensures s[i] != '\n' {
          assert i > 0 ==> s[i] == s[1..][i - 1];
        }
      }
      if NewlineFree(s) {
        assert forall i :: 0 <= i < |s[1..]| ==> s[1..][i] == s[i + 1];
      }
    }
  }

  function TailOf(r: SignedRequest): string {
    Line(r.nonce, Line(r.verb, Line(r.path, r.bodyHash)))
  }

  lemma TailLines(r: SignedRequest)
    ensures Newlines(TailOf(r)) >= 3
    ensures Newlines(TailOf(r)) == 3 <==> TailOnOneLine(r)
  {
    NewlinesOfLine(r.nonce, Line(r.verb, Line(r.path, r.bodyHash)));
    NewlinesOfLine(r.verb, Line(r.path, r.bodyHash));
    NewlinesOfLine(r.path, r.bodyHash);
    NoNewlines(r.nonce);
    NoNewlines(r.verb);
    NoNewlines(r.path);
    NoNewlines(r.bodyHash);
  }

  // ---- Reading the string from the front ----

  /** Of two readings of a text, the shorter first field's next line ends within the longer first field. */
  lemma LineEndsWithin(s: string, a: string, t: string, x: string, b: string, y: string)
    requires NewlineFree(t) && |a| < |b| && s == a + "\n" + t + "\n" + x && s == b + "\n" + y
    ensures |a| + 1 + |t| <= |b|
  {
    assert s[|b|] == '\n';
    assert forall i :: |a| < i < |a| + 1 + |t| ==> s[i] == t[i - |a| - 1];
  }

  lemma CutTwice(s: string, head: string, x: string, b: string, y: string) returns (rest: string)
    requires s == head + x && s == b + "\n" + y && |head| <= |b| + 1
    ensures b + "\n" == head + rest && x == rest + y
  {
    var m := |b| + 1;
    rest := s[|head|..m];
    assert s[..m] == b + "\n" && s[m..] == y;
    assert s[..|head|] == head && s[|head|..] == x;
    assert s[..m] == s[..|head|] + rest;
    assert s[|head|..] == rest + s[m..];
  }

  /** Of two readings with different first fields, the longer one contains the other's next line. */
  lemma ShorterReading(a: string, t: string, x: string, b: string, y: string) returns (rest: string)
    requires NewlineFree(t) && |a| < |b| && Line(a, Line(t, x)) == Line(b, y)
    ensures b + "\n" == Line(a, Line(t, rest)) && x == rest + y
  {
    var s, head := Line(b, y), a + "\n" + t + "\n";
    assert Line(a, Line(t, x)) == head + x;
    LineEndsWithin(s, a, t, x, b, y);
    rest := CutTwice(s, head, x, b, y);
    assert head + rest == Line(a, Line(t, rest));
  }

  /** Two requests with one string and different machine ids: the shorter id hides its timestamp in the longer. */
  lemma DifferentIds(r: SignedRequest, s: SignedRequest)
    requires CanonicalString(s) == CanonicalString(r) && |s.machineId| < |r.machineId|
    ensures HidesTimestamp(r.machineId) && !TailOnOneLine(s)
  {
    TimestampOnOneLine(s.timestamp);
    SameAfterPrefix(SIGNING_DOMAIN + "\n", Line(s.machineId, Line(SignedDec(s.timestamp), TailOf(s))),
                    Line(r.machineId, Line(SignedDec(r.timestamp), TailOf(r))));
    var rest := ShorterReading(s.machineId, SignedDec(s.timestamp), TailOf(s),
                               r.machineId, Line(SignedDec(r.timestamp), TailOf(r)));
    NewlinesAppend(rest, Line(SignedDec(r.timestamp), TailOf(r)));
    NewlinesOfLine(SignedDec(r.timestamp), TailOf(r));
    TailLines(r);
    TailLines(s);
  }

  lemma SameLengthIds(r: SignedRequest, s: SignedRequest)
    requires CanonicalString(s) == CanonicalString(r) && |s.machineId| == |r.machineId| && TailOnOneLine(r)
    ensures s == r
  {
    var x, y := Line(SignedDec(r.timestamp), TailOf(r)), Line(SignedDec(s.timestamp), TailOf(s));
    SameAfterPrefix(SIGNING_DOMAIN + "\n", Line(r.machineId, x), Line(s.machineId, y));
    var n := |r.machineId|;
    assert r.machineId == Line(r.machineId, x)[..n] && s.machineId == Line(s.machineId, y)[..n];
    assert x == Line(r.machineId, x)[n + 1..] && y == Line(s.machineId, y)[n + 1..];
    TimestampOnOneLine(r.timestamp);
    TimestampOnOneLine(s.timestamp);
    SplitAtNewline(SignedDec(r.timestamp), TailOf(r), SignedDec(s.timestamp), TailOf(s));
    SignedDecInjective(r.timestamp, s.timestamp);
    TailLines(r);
    TailLines(s);
    TailInjective(r, s);
  }

  /**
   A request is the only one with its canonical string if and only if nothing after the timestamp contains a
   newline and no line of the machine id but its first could be a timestamp.
   */
  lemma UniqueIff(r: SignedRequest)
    ensures Unique(r) <==> TailOnOneLine(r) && !HidesTimestamp(r.machineId)
  {
    if !TailOnOneLine(r) {
      var s := TailCollides(r);
    } else if HidesTimestamp(r.machineId) {
      var first: string, t: Timestamp, rest: string :| r.machineId + "\n" == Line(first, Line(SignedDec(t), rest));
      var s := HiddenTimestampCollides(r, first, t, rest);
    } else {
      forall s | CanonicalString(s) == CanonicalString(r) ensures s == r {
        if |s.machineId| < |r.machineId| {
          DifferentIds(r, s);
        } else if |s.machineId| > |r.machineId| {
          DifferentIds(s, r);
        } else {
          SameLengthIds(r, s);
        }
      }
    }
  }

  lemma HiddenMeansNewline(id: string, first: string, t: Timestamp, rest: string)
    requires id + "\n" == Line(first, Line(SignedDec(t), rest))
    ensures !NewlineFree(id)
  {
    NewlinesOfLine(first, Line(SignedDec(t), rest));
    NewlinesOfLine(SignedDec(t), rest);
    NewlinesOfLine(id, "");
    assert Line(id, "") == id + "\n";
    NoNewlines(id);
  }

  /** So for a machine id on one line, as every validated one is, the rest being newline-free is the whole condition. */
  lemma UniqueOnOneLine(r: SignedRequest)
    requires NewlineFree(r.machineId)
    ensures Unique(r) <==> TailOnOneLine(r)
  {
    UniqueIff(r);
    forall first: string, t: Timestamp, rest: string
      ensures r.machineId + "\n" != Line(first, Line(SignedDec(t), rest))
    {
      if r.machineId + "\n" == Line(first, Line(SignedDec(t), rest)) {
        HiddenMeansNewline(r.machineId, first, t, rest);
      }
    }
  }
}
