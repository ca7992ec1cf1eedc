/**
 The helper socket's framing: a four-byte big-endian length, then that many bytes, at most one mebibyte.
 */
module Frames {
  import opened Text

  newtype byte = x: int | 0 <= x < 256

  datatype FrameError = HelperProtocol | HelperUnavailable

  const MAX_BODY_BYTES: nat := 1024 * 1024

  // ---- The wire form ----

  function BigEndian(n: nat): (b: seq<byte>)
    requires n < 0x1_0000_0000
    ensures |b| == 4
  {
    [(n / 0x100_0000) as byte, (n / 0x1_0000 % 0x100) as byte, (n / 0x100 % 0x100) as byte, (n % 0x100) as byte]
  }

  function FromBigEndian(b: seq<byte>): nat
    requires |b| == 4
  {
    b[0] as int * 0x100_0000 + b[1] as int * 0x1_0000 + b[2] as int * 0x100 + b[3] as int
  }

  lemma BigEndianRoundTrip(n: nat)
    requires n < 0x1_0000_0000
    ensures FromBigEndian(BigEndian(n)) == n
  {
    var q := n / 0x100;
    var r := q / 0x100;
    assert n / 0x1_0000 == r && n / 0x100_0000 == r / 0x100;
    assert n == q * 0x100 + n % 0x100 && q == r * 0x100 + q % 0x100 && r == r / 0x100 * 0x100 + r % 0x100;
  }

  lemma BigEndianUnique(b: seq<byte>)
    requires |b| == 4
    ensures FromBigEndian(b) < 0x1_0000_0000
    ensures BigEndian(FromBigEndian(b)) == b
  {
    var n := FromBigEndian(b);
    var q := b[0] as int * 0x1_0000 + b[1] as int * 0x100 + b[2] as int;
    var r := b[0] as int * 0x100 + b[1] as int;
    assert n == q * 0x100 + b[3] as int && n / 0x100 == q && n % 0x100 == b[3] as int;
    assert q == r * 0x100 + b[2] as int && q / 0x100 == r && q % 0x100 == b[2] as int;
    assert n / 0x1_0000 == r && n / 0x100_0000 == b[0] as int;
  }

  function Frame(body: seq<byte>): seq<byte>
    requires |body| <= MAX_BODY_BYTES
  {
    BigEndian(|body|) + body
  }

  /** What reading one frame from `s` gives: the body and what is left, or the error. */
  function ReadSpec(s: seq<byte>): Result<(seq<byte>, seq<byte>), FrameError> {
    if |s| < 4 then Err(HelperUnavailable)
    else
      var len := FromBigEndian(s[..4]);
      if len > MAX_BODY_BYTES then Err(HelperProtocol)
      else if |s| - 4 < len then Err(HelperUnavailable)
      else Ok((s[4..4 + len], s[4 + len..]))
  }

  /** A frame is read from `s` exactly when `s` starts with a written one. */
  lemma ReadIffWritten(s: seq<byte>, body: seq<byte>, rest: seq<byte>)
    ensures ReadSpec(s) == Ok((body, rest)) <==> |body| <= MAX_BODY_BYTES && s == Frame(body) + rest
  {
    if |body| <= MAX_BODY_BYTES && s == Frame(body) + rest {
      BigEndianRoundTrip(|body|);
      assert s[..4] == BigEndian(|body|);
      assert s[4..4 + |body|] == body && s[4 + |body|..] == rest;
    }
    if ReadSpec(s) == Ok((body, rest)) {
      BigEndianUnique(s[..4]);
      assert s == s[..4] + s[4..4 + |body|] + s[4 + |body|..];
    }
  }

  /** A frame cut off anywhere is an error, never a body. */
  lemma CutFrameFails(body: seq<byte>, k: nat)
    requires |body| <= MAX_BODY_BYTES && k < |Frame(body)|
    ensures ReadSpec(Frame(body)[..k]) == Err(HelperUnavailable)
  {
    if k >= 4 {
      BigEndianRoundTrip(|body|);
      assert Frame(body)[..k][..4] == BigEndian(|body|);
    }
  }

  /** A frame is the length of the body, most significant byte first, and then the body. */
  lemma FrameLayout(body: seq<byte>)
    requires |body| <= 1_048_576
    ensures var f := Frame(body);
            && |f| == 4 + |body| && f[4..] == body
            && |body| == f[0] as int * 16_777_216 + f[1] as int * 65_536 + f[2] as int * 256 + f[3] as int
  {
    BigEndianRoundTrip(|body|);
    assert Frame(body)[..4] == BigEndian(|body|);
  }

  /** A stream that cannot be read is cut off in its length or body, or announces more than a mebibyte. */
  lemma ReadFailsIff(s: seq<byte>)
    ensures var cut := |s| < 4;
            var len := if cut then 0
                       else s[0] as int * 16_777_216 + s[1] as int * 65_536 + s[2] as int * 256 + s[3] as int;
            && (ReadSpec(s) == Err(HelperProtocol) <==> len > 1_048_576)
            && (ReadSpec(s) == Err(HelperUnavailable) <==> cut || (len <= 1_048_576 && |s| < 4 + len))
  {
  }

  // ---- Many frames ----

  predicate AllFit(bodies: seq<seq<byte>>) {
    forall i :: 0 <= i < |bodies| ==> |bodies[i]| <= MAX_BODY_BYTES
  }

  function Concatenated(bodies: seq<seq<byte>>): seq<byte>
    requires AllFit(bodies)
  {
    if bodies == [] then [] else Frame(bodies[0]) + Concatenated(bodies[1..])
  }

  function ReadMany(s: seq<byte>, n: nat): Result<(seq<seq<byte>>, seq<byte>), FrameError> {
    if n == 0 then Ok(([], s))
    else
      match ReadSpec(s)
      case Err(e) => Err(e)
      case Ok(first) =>
        match ReadMany(first.1, n - 1)
        case Err(e) => Err(e)
        case Ok(more) => Ok(([first.0] + more.0, more.1))
  }

  /** Reading as many frames as were written gives the bodies in order and leaves what follows untouched. */
  lemma {:induction false} ReadBackAll(bodies: seq<seq<byte>>, rest: seq<byte>)
    requires AllFit(bodies)
    ensures ReadMany(Concatenated(bodies) + rest, |bodies|) == Ok((bodies, rest))
  {
    if bodies == [] {
      assert Concatenated(bodies) + rest == rest;
    } else {
      var after := Concatenated(bodies[1..]) + rest;
      assert Concatenated(bodies) + rest == Frame(bodies[0]) + after;
      ReadIffWritten(Frame(bodies[0]) + after, bodies[0], after);
      ReadBackAll(bodies[1..], rest);
      assert bodies == [bodies[0]] + bodies[1..];
    }
  }

  // ---- The stream operations ----

  /** A byte stream: what has been written to it, or is left to read. */
  class Stream {
    var bytes: seq<byte>

    constructor (bytes: seq<byte>)
      ensures this.bytes == bytes
    {
      this.bytes := bytes;
    }

    /** `read_exact`: all or an error; a failed read uses up what was there. */
    method ReadExact(n: nat) returns (r: Option<seq<byte>>)
      modifies this
      ensures |old(bytes)| >= n ==> r == Some(old(bytes)[..n]) && bytes == old(bytes)[n..]
      ensures |old(bytes)| < n ==> r == None && bytes == []
    {
      if |bytes| < n {
        bytes := [];
        return None;
      }
      r := Some(bytes[..n]);
      bytes := bytes[n..];
    }

    /** `write_frame`: an oversized body is refused before anything is written. */
    method WriteFrame(body: seq<byte>) returns (r: Result<(), FrameError>)
      modifies this
      ensures |body| <= 1_048_576 ==> r == Ok(()) && bytes == old(bytes) + Frame(body)
      ensures |body| > 1_048_576 ==> r == Err(HelperProtocol) && bytes == old(bytes)
    {
      if |body| > MAX_BODY_BYTES {
        return Err(HelperProtocol);
      }
      bytes := bytes + BigEndian(|body|);
      bytes := bytes + body;
      return Ok(());
    }

    /** `read_frame`: the length is checked before the body is read. */
    method ReadFrame() returns (r: Result<seq<byte>, FrameError>)
      modifies this
      ensures match ReadSpec(old(bytes))
              case Ok(p) => r == Ok(p.0) && bytes == p.1
              case Err(e) => r == Err(e)
    {
      var header := ReadExact(4);
      if header.None? {
        return Err(HelperUnavailable);
      }
      var len := FromBigEndian(header.value);
      if len > MAX_BODY_BYTES {
        return Err(HelperProtocol);
      }
      assert bytes == old(bytes)[4..];
      var body := ReadExact(len);
      if body.None? {
        return Err(HelperUnavailable);
      }
      assert body.value == old(bytes)[4..4 + len] && bytes == old(bytes)[4 + len..];
      return Ok(body.value);
    }
  }

  // ---- Token comparison ----

  lemma NoDifference(diff: bv8, x: bv8, y: bv8)
    ensures diff | (x ^ y) == 0 <==> diff == 0 && x == y
  {
  }

  /** `constant_time_eq`, whose loop `fingerprints_equal` repeats: the or of differences is zero iff there is none. */
  method ConstantTimeEq(a: seq<bv8>, b: seq<bv8>) returns (equal: bool)
    ensures equal <==> a == b
  {
    if |a| != |b| {
      return false;
    }
    var diff: bv8 := 0;
    for i := 0 to |a|
      invariant diff == 0 <==> a[..i] == b[..i]
    {
      NoDifference(diff, a[i], b[i]);
      diff := diff | (a[i] ^ b[i]);
      assert a[..i + 1] == a[..i] + [a[i]] && b[..i + 1] == b[..i] + [b[i]];
    }
    assert a[..|a|] == a && b[..|b|] == b;
    return diff == 0;
  }
}
