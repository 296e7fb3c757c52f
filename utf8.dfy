/**
 * UTF-8 as RFC 3629 defines it: the encoder Python's `str.encode("utf-8")`
 * uses, the strict decoder of `bytes.decode("utf-8")`, and the decoder with
 * `errors="replace"`, which replaces each maximal ill-formed subpart by
 * U+FFFD.
 */
module Utf8 {
  import opened Wrappers

  type byte = b: int | 0 <= b < 256

  predicate IsAscii(c: char) {
    c as int < 0x80
  }

  predicate AllAscii(s: string) {
    forall i :: 0 <= i < |s| ==> IsAscii(s[i])
  }

  predicate IsCont(b: byte) {
    0x80 <= b < 0xC0
  }

  /** The bytes of one scalar value: one to four bytes, by its magnitude. */
  function EncodeChar(c: char): (bs: seq<byte>)
    ensures 1 <= |bs| <= 4
    ensures |bs| == 1 <==> IsAscii(c)
    ensures IsAscii(c) ==> bs[0] == c as int
  {
    var n := c as int;
    if n < 0x80 then [n]
    else if n < 0x800 then [0xC0 + n / 64, 0x80 + n % 64]
    else if n < 0x10000 then [0xE0 + n / 4096, 0x80 + (n / 64) % 64, 0x80 + n % 64]
    else [0xF0 + n / 262144, 0x80 + (n / 4096) % 64, 0x80 + (n / 64) % 64, 0x80 + n % 64]
  }

  /** `s.encode("utf-8")`. */
  function Encode(s: string): (bs: seq<byte>)
    ensures |bs| >= |s|
    ensures AllAscii(s) ==> |bs| == |s| && forall i :: 0 <= i < |s| ==> bs[i] == s[i] as int
    decreases |s|
  {
    if s == [] then [] else EncodeChar(s[0]) + Encode(s[1..])
  }

  /** Encoding distributes over concatenation. */
  lemma {:induction false} EncodeAppend(a: string, b: string)
    ensures Encode(a + b) == Encode(a) + Encode(b)
    decreases |a|
  {
    if a == [] {
      assert a + b == b;
    } else {
      assert (a + b)[0] == a[0];
      assert (a + b)[1..] == a[1..] + b;
      EncodeAppend(a[1..], b);
    }
  }

  /** The range RFC 3629 allows for the byte after lead byte `b0`. */
  function SecondLo(b0: byte): byte {
    if b0 == 0xE0 then 0xA0 else if b0 == 0xF0 then 0x90 else 0x80
  }

  function SecondHi(b0: byte): byte {
    if b0 == 0xED then 0x9F else if b0 == 0xF4 then 0x8F else 0xBF
  }

  /** Length of the well-formed sequence a lead byte announces, 0 if it is no lead byte. */
  function SeqLen(b0: byte): nat {
    if b0 < 0x80 then 1
    else if 0xC2 <= b0 <= 0xDF then 2
    else if 0xE0 <= b0 <= 0xEF then 3
    else if 0xF0 <= b0 <= 0xF4 then 4
    else 0
  }

  /** `bs[1]` is the right second byte after the lead `bs[0]`. */
  predicate SecondOk(bs: seq<byte>)
    requires |bs| >= 2
  {
    SecondLo(bs[0]) <= bs[1] <= SecondHi(bs[0])
  }

  /** The strict decoding of the first scalar value of `bs`, with its length. */
  function DecodeOne(bs: seq<byte>): (r: Option<(char, nat)>)
    ensures r.Some? ==> 1 <= r.value.1 <= |bs| && r.value.1 == SeqLen(bs[0])
  {
    if bs == [] then None
    else
      var b0: int := bs[0];
      var n := SeqLen(bs[0]);
      if n == 0 || |bs| < n then None
      else if n == 1 then Some((b0 as char, 1))
      else if !SecondOk(bs) then None
      else
        var b1: int := bs[1];
        if n == 2 then
          Some((((b0 - 0xC0) * 64 + (b1 - 0x80)) as char, 2))
        else if !IsCont(bs[2]) then None
        else
          var b2: int := bs[2];
          if n == 3 then
            Some((((b0 - 0xE0) * 4096 + (b1 - 0x80) * 64 + (b2 - 0x80)) as char, 3))
          else if !IsCont(bs[3]) then None
          else
            var b3: int := bs[3];
            Some((((b0 - 0xF0) * 262144 + (b1 - 0x80) * 4096 + (b2 - 0x80) * 64 + (b3 - 0x80)) as char, 4))
  }

  /** `bs.decode("utf-8")`: `None` when `bs` is not well-formed UTF-8. */
  function Decode(bs: seq<byte>): Option<string>
    decreases |bs|
  {
    if bs == [] then Some([])
    else match DecodeOne(bs)
      case None => None
      case Some((c, k)) =>
        match Decode(bs[k..])
        case None => None
        case Some(rest) => Some([c] + rest)
  }

  /**
   * Length of the maximal ill-formed subpart at the head of `bs`: the longest
   * prefix that could still begin a well-formed sequence, and at least one byte.
   */
  function MaxSubpart(bs: seq<byte>): (k: nat)
    requires bs != []
    ensures 1 <= k <= |bs| && k <= 3
  {
    var n := SeqLen(bs[0]);
    if n < 3 || |bs| < 2 || !SecondOk(bs) then 1
    else if |bs| < 3 || !IsCont(bs[2]) || n == 3 then 2
    else 3
  }

  const Replacement: char := '\U{FFFD}'

  /** `bs.decode("utf-8", errors="replace")`. */
  function DecodeReplace(bs: seq<byte>): string
    decreases |bs|
  {
    if bs == [] then []
    else match DecodeOne(bs)
      case Some((c, k)) => [c] + DecodeReplace(bs[k..])
      case None => [Replacement] + DecodeReplace(bs[MaxSubpart(bs)..])
  }

  /** The strict decoder reads back each encoded scalar value, whatever follows it. */
  lemma DecodeOneEncodeChar(c: char, rest: seq<byte>)
    ensures DecodeOne(EncodeChar(c) + rest) == Some((c, |EncodeChar(c)|))
  {
    var n := c as int;
    if n < 0x80 {
    } else if n < 0x800 {
      DecodeTwo(c, rest);
    } else if n < 0x10000 {
      DecodeThree(c, rest);
    } else {
      DecodeFour(c, rest);
    }
  }

  lemma DecodeTwo(c: char, rest: seq<byte>)
    requires 0x80 <= c as int < 0x800
    ensures DecodeOne(EncodeChar(c) + rest) == Some((c, 2))
  {
    var n := c as int;
    var bs := EncodeChar(c) + rest;
    var b0: int := bs[0];
    var b1: int := bs[1];
    assert b0 == 0xC0 + n / 64 && b1 == 0x80 + n % 64;
    assert (b0 - 0xC0) * 64 + (b1 - 0x80) == n;
  }

  lemma DecodeThree(c: char, rest: seq<byte>)
    requires 0x800 <= c as int < 0x10000
    ensures DecodeOne(EncodeChar(c) + rest) == Some((c, 3))
  {
    var n := c as int;
    var q := n / 64;
    var bs := EncodeChar(c) + rest;
    var b0: int := bs[0];
    var b1: int := bs[1];
    var b2: int := bs[2];
    assert n / 4096 == q / 64;
    assert (n / 64) % 64 == q % 64;
    assert b0 == 0xE0 + q / 64 && b1 == 0x80 + q % 64 && b2 == 0x80 + n % 64;
    assert q == (q / 64) * 64 + q % 64;
    assert n == q * 64 + n % 64;
    assert (b0 - 0xE0) * 4096 + (b1 - 0x80) * 64 + (b2 - 0x80) == n;
  }

  lemma DecodeFour(c: char, rest: seq<byte>)
    requires 0x10000 <= c as int
    ensures DecodeOne(EncodeChar(c) + rest) == Some((c, 4))
  {
    var n := c as int;
    var q := n / 64;
    var q2 := q / 64;
    var bs := EncodeChar(c) + rest;
    var b0: int := bs[0];
    var b1: int := bs[1];
    var b2: int := bs[2];
    var b3: int := bs[3];
    assert n / 4096 == q2;
    assert n / 262144 == q2 / 64;
    assert b0 == 0xF0 + q2 / 64 && b1 == 0x80 + q2 % 64;
    assert b2 == 0x80 + q % 64 && b3 == 0x80 + n % 64;
    assert q2 == (q2 / 64) * 64 + q2 % 64;
    assert q == q2 * 64 + q % 64;
    assert n == q * 64 + n % 64;
    assert (b0 - 0xF0) * 262144 + (b1 - 0x80) * 4096 + (b2 - 0x80) * 64 + (b3 - 0x80) == n;
  }

  /** Strict decoding inverts encoding. */
  lemma {:induction false} DecodeEncode(s: string)
    ensures Decode(Encode(s)) == Some(s)
    decreases |s|
  {
    if s != [] {
      var e := EncodeChar(s[0]);
      var rest := Encode(s[1..]);
      assert Encode(s) == e + rest;
      DecodeOneEncodeChar(s[0], rest);
      assert (e + rest)[|e|..] == rest;
      DecodeEncode(s[1..]);
      assert s == [s[0]] + s[1..];
    }
  }

  /** On well-formed input the replacing decoder replaces nothing. */
  lemma {:induction false} DecodeReplaceEncode(s: string)
    ensures DecodeReplace(Encode(s)) == s
    decreases |s|
  {
    if s != [] {
      var e := EncodeChar(s[0]);
      var rest := Encode(s[1..]);
      assert Encode(s) == e + rest;
      DecodeOneEncodeChar(s[0], rest);
      assert (e + rest)[|e|..] == rest;
      DecodeReplaceEncode(s[1..]);
      assert s == [s[0]] + s[1..];
    }
  }

  /** ASCII text is its own encoding, byte for byte, so it decodes back. */
  lemma DecodeAscii(s: string)
    requires AllAscii(s)
    ensures Encode(s) == seq(|s|, i requires 0 <= i < |s| => s[i] as int)
    ensures Decode(Encode(s)) == Some(s)
  {
    DecodeEncode(s);
  }

  /** Ill-formed input never decodes strictly: a lone continuation byte. */
  lemma LoneContinuationRejected(rest: seq<byte>)
    ensures Decode([0x80] + rest) == None
    ensures DecodeReplace([0x80] + rest) == [Replacement] + DecodeReplace(rest)
  {
    assert ([0x80] + rest)[1..] == rest;
  }
}
