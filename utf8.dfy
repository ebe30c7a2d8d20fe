/** UTF-8 as defined in section 3 of RFC 3629: each Unicode scalar value becomes one to four
    octets. `String.getBytes(StandardCharsets.UTF_8)` is `Encode`; `Decode` is the validating
    inverse that the round-trip lemma pairs it with. Strings are sequences of scalar values
    (Dafny's `char`). */
module Utf8 {
  import opened Wrappers
  import opened Values

  /** Octets of the form 10xxxxxx. */
  predicate IsContinuation(b: Byte) {
    0x80 <= b < 0xC0
  }

  /** The octets of one scalar value, by the table of RFC 3629 section 3. */
  function EncodeScalar(c: char): (bs: seq<Byte>)
    ensures 1 <= |bs| <= 4
    ensures |bs| == 1 <==> (c as int) < 0x80
    ensures |bs| == 2 <==> 0x80 <= (c as int) < 0x800
    ensures |bs| == 3 <==> 0x800 <= (c as int) < 0x10000
    ensures |bs| == 4 <==> 0x10000 <= (c as int)
    ensures forall i :: 1 <= i < |bs| ==> IsContinuation(bs[i])
  {
    var v := c as int;
    if v < 0x80 then [v]
    else if v < 0x800 then [0xC0 + v / 0x40, 0x80 + v % 0x40]
    else if v < 0x10000 then [0xE0 + v / 0x1000, 0x80 + (v / 0x40) % 0x40, 0x80 + v % 0x40]
    else [0xF0 + v / 0x40000, 0x80 + (v / 0x1000) % 0x40, 0x80 + (v / 0x40) % 0x40, 0x80 + v % 0x40]
  }

  /** The encoding of a string: its scalar values' octets, one after the other. */
  function Encode(s: string): seq<Byte> {
    if s == [] then [] else EncodeScalar(s[0]) + Encode(s[1..])
  }

  /** Decodes the scalar value at the front of `bs`, with the number of octets it takes.
      Rejects truncated sequences, overlong forms, surrogates and values above U+10FFFF. */
  function DecodeFirst(bs: seq<Byte>): (r: Option<(char, nat)>)
    ensures r.Some? ==> 1 <= r.value.1 <= |bs|
  {
    if |bs| == 0 then None
    else if bs[0] < 0x80 then Some((bs[0] as char, 1))
    else if 0xC2 <= bs[0] < 0xE0 && |bs| >= 2 && IsContinuation(bs[1]) then
      var v: int := (bs[0] as int - 0xC0) * 0x40 + (bs[1] as int - 0x80);
      Some((v as char, 2))
    else if 0xE0 <= bs[0] < 0xF0 && |bs| >= 3 && IsContinuation(bs[1]) && IsContinuation(bs[2]) then
      var v: int := (bs[0] as int - 0xE0) * 0x1000 + (bs[1] as int - 0x80) * 0x40 + (bs[2] as int - 0x80);
      if v < 0x800 || 0xD800 <= v < 0xE000 then None else Some((v as char, 3))
    else if 0xF0 <= bs[0] < 0xF5 && |bs| >= 4
         && IsContinuation(bs[1]) && IsContinuation(bs[2]) && IsContinuation(bs[3]) then
      var v: int := (bs[0] as int - 0xF0) * 0x40000 + (bs[1] as int - 0x80) * 0x1000
        + (bs[2] as int - 0x80) * 0x40 + (bs[3] as int - 0x80);
      if v < 0x10000 || v >= 0x110000 then None else Some((v as char, 4))
    else None
  }

  /** Decodes a whole octet sequence; `None` when it is not well-formed UTF-8. */
  function Decode(bs: seq<Byte>): Option<string>
    decreases |bs|
  {
    if bs == [] then Some([])
    else match DecodeFirst(bs)
      case None => None
      case Some((c, n)) =>
        match Decode(bs[n..])
        case None => None
        case Some(rest) => Some([c] + rest)
  }

  lemma ThreeDigits(v: int)
    requires 0 <= v < 0x40000
    ensures v == (v / 0x1000) * 0x1000 + ((v / 0x40) % 0x40) * 0x40 + v % 0x40
  {
    var q := v / 0x40;
    assert v == q * 0x40 + v % 0x40;
    assert q == (q / 0x40) * 0x40 + q % 0x40;
    assert q / 0x40 == v / 0x1000;
  }

  lemma FourDigits(v: int)
    requires 0 <= v < 0x1000000
    ensures v == (v / 0x40000) * 0x40000 + ((v / 0x1000) % 0x40) * 0x1000 + ((v / 0x40) % 0x40) * 0x40 + v % 0x40
  {
    var q := v / 0x40;
    assert v == q * 0x40 + v % 0x40;
    ThreeDigits(q);
    assert q / 0x1000 == v / 0x40000;
    assert (q / 0x40) == v / 0x1000;
  }

  /** Decoding reads back the scalar value at the front, whatever follows it. */
  lemma DecodeFirstEncodeScalar(c: char, rest: seq<Byte>)
    ensures DecodeFirst(EncodeScalar(c) + rest) == Some((c, |EncodeScalar(c)|))
  {
    var v := c as int;
    var bs := EncodeScalar(c) + rest;
    if v < 0x80 {
    } else if v < 0x800 {
      assert v == (v / 0x40) * 0x40 + v % 0x40;
      assert bs[0] == 0xC0 + v / 0x40 && bs[1] == 0x80 + v % 0x40;
    } else if v < 0x10000 {
      ThreeDigits(v);
      assert bs[0] == 0xE0 + v / 0x1000 && bs[1] == 0x80 + (v / 0x40) % 0x40 && bs[2] == 0x80 + v % 0x40;
    } else {
      FourDigits(v);
      assert bs[0] == 0xF0 + v / 0x40000 && bs[1] == 0x80 + (v / 0x1000) % 0x40
        && bs[2] == 0x80 + (v / 0x40) % 0x40 && bs[3] == 0x80 + v % 0x40;
    }
  }

  /** Round trip: every string is recovered from its encoding. */
  lemma {:induction false} DecodeEncode(s: string)
    ensures Decode(Encode(s)) == Some(s)
  {
    if s != [] {
      var head := EncodeScalar(s[0]);
      var tail := Encode(s[1..]);
      DecodeFirstEncodeScalar(s[0], tail);
      assert (head + tail)[|head|..] == tail;
      DecodeEncode(s[1..]);
      assert [s[0]] + s[1..] == s;
    }
  }

  /** Distinct strings have distinct encodings. */
  lemma EncodeInjective(s: string, t: string)
    ensures Encode(s) == Encode(t) <==> s == t
  {
    DecodeEncode(s);
    DecodeEncode(t);
  }

  /** Each scalar value takes one to four octets. */
  lemma {:induction false} EncodeLength(s: string)
    ensures |s| <= |Encode(s)| <= 4 * |s|
  {
    if s != [] {
      EncodeLength(s[1..]);
    }
  }

  /** A string of ASCII characters encodes to as many octets, each equal to its character. */
  lemma {:induction false} AsciiEncodesToItself(s: string)
    requires forall i :: 0 <= i < |s| ==> (s[i] as int) < 0x80
    ensures |Encode(s)| == |s|
    ensures forall i :: 0 <= i < |s| ==> Encode(s)[i] == s[i] as int
  {
    if s != [] {
      AsciiEncodesToItself(s[1..]);
      assert Encode(s) == [s[0] as int] + Encode(s[1..]);
    }
  }
}
