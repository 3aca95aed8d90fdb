/**
 * What valid UTF-8 is: the byte-range tables of the validity check accept exactly the
 * encodings of sequences of Unicode scalar values (sections 3 and 4 of RFC 3629).
 */
module Utf8 {
  import opened Prelude
  import opened Bytes

  /** A code point that is no surrogate. */
  predicate Scalar(c: nat) {
    c <= 0x10FFFF && !(0xD800 <= c <= 0xDFFF)
  }

  /** The code point's bits in groups of six behind a lead byte. */
  function Encode(c: nat): (s: seq<byte>)
    requires Scalar(c)
    ensures 1 <= |s| <= 4
  {
    if c < 0x80 then [c]
    else if c < 0x800 then [0xC0 + c / 64, 0x80 + c % 64]
    else if c < 0x1_0000 then [0xE0 + c / 4096, 0x80 + c / 64 % 64, 0x80 + c % 64]
    else [0xF0 + c / 262144, 0x80 + c / 4096 % 64, 0x80 + c / 64 % 64, 0x80 + c % 64]
  }

  predicate AllScalars(cs: seq<nat>) {
    forall i :: 0 <= i < |cs| ==> Scalar(cs[i])
  }

  function EncodeAll(cs: seq<nat>): (s: seq<byte>)
    requires AllScalars(cs)
  {
    if cs == [] then [] else Encode(cs[0]) + EncodeAll(cs[1..])
  }

  /** The bytes are the encoding of some text. */
  ghost predicate IsText(s: seq<byte>) {
    exists cs :: AllScalars(cs) && EncodeAll(cs) == s
  }

  /** Six bits a digit. */
  lemma Digits(a: nat, b: nat)
    requires b < 64
    ensures (a * 64 + b) / 64 == a && (a * 64 + b) % 64 == b
  {
  }

  /** The table accepts an encoded scalar with its own length, whatever follows. */
  lemma EncodedRune(c: nat, rest: seq<byte>)
    requires Scalar(c)
    ensures RuneLength(Encode(c) + rest) == |Encode(c)|
  {
    var s := Encode(c);
    assert forall i :: 0 <= i < |s| ==> (s + rest)[i] == s[i];
  }

  /** What the table accepts encodes a scalar. */
  lemma AcceptedRune(s: seq<byte>) returns (c: nat)
    requires s != [] && RuneLength(s) > 0
    ensures RuneLength(s) <= |s| && Scalar(c) && Encode(c) == s[..RuneLength(s)]
  {
    var n := RuneLength(s);
    if n == 1 {
      c := s[0];
    } else if n == 2 {
      c := TwoBytes(s[0], s[1]);
    } else if n == 3 {
      c := ThreeBytes(s[0], s[1], s[2]);
    } else {
      c := FourBytes(s[0], s[1], s[2], s[3]);
    }
  }

  lemma TwoBytes(a: byte, b: byte) returns (c: nat)
    requires 0xC2 <= a <= 0xDF && Continuation(b)
    ensures Scalar(c) && Encode(c) == [a, b]
  {
    c := (a - 0xC0) * 64 + (b - 0x80);
    Digits(a - 0xC0, b - 0x80);
  }

  lemma ThreeBytes(a: byte, b: byte, d: byte) returns (c: nat)
    requires 0xE0 <= a <= 0xEF && SecondOk(a, b) && Continuation(d)
    ensures Scalar(c) && Encode(c) == [a, b, d]
  {
    var high := (a - 0xE0) * 64 + (b - 0x80);
    c := high * 64 + (d - 0x80);
    Digits(a - 0xE0, b - 0x80);
    Digits(high, d - 0x80);
    assert c / 4096 == high / 64;
  }

  lemma FourBytes(a: byte, b: byte, d: byte, e: byte) returns (c: nat)
    requires 0xF0 <= a <= 0xF4 && SecondOk(a, b) && Continuation(d) && Continuation(e)
    ensures Scalar(c) && Encode(c) == [a, b, d, e]
  {
    var top := (a - 0xF0) * 64 + (b - 0x80);
    var high := top * 64 + (d - 0x80);
    c := high * 64 + (e - 0x80);
    Digits(a - 0xF0, b - 0x80);
    Digits(top, d - 0x80);
    Digits(high, e - 0x80);
    assert c / 4096 == high / 64 && c / 262144 == top / 64;
  }

  lemma {:induction false} EncodedIsValid(cs: seq<nat>)
    requires AllScalars(cs)
    ensures ValidUtf8(EncodeAll(cs))
  {
    hide Encode, RuneLength;
    if cs != [] {
      EncodedRune(cs[0], EncodeAll(cs[1..]));
      EncodedIsValid(cs[1..]);
      var s := EncodeAll(cs);
      assert s[|Encode(cs[0])|..] == EncodeAll(cs[1..]);
    }
  }

  lemma {:induction false} ValidIsEncoded(s: seq<byte>) returns (cs: seq<nat>)
    requires ValidUtf8(s)
    ensures AllScalars(cs) && EncodeAll(cs) == s
    decreases |s|
  {
    hide Encode, RuneLength;
    if s == [] {
      cs := [];
    } else {
      var n := RuneLength(s);
      var c := AcceptedRune(s);
      var rest := ValidIsEncoded(s[n..]);
      cs := [c] + rest;
      assert cs[1..] == rest;
      assert s == s[..n] + s[n..];
    }
  }

  /** The validity check accepts exactly the encodings of sequences of scalar values. */
  lemma ValidUtf8Exactly(s: seq<byte>)
    ensures ValidUtf8(s) <==> IsText(s)
  {
    if ValidUtf8(s) {
      var cs := ValidIsEncoded(s);
    }
    if IsText(s) {
      var cs :| AllScalars(cs) && EncodeAll(cs) == s;
      EncodedIsValid(cs);
    }
  }
}
