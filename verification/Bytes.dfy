/** Wire bytes, UTF-8 validity and cancellation contexts. */
module Bytes {
  import opened Prelude

  type byte = x: int | 0 <= x < 256

  const LF: byte := 10
  const CR: byte := 13
  const SPACE: byte := 32
  const QUOTE: byte := 34
  const COLON: byte := 58
  const BACKSLASH: byte := 92

  /** A context is a flag that never goes back; reading it may find it raised. */
  class Context {
    var done: bool
    /** Whether it ended by its deadline; says nothing before it is done. */
    var late: bool
    /** How often it was looked at. */
    ghost var looks: nat

    constructor ()
    {
      done, late, looks := false, false, 0;
    }

    method Err() returns (canceled: bool)
      modifies this
      ensures canceled == done && (old(done) ==> done && late == old(late)) && looks == old(looks) + 1
    {
      looks := looks + 1;
      var raised: bool := *;
      if raised && !done {
        done, late := true, *;
      }
      canceled := done;
    }

    method DeadlineExceeded() returns (exceeded: bool)
      modifies this
      ensures exceeded == (done && late) && (old(done) ==> done && late == old(late))
    {
      var canceled := Err();
      exceeded := canceled && late;
    }
  }

  predicate Continuation(b: byte) { 0x80 <= b <= 0xBF }

  /** The range of the second byte after each lead byte of a multi-byte sequence. */
  predicate SecondOk(lead: byte, b: byte) {
    if lead == 0xE0 then 0xA0 <= b <= 0xBF
    else if lead == 0xED then 0x80 <= b <= 0x9F
    else if lead == 0xF0 then 0x90 <= b <= 0xBF
    else if lead == 0xF4 then 0x80 <= b <= 0x8F
    else Continuation(b)
  }

  /** The length of the well-formed sequence at the front, 0 when there is none. */
  function RuneLength(s: seq<byte>): (r: nat)
    requires s != []
  {
    var b := s[0];
    if b < 0x80 then 1
    else if 0xC2 <= b <= 0xDF then
      if |s| >= 2 && Continuation(s[1]) then 2 else 0
    else if 0xE0 <= b <= 0xEF then
      if |s| >= 3 && SecondOk(b, s[1]) && Continuation(s[2]) then 3 else 0
    else if 0xF0 <= b <= 0xF4 then
      if |s| >= 4 && SecondOk(b, s[1]) && Continuation(s[2]) && Continuation(s[3]) then 4 else 0
    else 0
  }

  predicate ValidUtf8(s: seq<byte>) {
    s == [] || (RuneLength(s) > 0 && ValidUtf8(s[RuneLength(s)..]))
  }

  predicate Ascii(s: seq<byte>) {
    forall i :: 0 <= i < |s| ==> s[i] < 0x80
  }

  lemma {:induction false} AsciiPrefix(a: seq<byte>, s: seq<byte>)
    requires Ascii(a)
    ensures ValidUtf8(a + s) == ValidUtf8(s)
  {
    if a == [] {
      assert a + s == s;
    } else {
      assert (a + s)[1..] == a[1..] + s;
      AsciiPrefix(a[1..], s);
    }
  }

  lemma {:induction false} AsciiSuffix(s: seq<byte>, a: seq<byte>)
    requires Ascii(a)
    ensures ValidUtf8(s + a) == ValidUtf8(s)
    decreases |s|
  {
    if s == [] {
      assert s + a == a + [];
      AsciiPrefix(a, []);
    } else {
      var n := RuneLength(s);
      SameRune(s, a);
      if n > 0 {
        assert (s + a)[n..] == s[n..] + a;
        AsciiSuffix(s[n..], a);
      }
    }
  }

  /** No sequence is completed by a byte below 0x80. */
  lemma SameRune(s: seq<byte>, a: seq<byte>)
    requires s != [] && Ascii(a)
    ensures RuneLength(s + a) == RuneLength(s) <= |s|
  {
    assert forall i :: 0 <= i < |s| ==> (s + a)[i] == s[i];
    assert forall i :: |s| <= i < |s + a| ==> (s + a)[i] == a[i - |s|] < 0x80;
  }
}
