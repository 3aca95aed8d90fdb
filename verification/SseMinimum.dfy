/**
 * The smallest stream a decoder can see through, and which limits the validation
 * refuses although such a stream would fit.
 */
module SseMinimum {
  import opened Prelude
  import opened Bytes
  import opened Utf8
  import opened UnicodeEscapes
  import opened SseGrammar
  import opened SseDecoder

  /** `{"object":"chat.completion.chunk"}` */
  function ChunkPayload(): (r: seq<byte>) {
    [123, 34, 111, 98, 106, 101, 99, 116, 34, 58, 34, 99, 104, 97, 116, 46, 99, 111, 109, 112, 108, 101,
     116, 105, 111, 110, 46, 99, 104, 117, 110, 107, 34, 125]
  }

  /** The bytes of a text of ASCII characters. */
  function AsciiBytes(text: string): (s: seq<byte>)
    requires forall i :: 0 <= i < |text| ==> text[i] as int < 128
  {
    seq(|text|, i requires 0 <= i < |text| => text[i] as int)
  }

  /** The literals of the stream format. */
  lemma LiteralsAreAscii()
    ensures DataField() == AsciiBytes("data") && [COLON] == AsciiBytes(":") && [SPACE] == AsciiBytes(" ")
    ensures [CR, LF] == AsciiBytes("\r\n")
    ensures DoneMarker() == AsciiBytes("[DONE]")
    ensures ChunkPayload() == AsciiBytes("{\"object\":\"chat.completion.chunk\"}")
  {
  }

  lemma {:induction false} NoEscapes(s: seq<byte>, inString: bool)
    requires BACKSLASH !in s
    ensures Scan(s, inString)
    decreases |s|
  {
    if s != [] {
      NoEscapes(s[1..], if s[0] == QUOTE then !inString else inString);
    }
  }

  lemma SmallestPayloads()
    ensures PayloadOk(ChunkPayload(), true) && PayloadOk(ChunkPayload(), false)
    ensures PayloadOk(DoneMarker(), true) && PayloadOk(DoneMarker(), false)
    ensures Ascii(ChunkPayload()) && Ascii(DoneMarker()) && BACKSLASH !in ChunkPayload()
      && ChunkPayload() != DoneMarker()
    ensures |ChunkPayload()| == 34 && |DoneMarker()| == 6
  {
    assert ChunkPayload()[0] == 123;
  }

  lemma AsciiIsUtf8(s: seq<byte>)
    requires Ascii(s)
    ensures ValidUtf8(s) && IsText(s)
  {
    AsciiPrefix(s, []);
    assert s + [] == s;
    ValidUtf8Exactly(s);
  }

  /** Limits that pass validation hold a stream of one minimal chunk and the terminal event. */
  lemma SmallestStreamFits(l: SSELimits, judge: Judge)
    requires ValidateSSELimits(l) && judge(ChunkPayload()).None?
    ensures var first, last := Wire(ChunkPayload(), true, false, false), Wire(DoneMarker(), true, false, false);
      && |first| == MINIMUM_CHUNK_EVENT && |last| == MINIMUM_DONE_EVENT
      && Decoded(l, judge, first + last, true, 0, 0) == [WireEvent(Chunk, first), WireEvent(Done, last)]
  {
    hide Scan, ValidUtf8, IsText, NextVerdict, PayloadOk, ChunkPayload, DoneMarker;
    SmallestPayloads();
    AsciiIsUtf8(ChunkPayload());
    AsciiIsUtf8(DoneMarker());
    NoEscapes(ChunkPayload(), false);
    var first, last := Wire(ChunkPayload(), true, false, false), Wire(DoneMarker(), true, false, false);
    WireIsAccepted(l, judge, ChunkPayload(), true, false, false, last, true, 0, 0, 0, Chunk);
    WireIsAccepted(l, judge, DoneMarker(), true, false, false, [], true, |first|, 1, 1, Done);
    assert last + [] == last;
    assert (first + last)[..|first|] == first && (first + last)[|first|..] == last && last[..|last|] == last;
    DecodedStep(l, judge, first + last, true, 0, 0);
    DecodedStep(l, judge, last, true, |first|, 1);
  }

  // ---------------------------------------------------------------------
  // Which limits can hold a stream
  // ---------------------------------------------------------------------

  /** The lengths of the smallest events without the optional space. */
  const LEAST_CHUNK_EVENT := 41
  const LEAST_DONE_EVENT := 13

  /** The smallest object of the expected type is accepted, and nothing shorter is. */
  ghost predicate JudgesChunks(judge: Judge) {
    judge(ChunkPayload()).None? && forall p :: judge(p).None? ==> |p| >= |ChunkPayload()|
  }

  /** The decoder can return a whole stream up to its terminal event. */
  ghost predicate Completes(l: SSELimits, judge: Judge, wire: seq<byte>, clean: bool) {
    EndsWithDone(Decoded(l, judge, wire, clean, 0, 0))
  }

  predicate EndsWithDone(es: seq<WireEvent>) {
    es != [] && es[|es| - 1].kind == Done
  }

  /** What an accepted event costs. */
  lemma EventCosts(l: SSELimits, judge: Judge, rest: seq<byte>, clean: bool, total: nat, n: nat)
    requires JudgesChunks(judge) && NextVerdict(l, judge, rest, clean, total, n, n).Accept?
    ensures var v := NextVerdict(l, judge, rest, clean, total, n, n);
      && v.length >= (if v.kind.Done? then LEAST_DONE_EVENT else LEAST_CHUNK_EVENT)
      && v.length <= l.maxEvent && total + v.length <= l.maxTotal
      && (v.kind.Done? ==> n > 0)
  {
    hide NextVerdict, ValidUtf8, IsText, Scan, PayloadOk, ChunkPayload, DoneMarker;
    SmallestPayloads();
    AcceptedIsStrict(l, judge, rest, clean, total, n, n);
    var v := NextVerdict(l, judge, rest, clean, total, n, n);
    var space: bool, crlf: bool, crlf2: bool :|
      PayloadOk(v.payload, space) && rest[..v.length] == Wire(v.payload, space, crlf, crlf2);
    assert |rest[..v.length]| >= |v.payload| + 7;
  }

  /** A terminal event after at least one chunk needs its own bytes behind those already read. */
  lemma {:induction false} DoneNeeds(l: SSELimits, judge: Judge, rest: seq<byte>, clean: bool, total: nat, n: nat)
    requires JudgesChunks(judge) && EndsWithDone(Decoded(l, judge, rest, clean, total, n))
    ensures total + LEAST_DONE_EVENT <= l.maxTotal
    ensures n == 0 ==> l.maxEvent >= LEAST_CHUNK_EVENT && total + LEAST_CHUNK_EVENT + LEAST_DONE_EVENT <= l.maxTotal
    decreases |rest|
  {
    hide NextVerdict, JudgesChunks;
    var v := NextVerdict(l, judge, rest, clean, total, n, n);
    EventCosts(l, judge, rest, clean, total, n);
    DecodedStep(l, judge, rest, clean, total, n);
    if v.kind.Chunk? {
      var more := Decoded(l, judge, rest[v.length..], clean, total + v.length, n + 1);
      assert more != [];
      DoneNeeds(l, judge, rest[v.length..], clean, total + v.length, n + 1);
    }
  }

  /** The stream of one chunk and the terminal event, without the optional spaces. */
  function LeastStream(): (r: seq<byte>) {
    Wire(ChunkPayload(), false, false, false) + Wire(DoneMarker(), false, false, false)
  }

  lemma LeastStreamCompletes(l: SSELimits, judge: Judge)
    requires judge(ChunkPayload()).None? && l.maxEvents >= 2
    requires l.maxEvent >= LEAST_CHUNK_EVENT && l.maxTotal >= LEAST_CHUNK_EVENT + LEAST_DONE_EVENT
    ensures Completes(l, judge, LeastStream(), true)
  {
    hide Scan, ValidUtf8, IsText, NextVerdict, PayloadOk, ChunkPayload, DoneMarker;
    SmallestPayloads();
    AsciiIsUtf8(ChunkPayload());
    AsciiIsUtf8(DoneMarker());
    NoEscapes(ChunkPayload(), false);
    var first, last := Wire(ChunkPayload(), false, false, false), Wire(DoneMarker(), false, false, false);
    assert |first| == LEAST_CHUNK_EVENT && |last| == LEAST_DONE_EVENT;
    WireIsAccepted(l, judge, ChunkPayload(), false, false, false, last, true, 0, 0, 0, Chunk);
    WireIsAccepted(l, judge, DoneMarker(), false, false, false, [], true, |first|, 1, 1, Done);
    assert last + [] == last;
    assert (first + last)[..|first|] == first && (first + last)[|first|..] == last;
    DecodedStep(l, judge, first + last, true, 0, 0);
    DecodedStep(l, judge, last, true, |first|, 1);
  }

  /**
   * Some stream completes under given limits exactly when one event may have 41 bytes
   * and the whole 54, whatever else the limits are.
   */
  lemma StreamFitsExactly(l: SSELimits, judge: Judge)
    requires JudgesChunks(judge) && l.maxEvents >= 2
    ensures (exists wire :: Completes(l, judge, wire, true))
            <==> l.maxEvent >= LEAST_CHUNK_EVENT && l.maxTotal >= LEAST_CHUNK_EVENT + LEAST_DONE_EVENT
  {
    hide Decoded;
    if wire :| Completes(l, judge, wire, true) {
      DoneNeeds(l, judge, wire, true, 0, 0);
    }
    if l.maxEvent >= LEAST_CHUNK_EVENT && l.maxTotal >= LEAST_CHUNK_EVENT + LEAST_DONE_EVENT {
      LeastStreamCompletes(l, judge);
    }
  }

  /** Every other condition of the validation. */
  predicate InOrder(l: SSELimits) {
    && 0 < l.maxTotal <= 1_073_741_824
    && 0 < l.maxEvent <= 16_777_216
    && l.maxEvent <= l.maxTotal
    && 2 <= l.maxEvents <= 1_048_576
  }

  /**
   * Validation accepts exactly the limits in order that hold the chunk and the
   * terminal event written with their spaces, each alone and both together.
   */
  lemma ValidatedExactly(l: SSELimits)
    ensures var first, last := Wire(ChunkPayload(), true, false, false), Wire(DoneMarker(), true, false, false);
      ValidateSSELimits(l) <==>
        InOrder(l) && |first| <= l.maxEvent && |last| <= l.maxEvent && |first| + |last| <= l.maxTotal
  {
    hide ChunkPayload, DoneMarker;
    SmallestPayloads();
  }

  /**
   * Limits in order are refused although a stream fits them exactly when an event may
   * have 41 bytes, or the stream 54 or 55; all other refusals are right, and no limits
   * are accepted that hold no stream.
   */
  lemma WronglyRefusedExactly(l: SSELimits, judge: Judge)
    requires JudgesChunks(judge) && InOrder(l)
    ensures !ValidateSSELimits(l) && (exists wire :: Completes(l, judge, wire, true))
            <==> l.maxEvent >= 41 && l.maxTotal >= 54 && (l.maxEvent == 41 || l.maxTotal <= 55)
    ensures ValidateSSELimits(l) ==> exists wire :: Completes(l, judge, wire, true)
  {
    hide Completes, JudgesChunks;
    StreamFitsExactly(l, judge);
  }

  /** Limits of 54 bytes in all and 41 an event are refused, and the least stream completes under them. */
  lemma MinimumIsNotTheSmallestEvent(judge: Judge)
    requires judge(ChunkPayload()).None?
    ensures var l := SSELimits(54, 41, 2);
      InOrder(l) && !ValidateSSELimits(l) && |LeastStream()| == 54 && Completes(l, judge, LeastStream(), true)
  {
    hide Decoded, ChunkPayload, DoneMarker;
    SmallestPayloads();
    LeastStreamCompletes(SSELimits(54, 41, 2), judge);
  }
}
