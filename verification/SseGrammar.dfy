/**
 * The strict event-stream grammar and the decoder's verdict on the bytes that are
 * still to come. Nothing here knows how the bytes arrive in pieces.
 */
module SseGrammar {
  import opened Prelude
  import opened Bytes
  import opened Utf8
  import opened UnicodeEscapes

  /** `data` */
  function DataField(): (r: seq<byte>) { [100, 97, 116, 97] }

  /** `[DONE]` */
  function DoneMarker(): (r: seq<byte>) { [91, 68, 79, 78, 69, 93] }

  datatype SSEReason =
    | TotalBytesLimit
    | EventBytesLimit
    | EventCountLimit
    | BodyReadFailure
    | InvalidUTF8
    | InvalidLineEnding
    | EmptyEvent
    | UnsupportedField
    | MultipleFields
    | EmptyData
    | InvalidUnicodeEscape
    | MalformedJSON
    | TrailingJSON
    | DuplicateKey
    | NestingLimit
    | RootNotObject
    | MissingObject
    | WrongObjectType
    | UnsupportedObject
    | DoneBeforeChunk
    | TruncatedEvent
    | MissingDone
    | TrailingData

  // ---------------------------------------------------------------------
  // Limits
  // ---------------------------------------------------------------------

  const ABSOLUTE_MAX_TOTAL_BYTES := 0x4000_0000
  const ABSOLUTE_MAX_EVENT_BYTES := 0x100_0000
  const ABSOLUTE_MAX_EVENTS := 0x10_0000

  /** The lengths of the smallest chunk event and of the smallest terminal event. */
  const MINIMUM_CHUNK_EVENT := 42
  const MINIMUM_DONE_EVENT := 14

  datatype SSELimits = SSELimits(maxTotal: uint64, maxEvent: uint64, maxEvents: uint64)

  predicate ValidateSSELimits(l: SSELimits) {
    && 0 < l.maxTotal <= ABSOLUTE_MAX_TOTAL_BYTES
    && 0 < l.maxEvent <= ABSOLUTE_MAX_EVENT_BYTES
    && l.maxEvent <= l.maxTotal
    && 2 <= l.maxEvents <= ABSOLUTE_MAX_EVENTS
    && l.maxEvent >= MINIMUM_CHUNK_EVENT
    && l.maxTotal >= MINIMUM_CHUNK_EVENT + MINIMUM_DONE_EVENT
  }

  // ---------------------------------------------------------------------
  // Lines
  // ---------------------------------------------------------------------

  function IndexOf(s: seq<byte>, b: byte): (k: nat)
    ensures k <= |s| && b !in s[..k] && (k < |s| ==> s[k] == b)
  {
    if s == [] then 0
    else if s[0] == b then 0
    else
      var k := 1 + IndexOf(s[1..], b);
      assert s[..k] == [s[0]] + s[1..][..k - 1];
      k
  }

  /** A line without its LF and without one CR before it. */
  function Content(line: seq<byte>): (r: seq<byte>) {
    if line != [] && line[|line| - 1] == CR then line[..|line| - 1] else line
  }

  datatype Line =
    | Complete(length: nat, content: seq<byte>)
    | Broken(reason: SSEReason)
    | AtEnd
    | TooLong(total: bool, event: bool)

  /** The next line of the bytes to come, within what the limits leave. */
  function LineAt(l: SSELimits, rest: seq<byte>, clean: bool, total: nat, used: nat): (r: Line) {
    var k := IndexOf(rest, LF);
    var n := if k < |rest| then k + 1 else k;
    if total + n > l.maxTotal || used + n > l.maxEvent then TooLong(total + n > l.maxTotal, used + n > l.maxEvent)
    else if k < |rest| then Complete(n, Content(rest[..k]))
    else if !clean then Broken(BodyReadFailure)
    else if n == 0 then AtEnd
    else Broken(if CR in rest then InvalidLineEnding else TruncatedEvent)
  }

  /** The value of a data field, `None` for any other line. */
  function DataValue(line: seq<byte>): (r: Option<seq<byte>>) {
    var k := IndexOf(line, COLON);
    if k == |line| || line[..k] != DataField() then None
    else
      var value := line[k + 1..];
      Some(if value != [] && value[0] == SPACE then value[1..] else value)
  }

  // ---------------------------------------------------------------------
  // The verdict on the next event
  // ---------------------------------------------------------------------

  datatype Kind = Chunk | Done

  /** How a payload fares as a JSON document of the expected object type. */
  type Judge = seq<byte> -> Option<SSEReason>

  function ChunkReason(judge: Judge, payload: seq<byte>): (r: Option<SSEReason>) {
    if !ValidUtf8(payload) then Some(InvalidUTF8)
    else if !Scan(payload, false) then Some(InvalidUnicodeEscape)
    else judge(payload)
  }

  datatype Verdict =
    | Accept(kind: Kind, length: nat, payload: seq<byte>)
    | Reject(reason: SSEReason)
    | OverLimit(total: bool, event: bool)

  function LineVerdict(line: Line, atEnd: SSEReason): (r: Verdict)
    requires !line.Complete?
  {
    match line
    case Broken(reason) => Reject(reason)
    case AtEnd => Reject(atEnd)
    case TooLong(total, event) => OverLimit(total, event)
  }

  /** How the payload of a well-formed event is judged. */
  function PayloadVerdict(judge: Judge, payload: seq<byte>, length: nat, chunks: nat): (r: Verdict) {
    if payload == [] then Reject(EmptyData)
    else if payload == DoneMarker() then
      if chunks == 0 then Reject(DoneBeforeChunk) else Accept(Done, length, payload)
    else if ChunkReason(judge, payload).Some? then Reject(ChunkReason(judge, payload).value)
    else Accept(Chunk, length, payload)
  }

  /** The second line must be the empty delimiter. */
  function DelimiterVerdict(l: SSELimits, judge: Judge, rest: seq<byte>, clean: bool, total: nat, n: nat,
                            payload: seq<byte>, chunks: nat): (r: Verdict)
    requires n <= |rest|
  {
    var second := LineAt(l, rest[n..], clean, total + n, n);
    if !second.Complete? then LineVerdict(second, TruncatedEvent)
    else
      var length := n + second.length;
      if length > |rest| || !ValidUtf8(rest[..length]) then Reject(InvalidUTF8)
      else if CR in second.content then Reject(InvalidLineEnding)
      else if second.content != [] then Reject(MultipleFields)
      else PayloadVerdict(judge, payload, length, chunks)
  }

  /** The verdict on everything still to come, after `total` bytes, `events` events and `chunks` chunks. */
  function NextVerdict(l: SSELimits, judge: Judge, rest: seq<byte>, clean: bool, total: nat, events: nat,
                       chunks: nat): (r: Verdict) {
    if events >= l.maxEvents then Reject(EventCountLimit)
    else
      var first := LineAt(l, rest, clean, total, 0);
      if !first.Complete? then LineVerdict(first, MissingDone)
      else if first.length > |rest| || !ValidUtf8(rest[..first.length]) then Reject(InvalidUTF8)
      else if CR in first.content then Reject(InvalidLineEnding)
      else if first.content == [] then Reject(EmptyEvent)
      else
        var value := DataValue(first.content);
        if value.None? then Reject(UnsupportedField)
        else DelimiterVerdict(l, judge, rest, clean, total, first.length, value.value, chunks)
  }

  // ---------------------------------------------------------------------
  // The grammar, independently
  // ---------------------------------------------------------------------

  function Ending(crlf: bool): (r: seq<byte>) { if crlf then [CR, LF] else [LF] }

  /** One event as it stands on the wire. */
  function Wire(payload: seq<byte>, space: bool, crlf: bool, crlf2: bool): (r: seq<byte>) {
    DataField() + [COLON] + (if space then [SPACE] else []) + payload + Ending(crlf) + Ending(crlf2)
  }

  predicate PayloadOk(payload: seq<byte>, space: bool) {
    payload != [] && CR !in payload && LF !in payload && (payload[0] == SPACE ==> space)
  }

  /** `raw` is exactly one event with this payload. */
  predicate StrictEvent(raw: seq<byte>, payload: seq<byte>) {
    exists space: bool, crlf: bool, crlf2: bool :: PayloadOk(payload, space) && raw == Wire(payload, space, crlf, crlf2)
  }

  /** The limits, the encoding and the content are in order. */
  ghost predicate Admissible(l: SSELimits, judge: Judge, kind: Kind, length: nat, payload: seq<byte>, total: nat,
                             events: nat, chunks: nat) {
    && events < l.maxEvents && total + length <= l.maxTotal && length <= l.maxEvent
    && IsText(payload)
    && (kind.Done? <==> payload == DoneMarker())
    && (kind.Done? ==> chunks > 0)
    && (kind.Chunk? ==> Scan(payload, false) && judge(payload).None?)
  }

  lemma IndexIs(s: seq<byte>, b: byte, k: nat)
    requires k < |s| && s[k] == b && b !in s[..k]
    ensures IndexOf(s, b) == k
  {
    if IndexOf(s, b) != k {
      assert false;
    }
  }

  /** What an accepted verdict says about the two lines. */
  lemma AcceptedLines(l: SSELimits, judge: Judge, rest: seq<byte>, clean: bool, total: nat, events: nat, chunks: nat)
    requires NextVerdict(l, judge, rest, clean, total, events, chunks).Accept?
    ensures var v := NextVerdict(l, judge, rest, clean, total, events, chunks);
      var k := IndexOf(rest, LF);
      && k < |rest| && k + 1 < v.length <= |rest|
      && v.length == k + 1 + IndexOf(rest[k + 1..], LF) + 1
      && total + v.length <= l.maxTotal && v.length <= l.maxEvent && events < l.maxEvents
      && ValidUtf8(rest[..v.length])
      && CR !in Content(rest[..k]) && DataValue(Content(rest[..k])) == Some(v.payload)
      && Content(rest[k + 1..][..IndexOf(rest[k + 1..], LF)]) == []
      && PayloadVerdict(judge, v.payload, v.length, chunks) == v
  {
    hide ValidUtf8, IndexOf, Content, DataValue, PayloadVerdict, LineAt, DelimiterVerdict;
    PayloadVerdictKind(judge, rest, 0, chunks);
    var first := LineAt(l, rest, clean, total, 0);
    CompleteLine(l, rest, clean, total, 0);
    AcceptedDelimiter(l, judge, rest, clean, total, first.length, DataValue(first.content).value, chunks);
  }

  /** An accepted event is not empty and is all there. */
  lemma AcceptedLength(l: SSELimits, judge: Judge, rest: seq<byte>, clean: bool, total: nat, events: nat, chunks: nat)
    requires NextVerdict(l, judge, rest, clean, total, events, chunks).Accept?
    ensures 0 < NextVerdict(l, judge, rest, clean, total, events, chunks).length <= |rest|
  {
    hide NextVerdict, ValidUtf8, Content, DataValue, PayloadVerdict, IndexOf;
    AcceptedLines(l, judge, rest, clean, total, events, chunks);
  }

  lemma AcceptedDelimiter(l: SSELimits, judge: Judge, rest: seq<byte>, clean: bool, total: nat, n: nat,
                          payload: seq<byte>,
                          chunks: nat)
    requires n <= |rest| && DelimiterVerdict(l, judge, rest, clean, total, n, payload, chunks).Accept?
    ensures var v := DelimiterVerdict(l, judge, rest, clean, total, n, payload, chunks);
      && n < v.length <= |rest| && v.length == n + IndexOf(rest[n..], LF) + 1
      && total + v.length <= l.maxTotal && v.length <= l.maxEvent && ValidUtf8(rest[..v.length])
      && Content(rest[n..][..IndexOf(rest[n..], LF)]) == []
      && payload == v.payload && PayloadVerdict(judge, payload, v.length, chunks) == v
  {
    hide ValidUtf8, IndexOf, Content, PayloadVerdict, LineAt;
    var second := LineAt(l, rest[n..], clean, total + n, n);
    assert second.Complete?;
    CompleteLine(l, rest[n..], clean, total + n, n);
    PayloadVerdictKind(judge, payload, n + second.length, chunks);
  }

  lemma CompleteLine(l: SSELimits, rest: seq<byte>, clean: bool, total: nat, used: nat)
    requires LineAt(l, rest, clean, total, used).Complete?
    ensures var k := IndexOf(rest, LF);
      && k < |rest| && LineAt(l, rest, clean, total, used) == Complete(k + 1, Content(rest[..k]))
      && total + k + 1 <= l.maxTotal && used + k + 1 <= l.maxEvent
  {
    hide IndexOf, Content;
    assert IndexOf(rest, LF) <= |rest|;
  }

  lemma PayloadVerdictKind(judge: Judge, payload: seq<byte>, length: nat, chunks: nat)
    ensures var v := PayloadVerdict(judge, payload, length, chunks);
      v.Accept? ==> v.length == length && v.payload == payload && payload != []
                    && (v.kind.Done? <==> payload == DoneMarker()) && (v.kind.Done? ==> chunks > 0)
                    && (v.kind.Chunk? ==> ChunkReason(judge, payload).None?)
  {
    hide ChunkReason, DoneMarker;
  }

  /** An accepted verdict is one strict event at the front of the bytes. */
  lemma AcceptedIsStrict(l: SSELimits, judge: Judge, rest: seq<byte>, clean: bool, total: nat, events: nat, chunks: nat)
    requires NextVerdict(l, judge, rest, clean, total, events, chunks).Accept?
    ensures var v := NextVerdict(l, judge, rest, clean, total, events, chunks);
      && v.length <= |rest| && StrictEvent(rest[..v.length], v.payload)
      && Admissible(l, judge, v.kind, v.length, v.payload, total, events, chunks)
  {
    hide ValidUtf8, IsText, Scan, DataField, DoneMarker, NextVerdict, Content, DataValue, Wire, PayloadOk;
    var v := NextVerdict(l, judge, rest, clean, total, events, chunks);
    AcceptedLines(l, judge, rest, clean, total, events, chunks);
    PayloadVerdictKind(judge, v.payload, v.length, chunks);
    var k := IndexOf(rest, LF);
    var tail := rest[k + 1..];
    var j := IndexOf(tail, LF);
    TwoLines(rest[..k], tail[..j], v.payload);
    var space, crlf, crlf2 := SpaceBefore(Content(rest[..k]), v.payload), Content(rest[..k]) != rest[..k],
      tail[..j] != [];
    SplitTwice(rest, k, j);
    assert rest[..v.length] == Wire(v.payload, space, crlf, crlf2);
    PayloadEncoding(v.payload, space, crlf, crlf2);
    ValidUtf8Exactly(v.payload);
  }

  lemma SplitTwice(s: seq<byte>, k: nat, j: nat)
    requires k + 1 + j < |s| && s[k] == LF && s[k + 1..][j] == LF
    ensures s[..k + 1 + j + 1] == s[..k] + [LF] + s[k + 1..][..j] + [LF]
  {
    var t := s[k + 1..];
    assert s[..k + 1 + j + 1] == s[..k + 1] + t[..j + 1];
    assert s[..k + 1] == s[..k] + [s[k]];
    assert t[..j + 1] == t[..j] + [t[j]];
  }

  /** Whether a space was stripped before the payload. */
  predicate SpaceBefore(content: seq<byte>, payload: seq<byte>) {
    |content| > |DataField()| && content[|DataField()| + 1..] != payload
  }

  lemma TwoLines(line: seq<byte>, second: seq<byte>, payload: seq<byte>)
    requires LF !in line && CR !in Content(line) && DataValue(Content(line)) == Some(payload) && payload != []
    requires Content(second) == []
    ensures var space := SpaceBefore(Content(line), payload);
      PayloadOk(payload, space)
      && line + [LF] + second + [LF] == Wire(payload, space, Content(line) != line, second != [])
  {
    hide Content, DataValue, DataField, PayloadOk;
    FirstLine(line, Content(line), payload);
    SecondLine(second);
    assert line + [LF] + second + [LF] == (line + [LF]) + (second + [LF]);
  }

  lemma FirstLine(line: seq<byte>, content: seq<byte>, payload: seq<byte>)
    requires LF !in line && content == Content(line) && CR !in content && DataValue(content) == Some(payload)
      && payload != []
    ensures var space := SpaceBefore(content, payload);
      && PayloadOk(payload, space)
      && line + [LF] == DataField() + [COLON] + (if space then [SPACE] else []) + payload + Ending(content != line)
  {
    var k := IndexOf(content, COLON);
    var value := content[k + 1..];
    assert content == content[..k] + [COLON] + value;
    assert value != payload ==> value == [SPACE] + payload;
    assert content != line ==> line == content + [CR];
    assert forall b :: b in payload ==> b in content && b in line;
  }

  lemma SecondLine(line: seq<byte>)
    requires Content(line) == []
    ensures line + [LF] == Ending(line != [])
  {
    assert line != [] ==> line == line[..|line| - 1] + [line[|line| - 1]];
  }

  /** Only the payload can make an event invalid UTF-8. */
  lemma PayloadEncoding(payload: seq<byte>, space: bool, crlf: bool, crlf2: bool)
    ensures ValidUtf8(Wire(payload, space, crlf, crlf2)) == ValidUtf8(payload)
  {
    hide ValidUtf8;
    var head := DataField() + [COLON] + (if space then [SPACE] else []);
    var foot := Ending(crlf) + Ending(crlf2);
    assert Wire(payload, space, crlf, crlf2) == head + (payload + foot);
    AsciiPrefix(head, payload + foot);
    AsciiSuffix(payload, foot);
  }

  // ---------------------------------------------------------------------
  // Every admissible event is accepted
  // ---------------------------------------------------------------------

  function Head(payload: seq<byte>, space: bool): (r: seq<byte>) {
    DataField() + [COLON] + (if space then [SPACE] else []) + payload
  }

  lemma HeadValue(payload: seq<byte>, space: bool)
    requires PayloadOk(payload, space)
    ensures var head := Head(payload, space);
      && CR !in head && LF !in head && head != [] && DataValue(head) == Some(payload)
  {
    var head := Head(payload, space);
    assert head[..4] == DataField();
    IndexIs(head, COLON, 4);
    assert head[5..] == (if space then [SPACE] else []) + payload;
  }

  /** The first line of an event is read as what was written. */
  lemma WireFirstLine(payload: seq<byte>, space: bool, crlf: bool, crlf2: bool, tail: seq<byte>)
    requires PayloadOk(payload, space)
    ensures var head := Head(payload, space);
      var line := head + (if crlf then [CR] else []);
      && IndexOf(Wire(payload, space, crlf, crlf2) + tail, LF) == |line|
      && (Wire(payload, space, crlf, crlf2) + tail)[..|line|] == line
      && |Wire(payload, space, crlf, crlf2)| == |line| + 1 + |Ending(crlf2)|
      && Content(line) == head && CR !in head && head != [] && DataValue(head) == Some(payload)
  {
    hide DataValue, PayloadOk, DataField, IndexOf;
    HeadValue(payload, space);
    var head := Head(payload, space);
    var line := head + (if crlf then [CR] else []);
    var all := Wire(payload, space, crlf, crlf2) + tail;
    assert Wire(payload, space, crlf, crlf2) == line + [LF] + Ending(crlf2);
    assert all == line + ([LF] + Ending(crlf2) + tail);
    assert all[..|line|] == line;
    IndexIs(all, LF, |line|);
  }

  lemma WireSecondLine(payload: seq<byte>, space: bool, crlf: bool, crlf2: bool, tail: seq<byte>)
    ensures var raw := Wire(payload, space, crlf, crlf2);
      var n := |raw| - |Ending(crlf2)|;
      && IndexOf((raw + tail)[n..], LF) == |Ending(crlf2)| - 1
      && Content((raw + tail)[n..][..|Ending(crlf2)| - 1]) == []
  {
    var raw := Wire(payload, space, crlf, crlf2);
    var n := |raw| - |Ending(crlf2)|;
    assert (raw + tail)[n..] == Ending(crlf2) + tail;
    IndexIs(Ending(crlf2) + tail, LF, |Ending(crlf2)| - 1);
  }

  /** Encoding and decoding are inverse: whatever an admissible event is followed by, it is accepted whole. */
  lemma WireIsAccepted(l: SSELimits, judge: Judge, payload: seq<byte>, space: bool, crlf: bool, crlf2: bool,
                       tail: seq<byte>, clean: bool, total: nat, events: nat, chunks: nat, kind: Kind)
    requires PayloadOk(payload, space)
    requires Admissible(l, judge, kind, |Wire(payload, space, crlf, crlf2)|, payload, total, events, chunks)
    ensures NextVerdict(l, judge, Wire(payload, space, crlf, crlf2) + tail, clean, total, events, chunks)
            == Accept(kind, |Wire(payload, space, crlf, crlf2)|, payload)
  {
    hide ValidUtf8, IsText, Scan, IndexOf, Content, DataValue, PayloadOk, DoneMarker;
    ValidUtf8Exactly(payload);
    var raw := Wire(payload, space, crlf, crlf2);
    var rest := raw + tail;
    var n := |raw| - |Ending(crlf2)|;
    WireFirstLine(payload, space, crlf, crlf2, tail);
    WireSecondLine(payload, space, crlf, crlf2, tail);
    PayloadEncoding(payload, space, crlf, crlf2);
    assert rest[..|raw|] == raw;
    assert n == IndexOf(rest, LF) + 1;
    var foot := Ending(crlf2);
    assert rest[..n] == raw[..n];
    assert raw == raw[..n] + foot;
    AsciiSuffix(raw[..n], foot);
    assert LineAt(l, rest, clean, total, 0) == Complete(n, Content(rest[..n - 1]));
    assert LineAt(l, rest[n..], clean, total + n, n).Complete?;
    NonemptyPayload(payload, space);
  }

  lemma NonemptyPayload(payload: seq<byte>, space: bool)
    requires PayloadOk(payload, space)
    ensures payload != []
  {
  }

  /**
   * The decoder's verdict is the grammar: it accepts `length` bytes with this payload
   * exactly when they are one strict event that the limits, the encoding and the
   * content allow.
   */
  lemma AcceptsExactlyStrictEvents(l: SSELimits, judge: Judge, rest: seq<byte>, clean: bool, total: nat, events: nat,
                                   chunks: nat, kind: Kind, length: nat, payload: seq<byte>)
    ensures NextVerdict(l, judge, rest, clean, total, events, chunks) == Accept(kind, length, payload)
            <==> length <= |rest| && StrictEvent(rest[..length], payload)
                 && Admissible(l, judge, kind, length, payload, total, events, chunks)
  {
    hide NextVerdict, Wire, Admissible, PayloadOk;
    if NextVerdict(l, judge, rest, clean, total, events, chunks) == Accept(kind, length, payload) {
      AcceptedIsStrict(l, judge, rest, clean, total, events, chunks);
    }
    if length <= |rest| && StrictEvent(rest[..length], payload)
       && Admissible(l, judge, kind, length, payload, total, events, chunks) {
      var space: bool, crlf: bool, crlf2: bool :| PayloadOk(payload, space)
        && rest[..length] == Wire(payload, space, crlf, crlf2);
      assert rest == Wire(payload, space, crlf, crlf2) + rest[length..];
      WireIsAccepted(l, judge, payload, space, crlf, crlf2, rest[length..], clean, total, events, chunks, kind);
    }
  }
}
