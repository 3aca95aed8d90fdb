/**
 * Server-sent events as a client reads them: sections 9.2.5 and 9.2.6 of the WHATWG
 * HTML Living Standard on bytes, independent of the decoder. Every event the decoder
 * accepts dispatches exactly one message, and its data is the decoder's payload.
 */
module EventStream {
  import opened Prelude
  import opened Bytes
  import opened SseGrammar
  import opened SseDecoder

  datatype Message = Message(kind: seq<byte>, data: seq<byte>, lastEventID: seq<byte>)

  /** The data, event type and last event ID buffers. */
  datatype Buffers = Buffers(data: seq<byte>, kind: seq<byte>, id: seq<byte>)

  /** `event`, `id` and `message` */
  function EventField(): (r: seq<byte>) { [101, 118, 101, 110, 116] }

  function IdField(): (r: seq<byte>) { [105, 100] }

  function MessageKind(): (r: seq<byte>) { [109, 101, 115, 115, 97, 103, 101] }

  function Empty(): (r: Buffers) { Buffers([], [], []) }

  // ---------------------------------------------------------------------
  // Parsing an event stream
  // ---------------------------------------------------------------------

  function LineEndAt(s: seq<byte>): (k: nat)
    ensures k <= |s| && (k < |s| ==> s[k] == CR || s[k] == LF)
  {
    if s == [] || s[0] == CR || s[0] == LF then 0 else 1 + LineEndAt(s[1..])
  }

  /** The terminated lines; a line ends at CR LF, at LF or at CR. */
  function Lines(s: seq<byte>): (r: seq<seq<byte>>)
    decreases |s|
  {
    var k := LineEndAt(s);
    if k == |s| then []
    else
      var n := if s[k] == CR && k + 1 < |s| && s[k + 1] == LF then k + 2 else k + 1;
      [s[..k]] + Lines(s[n..])
  }

  // ---------------------------------------------------------------------
  // Interpreting an event stream
  // ---------------------------------------------------------------------

  function Field(b: Buffers, name: seq<byte>, value: seq<byte>): (r: Buffers) {
    if name == EventField() then b.(kind := value)
    else if name == DataField() then b.(data := b.data + value + [LF])
    else if name == IdField() then (if 0 in value then b else b.(id := value))
    else b
  }

  function Unspaced(value: seq<byte>): (r: seq<byte>) {
    if value != [] && value[0] == SPACE then value[1..] else value
  }

  /** A line that is not empty. */
  function Process(b: Buffers, line: seq<byte>): (r: Buffers) {
    var k := IndexOf(line, COLON);
    if k == |line| then Field(b, line, [])
    else if k == 0 then b
    else Field(b, line[..k], Unspaced(line[k + 1..]))
  }

  /** What an empty line dispatches; nothing when no data was collected. */
  function Dispatch(b: Buffers): (r: seq<Message>) {
    if b.data == [] then []
    else
      var data := if b.data[|b.data| - 1] == LF then b.data[..|b.data| - 1] else b.data;
      [Message(if b.kind == [] then MessageKind() else b.kind, data, b.id)]
  }

  /** The messages of these lines; what is pending at the end is discarded. */
  function Interpret(b: Buffers, lines: seq<seq<byte>>): (r: seq<Message>)
    decreases |lines|
  {
    if lines == [] then []
    else if lines[0] == [] then Dispatch(b) + Interpret(Buffers([], [], b.id), lines[1..])
    else Interpret(Process(b, lines[0]), lines[1..])
  }

  /** One leading byte order mark is not part of the stream. */
  function WithoutMark(s: seq<byte>): (r: seq<byte>) {
    if |s| >= 3 && s[0] == 0xEF && s[1] == 0xBB && s[2] == 0xBF then s[3..] else s
  }

  function Messages(s: seq<byte>): (r: seq<Message>) {
    Interpret(Empty(), Lines(WithoutMark(s)))
  }

  // ---------------------------------------------------------------------
  // Accepted events
  // ---------------------------------------------------------------------

  lemma {:induction false} LineEndIs(s: seq<byte>, k: nat)
    requires k < |s| && (s[k] == CR || s[k] == LF) && CR !in s[..k] && LF !in s[..k]
    ensures LineEndAt(s) == k
  {
    if k > 0 {
      assert s[0] == s[..k][0];
      assert s[..k][1..] == s[1..][..k - 1];
      LineEndIs(s[1..], k - 1);
    }
  }

  /** One line with either ending in front of the rest. */
  lemma LineThen(line: seq<byte>, crlf: bool, tail: seq<byte>)
    requires CR !in line && LF !in line
    ensures Lines(line + Ending(crlf) + tail) == [line] + Lines(tail)
  {
    var s := line + Ending(crlf) + tail;
    assert s[..|line|] == line;
    LineEndIs(s, |line|);
    assert s[|line| + |Ending(crlf)|..] == tail;
  }

  /** The lines of one event are its field and the empty line. */
  lemma EventLines(payload: seq<byte>, space: bool, crlf: bool, crlf2: bool, tail: seq<byte>)
    requires PayloadOk(payload, space)
    ensures Lines(Wire(payload, space, crlf, crlf2) + tail) == [Head(payload, space), []] + Lines(tail)
  {
    hide Lines, PayloadOk;
    var head := Head(payload, space);
    HeadValue(payload, space);
    assert Wire(payload, space, crlf, crlf2) + tail == head + Ending(crlf) + ([] + Ending(crlf2) + tail);
    LineThen(head, crlf, [] + Ending(crlf2) + tail);
    LineThen([], crlf2, tail);
    assert [head] + ([[]] + Lines(tail)) == [head, []] + Lines(tail);
  }

  lemma HeadCollects(payload: seq<byte>, space: bool)
    requires PayloadOk(payload, space)
    ensures Head(payload, space) != [] && Process(Empty(), Head(payload, space)) == Buffers(payload + [LF], [], [])
  {
    var head := Head(payload, space);
    assert head[..4] == DataField();
    IndexIs(head, COLON, 4);
    assert head[5..] == (if space then [SPACE] else []) + payload;
    assert Unspaced(head[5..]) == payload;
    assert [] + payload + [LF] == payload + [LF];
  }

  /** One accepted event dispatches one message with the decoder's payload, whatever its line endings. */
  lemma EventDispatchesPayload(payload: seq<byte>, space: bool, crlf: bool, crlf2: bool, tail: seq<byte>)
    requires PayloadOk(payload, space)
    ensures Interpret(Empty(), Lines(Wire(payload, space, crlf, crlf2) + tail))
            == [Message(MessageKind(), payload, [])] + Interpret(Empty(), Lines(tail))
  {
    hide Lines, PayloadOk, Process, Head, MessageKind;
    EventLines(payload, space, crlf, crlf2, tail);
    HeadCollects(payload, space);
    var lines := [Head(payload, space), []] + Lines(tail);
    assert lines[1..] == [[]] + Lines(tail);
    assert lines[1..][1..] == Lines(tail);
    assert (payload + [LF])[..|payload|] == payload;
  }

  /** The payloads of a list of events. */
  ghost predicate PayloadsOf(es: seq<WireEvent>, payloads: seq<seq<byte>>) {
    |payloads| == |es| && forall i :: 0 <= i < |es| ==> StrictEvent(es[i].body, payloads[i])
  }

  function Plain(payloads: seq<seq<byte>>): (r: seq<Message>) {
    if payloads == [] then [] else [Message(MessageKind(), payloads[0], [])] + Plain(payloads[1..])
  }

  lemma {:induction false} JoinedFront(es: seq<WireEvent>)
    requires es != []
    ensures Joined(es) == es[0].body + Joined(es[1..])
  {
    var k := |es| - 1;
    var rest := es[1..];
    if k == 0 {
      assert rest == [] && es[..0] == [];
    } else {
      JoinedFront(es[..k]);
      assert rest == rest[..k - 1] + [es[k]];
      assert es[..k][1..] == rest[..k - 1];
      JoinedSnoc(rest[..k - 1], es[k]);
    }
  }

  lemma {:induction false} StreamDispatches(es: seq<WireEvent>, payloads: seq<seq<byte>>)
    requires PayloadsOf(es, payloads)
    ensures Interpret(Empty(), Lines(Joined(es))) == Plain(payloads)
    decreases |es|
  {
    hide Wire, PayloadOk, Interpret;
    if es == [] {
      NoMessages();
    } else {
      JoinedFront(es);
      var space: bool, crlf: bool, crlf2: bool :|
        PayloadOk(payloads[0], space) && es[0].body == Wire(payloads[0], space, crlf, crlf2);
      EventDispatchesPayload(payloads[0], space, crlf, crlf2, Joined(es[1..]));
      StreamDispatches(es[1..], payloads[1..]);
    }
  }

  lemma NoMessages()
    ensures Interpret(Empty(), Lines([])) == []
  {
  }

  lemma NoMark(es: seq<WireEvent>, payloads: seq<seq<byte>>)
    requires PayloadsOf(es, payloads)
    ensures WithoutMark(Joined(es)) == Joined(es)
  {
    if es != [] {
      JoinedFront(es);
      assert StrictEvent(es[0].body, payloads[0]);
    }
  }

  /**
   * A client that reads the bytes of the returned events gets one message for each,
   * in order, and the data of the message is the payload the decoder judged.
   */
  lemma ClientSeesPayloads(es: seq<WireEvent>, payloads: seq<seq<byte>>)
    requires PayloadsOf(es, payloads)
    ensures Messages(Joined(es)) == Plain(payloads) && |Messages(Joined(es))| == |es|
    ensures forall i :: 0 <= i < |es| ==> Messages(Joined(es))[i] == Message(MessageKind(), payloads[i], [])
  {
    hide Joined, Interpret, Lines, PayloadsOf;
    NoMark(es, payloads);
    StreamDispatches(es, payloads);
    PlainAt(payloads);
    SameLength(es, payloads);
  }

  lemma SameLength(es: seq<WireEvent>, payloads: seq<seq<byte>>)
    requires PayloadsOf(es, payloads)
    ensures |payloads| == |es|
  {
  }

  lemma {:induction false} PlainAt(payloads: seq<seq<byte>>)
    ensures |Plain(payloads)| == |payloads|
    ensures forall i :: 0 <= i < |payloads| ==> Plain(payloads)[i] == Message(MessageKind(), payloads[i], [])
  {
    if payloads != [] {
      PlainAt(payloads[1..]);
    }
  }

  /** Everything the decoder has returned has such payloads. */
  lemma GenuinePayloads(l: SSELimits, judge: Judge, es: seq<WireEvent>) returns (payloads: seq<seq<byte>>)
    requires forall e :: e in es ==> Genuine(l, judge, e)
    ensures PayloadsOf(es, payloads)
    ensures forall i :: 0 <= i < |es| ==> (es[i].kind.Done? <==> payloads[i] == DoneMarker())
    ensures forall i :: 0 <= i < |es| && es[i].kind.Chunk? ==> ChunkReason(judge, payloads[i]).None?
  {
    hide StrictEvent, ValidUtf8, ChunkReason, DoneMarker;
    if es == [] {
      payloads := [];
    } else {
      var k := |es| - 1;
      var before := GenuinePayloads(l, judge, es[..k]);
      assert Genuine(l, judge, es[k]);
      var p :| StrictEvent(es[k].body, p) && (es[k].kind.Done? <==> p == DoneMarker())
               && (es[k].kind.Chunk? ==> ChunkReason(judge, p).None?);
      payloads := before + [p];
    }
  }

  /** The payload of an event is determined by its bytes. */
  lemma PayloadIsUnique(raw: seq<byte>, p: seq<byte>, q: seq<byte>)
    requires StrictEvent(raw, p) && StrictEvent(raw, q)
    ensures p == q
  {
    var e := WireEvent(Chunk, raw);
    hide Messages, StrictEvent;
    ClientSeesPayloads([e], [p]);
    ClientSeesPayloads([e], [q]);
    assert Messages(Joined([e]))[0].data == p;
  }
}
