/**
 * The strict stream decoder: it reads the wire in pieces of any size, accounts for
 * every byte, and returns exactly what the grammar's verdict on the unread bytes is.
 */
module SseDecoder {
  import opened Prelude
  import opened Bytes
  import opened Utf8
  import opened UnicodeEscapes
  import opened SseGrammar
  import opened JsonChunk

  /** How one slice of the buffered reader ended. */
  datatype SliceEnd = Delimited | Full | Ended

  /**
   * A buffered reader over what the upstream delivers. `wire` is everything it will
   * ever deliver; `clean` tells an end of file from a read failure.
   */
  class WireReader {
    const wire: seq<byte>
    const clean: bool
    var pos: nat

    ghost predicate Valid()
      reads this
    {
      pos <= |wire|
    }

    constructor (wire: seq<byte>, clean: bool)
      ensures Valid() && pos == 0 && this.wire == wire && this.clean == clean
    {
      this.wire, this.clean, pos := wire, clean, 0;
    }

    /** Everything up to and including the next LF, or less: the buffer decides how much. */
    method ReadSlice() returns (fragment: seq<byte>, end: SliceEnd)
      requires Valid()
      modifies this
      ensures Valid() && pos == old(pos) + |fragment| && fragment == wire[old(pos)..pos]
      ensures end.Delimited? ==> pos == old(pos) + IndexOf(wire[old(pos)..], LF) + 1
      ensures end.Full? ==> fragment != [] && pos <= old(pos) + IndexOf(wire[old(pos)..], LF)
      ensures end.Ended? ==> pos == |wire| == old(pos) + IndexOf(wire[old(pos)..], LF)
    {
      var buffer: nat :| buffer > 0;
      var k := IndexOf(wire[pos..], LF);
      if k < |wire| - pos && k < buffer {
        fragment, end := wire[pos..pos + k + 1], Delimited;
      } else if k >= buffer {
        fragment, end := wire[pos..pos + buffer], Full;
      } else {
        fragment, end := wire[pos..], Ended;
      }
      pos := pos + |fragment|;
    }

    method ReadByte() returns (some: bool)
      requires Valid()
      modifies this
      ensures Valid() && some == (old(pos) < |wire|) && pos == (if some then old(pos) + 1 else old(pos))
    {
      some := pos < |wire|;
      if some {
        pos := pos + 1;
      }
    }
  }

  datatype Failure = Canceled | Because(reason: SSEReason)

  datatype WireEvent = WireEvent(kind: Kind, body: seq<byte>)

  datatype NextResult = Event(event: WireEvent) | Failed(failure: Failure) | NilContext | VerifyRequired | StreamOver

  datatype VerifyResult = Verified | NotVerified(failure: Failure) | NoContext

  datatype DecoderState = Open | DoneReturned | VerifiedState | FailedState

  datatype LineResult = LineRead(content: seq<byte>, invalidEnding: bool) | LineEnd | LineFailed(failure: Failure)

  /** The outcome a verdict allows; which of two exceeded limits is reported depends on the buffer. */
  predicate Agrees(v: Verdict, failure: Failure) {
    match v
    case Accept(_, _, _) => false
    case Reject(reason) => failure == Because(reason)
    case OverLimit(total, event) =>
      (total && failure == Because(TotalBytesLimit)) || (event && failure == Because(EventBytesLimit))
  }

  predicate LineAgrees(line: Line, r: LineResult) {
    match line
    case Complete(_, content) => r == LineRead(content, CR in content)
    case AtEnd => r == LineEnd
    case Broken(reason) => r == LineFailed(Because(reason))
    case TooLong(total, event) =>
      (total && r == LineFailed(Because(TotalBytesLimit))) || (event && r == LineFailed(Because(EventBytesLimit)))
  }

  /** What a line that has ended comes to; its bytes start at `start`. */
  function Finished(end: SliceEnd, start: nat, grown: seq<byte>, clean: bool): (r: LineResult)
    requires start <= |grown| && (end.Delimited? ==> start < |grown|)
  {
    if end.Delimited? then
      var stop := |grown| - 1;
      var content := grown[start..if stop > start && grown[stop - 1] == CR then stop - 1 else stop];
      LineRead(content, CR in content)
    else if !clean then LineFailed(Because(BodyReadFailure))
    else if |grown| == start then LineEnd
    else if CR in grown[start..] then LineFailed(Because(InvalidLineEnding))
    else LineFailed(Because(TruncatedEvent))
  }

  lemma FinishedAgrees(l: SSELimits, rest: seq<byte>, clean: bool, total: nat, used: nat, raw: seq<byte>,
                       grown: seq<byte>,
                       end: SliceEnd)
    requires !end.Full?
    requires var k := IndexOf(rest, LF);
      if end.Delimited? then
        k < |rest| && grown == raw + rest[..k + 1] && total + k + 1 <= l.maxTotal && used + k + 1 <= l.maxEvent
      else k == |rest| && grown == raw + rest && total + |rest| <= l.maxTotal && used + |rest| <= l.maxEvent
    ensures LineAgrees(LineAt(l, rest, clean, total, used), Finished(end, |raw|, grown, clean))
    ensures Finished(end, |raw|, grown, clean).LineRead? <==> end.Delimited?
    ensures Finished(end, |raw|, grown, clean) != LineFailed(Canceled)
  {
    hide LineAt, IndexOf, Content;
    if end.Delimited? {
      WholeLine(l, rest, clean, total, used, raw, grown);
    } else {
      LastLine(l, rest, clean, total, used);
      assert grown[|raw|..] == rest;
    }
  }

  /** Everything returned so far, in wire order. */
  function Joined(es: seq<WireEvent>): (r: seq<byte>) {
    if es == [] then [] else Joined(es[..|es| - 1]) + es[|es| - 1].body
  }

  lemma JoinedSnoc(es: seq<WireEvent>, e: WireEvent)
    ensures Joined(es + [e]) == Joined(es) + e.body
  {
    assert (es + [e])[..|es|] == es;
  }

  /** Chunks only, or one or more chunks and then the terminal event. */
  ghost predicate WellOrdered(es: seq<WireEvent>) {
    && (forall i :: 0 <= i < |es| - 1 ==> es[i].kind == Chunk)
    && (es != [] && es[|es| - 1].kind == Done ==> |es| > 1)
  }

  /** What each returned event is, and within which limits. */
  ghost predicate Genuine(l: SSELimits, judge: Judge, e: WireEvent) {
    && |e.body| <= l.maxEvent
    && exists payload ::
         && StrictEvent(e.body, payload) && IsText(payload)
         && (e.kind.Done? <==> payload == DoneMarker())
         && (e.kind.Chunk? ==> ChunkReason(judge, payload).None?)
  }

  /**
   * The events of a whole stream as a function of its bytes alone: every verdict on
   * what is left, up to the terminal event or the first byte that cannot be accepted.
   */
  function Decoded(l: SSELimits, judge: Judge, rest: seq<byte>, clean: bool, total: nat, n: nat): (r: seq<WireEvent>)
    decreases |rest|
  {
    var v := NextVerdict(l, judge, rest, clean, total, n, n);
    if !v.Accept? || v.length == 0 || v.length > |rest| then []
    else
      [WireEvent(v.kind, rest[..v.length])]
      + (if v.kind.Done? then [] else Decoded(l, judge, rest[v.length..], clean, total + v.length, n + 1))
  }

  lemma DecodedStep(l: SSELimits, judge: Judge, rest: seq<byte>, clean: bool, total: nat, n: nat)
    requires NextVerdict(l, judge, rest, clean, total, n, n).Accept?
    ensures var v := NextVerdict(l, judge, rest, clean, total, n, n);
      && 0 < v.length <= |rest|
      && Decoded(l, judge, rest, clean, total, n)
         == [WireEvent(v.kind, rest[..v.length])]
            + (if v.kind.Done? then [] else Decoded(l, judge, rest[v.length..], clean, total + v.length, n + 1))
  {
    hide NextVerdict;
    AcceptedLength(l, judge, rest, clean, total, n, n);
  }

  class SSEDecoder {
    const reader: WireReader
    const limits: SSELimits
    const tokenizer: Tokenizer
    /** What the tokenizer makes of a payload decides on it. */
    const judge: Judge := JudgeOf(tokenizer)

    var state: DecoderState
    var totalBytes: uint64
    var events: uint64
    var chunks: uint64
    var failure: Option<Failure>

    /** The events returned so far, and how much of the wire they are. */
    ghost var returned: seq<WireEvent>
    ghost var consumed: nat

    /** What the grammar makes of the whole wire. */
    ghost function All(): (r: seq<WireEvent>) {
      Decoded(limits, judge, reader.wire, reader.clean, 0, 0)
    }

    /** What was returned, followed by what the grammar makes of the rest, is the whole. */
    ghost predicate OnTrack()
      reads this`returned, this`consumed
    {
      && consumed <= |reader.wire|
      && returned + Decoded(limits, judge, reader.wire[consumed..], reader.clean, consumed, |returned|) == All()
    }

    /** What was returned is a prefix of the wire, in good order and within every limit. */
    ghost predicate Steady()
      reads this`returned, this`consumed
    {
      && ValidateSSELimits(limits) && |reader.wire| <= limits.maxTotal + 1
      && consumed <= |reader.wire| && Joined(returned) == reader.wire[..consumed]
      && returned <= All() && WellOrdered(returned)
      && (forall e :: e in returned ==> Genuine(limits, judge, e))
      && consumed <= limits.maxTotal && |returned| <= limits.maxEvents
    }

    /** An open decoder stands between two events. */
    ghost predicate Between()
      reads this`returned, this`consumed, this`state, this`events, this`chunks, this`failure
    {
      && Steady() && OnTrack() && state == Open && failure == None
      && events == |returned| && chunks == |returned| && (returned != [] ==> returned[|returned| - 1].kind == Chunk)
    }

    ghost predicate Valid()
      reads this, reader
    {
      && reader.Valid() && Steady()
      && (state == Open ==> Between())
      && (state == DoneReturned || state == VerifiedState ==>
            returned == All() && returned != [] && returned[|returned| - 1].kind == Done)
      && (state != FailedState ==> failure == None && reader.pos == consumed == totalBytes && events == |returned|)
      && (state == VerifiedState ==> consumed == |reader.wire| && reader.clean)
      && (state == FailedState ==> failure.Some?)
    }

    /** What the decoder can still see; nothing once it has failed. */
    ghost function Unread(): (r: seq<byte>)
      requires reader.Valid()
      reads this, reader
    {
      reader.wire[reader.pos..]
    }

    /**
     * The wire is cut off one byte past the total limit, so a longer stream is noticed
     * and nothing beyond that byte is ever read.
     */
    constructor (upstream: seq<byte>, upstreamClean: bool, l: SSELimits, t: Tokenizer)
      requires ValidateSSELimits(l)
      ensures Valid() && fresh(reader) && limits == l && tokenizer == t
      ensures state == Open && returned == [] && consumed == 0
      ensures reader.wire == (if |upstream| > l.maxTotal then upstream[..l.maxTotal + 1] else upstream)
      ensures reader.clean == (|upstream| > l.maxTotal || upstreamClean)
    {
      var cut := |upstream| > l.maxTotal;
      reader := new WireReader(if cut then upstream[..l.maxTotal + 1] else upstream, cut || upstreamClean);
      limits, tokenizer := l, t;
      state, totalBytes, events, chunks, failure := Open, 0, 0, 0, None;
      returned, consumed := [], 0;
      new;
      assert reader.wire[0..] == reader.wire;
    }

    /** Adds to the totals unless a limit would be passed; a carry counts as passing it. */
    method AccountBytes(count: uint64, eventBytes: Option<uint64>) returns (f: Option<SSEReason>, event: Option<uint64>)
      modifies this`totalBytes
      ensures totalBytes == (if f.None? then old(totalBytes) + count else old(totalBytes))
      ensures f == Some(TotalBytesLimit) <==> old(totalBytes) + count > limits.maxTotal
      ensures f == Some(EventBytesLimit) <==> old(totalBytes) + count <= limits.maxTotal
                                              && eventBytes.Some? && eventBytes.value + count > limits.maxEvent
      ensures f.Some? ==> f.value == TotalBytesLimit || f.value == EventBytesLimit
      ensures f.None? && eventBytes.Some? ==> event == Some(eventBytes.value + count)
    {
      f, event := None, None;
      var total := WrapAdd(totalBytes, count);
      if totalBytes + count >= TWO_64 || total > limits.maxTotal {
        return Some(TotalBytesLimit), None;
      }
      if eventBytes.Some? {
        var sum := WrapAdd(eventBytes.value, count);
        if eventBytes.value + count >= TWO_64 || sum > limits.maxEvent {
          return Some(EventBytesLimit), None;
        }
        event := Some(sum);
      }
      totalBytes := total;
    }

    /** What one line's fragments have come to so far. */
    ghost predicate Partial(rest: seq<byte>, raw: seq<byte>, grown: seq<byte>, before: nat, used: nat, k: nat)
      reads this, reader
    {
      && reader.Valid() && k <= IndexOf(rest, LF) && rest[k..] == reader.wire[reader.pos..]
      && grown == raw + rest[..k]
      && totalBytes == before + k && used == |grown|
      && totalBytes <= limits.maxTotal && used <= limits.maxEvent
    }

    /** Reads, accounts for and keeps one fragment, between two looks at the context. */
    method ReadFragment(ctx: Context, ghost rest: seq<byte>, ghost raw: seq<byte>, kept: seq<byte>, used: uint64,
                        ghost before: nat, ghost k: nat)
      returns (failed: Option<Failure>, end: SliceEnd, grown: seq<byte>, now: uint64, ghost m: nat)
      requires Partial(rest, raw, kept, before, used, k)
      requires ValidateSSELimits(limits) && |reader.wire| <= limits.maxTotal + 1
      modifies this`totalBytes, reader, ctx
      ensures reader.Valid() && (old(ctx.done) ==> ctx.done) && |grown| <= limits.maxEvent
      ensures failed == Some(Canceled) ==> ctx.done
      ensures old(ctx.done) ==> failed == Some(Canceled)
      ensures failed.None? ==> ctx.looks == old(ctx.looks) + 2
      ensures failed.Some? && failed.value.Because? ==>
        LineAgrees(LineAt(limits, rest, reader.clean, before, |raw|), LineFailed(failed.value))
      ensures failed.None? ==>
        && k <= m <= |rest| && rest[m..] == reader.wire[reader.pos..] && reader.pos == old(reader.pos) + m - k
        && grown == raw + rest[..m] && now == |grown| && totalBytes == before + m <= limits.maxTotal
        && (end.Full? ==> k < m <= IndexOf(rest, LF))
        && (end.Delimited? ==> m == IndexOf(rest, LF) + 1)
        && (end.Ended? ==> m == IndexOf(rest, LF) == |rest|)
    {
      hide LineAt, IndexOf;
      failed, end, grown, now, m := None, Ended, kept, used, k;
      var canceled := ctx.Err();
      if canceled {
        failed := Some(Canceled);
        return;
      }
      SliceOf(rest, k);
      var fragment;
      fragment, end := reader.ReadSlice();
      m := k + |fragment|;
      FragmentOf(rest, k, fragment, end, reader.wire, reader.pos);
      Exceeds(limits, rest, reader.clean, before, |raw|, m);
      var f, event := AccountBytes(|fragment|, Some(used));
      if f.Some? {
        failed := Some(Because(f.value));
        return;
      }
      canceled := ctx.Err();
      if canceled {
        failed := Some(Canceled);
        return;
      }
      grown, now := kept + fragment, event.value;
      assert grown == raw + (rest[..k] + fragment);
    }

    /**
     * Reads one line in as many fragments as the buffer makes of it. Every byte is
     * accounted for before it is kept, so neither limit is ever passed in memory.
     */
    method ReadLine(ctx: Context, raw: seq<byte>, used: uint64) returns (r: LineResult, grown: seq<byte>, now: uint64)
      requires reader.Valid() && used == |raw| && used <= limits.maxEvent && totalBytes <= limits.maxTotal
      requires ValidateSSELimits(limits) && |reader.wire| <= limits.maxTotal + 1
      modifies this`totalBytes, reader, ctx
      ensures reader.Valid() && (old(ctx.done) ==> ctx.done) && |grown| <= limits.maxEvent
      ensures old(ctx.done) ==> r == LineFailed(Canceled)
      ensures r != LineFailed(Canceled) ==>
        LineAgrees(LineAt(limits, old(Unread()), reader.clean, old(totalBytes), used), r)
      ensures r.LineFailed? && r.failure.Canceled? ==> ctx.done
      ensures r.LineRead? ==>
        var n := IndexOf(old(Unread()), LF) + 1;
        && n <= |old(Unread())| && reader.pos == old(reader.pos) + n && totalBytes == old(totalBytes) + n
        && grown == raw + old(Unread())[..n] && now == |grown|
    {
      hide LineAt, IndexOf, LineAgrees, Content;
      ghost var rest := Unread();
      ghost var k: nat := 0;
      grown, now := raw, used;
      while true
        invariant Partial(rest, raw, grown, old(totalBytes), now, k)
        invariant old(ctx.done) ==> ctx.done
        invariant reader.pos == old(reader.pos) + k
        decreases |reader.wire| - reader.pos
      {
        ghost var m;
        var failed, end;
        failed, end, grown, now, m := ReadFragment(ctx, rest, raw, grown, now, old(totalBytes), k);
        if failed.Some? {
          return LineFailed(failed.value), grown, now;
        }
        if end.Full? {
          k := m;
          continue;
        }
        FinishedAgrees(limits, rest, reader.clean, old(totalBytes), used, raw, grown, end);
        return Finished(end, |raw|, grown, reader.clean), grown, now;
      }
    }

    // -----------------------------------------------------------------
    // One event
    // -----------------------------------------------------------------

    /** The verdict on what is unread, from the state between two events. */
    ghost function Pending(): (r: Verdict)
      requires reader.Valid()
      reads this, reader
    {
      NextVerdict(limits, judge, Unread(), reader.clean, totalBytes, events, chunks)
    }

    /** The first line: it must be one data field. */
    method ReadDataLine(ctx: Context)
      returns (failed: Option<Failure>, raw: seq<byte>, used: uint64, payload: seq<byte>)
      requires Valid() && state == Open && events < limits.maxEvents
      modifies this`totalBytes, reader, ctx
      ensures reader.Valid() && (old(ctx.done) ==> ctx.done)
      ensures failed == Some(Canceled) ==> ctx.done
      ensures failed.Some? ==> failed.value == Canceled || Agrees(old(Pending()), failed.value)
      ensures old(ctx.done) ==> failed == Some(Canceled)
      ensures failed.None? ==>
        var rest := old(Unread());
        && |raw| <= |rest| && raw == rest[..|raw|] && used == |raw| <= limits.maxEvent
        && reader.pos == old(reader.pos) + |raw| && totalBytes == old(totalBytes) + |raw| <= limits.maxTotal
        && old(Pending()) == DelimiterVerdict(limits, judge, rest, reader.clean, old(totalBytes), |raw|, payload,
           chunks)
    {
      hide LineAt, IndexOf, ValidUtf8, DataValue, DelimiterVerdict;
      failed, payload := None, [];
      ghost var rest := Unread();
      ghost var line := LineAt(limits, rest, reader.clean, totalBytes, 0);
      var r;
      r, raw, used := ReadLine(ctx, [], 0);
      if !r.LineRead? {
        failed := Some(if r.LineEnd? then Because(MissingDone) else r.failure);
        return;
      }
      CompleteLine(limits, rest, reader.clean, old(totalBytes), 0);
      assert raw == rest[..line.length];
      if !ValidUtf8(raw) {
        failed := Some(Because(InvalidUTF8));
      } else if r.invalidEnding {
        failed := Some(Because(InvalidLineEnding));
      } else if r.content == [] {
        failed := Some(Because(EmptyEvent));
      } else {
        var value := DataValue(r.content);
        if value.None? {
          failed := Some(Because(UnsupportedField));
        } else {
          payload := value.value;
        }
      }
    }

    /** The second line: it must be empty. */
    method ReadDelimiter(ctx: Context, raw: seq<byte>, used: uint64, payload: seq<byte>, ghost rest: seq<byte>,
                         ghost before: nat)
      returns (failed: Option<Failure>, whole: seq<byte>)
      requires reader.Valid() && ValidateSSELimits(limits) && |reader.wire| <= limits.maxTotal + 1
      requires |raw| <= |rest| && raw == rest[..|raw|] && rest[|raw|..] == Unread()
      requires used == |raw| <= limits.maxEvent && totalBytes == before + |raw| <= limits.maxTotal
      modifies this`totalBytes, reader, ctx
      ensures reader.Valid() && (old(ctx.done) ==> ctx.done)
      ensures failed == Some(Canceled) ==> ctx.done
      ensures var v := DelimiterVerdict(limits, judge, rest, reader.clean, before, |raw|, payload, chunks);
        && (failed.Some? ==> failed.value == Canceled || Agrees(v, failed.value))
        && (failed.None? ==>
              && |raw| <= |whole| <= |rest| && whole == rest[..|whole|] && |whole| <= limits.maxEvent
              && reader.pos == old(reader.pos) + |whole| - |raw| && totalBytes == before + |whole| <= limits.maxTotal
              && payload != [] && v == PayloadVerdict(judge, payload, |whole|, chunks))
    {
      hide LineAt, IndexOf, ValidUtf8, ChunkReason;
      failed := None;
      ghost var line := LineAt(limits, rest[|raw|..], reader.clean, totalBytes, used);
      var r, now;
      r, whole, now := ReadLine(ctx, raw, used);
      if !r.LineRead? {
        failed := Some(if r.LineEnd? then Because(TruncatedEvent) else r.failure);
        return;
      }
      CompleteLine(limits, rest[|raw|..], reader.clean, old(totalBytes), used);
      TakeTwice(rest, |raw|, line.length);
      if !ValidUtf8(whole) {
        failed := Some(Because(InvalidUTF8));
      } else if r.invalidEnding {
        failed := Some(Because(InvalidLineEnding));
      } else if r.content != [] {
        failed := Some(Because(MultipleFields));
      } else if payload == [] {
        failed := Some(Because(EmptyData));
      }
    }

    /** Validates a chunk; once the context is canceled the answer is not used. */
    method ValidateChunk(ctx: Context, payload: seq<byte>) returns (reason: Option<SSEReason>)
      modifies ctx
      ensures old(ctx.done) ==> ctx.done
      ensures !ctx.done ==> reason == ChunkReason(judge, payload)
    {
      if !ValidUtf8(payload) {
        return Some(InvalidUTF8);
      }
      var escapes := ValidUnicodeEscapes(ctx, payload);
      if !escapes {
        var canceled := ctx.Err();
        return if canceled then None else Some(InvalidUnicodeEscape);
      }
      reason := ValidateChunkJSON(ctx, tokenizer(payload));
    }

    /** Hands out one accepted event. */
    method Return(e: WireEvent)
      requires reader.Valid() && Between() && events < limits.maxEvents
      requires reader.pos == consumed + |e.body| == totalBytes <= limits.maxTotal
        && e.body == reader.wire[consumed..reader.pos]
      requires Genuine(limits, judge, e) && (e.kind == Done ==> chunks > 0)
      requires Decoded(limits, judge, reader.wire[consumed..], reader.clean, consumed, |returned|)
               == [e] + (if e.kind.Done? then []
                         else Decoded(limits, judge, reader.wire[reader.pos..], reader.clean, reader.pos,
                           |returned| + 1))
      modifies this`state, this`events, this`chunks, this`returned, this`consumed
      ensures Valid() && returned == old(returned) + [e] && consumed == old(consumed) + |e.body|
      ensures state == (if e.kind == Done then DoneReturned else Open)
    {
      hide Genuine, Decoded, WellOrdered, Joined, ValidateSSELimits, All;
      ghost var more := if e.kind.Done? then []
                        else Decoded(limits, judge, reader.wire[reader.pos..], reader.clean, reader.pos,
                          |returned| + 1);
      JoinedSnoc(returned, e);
      Extends(returned, e, more);
      OrderSnoc(returned, e);
      assert reader.wire[..reader.pos] == reader.wire[..consumed] + e.body;
      events := events + 1;
      if e.kind == Done {
        state := DoneReturned;
      } else {
        chunks := chunks + 1;
      }
      returned, consumed := returned + [e], consumed + |e.body|;
    }

    /** Fails from the middle of an event: what was returned before stays as it was. */
    method FailWith(f: Failure)
      requires reader.Valid() && Steady()
      modifies this`state, this`failure
      ensures Valid() && state == FailedState && failure == Some(f)
    {
      hide Steady;
      state, failure := FailedState, Some(f);
    }

    lemma Ready()
      requires Valid() && state == Open
      ensures Between() && ValidateSSELimits(limits) && |reader.wire| <= limits.maxTotal + 1
      ensures reader.Valid() && reader.pos == consumed == totalBytes <= limits.maxTotal && events <= limits.maxEvents
    {
      hide Genuine, WellOrdered, Joined, Decoded;
    }

    /** The two lines of one event. */
    method ReadEvent(ctx: Context) returns (failed: Option<Failure>, whole: seq<byte>, payload: seq<byte>)
      requires Valid() && state == Open && events < limits.maxEvents
      modifies this`totalBytes, reader, ctx
      ensures reader.Valid() && (old(ctx.done) ==> ctx.done)
      ensures failed == Some(Canceled) ==> ctx.done
      ensures failed.Some? ==> failed.value == Canceled || Agrees(old(Pending()), failed.value)
      ensures old(ctx.done) ==> failed == Some(Canceled)
      ensures failed.None? ==>
        && |whole| <= |old(Unread())| && whole == old(Unread())[..|whole|] && |whole| <= limits.maxEvent
           && payload != []
        && reader.pos == old(reader.pos) + |whole| && totalBytes == old(totalBytes) + |whole| <= limits.maxTotal
        && old(Pending()) == PayloadVerdict(judge, payload, |whole|, chunks)
    {
      hide NextVerdict, DelimiterVerdict, PayloadVerdict, Steady, Between, ValidateSSELimits;
      Ready();
      ghost var rest, before := Unread(), reader.pos;
      whole := [];
      var raw, used;
      failed, raw, used, payload := ReadDataLine(ctx);
      if failed.Some? {
        return;
      }
      Tail(reader.wire, before, |raw|);
      failed, whole := ReadDelimiter(ctx, raw, used, payload, rest, old(totalBytes));
    }

    /** One event from an open decoder. */
    method NextOpen(ctx: Context) returns (r: NextResult)
      requires Valid() && state == Open
      modifies this, reader, ctx
      ensures Valid() && (r.Event? || r.Failed?) && (old(ctx.done) ==> ctx.done && r == Failed(Canceled))
      ensures r.Event? ==>
        var v := old(Pending());
        && v.Accept? && v.length <= |old(Unread())| && r.event == WireEvent(v.kind, old(Unread())[..v.length])
        && returned == old(returned) + [r.event] && consumed == old(consumed) + v.length
        && state == (if v.kind == Done then DoneReturned else Open)
      ensures r.Failed? ==>
        && state == FailedState && failure == Some(r.failure)
        && returned == old(returned) && consumed == old(consumed)
        && (r.failure == Canceled ==> ctx.done)
        && (r.failure == Canceled || Agrees(old(Pending()), r.failure))
    {
      hide NextVerdict, PayloadVerdict, Steady, OnTrack, ValidateSSELimits;
      Ready();
      var canceled := ctx.Err();
      if canceled {
        FailWith(Canceled);
        return Failed(Canceled);
      }
      if events >= limits.maxEvents {
        TooMany(limits, judge, Unread(), reader.clean, totalBytes, events, chunks);
        FailWith(Because(EventCountLimit));
        return Failed(Because(EventCountLimit));
      }
      ghost var rest := Unread();
      var failed, whole, payload := ReadEvent(ctx);
      if failed.Some? {
        FailWith(failed.value);
        return Failed(failed.value);
      }
      r := Deliver(ctx, whole, payload, rest);
    }

    /**
     * Reads and validates one event. An event is returned exactly when the grammar
     * accepts the front of the unread bytes, whatever pieces they come in; a failure is
     * the one the grammar names, or the context's; and a failed decoder says so forever.
     */
    method Next(ctx: Context?) returns (r: NextResult)
      requires Valid()
      modifies this, reader, if ctx == null then {} else {ctx}
      ensures Valid()
      ensures ctx == null ==> r == NilContext
      ensures ctx == null || old(state) != Open ==>
        state == old(state) && failure == old(failure) && returned == old(returned) && consumed == old(consumed)
      ensures ctx != null ==>
        && (old(ctx.done) ==> ctx.done)
        && (old(state) == DoneReturned ==> r == VerifyRequired)
        && (old(state) == VerifiedState ==> r == StreamOver)
        && (old(state) == FailedState ==> r == Failed(old(failure).value))
        && (old(state) == Open ==> r.Event? || r.Failed?)
        && (old(state) == Open && old(ctx.done) ==> r == Failed(Canceled))
      ensures r.Event? ==>
        var v := old(Pending());
        && v.Accept? && v.length <= |old(Unread())| && r.event == WireEvent(v.kind, old(Unread())[..v.length])
        && returned == old(returned) + [r.event] && consumed == old(consumed) + v.length
        && state == (if v.kind == Done then DoneReturned else Open)
      ensures r.Failed? && old(state) == Open ==>
        && state == FailedState && failure == Some(r.failure)
        && returned == old(returned) && consumed == old(consumed)
        && (r.failure == Canceled ==> ctx.done)
        && (r.failure == Canceled || Agrees(old(Pending()), r.failure))
    {
      hide Genuine, NextVerdict, WellOrdered, Agrees, Joined, Decoded;
      if ctx == null {
        return NilContext;
      }
      match state {
        case DoneReturned => return VerifyRequired;
        case VerifiedState => return StreamOver;
        case FailedState => return Failed(failure.value);
        case Open =>
      }
      r := NextOpen(ctx);
    }

    lemma TooMany(l: SSELimits, j: Judge, rest: seq<byte>, clean: bool, total: nat, n: nat, c: nat)
      requires n >= l.maxEvents
      ensures NextVerdict(l, j, rest, clean, total, n, c) == Reject(EventCountLimit)
    {
    }

    /** Judges the payload of a complete event and returns the event or fails. */
    method Deliver(ctx: Context, whole: seq<byte>, payload: seq<byte>, ghost rest: seq<byte>) returns (r: NextResult)
      requires reader.Valid() && Between() && events < limits.maxEvents
      requires consumed <= |reader.wire| && rest == reader.wire[consumed..]
      requires |whole| <= |rest| && whole == rest[..|whole|]
        && reader.pos == consumed + |whole| == totalBytes <= limits.maxTotal
      requires payload != [] && |whole| <= limits.maxEvent
      requires NextVerdict(limits, judge, rest, reader.clean, consumed, events, chunks)
               == PayloadVerdict(judge, payload, |whole|, chunks)
      modifies this`state, this`events, this`chunks, this`failure, this`returned, this`consumed, ctx
      ensures Valid() && (old(ctx.done) ==> ctx.done) && (r.Event? || r.Failed?)
      ensures var v := old(PayloadVerdict(judge, payload, |whole|, chunks));
        && (r.Event? ==>
              && v.Accept? && r.event == WireEvent(v.kind, whole) && v.length == |whole|
              && returned == old(returned) + [r.event] && consumed == old(consumed) + |whole|
              && state == (if v.kind == Done then DoneReturned else Open))
        && (r.Failed? ==>
              && state == FailedState && failure == Some(r.failure)
              && returned == old(returned) && consumed == old(consumed)
              && (r.failure == Canceled ==> ctx.done)
              && (r.failure == Canceled || Agrees(v, r.failure)))
    {
      hide Genuine, NextVerdict, ValidUtf8, ChunkReason, WellOrdered, Decoded, Joined;
      if payload == DoneMarker() {
        if chunks == 0 {
          FailWith(Because(DoneBeforeChunk));
          return Failed(Because(DoneBeforeChunk));
        }
        AcceptedIsGenuine(limits, judge, rest, reader.clean, consumed, events, chunks);
        DecodedStep(limits, judge, rest, reader.clean, consumed, events);
        r := Event(WireEvent(Done, whole));
        Return(r.event);
        return;
      }
      var reason := ValidateChunk(ctx, payload);
      var canceled := ctx.Err();
      if canceled {
        FailWith(Canceled);
        return Failed(Canceled);
      }
      if reason.Some? {
        FailWith(Because(reason.value));
        return Failed(Because(reason.value));
      }
      AcceptedIsGenuine(limits, judge, rest, reader.clean, consumed, events, chunks);
      DecodedStep(limits, judge, rest, reader.clean, consumed, events);
      assert rest[|whole|..] == reader.wire[reader.pos..];
      r := Event(WireEvent(Chunk, whole));
      Return(r.event);
    }

    /** Proves that nothing follows the terminal event. */
    method VerifyEOF(ctx: Context?) returns (r: VerifyResult)
      requires Valid()
      modifies this, reader, if ctx == null then {} else {ctx}
      ensures Valid() && returned == old(returned) && consumed == old(consumed)
      ensures ctx == null ==> r == NoContext && state == old(state)
      ensures ctx != null ==>
        && (old(ctx.done) ==> ctx.done) && !r.NoContext?
        && (old(state) == VerifiedState ==> r == Verified && state == VerifiedState)
        && (old(state) == FailedState ==> r == NotVerified(old(failure).value) && failure == old(failure))
        && (old(state) == Open ==> r == NotVerified(Because(MissingDone)))
        && (r == Verified <==> state == VerifiedState)
        && (r.NotVerified? ==> state == FailedState && failure == Some(r.failure))
        && (r.NotVerified? && r.failure == Canceled && old(state) == DoneReturned ==> ctx.done)
      ensures r == Verified ==> Joined(returned) == reader.wire && reader.clean
      ensures ctx != null && old(state) == DoneReturned ==>
        || (r == NotVerified(Canceled) && ctx.done)
        || (!old(ctx.done)
            && r == (if old(Unread()) != [] then
                       NotVerified(Because(if old(totalBytes)
                         + 1 > limits.maxTotal then TotalBytesLimit else TrailingData))
                     else if reader.clean then Verified else NotVerified(Because(BodyReadFailure))))
    {
      hide Genuine, WellOrdered, Decoded;
      if ctx == null {
        return NoContext;
      }
      match state {
        case VerifiedState =>
          assert reader.wire[..|reader.wire|] == reader.wire;
          return Verified;
        case FailedState => return NotVerified(failure.value);
        case Open =>
          FailWith(Because(MissingDone));
          return NotVerified(Because(MissingDone));
        case DoneReturned =>
      }
      var canceled := ctx.Err();
      if canceled {
        FailWith(Canceled);
        return NotVerified(Canceled);
      }
      var some := reader.ReadByte();
      if some {
        var f, _ := AccountBytes(1, None);
        canceled := ctx.Err();
        var why := if f.Some? then Because(f.value) else if canceled then Canceled else Because(TrailingData);
        FailWith(why);
        return NotVerified(why);
      }
      canceled := ctx.Err();
      if canceled {
        FailWith(Canceled);
        return NotVerified(Canceled);
      }
      if !reader.clean {
        FailWith(Because(BodyReadFailure));
        return NotVerified(Because(BodyReadFailure));
      }
      state := VerifiedState;
      assert reader.wire[..|reader.wire|] == reader.wire;
      r := Verified;
    }
  }

  /** A slice is part of what is unread, up to the next LF at most. */
  lemma Tail(wire: seq<byte>, pos: nat, n: nat)
    requires pos + n <= |wire|
    ensures wire[pos + n..] == wire[pos..][n..]
  {
  }

  lemma OrderSnoc(es: seq<WireEvent>, e: WireEvent)
    requires WellOrdered(es) && (es != [] ==> es[|es| - 1].kind == Chunk) && (e.kind == Done ==> es != [])
    ensures WellOrdered(es + [e])
  {
  }

  lemma Extends(es: seq<WireEvent>, e: WireEvent, more: seq<WireEvent>)
    ensures es + ([e] + more) == (es + [e]) + more
  {
  }

  /** What the grammar accepts is a genuine event of the right kind. */
  lemma AcceptedIsGenuine(l: SSELimits, judge: Judge, rest: seq<byte>, clean: bool, total: nat, events: nat,
                          chunks: nat)
    requires NextVerdict(l, judge, rest, clean, total, events, chunks).Accept?
    ensures var v := NextVerdict(l, judge, rest, clean, total, events, chunks);
      v.length <= |rest| && Genuine(l, judge, WireEvent(v.kind, rest[..v.length])) && (v.kind == Done ==> chunks > 0)
  {
    hide NextVerdict, StrictEvent, ValidUtf8, IsText;
    ValidUtf8Exactly(NextVerdict(l, judge, rest, clean, total, events, chunks).payload);
    AcceptedIsStrict(l, judge, rest, clean, total, events, chunks);
  }

  lemma TakeTwice(rest: seq<byte>, n: nat, m: nat)
    requires n + m <= |rest|
    ensures rest[..n] + rest[n..][..m] == rest[..n + m]
  {
  }

  lemma {:induction false} SliceOf(rest: seq<byte>, k: nat)
    requires k <= IndexOf(rest, LF)
    ensures IndexOf(rest[k..], LF) == IndexOf(rest, LF) - k
    decreases |rest| - k
  {
    if k < IndexOf(rest, LF) {
      SliceOf(rest, k + 1);
      assert rest[k..][1..] == rest[k + 1..];
      assert rest[k] in rest[..IndexOf(rest, LF)];
    } else if k < |rest| {
      assert rest[k..][0] == LF;
    }
  }

  lemma FragmentOf(rest: seq<byte>, k: nat, fragment: seq<byte>, end: SliceEnd, wire: seq<byte>, pos: nat)
    requires k + |fragment| <= |rest| && |fragment| <= pos <= |wire|
    requires rest[k..] == wire[pos - |fragment|..] && fragment == wire[pos - |fragment|..pos]
    ensures rest[..k] + fragment == rest[..k + |fragment|] && rest[k + |fragment|..] == wire[pos..]
  {
    assert fragment == rest[k..][..|fragment|];
    assert wire[pos..] == rest[k..][|fragment|..];
  }

  /** Passing a limit on part of a line is passing it on the whole line. */
  lemma Exceeds(l: SSELimits, rest: seq<byte>, clean: bool, total: nat, used: nat, m: nat)
    requires m <= |rest| && m <= IndexOf(rest, LF) + 1
    ensures total + m > l.maxTotal ==>
      LineAt(l, rest, clean, total, used).TooLong? && LineAt(l, rest, clean, total, used).total
    ensures used + m > l.maxEvent ==>
      LineAt(l, rest, clean, total, used).TooLong? && LineAt(l, rest, clean, total, used).event
  {
    hide IndexOf;
  }

  lemma WholeLine(l: SSELimits, rest: seq<byte>, clean: bool, total: nat, used: nat, raw: seq<byte>, grown: seq<byte>)
    requires IndexOf(rest, LF) < |rest| && grown == raw + rest[..IndexOf(rest, LF) + 1]
    requires total + IndexOf(rest, LF) + 1 <= l.maxTotal && used + IndexOf(rest, LF) + 1 <= l.maxEvent
    ensures LineAt(l, rest, clean, total, used) == Complete(IndexOf(rest, LF) + 1, Content(rest[..IndexOf(rest, LF)]))
    ensures var stop := |grown| - 1;
      Content(rest[..IndexOf(rest, LF)])
      == grown[|raw|..if stop > |raw| && grown[stop - 1] == CR then stop - 1 else stop]
  {
    hide IndexOf, Content;
    KeptContent(raw, rest, grown, IndexOf(rest, LF));
  }

  lemma KeptContent(raw: seq<byte>, rest: seq<byte>, grown: seq<byte>, k: nat)
    requires k < |rest| && grown == raw + rest[..k + 1]
    ensures var stop := |grown| - 1;
      Content(rest[..k]) == grown[|raw|..if stop > |raw| && grown[stop - 1] == CR then stop - 1 else stop]
  {
    var line := rest[..k];
    KeptPart(raw, rest, grown, k);
    if k > 0 {
      KeptPart(raw, rest, grown, k - 1);
      assert line[..k - 1] == rest[..k - 1];
      assert grown[|raw| + k - 1] == line[k - 1];
    }
  }

  lemma KeptPart(raw: seq<byte>, rest: seq<byte>, grown: seq<byte>, k: nat)
    requires k < |rest| && raw <= grown && |raw| + k < |grown|
    requires forall i :: 0 <= i <= k ==> grown[|raw| + i] == rest[i]
    ensures grown[|raw|..|raw| + k] == rest[..k]
  {
  }

  lemma LastLine(l: SSELimits, rest: seq<byte>, clean: bool, total: nat, used: nat)
    requires IndexOf(rest, LF) == |rest| && total + |rest| <= l.maxTotal && used + |rest| <= l.maxEvent
    ensures LineAt(l, rest, clean, total, used) ==
            if !clean then Broken(BodyReadFailure)
            else if rest == [] then AtEnd
            else Broken(if CR in rest then InvalidLineEnding else TruncatedEvent)
  {
    hide IndexOf;
  }

  /**
   * The growth of the event buffer: its capacity at most doubles, is enough for what
   * is appended, and never exceeds the event limit.
   */
  function GrownCapacity(capacity: nat, length: nat, added: nat, maximum: nat): (grown: nat)
    requires length + added <= maximum && length <= capacity <= maximum
    ensures length + added <= grown <= maximum && capacity <= grown
  {
    var needed := length + added;
    if needed > capacity then Min(Max(capacity * 2, needed), maximum) else capacity
  }
}
