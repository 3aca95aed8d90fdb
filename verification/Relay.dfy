/**
 * The relay of a validated stream to the client: what the client has been sent is
 * part of one static error document or a prefix of the validated wire, never both,
 * and the terminal marker is kept back until the stream is known to end with it.
 */
module Relay {
  import opened Prelude
  import opened Bytes
  import opened SseGrammar
  import opened JsonScan
  import opened JsonChunk
  import opened SseDecoder
  import opened EventStream

  datatype PublicError = InternalError | BadUpstream | UpstreamTimeout | DrainingError

  datatype Outcome = ServedCompletely | UpstreamFault | DownstreamFault | ServingCanceled | InternalFault

  /** Something outside that may have happened by now. */
  method Observe() returns (happened: bool)
  {
    happened := *;
  }

  /** The upstream response body; closing it may fail. */
  class Body {
    var closedCleanly: bool

    constructor ()
      ensures !closedCleanly
    {
      closedCleanly := false;
    }

    method Close() returns (ok: bool)
      modifies this
      ensures ok ==> closedCleanly
      ensures old(closedCleanly) ==> closedCleanly
    {
      ok := Observe();
      if ok {
        closedCleanly := true;
      }
    }
  }

  /** The downstream response. `sent` is every body byte handed to the writer. */
  class ResponseSink {
    const document: PublicError -> seq<byte>
    const flushable: bool

    var committed: bool
    var streaming: bool
    ghost var sent: seq<byte>
    ghost var flushed: nat
    ghost var failed: bool

    constructor (document: PublicError -> seq<byte>, flushable: bool)
      ensures !committed && !streaming && sent == [] && flushed == 0 && !failed
      ensures this.document == document && this.flushable == flushable
    {
      this.document, this.flushable := document, flushable;
      committed, streaming, sent, flushed, failed := false, false, [], 0, false;
    }

    /** The writer takes all of it, or a part and fails. */
    method Copy(body: seq<byte>) returns (ok: bool)
      modifies this`sent, this`failed
      ensures old(sent) <= sent <= old(sent) + body
      ensures ok ==> sent == old(sent) + body && failed == old(failed)
      ensures !ok ==> failed
    {
      var n: nat :| n <= |body|;
      sent := sent + body[..n];
      ok := n == |body|;
      if ok {
        assert body[..n] == body;
      } else {
        failed := true;
      }
    }

    /** A static document, once, and only when nothing was committed before. */
    method WriteError(e: PublicError) returns (ok: bool)
      modifies this
      ensures old(committed) ==>
        !ok && committed && streaming == old(streaming) && sent == old(sent) && flushed == old(flushed)
      ensures !old(committed) ==>
        committed && streaming == old(streaming) && old(sent) <= sent <= old(sent) + document(e)
      ensures !old(committed) && !ok ==> failed
      ensures ok ==> sent == old(sent) + document(e)
      ensures flushed == old(flushed)
    {
      if committed {
        return false;
      }
      committed := true;
      ok := Copy(document(e));
    }

    /** One whole event, flushed before the call returns; the first one commits the stream. */
    method WriteSSEEvent(body: seq<byte>) returns (ok: bool)
      modifies this
      ensures ok ==> committed && streaming && sent == old(sent) + body && flushed == |sent| && failed == old(failed)
      ensures !ok ==> failed && old(sent) <= sent <= old(sent) + body
      ensures sent != old(sent) ==> committed && streaming
      ensures old(committed) ==> committed && streaming == old(streaming)
      ensures committed && !old(committed) ==> streaming
      ensures streaming && !old(streaming) ==> committed && !old(committed)
    {
      if |body| == 0 || (committed && !streaming) || !flushable {
        failed := true;
        return false;
      }
      if !committed {
        streaming, committed := true, true;
      }
      ok := Copy(body);
      if !ok {
        return;
      }
      ok := Observe();
      if ok {
        flushed := |sent|;
      } else {
        failed := true;
      }
    }
  }

  /** The chunk events of what the decoder returned. */
  function ChunksOnly(es: seq<WireEvent>): (r: seq<WireEvent>) {
    if es != [] && es[|es| - 1].kind == Done then es[..|es| - 1] else es
  }

  /** `sent` is `before` and then part of one of the static documents. */
  ghost predicate PartOfSome(document: PublicError -> seq<byte>, before: seq<byte>, sent: seq<byte>) {
    exists e :: PartOf(document, before, sent, e)
  }

  ghost predicate PartOf(document: PublicError -> seq<byte>, before: seq<byte>, sent: seq<byte>, e: PublicError) {
    before <= sent <= before + document(e)
  }

  /** Nothing, part of one error document, or a prefix of the validated wire. */
  ghost predicate Transcript(sink: ResponseSink, es: seq<WireEvent>)
    reads sink
  {
    if sink.streaming then sink.committed && sink.sent <= Joined(es)
    else if sink.committed then PartOfSome(sink.document, [], sink.sent)
    else sink.sent == []
  }

  /** Before the terminal marker may be sent. */
  ghost predicate DoneWithheld(sink: ResponseSink, es: seq<WireEvent>)
    reads sink
  {
    sink.streaming ==> sink.sent <= Joined(ChunksOnly(es))
  }

  /** The contexts that can end an exchange. */
  datatype Exchange = Exchange(request: Context, permit: Context, upstream: Context)

  predicate Apart(x: Exchange) {
    x.request != x.permit && x.request != x.upstream && x.permit != x.upstream
  }

  ghost predicate Ended(x: Exchange)
    reads x.request, x.permit, x.upstream
  {
    x.request.done || x.permit.done || (x.upstream.done && x.upstream.late)
  }

  /** What a client that was sent nothing is told: nothing itself when it has left. */
  ghost function Answer(x: Exchange, otherwise: Option<PublicError>): (answer: Option<PublicError>)
    reads x.request, x.permit, x.upstream
  {
    if x.request.done then None
    else if x.permit.done then Some(DrainingError)
    else if x.upstream.done && x.upstream.late then Some(UpstreamTimeout)
    else otherwise
  }

  /** A context that ended stays as it ended. */
  twostate predicate Lasting(x: Exchange)
    reads x.request, x.permit, x.upstream
  {
    && (old(x.request.done) ==> x.request.done)
    && (old(x.permit.done) ==> x.permit.done)
    && (old(x.upstream.done) ==> x.upstream.done && x.upstream.late == old(x.upstream.late))
  }

  /** The answer was given to a client that had been sent nothing, and to nobody else. */
  twostate predicate Told(sink: ResponseSink, answer: Option<PublicError>)
    reads sink
  {
    && sink.streaming == old(sink.streaming) && sink.flushed == old(sink.flushed)
    && (if old(sink.committed) || answer.None? then
          sink.committed == old(sink.committed) && sink.sent == old(sink.sent) && sink.failed == old(sink.failed)
        else
          sink.committed && PartOf(sink.document, old(sink.sent), sink.sent, answer.value))
  }

  /** The permit is gone: a client that is still there and was sent nothing is told so. */
  method TellDraining(sink: ResponseSink, x: Exchange)
    requires Apart(x) && x.permit.done
    modifies sink, x.request
    ensures old(x.request.done) ==> x.request.done
    ensures Told(sink, if x.request.done then None else Some(DrainingError))
  {
    var requestDone := x.request.Err();
    if requestDone || sink.committed {
      return;
    }
    var _ := sink.WriteError(DrainingError);
  }

  /**
   * The client, the permit or the deadline may have ended the exchange. The client's
   * own departure is answered with silence, a lost permit with the draining document
   * and the deadline with the timeout document.
   */
  method HandleUpstreamContext(sink: ResponseSink, x: Exchange) returns (outcome: Outcome, handled: bool)
    requires Apart(x)
    modifies sink, x.request, x.permit, x.upstream
    ensures Lasting(x)
    ensures handled <==> Ended(x)
    ensures Told(sink, Answer(x, None))
    ensures handled && (x.request.done || x.permit.done) ==> outcome == ServingCanceled
    ensures handled && !x.request.done && !x.permit.done ==>
      || (outcome == DownstreamFault && sink.failed && !old(sink.committed))
      || (outcome == UpstreamFault
          && (!old(sink.committed) ==> sink.sent == old(sink.sent) + sink.document(UpstreamTimeout)))
  {
    outcome, handled := ServingCanceled, true;
    var requestDone := x.request.Err();
    if requestDone {
      return;
    }
    var permitDone := x.permit.Err();
    if permitDone {
      TellDraining(sink, x);
      return;
    }
    var deadline := x.upstream.DeadlineExceeded();
    if !deadline {
      handled := false;
      return;
    }
    requestDone := x.request.Err();
    if requestDone {
      return;
    }
    permitDone := x.permit.Err();
    if permitDone {
      TellDraining(sink, x);
      return;
    }
    if sink.committed {
      return UpstreamFault, true;
    }
    var ok := sink.WriteError(UpstreamTimeout);
    outcome := if ok then UpstreamFault else DownstreamFault;
  }

  function FailureDocument(timedOut: bool): (e: PublicError)
    ensures timedOut ==> e == UpstreamTimeout
    ensures !timedOut ==> e == BadUpstream
  {
    if timedOut then UpstreamTimeout else BadUpstream
  }

  /** Either a stream was begun or nothing was sent at all. */
  ghost predicate Untouched(sink: ResponseSink)
    reads sink
  {
    (sink.committed <==> sink.streaming) && (!sink.committed ==> sink.sent == [])
  }

  /**
   * A response that is no stream is the document of the context that ended the
   * exchange, or else `otherwise`: the whole of it when the upstream is blamed, and
   * some of it whenever the client is still there to be told of a lost permit.
   */
  ghost predicate Replied(sink: ResponseSink, x: Exchange, outcome: Outcome, otherwise: PublicError)
    reads sink, x.request, x.permit, x.upstream
  {
    var answer := Answer(x, Some(otherwise));
    && (!sink.committed ==> sink.sent == [])
    && (sink.committed && !sink.streaming ==>
          answer.Some? && PartOf(sink.document, [], sink.sent, answer.value))
    && (outcome == UpstreamFault && !sink.streaming ==>
          sink.committed && answer.Some? && sink.sent == sink.document(answer.value))
    && (outcome == ServingCanceled && !x.request.done && !sink.streaming ==> sink.committed)
  }

  /** The stream failed: the document for the reason when nothing was committed, and silence otherwise. */
  method FinishSSEFailure(sink: ResponseSink, x: Exchange, timedOut: bool, ghost es: seq<WireEvent>)
    returns (outcome: Outcome)
    requires Apart(x) && Transcript(sink, es) && DoneWithheld(sink, es) && Untouched(sink)
    modifies sink, x.request, x.permit, x.upstream
    ensures Lasting(x)
    ensures Told(sink, Answer(x, Some(FailureDocument(timedOut))))
    ensures Replied(sink, x, outcome, FailureDocument(timedOut))
    ensures x.request.done || x.permit.done ==> outcome == ServingCanceled
    ensures !x.request.done && !x.permit.done ==>
      outcome == UpstreamFault || (outcome == DownstreamFault && sink.failed && !old(sink.committed))
    ensures Transcript(sink, es) && DoneWithheld(sink, es)
  {
    hide Joined, ChunksOnly;
    var handled;
    outcome, handled := HandleUpstreamContext(sink, x);
    if !handled {
      outcome := UpstreamFault;
      if !sink.committed {
        var ok := sink.WriteError(FailureDocument(timedOut));
        outcome := if ok then UpstreamFault else DownstreamFault;
      }
    }
  }

  /**
   * One event under a context of its own. An event is used exactly when the grammar
   * accepts one and the context was stopped before it ended; a timeout is reported
   * exactly when it ended by its deadline while the exchange went on.
   */
  method NextSSEEvent(decoder: SSEDecoder, parent: Context)
    returns (event: Option<WireEvent>, timedOut: bool, ghost own: Context, ghost stopped: bool)
    requires decoder.Valid() && decoder.state == Open
    modifies decoder, decoder.reader, parent
    ensures fresh(own) && (old(parent.done) ==> parent.done && parent.late == old(parent.late))
    ensures decoder.Valid()
    ensures timedOut <==> own.done && own.late && !parent.done
    ensures event.Some? <==> stopped && old(decoder.Pending()).Accept?
    ensures !stopped ==> own.done
    ensures event.Some? ==>
      && decoder.returned == old(decoder.returned) + [event.value]
      && decoder.state == (if event.value.kind == Done then DoneReturned else Open)
      && decoder.consumed == old(decoder.consumed) + |event.value.body| && event.value.body != []
    ensures event.None? ==>
      decoder.returned == old(decoder.returned) || exists e :: decoder.returned == old(decoder.returned) + [e]
  {
    hide decoder.Valid, NextVerdict;
    assert decoder.reader.Valid() by { ReaderOk(decoder); }
    ghost var before := decoder.returned;
    Progress(decoder);
    var ctx := new Context();
    own := ctx;
    var r := decoder.Next(ctx);
    var ended := ctx.Err();
    stopped := !ended;
    var exceeded := ctx.DeadlineExceeded();
    timedOut := false;
    if exceeded {
      var parentDone := parent.Err();
      timedOut := !parentDone;
    }
    event := if r.Event? && !ended then Some(r.event) else None;
  }

  lemma ReaderOk(decoder: SSEDecoder)
    requires decoder.Valid()
    ensures decoder.reader.Valid()
  {
  }

  lemma Progress(decoder: SSEDecoder)
    requires decoder.Valid()
    ensures decoder.reader.Valid() && (decoder.Pending().Accept? ==> 0 < decoder.Pending().length <= |decoder.Unread()|)
  {
    hide NextVerdict, Genuine;
    if decoder.Pending().Accept? {
      AcceptedLength(decoder.limits, decoder.judge, decoder.Unread(), decoder.reader.clean, decoder.totalBytes,
                     decoder.events, decoder.chunks);
    }
  }

  /** The end of file is verified under a context of its own in the same way. */
  method VerifySSEEOF(decoder: SSEDecoder, parent: Context)
    returns (verified: bool, timedOut: bool, ghost own: Context, ghost stopped: bool)
    requires decoder.Valid() && decoder.state == DoneReturned
    modifies decoder, decoder.reader, parent
    ensures fresh(own) && (old(parent.done) ==> parent.done && parent.late == old(parent.late))
    ensures decoder.Valid() && decoder.returned == old(decoder.returned)
    ensures timedOut <==> own.done && own.late && !parent.done
    ensures verified <==> stopped && old(decoder.Unread()) == [] && decoder.reader.clean
    ensures !stopped ==> own.done
    ensures verified ==>
      decoder.state == VerifiedState && Joined(decoder.returned) == decoder.reader.wire && decoder.reader.clean
  {
    hide decoder.Valid;
    var ctx := new Context();
    own := ctx;
    var r := decoder.VerifyEOF(ctx);
    var ended := ctx.Err();
    stopped := !ended;
    var exceeded := ctx.DeadlineExceeded();
    timedOut := false;
    if exceeded {
      var parentDone := parent.Err();
      timedOut := !parentDone;
    }
    verified := r == Verified && !ended;
  }

  /** What may be said of the transcript between two events. */
  ghost predicate InStep(sink: ResponseSink, es: seq<WireEvent>)
    reads sink
  {
    && (sink.committed <==> sink.streaming) && (sink.committed <==> es != [])
    && sink.sent == Joined(es) && (es != [] ==> sink.flushed == |sink.sent| && es[|es| - 1].kind == Chunk)
  }

  lemma InStepIsSafe(sink: ResponseSink, es: seq<WireEvent>, now: seq<WireEvent>)
    requires InStep(sink, es) && (now == es || exists e :: now == es + [e])
    ensures Transcript(sink, now) && DoneWithheld(sink, now)
  {
    hide Joined;
    if es == [] {
      EmptyJoin();
    }
    if now != es {
      var e :| now == es + [e];
      JoinedSnoc(es, e);
      assert (es + [e])[..|es|] == es;
    }
  }

  lemma EmptyJoin()
    ensures Joined([]) == []
  {
  }

  /** A chunk that was handed to the writer, whole or in part. */
  lemma ChunkWritten(es: seq<WireEvent>, e: WireEvent, sent: seq<byte>)
    requires Joined(es) <= sent <= Joined(es) + e.body && e.kind == Chunk
    ensures sent <= Joined(es + [e]) && ChunksOnly(es + [e]) == es + [e]
  {
    JoinedSnoc(es, e);
  }

  /** The final state of the relay: what its guarantees are about. */
  ghost predicate Relayed(sink: ResponseSink, decoder: SSEDecoder, body: Body, outcome: Outcome)
    reads sink, decoder, decoder.reader, body
  {
    && decoder.Valid()
    && Transcript(sink, decoder.returned)
    && ((decoder.state == VerifiedState && body.closedCleanly) || DoneWithheld(sink, decoder.returned))
    && (outcome == ServedCompletely ==>
          && decoder.state == VerifiedState && decoder.reader.clean && body.closedCleanly
          && sink.streaming && sink.sent == decoder.reader.wire && sink.flushed == |sink.sent|)
    && (outcome == DownstreamFault ==> sink.failed)
  }

  /** The wire is one whole stream: accepted events up to a terminal one, and nothing else. */
  ghost predicate CompleteWire(decoder: SSEDecoder) {
    var all := decoder.All();
    && all != [] && all[|all| - 1].kind == Done
    && Joined(all) == decoder.reader.wire && decoder.reader.clean
  }

  /**
   * What the relay saw go wrong: the context of an event or of the end of file ended
   * before it was stopped, the deadline of the failing step had passed, or the body did
   * not close cleanly.
   */
  datatype Seen = Seen(late: bool, expired: bool, unclosed: bool)

  /**
   * Every way of ending has its cause: a cancellation the end of the request or the
   * permit, a downstream failure a failed write, and an upstream failure the deadline,
   * the idle timer, something else seen, or a wire that is no whole stream.
   */
  ghost predicate Explained(sink: ResponseSink, x: Exchange, timer: Context, decoder: SSEDecoder, outcome: Outcome,
                            seen: Seen)
    reads sink, x.request, x.permit, x.upstream, timer
  {
    && outcome != InternalFault
    && (outcome == ServedCompletely ==> !Ended(x) && !timer.done)
    && (outcome == ServingCanceled ==> x.request.done || x.permit.done)
    && (outcome == DownstreamFault ==> sink.failed)
    && (outcome == UpstreamFault ==>
          && !x.request.done && !x.permit.done
          && (Ended(x) || timer.done || seen.late || seen.unclosed || !CompleteWire(decoder)))
    && (outcome != ServedCompletely ==>
          Replied(sink, x, outcome, FailureDocument(seen.expired || timer.done)))
  }

  /** A whole stream with nothing in its way is completed. */
  lemma FaultlessCompletes(sink: ResponseSink, x: Exchange, timer: Context, decoder: SSEDecoder, outcome: Outcome,
                           seen: Seen)
    requires Explained(sink, x, timer, decoder, outcome, seen)
    requires CompleteWire(decoder) && !Ended(x) && !timer.done && !sink.failed && !seen.late && !seen.unclosed
    ensures outcome == ServedCompletely
  {
  }

  /** What the grammar does not accept next makes the wire no whole stream. */
  lemma RejectedIsIncomplete(decoder: SSEDecoder)
    requires decoder.Valid() && decoder.state == Open && !decoder.Pending().Accept?
    ensures !CompleteWire(decoder)
  {
    hide NextVerdict, Joined, Genuine;
    var rest := decoder.reader.wire[decoder.consumed..];
    assert Decoded(decoder.limits, decoder.judge, rest, decoder.reader.clean, decoder.consumed, |decoder.returned|)
      == [];
    assert decoder.All() == decoder.returned;
  }

  /** Neither does a wire that goes on after its terminal event, or that breaks off. */
  lemma UnverifiedIsIncomplete(decoder: SSEDecoder)
    requires decoder.Valid() && decoder.state == DoneReturned
    requires decoder.Unread() != [] || !decoder.reader.clean
    ensures !CompleteWire(decoder)
  {
    hide NextVerdict, Joined, Genuine, Decoded;
    assert Joined(decoder.returned) == decoder.reader.wire[..decoder.consumed];
  }

  /**
   * Validates and flushes one event at a time. The terminal event is sent only after
   * the end of file was verified and the body closed without error, and completion is
   * reported only when the whole verified stream was written and flushed.
   */
  method RelaySSE(sink: ResponseSink, x: Exchange, body: Body, upstream: seq<byte>, clean: bool, limits: SSELimits,
                  tokenizer: Tokenizer)
    returns (outcome: Outcome, decoder: SSEDecoder?, ghost timer: Context, ghost seen: Seen)
    requires Apart(x)
    requires !sink.committed && !sink.streaming && sink.sent == [] && !sink.failed && !body.closedCleanly
    modifies sink, body, x.request, x.permit, x.upstream
    ensures decoder == null <==> !ValidateSSELimits(limits)
    ensures decoder == null ==>
      && !sink.streaming && sink.committed && PartOf(sink.document, [], sink.sent, InternalError)
      && ((outcome == InternalFault && sink.sent == sink.document(InternalError))
          || (outcome == DownstreamFault && sink.failed))
    ensures decoder != null ==>
      && Relayed(sink, decoder, body, outcome) && Explained(sink, x, timer, decoder, outcome, seen)
      && (old(Ended(x)) ==> !sink.streaming)
      && decoder.limits == limits && decoder.tokenizer == tokenizer
      && decoder.reader.wire == (if |upstream| > limits.maxTotal then upstream[..limits.maxTotal + 1] else upstream)
      && decoder.reader.clean == (|upstream| > limits.maxTotal || clean)
    ensures outcome == ServedCompletely ==> sink.sent == upstream && clean
  {
    seen := Seen(false, false, false);
    var idle := new Context();
    timer := idle;
    if !ValidateSSELimits(limits) {
      var ok := sink.WriteError(InternalError);
      return if ok then InternalFault else DownstreamFault, null, idle, seen;
    }
    var d := new SSEDecoder(upstream, clean, limits, tokenizer);
    decoder := d;
    EmptyJoin();
    outcome, seen := RelayEvents(sink, x, idle, body, d);
    if outcome == ServedCompletely {
      WholeUpstream(sink, d, body, upstream, clean);
    }
  }

  /** A verified stream was not cut off at the limit. */
  lemma WholeUpstream(sink: ResponseSink, d: SSEDecoder, body: Body, upstream: seq<byte>, clean: bool)
    requires Relayed(sink, d, body, ServedCompletely)
    requires d.reader.wire == (if |upstream| > d.limits.maxTotal then upstream[..d.limits.maxTotal + 1] else upstream)
    requires d.reader.clean == (|upstream| > d.limits.maxTotal || clean)
    ensures d.reader.wire == upstream && clean
  {
    hide Genuine, Joined, Decoded;
  }

  /** The relay loop; `timer` is done once the idle timer of the reader has fired. */
  method RelayEvents(sink: ResponseSink, x: Exchange, timer: Context, body: Body, decoder: SSEDecoder)
    returns (outcome: Outcome, ghost seen: Seen)
    requires Apart(x) && timer != x.request && timer != x.permit && timer != x.upstream
    requires decoder.Valid() && decoder.state == Open && decoder.returned == [] && InStep(sink, []) && !sink.failed
    modifies sink, body, decoder, decoder.reader, x.request, x.permit, x.upstream, timer
    ensures Relayed(sink, decoder, body, outcome) && Explained(sink, x, timer, decoder, outcome, seen)
    ensures old(Ended(x) || timer.done) ==> !sink.streaming
  {
    hide decoder.Valid, Joined, InStep, Relayed, Explained;
    InStepIsUntouched(sink, []);
    NothingBegun(sink);
    outcome, seen := InternalFault, Seen(false, false, false);
    var done := false;
    while !done
      invariant !done ==> decoder.Valid() && decoder.state == Open && InStep(sink, decoder.returned) && !sink.failed
      invariant old(Ended(x) || timer.done) ==> Ended(x) || timer.done
      invariant old(Ended(x) || timer.done) ==> !sink.streaming
      invariant done ==> Relayed(sink, decoder, body, outcome) && Explained(sink, x, timer, decoder, outcome, seen)
      decreases !done, |decoder.reader.wire| - decoder.consumed
    {
      done, outcome, seen := RelayOne(sink, x, timer, body, decoder);
    }
  }

  lemma NothingBegun(sink: ResponseSink)
    requires InStep(sink, [])
    ensures !sink.streaming
  {
  }

  /** A relay that ends without the terminal event has kept its guarantees. */
  lemma OverWithout(sink: ResponseSink, x: Exchange, timer: Context, body: Body, decoder: SSEDecoder, outcome: Outcome,
                    seen: Seen)
    requires decoder.Valid() && Transcript(sink, decoder.returned) && DoneWithheld(sink, decoder.returned)
    requires Replied(sink, x, outcome, FailureDocument(seen.expired || timer.done))
    requires outcome == DownstreamFault ==> sink.failed
    requires outcome != DownstreamFault ==>
      outcome == (if x.request.done || x.permit.done then ServingCanceled else UpstreamFault)
    requires outcome != DownstreamFault ==>
      Ended(x) || timer.done || seen.late || seen.unclosed || !CompleteWire(decoder)
    ensures Relayed(sink, decoder, body, outcome) && Explained(sink, x, timer, decoder, outcome, seen)
  {
    hide decoder.Valid, Transcript, DoneWithheld, Replied, CompleteWire, FailureDocument;
  }

  /** One round of the loop: an event is relayed, or the relay is over. */
  method RelayOne(sink: ResponseSink, x: Exchange, timer: Context, body: Body, decoder: SSEDecoder)
    returns (done: bool, outcome: Outcome, ghost seen: Seen)
    requires Apart(x) && timer != x.request && timer != x.permit && timer != x.upstream
    requires decoder.Valid() && decoder.state == Open && InStep(sink, decoder.returned) && !sink.failed
    modifies sink, body, decoder, decoder.reader, x.request, x.permit, x.upstream, timer
    ensures Lasting(x) && (old(timer.done) ==> timer.done)
    ensures old(Ended(x) || timer.done) ==> done && sink.streaming == old(sink.streaming)
    ensures done ==> Relayed(sink, decoder, body, outcome) && Explained(sink, x, timer, decoder, outcome, seen)
    ensures !done ==>
      && decoder.Valid() && decoder.state == Open && InStep(sink, decoder.returned) && !sink.failed
      && old(decoder.consumed) < decoder.consumed <= |decoder.reader.wire|
  {
    hide decoder.Valid, Joined, Transcript, DoneWithheld, InStep, CompleteWire, Replied, FailureDocument, Relayed,
      Explained;
    done, outcome, seen := true, InternalFault, Seen(false, false, false);
    ghost var es := decoder.returned;
    ReaderOk(decoder);
    ghost var accepted := decoder.Pending().Accept?;
    if !accepted {
      RejectedIsIncomplete(decoder);
    }
    var event, timedOut;
    ghost var own, stopped;
    event, timedOut, own, stopped := NextSSEEvent(decoder, x.upstream);
    Bounded(decoder);
    InStepIsSafe(sink, es, decoder.returned);
    InStepIsUntouched(sink, es);
    if event.None? {
      var idle := timer.Err();
      seen := Seen(!stopped, timedOut, false);
      outcome := FinishSSEFailure(sink, x, timedOut || idle, decoder.returned);
      OverWithout(sink, x, timer, body, decoder, outcome, seen);
      return;
    }
    var idle := timer.Err();
    if idle {
      outcome := FinishSSEFailure(sink, x, true, decoder.returned);
      OverWithout(sink, x, timer, body, decoder, outcome, seen);
      return;
    }
    done, outcome, seen := RelayAccepted(sink, x, timer, body, decoder, es, event.value);
  }

  /** The event that was received: it is passed on, or it ends the relay. */
  method RelayAccepted(sink: ResponseSink, x: Exchange, timer: Context, body: Body, decoder: SSEDecoder,
                       ghost es: seq<WireEvent>, e: WireEvent)
    returns (done: bool, outcome: Outcome, ghost seen: Seen)
    requires Apart(x) && timer != x.request && timer != x.permit && timer != x.upstream
    requires decoder.Valid() && decoder.returned == es + [e] && InStep(sink, es) && !sink.failed && !timer.done
    requires decoder.state == if e.kind == Done then DoneReturned else Open
    requires Transcript(sink, decoder.returned) && DoneWithheld(sink, decoder.returned)
    modifies sink, body, decoder, decoder.reader, x.request, x.permit, x.upstream, timer
    ensures Lasting(x)
    ensures old(Ended(x)) ==> done && sink.streaming == old(sink.streaming)
    ensures done ==> Relayed(sink, decoder, body, outcome) && Explained(sink, x, timer, decoder, outcome, seen)
    ensures !done ==>
      && decoder.Valid() && decoder.state == Open && InStep(sink, decoder.returned) && !sink.failed
      && decoder.consumed == old(decoder.consumed)
  {
    hide decoder.Valid, Joined, Transcript, DoneWithheld, InStep, CompleteWire, Replied, FailureDocument, Relayed,
      Explained;
    done, seen := true, Seen(false, false, false);
    InStepIsUntouched(sink, es);
    var handled;
    outcome, handled := Interrupted(sink, x, decoder.returned, es, BadUpstream);
    if handled {
      FailureDocumentIs(seen, timer);
      OverWithout(sink, x, timer, body, decoder, outcome, seen);
      return;
    }
    if e.kind == Done {
      outcome, seen := FinishStream(sink, x, timer, body, decoder, es, e);
      return;
    }
    var ok := SendChunk(sink, es, e);
    if !ok {
      outcome := DownstreamFault;
      WriteIsNoReply(sink, x, timer, seen);
      OverWithout(sink, x, timer, body, decoder, outcome, seen);
      return;
    }
    done := false;
  }

  lemma FailureDocumentIs(seen: Seen, timer: Context)
    requires !seen.expired && !timer.done
    ensures FailureDocument(seen.expired || timer.done) == BadUpstream
  {
  }

  lemma InStepIsUntouched(sink: ResponseSink, es: seq<WireEvent>)
    requires InStep(sink, es)
    ensures Untouched(sink)
  {
    hide Joined;
    EmptyJoin();
  }

  /** What a failed write leaves is a stream or nothing. */
  lemma WriteIsNoReply(sink: ResponseSink, x: Exchange, timer: Context, seen: Seen)
    requires Untouched(sink)
    ensures Replied(sink, x, DownstreamFault, FailureDocument(seen.expired || timer.done))
  {
  }

  lemma Bounded(decoder: SSEDecoder)
    requires decoder.Valid()
    ensures decoder.consumed <= |decoder.reader.wire|
  {
  }

  /** The context check between two events keeps the transcript. */
  method Interrupted(sink: ResponseSink, x: Exchange, ghost es: seq<WireEvent>, ghost before: seq<WireEvent>,
                     ghost otherwise: PublicError)
    returns (outcome: Outcome, handled: bool)
    requires Apart(x) && Transcript(sink, es) && DoneWithheld(sink, es) && InStep(sink, before)
    modifies sink, x.request, x.permit, x.upstream
    ensures Transcript(sink, es) && DoneWithheld(sink, es)
    ensures !handled ==> InStep(sink, before)
    ensures Lasting(x) && sink.streaming == old(sink.streaming)
    ensures handled <==> Ended(x)
    ensures handled ==> Replied(sink, x, outcome, otherwise)
    ensures handled && (x.request.done || x.permit.done) ==> outcome == ServingCanceled
    ensures handled && !x.request.done && !x.permit.done ==>
      outcome == UpstreamFault || (outcome == DownstreamFault && sink.failed)
    ensures !handled ==>
      && sink.committed == old(sink.committed) && sink.sent == old(sink.sent) && sink.failed == old(sink.failed)
      && sink.streaming == old(sink.streaming) && sink.flushed == old(sink.flushed)
  {
    hide Joined, ChunksOnly;
    InStepIsUntouched(sink, before);
    outcome, handled := HandleUpstreamContext(sink, x);
  }

  method SendChunk(sink: ResponseSink, ghost es: seq<WireEvent>, e: WireEvent) returns (ok: bool)
    requires InStep(sink, es) && e.kind == Chunk && !sink.failed
    modifies sink
    ensures ok ==> InStep(sink, es + [e]) && !sink.failed
    ensures !ok ==> sink.failed && Transcript(sink, es + [e]) && DoneWithheld(sink, es + [e]) && Untouched(sink)
  {
    hide Joined;
    ok := sink.WriteSSEEvent(e.body);
    ChunkWritten(es, e, sink.sent);
    JoinedSnoc(es, e);
    EmptyJoin();
  }

  /** Verifies the end, closes the body, and only then sends the terminal event. */
  method FinishStream(sink: ResponseSink, x: Exchange, timer: Context, body: Body, decoder: SSEDecoder,
                      ghost es: seq<WireEvent>, e: WireEvent)
    returns (outcome: Outcome, ghost seen: Seen)
    requires Apart(x) && timer != x.request && timer != x.permit && timer != x.upstream
    requires decoder.Valid() && decoder.state == DoneReturned && decoder.returned == es + [e] && e.kind == Done
    requires InStep(sink, es) && !sink.failed
    modifies sink, body, decoder, decoder.reader, x.request, x.permit, x.upstream, timer
    ensures Relayed(sink, decoder, body, outcome) && Explained(sink, x, timer, decoder, outcome, seen)
    ensures Lasting(x)
    ensures old(Ended(x) || timer.done) ==> sink.streaming == old(sink.streaming)
  {
    hide decoder.Valid, Joined, Transcript, DoneWithheld, InStep, CompleteWire, Replied, FailureDocument, Relayed,
      Explained;
    ghost var all := decoder.returned;
    InStepIsSafe(sink, es, all);
    InStepIsUntouched(sink, es);
    ReaderOk(decoder);
    ghost var unverifiable := decoder.Unread() != [] || !decoder.reader.clean;
    if unverifiable {
      UnverifiedIsIncomplete(decoder);
    }
    seen := Seen(false, false, false);
    var verified, timedOut;
    ghost var own, stopped;
    verified, timedOut, own, stopped := VerifySSEEOF(decoder, x.upstream);
    if !verified {
      var idle := timer.Err();
      seen := Seen(!stopped, timedOut, false);
      outcome := FinishSSEFailure(sink, x, timedOut || idle, all);
      OverWithout(sink, x, timer, body, decoder, outcome, seen);
      return;
    }
    var idle := timer.Err();
    if idle {
      seen := Seen(false, timedOut, false);
      outcome := FinishSSEFailure(sink, x, true, all);
      OverWithout(sink, x, timer, body, decoder, outcome, seen);
      return;
    }
    var closed := body.Close();
    if !closed {
      seen := Seen(false, false, true);
      outcome := FinishSSEFailure(sink, x, false, all);
      OverWithout(sink, x, timer, body, decoder, outcome, seen);
      return;
    }
    var handled;
    outcome, handled := Interrupted(sink, x, all, es, BadUpstream);
    if handled {
      FailureDocumentIs(seen, timer);
      OverWithout(sink, x, timer, body, decoder, outcome, seen);
      return;
    }
    outcome := SendDone(sink, es, e);
    if outcome == DownstreamFault {
      WriteIsNoReply(sink, x, timer, seen);
    }
    OverWithDone(sink, x, timer, body, decoder, outcome, seen);
  }

  /** Nor does it lose them in sending the terminal event of a verified stream. */
  lemma OverWithDone(sink: ResponseSink, x: Exchange, timer: Context, body: Body, decoder: SSEDecoder, outcome: Outcome,
                     seen: Seen)
    requires decoder.Valid() && Transcript(sink, decoder.returned)
    requires decoder.state == VerifiedState && decoder.reader.clean && body.closedCleanly && !Ended(x) && !timer.done
    requires outcome == ServedCompletely || (outcome == DownstreamFault && sink.failed)
    requires outcome == ServedCompletely ==>
      sink.streaming && sink.sent == decoder.reader.wire && sink.flushed == |sink.sent|
    requires outcome == DownstreamFault ==> Replied(sink, x, outcome, FailureDocument(seen.expired || timer.done))
    ensures Relayed(sink, decoder, body, outcome) && Explained(sink, x, timer, decoder, outcome, seen)
  {
    hide decoder.Valid, Transcript, DoneWithheld, Replied, CompleteWire, FailureDocument;
  }

  method SendDone(sink: ResponseSink, ghost es: seq<WireEvent>, e: WireEvent) returns (outcome: Outcome)
    requires InStep(sink, es) && !sink.failed
    modifies sink
    ensures outcome == ServedCompletely || (outcome == DownstreamFault && sink.failed)
    ensures outcome == ServedCompletely ==>
      sink.streaming && sink.sent == Joined(es + [e]) && sink.flushed == |sink.sent| && !sink.failed
    ensures Transcript(sink, es + [e]) && Untouched(sink)
  {
    hide Joined;
    var ok := sink.WriteSSEEvent(e.body);
    JoinedSnoc(es, e);
    EmptyJoin();
    outcome := if ok then ServedCompletely else DownstreamFault;
  }

  /**
   * A client of a completed relay reads one message for each chunk and then the
   * terminal marker, each with the payload that was validated.
   */
  lemma CompletedClientView(sink: ResponseSink, decoder: SSEDecoder, body: Body) returns (payloads: seq<seq<byte>>)
    requires Relayed(sink, decoder, body, ServedCompletely)
    ensures Messages(sink.sent) == Plain(payloads)
    ensures |payloads| >= 2 && payloads[|payloads| - 1] == DoneMarker()
    ensures forall i :: 0 <= i < |payloads| - 1 ==>
      payloads[i] != DoneMarker() && ChunkDocument(decoder.tokenizer(payloads[i]))
  {
    hide Messages, Plain, Genuine, PayloadsOf, ChunkReason, DoneMarker, Decoded, StrictEvent;
    payloads := GenuinePayloads(decoder.limits, decoder.judge, decoder.returned);
    SameLength(decoder.returned, payloads);
    ClientSeesPayloads(decoder.returned, payloads);
    assert decoder.reader.wire[..decoder.consumed] == decoder.reader.wire;
    forall i | 0 <= i < |payloads| - 1 ensures ChunkDocument(decoder.tokenizer(payloads[i])) {
      assert ChunkReason(decoder.judge, payloads[i]).None?;
      PassedChunk(decoder.tokenizer, payloads[i]);
    }
  }

  lemma PassedChunk(tokenizer: Tokenizer, payload: seq<byte>)
    requires ChunkReason(JudgeOf(tokenizer), payload).None?
    ensures ChunkDocument(tokenizer(payload))
  {
    hide ChunkTokensReason, ChunkDocument;
    ChunkAcceptedExactly(tokenizer(payload));
  }
}
