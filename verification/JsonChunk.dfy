/**
 * The object check of a chunk, after the document scan: the payload is one object
 * whose `object` field is the expected string.
 */
module JsonChunk {
  import opened Prelude
  import opened Bytes
  import opened JsonScan
  import opened SseGrammar

  const OBJECT_KEY: string := "object"
  const CHUNK_OBJECT: string := "chat.completion.chunk"

  /** The JSON decoder's view of a payload. */
  type Tokenizer = seq<byte> -> TokenStream

  function SSEReasonFromJSON(reason: JSONReason): (r: SSEReason) {
    match reason
    case TrailingDocument => TrailingJSON
    case RepeatedKey => DuplicateKey
    case TooDeep => NestingLimit
    case MalformedDocument => MalformedJSON
  }

  function ScanFields(ts: seq<Token>, objectSet: bool, garbage: bool): (reason: Option<SSEReason>)
    decreases |ts|
  {
    if ts == [] then Some(MalformedJSON)
    else if Closing(ts[0]) then
      if ts[0] != CloseObject then Some(MalformedJSON) else if objectSet then None else Some(MissingObject)
    else if !ts[0].StringToken? then Some(MalformedJSON)
    else if ts[0].text == OBJECT_KEY then
      if |ts| == 1 then Some(MalformedJSON)
      else if !ts[1].StringToken? then Some(WrongObjectType)
      else if ts[1].text != CHUNK_OBJECT then Some(UnsupportedObject)
      else ScanFields(ts[2..], true, garbage)
    else
      var value := ScanValue(ts[1..], garbage, 2, MAX_JSON_DEPTH);
      if value.Refused? then Some(SSEReasonFromJSON(value.reason)) else ScanFields(value.tokens, objectSet, garbage)
  }

  function ObjectReason(stream: TokenStream): (reason: Option<SSEReason>) {
    if stream.tokens == [] then Some(MalformedJSON)
    else if stream.tokens[0] != OpenObject then Some(RootNotObject)
    else ScanFields(stream.tokens[1..], false, stream.garbage)
  }

  /** The document scan and then the object check. */
  function ChunkTokensReason(stream: TokenStream): (reason: Option<SSEReason>) {
    var document := DocumentReason(stream, MAX_JSON_DEPTH);
    if document.Some? then Some(SSEReasonFromJSON(document.value)) else ObjectReason(stream)
  }

  /** The judge that a decoder with this tokenizer is. */
  function JudgeOf(tokenizer: Tokenizer): (r: Judge) {
    payload => ChunkTokensReason(tokenizer(payload))
  }

  /** The value of the type field; any other string or token is refused. */
  method ReadObjectType(d: TokenDecoder) returns (reason: Option<SSEReason>)
    requires d.pos <= |d.stream.tokens|
    modifies d`pos, d.ctx
    ensures old(d.pos) <= d.pos <= |d.stream.tokens| && (old(d.ctx.done) ==> d.ctx.done)
    ensures !d.ctx.done ==>
      var ahead := old(d.Ahead());
      if ahead == [] then reason == Some(MalformedJSON)
      else if !ahead[0].StringToken? then reason == Some(WrongObjectType)
      else if ahead[0].text != CHUNK_OBJECT then reason == Some(UnsupportedObject)
      else reason.None? && d.Ahead() == ahead[1..]
  {
    var value, _ := d.Token();
    if value.None? {
      return Some(MalformedJSON);
    }
    if !value.value.StringToken? {
      return Some(WrongObjectType);
    }
    reason := if value.value.text != CHUNK_OBJECT then Some(UnsupportedObject) else None;
  }

  /** One field: its key, and its value if the key has passed. */
  method ReadField(d: TokenDecoder, before: bool) returns (reason: Option<SSEReason>, objectSet: bool)
    requires d.pos <= |d.stream.tokens|
    modifies d`pos, d.ctx
    ensures old(d.pos) <= d.pos <= |d.stream.tokens| && (old(d.ctx.done) ==> d.ctx.done)
    ensures reason.None? ==> d.pos > old(d.pos)
    ensures !d.ctx.done && (old(d.Ahead()) == [] || !Closing(old(d.Ahead())[0])) ==>
      ScanFields(old(d.Ahead()), before, d.stream.garbage)
      == if reason.Some? then reason else ScanFields(d.Ahead(), objectSet, d.stream.garbage)
  {
    hide ScanValue;
    objectSet := before;
    var key, _ := d.Token();
    if key.None? || !key.value.StringToken? {
      return Some(MalformedJSON), before;
    }
    if key.value.text == OBJECT_KEY {
      reason := ReadObjectType(d);
      objectSet := true;
    } else {
      var refused := ScanJSONValue(d, 2, MAX_JSON_DEPTH);
      reason := if refused.Some? then Some(SSEReasonFromJSON(refused.value)) else None;
    }
  }

  method ValidateSSEChunkObject(ctx: Context, stream: TokenStream) returns (reason: Option<SSEReason>)
    modifies ctx
    ensures old(ctx.done) ==> ctx.done
    ensures !ctx.done ==> reason == ObjectReason(stream)
  {
    hide ScanValue;
    var d := new TokenDecoder(ctx, stream);
    var opening, _ := d.Token();
    if opening.None? {
      return Some(MalformedJSON);
    }
    if opening.value != OpenObject {
      return Some(RootNotObject);
    }
    reason := ReadFields(d);
  }

  method ReadFields(d: TokenDecoder) returns (reason: Option<SSEReason>)
    requires d.pos <= |d.stream.tokens|
    modifies d`pos, d.ctx
    ensures old(d.ctx.done) ==> d.ctx.done
    ensures !d.ctx.done ==> reason == ScanFields(old(d.Ahead()), false, d.stream.garbage)
  {
    var objectSet := false;
    var more := d.More();
    while more
      invariant d.pos <= |d.stream.tokens| && (old(d.ctx.done) ==> d.ctx.done)
      invariant !d.ctx.done ==>
        ScanFields(old(d.Ahead()), false, d.stream.garbage) == ScanFields(d.Ahead(), objectSet, d.stream.garbage)
      invariant !d.ctx.done ==> more == if d.Ahead() == [] then d.stream.garbage else !Closing(d.Ahead()[0])
      decreases |d.stream.tokens| - d.pos, more
    {
      hide ScanFields;
      reason, objectSet := ReadField(d, objectSet);
      if reason.Some? {
        return;
      }
      more := d.More();
    }
    var closing, _ := d.Token();
    if closing != Some(CloseObject) {
      return Some(MalformedJSON);
    }
    reason := if objectSet then None else Some(MissingObject);
  }

  /** The JSON part of the validation of a chunk; a canceled context is found by the caller. */
  method ValidateChunkJSON(ctx: Context, stream: TokenStream) returns (reason: Option<SSEReason>)
    modifies ctx
    ensures old(ctx.done) ==> ctx.done
    ensures !ctx.done ==> reason == ChunkTokensReason(stream)
  {
    var document := ValidateJSONDocument(ctx, stream, MAX_JSON_DEPTH);
    if document.Some? {
      var canceled := ctx.Err();
      return if canceled then None else Some(SSEReasonFromJSON(document.value));
    }
    reason := ValidateSSEChunkObject(ctx, stream);
  }

  // ---------------------------------------------------------------------
  // What is accepted, in terms of values
  // ---------------------------------------------------------------------

  function FindMember(members: seq<Member>, key: string): (value: Option<Json>)
    ensures value.Some? ==> Member(key, value.value) in members
    ensures value.None? ==> forall m :: m in members ==> m.key != key
  {
    if members == [] then None
    else if members[0].key == key then Some(members[0].value)
    else FindMember(members[1..], key)
  }

  /** The verdict on the `object` field of a value. */
  function FieldReason(field: Option<Json>): (reason: Option<SSEReason>) {
    match field
    case None => Some(MissingObject)
    case Some(Text(text)) => if text == CHUNK_OBJECT then None else Some(UnsupportedObject)
    case Some(_) => Some(WrongObjectType)
  }

  /** An object with exactly one type field, of the expected type. */
  predicate ChunkObject(v: Json) {
    v.Object? && Member(OBJECT_KEY, Text(CHUNK_OBJECT)) in v.members
  }

  /** One clean document whose value is good and of the expected type. */
  ghost predicate ChunkDocument(stream: TokenStream) {
    stream.clean && exists v :: stream.tokens == Tokens(v) && Good(v, 1, 32) && ChunkObject(v)
  }

  lemma TypeField(key: string, value: Json, rest: seq<Token>, objectSet: bool, garbage: bool)
    requires key == OBJECT_KEY
    ensures ScanFields([StringToken(key)] + (Tokens(value) + rest), objectSet, garbage)
         == if FieldReason(Some(value)).Some? then FieldReason(Some(value)) else ScanFields(rest, true, garbage)
  {
    var ts := [StringToken(key)] + (Tokens(value) + rest);
    assert ts[1..] == Tokens(value) + rest;
    assert ts[1] == Tokens(value)[0];
    if value.Text? {
      assert ts[2..] == rest;
    }
  }

  lemma OtherField(key: string, value: Json, rest: seq<Token>, objectSet: bool, garbage: bool)
    requires key != OBJECT_KEY && Good(value, 2, MAX_JSON_DEPTH)
    ensures ScanFields([StringToken(key)] + (Tokens(value) + rest), objectSet, garbage)
      == ScanFields(rest, objectSet, garbage)
  {
    hide Tokens, ScanValue, Good;
    var ts := [StringToken(key)] + (Tokens(value) + rest);
    assert ts[1..] == Tokens(value) + rest;
    ScanOfTokens(value, rest, garbage, 2, MAX_JSON_DEPTH);
  }

  lemma {:induction false} FieldsOfMembers(members: seq<Member>, objectSet: bool, garbage: bool)
    requires forall i :: 0 <= i < |members| ==> Good(members[i].value, 2, MAX_JSON_DEPTH)
    requires forall i, j :: 0 <= i < j < |members| ==> members[i].key != members[j].key
    requires objectSet ==> FindMember(members, OBJECT_KEY).None?
    ensures ScanFields(MemberTokens(members) + [CloseObject], objectSet, garbage)
         == if objectSet then None else FieldReason(FindMember(members, OBJECT_KEY))
  {
    hide Tokens, ScanValue, Good;
    if members != [] {
      var m, rest := members[0], members[1..];
      var ts := MemberTokens(rest) + [CloseObject];
      assert MemberTokens(members) + [CloseObject] == [StringToken(m.key)] + (Tokens(m.value) + ts);
      if m.key == OBJECT_KEY {
        hide ScanFields, FieldReason;
        TypeField(m.key, m.value, ts, objectSet, garbage);
        OnlyOne(members);
        FieldsOfMembers(rest, true, garbage);
      } else {
        hide ScanFields;
        OtherField(m.key, m.value, ts, objectSet, garbage);
        FieldsOfMembers(rest, objectSet, garbage);
      }
    } else {
      assert MemberTokens(members) + [CloseObject] == [CloseObject];
    }
  }

  lemma OnlyOne(members: seq<Member>)
    requires members != [] && members[0].key == OBJECT_KEY
    requires forall i, j :: 0 <= i < j < |members| ==> members[i].key != members[j].key
    ensures FindMember(members[1..], OBJECT_KEY).None?
  {
  }

  /** For a good value the object check finds what its type field says. */
  lemma ObjectReasonOfValue(v: Json, stream: TokenStream)
    requires stream.tokens == Tokens(v) && Good(v, 1, MAX_JSON_DEPTH)
    ensures ObjectReason(stream)
      == if v.Object? then FieldReason(FindMember(v.members, OBJECT_KEY)) else Some(RootNotObject)
  {
    hide ScanFields, FieldReason, FindMember;
    if v.Object? {
      assert Tokens(v)[1..] == MemberTokens(v.members) + [CloseObject];
      FieldsOfMembers(v.members, false, stream.garbage);
    }
  }

  lemma {:induction false} TypeFieldExactly(members: seq<Member>)
    requires forall i, j :: 0 <= i < j < |members| ==> members[i].key != members[j].key
    ensures FieldReason(FindMember(members, OBJECT_KEY)).None? <==> Member(OBJECT_KEY, Text(CHUNK_OBJECT)) in members
  {
    if members != [] {
      var rest := members[1..];
      assert forall m :: m in members <==> m == members[0] || m in rest;
      if members[0].key == OBJECT_KEY {
        OnlyOne(members);
      } else {
        TypeFieldExactly(rest);
      }
    }
  }

  /** Every refusal of a clean document that begins with a value has its own name. */
  lemma RefusalsAreNamed(v: Json, rest: seq<Token>, stream: TokenStream)
    requires stream.tokens == Tokens(v) + rest && stream.clean
    ensures var reason := ChunkTokensReason(stream);
      if !Good(v, 1, 32) then
        || (reason == Some(NestingLimit) && !Nested(v, 1, 32))
        || (reason == Some(DuplicateKey) && !UniqueKeys(v))
      else if rest != [] then reason == Some(TrailingJSON)
      else if !v.Object? then reason == Some(RootNotObject)
      else
        && (reason == Some(MissingObject) <==> forall m :: m in v.members ==> m.key != "object")
        && (reason == Some(WrongObjectType) <==> exists m :: m in v.members && m.key == "object" && !m.value.Text?)
        && (reason == Some(UnsupportedObject) <==>
              exists m :: m in v.members && m.key == "object" && m.value.Text?
                && m.value.text != "chat.completion.chunk")
        && (reason.None? <==> Member("object", Text("chat.completion.chunk")) in v.members)
  {
    hide ScanValue, ScanFields, Tokens, ObjectReason, Nested, UniqueKeys, Good;
    ScanOfTokens(v, rest, stream.garbage, 1, MAX_JSON_DEPTH);
    if Good(v, 1, MAX_JSON_DEPTH) && rest == [] {
      assert stream.tokens == Tokens(v);
      ObjectReasonOfValue(v, stream);
      if v.Object? {
        DistinctKeys(v);
        FieldNames(v.members);
      }
    }
  }

  lemma DistinctKeys(v: Json)
    requires v.Object? && Good(v, 1, MAX_JSON_DEPTH)
    ensures forall i, j :: 0 <= i < j < |v.members| ==> v.members[i].key != v.members[j].key
  {
  }

  /** What the type field is called when it is not as it should be. */
  lemma FieldNames(members: seq<Member>)
    requires forall i, j :: 0 <= i < j < |members| ==> members[i].key != members[j].key
    ensures var reason := FieldReason(FindMember(members, OBJECT_KEY));
      && (reason == Some(MissingObject) <==> forall m :: m in members ==> m.key != "object")
      && (reason == Some(WrongObjectType) <==> exists m :: m in members && m.key == "object" && !m.value.Text?)
      && (reason == Some(UnsupportedObject) <==>
            exists m :: m in members && m.key == "object" && m.value.Text? && m.value.text != "chat.completion.chunk")
      && (reason.None? <==> Member("object", Text("chat.completion.chunk")) in members)
  {
    hide FindMember;
    TypeFieldExactly(members);
    var found := FindMember(members, OBJECT_KEY);
    if found.Some? {
      var mine := Member(OBJECT_KEY, found.value);
      forall m | m in members && m.key == OBJECT_KEY ensures m == mine {
        var i :| 0 <= i < |members| && members[i] == m;
        var j :| 0 <= j < |members| && members[j] == mine;
      }
    }
  }

  /**
   * A payload passes exactly when it is one JSON value, nested within the limit and
   * without repeated keys, that is an object of the expected type.
   */
  lemma ChunkAcceptedExactly(stream: TokenStream)
    ensures ChunkTokensReason(stream).None? <==> ChunkDocument(stream)
  {
    hide ScanValue, ScanFields, Tokens, ObjectReason, DocumentReason, Nested, FieldReason;
    DocumentAcceptedExactly(stream, MAX_JSON_DEPTH);
    forall v | stream.tokens == Tokens(v) && Good(v, 1, MAX_JSON_DEPTH)
      ensures ObjectReason(stream).None? <==> ChunkObject(v)
    {
      ObjectReasonOfValue(v, stream);
      if v.Object? {
        TypeFieldExactly(v.members);
      }
    }
  }
}
