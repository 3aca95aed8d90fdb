/**
 * The JSON checks of a chunk. The JSON decoder is a source of tokens; what is proved is
 * that the scan accepts exactly the token sequences of one value whose nesting is
 * within the limit and whose objects repeat no key, and that a chunk is accepted
 * exactly when that value is an object of the expected type.
 */
module JsonScan {
  import opened Prelude
  import opened Bytes

  const MAX_JSON_DEPTH: nat := 32

  datatype Token = OpenObject | CloseObject | OpenArray | CloseArray | StringToken(text: string) | OtherScalar

  /**
   * What the decoder delivers: tokens and then a clean end or a syntax error, which a
   * look ahead takes for another element when a character other than a bracket is there.
   */
  datatype TokenStream = TokenStream(tokens: seq<Token>, clean: bool, garbage: bool)

  datatype JSONReason = MalformedDocument | TrailingDocument | RepeatedKey | TooDeep

  predicate Closing(t: Token) { t == CloseObject || t == CloseArray }

  // ---------------------------------------------------------------------
  // The scan on tokens
  // ---------------------------------------------------------------------

  datatype ScanResult = Rest(tokens: seq<Token>) | Refused(reason: JSONReason)

  function ScanValue(ts: seq<Token>, garbage: bool, depth: nat, maximum: nat): (r: ScanResult)
    ensures r.Rest? ==> |r.tokens| < |ts|
    decreases |ts|, 0
  {
    if depth > maximum then Refused(TooDeep)
    else if ts == [] then Refused(MalformedDocument)
    else match ts[0]
      case OpenObject => ScanMembers(ts[1..], {}, garbage, depth, maximum)
      case OpenArray => ScanElements(ts[1..], garbage, depth, maximum)
      case CloseObject => Refused(MalformedDocument)
      case CloseArray => Refused(MalformedDocument)
      case _ => Rest(ts[1..])
  }

  function ScanMembers(ts: seq<Token>, keys: set<string>, garbage: bool, depth: nat, maximum: nat): (r: ScanResult)
    ensures r.Rest? ==> |r.tokens| < |ts|
    decreases |ts|, 1
  {
    if ts == [] then Refused(MalformedDocument)
    else if Closing(ts[0]) then (if ts[0] == CloseObject then Rest(ts[1..]) else Refused(MalformedDocument))
    else if !ts[0].StringToken? then Refused(MalformedDocument)
    else if ts[0].text in keys then Refused(RepeatedKey)
    else
      var value := ScanValue(ts[1..], garbage, depth + 1, maximum);
      if value.Refused? then value else ScanMembers(value.tokens, keys + {ts[0].text}, garbage, depth, maximum)
  }

  function ScanElements(ts: seq<Token>, garbage: bool, depth: nat, maximum: nat): (r: ScanResult)
    ensures r.Rest? ==> |r.tokens| < |ts|
    decreases |ts|, 1
  {
    if ts == [] then Refused(if garbage && depth >= maximum then TooDeep else MalformedDocument)
    else if Closing(ts[0]) then (if ts[0] == CloseArray then Rest(ts[1..]) else Refused(MalformedDocument))
    else
      var value := ScanValue(ts, garbage, depth + 1, maximum);
      if value.Refused? then value else ScanElements(value.tokens, garbage, depth, maximum)
  }

  /** One value and nothing after it. */
  function DocumentReason(stream: TokenStream, maximum: nat): (reason: Option<JSONReason>) {
    var value := ScanValue(stream.tokens, stream.garbage, 1, maximum);
    if value.Refused? then Some(value.reason)
    else if value.tokens != [] then Some(TrailingDocument)
    else if stream.clean then None
    else Some(MalformedDocument)
  }

  // ---------------------------------------------------------------------
  // The scan as the program writes it
  // ---------------------------------------------------------------------

  /** The decoder under a context: no token is handed out once the context has ended. */
  class TokenDecoder {
    const stream: TokenStream
    const ctx: Context
    var pos: nat

    constructor (ctx: Context, stream: TokenStream)
      ensures this.stream == stream && this.ctx == ctx && pos == 0
    {
      this.stream, this.ctx, pos := stream, ctx, 0;
    }

    /** The tokens still to come. */
    function Ahead(): (ts: seq<Token>)
      requires pos <= |stream.tokens|
      reads this
    {
      stream.tokens[pos..]
    }

    method Token() returns (token: Option<Token>, atEnd: bool)
      requires pos <= |stream.tokens|
      modifies this`pos, ctx
      ensures pos <= |stream.tokens| && pos >= old(pos) && (old(ctx.done) ==> ctx.done)
      ensures old(ctx.done) ==> token.None?
      ensures token.Some? ==> old(Ahead()) == [token.value] + Ahead() && ctx.looks == old(ctx.looks) + 2
      ensures token.None? && !ctx.done ==> old(Ahead()) == [] && pos == old(pos) && atEnd == stream.clean
    {
      token, atEnd := None, false;
      var canceled := ctx.Err();
      if canceled {
        return;
      }
      if pos == |stream.tokens| {
        return None, stream.clean;
      }
      pos := pos + 1;
      canceled := ctx.Err();
      if !canceled {
        token := Some(stream.tokens[pos - 1]);
      }
    }

    /** Whether the value or key after this one belongs to the same array or object. */
    method More() returns (more: bool)
      requires pos <= |stream.tokens|
      modifies ctx
      ensures old(ctx.done) ==> ctx.done
      ensures old(ctx.done) ==> !more
      ensures !ctx.done ==> more == if Ahead() == [] then stream.garbage else !Closing(Ahead()[0])
    {
      var canceled := ctx.Err();
      if canceled {
        return false;
      }
      if pos < |stream.tokens| {
        return !Closing(stream.tokens[pos]);
      }
      more := stream.garbage;
    }
  }

  /** The method's verdict and what it leaves are those of the scan. */
  predicate Matches(r: ScanResult, reason: Option<JSONReason>, ahead: seq<Token>) {
    if r.Refused? then reason == Some(r.reason) else reason.None? && ahead == r.tokens
  }

  method ScanJSONValue(d: TokenDecoder, depth: nat, maximum: nat) returns (reason: Option<JSONReason>)
    requires d.pos <= |d.stream.tokens|
    modifies d`pos, d.ctx
    ensures old(d.pos) <= d.pos <= |d.stream.tokens| && (old(d.ctx.done) ==> d.ctx.done)
    ensures reason.None? ==> d.pos > old(d.pos)
    ensures !d.ctx.done ==> Matches(ScanValue(old(d.Ahead()), d.stream.garbage, depth, maximum), reason, d.Ahead())
    decreases |d.stream.tokens| - d.pos, 0
  {
    if depth > maximum {
      return Some(TooDeep);
    }
    var token, _ := d.Token();
    if token.None? {
      return Some(MalformedDocument);
    }
    match token.value {
      case OpenObject =>
        reason := ScanObject(d, depth, maximum);
      case OpenArray =>
        reason := ScanArray(d, depth, maximum);
      case CloseObject =>
        reason := Some(MalformedDocument);
      case CloseArray =>
        reason := Some(MalformedDocument);
      case _ =>
        reason := None;
    }
  }

  /** The branch of the scan for an object. */
  method ScanObject(d: TokenDecoder, depth: nat, maximum: nat) returns (reason: Option<JSONReason>)
    requires d.pos <= |d.stream.tokens|
    modifies d`pos, d.ctx
    ensures old(d.pos) <= d.pos <= |d.stream.tokens| && (old(d.ctx.done) ==> d.ctx.done)
    ensures !d.ctx.done ==>
      Matches(ScanMembers(old(d.Ahead()), {}, d.stream.garbage, depth, maximum), reason, d.Ahead())
    decreases |d.stream.tokens| - d.pos, 1
  {
    hide ScanValue;
    var keys: set<string> := {};
    var more := d.More();
    while more
      invariant old(d.pos) <= d.pos <= |d.stream.tokens| && (old(d.ctx.done) ==> d.ctx.done)
      invariant !d.ctx.done ==>
        ScanMembers(old(d.Ahead()), {}, d.stream.garbage, depth, maximum)
          == ScanMembers(d.Ahead(), keys, d.stream.garbage, depth, maximum)
      invariant !d.ctx.done ==> more == if d.Ahead() == [] then d.stream.garbage else !Closing(d.Ahead()[0])
      decreases |d.stream.tokens| - d.pos, more
    {
      var key, _ := d.Token();
      if key.None? || !key.value.StringToken? {
        return Some(MalformedDocument);
      }
      if key.value.text in keys {
        return Some(RepeatedKey);
      }
      keys := keys + {key.value.text};
      reason := ScanJSONValue(d, depth + 1, maximum);
      if reason.Some? {
        return;
      }
      more := d.More();
    }
    var closing, _ := d.Token();
    reason := if closing == Some(CloseObject) then None else Some(MalformedDocument);
  }

  /** The branch of the scan for an array. */
  method ScanArray(d: TokenDecoder, depth: nat, maximum: nat) returns (reason: Option<JSONReason>)
    requires d.pos <= |d.stream.tokens|
    modifies d`pos, d.ctx
    ensures old(d.pos) <= d.pos <= |d.stream.tokens| && (old(d.ctx.done) ==> d.ctx.done)
    ensures !d.ctx.done ==> Matches(ScanElements(old(d.Ahead()), d.stream.garbage, depth, maximum), reason, d.Ahead())
    decreases |d.stream.tokens| - d.pos, 1
  {
    var more := d.More();
    while more
      invariant old(d.pos) <= d.pos <= |d.stream.tokens| && (old(d.ctx.done) ==> d.ctx.done)
      invariant !d.ctx.done ==>
        ScanElements(old(d.Ahead()), d.stream.garbage, depth, maximum)
        == ScanElements(d.Ahead(), d.stream.garbage, depth, maximum)
      invariant !d.ctx.done ==> more == if d.Ahead() == [] then d.stream.garbage else !Closing(d.Ahead()[0])
      decreases |d.stream.tokens| - d.pos, more
    {
      reason := ScanJSONValue(d, depth + 1, maximum);
      if reason.Some? {
        return;
      }
      more := d.More();
    }
    var closing, _ := d.Token();
    reason := if closing == Some(CloseArray) then None else Some(MalformedDocument);
  }

  method ValidateJSONDocument(ctx: Context, stream: TokenStream, maximum: nat) returns (reason: Option<JSONReason>)
    modifies ctx
    ensures old(ctx.done) ==> ctx.done
    ensures !ctx.done ==> reason == DocumentReason(stream, maximum)
  {
    hide ScanValue;
    var d := new TokenDecoder(ctx, stream);
    reason := ScanJSONValue(d, 1, maximum);
    if reason.Some? {
      return;
    }
    var token, atEnd := d.Token();
    if token.Some? {
      return Some(TrailingDocument);
    }
    reason := if atEnd then None else Some(MalformedDocument);
  }

  // ---------------------------------------------------------------------
  // Values, independently of the scan
  // ---------------------------------------------------------------------

  datatype Json = Scalar | Text(text: string) | Array(items: seq<Json>) | Object(members: seq<Member>)

  datatype Member = Member(key: string, value: Json)

  function Tokens(v: Json): (ts: seq<Token>)
    ensures ts != [] && !Closing(ts[0])
  {
    match v
    case Scalar => [OtherScalar]
    case Text(text) => [StringToken(text)]
    case Array(items) => [OpenArray] + ItemTokens(items) + [CloseArray]
    case Object(members) => [OpenObject] + MemberTokens(members) + [CloseObject]
  }

  function ItemTokens(items: seq<Json>): (ts: seq<Token>) {
    if items == [] then [] else Tokens(items[0]) + ItemTokens(items[1..])
  }

  function MemberTokens(members: seq<Member>): (ts: seq<Token>) {
    if members == [] then [] else
      [StringToken(members[0].key)] + Tokens(members[0].value) + MemberTokens(members[1..])
  }

  /** No value lies deeper than the limit. */
  predicate Nested(v: Json, depth: nat, maximum: nat) {
    depth <= maximum &&
    match v
    case Array(items) => forall i :: 0 <= i < |items| ==> Nested(items[i], depth + 1, maximum)
    case Object(members) => forall i :: 0 <= i < |members| ==> Nested(members[i].value, depth + 1, maximum)
    case _ => true
  }

  /** No object repeats a key. */
  predicate UniqueKeys(v: Json) {
    match v
    case Array(items) => forall i :: 0 <= i < |items| ==> UniqueKeys(items[i])
    case Object(members) =>
      (forall i, j :: 0 <= i < j < |members| ==> members[i].key != members[j].key)
      && forall i :: 0 <= i < |members| ==> UniqueKeys(members[i].value)
    case _ => true
  }

  predicate Good(v: Json, depth: nat, maximum: nat) {
    Nested(v, depth, maximum) && UniqueKeys(v)
  }

  /** The keys are new and differ from each other. */
  predicate NewKeys(members: seq<Member>, keys: set<string>) {
    && (forall i :: 0 <= i < |members| ==> members[i].key !in keys)
    && (forall i, j :: 0 <= i < j < |members| ==> members[i].key != members[j].key)
  }

  lemma NewKeysStep(members: seq<Member>, keys: set<string>)
    requires members != []
    ensures NewKeys(members, keys) <==> members[0].key !in keys && NewKeys(members[1..], keys + {members[0].key})
  {
    var rest := members[1..];
    assert forall i :: 0 < i < |members| ==> members[i] == rest[i - 1];
    if NewKeys(rest, keys + {members[0].key}) && members[0].key !in keys {
      forall i, j | 0 <= i < j < |members| ensures members[i].key != members[j].key {
        assert rest[j - 1].key !in keys + {members[0].key};
      }
    }
  }

  /** The scan's answer to the tokens of a value, whatever follows them. */
  predicate Answers(r: ScanResult, good: bool, nested: bool, unique: bool, rest: seq<Token>) {
    && (good ==> r == Rest(rest))
    && (!good ==> r.Refused? && (r.reason == TooDeep ==> !nested) && (r.reason == RepeatedKey ==> !unique))
    && (r.Refused? ==> r.reason == TooDeep || r.reason == RepeatedKey)
  }

  lemma ArrayParts(items: seq<Json>, depth: nat, maximum: nat)
    ensures Nested(Array(items), depth, maximum) <==> depth <= maximum && ItemsNested(items, depth, maximum)
    ensures UniqueKeys(Array(items)) <==> ItemsUnique(items)
  {
  }

  lemma ObjectParts(members: seq<Member>, depth: nat, maximum: nat)
    ensures Nested(Object(members), depth, maximum) <==> depth <= maximum && MembersNested(members, depth, maximum)
    ensures UniqueKeys(Object(members)) <==> MembersUnique(members, {})
  {
  }

  lemma {:induction false} ScanOfTokens(v: Json, rest: seq<Token>, garbage: bool, depth: nat, maximum: nat)
    ensures Answers(ScanValue(Tokens(v) + rest, garbage, depth, maximum),
                    Good(v, depth, maximum), Nested(v, depth, maximum), UniqueKeys(v), rest)
    decreases v
  {
    hide ItemsNested, ItemsUnique, MembersNested, MembersUnique, ScanMembers, ScanElements;
    if depth <= maximum {
      match v {
        case Array(items) =>
          hide Nested, UniqueKeys;
          assert Tokens(v) + rest == [OpenArray] + (ItemTokens(items) + ([CloseArray] + rest));
          ScanOfItems(items, rest, garbage, depth, maximum);
          ArrayParts(items, depth, maximum);
        case Object(members) =>
          hide Nested, UniqueKeys;
          assert Tokens(v) + rest == [OpenObject] + (MemberTokens(members) + ([CloseObject] + rest));
          ScanOfMembers(members, {}, rest, garbage, depth, maximum);
          ObjectParts(members, depth, maximum);
        case _ =>
          assert (Tokens(v) + rest)[1..] == rest;
      }
    }
  }

  predicate ItemsNested(items: seq<Json>, depth: nat, maximum: nat) {
    forall i :: 0 <= i < |items| ==> Nested(items[i], depth + 1, maximum)
  }

  predicate ItemsUnique(items: seq<Json>) {
    forall i :: 0 <= i < |items| ==> UniqueKeys(items[i])
  }

  lemma {:induction false} ScanOfItems(items: seq<Json>, rest: seq<Token>, garbage: bool, depth: nat, maximum: nat)
    ensures Answers(ScanElements(ItemTokens(items) + ([CloseArray] + rest), garbage, depth, maximum),
                    ItemsNested(items, depth, maximum) && ItemsUnique(items),
                    ItemsNested(items, depth, maximum), ItemsUnique(items), rest)
    decreases items
  {
    if items != [] {
      var ts := ItemTokens(items[1..]) + ([CloseArray] + rest);
      assert ItemTokens(items) + ([CloseArray] + rest) == Tokens(items[0]) + ts;
      ScanOfTokens(items[0], ts, garbage, depth + 1, maximum);
      ScanOfItems(items[1..], rest, garbage, depth, maximum);
      assert forall i :: 0 < i < |items| ==> items[i] == items[1..][i - 1];
      assert ItemsNested(items, depth, maximum) <==>
        Nested(items[0], depth + 1, maximum) && ItemsNested(items[1..], depth, maximum);
      assert ItemsUnique(items) <==> UniqueKeys(items[0]) && ItemsUnique(items[1..]);
    } else {
      assert ItemTokens(items) + ([CloseArray] + rest) == [CloseArray] + rest;
      assert ([CloseArray] + rest)[1..] == rest;
    }
  }

  predicate MembersNested(members: seq<Member>, depth: nat, maximum: nat) {
    forall i :: 0 <= i < |members| ==> Nested(members[i].value, depth + 1, maximum)
  }

  predicate MembersUnique(members: seq<Member>, keys: set<string>) {
    NewKeys(members, keys) && forall i :: 0 <= i < |members| ==> UniqueKeys(members[i].value)
  }

  lemma MembersStep(members: seq<Member>, keys: set<string>, depth: nat, maximum: nat)
    requires members != []
    ensures MembersNested(members, depth, maximum) <==>
            Nested(members[0].value, depth + 1, maximum) && MembersNested(members[1..], depth, maximum)
    ensures MembersUnique(members, keys) <==>
            members[0].key !in keys && UniqueKeys(members[0].value)
              && MembersUnique(members[1..], keys + {members[0].key})
  {
    hide NewKeys, Nested, UniqueKeys;
    NewKeysStep(members, keys);
    assert forall i :: 0 < i < |members| ==> members[i] == members[1..][i - 1];
  }

  lemma {:induction false} ScanOfMembers(members: seq<Member>, keys: set<string>, rest: seq<Token>, garbage: bool,
                                         depth: nat, maximum: nat)
    ensures Answers(ScanMembers(MemberTokens(members) + ([CloseObject] + rest), keys, garbage, depth, maximum),
                    MembersNested(members, depth, maximum) && MembersUnique(members, keys),
                    MembersNested(members, depth, maximum), MembersUnique(members, keys), rest)
    decreases members
  {
    var all := MemberTokens(members) + ([CloseObject] + rest);
    if members != [] {
      hide MembersNested, MembersUnique, Nested, UniqueKeys;
      var m := members[0];
      var ts := MemberTokens(members[1..]) + ([CloseObject] + rest);
      assert all == [StringToken(m.key)] + (Tokens(m.value) + ts);
      assert all[1..] == Tokens(m.value) + ts;
      MembersStep(members, keys, depth, maximum);
      ScanOfTokens(m.value, ts, garbage, depth + 1, maximum);
      ScanOfMembers(members[1..], keys + {m.key}, rest, garbage, depth, maximum);
    } else {
      assert all == [CloseObject] + rest;
      assert ([CloseObject] + rest)[1..] == rest;
    }
  }

  /** Whatever the scan accepts are the tokens of a good value. */
  lemma {:induction false} AcceptedIsValue(ts: seq<Token>, garbage: bool, depth: nat, maximum: nat) returns (v: Json)
    requires ScanValue(ts, garbage, depth, maximum).Rest?
    ensures ts == Tokens(v) + ScanValue(ts, garbage, depth, maximum).tokens && Good(v, depth, maximum)
    decreases |ts|, 0
  {
    match ts[0] {
      case OpenArray =>
        var items := AcceptedItems(ts[1..], garbage, depth, maximum);
        v := Array(items);
      case OpenObject =>
        var members := AcceptedMembers(ts[1..], {}, garbage, depth, maximum);
        v := Object(members);
      case StringToken(text) =>
        v := Text(text);
      case _ =>
        v := Scalar;
    }
  }

  lemma {:induction false} AcceptedItems(ts: seq<Token>, garbage: bool, depth: nat, maximum: nat)
    returns (items: seq<Json>)
    requires ScanElements(ts, garbage, depth, maximum).Rest?
    ensures ts == ItemTokens(items) + [CloseArray] + ScanElements(ts, garbage, depth, maximum).tokens
    ensures ItemsNested(items, depth, maximum) && ItemsUnique(items)
    decreases |ts|, 1
  {
    if Closing(ts[0]) {
      items := [];
    } else {
      var first := AcceptedIsValue(ts, garbage, depth + 1, maximum);
      var more := AcceptedItems(ScanValue(ts, garbage, depth + 1, maximum).tokens, garbage, depth, maximum);
      items := [first] + more;
      assert items[1..] == more;
    }
  }

  lemma {:induction false} AcceptedMembers(ts: seq<Token>, keys: set<string>, garbage: bool, depth: nat, maximum: nat)
    returns (members: seq<Member>)
    requires ScanMembers(ts, keys, garbage, depth, maximum).Rest?
    ensures ts == MemberTokens(members) + [CloseObject] + ScanMembers(ts, keys, garbage, depth, maximum).tokens
    ensures MembersNested(members, depth, maximum) && MembersUnique(members, keys)
    decreases |ts|, 1
  {
    if Closing(ts[0]) {
      members := [];
    } else {
      hide MembersNested, MembersUnique, Nested, UniqueKeys;
      var key := ts[0].text;
      var first := AcceptedIsValue(ts[1..], garbage, depth + 1, maximum);
      var value := ScanValue(ts[1..], garbage, depth + 1, maximum);
      var more := AcceptedMembers(value.tokens, keys + {key}, garbage, depth, maximum);
      members := [Member(key, first)] + more;
      assert members[1..] == more;
      MembersStep(members, keys, depth, maximum);
      assert ts == [ts[0]] + ts[1..];
    }
  }

  /** A document is accepted exactly when it is one value, nested within the limit, without repeated keys. */
  lemma DocumentAcceptedExactly(stream: TokenStream, maximum: nat)
    ensures DocumentReason(stream, maximum).None? <==>
            stream.clean && exists v :: stream.tokens == Tokens(v) && Good(v, 1, maximum)
  {
    if DocumentReason(stream, maximum).None? {
      var v := AcceptedIsValue(stream.tokens, stream.garbage, 1, maximum);
      assert Tokens(v) + [] == Tokens(v);
    }
    if v :| stream.tokens == Tokens(v) && Good(v, 1, maximum) {
      ScanOfTokens(v, [], stream.garbage, 1, maximum);
      assert Tokens(v) + [] == Tokens(v);
    }
  }

  /** The reason for refusing a well-formed document is one that applies to it. */
  lemma RefusalIsDeserved(v: Json, stream: TokenStream, maximum: nat)
    requires stream.tokens == Tokens(v) && stream.clean
    ensures DocumentReason(stream, maximum) == Some(TooDeep) ==> !Nested(v, 1, maximum)
    ensures DocumentReason(stream, maximum) == Some(RepeatedKey) ==> !UniqueKeys(v)
    ensures DocumentReason(stream, maximum).Some? ==>
            DocumentReason(stream, maximum) == Some(TooDeep) || DocumentReason(stream, maximum) == Some(RepeatedKey)
  {
    ScanOfTokens(v, [], stream.garbage, 1, maximum);
    assert Tokens(v) + [] == Tokens(v);
  }
}
