/**
 * The work reserved for a request, and the static bounds that make its arithmetic
 * safe for every request the parser lets through.
 */
module Reservation {
  import opened Prelude
  import Utf8

  const ABSOLUTE_MAX_BODY_BYTES := 0x100_0000
  const ABSOLUTE_MAX_MODEL_BYTES := 1024

  /** The smallest request around the model's JSON string. */
  const SKELETON: string :=
    "{\"model\":,\"messages\":[{\"role\":\"user\",\"content\":\"\"}],\"max_completion_tokens\":1}"

  datatype Limits = Limits(maxBody: uint64, maxMessages: uint64, maxText: uint64, maxTokens: uint64, weight: uint64,
                           maxUnits: uint64)

  datatype Reserved = Units(units: uint64) | ReservationOverflow | ReservationLimit

  // ---------------------------------------------------------------------
  // Reservation
  // ---------------------------------------------------------------------

  /** In machine words, but exact: a product or sum that does not fit is an overflow, never a small number. */
  function ReservationUnits(body: uint64, tokens: uint64, weight: uint64, maximum: uint64): (r: Reserved)
    ensures r == ReservationOverflow <==> body + weight * tokens >= TWO_64 || body + weight * tokens == 0
    ensures r == ReservationLimit <==> maximum < body + weight * tokens < TWO_64
    ensures r.Units? ==> r.units == body + weight * tokens && 0 < r.units <= maximum
  {
    Mul64Exact(weight, tokens);
    MulMono(0, weight, tokens);
    var product := Mul64(weight, tokens);
    if product.0 != 0 then ReservationOverflow
    else
      var units := WrapAdd(body, product.1);
      if body + product.1 >= TWO_64 || units == 0 then ReservationOverflow
      else if units > maximum then ReservationLimit
      else Units(units)
  }

  // ---------------------------------------------------------------------
  // The shortest JSON string
  // ---------------------------------------------------------------------

  /** A Unicode scalar value. */
  type rune = x: int | 0 <= x < 0xD800 || 0xE000 <= x <= 0x10FFFF

  /** The bytes of the character's UTF-8 encoding. */
  function RuneLen(r: rune): (result: nat)
    ensures result == |Utf8.Encode(r)|
  {
    if r < 0x80 then 1 else if r < 0x800 then 2 else if r < 0x10000 then 3 else 4
  }

  /** One way to write a character in a JSON string, section 7 of RFC 8259. */
  datatype Spelling = AsItself(r: rune) | Short(r: rune) | Escaped(r: rune)

  predicate Legal(s: Spelling) {
    match s
    case AsItself(r) => r >= 0x20 && r != 34 && r != 92
    case Short(r) => r == 34 || r == 92 || r == 47 || r == 8 || r == 12 || r == 10 || r == 13 || r == 9
    case Escaped(_) => true
  }

  function SpelledBytes(s: Spelling): (r: nat) {
    match s
    case AsItself(r) => RuneLen(r)
    case Short(_) => 2
    case Escaped(r) => if r < 0x10000 then 6 else 12
  }

  function TotalBytes(ss: seq<Spelling>): (r: nat) {
    if ss == [] then 0 else TotalBytes(ss[..|ss| - 1]) + SpelledBytes(ss[|ss| - 1])
  }

  /** `ss` is a JSON string with this value. */
  ghost predicate Spells(ss: seq<Spelling>, value: seq<rune>) {
    |ss| == |value| && forall i :: 0 <= i < |ss| ==> Legal(ss[i]) && ss[i].r == value[i]
  }

  function Shortest(r: rune): (result: Spelling) {
    if r == 34 || r == 92 || r == 8 || r == 12 || r == 10 || r == 13 || r == 9 then Short(r)
    else if r < 0x20 then Escaped(r)
    else AsItself(r)
  }

  function ShortestAll(value: seq<rune>): (ss: seq<Spelling>)
    ensures Spells(ss, value)
  {
    seq(|value|, i requires 0 <= i < |value| => Shortest(value[i]))
  }

  lemma {:induction false} ShortestIsLeast(ss: seq<Spelling>, value: seq<rune>)
    requires Spells(ss, value)
    ensures TotalBytes(ShortestAll(value)) <= TotalBytes(ss)
  {
    if ss != [] {
      var k := |ss| - 1;
      ShortestIsLeast(ss[..k], value[..k]);
      assert ShortestAll(value)[..k] == ShortestAll(value[..k]);
      assert Legal(ss[k]);
    }
  }

  /** The parser's count: the length of a shortest JSON string with this value, quotation marks included. */
  method MinimumJSONStringBytes(value: seq<rune>) returns (length: nat)
    ensures exists ss :: Spells(ss, value) && length == 2 + TotalBytes(ss)
    ensures forall ss :: Spells(ss, value) ==> length <= 2 + TotalBytes(ss)
    ensures length == 2 + TotalBytes(ShortestAll(value))
  {
    length := 2;
    for i := 0 to |value|
      invariant length == 2 + TotalBytes(ShortestAll(value)[..i])
    {
      var r := value[i];
      assert ShortestAll(value)[..i + 1][..i] == ShortestAll(value)[..i];
      if r == 34 || r == 92 || r == 8 || r == 12 || r == 10 || r == 13 || r == 9 {
        length := length + 2;
      } else if r <= 0x07 || r == 0x0B || 0x0E <= r <= 0x1F {
        length := length + 6;
      } else {
        length := length + RuneLen(r);
      }
    }
    assert ShortestAll(value)[..|value|] == ShortestAll(value);
    forall ss | Spells(ss, value) ensures length <= 2 + TotalBytes(ss) {
      ShortestIsLeast(ss, value);
    }
  }

  function ModelBytes(model: seq<rune>): (r: nat) {
    if model == [] then 0 else ModelBytes(model[..|model| - 1]) + RuneLen(model[|model| - 1])
  }

  // ---------------------------------------------------------------------
  // The parser's static bounds
  // ---------------------------------------------------------------------

  ghost predicate BoundsOk(model: seq<rune>, l: Limits) {
    && model != [] && ModelBytes(model) <= 1024
    && 0 < l.maxBody <= 16_777_216
    && 0 < l.maxMessages < 0x8000_0000_0000_0000 && l.maxText > 0 && l.maxTokens > 0 && l.weight > 0 && l.maxUnits > 0
    && l.maxBody + l.weight * l.maxTokens < TWO_64
    && (var least := 78 + 2 + TotalBytes(ShortestAll(model));
        least <= l.maxBody && least + l.weight <= l.maxUnits)
  }

  /**
   * Construction accepts exactly the limits whose largest reservation fits a word and
   * whose smallest request fits the limits.
   */
  method NewParser(model: seq<rune>, l: Limits) returns (accepted: bool)
    ensures accepted <==> BoundsOk(model, l)
  {
    if model == [] || ModelBytes(model) > ABSOLUTE_MAX_MODEL_BYTES
       || l.maxBody == 0 || l.maxBody > ABSOLUTE_MAX_BODY_BYTES
       || l.maxMessages == 0 || l.maxMessages >= 0x8000_0000_0000_0000
       || l.maxText == 0 || l.maxTokens == 0 || l.weight == 0 || l.maxUnits == 0 {
      return false;
    }
    Mul64Exact(l.weight, l.maxTokens);
    var product := Mul64(l.weight, l.maxTokens);
    if product.0 != 0 {
      return false;
    }
    if l.maxBody + product.1 >= TWO_64 {
      return false;
    }
    var least := MinimumJSONStringBytes(model);
    least := least + |SKELETON|;
    if least > l.maxBody {
      return false;
    }
    MulMono(1, l.maxTokens, l.weight);
    var reserved := ReservationUnits(least, 1, l.weight, l.maxUnits);
    accepted := reserved.Units?;
  }

  /**
   * For a constructed parser the overflow branch of a reservation is never taken: a
   * request within the limits reserves its exact units or is over the unit limit.
   */
  lemma ReservationNeverOverflows(model: seq<rune>, l: Limits, body: uint64, tokens: uint64)
    requires BoundsOk(model, l) && 0 < body <= l.maxBody && tokens <= l.maxTokens
    ensures var r := ReservationUnits(body, tokens, l.weight, l.maxUnits);
      && r != ReservationOverflow
      && (r.Units? <==> body + l.weight * tokens <= l.maxUnits)
      && (r.Units? ==> r.units == body + l.weight * tokens && 0 < r.units <= l.maxUnits)
  {
    hide ReservationUnits, TotalBytes, ShortestAll, ModelBytes;
    MulMono(tokens, l.maxTokens, l.weight);
    MulMono(0, tokens, l.weight);
    assert l.weight * tokens == tokens * l.weight && l.weight * l.maxTokens == l.maxTokens * l.weight;
  }
}
