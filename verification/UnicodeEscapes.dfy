/** The scan for unpaired UTF-16 surrogates in JSON strings, section 7 of RFC 8259. */
module UnicodeEscapes {
  import opened Prelude
  import opened Bytes

  const LETTER_U: byte := 117

  predicate HexDigit(b: byte) { 48 <= b <= 57 || 97 <= b <= 102 || 65 <= b <= 70 }

  function HexValue(b: byte): (r: nat)
    requires HexDigit(b)
  {
    if b <= 57 then b - 48 else if b <= 70 then b - 65 + 10 else b - 97 + 10
  }

  /** The first `n` of the digits at `start`, as one number. */
  function HexPrefix(body: seq<byte>, start: nat, n: nat): (v: nat)
    requires start + n <= |body| && forall i :: start <= i < start + n ==> HexDigit(body[i])
  {
    if n == 0 then 0 else 16 * HexPrefix(body, start, n - 1) + HexValue(body[start + n - 1])
  }

  predicate HexAt(body: seq<byte>, start: nat) {
    start + 4 <= |body| && forall i :: start <= i < start + 4 ==> HexDigit(body[i])
  }

  function HexQuad(body: seq<byte>, start: nat): (r: Option<nat>) {
    if HexAt(body, start) then Some(HexPrefix(body, start, 4)) else None
  }

  /** Four digits in a 16-bit register: each shift makes room for exactly one digit. */
  method DecodeHexQuad(body: seq<byte>, start: int) returns (value: nat, ok: bool)
    ensures ok <==> 0 <= start && HexAt(body, start)
    ensures ok ==> value == HexPrefix(body, start, 4) < 0x10000
  {
    value := 0;
    if start < 0 || start + 4 > |body| {
      return 0, false;
    }
    for k := 0 to 4
      invariant forall i :: start <= i < start + k ==> HexDigit(body[i])
      invariant value == HexPrefix(body, start, k)
      invariant k == 0 ==> value < 1
      invariant k == 1 ==> value < 0x10
      invariant k == 2 ==> value < 0x100
      invariant k == 3 ==> value < 0x1000
      invariant k == 4 ==> value < 0x10000
    {
      var digit := body[start + k];
      value := value * 16 % 0x10000;
      if 48 <= digit <= 57 {
        value := value + (digit - 48);
      } else if 97 <= digit <= 102 {
        value := value + (digit - 97) + 10;
      } else if 65 <= digit <= 70 {
        value := value + (digit - 65) + 10;
      } else {
        return 0, false;
      }
    }
    ok := true;
  }

  predicate High(v: nat) { 0xD800 <= v <= 0xDBFF }

  predicate Low(v: nat) { 0xDC00 <= v <= 0xDFFF }

  /** What the scan answers from here on. */
  predicate Scan(s: seq<byte>, inString: bool)
    decreases |s|
  {
    if s == [] then true
    else if s[0] == QUOTE then Scan(s[1..], !inString)
    else if s[0] == BACKSLASH && inString then
      if |s| == 1 then true
      else if s[1] != LETTER_U then Scan(s[2..], true)
      else
        var quad := HexQuad(s, 2);
        if quad.None? then true
        else if Low(quad.value) then false
        else if High(quad.value) then PairFollows(s) && Scan(s[12..], true)
        else Scan(s[6..], true)
    else Scan(s[1..], inString)
  }

  /** A second escape follows the first at once, and it is a low surrogate. */
  predicate PairFollows(s: seq<byte>) {
    |s| > 11 && s[6] == BACKSLASH && s[7] == LETTER_U && HexQuad(s, 8).Some? && Low(HexQuad(s, 8).value)
  }

  lemma HexShift(body: seq<byte>, index: nat, k: nat)
    requires index <= |body|
    ensures HexQuad(body[index..], k) == HexQuad(body, index + k)
  {
    var s := body[index..];
    assert HexAt(s, k) <==> HexAt(body, index + k) by {
      assert forall i :: 0 <= i < |s| ==> s[i] == body[index + i];
      assert forall i :: index + k <= i < |body| ==> body[i] == s[i - index];
    }
    if HexAt(s, k) {
      HexPrefixShift(body, index, k, 4);
    }
  }

  lemma {:induction false} HexPrefixShift(body: seq<byte>, index: nat, k: nat, n: nat)
    requires index + k + n <= |body|
    requires forall i :: k <= i < k + n ==> HexDigit(body[index..][i])
    requires forall i :: index + k <= i < index + k + n ==> HexDigit(body[i])
    ensures HexPrefix(body[index..], k, n) == HexPrefix(body, index + k, n)
  {
    if n > 0 {
      HexPrefixShift(body, index, k, n - 1);
    }
  }

  /** Reads the escape whose backslash is at `at`: either the answer is known, or the scan goes on after `next`. */
  method ReadEscape(body: seq<byte>, at: nat) returns (stop: bool, answer: bool, next: nat)
    requires at + 1 < |body| && body[at] == BACKSLASH && body[at + 1] == LETTER_U
    ensures stop ==> answer == Scan(body[at..], true)
    ensures !stop ==> at + 1 < next < |body| && Scan(body[at..], true) == Scan(body[next + 1..], true)
  {
    hide HexQuad;
    ghost var rest := body[at..];
    stop, answer, next := true, true, at;
    var value, ok := DecodeHexQuad(body, at + 2);
    QuadIs(body, at + 2);
    HexShift(body, at, 2);
    if !ok {
      return;
    }
    next := at + 5;
    if 0xDC00 <= value <= 0xDFFF {
      answer := false;
      return;
    }
    if 0xD800 <= value <= 0xDBFF {
      HexShift(body, at, 8);
      answer := false;
      if next + 6 >= |body| || body[next + 1] != BACKSLASH || body[next + 2] != LETTER_U {
        return;
      }
      var low, lowOk := DecodeHexQuad(body, next + 3);
      QuadIs(body, next + 3);
      if !lowOk || low < 0xDC00 || low > 0xDFFF {
        return;
      }
      next := next + 6;
    }
    stop := false;
    Drops(body, at, next + 1);
  }

  /** The indexed loop; unless the context is canceled it answers what `Scan` answers. */
  method ValidUnicodeEscapes(ctx: Context, body: seq<byte>) returns (valid: bool)
    modifies ctx
    ensures old(ctx.done) ==> ctx.done
    ensures !ctx.done ==> valid == Scan(body, false)
    ensures valid ==> Scan(body, false)
    ensures old(ctx.done) && body != [] ==> !valid
  {
    hide Scan;
    var inString := false;
    var index := 0;
    assert body[0..] == body;
    while index < |body|
      invariant 0 <= index <= |body|
      invariant old(ctx.done) ==> ctx.done && index == 0
      invariant Scan(body, false) == Scan(body[index..], inString)
    {
      if index % 1024 == 0 {
        var canceled := ctx.Err();
        if canceled {
          return false;
        }
      }
      ScanStep(body, index, inString);
      if body[index] == QUOTE {
        inString := !inString;
      } else if body[index] == BACKSLASH && inString {
        index := index + 1;
        if index >= |body| {
          return true;
        }
        if body[index] == LETTER_U {
          var stop, answer, next := ReadEscape(body, index - 1);
          if stop {
            return answer;
          }
          index := next;
        }
      }
      index := index + 1;
    }
    EndOfText(body, index, inString);
    valid := true;
  }

  lemma EndOfText(body: seq<byte>, index: nat, inString: bool)
    requires index == |body|
    ensures Scan(body[index..], inString)
  {
  }

  /** How the scan goes on after one byte, or after a backslash and the byte behind it. */
  lemma ScanStep(body: seq<byte>, index: nat, inString: bool)
    requires index < |body|
    ensures body[index] == QUOTE ==> Scan(body[index..], inString) == Scan(body[index + 1..], !inString)
    ensures body[index] != QUOTE && !(body[index] == BACKSLASH && inString) ==>
      Scan(body[index..], inString) == Scan(body[index + 1..], inString)
    ensures body[index] == BACKSLASH && inString && index + 1 == |body| ==> Scan(body[index..], inString)
    ensures body[index] == BACKSLASH && inString && index + 1 < |body| && body[index + 1] != LETTER_U ==>
      Scan(body[index..], inString) == Scan(body[index + 2..], true)
  {
    hide HexQuad, PairFollows;
    Drops(body, index, index + 1);
    if index + 1 < |body| {
      Drops(body, index, index + 2);
    }
  }

  lemma QuadIs(body: seq<byte>, start: nat)
    ensures HexQuad(body, start).Some? <==> HexAt(body, start)
    ensures HexAt(body, start) ==> HexQuad(body, start).value == HexPrefix(body, start, 4)
  {
  }

  lemma Drops(body: seq<byte>, from: nat, index: nat)
    requires from <= index <= |body|
    ensures body[index..] == body[from..][index - from..]
  {
  }

  // ---------------------------------------------------------------------
  // JSON text as tokens
  // ---------------------------------------------------------------------

  /** One character of a JSON string as it is written. */
  datatype Item = Plain(b: byte) | Short(c: byte) | Unicode(digits: seq<byte>)

  /** A byte between strings, or a whole string. */
  datatype Piece = Outside(b: byte) | Text(items: seq<Item>)

  predicate ItemOk(i: Item) {
    match i
    case Plain(b) => b != QUOTE && b != BACKSLASH
    case Short(c) => c != LETTER_U
    case Unicode(d) => |d| == 4 && HexAt(d, 0)
  }

  ghost predicate PieceOk(p: Piece) {
    match p
    case Outside(b) => b != QUOTE && b != BACKSLASH
    case Text(items) => forall i :: i in items ==> ItemOk(i)
  }

  function Written(i: Item): (r: seq<byte>) {
    match i
    case Plain(b) => [b]
    case Short(c) => [BACKSLASH, c]
    case Unicode(d) => [BACKSLASH, LETTER_U] + d
  }

  function WrittenItems(items: seq<Item>): (r: seq<byte>) {
    if items == [] then [] else Written(items[0]) + WrittenItems(items[1..])
  }

  function Json(ps: seq<Piece>): (r: seq<byte>) {
    if ps == [] then []
    else match ps[0]
         case Outside(b) => [b] + Json(ps[1..])
         case Text(items) => [QUOTE] + WrittenItems(items) + [QUOTE] + Json(ps[1..])
  }

  predicate IsHigh(i: Item) { i.Unicode? && HexQuad(i.digits, 0).Some? && High(HexQuad(i.digits, 0).value) }

  predicate IsLow(i: Item) { i.Unicode? && HexQuad(i.digits, 0).Some? && Low(HexQuad(i.digits, 0).value) }

  /** A surrogate escape at `k` stands in an adjacent high-low pair. */
  predicate PairedAt(items: seq<Item>, k: nat)
    requires k < |items|
  {
    && (IsHigh(items[k]) ==> k + 1 < |items| && IsLow(items[k + 1]))
    && (IsLow(items[k]) ==> k > 0 && IsHigh(items[k - 1]))
  }

  ghost predicate Paired(items: seq<Item>) {
    forall k :: 0 <= k < |items| ==> PairedAt(items, k)
  }

  ghost predicate AllPaired(ps: seq<Piece>) {
    forall p :: p in ps && p.Text? ==> Paired(p.items)
  }

  /** The same, read from the left. */
  predicate Greedy(items: seq<Item>) {
    if items == [] then true
    else if IsLow(items[0]) then false
    else if IsHigh(items[0]) then |items| > 1 && IsLow(items[1]) && Greedy(items[2..])
    else Greedy(items[1..])
  }

  lemma {:induction false} GreedyIsPaired(items: seq<Item>)
    ensures Greedy(items) <==> Paired(items)
    decreases |items|
  {
    hide IsHigh, IsLow;
    if items != [] {
      Exclusive(items[0]);
      var n := if IsHigh(items[0]) && |items| > 1 then 2 else 1;
      var rest := items[n..];
      GreedyIsPaired(rest);
      if n == 2 {
        Exclusive(items[1]);
      }
      if Greedy(items) {
        forall k | 0 <= k < |items| ensures PairedAt(items, k) {
          if k >= n {
            assert PairedAt(rest, k - n);
          }
        }
      }
      if Paired(items) {
        assert PairedAt(items, 0);
        forall k | 0 <= k < |rest| ensures PairedAt(rest, k) {
          assert PairedAt(items, k + n);
          if k == 0 {
            assert n == 2 ==> IsLow(items[1]);
          }
        }
      }
    }
  }

  lemma Exclusive(i: Item)
    ensures !(IsHigh(i) && IsLow(i))
  {
  }

  // ---------------------------------------------------------------------
  // The scan answers the question about the tokens
  // ---------------------------------------------------------------------

  /** A whole escape is read in one step. */
  lemma ScanUnicode(d: seq<byte>, tail: seq<byte>)
    requires |d| == 4 && HexAt(d, 0)
    ensures var s := Written(Unicode(d)) + tail;
      && |s| == |tail| + 6 && s[0] == BACKSLASH && s[1] == LETTER_U && s[6..] == tail
      && HexQuad(s, 2) == HexQuad(d, 0) && HexQuad(s, 2).Some?
  {
    var s := Written(Unicode(d)) + tail;
    assert s[2..] == d + tail;
    HexShift(s, 2, 0);
    assert forall i :: 0 <= i < 4 ==> s[2..][i] == d[i];
    SameDigits(s[2..], d, 4);
  }

  lemma {:induction false} SameDigits(a: seq<byte>, b: seq<byte>, n: nat)
    requires n <= |a| && n <= |b| && a[..n] == b[..n]
    requires forall i :: 0 <= i < n ==> HexDigit(b[i])
    ensures forall i :: 0 <= i < n ==> HexDigit(a[i])
    ensures HexPrefix(a, 0, n) == HexPrefix(b, 0, n)
  {
    assert forall i :: 0 <= i < n ==> a[i] == a[..n][i] == b[..n][i] == b[i];
    if n > 0 {
      assert a[..n - 1] == a[..n][..n - 1];
      assert b[..n - 1] == b[..n][..n - 1];
      SameDigits(a, b, n - 1);
    }
  }

  lemma EscapeFollows(d: seq<byte>, e: seq<byte>, more: seq<byte>)
    requires |d| == 4 == |e| && HexAt(d, 0) && HexAt(e, 0) && more != []
    ensures var s := Written(Unicode(d)) + (Written(Unicode(e)) + more);
      && (PairFollows(s) <==> IsLow(Unicode(e)))
      && |s| >= 12 && s[12..] == more
  {
    hide HexQuad, Low;
    var after := Written(Unicode(e)) + more;
    var s := Written(Unicode(d)) + after;
    ScanUnicode(d, after);
    ScanUnicode(e, more);
    HexShift(s, 6, 2);
    assert s[6] == after[0] && s[7] == after[1];
    assert s[12..] == after[6..];
  }

  lemma NoEscapeFollows(d: seq<byte>, after: seq<byte>)
    requires |d| == 4 && HexAt(d, 0) && after != []
    requires after[0] == BACKSLASH ==> |after| > 1 && after[1] != LETTER_U
    ensures !PairFollows(Written(Unicode(d)) + after)
  {
    hide HexQuad;
    ScanUnicode(d, after);
    var s := Written(Unicode(d)) + after;
    assert forall i :: 6 <= i < |s| ==> s[i] == after[i - 6];
  }

  /** What follows a high surrogate is its pair exactly when the next item is a low surrogate. */
  lemma PairIsNext(d: seq<byte>, rest: seq<Item>, tail: seq<byte>)
    requires |d| == 4 && HexAt(d, 0) && forall i :: i in rest ==> ItemOk(i)
    requires tail != [] && tail[0] == QUOTE
    ensures var s := Written(Unicode(d)) + (WrittenItems(rest) + tail);
      && (PairFollows(s) <==> rest != [] && IsLow(rest[0]))
      && (rest != [] && IsLow(rest[0]) ==> |s| >= 12 && s[12..] == WrittenItems(rest[1..]) + tail)
  {
    hide HexAt, PairFollows;
    var after := WrittenItems(rest) + tail;
    if rest == [] {
      assert after == tail;
      NoEscapeFollows(d, after);
    } else {
      assert ItemOk(rest[0]);
      var more := WrittenItems(rest[1..]) + tail;
      assert after == Written(rest[0]) + more;
      if rest[0].Unicode? {
        EscapeFollows(d, rest[0].digits, more);
      } else {
        NoEscapeFollows(d, after);
      }
    }
  }

  lemma {:induction false} ScanItems(items: seq<Item>, tail: seq<byte>)
    requires forall i :: i in items ==> ItemOk(i)
    requires tail != [] && tail[0] == QUOTE
    ensures Scan(WrittenItems(items) + tail, true) == (Greedy(items) && Scan(tail[1..], false))
    decreases |items|
  {
    hide HexQuad, High, Low, PairFollows;
    if items == [] {
      assert WrittenItems(items) + tail == tail;
    } else {
      var rest := items[1..];
      var after := WrittenItems(rest) + tail;
      var s := WrittenItems(items) + tail;
      assert s == Written(items[0]) + after;
      assert ItemOk(items[0]);
      ScanItems(rest, tail);
      match items[0] {
        case Plain(b) => assert s[1..] == after;
        case Short(c) => assert s[2..] == after;
        case Unicode(d) =>
          ScanUnicode(d, after);
          PairIsNext(d, rest, tail);
          ExclusiveValue(d);
          if IsHigh(items[0]) && rest != [] && IsLow(rest[0]) {
            ScanItems(rest[1..], tail);
            assert items[2..] == rest[1..];
          }
      }
    }
  }

  lemma ExclusiveValue(d: seq<byte>)
    ensures HexQuad(d, 0).Some? ==> !(High(HexQuad(d, 0).value) && Low(HexQuad(d, 0).value))
  {
  }

  /**
   * On every text whose strings are well formed the scan accepts exactly when each
   * surrogate escape of each string is one half of an adjacent pair.
   */
  lemma {:induction false} ScanAcceptsExactlyPaired(ps: seq<Piece>)
    requires forall p :: p in ps ==> PieceOk(p)
    ensures Scan(Json(ps), false) <==> AllPaired(ps)
    decreases |ps|
  {
    hide Paired, Scan, AllPaired, PieceOk;
    if ps == [] {
      NothingToPair();
      ScanEnds();
    } else {
      ScanAcceptsExactlyPaired(ps[1..]);
      assert PieceOk(ps[0]);
      AllPairedSplit(ps);
      ScanPiece(ps[0], ps[1..]);
      assert ps == [ps[0]] + ps[1..];
    }
  }

  lemma ScanEnds()
    ensures Scan([], false)
  {
  }

  lemma ScanQuote(tail: seq<byte>, inString: bool)
    ensures Scan([QUOTE] + tail, inString) == Scan(tail, !inString)
  {
    assert ([QUOTE] + tail)[1..] == tail;
  }

  lemma ScanOutside(b: byte, tail: seq<byte>)
    requires b != QUOTE && b != BACKSLASH
    ensures Scan([b] + tail, false) == Scan(tail, false)
  {
    assert ([b] + tail)[1..] == tail;
  }

  /** One token at the front decides its own part of the answer. */
  lemma ScanPiece(p: Piece, ps: seq<Piece>)
    requires PieceOk(p)
    ensures Scan(Json([p] + ps), false) == ((p.Text? ==> Paired(p.items)) && Scan(Json(ps), false))
  {
    hide Paired, Scan, Greedy, WrittenItems, ItemOk;
    assert ([p] + ps)[1..] == ps;
    match p {
      case Outside(b) => ScanOutside(b, Json(ps));
      case Text(items) =>
        var tail := [QUOTE] + Json(ps);
        assert Json([p] + ps) == [QUOTE] + (WrittenItems(items) + tail);
        ScanQuote(WrittenItems(items) + tail, false);
        assert tail[1..] == Json(ps);
        ScanItems(items, tail);
        GreedyIsPaired(items);
    }
  }

  lemma NothingToPair()
    ensures AllPaired([])
  {
  }

  lemma AllPairedSplit(ps: seq<Piece>)
    requires ps != []
    ensures AllPaired(ps) <==> (ps[0].Text? ==> Paired(ps[0].items)) && AllPaired(ps[1..])
  {
    hide Paired;
    assert ps == [ps[0]] + ps[1..];
  }
}
