/** The byte form of a message in `src/message.c`: what `msg_new` writes, what `msg_next` reads
    back, and how far the byte count kept by the builder lets it read. */
module Wire {
  import opened Options
  import opened Tokens

  const T_NIL := 0x01
  const T_TRUE := 0x02
  const T_FALSE := 0x03
  const T_NUMBER := 0x04
  const T_STRING := 0x05
  const T_TABLE := 0x06
  const T_FUNCTION := 0x07
  const T_REFERENCE := 0x0a
  const T_REFERENCED := 0x20
  const T_META := 0x40

  const WORD := 0x1_0000_0000

  // ---------- Four-byte integers, least byte first ----------

  predicate FitsInt(x: int) {
    -0x8000_0000 <= x < 0x8000_0000
  }

  function IntBytes(x: int): (r: seq<byte>)
    ensures |r| == 4
  {
    var u := x % WORD;
    [(u % 0x100) as byte, (u / 0x100 % 0x100) as byte, (u / 0x1_0000 % 0x100) as byte, (u / 0x100_0000) as byte]
  }

  function BytesInt(b: seq<byte>): (x: int)
    requires |b| == 4
    ensures FitsInt(x)
  {
    var u := b[0] as int + 0x100 * b[1] as int + 0x1_0000 * b[2] as int + 0x100_0000 * b[3] as int;
    if u < 0x8000_0000 then u else u - WORD
  }

  lemma IntRoundTrip(x: int)
    requires FitsInt(x)
    ensures BytesInt(IntBytes(x)) == x
  {
    var u := x % WORD;
    assert u / 0x1_0000 == u / 0x100 / 0x100;
    assert u / 0x100_0000 == u / 0x100 / 0x100 / 0x100;
    assert u == u % 0x100 + 0x100 * (u / 0x100 % 0x100) + 0x1_0000 * (u / 0x1_0000 % 0x100)
              + 0x100_0000 * (u / 0x100_0000);
    assert x >= 0 ==> u == x;
    assert x < 0 ==> u == x + WORD;
  }

  // ---------- Tokens as bytes ----------

  function Tag(b: Body): int {
    match b
    case TNil => T_NIL
    case TTrue => T_TRUE
    case TFalse => T_FALSE
    case TNumber(_) => T_NUMBER
    case TString(_) => T_STRING
    case TTable(_, _) => T_TABLE
    case TFunction(_, _) => T_FUNCTION
    case TReference(_) => T_REFERENCE
  }

  function TypeWord(t: Token): int {
    Tag(t.body) + if t.referenced then T_REFERENCED else 0
  }

  function Payload(b: Body): seq<byte> {
    match b
    case TNil => []
    case TTrue => []
    case TFalse => []
    case TNumber(n) => n
    case TString(s) => IntBytes(|s|) + s
    case TTable(slots, objlen) => IntBytes(slots) + IntBytes(objlen)
    case TFunction(upvals, code) => IntBytes(upvals) + IntBytes(|code|) + code
    case TReference(ref) => IntBytes(ref)
  }

  function TokenBytes(t: Token): seq<byte> {
    IntBytes(TypeWord(t)) + Payload(t.body)
  }

  /** A double has eight bytes, and what goes through an `int` fits one. */
  ghost predicate Representable(t: Token) {
    match t.body
    case TNumber(n) => |n| == 8
    case TString(s) => FitsInt(|s|)
    case TTable(slots, objlen) => FitsInt(slots) && FitsInt(objlen)
    case TFunction(upvals, code) => FitsInt(upvals) && FitsInt(|code|)
    case TReference(ref) => FitsInt(ref)
    case _ => true
  }

  /** Part of a token as an integer. */
  ghost function IntIn(w: seq<byte>, i: nat): int
    requires i + 4 <= |w|
  {
    BytesInt(w[i..i + 4])
  }

  /** The four bytes of the type: its code, with 0x20 for a value that is referred to, come first. */
  lemma {:induction false} TypeComesFirst(t: Token)
    ensures var w, code := TokenBytes(t), match t.body
                                          case TNil => 1
                                          case TTrue => 2
                                          case TFalse => 3
                                          case TNumber(_) => 4
                                          case TString(_) => 5
                                          case TTable(_, _) => 6
                                          case TFunction(_, _) => 7
                                          case TReference(_) => 10;
            w[0] as int == code + (if t.referenced then 32 else 0) && w[1] == w[2] == w[3] == 0
  {
    hide IntBytes, Payload;
    OneByte(TypeWord(t));
  }

  lemma OneByte(x: int)
    requires 0 <= x < 0x100
    ensures IntBytes(x) == [x as byte, 0, 0, 0]
  {
  }

  /** Where the parts of a token lie, and how long it is. */
  lemma {:induction false} Layout(t: Token)
    requires Representable(t)
    ensures var w := TokenBytes(t);
            match t.body
            case TNumber(n) => |w| == 12 && w[4..] == n
            case TString(s) => |w| == 8 + |s| && IntIn(w, 4) == |s| && w[8..] == s
            case TTable(slots, objlen) => |w| == 12 && IntIn(w, 4) == slots && IntIn(w, 8) == objlen
            case TFunction(upvals, code) =>
              |w| == 12 + |code| && IntIn(w, 4) == upvals && IntIn(w, 8) == |code| && w[12..] == code
            case TReference(ref) => |w| == 8 && IntIn(w, 4) == ref
            case _ => |w| == 4
  {
    hide IntBytes, BytesInt, TypeWord, FitsInt;
    var w := TokenBytes(t);
    match t.body
    case TString(s) =>
      assert w[4..8] == IntBytes(|s|);
      IntRoundTrip(|s|);
    case TTable(slots, objlen) =>
      assert w[4..8] == IntBytes(slots) && w[8..12] == IntBytes(objlen);
      IntRoundTrip(slots);
      IntRoundTrip(objlen);
    case TFunction(upvals, code) =>
      assert w[4..8] == IntBytes(upvals) && w[8..12] == IntBytes(|code|);
      IntRoundTrip(upvals);
      IntRoundTrip(|code|);
    case TReference(ref) =>
      assert w[4..8] == IntBytes(ref);
      IntRoundTrip(ref);
    case _ =>
  }

  ghost function Serialize(ts: seq<Token>): seq<byte> {
    if ts == [] then [] else TokenBytes(ts[0]) + Serialize(ts[1..])
  }

  /** The bytes written are those counted and four more for every reference. */
  lemma {:induction false} WrittenBytes(ts: seq<Token>)
    ensures |Serialize(ts)| == CountedAll(Bodies(ts)) + 4 * RefCount(Bodies(ts))
  {
    if ts != [] {
      WrittenBytes(ts[1..]);
      assert Bodies(ts)[1..] == Bodies(ts[1..]);
    }
  }

  // ---------- Reading ----------

  /** The type word without its two flags. */
  function BaseType(word: int): int {
    var u := word % WORD;
    u - T_REFERENCED * (u / T_REFERENCED % 2) - T_META * (u / T_META % 2)
  }

  function IsReferenced(word: int): bool {
    word % WORD / T_REFERENCED % 2 == 1
  }

  lemma TypeWordParts(t: Token)
    ensures FitsInt(TypeWord(t)) && BaseType(TypeWord(t)) == Tag(t.body) && IsReferenced(TypeWord(t)) == t.referenced
  {
  }

  /** The int at an offset, if the block goes that far. */
  function IntAt(data: seq<byte>, pos: nat): Option<int> {
    if pos + 4 <= |data| then Some(BytesInt(data[pos..pos + 4])) else None
  }

  function SliceAt(data: seq<byte>, pos: nat, n: int): Option<seq<byte>> {
    if 0 <= n && pos + n <= |data| then Some(data[pos..pos + n]) else None
  }

  /** `msg_next` at offset `pos` of a message whose size field allows `size` bytes: a token and the
      offset after it. None is the result -1, and also what would leave the block. */
  function Next(data: seq<byte>, size: int, pos: nat): (r: Option<(Token, nat)>)
    ensures r.Some? ==> pos < r.value.1 <= |data|
  {
    if pos >= size then None
    else
      match IntAt(data, pos)
      case None => None
      case Some(word) =>
        var b := NextBody(data, BaseType(word), pos + 4);
        if b.None? then None else Some((Token(b.value.0, IsReferenced(word)), b.value.1))
  }

  function NextBody(data: seq<byte>, tag: int, pos: nat): (r: Option<(Body, nat)>)
    requires pos <= |data|
    ensures r.Some? ==> pos <= r.value.1 <= |data|
  {
    if tag == T_NIL then Some((TNil, pos))
    else if tag == T_TRUE then Some((TTrue, pos))
    else if tag == T_FALSE then Some((TFalse, pos))
    else if tag == T_NUMBER then
      var n := SliceAt(data, pos, 8);
      if n.None? then None else Some((TNumber(n.value), pos + 8))
    else if tag == T_STRING then
      var len := IntAt(data, pos);
      if len.None? then None
      else
        var s := SliceAt(data, pos + 4, len.value);
        if s.None? then None else Some((TString(s.value), pos + 4 + |s.value|))
    else if tag == T_TABLE then
      var slots, objlen := IntAt(data, pos), IntAt(data, pos + 4);
      if slots.None? || objlen.None? then None else Some((TTable(slots.value, objlen.value), pos + 8))
    else if tag == T_FUNCTION then
      var upvals, len := IntAt(data, pos), IntAt(data, pos + 4);
      if upvals.None? || len.None? then None
      else
        var code := SliceAt(data, pos + 8, len.value);
        if code.None? then None else Some((TFunction(upvals.value, code.value), pos + 8 + |code.value|))
    else if tag == T_REFERENCE then
      var ref := IntAt(data, pos);
      if ref.None? then None else Some((TReference(ref.value), pos + 4))
    else None
  }

  lemma IntAtOffset(data: seq<byte>, pos: nat, x: int, rest: seq<byte>)
    requires pos <= |data| && data[pos..] == IntBytes(x) + rest && FitsInt(x)
    ensures IntAt(data, pos) == Some(x) && pos + 4 <= |data| && data[pos + 4..] == rest
  {
    IntRoundTrip(x);
    assert data[pos..pos + 4] == data[pos..][..4] == IntBytes(x);
    assert data[pos + 4..] == data[pos..][4..];
  }

  lemma SliceAtOffset(data: seq<byte>, pos: nat, s: seq<byte>, rest: seq<byte>)
    requires pos <= |data| && data[pos..] == s + rest
    ensures SliceAt(data, pos, |s|) == Some(s) && pos + |s| <= |data| && data[pos + |s|..] == rest
  {
    assert data[pos..pos + |s|] == data[pos..][..|s|] == s;
    assert data[pos + |s|..] == data[pos..][|s|..];
  }

  /** Where a token was written, it is read back, with the offset of what follows. */
  lemma NextReads(data: seq<byte>, size: int, pos: nat, t: Token, rest: seq<byte>)
    requires pos <= |data| && data[pos..] == TokenBytes(t) + rest && Representable(t)
    ensures pos < size ==> Next(data, size, pos) == Some((t, pos + |TokenBytes(t)|))
    ensures pos >= size ==> Next(data, size, pos) == None
    ensures pos + |TokenBytes(t)| <= |data| && data[pos + |TokenBytes(t)|..] == rest
  {
    TypeWordParts(t);
    assert TokenBytes(t) + rest == IntBytes(TypeWord(t)) + (Payload(t.body) + rest);
    IntAtOffset(data, pos, TypeWord(t), Payload(t.body) + rest);
    BodyReads(data, pos + 4, t, rest);
    SliceAtOffset(data, pos, TokenBytes(t), rest);
  }

  lemma BodyReads(data: seq<byte>, pos: nat, t: Token, rest: seq<byte>)
    requires pos <= |data| && data[pos..] == Payload(t.body) + rest && Representable(t)
    ensures NextBody(data, Tag(t.body), pos) == Some((t.body, pos + |Payload(t.body)|))
  {
    hide IntBytes, BytesInt, FitsInt, IntAt, SliceAt;
    match t.body
    case TNumber(n) => SliceAtOffset(data, pos, n, rest);
    case TString(s) =>
      assert Payload(t.body) + rest == IntBytes(|s|) + (s + rest);
      IntAtOffset(data, pos, |s|, s + rest);
      SliceAtOffset(data, pos + 4, s, rest);
    case TTable(slots, objlen) =>
      assert Payload(t.body) + rest == IntBytes(slots) + (IntBytes(objlen) + rest);
      IntAtOffset(data, pos, slots, IntBytes(objlen) + rest);
      IntAtOffset(data, pos + 4, objlen, rest);
    case TFunction(upvals, code) =>
      assert Payload(t.body) + rest == IntBytes(upvals) + (IntBytes(|code|) + (code + rest));
      IntAtOffset(data, pos, upvals, IntBytes(|code|) + (code + rest));
      IntAtOffset(data, pos + 4, |code|, code + rest);
      SliceAtOffset(data, pos + 8, code, rest);
    case TReference(ref) => IntAtOffset(data, pos, ref, rest);
    case _ =>
  }

  /** Every token that a cursor returns from offset `pos` on. */
  ghost function ReadAll(data: seq<byte>, size: int, pos: nat): seq<Token>
    decreases |data| - pos
  {
    var r := Next(data, size, pos);
    if r.None? then [] else [r.value.0] + ReadAll(data, size, r.value.1)
  }

  lemma ReadsOn(data: seq<byte>, size: int, pos: nat)
    ensures var r := Next(data, size, pos);
            ReadAll(data, size, pos) == if r.None? then [] else [r.value.0] + ReadAll(data, size, r.value.1)
  {
  }

  lemma WritesOn(ts: seq<Token>)
    ensures Serialize(ts) == if ts == [] then [] else TokenBytes(ts[0]) + Serialize(ts[1..])
  {
  }

  lemma {:induction false} ReadsWritten(data: seq<byte>, size: int, pos: nat, ts: seq<Token>)
    requires pos <= |data| && data[pos..] == Serialize(ts) && forall t :: t in ts ==> Representable(t)
    ensures ReadAll(data, size, pos) <= ts
    ensures ReadAll(data, size, pos) == ts <==> ts == [] || |data| - |TokenBytes(ts[|ts| - 1])| < size
    decreases |ts|
  {
    hide TokenBytes, Representable, ReadAll, Serialize;
    ReadsOn(data, size, pos);
    WritesOn(ts);
    if ts == [] {
      assert pos == |data|;
    } else {
      hide Next;
      NextReads(data, size, pos, ts[0], Serialize(ts[1..]));
      var next := pos + |TokenBytes(ts[0])|;
      assert |data| - pos == |TokenBytes(ts[0])| + |Serialize(ts[1..])|;
      assert ts == [ts[0]] + ts[1..];
      if pos < size {
        ReadsWritten(data, size, next, ts[1..]);
        Prefixed(ts[0], ReadAll(data, size, next), ts[1..]);
        WritesOn(ts[1..]);
        if |ts| > 1 { assert ts[|ts| - 1] == ts[1..][|ts| - 2]; }
      } else {
        LastToken(ts);
      }
    }
  }

  lemma Prefixed(t: Token, a: seq<Token>, b: seq<Token>)
    ensures a <= b ==> [t] + a <= [t] + b
    ensures [t] + a == [t] + b <==> a == b
  {
    assert ([t] + a)[1..] == a && ([t] + b)[1..] == b;
  }

  lemma {:induction false} LastToken(ts: seq<Token>)
    requires ts != []
    ensures |Serialize(ts)| >= |TokenBytes(ts[|ts| - 1])|
  {
    if |ts| > 1 { LastToken(ts[1..]); }
  }

  /** A message's size field counts four bytes too few for every reference. So the cursor returns
      a prefix of the tokens, and all of them just when the last one is longer than that. */
  lemma ByteRoundTrip(ts: seq<Token>)
    requires forall t :: t in ts ==> Representable(t)
    ensures var read := ReadAll(Serialize(ts), CountedAll(Bodies(ts)), 0);
            && read <= ts
            && (read == ts <==> ts == [] || 4 * RefCount(Bodies(ts)) < |TokenBytes(ts[|ts| - 1])|)
  {
    var data := Serialize(ts);
    assert data[0..] == data;
    WrittenBytes(ts);
    ReadsWritten(data, CountedAll(Bodies(ts)), 0, ts);
  }
}
