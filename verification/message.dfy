/** `msg_new` and `msg_next` of `src/message.c` on a block of bytes, and whole messages from
    one Lua state to another. */
module Message {
  import opened Options
  import opened Sequences
  import opened Tokens
  import opened Encoding
  import Sharing
  import opened Decoding
  import opened Wire
  import Sizes
  import B = MessageBuilder
  import D = MessageDecoder

  /** `mem_write`: the bytes go to the write position, which moves on. */
  method Store(block: array<byte>, p: nat, bytes: seq<byte>) returns (q: nat)
    requires p + |bytes| <= block.Length
    modifies block
    ensures q == p + |bytes| && block[..q] == old(block[..p]) + bytes && block[q..] == old(block[q..])
  {
    forall i | 0 <= i < |bytes| { block[p + i] := bytes[i]; }
    q := p + |bytes|;
  }

  lemma SerializeNext(ts: seq<Token>, i: nat)
    requires i < |ts|
    ensures Serialize(ts[i..]) == IntBytes(TypeWord(ts[i])) + Payload(ts[i].body) + Serialize(ts[i + 1..])
  {
    assert ts[i..][0] == ts[i] && ts[i..][1..] == ts[i + 1..];
  }

  /** The writing loop of `msg_new`, into a block that is large enough. */
  method WriteTokens(ts: seq<Token>, block: array<byte>) returns (p: nat)
    requires |Serialize(ts)| <= block.Length
    modifies block
    ensures p == |Serialize(ts)| && block[..p] == Serialize(ts) && block[p..] == old(block[p..])
  {
    hide Serialize, IntBytes, TypeWord, Payload;
    p := 0;
    var i := 0;
    assert ts[0..] == ts;
    while i < |ts|
      invariant 0 <= i <= |ts| && p <= block.Length && p + |Serialize(ts[i..])| == |Serialize(ts)|
      invariant block[..p] + Serialize(ts[i..]) == Serialize(ts)
      invariant block[p..] == old(block[p..])
    {
      ghost var done := block[..p];
      ghost var first, second, rest := IntBytes(TypeWord(ts[i])), Payload(ts[i].body), Serialize(ts[i + 1..]);
      SerializeNext(ts, i);
      p := Store(block, p, IntBytes(TypeWord(ts[i])));
      p := Store(block, p, Payload(ts[i].body));
      Flatten4(done, first, second, rest);
      i := i + 1;
    }
    assert ts[i..] == [];
    NothingSerialized();
  }

  lemma NothingSerialized()
    ensures Serialize([]) == []
  {
  }

  /** What `msg_new` allocates is enough for what it writes just when there is no reference. */
  lemma AllocationSuffices(ts: seq<Token>)
    ensures |Serialize(ts)| <= CountedAll(Bodies(ts)) <==> RefCount(Bodies(ts)) == 0
  {
    WrittenBytes(ts);
  }

  class MsgCursor {
    const data: seq<byte>
    const size: int
    var pos: nat
    var count: nat

    constructor (data: seq<byte>, size: int)
      ensures this.data == data && this.size == size && pos == 0 && count == 0
    {
      this.data, this.size, pos, count := data, size, 0, 0;
    }

    /** `msg_next`: the running index of the token, or -1. */
    method MsgNext() returns (index: int, t: Token)
      modifies this
      ensures var r := Next(data, size, old(pos));
              if r.None? then index == -1 && pos == old(pos) && count == old(count)
              else index == old(count) && count == old(count) + 1 && (t, pos) == r.value
    {
      var r := Next(data, size, pos);
      if r.None? {
        return -1, Token(TNil, false);
      }
      index, t, pos, count := count, r.value.0, r.value.1, count + 1;
    }

    /** A fresh cursor run to the end: token `i` comes with index `i`. */
    method Drain() returns (ts: seq<Token>)
      requires pos == 0 && count == 0
      modifies this
      ensures ts == ReadAll(data, size, 0) && count == |ts|
    {
      ts := [];
      var index, t := MsgNext();
      while index != -1
        invariant index != -1 ==> index == |ts| && count == |ts| + 1
        invariant index != -1 ==> pos <= |data| && ts + ([t] + ReadAll(data, size, pos)) == ReadAll(data, size, 0)
        invariant index == -1 ==> count == |ts| && ts == ReadAll(data, size, 0)
        decreases index != -1, |data| - pos
      {
        ghost var rest := ReadAll(data, size, pos);
        assert ts + ([t] + rest) == (ts + [t]) + rest;
        ts := ts + [t];
        index, t := MsgNext();
      }
    }
  }

  lemma FlaggedBodies(bs: seq<Body>)
    ensures Bodies(Flagged(bs)) == bs
  {
  }

  /** `lua_newmessage`: the tokens that go into a message, and its counters. */
  method NewMessage(g: Graph, vs: seq<Value>) returns (ts: seq<Token>, bytes: int, count: int, refs: int)
    requires Closed(g) && forall v :: v in vs ==> Within(g, v)
    ensures var bs := EncAll(g, vs, 0, map[]).toks;
            ts == Flagged(bs) && bytes == CountedAll(bs) && count == |vs| && refs == 2 * RefCount(bs)
  {
    hide Enc, EncAll, RefCount, CountedAll, Unseen, Refers, Flagged, B.After, B.Extended;
    var mb := new B.Builder();
    mb.WriteAll(g, vs);
    B.AfterAll(EncAll(g, vs, 0, map[]).toks, |vs|);
    ts, bytes, count, refs := mb.values[..mb.last], mb.bytes, mb.count, mb.refs;
  }

  /** From the values of one state, through tokens, to those of another: no bytes in between. */
  method Transfer(g: Graph, vs: seq<Value>)
    returns (us: seq<Value>, heap: seq<seq<(Value, Value)>>, ghost phi: map<nat, nat>)
    requires Proper(g) && forall v :: v in vs ==> Within(g, v)
    ensures vs != [] ==> |us| == |vs| && Isomorphic(g, vs, us, heap, phi)
    ensures vs == [] ==> us == [Nil]
  {
    var ts, _, count, _ := NewMessage(g, vs);
    var d := new D.Decoder(ts);
    phi := RoundTrip(g, vs);
    us := d.DecodeMessage(count);
    heap := d.heap;
  }

  /** What decides whether the size field of a message reaches its last token. */
  ghost predicate ReachesEnd(ts: seq<Token>) {
    ts == [] || 4 * RefCount(Bodies(ts)) < |TokenBytes(ts[|ts| - 1])|
  }

  /** The same told from the values: four bytes for every mention of a table but the first of each
      are less than the length of the last token. */
  ghost predicate Survives(g: Graph, vs: seq<Value>)
    requires Closed(g) && forall v :: v in vs ==> Within(g, v)
  {
    vs == [] || 4 * (|Sharing.AllMentions(g, vs)| - |Sharing.Reached(g, vs)|) < Sizes.LastBytesAll(g, {}, vs)
  }

  lemma {:induction false} SurvivesExactly(g: Graph, vs: seq<Value>)
    requires Closed(g) && forall v :: v in vs ==> Within(g, v)
    ensures ReachesEnd(Flagged(EncAll(g, vs, 0, map[]).toks)) <==> Survives(g, vs)
  {
    hide EncAll, TokenBytes, RefCount, Sharing.AllMentions, Sharing.Reached, Sizes.LastBytesAll;
    Sharing.ReferencesExactly(g, vs);
    EncAllNothing(g, 0, map[]);
    if vs != [] { Sizes.LastTokenBytes(g, vs); }
    FlaggedBodies(EncAll(g, vs, 0, map[]).toks);
  }

  /** The same through bytes. If the size field reaches the last token, the values come back, and
      otherwise there are too few of them. */
  lemma EndToEnd(g: Graph, vs: seq<Value>) returns (phi: map<nat, nat>)
    requires Proper(g) && forall v :: v in vs ==> Within(g, v)
    requires Sizes.AllFit(g, vs) && Sizes.TokenCount(g, vs) <= 0x8000_0000
    ensures var bs := EncAll(g, vs, 0, map[]).toks;
            var (us, end) := DecTop(ReadAll(Serialize(Flagged(bs)), CountedAll(bs), 0), START);
            && (Survives(g, vs) ==> |us| == |vs| && Isomorphic(g, vs, us, end.heap, phi))
            && (!Survives(g, vs) ==> |us| < |vs|)
  {
    hide Enc, EncAll, Serialize, TokenBytes, Representable, ReadAll, DecTop, RefCount, CountedAll, Unseen, Survives;
    var bs := EncAll(g, vs, 0, map[]).toks;
    Sizes.RepresentableExactly(g, vs);
    FlaggedBodies(bs);
    ByteRoundTrip(Flagged(bs));
    SurvivesExactly(g, vs);
    phi := RoundTrip(g, vs);
  }

  /** A message in which no table is mentioned twice has no reference, is written within the block
      that `msg_new` allocates, and comes back. */
  method Deliver(g: Graph, vs: seq<Value>)
    returns (us: seq<Value>, heap: seq<seq<(Value, Value)>>, ghost phi: map<nat, nat>)
    requires Proper(g) && (forall v :: v in vs ==> Within(g, v)) && Sizes.AllFit(g, vs)
    requires forall a :: Sharing.AllMentions(g, vs)[a] <= 1
    ensures vs != [] ==> |us| == |vs| && Isomorphic(g, vs, us, heap, phi)
    ensures vs == [] ==> us == [Nil]
  {
    hide Enc, EncAll, Serialize, TokenBytes, Representable, ReadAll, DecTop, RefCount, CountedAll, Unseen,
         Sharing.AllMentions;
    var ts, bytes, count, _ := NewMessage(g, vs);
    ghost var bs := EncAll(g, vs, 0, map[]).toks;
    FlaggedBodies(bs);
    Sizes.RepresentableExactly(g, vs);
    Sharing.ReferencesExactly(g, vs);
    WrittenBytes(ts);
    NeverEmpty(ts);
    var block := new byte[bytes];
    us, heap, phi := SendThrough(g, vs, ts, bytes, count, block);
  }

  /** The same for every message, given four bytes more for every reference. It comes back whole
      if and only if these are less than the last token; else with fewer values. */
  method DeliverWithRoom(g: Graph, vs: seq<Value>)
    returns (us: seq<Value>, heap: seq<seq<(Value, Value)>>, ghost phi: map<nat, nat>)
    requires Proper(g) && forall v :: v in vs ==> Within(g, v)
    requires Sizes.AllFit(g, vs) && Sizes.TokenCount(g, vs) <= 0x8000_0000
    ensures vs != [] && Survives(g, vs) ==> |us| == |vs| && Isomorphic(g, vs, us, heap, phi)
    ensures vs != [] && !Survives(g, vs) ==> |us| < |vs|
    ensures vs == [] ==> us == [Nil]
  {
    hide Enc, EncAll, Serialize, TokenBytes, Representable, ReadAll, DecTop, RefCount, CountedAll, Unseen, Survives;
    var ts, bytes, count, refs := NewMessage(g, vs);
    ghost var bs := EncAll(g, vs, 0, map[]).toks;
    FlaggedBodies(bs);
    Sizes.RepresentableExactly(g, vs);
    WrittenBytes(ts);
    SurvivesExactly(g, vs);
    var block := new byte[bytes + 2 * refs];
    us, heap, phi := SendThrough(g, vs, ts, bytes, count, block);
  }

  lemma NeverEmpty(ts: seq<Token>)
    ensures RefCount(Bodies(ts)) == 0 ==> ReachesEnd(ts)
  {
    hide RefCount;
  }

  /** Writing into a block, reading from it up to the size field, decoding. */
  method SendThrough(g: Graph, vs: seq<Value>, ts: seq<Token>, bytes: int, count: int, block: array<byte>)
    returns (us: seq<Value>, heap: seq<seq<(Value, Value)>>, ghost phi: map<nat, nat>)
    requires Proper(g) && forall v :: v in vs ==> Within(g, v)
    requires ts == Flagged(EncAll(g, vs, 0, map[]).toks) && forall t :: t in ts ==> Representable(t)
    requires bytes == CountedAll(Bodies(ts)) && count == |vs| && block.Length == |Serialize(ts)|
    modifies block
    ensures vs != [] && ReachesEnd(ts) ==> |us| == |vs| && Isomorphic(g, vs, us, heap, phi)
    ensures vs != [] && !ReachesEnd(ts) ==> |us| < |vs|
    ensures vs == [] ==> us == [Nil]
  {
    hide Enc, EncAll, Serialize, TokenBytes, Representable, ReadAll, DecTop, RefCount, CountedAll, Unseen;
    var size := WriteTokens(ts, block);
    assert block[..] == block[..size];
    ByteRoundTrip(ts);
    var cursor := new MsgCursor(block[..], bytes);
    var read := cursor.Drain();
    phi := RoundTrip(g, vs);
    var d := new D.Decoder(read);
    us := d.DecodeMessage(count);
    heap := d.heap;
    if read != ts { assert read < ts; }
  }

  /** One empty table sent twice, then nil: the nil is never read back, and is missing. */
  lemma SharedTableLosesNil()
    ensures var g := map[0 := TableObj(0, [])];
            var vs := [Table(0), Table(0), Nil];
            && Proper(g) && (forall v :: v in vs ==> Within(g, v))
            && var bs := EncAll(g, vs, 0, map[]).toks;
               |ReadAll(Serialize(Flagged(bs)), CountedAll(bs), 0)| < |bs|
  {
    hide Enc, EncAll, EncPairs, EncPair, Unseen, ReadAll, Serialize, Next, CountedAll, RefCount;
    var g: Graph := map[0 := TableObj(0, [])];
    var vs := [Table(0), Table(0), Nil];
    var bs := [TTable(0, 0), TReference(0), TNil];
    SharedTokens(g);
    FlaggedBodies(bs);
    assert bs == [TTable(0, 0)] + ([TReference(0)] + [TNil]);
    SumsConcat([TTable(0, 0)], [TReference(0)] + [TNil]);
    SumsConcat([TReference(0)], [TNil]);
    SumsOfOne(TTable(0, 0));
    SumsOfOne(TReference(0));
    SumsOfOne(TNil);
    ByteRoundTrip(Flagged(bs));
    assert |TokenBytes(Flagged(bs)[2])| == 4;
  }

  lemma SharedTokens(g: Graph)
    requires g == map[0 := TableObj(0, [])]
    ensures Closed(g) && EncAll(g, [Table(0), Table(0), Nil], 0, map[]).toks == [TTable(0, 0), TReference(0), TNil]
  {
    hide Unseen;
    var v0, v1, v2 := [Table(0), Table(0), Nil], [Table(0), Nil], [Nil];
    assert v0[1..] == v1 && v1[1..] == v2 && v2[1..] == [];
    var seen := map[0 := 0 as nat];
    assert map[][0 := 0 as nat] == seen;
    assert Enc(g, Table(0), 0, map[]) == Encoded([TTable(0, 0)] + EncPairs(g, [], 1, seen).toks, seen);
    assert EncAll(g, v2, 2, seen) == Encoded([TNil] + EncAll(g, [], 3, seen).toks, seen);
    assert EncAll(g, v1, 1, seen) == Encoded([TReference(0)] + [TNil], seen);
  }
}
