/** The recursive reader of `src/lc_message.c`: `decode_value` and `lua_decodemessage`, moving a
    cursor over the tokens and filling tables as it goes. */
module MessageDecoder {
  import opened Options
  import opened Tokens
  import opened Encoding
  import opened Decoding

  class Decoder {
    const ts: seq<Token>
    var pos: nat
    var refs: map<int, Value>
    var heap: seq<seq<(Value, Value)>>

    ghost function Now(): Reader
      reads this
    {
      Reader(pos, refs, heap)
    }

    constructor (ts: seq<Token>)
      ensures this.ts == ts && Now() == START
    {
      this.ts, pos, refs, heap := ts, 0, map[], [];
    }

    /** `decode_value`: none when there is no further token, or when the stream breaks off. */
    method DecodeValue() returns (r: Option<Value>)
      requires pos <= |ts|
      modifies this
      ensures var d := Dec(ts, old(Now()));
              if d.None? then r.None? else r == Some(d.value.0) && Now() == d.value.1
      ensures old(pos) == |ts| ==> Now() == old(Now())
      decreases |ts| - pos, 0
    {
      if pos >= |ts| {
        return None;
      }
      var index, t := pos, ts[pos];
      pos := pos + 1;
      match t.body
      case TNil => r := Some(Nil);
      case TTrue => r := Some(Bool(true));
      case TFalse => r := Some(Bool(false));
      case TNumber(n) => r := Some(Number(n));
      case TString(s) => r := Some(String(s));
      case TTable(slots, _) =>
        var addr := |heap|;
        heap := heap + [[]];
        if t.referenced {
          refs := refs[index := Table(addr)];
        }
        var ok := FillTable(addr, slots);
        r := if ok then Some(Table(addr)) else None;
      case TFunction(n, code) =>
        var ups := DecodeUpvalues(n);
        r := if ups.None? then None else Some(Function(code, ups.value));
      case TReference(ref) => r := Some(if ref in refs then refs[ref] else Nil);
    }

    /** The loop over the slots of a table: key, value, `lua_rawset`. */
    method FillTable(addr: nat, slots: int) returns (ok: bool)
      requires addr < |heap| && pos <= |ts|
      modifies this
      ensures var d := DecPairs(ts, old(Now()), addr, slots);
              if d.None? then !ok else ok && Now() == d.value
      decreases |ts| - pos, 1
    {
      var i := slots;
      while i != 0
        invariant addr < |heap| && old(pos) <= pos <= |ts|
        invariant DecPairs(ts, old(Now()), addr, slots) == DecPairs(ts, Now(), addr, i)
        decreases |ts| - pos
      {
        var key := DecodeValue();
        if key.None? {
          return false;
        }
        var val := DecodeValue();
        if val.None? {
          return false;
        }
        var put := Set(heap[addr], key.value, val.value);
        if put.None? {
          return false;
        }
        heap := heap[addr := put.value];
        i := i - 1;
      }
      ok := true;
    }

    /** `lua_rawset` on the pairs of one table. */
    static method Set(pairs: seq<(Value, Value)>, k: Value, v: Value) returns (r: Option<seq<(Value, Value)>>)
      ensures r == RawSet(pairs, k, v)
    {
      if k == Nil {
        return None;
      }
      var i := 0;
      while i < |pairs| && (k.Function? || pairs[i].0 != k)
        invariant i <= |pairs| && Find(pairs, k) == i + Find(pairs[i..], k)
      {
        assert pairs[i..][1..] == pairs[i + 1..];
        i := i + 1;
      }
      if i < |pairs| {
        r := Some(if v == Nil then pairs[..i] + pairs[i + 1..] else pairs[i := (k, v)]);
      } else {
        r := Some(if v == Nil then pairs else pairs + [(k, v)]);
      }
    }

    /** The loop over the upvalues of a function. */
    method DecodeUpvalues(n: int) returns (ups: Option<seq<Value>>)
      requires pos <= |ts|
      modifies this
      ensures var d := DecCount(ts, old(Now()), n);
              if d.None? then ups.None? else ups == Some(d.value.0) && Now() == d.value.1
      decreases |ts| - pos, 1
    {
      var i, done := 0, [];
      assert forall us: seq<Value> :: [] + us == us;
      while i < n
        invariant 0 <= i && (i <= n || n < 0) && old(pos) <= pos <= |ts|
        invariant var d, c := DecCount(ts, old(Now()), n), DecCount(ts, Now(), n - i);
                  if c.None? then d.None? else d == Some((done + c.value.0, c.value.1))
      {
        ghost var c := DecCount(ts, Now(), n - i);
        var v := DecodeValue();
        if v.None? {
          return None;
        }
        ghost var rest := DecCount(ts, Now(), n - i - 1);
        assert rest.Some? ==> done + ([v.value] + rest.value.0) == (done + [v.value]) + rest.value.0;
        done := done + [v.value];
        i := i + 1;
      }
      assert done + [] == done;
      ups := Some(done);
    }

    /** `lua_decodemessage`: an empty message gives one nil. */
    method DecodeMessage(count: int) returns (us: seq<Value>)
      requires Now() == START
      modifies this
      ensures us == if count == 0 then [Nil] else DecTop(ts, START).0
      ensures count != 0 && DecTop(ts, START).1.pos == |ts| ==> Now() == DecTop(ts, START).1
    {
      if count == 0 {
        return [Nil];
      }
      us := [];
      while true
        invariant pos <= |ts| && DecTop(ts, START).0 == us + DecTop(ts, Now()).0
        invariant DecTop(ts, START).1 == DecTop(ts, Now()).1
        decreases |ts| - pos
      {
        ghost var rest := DecTop(ts, Now()).0;
        var v := DecodeValue();
        if v.None? {
          assert rest == [];
          return;
        }
        assert us + rest == (us + [v.value]) + DecTop(ts, Now()).0;
        us := us + [v.value];
      }
    }
  }
}
