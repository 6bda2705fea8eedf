/** The message builder of `src/message.c` and the recursive writer of `src/lc_message.c`. */
module MessageBuilder {
  import opened Tokens
  import opened Encoding

  const BUILDER_SIZE: nat := 16

  /** A builder at a moment. */
  datatype State = State(toks: seq<Token>, bytes: int, count: int, refs: int)

  /** The tokens `ts` with the bodies `bs` appended, and the indices these refer to flagged. */
  ghost function Extended(ts: seq<Token>, bs: seq<Body>): seq<Token> {
    seq(|ts| + |bs|, i requires 0 <= i < |ts| + |bs| =>
      Token(if i < |ts| then ts[i].body else bs[i - |ts|], (i < |ts| && ts[i].referenced) || Refers(bs, i)))
  }

  /** A builder in state `a` after the bodies `bs` were written as `n` values. */
  ghost function After(a: State, bs: seq<Body>, n: int): State {
    State(Extended(a.toks, bs), a.bytes + CountedAll(bs), a.count + n, a.refs + 2 * RefCount(bs))
  }

  lemma RefsWithinJoin(a: seq<Body>, b: seq<Body>, n: int, m: int)
    requires RefsWithin(a, n) && RefsWithin(b, m) && n <= m
    ensures RefsWithin(a + b, m)
  {
  }

  lemma AfterNothing(a: State)
    ensures After(a, [], 0) == a
  {
    assert Extended(a.toks, []) == a.toks;
  }

  /** A fresh builder ends up with the finished token array. */
  lemma AfterAll(bs: seq<Body>, n: int)
    ensures After(State([], 0, 0, 0), bs, n) == State(Flagged(bs), CountedAll(bs), n, 2 * RefCount(bs))
  {
    assert Extended([], bs) == Flagged(bs);
  }

  lemma AfterJoin(a: State, bs: seq<Body>, m: int, cs: seq<Body>, n: int)
    requires RefsWithin(bs, |a.toks| + |bs|)
    ensures After(After(a, bs, m), cs, n) == After(a, bs + cs, m + n)
  {
    SumsConcat(bs, cs);
    forall i {
      RefersConcat(bs, cs, i);
    }
    assert Extended(Extended(a.toks, bs), cs) == Extended(a.toks, bs + cs);
  }

  /** A push, and the filling in of a token's counts when the `n` values after it belong to it. */
  ghost function Pushed(a: State, b: Body): State {
    State(a.toks + [Token(b, false)], a.bytes + Counted(b), a.count + 1, a.refs)
  }

  ghost function Patched(a: State, idx: nat, b: Body, n: int): State
    requires idx < |a.toks|
  {
    a.(toks := a.toks[idx := a.toks[idx].(body := b)], count := a.count - n)
  }

  lemma AfterPatch(a: State, first: Body, bs: seq<Body>, n: nat, last: Body)
    requires !first.TReference? && !last.TReference? && Counted(first) == Counted(last)
    ensures Patched(After(Pushed(a, first), bs, n), |a.toks|, last, n) == After(a, [last] + bs, 1)
  {
    var c := After(Pushed(a, first), bs, n);
    SumsConcat([last], bs);
    forall i {
      RefersConcat([last], bs, i);
    }
    assert c.toks[|a.toks| := c.toks[|a.toks|].(body := last)] == Extended(a.toks, [last] + bs);
  }

  /** What the encoding `e`, started in state `a`, makes of the builder. */
  ghost predicate Yields(a: State, e: Encoded, n: int, b: State, refmap: map<nat, nat>) {
    && b == After(a, e.toks, n) && refmap == e.seen
    && |b.toks| == |a.toks| + |e.toks| && RefsWithin(e.toks, |b.toks|)
  }

  lemma YieldsLonger(a: State, e: Encoded, n: int, b: State, refmap: map<nat, nat>)
    requires Yields(a, e, n, b, refmap)
    ensures |a.toks| <= |b.toks|
  {
  }

  lemma TableYields(g: Graph, a: nat, s: State, seen: map<nat, nat>, c: State, d: State, refmap: map<nat, nat>)
    requires Closed(g) && a in g && a !in seen
    requires var n, base := |g[a].pairs|, |s.toks|;
             && Yields(Pushed(s, TTable(0, 0)), EncPairs(g, g[a].pairs, base + 1, seen[a := base]), 2 * n, c, refmap)
             && d == Patched(c, base, TTable(n, g[a].objlen), 2 * n)
    ensures Yields(s, Enc(g, Table(a), |s.toks|, seen), 1, d, refmap)
  {
    var n, base := |g[a].pairs|, |s.toks|;
    var rest := EncPairs(g, g[a].pairs, base + 1, seen[a := base]);
    AfterPatch(s, TTable(0, 0), rest.toks, 2 * n, TTable(n, g[a].objlen));
    RefsWithinJoin([TTable(n, g[a].objlen)], rest.toks, 0, |d.toks|);
  }

  lemma FunctionYields(g: Graph, code: seq<byte>, ups: seq<Value>, s: State, seen: map<nat, nat>, c: State, d: State,
                       refmap: map<nat, nat>)
    requires Closed(g) && Within(g, Function(code, ups))
    requires Yields(Pushed(s, TFunction(0, code)), EncAll(g, ups, |s.toks| + 1, seen), |ups|, c, refmap)
    requires d == Patched(c, |s.toks|, TFunction(|ups|, code), |ups|)
    ensures Yields(s, Enc(g, Function(code, ups), |s.toks|, seen), 1, d, refmap)
  {
    var rest := EncAll(g, ups, |s.toks| + 1, seen);
    AfterPatch(s, TFunction(0, code), rest.toks, |ups|, TFunction(|ups|, code));
    RefsWithinJoin([TFunction(|ups|, code)], rest.toks, 0, |d.toks|);
  }

  /** In a loop: from `start`, the bodies `done` were written as `n` values, and the encoding
      `rest` of what is left completes `e`. */
  ghost predicate Midway(start: State, e: Encoded, done: seq<Body>, n: int, now: State, rest: Encoded) {
    && now == After(start, done, n)
    && |now.toks| == |start.toks| + |done| && RefsWithin(done, |now.toks|)
    && e.toks == done + rest.toks && e.seen == rest.seen
  }

  lemma MidwayStep(start: State, e: Encoded, done: seq<Body>, n: int, now: State, rest: Encoded,
                   one: seq<Body>, m: int, next: State, left: Encoded)
    requires Midway(start, e, done, n, now, rest)
    requires rest.toks == one + left.toks && rest.seen == left.seen
    requires next == After(now, one, m) && |next.toks| == |now.toks| + |one| && RefsWithin(one, |next.toks|)
    ensures Midway(start, e, done + one, n + m, next, left)
  {
    AfterJoin(start, done, n, one, m);
    RefsWithinJoin(done, one, |now.toks|, |next.toks|);
    assert done + (one + left.toks) == (done + one) + left.toks;
  }

  lemma MidwayDone(start: State, e: Encoded, done: seq<Body>, n: int, now: State, rest: Encoded)
    requires Midway(start, e, done, n, now, rest) && rest.toks == []
    ensures Yields(start, e, n, now, e.seen)
  {
    assert e.toks == done;
  }

  lemma {:induction false} PairYields(g: Graph, pair: (Value, Value), s0: State, m0: map<nat, nat>,
                                      s1: State, m1: map<nat, nat>,
                   s2: State, m2: map<nat, nat>)
    requires Closed(g) && Within(g, pair.0) && Within(g, pair.1)
    requires Yields(s0, Enc(g, pair.0, |s0.toks|, m0), 1, s1, m1)
    requires Yields(s1, Enc(g, pair.1, |s1.toks|, m1), 1, s2, m2)
    ensures Yields(s0, EncPair(g, pair, |s0.toks|, m0), 2, s2, m2)
  {
    var key, val := Enc(g, pair.0, |s0.toks|, m0), Enc(g, pair.1, |s1.toks|, m1);
    AfterJoin(s0, key.toks, 1, val.toks, 1);
    RefsWithinJoin(key.toks, val.toks, |s1.toks|, |s2.toks|);
  }

  lemma PairsStep(g: Graph, pairs: seq<(Value, Value)>, i: nat, start: State, e: Encoded, done: seq<Body>,
                  s0: State, m0: map<nat, nat>, s1: State, m1: map<nat, nat>)
    returns (more: seq<Body>)
    requires Closed(g) && PairsWithin(g, pairs) && i < |pairs|
    requires Midway(start, e, done, 2 * i, s0, EncPairs(g, pairs[i..], |s0.toks|, m0))
    requires Yields(s0, EncPair(g, pairs[i], |s0.toks|, m0), 2, s1, m1)
    ensures Midway(start, e, more, 2 * (i + 1), s1, EncPairs(g, pairs[i + 1..], |s1.toks|, m1))
  {
    EncPairsAt(g, pairs, i, |s0.toks|, m0);
    var one := EncPair(g, pairs[i], |s0.toks|, m0);
    more := done + one.toks;
    MidwayStep(start, e, done, 2 * i, s0, EncPairs(g, pairs[i..], |s0.toks|, m0), one.toks, 2, s1,
               EncPairs(g, pairs[i + 1..], |s1.toks|, m1));
  }

  lemma AllStep(g: Graph, vs: seq<Value>, i: nat, start: State, e: Encoded, done: seq<Body>,
                s0: State, m0: map<nat, nat>, s1: State, m1: map<nat, nat>)
    returns (more: seq<Body>)
    requires Closed(g) && (forall v :: v in vs ==> Within(g, v)) && i < |vs|
    requires Midway(start, e, done, i, s0, EncAll(g, vs[i..], |s0.toks|, m0))
    requires Yields(s0, Enc(g, vs[i], |s0.toks|, m0), 1, s1, m1)
    ensures Midway(start, e, more, i + 1, s1, EncAll(g, vs[i + 1..], |s1.toks|, m1))
  {
    EncAllAt(g, vs, i, |s0.toks|, m0);
    more := done + Enc(g, vs[i], |s0.toks|, m0).toks;
    MidwayStep(start, e, done, i, s0, EncAll(g, vs[i..], |s0.toks|, m0), Enc(g, vs[i], |s0.toks|, m0).toks, 1, s1,
               EncAll(g, vs[i + 1..], |s1.toks|, m1));
  }

  lemma Referred(ts: seq<Token>, ref: nat)
    requires ref < |ts|
    ensures ts[ref := ts[ref].(referenced := true)] + [Token(TReference(ref), false)] == Extended(ts, [TReference(ref)])
  {
    assert [TReference(ref)][0] == TReference(ref);
  }

  class Builder {
    var values: array<Token>
    var last: nat
    var bytes: int
    var count: int
    var refs: int
    var refmap: map<nat, nat>

    /** The first `last` tokens of the array are in use; every table on record is one of them. */
    ghost predicate Valid()
      reads this
    {
      last <= values.Length && 0 < values.Length && forall a :: a in refmap ==> refmap[a] < last
    }

    ghost function Now(): State
      requires Valid()
      reads this, values
    {
      State(values[..last], bytes, count, refs)
    }

    constructor ()
      ensures Valid() && Now() == State([], 0, 0, 0) && refmap == map[] && fresh(values)
    {
      values := new Token[BUILDER_SIZE](_ => Token(TNil, false));
      last, bytes, count, refs, refmap := 0, 0, 0, 0, map[];
    }

    /** `next_index`: a full array is replaced by one of twice the size, with the same tokens. */
    method NextIndex() returns (idx: nat)
      requires Valid()
      modifies this`values, this`last
      ensures Valid() && idx == old(last) && last == idx + 1
      ensures values[..idx] == old(values[..last])
      ensures if old(last) == old(values.Length) then fresh(values) && values.Length == 2 * old(values.Length)
              else values == old(values)
    {
      if last == values.Length {
        var n := new Token[2 * last](_ => Token(TNil, false));
        var i := 0;
        while i < last
          invariant i <= last && n[..i] == values[..i]
          modifies n
        {
          n[i] := values[i];
          i := i + 1;
        }
        values := n;
      }
      idx := last;
      last := last + 1;
    }

    /** What all of `lc_pushnil` to `lc_pushfunction` do. */
    method Push(b: Body) returns (idx: nat)
      requires Valid()
      modifies this, values
      ensures Valid() && idx == old(last) && last == idx + 1 && refmap == old(refmap)
      ensures Now() == Pushed(old(Now()), b)
      ensures values == old(values) || fresh(values)
    {
      ghost var before := values[..last];
      idx := NextIndex();
      values[idx] := Token(b, false);
      assert values[..idx] == before;
      assert values[..last] == before + [Token(b, false)];
      bytes := bytes + Counted(b);
      count := count + 1;
    }

    /** `lc_pushreference`. */
    method PushReference(ref: nat)
      requires Valid() && ref < last
      modifies this, values
      ensures Valid() && refmap == old(refmap) && last == old(last) + 1
      ensures Now().(refs := refs + 1) == After(old(Now()), [TReference(ref)], 1)
      ensures values == old(values) || fresh(values)
    {
      ghost var before := values[..last];
      refs := refs + 1;
      values[ref] := values[ref].(referenced := true);
      assert values[..last] == before[ref := before[ref].(referenced := true)];
      var _ := Push(TReference(ref));
      Referred(before, ref);
      SumsOfOne(TReference(ref));
    }

    /** `lc_settable` and `lc_setfunction`: the token at `idx` gets its counts, and the values
        written since no longer count as separate. */
    method Patch(idx: nat, b: Body, written: nat)
      requires Valid() && idx < last
      modifies this`count, values
      ensures Valid() && Now() == Patched(old(Now()), idx, b, written)
    {
      ghost var before := values[..last];
      values[idx] := values[idx].(body := b);
      assert values[..last] == before[idx := before[idx].(body := b)];
      count := count - written;
    }

    /** `write_value`. */
    method WriteValue(g: Graph, v: Value)
      requires Valid() && Closed(g) && Within(g, v)
      modifies this, values
      ensures values == old(values) || fresh(values)
      ensures Valid()
      ensures Yields(old(Now()), Enc(g, v, old(last), old(refmap)), 1, Now(), refmap)
      decreases Unseen(g, refmap), 1, Weight(v), 1
    {
      match v
      case Table(a) => WriteTable(g, a);
      case Function(code, ups) => WriteFunction(g, code, ups);
      case Nil => WriteLeaf(TNil);
      case Bool(b) => WriteLeaf(if b then TTrue else TFalse);
      case Number(n) => WriteLeaf(TNumber(n));
      case String(s) => WriteLeaf(TString(s));
    }

    method WriteLeaf(b: Body)
      requires Valid() && !b.TReference?
      modifies this, values
      ensures values == old(values) || fresh(values)
      ensures Valid()
      ensures Yields(old(Now()), Encoded([b], old(refmap)), 1, Now(), refmap)
    {
      ghost var s := Now();
      var _ := Push(b);
      AfterPatch(s, b, [], 0, b);
      AfterNothing(Now());
      assert [b] + [] == [b];
    }

    /** The table case: a reference when `ref_check` knows the table, else the table itself. */
    method WriteTable(g: Graph, a: nat)
      requires Valid() && Closed(g) && a in g
      modifies this, values
      ensures values == old(values) || fresh(values)
      ensures Valid()
      ensures Yields(old(Now()), Enc(g, Table(a), old(last), old(refmap)), 1, Now(), refmap)
      decreases Unseen(g, refmap), 1, Weight(Table(a)), 0
    {
      hide EncPairs, Unseen, After, PairsWithin;
      if a in refmap {
        PushReference(refmap[a]);
        refs := refs + 1;
        return;
      }
      UnseenShrinks(g, refmap, refmap[a := last]);
      WriteNewTable(g, a);
    }

    /** On record before its pairs are written. */
    method WriteNewTable(g: Graph, a: nat)
      requires Valid() && Closed(g) && a in g && a !in refmap
      modifies this, values
      ensures values == old(values) || fresh(values)
      ensures Valid()
      ensures Yields(old(Now()), Enc(g, Table(a), old(last), old(refmap)), 1, Now(), refmap)
      decreases Unseen(g, refmap[a := last]), 4, 0, 0
    {
      hide Enc, EncPairs, Unseen, After, Yields, Counted;
      ghost var s, seen := Now(), refmap;
      EncTable(g, a, last, refmap);
      var idx := Push(TTable(0, 0));
      refmap := refmap[a := idx];
      var slots := WritePairs(g, g[a].pairs);
      ghost var c := Now();
      YieldsLonger(Pushed(s, TTable(0, 0)), EncPairs(g, g[a].pairs, idx + 1, seen[a := idx]), 2 * slots, c, refmap);
      Patch(idx, TTable(slots, g[a].objlen), 2 * slots);
      TableYields(g, a, s, seen, c, Now(), refmap);
    }

    /** The `lua_next` loop. */
    method WritePairs(g: Graph, pairs: seq<(Value, Value)>) returns (slots: nat)
      requires Valid() && Closed(g) && PairsWithin(g, pairs)
      modifies this, values
      ensures values == old(values) || fresh(values)
      ensures Valid() && slots == |pairs|
      ensures Yields(old(Now()), EncPairs(g, pairs, old(last), old(refmap)), 2 * slots, Now(), refmap)
      decreases Unseen(g, refmap), 3, 0, 0
    {
      slots := 0;
      ghost var start, seen := Now(), refmap;
      ghost var e := EncPairs(g, pairs, last, refmap);
      ghost var done: seq<Body> := [];
      AfterNothing(start);
      assert pairs[0..] == pairs;
      while slots < |pairs|
        invariant Valid() && slots <= |pairs| && seen.Keys <= refmap.Keys
        invariant values == old(values) || fresh(values)
        invariant Midway(start, e, done, 2 * slots, Now(), EncPairs(g, pairs[slots..], last, refmap))
      {
        ghost var s0, m0 := Now(), refmap;
        UnseenShrinks(g, seen, refmap);
        WritePair(g, pairs[slots]);
        done := PairsStep(g, pairs, slots, start, e, done, s0, m0, Now(), refmap);
        slots := slots + 1;
      }
      assert pairs[slots..] == [];
      MidwayDone(start, e, done, 2 * slots, Now(), EncPairs(g, pairs[slots..], last, refmap));
    }

    /** Key, then value. */
    method WritePair(g: Graph, pair: (Value, Value))
      requires Valid() && Closed(g) && Within(g, pair.0) && Within(g, pair.1)
      modifies this, values
      ensures values == old(values) || fresh(values)
      ensures Valid()
      ensures Yields(old(Now()), EncPair(g, pair, old(last), old(refmap)), 2, Now(), refmap)
      decreases Unseen(g, refmap), 2, 0, 0
    {
      ghost var s0, m0 := Now(), refmap;
      WriteValue(g, pair.0);
      ghost var s1, m1 := Now(), refmap;
      UnseenShrinks(g, m0, m1);
      WriteValue(g, pair.1);
      PairYields(g, pair, s0, m0, s1, m1, Now(), refmap);
    }

    method WriteFunction(g: Graph, code: seq<byte>, ups: seq<Value>)
      requires Valid() && Closed(g) && Within(g, Function(code, ups))
      modifies this, values
      ensures values == old(values) || fresh(values)
      ensures Valid()
      ensures Yields(old(Now()), Enc(g, Function(code, ups), old(last), old(refmap)), 1, Now(), refmap)
      decreases Unseen(g, refmap), 1, Weight(Function(code, ups)), 0
    {
      ghost var s, seen := Now(), refmap;
      var idx := Push(TFunction(0, code));
      WriteAll(g, ups);
      ghost var c := Now();
      Patch(idx, TFunction(|ups|, code), |ups|);
      FunctionYields(g, code, ups, s, seen, c, Now(), refmap);
    }

    /** The loop over upvalues, and the one over the arguments in `lua_newmessage`. */
    method WriteAll(g: Graph, vs: seq<Value>)
      requires Valid() && Closed(g) && forall v :: v in vs ==> Within(g, v)
      modifies this, values
      ensures values == old(values) || fresh(values)
      ensures Valid()
      ensures Yields(old(Now()), EncAll(g, vs, old(last), old(refmap)), |vs|, Now(), refmap)
      decreases Unseen(g, refmap), 1, WeightAll(vs), 2
    {
      hide Enc, EncAll, Within, Closed, Unseen, WeightAll;
      ghost var start, seen := Now(), refmap;
      ghost var e := EncAll(g, vs, last, refmap);
      ghost var done: seq<Body> := [];
      AfterNothing(start);
      assert vs[0..] == vs;
      var i := 0;
      while i < |vs|
        invariant Valid() && i <= |vs| && seen.Keys <= refmap.Keys
        invariant values == old(values) || fresh(values)
        invariant Midway(start, e, done, i, Now(), EncAll(g, vs[i..], last, refmap))
      {
        ghost var s0, m0 := Now(), refmap;
        UnseenShrinks(g, seen, refmap);
        WeightOfElement(vs, i);
        WriteValue(g, vs[i]);
        done := AllStep(g, vs, i, start, e, done, s0, m0, Now(), refmap);
        i := i + 1;
      }
      assert vs[i..] == [];
      EncAllNothing(g, last, refmap);
      MidwayDone(start, e, done, i, Now(), EncAll(g, vs[i..], last, refmap));
    }
  }
}
