/** `write_value` of `src/lc_message.c` as a function: the tokens that a value becomes when
    they are appended at a given index, with the tables met so far and their indices. */
module Encoding {
  import opened Tokens

  datatype Encoded = Encoded(toks: seq<Body>, seen: map<nat, nat>)

  ghost function Weight(v: Value): nat
    decreases v
  {
    match v
    case Function(_, ups) => 1 + WeightAll(ups)
    case _ => 1
  }

  ghost function WeightAll(vs: seq<Value>): nat
    decreases vs
  {
    if vs == [] then 0 else 1 + Weight(vs[0]) + WeightAll(vs[1..])
  }

  /** How many tables are not among those of `k`. */
  ghost function Remaining(g: Graph, k: set<nat>): nat {
    |g.Keys - k|
  }

  lemma RemainingShrinks(g: Graph, k: set<nat>, more: set<nat>)
    requires k <= more
    ensures Remaining(g, more) <= Remaining(g, k)
    ensures (exists a :: a in g && a in more && a !in k) ==> Remaining(g, more) < Remaining(g, k)
  {
    var x, y := g.Keys - more, g.Keys - k;
    assert x <= y;
    SubsetSize(x, y);
    if a :| a in g && a in more && a !in k {
      assert x <= y - {a};
      SubsetSize(x, y - {a});
    }
  }

  /** The tables whose pairs are still to be written: what bounds the recursion on a cyclic graph. */
  ghost function Unseen(g: Graph, seen: map<nat, nat>): nat {
    Remaining(g, seen.Keys)
  }

  lemma UnseenShrinks(g: Graph, seen: map<nat, nat>, more: map<nat, nat>)
    requires seen.Keys <= more.Keys
    ensures Unseen(g, more) <= Unseen(g, seen)
    ensures (exists a :: a in g && a in more && a !in seen) ==> Unseen(g, more) < Unseen(g, seen)
  {
    RemainingShrinks(g, seen.Keys, more.Keys);
  }

  lemma {:induction false} SubsetSize<T>(x: set<T>, y: set<T>)
    requires x <= y
    ensures |x| <= |y|
  {
    if x != {} {
      var e :| e in x;
      SubsetSize(x - {e}, y - {e});
    }
  }

  ghost function Enc(g: Graph, v: Value, base: nat, seen: map<nat, nat>): (e: Encoded)
    requires Closed(g) && Within(g, v)
    ensures seen.Keys <= e.seen.Keys
    decreases Unseen(g, seen), 1, Weight(v)
  {
    match v
    case Nil => Encoded([TNil], seen)
    case Bool(b) => Encoded([if b then TTrue else TFalse], seen)
    case Number(n) => Encoded([TNumber(n)], seen)
    case String(s) => Encoded([TString(s)], seen)
    case Table(a) =>
      if a in seen then
        var ref := seen[a];
        Encoded([TReference(ref)], seen)
      else
        UnseenShrinks(g, seen, seen[a := base]);
        var rest := EncPairs(g, g[a].pairs, base + 1, seen[a := base]);
        Encoded([TTable(|g[a].pairs|, g[a].objlen)] + rest.toks, rest.seen)
    case Function(code, ups) =>
      var rest := EncAll(g, ups, base + 1, seen);
      Encoded([TFunction(|ups|, code)] + rest.toks, rest.seen)
  }

  ghost function EncAll(g: Graph, vs: seq<Value>, base: nat, seen: map<nat, nat>): (e: Encoded)
    requires Closed(g) && forall v :: v in vs ==> Within(g, v)
    ensures seen.Keys <= e.seen.Keys
    decreases Unseen(g, seen), 1, WeightAll(vs)
  {
    if vs == [] then Encoded([], seen)
    else
      var first := Enc(g, vs[0], base, seen);
      UnseenShrinks(g, seen, first.seen);
      var rest := EncAll(g, vs[1..], base + |first.toks|, first.seen);
      Encoded(first.toks + rest.toks, rest.seen)
  }

  ghost function EncPair(g: Graph, pair: (Value, Value), base: nat, seen: map<nat, nat>): (e: Encoded)
    requires Closed(g) && Within(g, pair.0) && Within(g, pair.1)
    ensures seen.Keys <= e.seen.Keys
    decreases Unseen(g, seen), 2, 0
  {
    var key := Enc(g, pair.0, base, seen);
    UnseenShrinks(g, seen, key.seen);
    var val := Enc(g, pair.1, base + |key.toks|, key.seen);
    Encoded(key.toks + val.toks, val.seen)
  }

  ghost function EncPairs(g: Graph, pairs: seq<(Value, Value)>, base: nat, seen: map<nat, nat>): (e: Encoded)
    requires Closed(g) && PairsWithin(g, pairs)
    ensures seen.Keys <= e.seen.Keys
    decreases Unseen(g, seen), 3, |pairs|
  {
    if pairs == [] then Encoded([], seen)
    else
      var first := EncPair(g, pairs[0], base, seen);
      UnseenShrinks(g, seen, first.seen);
      var rest := EncPairs(g, pairs[1..], base + |first.toks|, first.seen);
      Encoded(first.toks + rest.toks, rest.seen)
  }

  lemma EncTable(g: Graph, a: nat, base: nat, seen: map<nat, nat>)
    requires Closed(g) && a in g && a !in seen
    ensures PairsWithin(g, g[a].pairs)
    ensures var rest := EncPairs(g, g[a].pairs, base + 1, seen[a := base]);
            Enc(g, Table(a), base, seen) == Encoded([TTable(|g[a].pairs|, g[a].objlen)] + rest.toks, rest.seen)
  {
  }

  lemma EncFunction(g: Graph, code: seq<byte>, ups: seq<Value>, base: nat, seen: map<nat, nat>)
    requires Closed(g) && Within(g, Function(code, ups))
    ensures forall v :: v in ups ==> Within(g, v)
    ensures var rest := EncAll(g, ups, base + 1, seen);
            Enc(g, Function(code, ups), base, seen) == Encoded([TFunction(|ups|, code)] + rest.toks, rest.seen)
  {
  }

  lemma EncAllNothing(g: Graph, base: nat, seen: map<nat, nat>)
    requires Closed(g)
    ensures EncAll(g, [], base, seen) == Encoded([], seen)
  {
  }

  lemma EncAllAt(g: Graph, vs: seq<Value>, i: nat, base: nat, seen: map<nat, nat>)
    requires Closed(g) && (forall v :: v in vs ==> Within(g, v)) && i < |vs|
    ensures var first := Enc(g, vs[i], base, seen);
            var rest := EncAll(g, vs[i + 1..], base + |first.toks|, first.seen);
            EncAll(g, vs[i..], base, seen) == Encoded(first.toks + rest.toks, rest.seen)
  {
    assert vs[i..][0] == vs[i] && vs[i..][1..] == vs[i + 1..];
  }

  lemma EncPairsAt(g: Graph, pairs: seq<(Value, Value)>, i: nat, base: nat, seen: map<nat, nat>)
    requires Closed(g) && PairsWithin(g, pairs) && i < |pairs|
    ensures var first := EncPair(g, pairs[i], base, seen);
            var rest := EncPairs(g, pairs[i + 1..], base + |first.toks|, first.seen);
            EncPairs(g, pairs[i..], base, seen) == Encoded(first.toks + rest.toks, rest.seen)
  {
    assert pairs[i..][0] == pairs[i] && pairs[i..][1..] == pairs[i + 1..];
  }

  lemma {:induction false} WeightOfElement(vs: seq<Value>, i: nat)
    requires i < |vs|
    ensures Weight(vs[i]) < WeightAll(vs)
  {
    if i > 0 {
      assert vs[1..][i - 1] == vs[i];
      WeightOfElement(vs[1..], i - 1);
    }
  }

  // ---------- What the tokens refer to ----------

  /** Indices on record are of tokens already there. */
  ghost predicate Recorded(seen: map<nat, nat>, n: int) {
    forall a :: a in seen ==> seen[a] < n
  }

  ghost predicate RefsWithin(bs: seq<Body>, n: int) {
    forall j :: 0 <= j < |bs| && bs[j].TReference? ==> 0 <= bs[j].ref < n
  }

  /** Reference `j` of the tokens at `base` leads back: to a table token among these, or to one
      recorded before. */
  ghost predicate LeadsBack(seen: map<nat, nat>, base: nat, bs: seq<Body>, j: nat)
    requires j < |bs| && bs[j].TReference?
  {
    var ref := bs[j].ref;
    && 0 <= ref < base + j
    && (if ref < base then exists a :: a in seen && seen[a] == ref else bs[ref - base].TTable?)
  }

  /** The token of table `a`: the number of its pairs, and what `lua_objlen` says of it. */
  ghost predicate Describes(g: Graph, a: nat, b: Body) {
    a in g && b == TTable(|g[a].pairs|, g[a].objlen)
  }

  /** What is put on record is the index of the table's own token, no two tables have the same, and
      what was there stays. */
  ghost predicate Records(g: Graph, seen: map<nat, nat>, base: nat, e: Encoded) {
    && (forall a :: a in seen ==> a in e.seen && e.seen[a] == seen[a])
    && (forall a :: a in e.seen && a !in seen ==>
          base <= e.seen[a] < base + |e.toks| && Describes(g, a, e.toks[e.seen[a] - base]))
    && (forall a, b :: a in e.seen && a !in seen && b in e.seen && b !in seen && e.seen[a] == e.seen[b] ==> a == b)
  }

  ghost predicate IsNew(seen: map<nat, nat>, more: map<nat, nat>, i: nat) {
    exists a :: a in more && a !in seen && more[a] == i
  }

  /** Every table token is that of a table newly on record. */
  ghost predicate Owned(seen: map<nat, nat>, base: nat, e: Encoded) {
    forall j :: 0 <= j < |e.toks| && e.toks[j].TTable? ==> IsNew(seen, e.seen, base + j)
  }

  /** The tokens of `e`, appended at `base`: every reference leads back to a table token, and
      there is one table token for every table that was not on record before. */
  ghost predicate Sound(g: Graph, seen: map<nat, nat>, base: nat, e: Encoded) {
    && Records(g, seen, base, e) && Owned(seen, base, e)
    && (forall j :: 0 <= j < |e.toks| && e.toks[j].TReference? ==> LeadsBack(seen, base, e.toks, j))
    && TableCount(e.toks) == |e.seen| - |seen|
  }

  lemma SoundRefs(g: Graph, seen: map<nat, nat>, base: nat, e: Encoded)
    requires Sound(g, seen, base, e)
    ensures RefsWithin(e.toks, base + |e.toks|)
  {
    forall j | 0 <= j < |e.toks| && e.toks[j].TReference? ensures 0 <= e.toks[j].ref < base + |e.toks| {
      assert LeadsBack(seen, base, e.toks, j);
    }
  }

  lemma SoundJoin(g: Graph, seen: map<nat, nat>, base: nat, e: Encoded, f: Encoded)
    requires Recorded(seen, base) && Sound(g, seen, base, e) && Sound(g, e.seen, base + |e.toks|, f)
    ensures Sound(g, seen, base, Encoded(e.toks + f.toks, f.seen))
  {
    hide LeadsBack, Records, Recorded, Owned, TableCount;
    SumsConcat(e.toks, f.toks);
    RecordsJoin(g, seen, base, e, f);
    OwnedJoin(g, seen, base, e, f);
    var bs := e.toks + f.toks;
    forall j | 0 <= j < |bs| && bs[j].TReference? ensures LeadsBack(seen, base, bs, j) {
      if j < |e.toks| {
        LeadsBackFirst(seen, base, e.toks, f.toks, j);
      } else {
        LeadsBackJoin(g, seen, base, e, f, j - |e.toks|);
      }
    }
  }

  lemma NewStays(g: Graph, seen: map<nat, nat>, base: nat, e: Encoded, f: Encoded, i: nat)
    requires Records(g, seen, base, e) && Records(g, e.seen, base + |e.toks|, f)
    ensures IsNew(seen, e.seen, i) || IsNew(e.seen, f.seen, i) ==> IsNew(seen, f.seen, i)
  {
    if IsNew(seen, e.seen, i) {
      var a :| a in e.seen && a !in seen && e.seen[a] == i;
      assert a in f.seen && f.seen[a] == i;
    } else if IsNew(e.seen, f.seen, i) {
      var a :| a in f.seen && a !in e.seen && f.seen[a] == i;
      assert a !in seen;
    }
  }

  lemma OwnedJoin(g: Graph, seen: map<nat, nat>, base: nat, e: Encoded, f: Encoded)
    requires Records(g, seen, base, e) && Records(g, e.seen, base + |e.toks|, f)
    requires Owned(seen, base, e) && Owned(e.seen, base + |e.toks|, f)
    ensures Owned(seen, base, Encoded(e.toks + f.toks, f.seen))
  {
    hide IsNew, Records;
    var bs := e.toks + f.toks;
    forall j | 0 <= j < |bs| && bs[j].TTable? ensures IsNew(seen, f.seen, base + j) {
      NewStays(g, seen, base, e, f, base + j);
      if j >= |e.toks| {
        var i := j - |e.toks|;
        assert f.toks[i].TTable? && base + |e.toks| + i == base + j;
      }
    }
  }

  lemma LeadsBackFirst(seen: map<nat, nat>, base: nat, bs: seq<Body>, more: seq<Body>, j: nat)
    requires j < |bs| && bs[j].TReference? && LeadsBack(seen, base, bs, j)
    ensures LeadsBack(seen, base, bs + more, j)
  {
  }

  /** Where a table recorded by two encodings in turn has its token. */
  lemma RecordedAt(g: Graph, seen: map<nat, nat>, base: nat, e: Encoded, f: Encoded, a: nat)
    requires Records(g, seen, base, e) && Records(g, e.seen, base + |e.toks|, f) && a in f.seen
    ensures a in seen ==> f.seen[a] == seen[a]
    ensures a in e.seen ==> f.seen[a] == e.seen[a]
    ensures a !in seen ==>
              base <= f.seen[a] < base + |e.toks + f.toks| && Describes(g, a, (e.toks + f.toks)[f.seen[a] - base])
    ensures a !in seen ==> (a in e.seen <==> f.seen[a] < base + |e.toks|)
  {
  }

  lemma RecordedApart(g: Graph, seen: map<nat, nat>, base: nat, e: Encoded, f: Encoded, a: nat, b: nat)
    requires Records(g, seen, base, e) && Records(g, e.seen, base + |e.toks|, f)
    requires a in f.seen && a !in seen && b in f.seen && b !in seen && f.seen[a] == f.seen[b]
    ensures a == b
  {
    RecordedAt(g, seen, base, e, f, a);
    RecordedAt(g, seen, base, e, f, b);
  }

  lemma RecordsMore(g: Graph, seen: map<nat, nat>, base: nat, e: Encoded, a: nat)
    requires Records(g, seen, base, e) && a in seen
    ensures a in e.seen
  {
  }

  lemma RecordsIntro(g: Graph, seen: map<nat, nat>, base: nat, e: Encoded)
    requires forall a :: a in seen ==> a in e.seen && e.seen[a] == seen[a]
    requires forall a :: a in e.seen && a !in seen ==>
               base <= e.seen[a] < base + |e.toks| && Describes(g, a, e.toks[e.seen[a] - base])
    requires forall a, b :: a in e.seen && a !in seen && b in e.seen && b !in seen && e.seen[a] == e.seen[b] ==> a == b
    ensures Records(g, seen, base, e)
  {
  }

  lemma RecordsJoin(g: Graph, seen: map<nat, nat>, base: nat, e: Encoded, f: Encoded)
    requires Records(g, seen, base, e) && Records(g, e.seen, base + |e.toks|, f)
    ensures Records(g, seen, base, Encoded(e.toks + f.toks, f.seen))
  {
    hide Records;
    forall a | a in seen ensures a in f.seen && f.seen[a] == seen[a] {
      RecordsMore(g, seen, base, e, a);
      RecordsMore(g, e.seen, base + |e.toks|, f, a);
      RecordedAt(g, seen, base, e, f, a);
    }
    forall a | a in f.seen && a !in seen
      ensures base <= f.seen[a] < base + |e.toks + f.toks| && Describes(g, a, (e.toks + f.toks)[f.seen[a] - base])
    {
      RecordedAt(g, seen, base, e, f, a);
    }
    forall a, b | a in f.seen && a !in seen && b in f.seen && b !in seen && f.seen[a] == f.seen[b] ensures a == b {
      RecordedApart(g, seen, base, e, f, a, b);
    }
    RecordsIntro(g, seen, base, Encoded(e.toks + f.toks, f.seen));
  }

  lemma LeadsBackJoin(g: Graph, seen: map<nat, nat>, base: nat, e: Encoded, f: Encoded, j: nat)
    requires Recorded(seen, base) && Records(g, seen, base, e)
    requires j < |f.toks| && f.toks[j].TReference? && LeadsBack(e.seen, base + |e.toks|, f.toks, j)
    ensures LeadsBack(seen, base, e.toks + f.toks, |e.toks| + j)
  {
    var ref := f.toks[j].ref;
    if ref < base + |e.toks| {
      var a :| a in e.seen && e.seen[a] == ref;
      if a in seen { assert seen[a] == ref; }
    }
  }

  lemma {:induction false} EncSound(g: Graph, v: Value, base: nat, seen: map<nat, nat>)
    requires Closed(g) && Within(g, v) && Recorded(seen, base)
    ensures Sound(g, seen, base, Enc(g, v, base, seen))
    decreases Unseen(g, seen), 1, Weight(v), 1
  {
    hide Recorded, Sound, EncAll, EncPairs, EncPair, Unseen, PairsWithin, Closed;
    match v
    case Table(a) =>
      if a in seen {
        SoundToken(g, seen, base, TReference(seen[a]), seen);
      } else {
        EncTableSound(g, a, base, seen);
      }
    case Function(code, ups) => EncFunctionSound(g, code, ups, base, seen);
    case Nil => SoundToken(g, seen, base, TNil, seen);
    case Bool(b) => SoundToken(g, seen, base, if b then TTrue else TFalse, seen);
    case Number(n) => SoundToken(g, seen, base, TNumber(n), seen);
    case String(s) => SoundToken(g, seen, base, TString(s), seen);
  }

  lemma {:induction false} EncTableSound(g: Graph, a: nat, base: nat, seen: map<nat, nat>)
    requires Closed(g) && a in g && a !in seen && Recorded(seen, base)
    ensures Sound(g, seen, base, Enc(g, Table(a), base, seen))
    decreases Unseen(g, seen), 1, Weight(Table(a)), 0
  {
    hide Recorded, Sound, Enc, EncAll, EncPairs, EncPair, Unseen, PairsWithin, Closed;
    EncTable(g, a, base, seen);
    UnseenShrinks(g, seen, seen[a := base]);
    var token, rest := TTable(|g[a].pairs|, g[a].objlen), EncPairs(g, g[a].pairs, base + 1, seen[a := base]);
    SoundTable(g, seen, base, a, token);
    EncPairsSound(g, g[a].pairs, base + 1, seen[a := base]);
    SoundJoin(g, seen, base, Encoded([token], seen[a := base]), rest);
  }

  lemma {:induction false} EncFunctionSound(g: Graph, code: seq<byte>, ups: seq<Value>, base: nat, seen: map<nat, nat>)
    requires Closed(g) && Within(g, Function(code, ups)) && Recorded(seen, base)
    ensures Sound(g, seen, base, Enc(g, Function(code, ups), base, seen))
    decreases Unseen(g, seen), 1, Weight(Function(code, ups)), 0
  {
    hide Recorded, Sound, Enc, EncAll, EncPairs, EncPair, Unseen, PairsWithin, Closed;
    EncFunction(g, code, ups, base, seen);
    SoundToken(g, seen, base, TFunction(|ups|, code), seen);
    SoundLater(seen, base);
    EncAllSound(g, ups, base + 1, seen);
    SoundJoin(g, seen, base, Encoded([TFunction(|ups|, code)], seen), EncAll(g, ups, base + 1, seen));
  }

  lemma SoundLater(seen: map<nat, nat>, base: nat)
    requires Recorded(seen, base)
    ensures Recorded(seen, base + 1)
  {
  }

  lemma SoundToken(g: Graph, seen: map<nat, nat>, base: nat, b: Body, same: map<nat, nat>)
    requires Recorded(seen, base) && !b.TTable? && same == seen
    requires b.TReference? ==> exists a :: a in seen && seen[a] == b.ref
    ensures Sound(g, seen, base, Encoded([b], same))
  {
    assert TableCount([b]) == 0;
  }

  lemma SoundTable(g: Graph, seen: map<nat, nat>, base: nat, a: nat, b: Body)
    requires Recorded(seen, base) && a !in seen && Describes(g, a, b)
    ensures Sound(g, seen, base, Encoded([b], seen[a := base])) && Recorded(seen[a := base], base + 1)
  {
    assert TableCount([b]) == 1;
    assert |seen[a := base]| == |seen| + 1;
  }

  lemma SoundNothing(g: Graph, seen: map<nat, nat>, base: nat)
    requires Recorded(seen, base)
    ensures Sound(g, seen, base, Encoded([], seen))
  {
  }

  lemma SoundRecorded(g: Graph, seen: map<nat, nat>, base: nat, e: Encoded)
    requires Recorded(seen, base) && Sound(g, seen, base, e)
    ensures Recorded(e.seen, base + |e.toks|) && seen.Keys <= e.seen.Keys
  {
  }

  lemma {:induction false} EncAllSound(g: Graph, vs: seq<Value>, base: nat, seen: map<nat, nat>)
    requires Closed(g) && (forall v :: v in vs ==> Within(g, v)) && Recorded(seen, base)
    ensures Sound(g, seen, base, EncAll(g, vs, base, seen))
    decreases Unseen(g, seen), 1, WeightAll(vs)
  {
    hide Recorded, Sound, Enc, EncPairs, EncPair, Unseen, Within, PairsWithin, Closed;
    if vs == [] {
      SoundNothing(g, seen, base);
    } else {
      var first := Enc(g, vs[0], base, seen);
      EncSound(g, vs[0], base, seen);
      SoundRecorded(g, seen, base, first);
      UnseenShrinks(g, seen, first.seen);
      EncAllSound(g, vs[1..], base + |first.toks|, first.seen);
      SoundJoin(g, seen, base, first, EncAll(g, vs[1..], base + |first.toks|, first.seen));
    }
  }

  lemma {:induction false} EncPairsSound(g: Graph, pairs: seq<(Value, Value)>, base: nat, seen: map<nat, nat>)
    requires Closed(g) && PairsWithin(g, pairs) && Recorded(seen, base)
    ensures Sound(g, seen, base, EncPairs(g, pairs, base, seen))
    decreases Unseen(g, seen), 2, |pairs|
  {
    hide Recorded, Sound, Enc, EncAll, Unseen, Within, Closed, Weight;
    if pairs == [] {
      SoundNothing(g, seen, base);
    } else {
      var key := Enc(g, pairs[0].0, base, seen);
      EncSound(g, pairs[0].0, base, seen);
      SoundRecorded(g, seen, base, key);
      UnseenShrinks(g, seen, key.seen);
      var val := Enc(g, pairs[0].1, base + |key.toks|, key.seen);
      EncSound(g, pairs[0].1, base + |key.toks|, key.seen);
      SoundRecorded(g, key.seen, base + |key.toks|, val);
      UnseenShrinks(g, seen, val.seen);
      SoundJoin(g, seen, base, key, val);
      var first := EncPair(g, pairs[0], base, seen);
      EncPairsSound(g, pairs[1..], base + |first.toks|, first.seen);
      SoundJoin(g, seen, base, first, EncPairs(g, pairs[1..], base + |first.toks|, first.seen));
    }
  }
}
