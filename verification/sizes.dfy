/** The sizes of a message told from its values: whether every length fits the four bytes it is
    written in, how many tokens there are, and how long the last one is. */
module Sizes {
  import opened Tokens
  import opened Encoding
  import opened Sequences
  import opened Sharing
  import opened Wire

  // ---------- Lengths ----------

  ghost predicate Fits(v: Value)
    decreases v
  {
    match v
    case Number(n) => |n| == 8
    case String(s) => FitsInt(|s|)
    case Function(code, ups) => FitsInt(|code|) && FitsInt(|ups|) && FitsAll(ups)
    case _ => true
  }

  ghost predicate FitsAll(vs: seq<Value>)
    decreases vs
  {
    vs != [] ==> Fits(vs[0]) && FitsAll(vs[1..])
  }

  ghost predicate FitsPairs(pairs: seq<(Value, Value)>) {
    pairs != [] ==> Fits(pairs[0].0) && Fits(pairs[0].1) && FitsPairs(pairs[1..])
  }

  ghost predicate FitsTables(g: Graph, k: set<nat>) {
    forall a :: a in k && a in g ==> FitsInt(|g[a].pairs|) && FitsInt(g[a].objlen) && FitsPairs(g[a].pairs)
  }

  ghost predicate FitsBodies(bs: seq<Body>) {
    forall j :: 0 <= j < |bs| && !bs[j].TReference? ==> Representable(Token(bs[j], false))
  }

  // ---------- Numbers of tokens ----------

  ghost function Parts(v: Value): nat
    decreases v
  {
    match v
    case Function(_, ups) => 1 + PartsAll(ups)
    case _ => 1
  }

  ghost function PartsAll(vs: seq<Value>): nat
    decreases vs
  {
    if vs == [] then 0 else Parts(vs[0]) + PartsAll(vs[1..])
  }

  ghost function PartsPairs(pairs: seq<(Value, Value)>): nat {
    if pairs == [] then 0 else Parts(pairs[0].0) + Parts(pairs[0].1) + PartsPairs(pairs[1..])
  }

  /** The parts of some tables. */
  ghost function PartsWithin(g: Graph, k: set<nat>): nat
    requires k <= g.Keys
  {
    if k == {} then 0
    else
      var a :| a in k;
      PartsPairs(g[a].pairs) + PartsWithin(g, k - {a})
  }

  lemma {:induction false} PartsPick(g: Graph, k: set<nat>, a: nat)
    requires k <= g.Keys && a in k
    ensures PartsWithin(g, k) == PartsPairs(g[a].pairs) + PartsWithin(g, k - {a})
  {
    var b :| b in k && PartsWithin(g, k) == PartsPairs(g[b].pairs) + PartsWithin(g, k - {b});
    if b != a {
      PartsPick(g, k - {b}, a);
      PartsPick(g, k - {a}, b);
      assert k - {b} - {a} == k - {a} - {b};
    }
  }

  lemma {:induction false} PartsUnion(g: Graph, j: set<nat>, k: set<nat>)
    requires j <= g.Keys && k <= g.Keys && j !! k
    ensures PartsWithin(g, j + k) == PartsWithin(g, j) + PartsWithin(g, k)
  {
    if j == {} {
      assert j + k == k;
    } else {
      var a :| a in j;
      PartsUnion(g, j - {a}, k);
      PartsPick(g, j, a);
      PartsPick(g, j + k, a);
      assert j + k - {a} == (j - {a}) + k;
    }
  }

  // ---------- Encoding ----------

  /** The tokens of `e` fit just when what they stand for does, and there is one for each part. */
  ghost predicate Measured(g: Graph, fits: bool, parts: nat, seen: map<nat, nat>, e: Encoded) {
    var added := e.seen.Keys - seen.Keys;
    && seen.Keys <= e.seen.Keys && added <= g.Keys
    && (FitsBodies(e.toks) <==> fits && FitsTables(g, added))
    && |e.toks| == parts + PartsWithin(g, added)
  }

  lemma MeasuredJoin(g: Graph, f: bool, m: nat, seen: map<nat, nat>, e: Encoded, h: bool, n: nat, d: Encoded)
    requires Measured(g, f, m, seen, e) && Measured(g, h, n, e.seen, d)
    ensures Measured(g, f && h, m + n, seen, Encoded(e.toks + d.toks, d.seen))
  {
    hide FitsBodies, FitsTables, PartsWithin;
    Apart(seen.Keys, e.seen.Keys, d.seen.Keys);
    PartsUnion(g, e.seen.Keys - seen.Keys, d.seen.Keys - e.seen.Keys);
    FitsJoin(e.toks, d.toks);
    FitsTablesJoin(g, e.seen.Keys - seen.Keys, d.seen.Keys - e.seen.Keys);
  }

  lemma FitsJoin(a: seq<Body>, b: seq<Body>)
    ensures FitsBodies(a + b) <==> FitsBodies(a) && FitsBodies(b)
  {
    hide Representable;
    if FitsBodies(a + b) {
      assert forall j :: 0 <= j < |a| ==> (a + b)[j] == a[j];
      assert forall j :: 0 <= j < |b| ==> (a + b)[|a| + j] == b[j];
    }
  }

  lemma FitsTablesJoin(g: Graph, j: set<nat>, k: set<nat>)
    ensures FitsTables(g, j + k) <==> FitsTables(g, j) && FitsTables(g, k)
  {
  }

  lemma MeasuredToken(g: Graph, seen: map<nat, nat>, b: Body)
    ensures Measured(g, b.TReference? || Representable(Token(b, false)), 1, seen, Encoded([b], seen))
    ensures Measured(g, true, 0, seen, Encoded([], seen))
  {
    assert seen.Keys - seen.Keys == {};
    assert [b][0] == b;
  }

  lemma MeasuredTable(g: Graph, seen: map<nat, nat>, a: nat, base: nat, rest: Encoded)
    requires a in g && a !in seen
    requires Measured(g, FitsPairs(g[a].pairs), PartsPairs(g[a].pairs), seen[a := base], rest)
    ensures Measured(g, true, 1, seen, Encoded([TTable(|g[a].pairs|, g[a].objlen)] + rest.toks, rest.seen))
  {
    hide PartsPairs, FitsPairs, FitsBodies;
    var first := TTable(|g[a].pairs|, g[a].objlen);
    var k := rest.seen.Keys - seen[a := base].Keys;
    var added := rest.seen.Keys - seen.Keys;
    assert added - {a} == k && a in added && added == {a} + k;
    PartsPick(g, added, a);
    FitsJoin([first], rest.toks);
    MeasuredToken(g, seen, first);
    FitsTablesJoin(g, {a}, k);
  }

  lemma {:induction false} EncMeasured(g: Graph, v: Value, base: nat, seen: map<nat, nat>)
    requires Closed(g) && Within(g, v)
    ensures Measured(g, Fits(v), Parts(v), seen, Enc(g, v, base, seen))
    decreases Unseen(g, seen), 1, Weight(v), 1
  {
    hide Measured, EncAll, EncPairs, EncPair, Unseen, PairsWithin, Closed, FitsAll, PartsAll, FitsInt;
    match v
    case Table(a) =>
      if a in seen {
        MeasuredToken(g, seen, TReference(seen[a]));
      } else {
        UnseenShrinks(g, seen, seen[a := base]);
        EncTable(g, a, base, seen);
        EncPairsMeasured(g, g[a].pairs, base + 1, seen[a := base]);
        MeasuredTable(g, seen, a, base, EncPairs(g, g[a].pairs, base + 1, seen[a := base]));
      }
    case Function(code, ups) =>
      EncFunction(g, code, ups, base, seen);
      EncAllMeasured(g, ups, base + 1, seen);
      var first := TFunction(|ups|, code);
      MeasuredToken(g, seen, first);
      MeasuredJoin(g, Representable(Token(first, false)), 1, seen, Encoded([first], seen), FitsAll(ups), PartsAll(ups),
                   EncAll(g, ups, base + 1, seen));
    case Nil => MeasuredToken(g, seen, TNil);
    case Bool(b) => MeasuredToken(g, seen, if b then TTrue else TFalse);
    case Number(n) => MeasuredToken(g, seen, TNumber(n));
    case String(s) => MeasuredToken(g, seen, TString(s));
  }

  lemma {:induction false} EncAllMeasured(g: Graph, vs: seq<Value>, base: nat, seen: map<nat, nat>)
    requires Closed(g) && forall v :: v in vs ==> Within(g, v)
    ensures Measured(g, FitsAll(vs), PartsAll(vs), seen, EncAll(g, vs, base, seen))
    decreases Unseen(g, seen), 1, WeightAll(vs)
  {
    hide Measured, Enc, EncPairs, EncPair, Unseen, Within, PairsWithin, Closed, Fits, Parts;
    if vs == [] {
      MeasuredToken(g, seen, TNil);
    } else {
      var first := Enc(g, vs[0], base, seen);
      EncMeasured(g, vs[0], base, seen);
      UnseenShrinks(g, seen, first.seen);
      EncAllMeasured(g, vs[1..], base + |first.toks|, first.seen);
      MeasuredJoin(g, Fits(vs[0]), Parts(vs[0]), seen, first, FitsAll(vs[1..]), PartsAll(vs[1..]),
                   EncAll(g, vs[1..], base + |first.toks|, first.seen));
    }
  }

  lemma {:induction false} EncPairMeasured(g: Graph, pair: (Value, Value), base: nat, seen: map<nat, nat>)
    requires Closed(g) && Within(g, pair.0) && Within(g, pair.1)
    ensures Measured(g, Fits(pair.0) && Fits(pair.1), Parts(pair.0) + Parts(pair.1), seen, EncPair(g, pair, base, seen))
    decreases Unseen(g, seen), 2, 0
  {
    hide Measured, Enc, EncAll, EncPairs, Unseen, Within, Closed, Fits, Parts;
    var key := Enc(g, pair.0, base, seen);
    EncMeasured(g, pair.0, base, seen);
    UnseenShrinks(g, seen, key.seen);
    EncMeasured(g, pair.1, base + |key.toks|, key.seen);
    MeasuredJoin(g, Fits(pair.0), Parts(pair.0), seen, key, Fits(pair.1), Parts(pair.1),
                 Enc(g, pair.1, base + |key.toks|, key.seen));
  }

  lemma {:induction false} EncPairsMeasured(g: Graph, pairs: seq<(Value, Value)>, base: nat, seen: map<nat, nat>)
    requires Closed(g) && PairsWithin(g, pairs)
    ensures Measured(g, FitsPairs(pairs), PartsPairs(pairs), seen, EncPairs(g, pairs, base, seen))
    decreases Unseen(g, seen), 3, |pairs|
  {
    hide Measured, Enc, EncAll, EncPair, Unseen, Within, Closed, Fits, Parts;
    if pairs == [] {
      MeasuredToken(g, seen, TNil);
    } else {
      var first, p := EncPair(g, pairs[0], base, seen), pairs[0];
      EncPairMeasured(g, p, base, seen);
      UnseenShrinks(g, seen, first.seen);
      EncPairsMeasured(g, pairs[1..], base + |first.toks|, first.seen);
      MeasuredJoin(g, Fits(p.0) && Fits(p.1), Parts(p.0) + Parts(p.1), seen, first,
                   FitsPairs(pairs[1..]), PartsPairs(pairs[1..]),
                   EncPairs(g, pairs[1..], base + |first.toks|, first.seen));
    }
  }

  // ---------- Whole messages ----------

  /** Every string, code and table of a message has a size that fits the field for it. */
  ghost predicate AllFit(g: Graph, vs: seq<Value>) {
    FitsAll(vs) && FitsTables(g, Reached(g, vs))
  }

  /** The number of its tokens: one for each part of the values and of the tables these reach. */
  ghost function TokenCount(g: Graph, vs: seq<Value>): nat {
    PartsAll(vs) + PartsWithin(g, Reached(g, vs))
  }

  lemma MessageMeasured(g: Graph, vs: seq<Value>)
    requires Closed(g) && forall v :: v in vs ==> Within(g, v)
    ensures var bs := EncAll(g, vs, 0, map[]).toks;
            |bs| == TokenCount(g, vs) && (FitsBodies(bs) <==> AllFit(g, vs))
  {
    hide EncAll, FitsAll, FitsTables, FitsBodies, PartsAll, PartsWithin, Reached;
    var none: map<nat, nat> := map[];
    EncAllMeasured(g, vs, 0, none);
    RecordsReached(g, vs);
    var k := EncAll(g, vs, 0, none).seen.Keys;
    assert k - none.Keys == k;
  }

  /** A message without references, or with no more tokens than an index can count, can be
      written as it is exactly when its sizes fit. */
  lemma RepresentableExactly(g: Graph, vs: seq<Value>)
    requires Closed(g) && forall v :: v in vs ==> Within(g, v)
    requires (forall a :: AllMentions(g, vs)[a] <= 1) || TokenCount(g, vs) <= 0x8000_0000
    ensures (forall t :: t in Flagged(EncAll(g, vs, 0, map[]).toks) ==> Representable(t)) <==> AllFit(g, vs)
  {
    hide EncAll, AllFit, AllMentions, TokenCount, Flagged, FitsBodies, Representable, FitsInt;
    var none: map<nat, nat> := map[];
    var bs := EncAll(g, vs, 0, none).toks;
    MessageMeasured(g, vs);
    EncAllSound(g, vs, 0, none);
    SoundRefs(g, none, 0, EncAll(g, vs, 0, none));
    ReferencesExactly(g, vs);
    FlaggedFit(bs);
    forall j | 0 <= j < |bs| && bs[j].TReference? ensures FitsInt(bs[j].ref) {
      if RefCount(bs) == 0 { Counts(bs, j); }
      IndexFits(bs[j].ref);
    }
  }

  lemma IndexFits(i: int)
    requires 0 <= i < 0x8000_0000
    ensures FitsInt(i)
  {
  }

  lemma FlaggedFit(bs: seq<Body>)
    ensures (forall t :: t in Flagged(bs) ==> Representable(t)) <==>
            FitsBodies(bs) && forall j :: 0 <= j < |bs| && bs[j].TReference? ==> FitsInt(bs[j].ref)
  {
    hide FitsInt;
    var ts := Flagged(bs);
    if forall t :: t in ts ==> Representable(t) {
      forall j | 0 <= j < |bs| ensures Representable(Token(bs[j], false)) {
        assert ts[j] in ts;
      }
    } else {
      var t :| t in ts && !Representable(t);
      var j :| 0 <= j < |ts| && ts[j] == t;
      assert !Representable(Token(bs[j], false));
    }
  }

  lemma {:induction false} Counts(bs: seq<Body>, j: nat)
    requires j < |bs| && bs[j].TReference?
    ensures RefCount(bs) > 0
  {
    if j > 0 { Counts(bs[1..], j - 1); }
  }

  // ---------- The last token ----------

  lemma EncAllFirst(g: Graph, v: Value, vs: seq<Value>, base: nat, seen: map<nat, nat>)
    requires Closed(g) && (forall u :: u in vs ==> Within(g, u)) && Within(g, v)
    ensures var e := Enc(g, v, base, seen);
            var f := EncAll(g, vs, base + |e.toks|, e.seen);
            EncAll(g, [v] + vs, base, seen) == Encoded(e.toks + f.toks, f.seen)
  {
    hide Enc, Within, Closed;
    assert ([v] + vs)[1..] == vs;
  }

  lemma {:induction false} EncAllLast(g: Graph, vs: seq<Value>, v: Value, base: nat, seen: map<nat, nat>)
    requires Closed(g) && (forall u :: u in vs ==> Within(g, u)) && Within(g, v)
    ensures var e := EncAll(g, vs, base, seen);
            var f := Enc(g, v, base + |e.toks|, e.seen);
            EncAll(g, vs + [v], base, seen) == Encoded(e.toks + f.toks, f.seen)
    decreases |vs|
  {
    hide Enc, EncAll, Within, Closed;
    EncAllNothing(g, base, seen);
    if vs == [] {
      EncAllFirst(g, v, [], base, seen);
      EncAllNothing(g, base + |Enc(g, v, base, seen).toks|, Enc(g, v, base, seen).seen);
      assert [] + [v] == [v] + [];
      assert Enc(g, v, base, seen).toks + [] == [] + Enc(g, v, base, seen).toks;
    } else {
      var u, rest := vs[0], vs[1..];
      var first := Enc(g, u, base, seen);
      var e := EncAll(g, rest, base + |first.toks|, first.seen);
      var f := Enc(g, v, base + |first.toks| + |e.toks|, e.seen);
      EncAllLast(g, rest, v, base + |first.toks|, first.seen);
      EncAllFirst(g, u, rest, base, seen);
      EncAllFirst(g, u, rest + [v], base, seen);
      assert vs == [u] + rest && vs + [v] == [u] + (rest + [v]);
      Flatten3(first.toks, e.toks, f.toks);
    }
  }

  /** The keys and values of the pairs, in the order they are written. */
  ghost function Flat(pairs: seq<(Value, Value)>): seq<Value> {
    if pairs == [] then [] else [pairs[0].0, pairs[0].1] + Flat(pairs[1..])
  }

  lemma {:induction false} FlatWithin(g: Graph, pairs: seq<(Value, Value)>)
    requires PairsWithin(g, pairs)
    ensures (forall v :: v in Flat(pairs) ==> Within(g, v)) && |Flat(pairs)| == 2 * |pairs|
  {
    if pairs != [] { FlatWithin(g, pairs[1..]); }
  }

  lemma {:induction false} EncFlat(g: Graph, pairs: seq<(Value, Value)>, base: nat, seen: map<nat, nat>)
    requires Closed(g) && PairsWithin(g, pairs)
    ensures forall v :: v in Flat(pairs) ==> Within(g, v)
    ensures EncPairs(g, pairs, base, seen) == EncAll(g, Flat(pairs), base, seen)
    decreases |pairs|
  {
    hide Enc, EncAll, Within, Closed;
    FlatWithin(g, pairs);
    if pairs == [] {
      EncAllNothing(g, base, seen);
    } else {
      var k, v, rest := pairs[0].0, pairs[0].1, Flat(pairs[1..]);
      var key := Enc(g, k, base, seen);
      var val := Enc(g, v, base + |key.toks|, key.seen);
      FlatWithin(g, pairs[1..]);
      EncFlat(g, pairs[1..], base + |key.toks + val.toks|, val.seen);
      EncAllFirst(g, v, rest, base + |key.toks|, key.seen);
      EncAllFirst(g, k, [v] + rest, base, seen);
      assert Flat(pairs) == [k] + ([v] + rest);
      Flatten3(key.toks, val.toks, EncAll(g, rest, base + |key.toks + val.toks|, val.seen).toks);
    }
  }

  /** How long the last token of `v` is, with the tables of `k` on record: for a table that is
      not among them, and for a function, the last token of the last value inside. */
  ghost function LastBytes(g: Graph, k: set<nat>, v: Value): nat
    requires Closed(g) && Within(g, v)
    decreases Remaining(g, k), Weight(v), 0
  {
    match v
    case Table(a) =>
      FlatWithin(g, g[a].pairs);
      if a in k then 8
      else if g[a].pairs == [] then 12
      else
        RemainingShrinks(g, k, k + {a});
        LastBytesAll(g, k + {a}, Flat(g[a].pairs))
    case Function(code, ups) => if ups == [] then 12 + |code| else LastBytesAll(g, k, ups)
    case Number(n) => 4 + |n|
    case String(s) => 8 + |s|
    case _ => 4
  }

  ghost function LastBytesAll(g: Graph, k: set<nat>, vs: seq<Value>): nat
    requires Closed(g) && (forall v :: v in vs ==> Within(g, v)) && vs != []
    decreases Remaining(g, k), WeightAll(vs), 1
  {
    var before, n := vs[..|vs| - 1], |vs| - 1;
    WeightOfElement(vs, n);
    RemainingShrinks(g, k, k + ReachedPast(g, k, before));
    LastBytes(g, k + ReachedPast(g, k, before), vs[n])
  }

  ghost predicate EndsWith(toks: seq<Body>, n: nat) {
    toks != [] && 4 + |Payload(toks[|toks| - 1])| == n
  }

  lemma EndJoin(a: seq<Body>, b: seq<Body>, n: nat)
    requires EndsWith(b, n)
    ensures EndsWith(a + b, n)
  {
    assert (a + b)[|a + b| - 1] == b[|b| - 1];
  }

  lemma {:induction false} EncEnds(g: Graph, v: Value, base: nat, seen: map<nat, nat>)
    requires Closed(g) && Within(g, v)
    ensures EndsWith(Enc(g, v, base, seen).toks, LastBytes(g, seen.Keys, v))
    decreases Unseen(g, seen), Weight(v), 0
  {
    hide EncAll, EncPairs, IntBytes, LastBytesAll, Closed, PairsWithin, Unseen;
    match v
    case Table(a) =>
      if a !in seen {
        var pairs, more := g[a].pairs, seen[a := base];
        EncTable(g, a, base, seen);
        FlatWithin(g, pairs);
        EncFlat(g, pairs, base + 1, more);
        if pairs != [] {
          UnseenShrinks(g, seen, more);
          EncAllEnds(g, Flat(pairs), base + 1, more);
          assert more.Keys == seen.Keys + {a};
          EndJoin([TTable(|pairs|, g[a].objlen)], EncPairs(g, pairs, base + 1, more).toks,
                  LastBytesAll(g, more.Keys, Flat(pairs)));
        } else {
          EncAllNothing(g, base + 1, more);
        }
      }
    case Function(code, ups) =>
      EncFunction(g, code, ups, base, seen);
      if ups != [] {
        EncAllEnds(g, ups, base + 1, seen);
        EndJoin([TFunction(|ups|, code)], EncAll(g, ups, base + 1, seen).toks, LastBytesAll(g, seen.Keys, ups));
      } else {
        EncAllNothing(g, base + 1, seen);
      }
    case _ =>
  }

  lemma {:induction false} EncAllEnds(g: Graph, vs: seq<Value>, base: nat, seen: map<nat, nat>)
    requires Closed(g) && (forall v :: v in vs ==> Within(g, v)) && vs != []
    ensures EndsWith(EncAll(g, vs, base, seen).toks, LastBytesAll(g, seen.Keys, vs))
    decreases Unseen(g, seen), WeightAll(vs), 1
  {
    hide Enc, EncAll, LastBytes, EndsWith, ReachedPast, Closed, Within, Unseen;
    var before, v := vs[..|vs| - 1], vs[|vs| - 1];
    var e := EncAll(g, before, base, seen);
    assert vs == before + [v];
    EncAllLast(g, before, v, base, seen);
    RecordsPast(g, before, base, seen);
    WeightOfElement(vs, |vs| - 1);
    UnseenShrinks(g, seen, e.seen);
    EncEnds(g, v, base + |e.toks|, e.seen);
    EndJoin(e.toks, Enc(g, v, base + |e.toks|, e.seen).toks, LastBytes(g, e.seen.Keys, v));
  }

  /** The last token of a message is as long as that. */
  lemma LastTokenBytes(g: Graph, vs: seq<Value>)
    requires Closed(g) && (forall v :: v in vs ==> Within(g, v)) && vs != []
    ensures var ts := Flagged(EncAll(g, vs, 0, map[]).toks);
            ts != [] && |TokenBytes(ts[|ts| - 1])| == LastBytesAll(g, {}, vs)
  {
    hide EncAll, Payload, IntBytes, LastBytesAll, Within;
    var none: map<nat, nat> := map[];
    EncAllEnds(g, vs, 0, none);
    assert none.Keys == {};
  }
}
