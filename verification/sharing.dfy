/** Which tables a sequence of values leads to, and how often each is mentioned: what decides the
    tables and the references of its encoding. */
module Sharing {
  import opened Tokens
  import opened Encoding

  // ---------- Mentions ----------

  ghost function Mentions(v: Value): multiset<nat>
    decreases v
  {
    match v
    case Table(a) => multiset{a}
    case Function(_, ups) => MentionsAll(ups)
    case _ => multiset{}
  }

  ghost function MentionsAll(vs: seq<Value>): multiset<nat>
    decreases vs
  {
    if vs == [] then multiset{} else Mentions(vs[0]) + MentionsAll(vs[1..])
  }

  ghost function PairMentions(pairs: seq<(Value, Value)>): multiset<nat> {
    if pairs == [] then multiset{} else Mentions(pairs[0].0) + Mentions(pairs[0].1) + PairMentions(pairs[1..])
  }

  /** The mentions in the pairs of some tables. */
  ghost function Inner(g: Graph, k: set<nat>): multiset<nat>
    requires k <= g.Keys
  {
    if k == {} then multiset{}
    else
      var a :| a in k;
      PairMentions(g[a].pairs) + Inner(g, k - {a})
  }

  lemma {:induction false} InnerPick(g: Graph, k: set<nat>, a: nat)
    requires k <= g.Keys && a in k
    ensures Inner(g, k) == PairMentions(g[a].pairs) + Inner(g, k - {a})
  {
    var b :| b in k && Inner(g, k) == PairMentions(g[b].pairs) + Inner(g, k - {b});
    if b != a {
      InnerPick(g, k - {b}, a);
      InnerPick(g, k - {a}, b);
      assert k - {b} - {a} == k - {a} - {b};
    }
  }

  lemma {:induction false} InnerUnion(g: Graph, j: set<nat>, k: set<nat>)
    requires j <= g.Keys && k <= g.Keys && j !! k
    ensures Inner(g, j + k) == Inner(g, j) + Inner(g, k)
  {
    if j == {} {
      assert j + k == k;
    } else {
      var a :| a in j;
      InnerUnion(g, j - {a}, k);
      InnerPick(g, j, a);
      InnerPick(g, j + k, a);
      assert j + k - {a} == (j - {a}) + k;
    }
  }

  // ---------- Reachability ----------

  /** From a table mentioned in `vs`, each next one mentioned in the pairs of the one before, and
      none of them among the tables `k`. */
  ghost predicate Chain(g: Graph, k: set<nat>, vs: seq<Value>, path: seq<nat>) {
    && path != [] && path[0] in MentionsAll(vs)
    && (forall i :: 0 <= i < |path| ==> path[i] !in k)
    && (forall i :: 0 <= i < |path| - 1 ==> path[i] in g && path[i + 1] in PairMentions(g[path[i]].pairs))
  }

  ghost predicate LeadsTo(g: Graph, k: set<nat>, vs: seq<Value>, path: seq<nat>, a: nat) {
    Chain(g, k, vs, path) && path[|path| - 1] == a
  }

  ghost predicate Reachable(g: Graph, k: set<nat>, vs: seq<Value>, a: nat) {
    exists path :: LeadsTo(g, k, vs, path, a)
  }

  /** The tables reached from `vs` without passing through one of `k`. */
  ghost function ReachedPast(g: Graph, k: set<nat>, vs: seq<Value>): set<nat> {
    set a | a in g && Reachable(g, k, vs, a)
  }

  ghost function Reached(g: Graph, vs: seq<Value>): set<nat> {
    ReachedPast(g, {}, vs)
  }

  /** A set that only the tables of `k` lead out of. */
  ghost predicate Encloses(g: Graph, k: set<nat>, x: set<nat>) {
    forall a, b :: a in x && a !in k && a in g && b in PairMentions(g[a].pairs) ==> b in x
  }

  ghost predicate Holds(x: set<nat>, m: multiset<nat>) {
    forall a :: a in m ==> a in x
  }

  lemma WithinMentions(g: Graph, v: Value)
    requires Within(g, v)
    ensures Holds(g.Keys, Mentions(v))
    decreases v
  {
    if v.Function? { WithinMentionsAll(g, v.upvals); }
  }

  lemma {:induction false} WithinMentionsAll(g: Graph, vs: seq<Value>)
    requires forall v :: v in vs ==> Within(g, v)
    ensures Holds(g.Keys, MentionsAll(vs))
    decreases vs
  {
    if vs != [] {
      WithinMentions(g, vs[0]);
      WithinMentionsAll(g, vs[1..]);
    }
  }

  lemma {:induction false} WithinPairMentions(g: Graph, pairs: seq<(Value, Value)>)
    requires PairsWithin(g, pairs)
    ensures Holds(g.Keys, PairMentions(pairs))
  {
    if pairs != [] {
      WithinMentions(g, pairs[0].0);
      WithinMentions(g, pairs[0].1);
      WithinPairMentions(g, pairs[1..]);
    }
  }

  lemma Longer(g: Graph, k: set<nat>, vs: seq<Value>, path: seq<nat>, a: nat, b: nat)
    requires LeadsTo(g, k, vs, path, a) && a in g && b in PairMentions(g[a].pairs) && b !in k
    ensures Reachable(g, k, vs, b)
  {
    hide PairMentions, MentionsAll;
    assert LeadsTo(g, k, vs, path + [b], b);
  }

  lemma ReachedEncloses(g: Graph, k: set<nat>, vs: seq<Value>)
    requires Closed(g) && forall v :: v in vs ==> Within(g, v)
    ensures var x := k + ReachedPast(g, k, vs); Encloses(g, k, x) && Holds(x, MentionsAll(vs))
  {
    hide PairMentions, MentionsAll, Within, LeadsTo;
    WithinMentionsAll(g, vs);
    forall a | a in MentionsAll(vs) && a !in k ensures a in ReachedPast(g, k, vs) {
      StartsThere(g, k, vs, a);
    }
    forall a, b | a in ReachedPast(g, k, vs) && b in PairMentions(g[a].pairs) && b !in k
      ensures b in ReachedPast(g, k, vs)
    {
      var path :| LeadsTo(g, k, vs, path, a);
      Longer(g, k, vs, path, a, b);
      WithinPairMentions(g, g[a].pairs);
    }
  }

  lemma StartsThere(g: Graph, k: set<nat>, vs: seq<Value>, a: nat)
    requires a in MentionsAll(vs) && a !in k
    ensures Reachable(g, k, vs, a)
  {
    hide MentionsAll;
    assert LeadsTo(g, k, vs, [a], a);
  }

  /** The table before the last on a chain. */
  ghost function Before(g: Graph, k: set<nat>, vs: seq<Value>, path: seq<nat>, a: nat): (b: nat)
    requires LeadsTo(g, k, vs, path, a) && |path| > 1
    ensures LeadsTo(g, k, vs, path[..|path| - 1], b) && b in g && b !in k && a in PairMentions(g[b].pairs)
  {
    var n := |path| - 2;
    assert path[n] in g && path[n + 1] in PairMentions(g[path[n]].pairs);
    path[n]
  }

  lemma {:induction false} ReachedIsLeast(g: Graph, k: set<nat>, vs: seq<Value>, x: set<nat>, path: seq<nat>, a: nat)
    requires Encloses(g, k, x) && Holds(x, MentionsAll(vs)) && LeadsTo(g, k, vs, path, a)
    ensures a in x
    decreases |path|
  {
    hide PairMentions, MentionsAll;
    if |path| > 1 { ReachedIsLeast(g, k, vs, x, path[..|path| - 1], Before(g, k, vs, path, a)); }
  }

  // ---------- What encoding does with them ----------

  /** Encoding the mentions `m` has put on record these tables and all they lead to, once each,
      and made a reference of every mention but the first of each. */
  ghost predicate Explores(g: Graph, m: multiset<nat>, seen: map<nat, nat>, e: Encoded) {
    var added := e.seen.Keys - seen.Keys;
    && seen.Keys <= e.seen.Keys && added <= g.Keys
    && Holds(e.seen.Keys, m + Inner(g, added))
    && |m| + |Inner(g, added)| == RefCount(e.toks) + |added|
  }

  /** And nothing else: what encloses the record and the mentions encloses the new record. */
  ghost predicate StaysIn(g: Graph, k: set<nat>, x: set<nat>, m: multiset<nat>, seen: map<nat, nat>, e: Encoded) {
    Encloses(g, k, x) && k <= seen.Keys <= x && Holds(x, m) ==> e.seen.Keys <= x
  }

  ghost predicate Follows(g: Graph, k: set<nat>, x: set<nat>, m: multiset<nat>, seen: map<nat, nat>, e: Encoded) {
    Explores(g, m, seen, e) && StaysIn(g, k, x, m, seen, e)
  }

  lemma FollowsJoin(g: Graph, k: set<nat>, x: set<nat>, m: multiset<nat>, seen: map<nat, nat>, e: Encoded,
                    n: multiset<nat>, f: Encoded)
    requires Follows(g, k, x, m, seen, e) && Follows(g, k, x, n, e.seen, f)
    ensures Follows(g, k, x, m + n, seen, Encoded(e.toks + f.toks, f.seen))
  {
    hide Explores, Encloses;
    ExploresJoin(g, m, seen, e, n, f);
    ExploresMore(g, m, seen, e);
  }

  lemma ExploresMore(g: Graph, m: multiset<nat>, seen: map<nat, nat>, e: Encoded)
    requires Explores(g, m, seen, e)
    ensures seen.Keys <= e.seen.Keys
  {
  }

  lemma ExploresJoin(g: Graph, m: multiset<nat>, seen: map<nat, nat>, e: Encoded, n: multiset<nat>, f: Encoded)
    requires Explores(g, m, seen, e) && Explores(g, n, e.seen, f)
    ensures Explores(g, m + n, seen, Encoded(e.toks + f.toks, f.seen))
  {
    hide Inner, RefCount, Holds;
    var j, k := e.seen.Keys - seen.Keys, f.seen.Keys - e.seen.Keys;
    Apart(seen.Keys, e.seen.Keys, f.seen.Keys);
    InnerUnion(g, j, k);
    SumsConcat(e.toks, f.toks);
    HoldsJoin(e.seen.Keys, m + Inner(g, j), f.seen.Keys, n + Inner(g, k));
    assert (m + Inner(g, j)) + (n + Inner(g, k)) == (m + n) + Inner(g, j + k);
  }

  lemma Apart(a: set<nat>, b: set<nat>, c: set<nat>)
    requires a <= b <= c
    ensures c - a == (b - a) + (c - b) && (b - a) !! (c - b) && |c - a| == |b - a| + |c - b|
  {
    assert c - a == (b - a) + (c - b);
  }

  lemma HoldsJoin(x: set<nat>, m: multiset<nat>, y: set<nat>, n: multiset<nat>)
    requires x <= y && Holds(x, m) && Holds(y, n)
    ensures Holds(y, m + n)
  {
  }

  lemma FollowsToken(g: Graph, k: set<nat>, x: set<nat>, seen: map<nat, nat>, b: Body)
    requires !b.TTable? && !b.TReference?
    ensures Follows(g, k, x, multiset{}, seen, Encoded([b], seen))
    ensures Follows(g, k, x, multiset{}, seen, Encoded([], seen))
  {
    SumsOfOne(b);
    assert seen.Keys - seen.Keys == {};
  }

  lemma FollowsReference(g: Graph, k: set<nat>, x: set<nat>, seen: map<nat, nat>, a: nat)
    requires a in seen
    ensures Follows(g, k, x, multiset{a}, seen, Encoded([TReference(seen[a])], seen))
  {
    SumsOfOne(TReference(seen[a]));
    assert seen.Keys - seen.Keys == {};
  }

  lemma FollowsTable(g: Graph, k: set<nat>, x: set<nat>, seen: map<nat, nat>, a: nat, base: nat, first: Body,
                     rest: Encoded)
    requires a in g && a !in seen && first.TTable?
    requires Follows(g, k, x, PairMentions(g[a].pairs), seen[a := base], rest)
    ensures Follows(g, k, x, multiset{a}, seen, Encoded([first] + rest.toks, rest.seen))
  {
    var added := rest.seen.Keys - seen.Keys;
    assert added - {a} == rest.seen.Keys - seen[a := base].Keys && a in added;
    InnerPick(g, added, a);
    SumsOfOne(first);
    SumsConcat([first], rest.toks);
  }

  lemma {:induction false} EncFollows(g: Graph, k: set<nat>, x: set<nat>, v: Value, base: nat, seen: map<nat, nat>)
    requires Closed(g) && Within(g, v)
    ensures Follows(g, k, x, Mentions(v), seen, Enc(g, v, base, seen))
    decreases Unseen(g, seen), 1, Weight(v), 1
  {
    hide Follows, EncAll, EncPairs, EncPair, Unseen, PairsWithin, Closed, MentionsAll, PairMentions;
    match v
    case Table(a) =>
      if a in seen {
        FollowsReference(g, k, x, seen, a);
      } else {
        UnseenShrinks(g, seen, seen[a := base]);
        EncTable(g, a, base, seen);
        EncPairsFollows(g, k, x, g[a].pairs, base + 1, seen[a := base]);
        FollowsTable(g, k, x, seen, a, base, TTable(|g[a].pairs|, g[a].objlen),
                     EncPairs(g, g[a].pairs, base + 1, seen[a := base]));
      }
    case Function(code, ups) =>
      EncFunction(g, code, ups, base, seen);
      EncAllFollows(g, k, x, ups, base + 1, seen);
      FollowsToken(g, k, x, seen, TFunction(|ups|, code));
      FollowsJoin(g, k, x, multiset{}, seen, Encoded([TFunction(|ups|, code)], seen), MentionsAll(ups),
                  EncAll(g, ups, base + 1, seen));
      assert multiset{} + MentionsAll(ups) == MentionsAll(ups);
    case Nil => FollowsToken(g, k, x, seen, TNil);
    case Bool(b) => FollowsToken(g, k, x, seen, if b then TTrue else TFalse);
    case Number(n) => FollowsToken(g, k, x, seen, TNumber(n));
    case String(s) => FollowsToken(g, k, x, seen, TString(s));
  }

  lemma {:induction false} EncAllFollows(g: Graph, k: set<nat>, x: set<nat>, vs: seq<Value>, base: nat,
                                         seen: map<nat, nat>)
    requires Closed(g) && forall v :: v in vs ==> Within(g, v)
    ensures Follows(g, k, x, MentionsAll(vs), seen, EncAll(g, vs, base, seen))
    decreases Unseen(g, seen), 1, WeightAll(vs)
  {
    hide Follows, Enc, EncPairs, EncPair, Unseen, Within, PairsWithin, Closed, Mentions, PairMentions;
    if vs == [] {
      FollowsToken(g, k, x, seen, TNil);
    } else {
      var first := Enc(g, vs[0], base, seen);
      EncFollows(g, k, x, vs[0], base, seen);
      UnseenShrinks(g, seen, first.seen);
      EncAllFollows(g, k, x, vs[1..], base + |first.toks|, first.seen);
      FollowsJoin(g, k, x, Mentions(vs[0]), seen, first, MentionsAll(vs[1..]),
                  EncAll(g, vs[1..], base + |first.toks|, first.seen));
    }
  }

  lemma {:induction false} EncPairFollows(g: Graph, k: set<nat>, x: set<nat>, pair: (Value, Value), base: nat,
                                          seen: map<nat, nat>)
    requires Closed(g) && Within(g, pair.0) && Within(g, pair.1)
    ensures Follows(g, k, x, Mentions(pair.0) + Mentions(pair.1), seen, EncPair(g, pair, base, seen))
    decreases Unseen(g, seen), 2, 0
  {
    hide Follows, Enc, EncAll, EncPairs, Unseen, Within, Closed, Mentions;
    var key := Enc(g, pair.0, base, seen);
    EncFollows(g, k, x, pair.0, base, seen);
    UnseenShrinks(g, seen, key.seen);
    var val := Enc(g, pair.1, base + |key.toks|, key.seen);
    EncFollows(g, k, x, pair.1, base + |key.toks|, key.seen);
    FollowsJoin(g, k, x, Mentions(pair.0), seen, key, Mentions(pair.1), val);
  }

  lemma {:induction false} EncPairsFollows(g: Graph, k: set<nat>, x: set<nat>, pairs: seq<(Value, Value)>, base: nat,
                                           seen: map<nat, nat>)
    requires Closed(g) && PairsWithin(g, pairs)
    ensures Follows(g, k, x, PairMentions(pairs), seen, EncPairs(g, pairs, base, seen))
    decreases Unseen(g, seen), 3, |pairs|
  {
    hide Follows, Enc, EncAll, EncPair, Unseen, Within, Closed, Mentions, MentionsAll;
    if pairs == [] {
      FollowsToken(g, k, x, seen, TNil);
    } else {
      var first := EncPair(g, pairs[0], base, seen);
      EncPairFollows(g, k, x, pairs[0], base, seen);
      UnseenShrinks(g, seen, first.seen);
      EncPairsFollows(g, k, x, pairs[1..], base + |first.toks|, first.seen);
      FollowsJoin(g, k, x, Mentions(pairs[0].0) + Mentions(pairs[0].1), seen, first, PairMentions(pairs[1..]),
                  EncPairs(g, pairs[1..], base + |first.toks|, first.seen));
    }
  }

  // ---------- Whole messages ----------

  /** Every mention of a table that a message has: in its values, and in the tables these reach. */
  ghost function AllMentions(g: Graph, vs: seq<Value>): multiset<nat> {
    MentionsAll(vs) + Inner(g, Reached(g, vs))
  }

  /** What encoding puts on record is what is reached past the record. */
  lemma RecordsPast(g: Graph, vs: seq<Value>, base: nat, seen: map<nat, nat>)
    requires Closed(g) && forall v :: v in vs ==> Within(g, v)
    ensures EncAll(g, vs, base, seen).seen.Keys == seen.Keys + ReachedPast(g, seen.Keys, vs)
  {
    hide EncAll, MentionsAll, PairMentions, Within, LeadsTo, Inner, Encloses, Holds, RefCount;
    var k, more := seen.Keys, EncAll(g, vs, base, seen).seen.Keys;
    EncAllFollows(g, k, k + ReachedPast(g, k, vs), vs, base, seen);
    ReachedEncloses(g, k, vs);
    RecordEncloses(g, k, vs, more);
    forall a | a in ReachedPast(g, k, vs) ensures a in more {
      var path :| LeadsTo(g, k, vs, path, a);
      ReachedIsLeast(g, k, vs, more, path, a);
    }
  }

  /** The tables on record at the end are the tables reached. */
  lemma RecordsReached(g: Graph, vs: seq<Value>)
    requires Closed(g) && forall v :: v in vs ==> Within(g, v)
    ensures EncAll(g, vs, 0, map[]).seen.Keys == Reached(g, vs)
    ensures Holds(Reached(g, vs), AllMentions(g, vs))
    ensures |AllMentions(g, vs)| == RefCount(EncAll(g, vs, 0, map[]).toks) + |Reached(g, vs)|
  {
    hide EncAll, MentionsAll, ReachedPast, Inner, Encloses, Holds, RefCount;
    var none: map<nat, nat> := map[];
    RecordsPast(g, vs, 0, none);
    EncAllFollows(g, {}, {}, vs, 0, none);
    var k := EncAll(g, vs, 0, none).seen.Keys;
    assert none.Keys == {} && k - none.Keys == k;
  }

  lemma RecordEncloses(g: Graph, k: set<nat>, vs: seq<Value>, x: set<nat>)
    requires x - k <= g.Keys && Holds(x, MentionsAll(vs) + Inner(g, x - k))
    ensures Encloses(g, k, x) && Holds(x, MentionsAll(vs))
  {
    hide PairMentions, MentionsAll;
    forall a, b | a in x && a !in k && a in g && b in PairMentions(g[a].pairs) ensures b in x {
      InnerPick(g, x - k, a);
    }
  }

  /** Every table reached is mentioned. */
  lemma ReachedMentioned(g: Graph, vs: seq<Value>, a: nat)
    requires Closed(g) && (forall v :: v in vs ==> Within(g, v)) && a in Reached(g, vs)
    ensures a in AllMentions(g, vs)
  {
    hide PairMentions, MentionsAll, Within, Inner;
    var path :| LeadsTo(g, {}, vs, path, a);
    if |path| > 1 {
      var b := Before(g, {}, vs, path, a);
      assert b in Reached(g, vs);
      InnerPick(g, Reached(g, vs), b);
    }
  }

  lemma Repeats(m: multiset<nat>, k: set<nat>)
    requires Holds(k, m) && forall a :: a in k ==> a in m
    ensures |m| - |k| >= 0 && (|m| == |k| <==> forall a :: m[a] <= 1)
  {
    var once := multiset(k);
    assert once + (m - once) == m;
    assert |once| == |k|;
    if |m| == |k| {
      assert m - once == multiset{};
      assert forall a :: (m - once)[a] == 0;
    } else {
      var a :| a in m - once;
      assert m[a] > once[a];
    }
  }

  /** A message has a reference for every mention of a table but the first: none at all if and
      only if no table is mentioned twice. */
  lemma ReferencesExactly(g: Graph, vs: seq<Value>)
    requires Closed(g) && forall v :: v in vs ==> Within(g, v)
    ensures var refs := RefCount(EncAll(g, vs, 0, map[]).toks);
            && refs == |AllMentions(g, vs)| - |Reached(g, vs)|
            && (refs == 0 <==> forall a :: AllMentions(g, vs)[a] <= 1)
  {
    hide EncAll, AllMentions, Reached, RefCount;
    RecordsReached(g, vs);
    forall a | a in Reached(g, vs) ensures a in AllMentions(g, vs) {
      ReachedMentioned(g, vs, a);
    }
    Repeats(AllMentions(g, vs), Reached(g, vs));
  }
}
