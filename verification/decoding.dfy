/** `decode_value` of `src/lc_message.c` as a function on the tokens, and the proof that it
    rebuilds what was encoded: the same values, with the same sharing and the same cycles. */
module Decoding {
  import opened Options
  import opened Tokens
  import opened Encoding
  import Sharing

  /** The decoder: the next token (which is also its index), the tables registered for
      references, and the pairs of each table created so far. */
  datatype Reader = Reader(pos: nat, refs: map<int, Value>, heap: seq<seq<(Value, Value)>>)

  // ---------- lua_rawset ----------

  /** The place of a key. A function is equal to no other: decoding always makes a new one. */
  ghost function Find(pairs: seq<(Value, Value)>, k: Value): (i: nat)
    ensures i <= |pairs|
    ensures i < |pairs| ==> pairs[i].0 == k && !k.Function?
    ensures i == |pairs| && !k.Function? ==> forall j :: 0 <= j < |pairs| ==> pairs[j].0 != k
  {
    if pairs == [] || k.Function? then |pairs| else if pairs[0].0 == k then 0 else 1 + Find(pairs[1..], k)
  }

  /** Setting a key to nil removes it; a nil key is an error. */
  ghost function RawSet(pairs: seq<(Value, Value)>, k: Value, v: Value): Option<seq<(Value, Value)>> {
    if k.Nil? then None
    else
      var i := Find(pairs, k);
      if i < |pairs| then Some(if v.Nil? then pairs[..i] + pairs[i + 1..] else pairs[i := (k, v)])
      else Some(if v.Nil? then pairs else pairs + [(k, v)])
  }

  // ---------- decode_value ----------

  ghost function Dec(ts: seq<Token>, c: Reader): (r: Option<(Value, Reader)>)
    ensures r.Some? ==> c.pos < r.value.1.pos <= |ts| && |c.heap| <= |r.value.1.heap|
    decreases |ts| - c.pos, 0
  {
    if c.pos >= |ts| then None
    else
      var d := c.(pos := c.pos + 1);
      match ts[c.pos].body
      case TNil => Some((Nil, d))
      case TTrue => Some((Bool(true), d))
      case TFalse => Some((Bool(false), d))
      case TNumber(n) => Some((Number(n), d))
      case TString(s) => Some((String(s), d))
      case TTable(slots, _) =>
        var r := DecPairs(ts, Created(ts, c), |c.heap|, slots);
        if r.None? then None else Some((Table(|c.heap|), r.value))
      case TFunction(n, code) =>
        var r := DecCount(ts, d, n);
        if r.None? then None else Some((Function(code, r.value.0), r.value.1))
      case TReference(ref) => Some((if ref in c.refs then c.refs[ref] else Nil, d))
  }

  /** A new table, registered under the index of its token if that is flagged. */
  ghost function Created(ts: seq<Token>, c: Reader): Reader
    requires c.pos < |ts|
  {
    Reader(c.pos + 1, if ts[c.pos].referenced then c.refs[c.pos := Table(|c.heap|)] else c.refs, c.heap + [[]])
  }

  ghost function DecPairs(ts: seq<Token>, c: Reader, addr: nat, n: int): (r: Option<Reader>)
    requires addr < |c.heap|
    ensures r.Some? ==> c.pos <= r.value.pos && (c.pos <= |ts| ==> r.value.pos <= |ts|) && |c.heap| <= |r.value.heap|
    decreases |ts| - c.pos, 1
  {
    if n == 0 then Some(c)
    else
      var key := Dec(ts, c);
      if key.None? then None
      else
        var val := Dec(ts, key.value.1);
        if val.None? then None
        else
          var d := val.value.1;
          var put := RawSet(d.heap[addr], key.value.0, val.value.0);
          if put.None? then None else DecPairs(ts, d.(heap := d.heap[addr := put.value]), addr, n - 1)
  }

  ghost function DecCount(ts: seq<Token>, c: Reader, n: int): (r: Option<(seq<Value>, Reader)>)
    ensures r.Some? ==> c.pos <= r.value.1.pos && (c.pos <= |ts| ==> r.value.1.pos <= |ts|)
    ensures r.Some? ==> |c.heap| <= |r.value.1.heap|
    decreases |ts| - c.pos, 1
  {
    if n <= 0 then Some(([], c))
    else
      var first := Dec(ts, c);
      if first.None? then None
      else
        var rest := DecCount(ts, first.value.1, n - 1);
        if rest.None? then None else Some(([first.value.0] + rest.value.0, rest.value.1))
  }

  /** The loop of `lua_decodemessage`: until the first failure, which is the end of the tokens. */
  ghost function DecTop(ts: seq<Token>, c: Reader): (seq<Value>, Reader)
    decreases |ts| - c.pos
  {
    var first := Dec(ts, c);
    if first.None? then ([], c)
    else
      var rest := DecTop(ts, first.value.1);
      ([first.value.0] + rest.0, rest.1)
  }

  // ---------- Renaming ----------

  /** A value as it comes out: every table address replaced by that of the rebuilt table. */
  ghost function Renamed(phi: map<nat, nat>, v: Value): Value
    decreases v
  {
    match v
    case Table(a) => if a in phi then Table(phi[a]) else Nil
    case Function(code, ups) => Function(code, RenamedAll(phi, ups))
    case _ => v
  }

  ghost function RenamedAll(phi: map<nat, nat>, vs: seq<Value>): (r: seq<Value>)
    ensures |r| == |vs|
    decreases vs
  {
    if vs == [] then [] else [Renamed(phi, vs[0])] + RenamedAll(phi, vs[1..])
  }

  ghost function RenamedPairs(phi: map<nat, nat>, pairs: seq<(Value, Value)>): seq<(Value, Value)> {
    seq(|pairs|, i requires 0 <= i < |pairs| => (Renamed(phi, pairs[i].0), Renamed(phi, pairs[i].1)))
  }

  ghost predicate Covers(phi: map<nat, nat>, v: Value)
    decreases v
  {
    match v
    case Table(a) => a in phi
    case Function(_, ups) => CoversAll(phi, ups)
    case _ => true
  }

  ghost predicate CoversAll(phi: map<nat, nat>, vs: seq<Value>)
    decreases vs
  {
    vs != [] ==> Covers(phi, vs[0]) && CoversAll(phi, vs[1..])
  }

  ghost predicate CoversPairs(phi: map<nat, nat>, pairs: seq<(Value, Value)>) {
    forall i :: 0 <= i < |pairs| ==> Covers(phi, pairs[i].0) && Covers(phi, pairs[i].1)
  }

  ghost predicate Injective(phi: map<nat, nat>) {
    forall a, b :: a in phi && b in phi && phi[a] == phi[b] ==> a == b
  }

  ghost predicate Extends(phi: map<nat, nat>, psi: map<nat, nat>) {
    forall a :: a in phi ==> a in psi && psi[a] == phi[a]
  }

  lemma {:induction false} RenamedExtends(phi: map<nat, nat>, psi: map<nat, nat>, v: Value)
    requires Extends(phi, psi) && Covers(phi, v)
    ensures Covers(psi, v) && Renamed(psi, v) == Renamed(phi, v)
    decreases v
  {
    if v.Function? { RenamedExtendsAll(phi, psi, v.upvals); }
  }

  lemma {:induction false} RenamedExtendsAll(phi: map<nat, nat>, psi: map<nat, nat>, vs: seq<Value>)
    requires Extends(phi, psi) && CoversAll(phi, vs)
    ensures CoversAll(psi, vs) && RenamedAll(psi, vs) == RenamedAll(phi, vs)
    decreases vs
  {
    if vs != [] {
      RenamedExtends(phi, psi, vs[0]);
      RenamedExtendsAll(phi, psi, vs[1..]);
    }
  }

  lemma RenamedExtendsPairs(phi: map<nat, nat>, psi: map<nat, nat>, pairs: seq<(Value, Value)>)
    requires Extends(phi, psi) && CoversPairs(phi, pairs)
    ensures CoversPairs(psi, pairs) && RenamedPairs(psi, pairs) == RenamedPairs(phi, pairs)
  {
    forall i | 0 <= i < |pairs|
      ensures Covers(psi, pairs[i].0) && Covers(psi, pairs[i].1)
      ensures RenamedPairs(psi, pairs)[i] == RenamedPairs(phi, pairs)[i]
    {
      RenamedExtends(phi, psi, pairs[i].0);
      RenamedExtends(phi, psi, pairs[i].1);
    }
  }

  lemma {:induction false} RenamedInjective(phi: map<nat, nat>, u: Value, v: Value)
    requires Injective(phi) && Covers(phi, u) && Covers(phi, v) && Renamed(phi, u) == Renamed(phi, v)
    ensures u == v
    decreases u
  {
    if u.Function? && v.Function? { RenamedInjectiveAll(phi, u.upvals, v.upvals); }
  }

  lemma {:induction false} RenamedInjectiveAll(phi: map<nat, nat>, us: seq<Value>, vs: seq<Value>)
    requires Injective(phi) && CoversAll(phi, us) && CoversAll(phi, vs) && RenamedAll(phi, us) == RenamedAll(phi, vs)
    ensures us == vs
    decreases us
  {
    assert |us| == |vs|;
    if us != [] {
      var r, q := RenamedAll(phi, us), RenamedAll(phi, vs);
      assert r[0] == Renamed(phi, us[0]) && q[0] == Renamed(phi, vs[0]);
      assert r[1..] == RenamedAll(phi, us[1..]) && q[1..] == RenamedAll(phi, vs[1..]);
      RenamedInjective(phi, us[0], vs[0]);
      RenamedInjectiveAll(phi, us[1..], vs[1..]);
      assert us == [us[0]] + us[1..] && vs == [vs[0]] + vs[1..];
    }
  }

  // ---------- Tables as Lua has them ----------

  /** No nil key, no nil value, and no key twice. (Two functions with the same code and upvalues
      may still be different keys.) */
  ghost predicate ProperPairs(pairs: seq<(Value, Value)>) {
    && (forall i :: 0 <= i < |pairs| ==> !pairs[i].0.Nil? && !pairs[i].1.Nil?)
    && (forall i, j :: 0 <= i < j < |pairs| && pairs[i].0 == pairs[j].0 ==> pairs[i].0.Function?)
  }

  ghost predicate Proper(g: Graph) {
    Closed(g) && forall a :: a in g ==> ProperPairs(g[a].pairs)
  }

  lemma RawSetAppends(phi: map<nat, nat>, pairs: seq<(Value, Value)>, i: nat)
    requires i < |pairs| && ProperPairs(pairs) && Injective(phi) && CoversPairs(phi, pairs[..i + 1])
    ensures RawSet(RenamedPairs(phi, pairs[..i]), Renamed(phi, pairs[i].0), Renamed(phi, pairs[i].1))
         == Some(RenamedPairs(phi, pairs[..i + 1]))
  {
    var done, k := RenamedPairs(phi, pairs[..i]), Renamed(phi, pairs[i].0);
    assert pairs[..i + 1][i] == pairs[i];
    assert Covers(phi, pairs[i].0) && Covers(phi, pairs[i].1);
    var f := Find(done, k);
    if f < |done| {
      assert done[f].0 == Renamed(phi, pairs[f].0) && pairs[..i + 1][f] == pairs[f];
      RenamedInjective(phi, pairs[f].0, pairs[i].0);
    }
    assert RenamedPairs(phi, pairs[..i + 1]) == done + [(k, Renamed(phi, pairs[i].1))];
  }

  // ---------- Decoding what was encoded ----------

  /** The bodies `bs` lie in the token array from index `base` on. */
  ghost predicate Holds(ts: seq<Token>, base: nat, bs: seq<Body>) {
    base + |bs| <= |ts| && forall i :: 0 <= i < |bs| ==> ts[base + i].body == bs[i]
  }

  lemma HoldsSplit(ts: seq<Token>, base: nat, a: seq<Body>, b: seq<Body>)
    requires Holds(ts, base, a + b)
    ensures Holds(ts, base, a) && Holds(ts, base + |a|, b)
    ensures |a| == 1 ==> base < |ts| && ts[base].body == a[0]
  {
    assert forall i :: 0 <= i < |a| ==> (a + b)[i] == a[i];
    if |a| == 1 { assert ts[base + 0].body == (a + b)[0]; }
    forall i | 0 <= i < |b| ensures ts[base + |a| + i].body == b[i] {
      assert (a + b)[|a| + i] == b[i];
    }
  }

  /** Every reference is to a token that is flagged. */
  ghost predicate Marked(ts: seq<Token>) {
    forall i :: 0 <= i < |ts| && ts[i].body.TReference? ==>
      0 <= ts[i].body.ref < |ts| && ts[ts[i].body.ref].referenced
  }

  /** The decoder in step with the encoder: `phi` takes the tables met so far one to one to those
      created so far, and the flagged ones among them are registered under their index. */
  ghost predicate InStep(ts: seq<Token>, seen: map<nat, nat>, c: Reader, phi: map<nat, nat>) {
    && phi.Keys == seen.Keys && Injective(phi) && |c.heap| == |phi|
    && (forall a :: a in phi ==> phi[a] < |c.heap|)
    && (forall a :: a in seen ==> seen[a] < c.pos && seen[a] < |ts|)
    && (forall a :: a in seen && ts[seen[a]].referenced ==>
          seen[a] in c.refs && c.refs[seen[a]] == Table(phi[a]))
  }

  /** What one decoding adds: tables beyond the old ones, each with its pairs, nothing else
      changed but the pairs of the table at `open`, which is still being filled. */
  ghost predicate Grows(g: Graph, seen: map<nat, nat>, c: Reader, phi: map<nat, nat>,
                        more: map<nat, nat>, d: Reader, psi: map<nat, nat>, open: int)
    requires more.Keys <= g.Keys && psi.Keys == more.Keys
  {
    && Extends(phi, psi) && |c.heap| <= |d.heap|
    && (forall i :: 0 <= i < |c.heap| && i != open ==> d.heap[i] == c.heap[i])
    && (forall a :: a in more && a !in seen ==>
          && |c.heap| <= psi[a] < |d.heap|
          && CoversPairs(psi, g[a].pairs) && d.heap[psi[a]] == RenamedPairs(psi, g[a].pairs))
  }

  lemma GrowsJoin(g: Graph, s0: map<nat, nat>, c0: Reader, p0: map<nat, nat>,
                  s1: map<nat, nat>, c1: Reader, p1: map<nat, nat>, s2: map<nat, nat>, c2: Reader, p2: map<nat, nat>,
                  open: int)
    requires s0.Keys <= s1.Keys <= s2.Keys <= g.Keys && p1.Keys == s1.Keys && p2.Keys == s2.Keys
    requires open < |c0.heap|
    requires Grows(g, s0, c0, p0, s1, c1, p1, open) && Grows(g, s1, c1, p1, s2, c2, p2, open)
    ensures Grows(g, s0, c0, p0, s2, c2, p2, open)
  {
    forall a | a in s2 && a !in s0
      ensures |c0.heap| <= p2[a] < |c2.heap|
      ensures CoversPairs(p2, g[a].pairs) && c2.heap[p2[a]] == RenamedPairs(p2, g[a].pairs)
    {
      if a in s1 {
        RenamedExtendsPairs(p1, p2, g[a].pairs);
      }
    }
  }

  /** The encoding `e`, started where the decoder `c` stands, has been decoded. */
  ghost predicate Rebuilt(g: Graph, ts: seq<Token>, seen: map<nat, nat>, c: Reader, phi: map<nat, nat>,
                          e: Encoded, d: Reader, psi: map<nat, nat>, open: int)
  {
    && e.seen.Keys <= g.Keys && psi.Keys == e.seen.Keys
    && d.pos == c.pos + |e.toks| && |c.heap| <= |d.heap|
    && InStep(ts, e.seen, d, psi)
    && Grows(g, seen, c, phi, e.seen, d, psi, open)
  }

  lemma GrowsNothing(g: Graph, seen: map<nat, nat>, c: Reader, phi: map<nat, nat>, pos: nat, open: int)
    requires seen.Keys <= g.Keys && phi.Keys == seen.Keys
    ensures Grows(g, seen, c, phi, seen, c.(pos := pos), phi, open)
  {
  }

  lemma InStepLater(ts: seq<Token>, seen: map<nat, nat>, c: Reader, phi: map<nat, nat>, pos: nat)
    requires InStep(ts, seen, c, phi) && c.pos <= pos
    ensures InStep(ts, seen, c.(pos := pos), phi) && phi.Keys == seen.Keys
  {
  }

  /** One token that leaves the tables alone, or none. */
  lemma RebuiltPlain(g: Graph, ts: seq<Token>, seen: map<nat, nat>, c: Reader, phi: map<nat, nat>,
                     bs: seq<Body>, open: int)
    requires seen.Keys <= g.Keys && InStep(ts, seen, c, phi)
    ensures Rebuilt(g, ts, seen, c, phi, Encoded(bs, seen), c.(pos := c.pos + |bs|), phi, open)
  {
    hide InStep, Grows;
    InStepLater(ts, seen, c, phi, c.pos + |bs|);
    GrowsNothing(g, seen, c, phi, c.pos + |bs|, open);
  }

  lemma RebuiltJoin(g: Graph, ts: seq<Token>, seen: map<nat, nat>, c: Reader, phi: map<nat, nat>,
                    e: Encoded, d: Reader, psi: map<nat, nat>, f: Encoded, x: Reader, chi: map<nat, nat>, open: int)
    requires seen.Keys <= e.seen.Keys <= f.seen.Keys && open < |c.heap|
    requires Rebuilt(g, ts, seen, c, phi, e, d, psi, open) && Rebuilt(g, ts, e.seen, d, psi, f, x, chi, open)
    ensures Rebuilt(g, ts, seen, c, phi, Encoded(e.toks + f.toks, f.seen), x, chi, open)
  {
    GrowsJoin(g, seen, c, phi, e.seen, d, psi, f.seen, x, chi, open);
  }

  lemma {:induction false} DecodesValue(g: Graph, v: Value, ts: seq<Token>, seen: map<nat, nat>,
                                        c: Reader, phi: map<nat, nat>)
    returns (d: Reader, psi: map<nat, nat>)
    requires Proper(g) && Within(g, v) && seen.Keys <= g.Keys && Marked(ts) && InStep(ts, seen, c, phi)
    requires Holds(ts, c.pos, Enc(g, v, c.pos, seen).toks)
    ensures Rebuilt(g, ts, seen, c, phi, Enc(g, v, c.pos, seen), d, psi, -1)
    ensures Covers(psi, v) && Dec(ts, c) == Some((Renamed(psi, v), d))
    decreases Unseen(g, seen), 1, Weight(v), 1
  {
    hide Grows, InStep, Marked, Rebuilt;
    match v
    case Table(a) =>
      if a in seen {
        d, psi := c.(pos := c.pos + 1), phi;
        DecodesReference(g, a, ts, seen, c, phi);
      } else {
        d, psi := DecodesTable(g, a, ts, seen, c, phi);
      }
    case Function(code, ups) => d, psi := DecodesFunction(g, code, ups, ts, seen, c, phi);
    case _ =>
      d, psi := c.(pos := c.pos + 1), phi;
      DecodesLeaf(g, v, ts, seen, c, phi);
  }

  lemma DecodesLeaf(g: Graph, v: Value, ts: seq<Token>, seen: map<nat, nat>, c: Reader, phi: map<nat, nat>)
    requires Proper(g) && Within(g, v) && seen.Keys <= g.Keys && InStep(ts, seen, c, phi)
    requires !v.Table? && !v.Function? && Holds(ts, c.pos, Enc(g, v, c.pos, seen).toks)
    ensures Rebuilt(g, ts, seen, c, phi, Enc(g, v, c.pos, seen), c.(pos := c.pos + 1), phi, -1)
    ensures Dec(ts, c) == Some((Renamed(phi, v), c.(pos := c.pos + 1)))
  {
    hide InStep, Grows, Rebuilt, ProperPairs, Closed;
    RebuiltPlain(g, ts, seen, c, phi, Enc(g, v, c.pos, seen).toks, -1);
    assert ts[c.pos + 0].body == Enc(g, v, c.pos, seen).toks[0];
  }

  lemma DecReference(ts: seq<Token>, c: Reader, ref: int)
    requires c.pos < |ts| && ts[c.pos].body == TReference(ref) && ref in c.refs
    ensures Dec(ts, c) == Some((c.refs[ref], c.(pos := c.pos + 1)))
  {
  }

  lemma DecTable(ts: seq<Token>, c: Reader, slots: int, objlen: int, d: Reader)
    requires c.pos < |ts| && ts[c.pos].body == TTable(slots, objlen)
    requires DecPairs(ts, Created(ts, c), |c.heap|, slots) == Some(d)
    ensures Dec(ts, c) == Some((Table(|c.heap|), d))
  {
  }

  lemma DecFunction(ts: seq<Token>, c: Reader, n: int, code: seq<byte>, ups: seq<Value>, d: Reader)
    requires c.pos < |ts| && ts[c.pos].body == TFunction(n, code)
    requires DecCount(ts, c.(pos := c.pos + 1), n) == Some((ups, d))
    ensures Dec(ts, c) == Some((Function(code, ups), d))
  {
  }

  /** What a reference in step with the encoder leads to. */
  lemma Registered(a: nat, ts: seq<Token>, seen: map<nat, nat>, c: Reader, phi: map<nat, nat>)
    requires a in seen && Marked(ts) && InStep(ts, seen, c, phi)
    requires c.pos < |ts| && ts[c.pos].body == TReference(seen[a])
    ensures a in phi && seen[a] in c.refs && c.refs[seen[a]] == Table(phi[a])
  {
  }

  lemma {:induction false} DecodesReference(g: Graph, a: nat, ts: seq<Token>, seen: map<nat, nat>,
                                            c: Reader, phi: map<nat, nat>)
    requires Proper(g) && a in g && a in seen && seen.Keys <= g.Keys && Marked(ts) && InStep(ts, seen, c, phi)
    requires Holds(ts, c.pos, Enc(g, Table(a), c.pos, seen).toks)
    ensures Rebuilt(g, ts, seen, c, phi, Enc(g, Table(a), c.pos, seen), c.(pos := c.pos + 1), phi, -1)
    ensures a in phi && Dec(ts, c) == Some((Table(phi[a]), c.(pos := c.pos + 1)))
  {
    hide Rebuilt, Grows, ProperPairs, Closed, InStep, Marked, Dec, EncPairs, EncAll;
    RebuiltPlain(g, ts, seen, c, phi, [TReference(seen[a])], -1);
    assert ts[c.pos + 0].body == [TReference(seen[a])][0];
    Registered(a, ts, seen, c, phi);
    DecReference(ts, c, seen[a]);
  }

  lemma {:induction false} DecodesFunction(g: Graph, code: seq<byte>, ups: seq<Value>, ts: seq<Token>,
                                           seen: map<nat, nat>, c: Reader, phi: map<nat, nat>)
    returns (d: Reader, psi: map<nat, nat>)
    requires Proper(g) && Within(g, Function(code, ups))
    requires seen.Keys <= g.Keys && Marked(ts) && InStep(ts, seen, c, phi)
    requires Holds(ts, c.pos, Enc(g, Function(code, ups), c.pos, seen).toks)
    ensures Rebuilt(g, ts, seen, c, phi, Enc(g, Function(code, ups), c.pos, seen), d, psi, -1)
    ensures Covers(psi, Function(code, ups)) && Dec(ts, c) == Some((Renamed(psi, Function(code, ups)), d))
    decreases Unseen(g, seen), 1, Weight(Function(code, ups)), 0
  {
    hide InStep, Grows, Rebuilt, ProperPairs, Closed, Marked, Dec, DecCount, Enc, EncAll, Holds, Unseen;
    EncFunction(g, code, ups, c.pos, seen);
    var rest := EncAll(g, ups, c.pos + 1, seen);
    HoldsSplit(ts, c.pos, [TFunction(|ups|, code)], rest.toks);
    var c' := c.(pos := c.pos + 1);
    RebuiltPlain(g, ts, seen, c, phi, [TFunction(|ups|, code)], -1);
    RebuiltInStep(g, ts, seen, c, phi, Encoded([TFunction(|ups|, code)], seen), c', phi, -1);
    d, psi := DecodesAll(g, ups, ts, seen, c', phi);
    DecFunction(ts, c, |ups|, code, RenamedAll(psi, ups), d);
    RebuiltJoin(g, ts, seen, c, phi, Encoded([TFunction(|ups|, code)], seen), c', phi, rest, d, psi, -1);
  }

  lemma RebuiltInStep(g: Graph, ts: seq<Token>, seen: map<nat, nat>, c: Reader, phi: map<nat, nat>,
                      e: Encoded, d: Reader, psi: map<nat, nat>, open: int)
    requires Rebuilt(g, ts, seen, c, phi, e, d, psi, open)
    ensures InStep(ts, e.seen, d, psi) && e.seen.Keys <= g.Keys
    ensures d.pos == c.pos + |e.toks| && |c.heap| <= |d.heap| && Extends(phi, psi)
  {
  }

  lemma CreatedInStep(a: nat, ts: seq<Token>, seen: map<nat, nat>, c: Reader, phi: map<nat, nat>)
    requires InStep(ts, seen, c, phi) && a !in seen && c.pos < |ts|
    ensures InStep(ts, seen[a := c.pos], Created(ts, c), phi[a := |c.heap|])
    ensures Created(ts, c).pos == c.pos + 1 && Created(ts, c).heap == c.heap + [[]]
  {
    var seen', phi', c' := seen[a := c.pos], phi[a := |c.heap|], Created(ts, c);
    assert |phi'| == |phi| + 1;
    InjectiveMore(phi, a, |c.heap|);
    hide Injective;
    forall b | b in seen' && ts[seen'[b]].referenced
      ensures seen'[b] in c'.refs && c'.refs[seen'[b]] == Table(phi'[b])
    {
      if b != a { assert seen[b] != c.pos; }
    }
  }

  lemma InjectiveMore(phi: map<nat, nat>, a: nat, addr: nat)
    requires Injective(phi) && a !in phi && forall b :: b in phi ==> phi[b] < addr
    ensures Injective(phi[a := addr])
  {
  }

  lemma {:induction false} DecodesTable(g: Graph, a: nat, ts: seq<Token>, seen: map<nat, nat>,
                                        c: Reader, phi: map<nat, nat>)
    returns (d: Reader, psi: map<nat, nat>)
    requires Proper(g) && a in g && a !in seen && seen.Keys <= g.Keys && Marked(ts) && InStep(ts, seen, c, phi)
    requires Holds(ts, c.pos, Enc(g, Table(a), c.pos, seen).toks)
    ensures Rebuilt(g, ts, seen, c, phi, Enc(g, Table(a), c.pos, seen), d, psi, -1)
    ensures Covers(psi, Table(a)) && Dec(ts, c) == Some((Renamed(psi, Table(a)), d))
    decreases Unseen(g, seen), 1, Weight(Table(a)), 0
  {
    hide Enc, EncAll, EncPairs, EncPair, Unseen, Within, PairsWithin, Dec, DecPairs, DecCount, RawSet, Find,
         Injective, Extends, Holds, Marked, InStep, Grows, Rebuilt, ProperPairs, Closed, CoversPairs, Created;
    var pairs := g[a].pairs;
    var first := TTable(|pairs|, g[a].objlen);
    EncTable(g, a, c.pos, seen);
    var rest := EncPairs(g, pairs, c.pos + 1, seen[a := c.pos]);
    HoldsSplit(ts, c.pos, [first], rest.toks);
    UnseenShrinks(g, seen, seen[a := c.pos]);
    CreatedInStep(a, ts, seen, c, phi);
    NoPairs(phi[a := |c.heap|], pairs);
    d, psi := DecodesPairs(g, pairs, 0, ts, seen[a := c.pos], Created(ts, c), phi[a := |c.heap|], |c.heap|);
    DecTable(ts, c, |pairs|, g[a].objlen, d);
    RebuiltTable(g, a, ts, seen, c, phi, first, rest, d, psi);
  }

  lemma NoPairs(phi: map<nat, nat>, pairs: seq<(Value, Value)>)
    ensures CoversPairs(phi, pairs[..0]) && RenamedPairs(phi, pairs[..0]) == [] && pairs[0..] == pairs
  {
  }

  lemma RebuiltTable(g: Graph, a: nat, ts: seq<Token>, seen: map<nat, nat>, c: Reader, phi: map<nat, nat>,
                     first: Body, rest: Encoded, d: Reader, psi: map<nat, nat>)
    requires a in g && a !in seen && InStep(ts, seen, c, phi) && c.pos < |ts|
    requires Rebuilt(g, ts, seen[a := c.pos], Created(ts, c), phi[a := |c.heap|], rest, d, psi, |c.heap|)
    requires seen[a := c.pos].Keys <= rest.seen.Keys
    requires CoversPairs(psi, g[a].pairs) && |c.heap| < |d.heap| && d.heap[|c.heap|] == RenamedPairs(psi, g[a].pairs)
    ensures Rebuilt(g, ts, seen, c, phi, Encoded([first] + rest.toks, rest.seen), d, psi, -1)
    ensures a in psi && psi[a] == |c.heap|
  {
    assert phi.Keys == seen.Keys;
    hide InStep, Grows, CoversPairs, RenamedPairs;
    GrowsTable(g, a, ts, seen, c, phi, rest.seen, d, psi);
  }

  lemma GrowsTable(g: Graph, a: nat, ts: seq<Token>, seen: map<nat, nat>, c: Reader, phi: map<nat, nat>,
                   more: map<nat, nat>, d: Reader, psi: map<nat, nat>)
    requires a in g && a !in phi && a !in seen && c.pos < |ts| && a in more
    requires more.Keys <= g.Keys && psi.Keys == more.Keys
    requires Grows(g, seen[a := c.pos], Created(ts, c), phi[a := |c.heap|], more, d, psi, |c.heap|)
    requires CoversPairs(psi, g[a].pairs) && |c.heap| < |d.heap| && d.heap[|c.heap|] == RenamedPairs(psi, g[a].pairs)
    ensures Grows(g, seen, c, phi, more, d, psi, -1) && psi[a] == |c.heap|
  {
    hide CoversPairs, RenamedPairs;
    var phi' := phi[a := |c.heap|];
    assert a in phi';
    forall b | b in phi ensures b in psi && psi[b] == phi[b] { assert b in phi' && phi'[b] == phi[b]; }
    forall i | 0 <= i < |c.heap| ensures d.heap[i] == c.heap[i] { assert Created(ts, c).heap[i] == c.heap[i]; }
  }

  lemma {:induction false} DecodesPairs(g: Graph, pairs: seq<(Value, Value)>, i: nat, ts: seq<Token>,
                                        seen: map<nat, nat>, c: Reader, phi: map<nat, nat>, addr: nat)
    returns (d: Reader, psi: map<nat, nat>)
    requires Proper(g) && PairsWithin(g, pairs) && ProperPairs(pairs) && i <= |pairs|
    requires seen.Keys <= g.Keys && Marked(ts) && InStep(ts, seen, c, phi)
    requires Holds(ts, c.pos, EncPairs(g, pairs[i..], c.pos, seen).toks)
    requires addr < |c.heap| && CoversPairs(phi, pairs[..i]) && c.heap[addr] == RenamedPairs(phi, pairs[..i])
    ensures Rebuilt(g, ts, seen, c, phi, EncPairs(g, pairs[i..], c.pos, seen), d, psi, addr)
    ensures CoversPairs(psi, pairs) && addr < |d.heap| && d.heap[addr] == RenamedPairs(psi, pairs)
    ensures DecPairs(ts, c, addr, |pairs| - i) == Some(d)
    decreases Unseen(g, seen), 2, |pairs| - i
  {
    hide Enc, EncAll, EncPair, EncPairs, Unseen, Within, Dec, DecCount, DecPairs, Created, Renamed, RenamedPairs,
         RawSet, Covers, CoversPairs, Injective, Extends, Holds, Marked, InStep, Grows, Rebuilt, ProperPairs, Closed;
    d, psi := c, phi;
    if i == |pairs| {
      assert pairs[..i] == pairs && pairs[i..] == [];
      NothingLeft(g, ts, seen, c, addr);
      RebuiltPlain(g, ts, seen, c, phi, [], addr);
    } else {
      EncPairsAt(g, pairs, i, c.pos, seen);
      var first := EncPair(g, pairs[i], c.pos, seen);
      var rest := EncPairs(g, pairs[i + 1..], c.pos + |first.toks|, first.seen);
      HoldsSplit(ts, c.pos, first.toks, rest.toks);
      UnseenShrinks(g, seen, first.seen);
      var c1, psi1 := DecodesPair(g, pairs, i, ts, seen, c, phi, addr);
      RebuiltInStep(g, ts, seen, c, phi, first, c1, psi1, addr);
      d, psi := DecodesPairs(g, pairs, i + 1, ts, first.seen, c1, psi1, addr);
      RebuiltJoin(g, ts, seen, c, phi, first, c1, psi1, rest, d, psi, addr);
    }
  }

  lemma NothingLeft(g: Graph, ts: seq<Token>, seen: map<nat, nat>, c: Reader, addr: nat)
    requires Closed(g) && addr < |c.heap|
    ensures EncPairs(g, [], c.pos, seen) == Encoded([], seen) && DecPairs(ts, c, addr, 0) == Some(c)
  {
  }

  /** One key, one value, one `lua_rawset`. */
  lemma {:induction false} DecodesPair(g: Graph, pairs: seq<(Value, Value)>, i: nat, ts: seq<Token>,
                                       seen: map<nat, nat>, c: Reader, phi: map<nat, nat>, addr: nat)
    returns (d: Reader, psi: map<nat, nat>)
    requires Proper(g) && PairsWithin(g, pairs) && ProperPairs(pairs) && i < |pairs|
    requires seen.Keys <= g.Keys && Marked(ts) && InStep(ts, seen, c, phi)
    requires Holds(ts, c.pos, EncPair(g, pairs[i], c.pos, seen).toks)
    requires addr < |c.heap| && CoversPairs(phi, pairs[..i]) && c.heap[addr] == RenamedPairs(phi, pairs[..i])
    ensures Rebuilt(g, ts, seen, c, phi, EncPair(g, pairs[i], c.pos, seen), d, psi, addr)
    ensures addr < |d.heap| && CoversPairs(psi, pairs[..i + 1]) && d.heap[addr] == RenamedPairs(psi, pairs[..i + 1])
    ensures forall n :: n != 0 ==> DecPairs(ts, c, addr, n) == DecPairs(ts, d, addr, n - 1)
    decreases Unseen(g, seen), 1, Weight(pairs[i].0) + Weight(pairs[i].1) + 1
  {
    hide Enc, EncAll, EncPairs, Unseen, Within, Dec, DecCount, Created, Renamed, RenamedPairs, RawSet,
         Covers, CoversPairs, Injective, Extends, Holds, Marked, InStep, Grows, Rebuilt, ProperPairs, Closed;
    var k, v := pairs[i].0, pairs[i].1;
    var key := Enc(g, k, c.pos, seen);
    var val := Enc(g, v, c.pos + |key.toks|, key.seen);
    HoldsSplit(ts, c.pos, key.toks, val.toks);
    var c1, psi1 := DecodesValue(g, k, ts, seen, c, phi);
    RebuiltInStep(g, ts, seen, c, phi, key, c1, psi1, -1);
    UnseenShrinks(g, seen, key.seen);
    var c2, psi2 := DecodesValue(g, v, ts, key.seen, c1, psi1);
    RebuiltInStep(g, ts, key.seen, c1, psi1, val, c2, psi2, -1);
    RebuiltJoin(g, ts, seen, c, phi, key, c1, psi1, val, c2, psi2, -1);
    PairSet(g, pairs, i, ts, seen, c, phi, psi1, Encoded(key.toks + val.toks, val.seen), c2, psi2, addr);
    psi := psi2;
    d := c2.(heap := c2.heap[addr := RenamedPairs(psi, pairs[..i + 1])]);
  }

  lemma PairSet(g: Graph, pairs: seq<(Value, Value)>, i: nat, ts: seq<Token>, seen: map<nat, nat>,
                c: Reader, phi: map<nat, nat>, psi1: map<nat, nat>, e: Encoded, d: Reader, psi: map<nat, nat>,
                addr: nat)
    requires ProperPairs(pairs) && i < |pairs| && Rebuilt(g, ts, seen, c, phi, e, d, psi, -1) && Extends(psi1, psi)
    requires Covers(psi1, pairs[i].0) && Covers(psi, pairs[i].1)
    requires addr < |c.heap| && CoversPairs(phi, pairs[..i]) && c.heap[addr] == RenamedPairs(phi, pairs[..i])
    ensures Rebuilt(g, ts, seen, c, phi, e, d.(heap := d.heap[addr := RenamedPairs(psi, pairs[..i + 1])]), psi, addr)
    ensures CoversPairs(psi, pairs[..i + 1]) && Renamed(psi, pairs[i].0) == Renamed(psi1, pairs[i].0)
    ensures RawSet(d.heap[addr], Renamed(psi, pairs[i].0), Renamed(psi, pairs[i].1))
         == Some(RenamedPairs(psi, pairs[..i + 1]))
  {
    RenamedExtends(psi1, psi, pairs[i].0);
    RenamedExtendsPairs(phi, psi, pairs[..i]);
    RebuiltExtends(g, ts, seen, c, phi, e, d, psi);
    RebuiltFilled(g, ts, seen, c, phi, e, d, psi, addr, RenamedPairs(psi, pairs[..i + 1]));
    hide Rebuilt, RenamedPairs, Renamed, Covers, ProperPairs;
    CoversMore(psi, pairs, i);
    RawSetAppends(psi, pairs, i);
  }

  lemma CoversMore(phi: map<nat, nat>, pairs: seq<(Value, Value)>, i: nat)
    requires i < |pairs| && CoversPairs(phi, pairs[..i]) && Covers(phi, pairs[i].0) && Covers(phi, pairs[i].1)
    ensures CoversPairs(phi, pairs[..i + 1])
  {
    hide Covers;
    assert forall j :: 0 <= j < i ==> pairs[..i + 1][j] == pairs[..i][j];
  }

  lemma RebuiltExtends(g: Graph, ts: seq<Token>, seen: map<nat, nat>, c: Reader, phi: map<nat, nat>,
                       e: Encoded, d: Reader, psi: map<nat, nat>)
    requires Rebuilt(g, ts, seen, c, phi, e, d, psi, -1)
    ensures Extends(phi, psi) && Injective(psi)
    ensures |c.heap| <= |d.heap| && forall i :: 0 <= i < |c.heap| ==> d.heap[i] == c.heap[i]
  {
  }

  /** The table being filled may change; all else stands. */
  lemma RebuiltFilled(g: Graph, ts: seq<Token>, seen: map<nat, nat>, c: Reader, phi: map<nat, nat>,
                      e: Encoded, d: Reader, psi: map<nat, nat>, addr: nat, pairs: seq<(Value, Value)>)
    requires Rebuilt(g, ts, seen, c, phi, e, d, psi, -1) && addr < |c.heap|
    ensures Rebuilt(g, ts, seen, c, phi, e, d.(heap := d.heap[addr := pairs]), psi, addr)
  {
    hide RenamedPairs, CoversPairs, Injective, Extends;
  }

  lemma {:induction false} DecodesAll(g: Graph, vs: seq<Value>, ts: seq<Token>, seen: map<nat, nat>,
                                      c: Reader, phi: map<nat, nat>)
    returns (d: Reader, psi: map<nat, nat>)
    requires Proper(g) && (forall v :: v in vs ==> Within(g, v))
    requires seen.Keys <= g.Keys && Marked(ts) && InStep(ts, seen, c, phi)
    requires Holds(ts, c.pos, EncAll(g, vs, c.pos, seen).toks)
    ensures Rebuilt(g, ts, seen, c, phi, EncAll(g, vs, c.pos, seen), d, psi, -1)
    ensures CoversAll(psi, vs) && DecCount(ts, c, |vs|) == Some((RenamedAll(psi, vs), d))
    decreases Unseen(g, seen), 1, WeightAll(vs)
  {
    hide Enc, EncPair, EncPairs, Unseen, Within, PairsWithin, Dec, DecPairs, Created, Renamed, RenamedPairs,
         Covers, CoversPairs, Injective, Extends, Holds, Marked, InStep, Grows, Rebuilt, ProperPairs, Closed;
    d, psi := c, phi;
    if vs == [] {
      RebuiltPlain(g, ts, seen, c, phi, [], -1);
    } else {
      var first := Enc(g, vs[0], c.pos, seen);
      var rest := EncAll(g, vs[1..], c.pos + |first.toks|, first.seen);
      HoldsSplit(ts, c.pos, first.toks, rest.toks);
      var d1, psi1 := DecodesValue(g, vs[0], ts, seen, c, phi);
      RebuiltInStep(g, ts, seen, c, phi, first, d1, psi1, -1);
      UnseenShrinks(g, seen, first.seen);
      d, psi := DecodesAll(g, vs[1..], ts, first.seen, d1, psi1);
      RebuiltJoin(g, ts, seen, c, phi, first, d1, psi1, rest, d, psi, -1);
      RebuiltInStep(g, ts, first.seen, d1, psi1, rest, d, psi, -1);
      RenamedExtends(psi1, psi, vs[0]);
    }
  }

  // ---------- Tokens that end too early ----------

  /** What can be decoded from the first tokens alone is the same with the others behind them. */
  lemma {:induction false} DecPrefix(ps: seq<Token>, ts: seq<Token>, c: Reader)
    requires ps <= ts && Dec(ps, c).Some?
    ensures Dec(ts, c) == Dec(ps, c)
    decreases |ps| - c.pos, 0
  {
    hide RawSet;
    match ps[c.pos].body
    case TTable(slots, _) => DecPairsPrefix(ps, ts, Created(ps, c), |c.heap|, slots);
    case TFunction(n, _) => DecCountPrefix(ps, ts, c.(pos := c.pos + 1), n);
    case _ =>
  }

  lemma {:induction false} DecPairsPrefix(ps: seq<Token>, ts: seq<Token>, c: Reader, addr: nat, n: int)
    requires ps <= ts && addr < |c.heap| && DecPairs(ps, c, addr, n).Some?
    ensures DecPairs(ts, c, addr, n) == DecPairs(ps, c, addr, n)
    decreases |ps| - c.pos, 1
  {
    hide Dec, RawSet;
    if n != 0 {
      DecPrefix(ps, ts, c);
      var key := Dec(ps, c).value;
      DecPrefix(ps, ts, key.1);
      var val := Dec(ps, key.1).value;
      var d := val.1;
      var put := RawSet(d.heap[addr], key.0, val.0);
      DecPairsPrefix(ps, ts, d.(heap := d.heap[addr := put.value]), addr, n - 1);
    }
  }

  lemma {:induction false} DecCountPrefix(ps: seq<Token>, ts: seq<Token>, c: Reader, n: int)
    requires ps <= ts && DecCount(ps, c, n).Some?
    ensures DecCount(ts, c, n) == DecCount(ps, c, n)
    decreases |ps| - c.pos, 1
  {
    hide Dec;
    if n > 0 {
      DecPrefix(ps, ts, c);
      DecCountPrefix(ps, ts, Dec(ps, c).value.1, n - 1);
    }
  }

  /** When tokens are missing at the end, so are values. */
  lemma {:induction false} TopFallsShort(ps: seq<Token>, ts: seq<Token>, c: Reader, n: nat)
    requires ps < ts && c.pos <= |ps|
    requires DecCount(ts, c, n).Some? && DecCount(ts, c, n).value.1.pos == |ts|
    ensures |DecTop(ps, c).0| < n
    decreases n
  {
    hide Dec;
    if Dec(ps, c).Some? {
      DecPrefix(ps, ts, c);
      TopFallsShort(ps, ts, Dec(ps, c).value.1, n - 1);
    }
  }

  // ---------- Whole messages ----------

  const START := Reader(0, map[], [])

  lemma FlaggedMarked(bs: seq<Body>)
    requires RefsWithin(bs, |bs|)
    ensures Marked(Flagged(bs)) && Holds(Flagged(bs), 0, bs)
  {
    var ts := Flagged(bs);
    forall i | 0 <= i < |ts| && ts[i].body.TReference?
      ensures 0 <= ts[i].body.ref < |ts| && ts[ts[i].body.ref].referenced
    {
      assert bs[i] == TReference(ts[i].body.ref);
    }
  }

  lemma {:induction false} TopIsCount(ts: seq<Token>, c: Reader, n: nat)
    requires DecCount(ts, c, n).Some? && DecCount(ts, c, n).value.1.pos == |ts|
    ensures DecTop(ts, c) == DecCount(ts, c, n).value
    decreases n
  {
    if n > 0 {
      TopIsCount(ts, Dec(ts, c).value.1, n - 1);
    }
  }

  /** The values `us` over the tables `heap` are the values `vs` over the graph `g`, up to the
      names of tables: `phi` names every table that `vs` reach and no other, no two alike, and
      every table that exists. */
  ghost predicate Isomorphic(g: Graph, vs: seq<Value>, us: seq<Value>, heap: seq<seq<(Value, Value)>>,
                             phi: map<nat, nat>)
  {
    && phi.Keys == Sharing.Reached(g, vs) && Injective(phi) && |heap| == |phi|
    && CoversAll(phi, vs) && us == RenamedAll(phi, vs)
    && forall a :: a in phi ==>
         && phi[a] < |heap|
         && CoversPairs(phi, g[a].pairs) && heap[phi[a]] == RenamedPairs(phi, g[a].pairs)
  }

  /** Decoding the finished tokens of an encoded graph rebuilds it; from fewer tokens come fewer
      values. */
  lemma RoundTrip(g: Graph, vs: seq<Value>) returns (phi: map<nat, nat>)
    requires Proper(g) && forall v :: v in vs ==> Within(g, v)
    ensures var ts := Flagged(EncAll(g, vs, 0, map[]).toks);
            var (us, end) := DecTop(ts, START);
            end.pos == |ts| && Isomorphic(g, vs, us, end.heap, phi)
    ensures var ts := Flagged(EncAll(g, vs, 0, map[]).toks);
            forall ps :: ps < ts ==> |DecTop(ps, START).0| < |vs|
    ensures TableCount(EncAll(g, vs, 0, map[]).toks) == |phi|
  {
    hide Enc, EncAll, Unseen, Records, Owned, LeadsBack, Dec, DecCount;
    var e := EncAll(g, vs, 0, map[]);
    var ts := Flagged(e.toks);
    EncAllSound(g, vs, 0, map[]);
    SoundRefs(g, map[], 0, e);
    FlaggedMarked(e.toks);
    var d;
    d, phi := DecodesAll(g, vs, ts, map[], START, map[]);
    TopIsCount(ts, START, |vs|);
    Sharing.RecordsReached(g, vs);
    forall ps | ps < ts ensures |DecTop(ps, START).0| < |vs| {
      TopFallsShort(ps, ts, START, |vs|);
    }
  }
}
