/** The values that `src/lc_message.c` moves between Lua states, and the tokens of
    `src/message.h` that stand for them while a message is built. */
module Tokens {

  newtype byte = x: int | 0 <= x < 256

  /** A table is known by its address; everything else is known by its parts. A number is the
      eight bytes of its double. */
  datatype Value =
    | Nil
    | Bool(b: bool)
    | Number(image: seq<byte>)
    | String(s: seq<byte>)
    | Table(addr: nat)
    | Function(code: seq<byte>, upvals: seq<Value>)

  /** A table: the result of `lua_objlen`, and the pairs in the order of `lua_next`. */
  datatype TableObj = TableObj(objlen: int, pairs: seq<(Value, Value)>)

  type Graph = map<nat, TableObj>

  ghost predicate Within(g: Graph, v: Value)
    decreases v
  {
    match v
    case Table(a) => a in g
    case Function(_, ups) => forall u :: u in ups ==> Within(g, u)
    case _ => true
  }

  ghost predicate PairsWithin(g: Graph, pairs: seq<(Value, Value)>) {
    forall i :: 0 <= i < |pairs| ==> Within(g, pairs[i].0) && Within(g, pairs[i].1)
  }

  ghost predicate Closed(g: Graph) {
    forall a :: a in g ==> PairsWithin(g, g[a].pairs)
  }

  /** What one `value_t` holds, the flags of its type word apart. */
  datatype Body =
    | TNil
    | TTrue
    | TFalse
    | TNumber(image: seq<byte>)
    | TString(s: seq<byte>)
    | TTable(slots: int, objlen: int)
    | TFunction(upvals: int, code: seq<byte>)
    | TReference(ref: int)

  datatype Token = Token(body: Body, referenced: bool)

  ghost function Bodies(ts: seq<Token>): seq<Body> {
    seq(|ts|, i requires 0 <= i < |ts| => ts[i].body)
  }

  ghost function RefCount(bs: seq<Body>): nat {
    if bs == [] then 0 else (if bs[0].TReference? then 1 else 0) + RefCount(bs[1..])
  }

  ghost function TableCount(bs: seq<Body>): nat {
    if bs == [] then 0 else (if bs[0].TTable? then 1 else 0) + TableCount(bs[1..])
  }

  /** What a push adds to `bytes`: for a reference the index alone, not its type word. */
  function Counted(b: Body): nat {
    match b
    case TNil => 4
    case TTrue => 4
    case TFalse => 4
    case TNumber(n) => 4 + |n|
    case TString(s) => 4 + 4 + |s|
    case TTable(_, _) => 4 + 4 + 4
    case TFunction(_, code) => 4 + 4 + 4 + |code|
    case TReference(_) => 4
  }

  ghost function CountedAll(bs: seq<Body>): nat {
    if bs == [] then 0 else Counted(bs[0]) + CountedAll(bs[1..])
  }

  lemma SumsOfOne(b: Body)
    ensures RefCount([b]) == if b.TReference? then 1 else 0
    ensures CountedAll([b]) == Counted(b)
  {
  }

  lemma {:induction false} SumsConcat(a: seq<Body>, b: seq<Body>)
    ensures RefCount(a + b) == RefCount(a) + RefCount(b)
    ensures TableCount(a + b) == TableCount(a) + TableCount(b)
    ensures CountedAll(a + b) == CountedAll(a) + CountedAll(b)
  {
    if a == [] {
      assert a + b == b;
    } else {
      SumsConcat(a[1..], b);
      assert (a + b)[1..] == a[1..] + b;
    }
  }

  /** Some reference among `bs` is to index `i`. */
  ghost predicate Refers(bs: seq<Body>, i: int) {
    exists j :: 0 <= j < |bs| && bs[j] == TReference(i)
  }

  lemma RefersConcat(a: seq<Body>, b: seq<Body>, i: int)
    ensures Refers(a + b, i) <==> Refers(a, i) || Refers(b, i)
  {
    if Refers(a, i) {
      var j :| 0 <= j < |a| && a[j] == TReference(i);
      assert (a + b)[j] == TReference(i);
    }
    if Refers(b, i) {
      var j :| 0 <= j < |b| && b[j] == TReference(i);
      assert (a + b)[|a| + j] == TReference(i);
    }
  }

  /** The finished token array: the bodies, with every index that is referred to flagged. */
  ghost function Flagged(bs: seq<Body>): seq<Token> {
    seq(|bs|, i requires 0 <= i < |bs| => Token(bs[i], Refers(bs, i)))
  }
}
