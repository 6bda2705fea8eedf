/** A position in a tree of `src/map.c`: the chain of ancestors that its `path[]` arrays hold,
    the walks back up that chain, and the map that a tree stands for. */
module AaPath {
  import opened Sequences
  import opened AaTree

  /** `dir` is the link taken at `node`; `other` is the subtree behind the link not taken. */
  datatype Path<N> =
    | Top
    | Step(up: Path<N>, node: N, level: int, item: Item, dir: bool, other: Tree<N>)

  ghost function Close<N>(p: Path<N>, sub: Tree<N>): Tree<N>
    requires p.Step?
  {
    Join(p.node, p.level, p.item, p.dir, p.other, sub)
  }

  /** The whole tree, with `sub` at the position. */
  ghost function Plug<N>(p: Path<N>, sub: Tree<N>): Tree<N> {
    if p.Top? then sub else Plug(p.up, Close(p, sub))
  }

  /** One link down from a fork. */
  ghost function Down<N>(p: Path<N>, t: Tree<N>, dir: bool): Path<N>
    requires t.Fork?
  {
    Step(p, t.node, t.level, t.item, dir, Child(t, !dir))
  }

  ghost function Spine<N>(p: Path<N>): seq<N> {
    if p.Top? then [] else Spine(p.up) + [p.node]
  }

  ghost function PathNodes<N>(p: Path<N>): set<N> {
    if p.Top? then {} else {p.node} + Nodes(p.other) + PathNodes(p.up)
  }

  ghost function Before<N>(p: Path<N>): seq<Item> {
    if p.Top? then [] else if p.dir then Before(p.up) + Inorder(p.other) + [p.item] else Before(p.up)
  }

  ghost function After<N>(p: Path<N>): seq<Item> {
    if p.Top? then [] else if p.dir then After(p.up) else [p.item] + Inorder(p.other) + After(p.up)
  }

  /** A subtree made of the nodes `s` can hang here without a node occurring twice. */
  ghost predicate Fits<N>(p: Path<N>, s: set<N>) {
    p.Step? ==>
      && p.node !in s && p.node !in Nodes(p.other)
      && Nodes(p.other) !! s && Distinct(p.other)
      && Fits(p.up, s + {p.node} + Nodes(p.other))
  }

  lemma {:induction false} PlugInorder<N>(p: Path<N>, sub: Tree<N>)
    ensures Inorder(Plug(p, sub)) == Before(p) + Inorder(sub) + After(p)
  {
    if p.Step? {
      PlugInorder(p.up, Close(p, sub));
      if p.dir {
        Flatten5(Before(p.up), Inorder(p.other), [p.item], Inorder(sub), After(p.up));
      } else {
        Flatten5(Before(p.up), Inorder(sub), [p.item], Inorder(p.other), After(p.up));
      }
    }
  }

  lemma {:induction false} PlugNodes<N>(p: Path<N>, sub: Tree<N>)
    ensures Nodes(Plug(p, sub)) == PathNodes(p) + Nodes(sub)
    ensures Distinct(Plug(p, sub)) <==> Distinct(sub) && Fits(p, Nodes(sub))
  {
    if p.Step? {
      PlugNodes(p.up, Close(p, sub));
      assert Nodes(Close(p, sub)) == Nodes(sub) + {p.node} + Nodes(p.other);
    }
  }

  lemma {:induction false} FitsApart<N>(p: Path<N>, s: set<N>)
    requires Fits(p, s)
    ensures PathNodes(p) !! s
  {
    if p.Step? { FitsApart(p.up, s + {p.node} + Nodes(p.other)); }
  }

  lemma FitsTop<N>(p: Path<N>, s: set<N>)
    requires p.Step? && Fits(p, s)
    ensures p.node !in Nodes(p.other) && p.node !in PathNodes(p.up)
  {
    FitsApart(p.up, s + {p.node} + Nodes(p.other));
  }

  lemma {:induction false} FitsChange<N>(p: Path<N>, s: set<N>, u: set<N>)
    requires Fits(p, s) && (u - s) !! PathNodes(p)
    ensures Fits(p, u)
  {
    if p.Step? {
      FitsApart(p, s);
      FitsChange(p.up, s + {p.node} + Nodes(p.other), u + {p.node} + Nodes(p.other));
    }
  }

  lemma {:induction false} PlugHeight<N>(p: Path<N>, sub: Tree<N>)
    ensures |Spine(p)| + Height(sub) <= Height(Plug(p, sub))
  {
    if p.Step? { PlugHeight(p.up, Close(p, sub)); }
  }

  lemma {:induction false} PlugBalanced<N>(p: Path<N>, sub: Tree<N>)
    requires Balanced(Plug(p, sub))
    ensures Balanced(sub)
  {
    if p.Step? { PlugBalanced(p.up, Close(p, sub)); }
  }

  /** A subtree may be replaced by one that looks the same from above. */
  lemma {:induction false} PlugReplace<N>(p: Path<N>, sub: Tree<N>, u: Tree<N>)
    requires Balanced(Plug(p, sub)) && Balanced(u)
    requires Level(u) == Level(sub) && Level(Child(u, true)) == Level(Child(sub, true))
    ensures Balanced(Plug(p, u))
  {
    if p.Step? {
      PlugBalanced(p.up, Close(p, sub));
      PlugReplace(p.up, Close(p, sub), Close(p, u));
    }
  }

  lemma {:induction false} InorderSize<N>(t: Tree<N>)
    ensures |Inorder(t)| == Size(t)
  {
    if t.Fork? { InorderSize(t.left); InorderSize(t.right); }
  }

  // ---------- Walking back up ----------

  /** Insertion: skew, then split, at every ancestor. */
  ghost function InsertUp<N>(p: Path<N>, sub: Tree<N>): Tree<N> {
    if p.Top? then sub else InsertUp(p.up, Split(Skew(Close(p, sub))))
  }

  /** Removal: rebalance at every ancestor. */
  ghost function RemoveUp<N>(p: Path<N>, sub: Tree<N>): Tree<N> {
    if p.Top? then sub else RemoveUp(p.up, Rebalance(Close(p, sub)))
  }

  /** What a walk back up keeps. */
  ghost predicate Carries<N>(p: Path<N>, sub: Tree<N>, whole: Tree<N>) {
    && Inorder(whole) == Before(p) + Inorder(sub) + After(p)
    && Nodes(whole) == PathNodes(p) + Nodes(sub)
    && (Distinct(sub) && Fits(p, Nodes(sub)) ==> Distinct(whole))
  }

  lemma {:induction false} InsertUpCarries<N>(p: Path<N>, sub: Tree<N>)
    ensures Carries(p, sub, InsertUp(p, sub))
  {
    if p.Step? {
      var t := Close(p, sub);
      SkewKeeps(t);
      SplitKeeps(Skew(t));
      InsertUpCarries(p.up, Split(Skew(t)));
      CarriesStep(p, sub, Split(Skew(t)), InsertUp(p, sub));
    }
  }

  lemma {:induction false} RemoveUpCarries<N>(p: Path<N>, sub: Tree<N>)
    ensures Carries(p, sub, RemoveUp(p, sub))
  {
    if p.Step? {
      var t := Close(p, sub);
      RebalanceKeeps(t);
      RemoveUpCarries(p.up, Rebalance(t));
      CarriesStep(p, sub, Rebalance(t), RemoveUp(p, sub));
    }
  }

  lemma CarriesStep<N>(p: Path<N>, sub: Tree<N>, t: Tree<N>, whole: Tree<N>)
    requires p.Step? && SameItems(Close(p, sub), t) && Carries(p.up, t, whole)
    ensures Carries(p, sub, whole)
  {
    if p.dir {
      Flatten5(Before(p.up), Inorder(p.other), [p.item], Inorder(sub), After(p.up));
    } else {
      Flatten5(Before(p.up), Inorder(sub), [p.item], Inorder(p.other), After(p.up));
    }
    assert Nodes(t) == Nodes(sub) + {p.node} + Nodes(p.other);
  }

  lemma {:induction false} InsertUpBalanced<N>(p: Path<N>, s: Tree<N>, u: Tree<N>)
    requires Balanced(Plug(p, s)) && Grown(s, u)
    ensures Grown(Plug(p, s), InsertUp(p, u))
  {
    if p.Step? {
      PlugBalanced(p.up, Close(p, s));
      if p.dir {
        GrowRight(p.node, p.level, p.item, p.other, s, u);
      } else {
        GrowLeft(p.node, p.level, p.item, p.other, s, u);
      }
      InsertUpBalanced(p.up, Close(p, s), Split(Skew(Close(p, u))));
    }
  }

  lemma {:induction false} RemoveUpBalanced<N>(p: Path<N>, s: Tree<N>, u: Tree<N>)
    requires Balanced(Plug(p, s)) && Shrunk(s, u)
    ensures Shrunk(Plug(p, s), RemoveUp(p, u))
  {
    if p.Step? {
      PlugBalanced(p.up, Close(p, s));
      if p.dir {
        ShrinkRight(p.node, p.level, p.item, p.other, s, u);
      } else {
        ShrinkLeft(p.node, p.level, p.item, p.other, s, u);
      }
      RemoveUpBalanced(p.up, Close(p, s), Rebalance(Close(p, u)));
    }
  }

  // ---------- Height ----------

  ghost function Pow2(n: nat): nat {
    if n == 0 then 1 else 2 * Pow2(n - 1)
  }

  /** Two more than the fewest items a balanced tree of height `h` can hold. */
  ghost function MinItems(h: nat): nat {
    if h == 0 then 2 else MinItems(h - 1) + Pow2((h - 1) / 2)
  }

  lemma {:induction false} Pow2Monotone(m: nat, n: nat)
    requires m <= n
    ensures Pow2(m) <= Pow2(n)
  {
    if m < n { Pow2Monotone(m, n - 1); }
  }

  lemma {:induction false} LevelBound<N>(t: Tree<N>)
    requires Balanced(t)
    ensures Level(t) >= 0
    ensures Size(t) + 1 >= Pow2(Level(t))
    ensures Height(t) <= 2 * Level(t)
    ensures t.Fork? && !RightHorizontal(t) ==> Height(t) <= 2 * Level(t) - 1
  {
    if t.Fork? {
      LevelBound(t.left);
      LevelBound(t.right);
      Pow2Monotone(t.level - 1, Level(t.right));
    }
  }

  lemma {:induction false} HeightBound<N>(t: Tree<N>)
    requires Balanced(t)
    ensures Size(t) + 2 >= MinItems(Height(t))
  {
    if t.Fork? {
      var h := Height(t);
      LevelBound(t);
      LevelBound(t.left);
      LevelBound(t.right);
      HeightBound(t.left);
      HeightBound(t.right);
      Pow2Monotone((h - 1) / 2, t.level - 1);
      Pow2Monotone(t.level - 1, Level(t.right));
    }
  }

  lemma {:induction false} MinItemsMonotone(m: nat, n: nat)
    requires m <= n
    ensures MinItems(m) <= MinItems(n)
  {
    if m < n { MinItemsMonotone(m, n - 1); }
  }

  /** A full tree of `k` levels with the keys from `lo` on; a node is named by its key. */
  ghost function Perfect(lo: int, k: nat): Tree<int>
    decreases k
  {
    if k == 0 then Leaf
    else
      var left := Perfect(lo, k - 1);
      Middle(k, lo + Size(left), left, Perfect(lo + Size(left) + 1, k - 1))
  }

  /** The tree of height `h` with the fewest items: a full left side, a thin right side. */
  ghost function Thin(lo: int, h: nat): Tree<int>
    decreases h
  {
    if h == 0 then Leaf
    else
      var left := Perfect(lo, (h - 1) / 2);
      Middle((h + 1) / 2, lo + Size(left), left, Thin(lo + Size(left) + 1, h - 1))
  }

  ghost function Middle(level: int, key: int, left: Tree<int>, right: Tree<int>): Tree<int> {
    Fork(key, level, Item(key, 0), left, right)
  }

  /** A proper map: no node twice, and the keys are those from `lo` on, in order. */
  ghost predicate Numbered(t: Tree<int>, lo: int) {
    && Distinct(t) && |Inorder(t)| == Size(t)
    && (forall i :: 0 <= i < |Inorder(t)| ==> Inorder(t)[i].key == lo + i)
    && (forall n :: n in Nodes(t) ==> lo <= n < lo + Size(t))
  }

  lemma NumberedMiddle(level: int, lo: int, left: Tree<int>, right: Tree<int>)
    requires Numbered(left, lo) && Numbered(right, lo + Size(left) + 1)
    ensures Numbered(Middle(level, lo + Size(left), left, right), lo)
  {
    var t, mid := Middle(level, lo + Size(left), left, right), Item(lo + Size(left), 0);
    assert Nodes(t) == {mid.key} + Nodes(left) + Nodes(right);
    forall n | n in Nodes(left) ensures n !in Nodes(right) {}
    assert Inorder(t) == Inorder(left) + [mid] + Inorder(right);
    forall i | 0 <= i < |Inorder(t)| ensures Inorder(t)[i].key == lo + i {
      if i < Size(left) { assert Inorder(t)[i] == Inorder(left)[i]; }
      if i > Size(left) { assert Inorder(t)[i] == Inorder(right)[i - Size(left) - 1]; }
    }
  }

  lemma {:induction false} PerfectShape(lo: int, k: nat)
    ensures var t := Perfect(lo, k);
            && Balanced(t) && Level(t) == k && Height(t) == k && Size(t) + 1 == Pow2(k)
            && Level(Child(t, true)) == (if k > 0 then k - 1 else 0)
    decreases k
  {
    if k > 0 {
      PerfectShape(lo, k - 1);
      PerfectShape(lo + Size(Perfect(lo, k - 1)) + 1, k - 1);
    }
  }

  lemma {:induction false} PerfectNumbered(lo: int, k: nat)
    ensures Numbered(Perfect(lo, k), lo)
    decreases k
  {
    hide Numbered, Size, Height, Balanced;
    if k == 0 {
      NoneNumbered(lo);
    } else {
      var left := Perfect(lo, k - 1);
      PerfectNumbered(lo, k - 1);
      PerfectNumbered(lo + Size(left) + 1, k - 1);
      NumberedMiddle(k, lo, left, Perfect(lo + Size(left) + 1, k - 1));
    }
  }

  lemma NoneNumbered(lo: int)
    ensures Numbered(Leaf, lo)
  {
  }

  lemma {:induction false} ThinShape(lo: int, h: nat)
    ensures var t := Thin(lo, h);
            && Balanced(t) && Height(t) == h && Size(t) + 2 == MinItems(h)
            && Level(t) == (h + 1) / 2 && Level(Child(t, true)) == h / 2
    decreases h
  {
    if h > 0 {
      PerfectShape(lo, (h - 1) / 2);
      ThinShape(lo + Size(Perfect(lo, (h - 1) / 2)) + 1, h - 1);
    }
  }

  lemma {:induction false} ThinNumbered(lo: int, h: nat)
    ensures Numbered(Thin(lo, h), lo)
    decreases h
  {
    hide Numbered, Perfect, Size, Height, Balanced;
    if h == 0 {
      NoneNumbered(lo);
    } else {
      var left := Perfect(lo, (h - 1) / 2);
      PerfectNumbered(lo, (h - 1) / 2);
      ThinNumbered(lo + Size(left) + 1, h - 1);
      NumberedMiddle((h + 1) / 2, lo, left, Thin(lo + Size(left) + 1, h - 1));
    }
  }

  /** The bound is sharp: this balanced tree is a map of height `h` with no item to spare. */
  lemma HeightBoundIsSharp(lo: int, h: nat)
    ensures var t := Thin(lo, h);
            && Balanced(t) && Distinct(t) && Ascending(Inorder(t))
            && Height(t) == h && Size(t) + 2 == MinItems(h)
  {
    hide Thin, Numbered, Distinct, Ascending;
    ThinShape(lo, h);
    ThinNumbered(lo, h);
    NumberedAscends(Thin(lo, h), lo);
  }

  lemma NumberedAscends(t: Tree<int>, lo: int)
    requires Numbered(t, lo)
    ensures Distinct(t) && Ascending(Inorder(t))
  {
  }

  const HEIGHT_LIMIT: nat := 64

  /** Fewer items than this, and a path of every node from the root to a leaf fits `path[]`. */
  const INSERT_LIMIT: nat := 0x3_0000_0000 - 2

  /** Fewer items than this, and such a path fits with the sentinel stored after it. */
  const REMOVE_LIMIT: nat := 0x2_0000_0000 - 2

  /** Fewer items than this, and a path of the nodes above any node fits. */
  const CURSOR_LIMIT: nat := 0x4_0000_0000 - 2

  lemma {:induction false} MinItemsClosed(j: nat)
    ensures MinItems(2 * j) == 2 * Pow2(j) && MinItems(2 * j + 1) == 3 * Pow2(j)
  {
    if j > 0 { MinItemsClosed(j - 1); }
  }

  lemma LimitsAreMinItems()
    ensures MinItems(HEIGHT_LIMIT) == REMOVE_LIMIT + 2
    ensures MinItems(HEIGHT_LIMIT + 1) == INSERT_LIMIT + 2
    ensures MinItems(HEIGHT_LIMIT + 2) == CURSOR_LIMIT + 2
  {
    assert Pow2(8) == 0x100;
    assert Pow2(16) == 0x1_0000;
    assert Pow2(24) == 0x100_0000;
    assert Pow2(32) == 0x1_0000_0000;
    MinItemsClosed(32);
    MinItemsClosed(33);
  }

  lemma PathsFit<N>(t: Tree<N>)
    requires Balanced(t)
    ensures Size(t) < INSERT_LIMIT ==> Height(t) <= HEIGHT_LIMIT
    ensures Size(t) < REMOVE_LIMIT ==> Height(t) < HEIGHT_LIMIT
    ensures Size(t) < CURSOR_LIMIT ==> Height(t) <= HEIGHT_LIMIT + 1
  {
    HeightBound(t);
    LimitsAreMinItems();
    if Height(t) > HEIGHT_LIMIT { MinItemsMonotone(HEIGHT_LIMIT + 1, Height(t)); }
    if Height(t) > HEIGHT_LIMIT + 1 { MinItemsMonotone(HEIGHT_LIMIT + 2, Height(t)); }
    if Height(t) >= HEIGHT_LIMIT { MinItemsMonotone(HEIGHT_LIMIT, Height(t)); }
  }

  // ---------- The map a tree stands for ----------

  ghost function AsMap(s: seq<Item>): map<int, int> {
    if s == [] then map[] else AsMap(s[..|s| - 1])[s[|s| - 1].key := s[|s| - 1].value]
  }

  lemma {:induction false} AsMapEntries(s: seq<Item>)
    requires Ascending(s)
    ensures |AsMap(s)| == |s|
    ensures forall i :: 0 <= i < |s| ==> s[i].key in AsMap(s) && AsMap(s)[s[i].key] == s[i].value
    ensures forall k :: k in AsMap(s) ==> exists i :: 0 <= i < |s| && s[i].key == k
  {
    if s != [] {
      var r, x := s[..|s| - 1], s[|s| - 1];
      AsMapEntries(r);
      var m := AsMap(r);
      forall i | 0 <= i < |r| ensures r[i].key < x.key { assert r[i] == s[i]; }
      assert AsMap(s) == m[x.key := x.value];
      forall k | k in AsMap(s)
        ensures exists i :: 0 <= i < |s| && s[i].key == k
      {
        if k in m {
          var i :| 0 <= i < |r| && r[i].key == k;
          assert s[i].key == k;
        } else {
          assert s[|s| - 1].key == k;
        }
      }
      forall i | 0 <= i < |s|
        ensures s[i].key in AsMap(s) && AsMap(s)[s[i].key] == s[i].value
      {
        if i < |r| { assert r[i] == s[i] && s[i].key < x.key; }
      }
    }
  }

  ghost predicate AllBelow(s: seq<Item>, key: int) {
    forall i :: 0 <= i < |s| ==> s[i].key < key
  }

  ghost predicate AllAbove(s: seq<Item>, key: int) {
    forall i :: 0 <= i < |s| ==> key < s[i].key
  }

  lemma AscendingParts(a: seq<Item>, x: Item, b: seq<Item>)
    ensures Ascending(a + [x] + b) <==> Ascending(a) && Ascending(b) && AllBelow(a, x.key) && AllAbove(b, x.key)
  {
    var s := a + [x] + b;
    if Ascending(s) {
      assert forall i :: 0 <= i < |a| ==> s[i] == a[i];
      assert s[|a|] == x;
      assert forall i :: 0 <= i < |b| ==> s[|a| + 1 + i] == b[i];
      forall i, j | 0 <= i < j < |b| ensures b[i].key < b[j].key {
        assert s[|a| + 1 + i].key < s[|a| + 1 + j].key;
      }
      forall i | 0 <= i < |b| ensures x.key < b[i].key {
        assert s[|a|].key < s[|a| + 1 + i].key;
      }
    }
  }

  lemma AscendingJoin(a: seq<Item>, x: Item, b: seq<Item>)
    requires Ascending(a + b) && AllBelow(a, x.key) && AllAbove(b, x.key)
    ensures Ascending(a + [x] + b)
  {
    var r := a + b;
    assert forall i :: 0 <= i < |a| ==> r[i] == a[i];
    assert forall i :: 0 <= i < |b| ==> r[|a| + i] == b[i];
    forall i, j | 0 <= i < j < |b| ensures b[i].key < b[j].key {
      assert r[|a| + i].key < r[|a| + j].key;
    }
    AscendingParts(a, x, b);
  }

  /** Putting an item where it belongs, among items that do not have its key. */
  lemma {:induction false} AsMapInsert(a: seq<Item>, x: Item, b: seq<Item>)
    requires Ascending(a + [x] + b)
    ensures Ascending(a + b)
    ensures x.key !in AsMap(a + b)
    ensures AsMap(a + [x] + b) == AsMap(a + b)[x.key := x.value]
  {
    AscendingParts(a, x, b);
    if b == [] {
      AsMapEntries(a);
      AsMapSnoc(a, x);
      assert a + [x] + b == a + [x] && a + b == a;
    } else {
      var c, y := b[..|b| - 1], b[|b| - 1];
      assert b == c + [y];
      Flatten4(a, [x], c, [y]);
      Flatten3(a, c, [y]);
      assert a + [x] + c == (a + [x] + b)[..|a| + |b|];
      AsMapInsert(a, x, c);
      AsMapSnoc(a + [x] + c, y);
      AsMapSnoc(a + c, y);
      assert AsMap(a + b) == AsMap(a + c)[y.key := y.value];
      assert x.key < y.key;
    }
    AscendingWithout(a, x, b);
  }

  lemma AscendingWithout(a: seq<Item>, x: Item, b: seq<Item>)
    requires Ascending(a + [x] + b)
    ensures Ascending(a + b)
  {
    var s, r := a + [x] + b, a + b;
    assert forall i :: 0 <= i < |r| ==> r[i] == s[if i < |a| then i else i + 1];
  }

  lemma AsMapSnoc(s: seq<Item>, x: Item)
    ensures AsMap(s + [x]) == AsMap(s)[x.key := x.value]
  {
    assert (s + [x])[..|s|] == s;
  }

  lemma AsMapReplace(a: seq<Item>, x: Item, y: Item, b: seq<Item>)
    requires Ascending(a + [x] + b) && y.key == x.key
    ensures Ascending(a + [y] + b)
    ensures AsMap(a + [y] + b) == AsMap(a + [x] + b)[y.key := y.value]
  {
    AscendingParts(a, x, b);
    AscendingParts(a, y, b);
    AsMapInsert(a, x, b);
    AsMapInsert(a, y, b);
  }

  // ---------- Searching ----------

  /** A key that is not off this position lies between what comes before and after it. */
  ghost predicate Brackets<N>(p: Path<N>, key: int) {
    AllBelow(Before(p), key) && AllAbove(After(p), key)
  }

  lemma DownPlugs<N>(p: Path<N>, t: Tree<N>, dir: bool)
    requires t.Fork?
    ensures Plug(Down(p, t, dir), Child(t, dir)) == Plug(p, t)
  {
    assert Close(Down(p, t, dir), Child(t, dir)) == t;
  }

  lemma SearchOrder<N>(p: Path<N>, t: Tree<N>)
    requires t.Fork? && Ascending(Inorder(Plug(p, t)))
    ensures AllBelow(Before(p) + Inorder(t.left), t.item.key)
    ensures AllAbove(Inorder(t.right) + After(p), t.item.key)
  {
    PlugInorder(p, t);
    Flatten5(Before(p), Inorder(t.left), [t.item], Inorder(t.right), After(p));
    AscendingParts(Before(p) + Inorder(t.left), t.item, Inorder(t.right) + After(p));
  }

  lemma SearchStep<N>(p: Path<N>, t: Tree<N>, key: int)
    requires t.Fork? && Brackets(p, key) && Ascending(Inorder(Plug(p, t)))
    ensures t.item.key < key ==> Brackets(Down(p, t, true), key)
    ensures key < t.item.key ==> Brackets(Down(p, t, false), key)
  {
    SearchOrder(p, t);
    if t.item.key < key {
      assert Before(Down(p, t, true)) == Before(p) + Inorder(t.left) + [t.item];
    } else if key < t.item.key {
      assert After(Down(p, t, false)) == [t.item] + Inorder(t.right) + After(p);
      assert [t.item] + Inorder(t.right) + After(p) == [t.item] + (Inorder(t.right) + After(p));
    }
  }

  lemma SearchStarts<N>(t: Tree<N>, key: int)
    ensures Plug(Top, t) == t && Brackets(Path<N>.Top, key)
  {
  }

  lemma SearchMisses<N>(p: Path<N>, key: int)
    requires Brackets(p, key) && Ascending(Inorder(Plug(p, Leaf)))
    ensures key !in AsMap(Inorder(Plug(p, Leaf)))
  {
    PlugInorder(p, Leaf);
    AsMapEntries(Inorder(Plug(p, Leaf)));
  }

  lemma SearchHits<N>(p: Path<N>, t: Tree<N>)
    requires t.Fork? && Ascending(Inorder(Plug(p, t)))
    ensures t.item.key in AsMap(Inorder(Plug(p, t))) && AsMap(Inorder(Plug(p, t)))[t.item.key] == t.item.value
  {
    PlugInorder(p, t);
    AsMapEntries(Inorder(Plug(p, t)));
    assert Inorder(Plug(p, t))[|Before(p)| + |Inorder(t.left)|] == t.item;
  }

  lemma Alone<N>(s: Tree<N>)
    requires s.Fork? && s == Fork(s.node, 1, s.item, Leaf, Leaf)
    ensures Inorder(s) == [s.item] && Nodes(s) == {s.node} && Grown(Leaf, s)
  {
  }

  /** A new fork at the end of a search: what the walk back up leaves. */
  lemma ItemInserted<N>(p: Path<N>, s: Tree<N>)
    requires s.Fork? && s == Fork(s.node, 1, s.item, Leaf, Leaf)
    requires Balanced(Plug(p, Leaf)) && Ascending(Inorder(Plug(p, Leaf))) && Brackets(p, s.item.key)
    ensures var t, u := Plug(p, Leaf), InsertUp(p, s);
            && Balanced(u) && Ascending(Inorder(u))
            && Size(u) == Size(t) + 1 && Nodes(u) == Nodes(t) + {s.node}
            && AsMap(Inorder(u)) == AsMap(Inorder(t))[s.item.key := s.item.value]
  {
    hide AsMap, Plug, Before, After, Size, InsertUp, Balanced, Distinct;
    Alone(s);
    InsertUpCarries(p, s);
    InsertUpBalanced(p, Leaf, s);
    PlugInorder(p, Leaf);
    PlugNodes(p, Leaf);
    assert Before(p) + Inorder<N>(Leaf) + After(p) == Before(p) + After(p);
    AscendingJoin(Before(p), s.item, After(p));
    AsMapInsert(Before(p), s.item, After(p));
    InorderSize(Plug(p, Leaf));
    InorderSize(InsertUp(p, s));
  }

  lemma AsMapWithout(a: seq<Item>, x: Item, b: seq<Item>)
    requires Ascending(a + [x] + b)
    ensures Ascending(a + b)
    ensures x.key in AsMap(a + [x] + b) && AsMap(a + [x] + b)[x.key] == x.value
    ensures AsMap(a + b) == AsMap(a + [x] + b) - {x.key}
  {
    hide AsMap, Ascending;
    AsMapInsert(a, x, b);
  }

  /** What is left when the fork at a position goes and its neighbours close up. */
  lemma ItemRemoved<N>(p: Path<N>, s: Tree<N>, u: Tree<N>)
    requires s.Fork? && Ascending(Inorder(Plug(p, s)))
    requires Inorder(u) == (Before(p) + Inorder(s.left)) + (Inorder(s.right) + After(p))
    ensures var t := Inorder(Plug(p, s));
            && Ascending(Inorder(u)) && Size(u) == Size(Plug(p, s)) - 1
            && s.item.key in AsMap(t) && AsMap(t)[s.item.key] == s.item.value
            && AsMap(Inorder(u)) == AsMap(t) - {s.item.key}
  {
    hide AsMap, Ascending, Plug, Before, After, Size;
    PlugInorder(p, s);
    Flatten5(Before(p), Inorder(s.left), [s.item], Inorder(s.right), After(p));
    AsMapWithout(Before(p) + Inorder(s.left), s.item, Inorder(s.right) + After(p));
    InorderSize(u);
    InorderSize(Plug(p, s));
  }

  /** A node with no left child can be replaced by its right child. */
  lemma Spliced<N>(s: Tree<N>, before: seq<Item>)
    requires s.Fork? && s.left.Leaf?
    ensures Balanced(s) ==> Shrunk(s, s.right)
    ensures before + Inorder(s) == (before + [s.item]) + Inorder(s.right)
  {
    assert Inorder(s) == [s.item] + Inorder(s.right);
  }

  /** In a balanced tree a node without one child has no left child: so the code may follow
      the right link wherever it finds one of the two missing. */
  lemma SingleChildIsRight<N>(s: Tree<N>)
    requires Balanced(s) && s.Fork? && (s.left.Leaf? || s.right.Leaf?)
    ensures s.left.Leaf?
  {
    LevelBound(s.left);
    if s.left.Fork? { assert s.left.level >= 1; }
  }

  /** Unlinking a fork without a left child, at any position, and the walk back up from there. */
  lemma Unlinked<N>(p: Path<N>, s: Tree<N>)
    requires s.Fork? && s.left.Leaf? && Balanced(Plug(p, s)) && Distinct(Plug(p, s))
    ensures var u := RemoveUp(p, s.right);
            && Balanced(u) && Distinct(u) && s.node in Nodes(Plug(p, s)) && Nodes(u) == Nodes(Plug(p, s)) - {s.node}
            && Inorder(u) == Before(p) + Inorder(s.right) + After(p)
  {
    PlugNodes(p, s);
    PlugBalanced(p, s);
    Spliced(s, []);
    FitsApart(p, Nodes(s));
    FitsChange(p, Nodes(s), Nodes(s.right));
    RemoveUpCarries(p, s.right);
    RemoveUpBalanced(p, s, s.right);
  }

  /** While the code goes left for the next larger item `x`: it is the first one of `sub`. */
  ghost predicate HeirAt<N>(q: Path<N>, sub: Tree<N>, x: Item, a: seq<Item>, b: seq<Item>) {
    && Inorder(sub) != [] && Inorder(sub)[0] == x
    && Before(q) == a + [x] && Inorder(sub) + After(q) == b
  }

  lemma HeirStarts<N>(p: Path<N>, s: Tree<N>) returns (x: Item)
    requires s.Fork? && s.right.Fork?
    ensures HeirAt(Down(p, s.(item := x), true), s.right, x, Before(p) + Inorder(s.left), Inorder(s.right) + After(p))
  {
    x := Inorder(s.right)[0];
    assert Inorder(s.right) == [x] + Inorder(s.right)[1..];
  }

  lemma HeirBelow<N>(q: Path<N>, sub: Tree<N>, x: Item, a: seq<Item>, b: seq<Item>)
    requires sub.Fork? && sub.left.Fork? && HeirAt(q, sub, x, a, b)
    ensures HeirAt(Down(q, sub, false), sub.left, x, a, b)
  {
    var l, r := Inorder(sub.left), Inorder(sub.right);
    assert l == Inorder(sub.left.left) + [sub.left.item] + Inorder(sub.left.right);
    assert Inorder(sub)[0] == l[0];
    assert l + ([sub.item] + r + After(q)) == (l + [sub.item] + r) + After(q);
  }

  lemma HeirFound<N>(q: Path<N>, sub: Tree<N>, x: Item, a: seq<Item>, b: seq<Item>)
    requires sub.Fork? && sub.left.Leaf? && HeirAt(q, sub, x, a, b)
    ensures sub.item == x && Before(q) + Inorder(sub.right) + After(q) == a + b
  {
    assert Inorder(sub) == [x] + Inorder(sub.right);
  }

  /** `u` is a valid tree with the items of `t` but one, and its nodes but `gone`. */
  ghost predicate Without<N>(t: Tree<N>, key: int, gone: N, u: Tree<N>) {
    && Balanced(u) && Ascending(Inorder(u)) && Distinct(u)
    && gone in Nodes(t) && Nodes(u) == Nodes(t) - {gone}
    && Size(u) == Size(t) - 1
    && AsMap(Inorder(u)) == AsMap(Inorder(t)) - {key}
  }

  lemma {:induction false} RemovedSingle<N>(p: Path<N>, s: Tree<N>)
    requires s.Fork? && s.left.Leaf?
    requires Ascending(Inorder(Plug(p, s))) && Balanced(Plug(p, s)) && Distinct(Plug(p, s))
    ensures Without(Plug(p, s), s.item.key, s.node, RemoveUp(p, s.right))
  {
    hide AsMap, Ascending, Plug, Before, After, Size, Balanced, Distinct, RemoveUp;
    Unlinked(p, s);
    var u := RemoveUp(p, s.right);
    assert Before(p) + Inorder(s.left) == Before(p);
    assert Inorder(u) == Before(p) + (Inorder(s.right) + After(p));
    ItemRemoved(p, s, u);
  }

  /** `q` is the place of the next larger item, `sub`, in the tree where it has replaced `s`. */
  lemma {:induction false} RemovedDouble<N>(p: Path<N>, s: Tree<N>, q: Path<N>, sub: Tree<N>)
    requires s.Fork? && sub.Fork? && sub.left.Leaf?
    requires Ascending(Inorder(Plug(p, s))) && Balanced(Plug(p, s)) && Distinct(Plug(p, s))
    requires Plug(q, sub) == Plug(p, s.(item := sub.item))
    requires Before(q) + Inorder(sub.right) + After(q)
          == (Before(p) + Inorder(s.left)) + (Inorder(s.right) + After(p))
    ensures Balanced(Plug(q, sub)) && Distinct(Plug(q, sub)) && Nodes(Plug(q, sub)) == Nodes(Plug(p, s))
    ensures Without(Plug(p, s), s.item.key, sub.node, RemoveUp(q, sub.right))
  {
    hide AsMap, Ascending, Plug, Before, After, Size, Balanced, Distinct, RemoveUp;
    ItemReplacedShape(p, s, sub.item);
    Unlinked(q, sub);
    ItemRemoved(p, s, RemoveUp(q, sub.right));
  }

  ghost predicate Levels<N>(p: Path<N>) {
    p.Step? ==> p.level >= 1 && Levels(p.up)
  }

  lemma {:induction false} PlugLevels<N>(p: Path<N>, sub: Tree<N>)
    requires Balanced(Plug(p, sub))
    ensures Levels(p)
  {
    if p.Step? {
      PlugBalanced(p.up, Close(p, sub));
      PlugLevels(p.up, Close(p, sub));
    }
  }

  /** A fork of a search tree may take another item with the same key. */
  lemma ItemReplaced<N>(p: Path<N>, s: Tree<N>, item: Item)
    requires s.Fork? && s.item.key == item.key && Ascending(Inorder(Plug(p, s)))
    ensures var t, u := Inorder(Plug(p, s)), Inorder(Plug(p, s.(item := item)));
            && |u| == |t| && Ascending(u)
            && item.key in AsMap(t) && AsMap(t)[item.key] == s.item.value
            && AsMap(u) == AsMap(t)[item.key := item.value]
  {
    var u := s.(item := item);
    PlugInorder(p, s);
    PlugInorder(p, u);
    SearchHits(p, s);
    var x, a, b := Inorder(s.left), Before(p) + Inorder(s.left), Inorder(s.right) + After(p);
    assert Inorder(u) == x + [item] + Inorder(s.right);
    Flatten5(Before(p), x, [s.item], Inorder(s.right), After(p));
    Flatten5(Before(p), x, [item], Inorder(s.right), After(p));
    AsMapReplace(a, s.item, item, b);
  }

  lemma ItemReplacedShape<N>(p: Path<N>, s: Tree<N>, item: Item)
    requires s.Fork? && Distinct(Plug(p, s)) && Balanced(Plug(p, s))
    ensures var t, u := Plug(p, s), Plug(p, s.(item := item));
            Nodes(u) == Nodes(t) && Distinct(u) && Balanced(u)
  {
    var u := s.(item := item);
    PlugNodes(p, s);
    PlugNodes(p, u);
    PlugBalanced(p, s);
    PlugReplace(p, s, u);
  }

  /** One item, found under `key`, has become another. */
  ghost predicate Became(s: seq<Item>, t: seq<Item>, key: int, item: Item) {
    exists i :: 0 <= i < |s| && s[i].key == key && t == s[i := item]
  }

  lemma ItemBecame<N>(p: Path<N>, s: Tree<N>, item: Item)
    requires s.Fork?
    ensures Became(Inorder(Plug(p, s)), Inorder(Plug(p, s.(item := item))), s.item.key, item)
  {
    hide Plug, Before, After;
    PlugInorder(p, s);
    PlugInorder(p, s.(item := item));
    Flatten5(Before(p), Inorder(s.left), [s.item], Inorder(s.right), After(p));
    Flatten5(Before(p), Inorder(s.left), [item], Inorder(s.right), After(p));
    ListBecame(Before(p) + Inorder(s.left), s.item, Inorder(s.right) + After(p), item);
  }

  lemma ListBecame(a: seq<Item>, x: Item, b: seq<Item>, item: Item)
    ensures Became(a + [x] + b, a + [item] + b, x.key, item)
  {
    assert (a + [x] + b)[|a|] == x && a + [item] + b == (a + [x] + b)[|a| := item];
  }

  lemma {:induction false} AsMapKeys(s: seq<Item>, key: int)
    ensures key in AsMap(s) <==> exists i :: 0 <= i < |s| && s[i].key == key
  {
    if s != [] {
      var r := s[..|s| - 1];
      AsMapKeys(r, key);
      if i :| 0 <= i < |r| && r[i].key == key { assert s[i].key == key; }
      if i :| 0 <= i < |s| && s[i].key == key && i < |r| { assert r[i].key == key; }
    }
  }

  /** A key that became another is gone, wherever the other belongs. */
  lemma KeyGone(s: seq<Item>, t: seq<Item>, key: int, item: Item)
    requires Ascending(s) && Became(s, t, key, item) && item.key != key
    ensures key in AsMap(s) && key !in AsMap(t)
  {
    AsMapKeys(s, key);
    AsMapKeys(t, key);
  }

  // ---------- Walking in either direction ----------

  /** The items of a tree in direction `dir`: ascending when it is true. */
  ghost function Walk<N>(t: Tree<N>, dir: bool): seq<Item> {
    if t.Leaf? then [] else Walk(Child(t, !dir), dir) + [t.item] + Walk(Child(t, dir), dir)
  }

  /** What a walk in direction `dir` still meets after leaving the subtree at this position. */
  ghost function Rest<N>(p: Path<N>, dir: bool): seq<Item> {
    if p.Top? then []
    else if p.dir == dir then Rest(p.up, dir)
    else [p.item] + Walk(p.other, dir) + Rest(p.up, dir)
  }

  ghost function Reversed<T>(s: seq<T>): seq<T> {
    if s == [] then [] else Reversed(s[1..]) + [s[0]]
  }

  lemma {:induction false} ReversedConcat<T>(a: seq<T>, b: seq<T>)
    ensures Reversed(a + b) == Reversed(b) + Reversed(a)
  {
    if a == [] {
      assert a + b == b;
    } else {
      ReversedConcat(a[1..], b);
      assert (a + b)[1..] == a[1..] + b;
    }
  }

  lemma {:induction false} WalkIsInorder<N>(t: Tree<N>)
    ensures Walk(t, true) == Inorder(t)
    ensures Walk(t, false) == Reversed(Inorder(t))
  {
    if t.Fork? {
      WalkIsInorder(t.left);
      WalkIsInorder(t.right);
      ReversedConcat(Inorder(t.left) + [t.item], Inorder(t.right));
      ReversedConcat(Inorder(t.left), [t.item]);
      assert Reversed([t.item]) == [t.item];
    }
  }

  /** A position splits the walk over the whole tree in three. */
  lemma {:induction false} PlugWalk<N>(p: Path<N>, t: Tree<N>, dir: bool)
    ensures Walk(Plug(p, t), dir) == Reversed(Rest(p, !dir)) + Walk(t, dir) + Rest(p, dir)
  {
    if p.Top? {
      assert Walk(t, dir) == [] + Walk(t, dir) + [];
    } else {
      PlugWalk(p.up, Close(p, t), dir);
      CloseWalk(p, t, dir);
    }
  }

  lemma CloseWalk<N>(p: Path<N>, t: Tree<N>, dir: bool)
    requires p.Step?
    ensures Reversed(Rest(p.up, !dir)) + Walk(Close(p, t), dir) + Rest(p.up, dir)
         == Reversed(Rest(p, !dir)) + Walk(t, dir) + Rest(p, dir)
  {
    var back := !dir;
    var i, o, w, r, q := [p.item], Walk(p.other, dir), Walk(t, dir), Reversed(Rest(p.up, back)), Rest(p.up, dir);
    CloseBranch(p, t, dir);
    if p.dir == dir {
      ReversedStep(p.item, Walk(p.other, back), Rest(p.up, back));
      WalkReverses(p.other, dir);
      assert Rest(p, back) == i + Walk(p.other, back) + Rest(p.up, back);
      Flatten5(r, o, i, w, q);
    } else {
      assert Rest(p, back) == Rest(p.up, back);
      assert Rest(p, dir) == i + o + q;
      Flatten5(r, w, i, o, q);
    }
  }

  lemma CloseBranch<N>(p: Path<N>, t: Tree<N>, dir: bool)
    requires p.Step?
    ensures p.dir == dir ==> Walk(Close(p, t), dir) == Walk(p.other, dir) + [p.item] + Walk(t, dir)
    ensures p.dir != dir ==> Walk(Close(p, t), dir) == Walk(t, dir) + [p.item] + Walk(p.other, dir)
  {
  }

  lemma ReversedStep<T>(i: T, o: seq<T>, r: seq<T>)
    ensures Reversed([i] + o + r) == Reversed(r) + Reversed(o) + [i]
  {
    ReversedConcat([i] + o, r);
    assert ([i] + o)[1..] == o;
  }

  lemma {:induction false} WalkReverses<N>(t: Tree<N>, dir: bool)
    ensures Reversed(Walk(t, !dir)) == Walk(t, dir)
  {
    if t.Fork? {
      var a, b := Child(t, dir), Child(t, !dir);
      WalkReverses(a, dir);
      WalkReverses(b, dir);
      ReversedConcat(Walk(a, !dir) + [t.item], Walk(b, !dir));
      ReversedConcat(Walk(a, !dir), [t.item]);
      assert Reversed([t.item]) == [t.item];
    }
  }
}
