/** The shape of the ordered map of `src/map.c`, as a value: an Andersson tree whose forks
    carry the identity of the heap node they describe, the two macros that rotate it, the
    rebalancing of insertion and removal, and what these keep. */
module AaTree {
  import opened Numbers

  datatype Item = Item(key: int, value: int)

  datatype Tree<N> =
    | Leaf
    | Fork(node: N, level: int, item: Item, left: Tree<N>, right: Tree<N>)

  // ---------- Reading a tree ----------

  /** The sentinel stands for every leaf: level 0, and both links lead back to itself. */
  ghost function Level<N>(t: Tree<N>): int {
    if t.Leaf? then 0 else t.level
  }

  ghost function Child<N>(t: Tree<N>, dir: bool): Tree<N> {
    if t.Leaf? then Leaf else if dir then t.right else t.left
  }

  ghost function Inorder<N>(t: Tree<N>): seq<Item> {
    if t.Leaf? then [] else Inorder(t.left) + [t.item] + Inorder(t.right)
  }

  ghost function Nodes<N>(t: Tree<N>): set<N> {
    if t.Leaf? then {} else {t.node} + Nodes(t.left) + Nodes(t.right)
  }

  ghost function Size<N>(t: Tree<N>): nat {
    if t.Leaf? then 0 else Size(t.left) + 1 + Size(t.right)
  }

  ghost function Height<N>(t: Tree<N>): nat {
    if t.Leaf? then 0 else 1 + Max(Height(t.left), Height(t.right))
  }

  /** No node occurs twice: the links form a tree. */
  ghost predicate Distinct<N>(t: Tree<N>) {
    t.Fork? ==>
      && t.node !in Nodes(t.left) && t.node !in Nodes(t.right)
      && Nodes(t.left) !! Nodes(t.right)
      && Distinct(t.left) && Distinct(t.right)
  }

  ghost predicate Ascending(s: seq<Item>) {
    forall i, j :: 0 <= i < j < |s| ==> s[i].key < s[j].key
  }

  ghost predicate RightHorizontal<N>(t: Tree<N>) {
    t.Fork? && Level(t.right) == t.level
  }

  /** The level invariant: a left child is one level down, a right child on the same level
      or one down, and two right links in a row never stay on one level. */
  ghost predicate Balanced<N>(t: Tree<N>) {
    t.Fork? ==>
      && t.level >= 1
      && Level(t.left) == t.level - 1
      && (Level(t.right) == t.level || Level(t.right) == t.level - 1)
      && Level(Child(t.right, true)) < t.level
      && Balanced(t.left) && Balanced(t.right)
  }

  // ---------- Rotations ----------

  /** The rotation of `skew` and, whatever the levels, of `map_clear`. */
  ghost function RotateRight<N>(t: Tree<N>): Tree<N>
    requires t.Fork? && t.left.Fork?
  {
    t.left.(right := t.(left := t.left.right))
  }

  ghost function Skew<N>(t: Tree<N>): Tree<N> {
    if t.Fork? && t.left.Fork? && t.left.level == t.level && t.level != 0
    then RotateRight(t)
    else t
  }

  ghost function Split<N>(t: Tree<N>): Tree<N> {
    if t.Fork? && t.right.Fork? && t.right.right.Fork? && t.right.right.level == t.level && t.level != 0
    then t.right.(left := t.(right := t.right.left), level := t.right.level + 1)
    else t
  }

  ghost function SkewRight<N>(t: Tree<N>): Tree<N> {
    if t.Fork? then t.(right := Skew(t.right)) else t
  }

  ghost function SkewRightRight<N>(t: Tree<N>): Tree<N> {
    if t.Fork? then t.(right := SkewRight(t.right)) else t
  }

  ghost function SplitRight<N>(t: Tree<N>): Tree<N> {
    if t.Fork? then t.(right := Split(t.right)) else t
  }

  /** One level down, and a right child left above is pulled down too. */
  ghost function Lower<N>(t: Tree<N>): Tree<N> {
    if t.Leaf? then t
    else if Level(t.right) > t.level - 1 && t.right.Fork?
    then t.(level := t.level - 1, right := t.right.(level := t.level - 1))
    else t.(level := t.level - 1)
  }

  ghost predicate TooHigh<N>(t: Tree<N>) {
    t.Fork? && (Level(t.left) < t.level - 1 || Level(t.right) < t.level - 1)
  }

  ghost function Rebalance<N>(t: Tree<N>): Tree<N> {
    if TooHigh(t)
    then SplitRight(Split(SkewRightRight(SkewRight(Skew(Lower(t))))))
    else t
  }

  /** What every rearrangement here keeps: the nodes and the items, in order. */
  ghost predicate SameItems<N>(t: Tree<N>, u: Tree<N>) {
    Inorder(u) == Inorder(t) && Nodes(u) == Nodes(t) && (Distinct(t) ==> Distinct(u))
  }

  lemma SkewKeeps<N>(t: Tree<N>)
    ensures SameItems(t, Skew(t))
  {
    if Skew(t) != t { RotatedRight(t); }
  }

  /** It keeps the items and moves nodes onto the right spine. */
  lemma RotatedRight<N>(t: Tree<N>)
    requires t.Fork? && t.left.Fork?
    ensures SameItems(t, RotateRight(t)) && Size(RotateRight(t)) == Size(t)
    ensures Size(RotateRight(t).left) < Size(t.left)
  {
    var a, x, b, y, c := Inorder(t.left.left), t.left.item, Inorder(t.left.right), t.item, Inorder(t.right);
    assert ((a + [x]) + b) + [y] + c == a + [x] + (b + [y] + c);
    assert Distinct(t) ==> Distinct(t.left);
    assert Nodes(t.left) == {t.left.node} + Nodes(t.left.left) + Nodes(t.left.right);
    assert Distinct(t) ==> Distinct(t.(left := t.left.right));
  }

  lemma SplitKeeps<N>(t: Tree<N>)
    ensures SameItems(t, Split(t))
  {
    if Split(t) != t {
      var a, x, b, y, c := Inorder(t.left), t.item, Inorder(t.right.left), t.right.item, Inorder(t.right.right);
      assert a + [x] + (b + [y] + c) == ((a + [x]) + b) + [y] + c;
      assert Distinct(t) ==> Distinct(t.right);
      assert Nodes(t.right) == {t.right.node} + Nodes(t.right.left) + Nodes(t.right.right);
      assert Distinct(t) ==> Distinct(t.(right := t.right.left));
    }
  }

  lemma LowerKeeps<N>(t: Tree<N>)
    ensures SameItems(t, Lower(t))
  {
    if t.Fork? && t.right.Fork? {
      var r := t.right.(level := t.level - 1);
      assert Nodes(r) == Nodes(t.right) && Inorder(r) == Inorder(t.right);
      assert Distinct(t.right) ==> Distinct(t.right.left) && Distinct(t.right.right);
      assert Distinct(t) ==> Distinct(r);
    }
  }

  lemma RebalanceKeeps<N>(t: Tree<N>)
    ensures SameItems(t, Rebalance(t))
  {
    if TooHigh(t) {
      var t0 := Lower(t);
      LowerKeeps(t);
      var t1 := Skew(t0);
      SkewKeeps(t0);
      var t2 := SkewRight(t1);
      SkewKeeps(t1.right);
      var t3 := SkewRightRight(t2);
      SkewRightKeeps(t2.right);
      var t4 := Split(t3);
      SplitKeeps(t3);
      SplitKeeps(t4.right);
    }
  }

  lemma SkewRightKeeps<N>(t: Tree<N>)
    ensures SameItems(t, SkewRight(t))
  {
    if t.Fork? { SkewKeeps(t.right); }
  }

  // ---------- Insertion, one level ----------

  /** How a subtree may change in an insertion: it stays balanced, and it rises, by one,
      only from a horizontal right link and to a root without one. */
  ghost predicate Grown<N>(s: Tree<N>, u: Tree<N>) {
    && Balanced(u)
    && u.Fork?
    && (Level(u) == Level(s) ||
        (Level(u) == Level(s) + 1 && !RightHorizontal(u) && (s.Leaf? || RightHorizontal(s))))
  }

  ghost function Join<N>(node: N, level: int, item: Item, dir: bool, other: Tree<N>, sub: Tree<N>): Tree<N> {
    if dir then Fork(node, level, item, other, sub) else Fork(node, level, item, sub, other)
  }

  lemma GrowLeft<N>(node: N, level: int, item: Item, other: Tree<N>, s: Tree<N>, u: Tree<N>)
    requires Balanced(Fork(node, level, item, s, other)) && Grown(s, u)
    ensures Grown(Fork(node, level, item, s, other), Split(Skew(Fork(node, level, item, u, other))))
  {
    if Level(u) == level {
      assert Balanced(u.left) && Balanced(u.right);
      assert Balanced(Fork(node, level, item, u.right, other));
    }
  }

  lemma GrowRight<N>(node: N, level: int, item: Item, other: Tree<N>, s: Tree<N>, u: Tree<N>)
    requires Balanced(Fork(node, level, item, other, s)) && Grown(s, u)
    ensures Grown(Fork(node, level, item, other, s), Split(Skew(Fork(node, level, item, other, u))))
  {
    if Level(u) == level && RightHorizontal(u) {
      assert Balanced(u.left) && Balanced(u.right);
      assert Balanced(Fork(node, level, item, other, u.left));
    }
  }

  // ---------- Removal, one level ----------

  /** How a subtree may change in a removal: it stays balanced, it sinks by at most one
      level, and on its old level it gains no horizontal right link. */
  ghost predicate Shrunk<N>(s: Tree<N>, u: Tree<N>) {
    && Balanced(u)
    && (Level(u) == Level(s) || Level(u) == Level(s) - 1)
    && (Level(u) == Level(s) && RightHorizontal(u) ==> RightHorizontal(s))
  }

  lemma ShrinkLeft<N>(node: N, level: int, item: Item, other: Tree<N>, s: Tree<N>, u: Tree<N>)
    requires Balanced(Fork(node, level, item, s, other)) && Shrunk(s, u)
    ensures Shrunk(Fork(node, level, item, s, other), Rebalance(Fork(node, level, item, u, other)))
  {
    var t := Fork(node, level, item, u, other);
    if !TooHigh(t) {
    } else if Level(other) == level - 1 {
      ShrinkLeftPlain(node, level, item, other, u);
    } else {
      ShrinkLeftHorizontal(node, level, item, other, u);
    }
  }

  lemma ShrinkLeftPlain<N>(node: N, level: int, item: Item, other: Tree<N>, u: Tree<N>)
    requires Balanced(u) && Balanced(other) && level >= 2
    requires Level(u) == level - 2 && Level(other) == level - 1
    ensures var v := Rebalance(Fork(node, level, item, u, other));
            Balanced(v) && (Level(v) == level - 1 || (Level(v) == level && !RightHorizontal(v)))
  {
    var low := Fork(node, level - 1, item, u, other);
    assert Balanced(other.left) && Balanced(other.right);
    assert SkewRightRight(SkewRight(Skew(low))) == low;
    if RightHorizontal(other) {
      assert Balanced(Fork(node, level - 1, item, u, other.left));
      assert Balanced(Split(low));
      assert SplitRight(Split(low)) == Split(low);
    } else {
      assert Balanced(low);
      assert SplitRight(Split(low)) == low;
    }
  }

  lemma ShrinkLeftHorizontal<N>(node: N, level: int, item: Item, other: Tree<N>, u: Tree<N>)
    requires Balanced(u) && Balanced(other) && level >= 2
    requires Level(u) == level - 2 && Level(other) == level && !RightHorizontal(other)
    ensures var v := Rebalance(Fork(node, level, item, u, other));
            Balanced(v) && Level(v) == level
  {
    var k := level - 1;
    var t := Fork(node, level, item, u, other);
    var c, r := other.left, other.right;
    assert Balanced(c) && Balanced(r);
    assert Balanced(c.left) && Balanced(c.right);
    var low := Fork(node, k, item, u, other.(level := k));
    assert Skew(Lower(t)) == low;
    var o := Fork(other.node, k, other.item, c.right, r);
    var x := Fork(node, k, item, u, c.left);
    assert Balanced(x);
    assert SkewRight(low) == Fork(node, k, item, u, c.(right := o));
    if Level(c.right) == k {
      var d := c.right;
      assert Balanced(d.left) && Balanced(d.right);
      var o' := Fork(other.node, k, other.item, d.right, r);
      var d' := d.(right := o');
      assert SkewRightRight(SkewRight(low)) == Fork(node, k, item, u, c.(right := d'));
      assert Split(SkewRightRight(SkewRight(low))) == Fork(c.node, k + 1, c.item, x, d');
      assert Balanced(Fork(d.node, k, d.item, d.left, d.right));
      assert Split(d') == Fork(other.node, k + 1, other.item, d, r);
      assert Balanced(Split(d'));
    } else {
      assert SkewRightRight(SkewRight(low)) == Fork(node, k, item, u, c.(right := o));
      assert Split(SkewRightRight(SkewRight(low))) == Fork(c.node, k + 1, c.item, x, o);
      if RightHorizontal(r) {
        assert Balanced(r.left) && Balanced(r.right);
        assert Balanced(Fork(other.node, k, other.item, c.right, r.left));
        assert Split(o) == Fork(r.node, k + 1, r.item, Fork(other.node, k, other.item, c.right, r.left), r.right);
        assert Balanced(Split(o));
      } else {
        assert Split(o) == o;
        assert Balanced(o);
      }
    }
  }

  lemma ShrinkRight<N>(node: N, level: int, item: Item, other: Tree<N>, s: Tree<N>, u: Tree<N>)
    requires Balanced(Fork(node, level, item, other, s)) && Shrunk(s, u)
    ensures Shrunk(Fork(node, level, item, other, s), Rebalance(Fork(node, level, item, other, u)))
  {
    var t := Fork(node, level, item, other, u);
    if TooHigh(t) {
      var k := level - 1;
      assert Balanced(other.left) && Balanced(other.right);
      var low := Fork(node, k, item, other, u);
      assert Lower(t) == low;
      var x := Fork(node, k, item, other.right, u);
      assert Skew(low) == other.(right := x);
      if Level(other.right) == k {
        var e := other.right;
        assert Balanced(e.left) && Balanced(e.right);
        var x' := Fork(node, k, item, e.right, u);
        assert Balanced(x');
        assert SkewRight(Skew(low)) == other.(right := e.(right := x'));
        assert SkewRightRight(SkewRight(Skew(low))) == SkewRight(Skew(low));
        assert Balanced(Fork(other.node, k, other.item, other.left, e.left));
        assert Split(SkewRight(Skew(low))) ==
               Fork(e.node, k + 1, e.item, Fork(other.node, k, other.item, other.left, e.left), x');
      } else {
        assert Balanced(x);
        assert SkewRightRight(SkewRight(Skew(low))) == Skew(low);
        assert SplitRight(Split(Skew(low))) == Skew(low);
        assert Balanced(Skew(low));
      }
    }
  }
}
