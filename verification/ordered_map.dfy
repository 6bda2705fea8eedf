/** The ordered map of `src/map.c` on the heap: nodes with two links and a shared sentinel,
    insertion and removal with an explicit path array, lookup, and destruction by rotation. */
module OrderedMap {
  import opened Options
  import opened ErrorCodes
  import opened AaTree
  import opened AaPath

  class Node {
    var level: int
    var data: Option<Item>
    var left: Node
    var right: Node

    /** The static `nil`: level 0, no data, both links to itself. */
    constructor Sentinel()
      ensures IsSentinel(this)
    {
      level, data, left, right := 0, None, this, this;
    }

    constructor (item: Item, nil: Node)
      ensures level == 1 && data == Some(item) && left == nil && right == nil
    {
      level, data, left, right := 1, Some(item), nil, nil;
    }

    function Link(dir: bool): Node
      reads this
    {
      if dir then right else left
    }
  }

  ghost predicate IsSentinel(nil: Node)
    reads nil
  {
    nil.level == 0 && nil.data == None && nil.left == nil && nil.right == nil
  }

  ghost function RootOf(t: Tree<Node>, nil: Node): Node {
    if t.Leaf? then nil else t.node
  }

  /** The heap holds the tree: every node has the level, the item and the links that `t` shows. */
  ghost predicate Rep(t: Tree<Node>, nil: Node)
    reads Nodes(t)
  {
    t.Fork? ==>
      && t.node.level == t.level && t.node.data == Some(t.item)
      && t.node.left == RootOf(t.left, nil) && t.node.right == RootOf(t.right, nil)
      && Rep(t.left, nil) && Rep(t.right, nil)
  }

  /** The heap holds everything around a position whose subtree is reached through `hole`. */
  ghost predicate RepPath(p: Path<Node>, hole: Node, root: Node, nil: Node)
    reads PathNodes(p)
  {
    if p.Top? then root == hole
    else
      && p.node.level == p.level && p.node.data == Some(p.item)
      && p.node.Link(p.dir) == hole && p.node.Link(!p.dir) == RootOf(p.other, nil)
      && Rep(p.other, nil)
      && RepPath(p.up, p.node, root, nil)
  }

  lemma {:induction false} RepPlug(p: Path<Node>, s: Tree<Node>, root: Node, nil: Node)
    ensures Rep(Plug(p, s), nil) && root == RootOf(Plug(p, s), nil)
       <==> Rep(s, nil) && RepPath(p, RootOf(s, nil), root, nil)
  {
    if p.Step? {
      RepPlug(p.up, Close(p, s), root, nil);
      assert Rep(Close(p, s), nil) <==>
             Rep(s, nil) && Rep(p.other, nil) && p.node.level == p.level && p.node.data == Some(p.item)
             && p.node.Link(p.dir) == RootOf(s, nil) && p.node.Link(!p.dir) == RootOf(p.other, nil);
    }
  }

  lemma {:induction false} NodesAllocated(t: Tree<Node>)
    ensures forall n :: n in Nodes(t) ==> allocated(n)
  {
    if t.Fork? { NodesAllocated(t.left); NodesAllocated(t.right); }
  }

  lemma {:induction false} PathNodesAllocated(p: Path<Node>)
    ensures forall n :: n in PathNodes(p) ==> allocated(n)
  {
    if p.Step? { NodesAllocated(p.other); PathNodesAllocated(p.up); }
  }

  /** The subtree at hand is a tree in the heap that does not touch the sentinel. */
  ghost predicate Holds(t: Node, s: Tree<Node>, nil: Node)
    reads nil, Nodes(s)
  {
    IsSentinel(nil) && nil !in Nodes(s) && Distinct(s) && Rep(s, nil) && t == RootOf(s, nil)
  }

  // ---------- The two macros ----------

  method RotateNode(t: Node, nil: Node, ghost s: Tree<Node>) returns (r: Node)
    requires Holds(t, s, nil) && s.Fork? && s.left.Fork?
    modifies Nodes(s)
    ensures Holds(r, RotateRight(s), nil)
  {
    RotatedRight(s);
    ghost var x := s.left;
    assert Rep(x, nil) && Distinct(x);
    assert Rep(x.left, nil) && Rep(x.right, nil);
    var save := t.left;
    t.left := save.right;
    save.right := t;
    r := save;
    assert Rep(x.left, nil) && Rep(x.right, nil) && Rep(s.right, nil);
    assert Rep(s.(left := x.right), nil);
  }

  method SkewNode(t: Node, nil: Node, ghost s: Tree<Node>) returns (r: Node)
    requires Holds(t, s, nil)
    modifies Nodes(s)
    ensures Holds(r, Skew(s), nil)
  {
    SkewKeeps(s);
    assert Rep(Child(s, false), nil);
    r := t;
    if t.left.level == t.level && t.level != 0 {
      r := RotateNode(t, nil, s);
    }
  }

  method SplitNode(t: Node, nil: Node, ghost s: Tree<Node>) returns (r: Node)
    requires Holds(t, s, nil)
    modifies Nodes(s)
    ensures Holds(r, Split(s), nil)
  {
    SplitKeeps(s);
    r := t;
    assert Rep(Child(s, true), nil) && Rep(Child(Child(s, true), true), nil);
    if t.right.right.level == t.level && t.level != 0 {
      assert Rep(s.right, nil) && Distinct(s.right);
      ghost var x := s.right;
      assert Rep(x.left, nil) && Rep(x.right, nil);
      var save := t.right;
      t.right := save.left;
      save.left := t;
      r := save;
      r.level := r.level + 1;
      assert Rep(x.left, nil) && Rep(x.right, nil) && Rep(s.left, nil);
      assert Rep(s.(right := x.left), nil);
    }
  }

  /** `skew(p->link[1])`: the link itself is written, and only when a rotation happens. */
  method SkewLink(p: Node, nil: Node, ghost s: Tree<Node>)
    requires Holds(p, s, nil)
    modifies Nodes(s)
    ensures Holds(p, SkewRight(s), nil)
  {
    SkewRightKeeps(s);
    assert Rep(Child(s, true), nil) && Rep(Child(Child(s, true), false), nil);
    var t := p.right;
    if t.left.level == t.level && t.level != 0 {
      ghost var r, x := s.right, s.right.left;
      assert Rep(r, nil) && Distinct(r) && Rep(x, nil) && Distinct(x);
      assert Rep(s.left, nil) && Rep(r.right, nil) && Rep(x.left, nil) && Rep(x.right, nil);
      var save := t.left;
      t.left := save.right;
      save.right := t;
      p.right := save;
      assert Rep(s.left, nil) && Rep(r.right, nil) && Rep(x.left, nil) && Rep(x.right, nil);
      assert Rep(r.(left := x.right), nil);
      assert Rep(Skew(r), nil);
    }
  }

  /** `split(p->link[1])`. */
  method SplitLink(p: Node, nil: Node, ghost s: Tree<Node>)
    requires Holds(p, s, nil)
    modifies Nodes(s)
    ensures Holds(p, SplitRight(s), nil)
  {
    if s.Fork? { SplitKeeps(s.right); }
    assert Rep(Child(s, true), nil) && Rep(Child(Child(s, true), true), nil);
    assert Rep(Child(Child(Child(s, true), true), true), nil);
    var t := p.right;
    if t.right.right.level == t.level && t.level != 0 {
      ghost var r, x := s.right, s.right.right;
      assert Rep(r, nil) && Distinct(r) && Rep(x, nil) && Distinct(x);
      assert Rep(s.left, nil) && Rep(r.left, nil) && Rep(x.left, nil) && Rep(x.right, nil);
      var save := t.right;
      t.right := save.left;
      save.left := t;
      p.right := save;
      save.level := save.level + 1;
      assert Rep(s.left, nil) && Rep(r.left, nil) && Rep(x.left, nil) && Rep(x.right, nil);
      assert Rep(r.(right := x.left), nil);
      assert Rep(Split(r), nil);
    }
  }

  /** `skew(p->link[1]->link[1])`. */
  method SkewLinkLink(p: Node, nil: Node, ghost s: Tree<Node>)
    requires Holds(p, s, nil)
    modifies Nodes(s)
    ensures Holds(p, SkewRightRight(s), nil)
  {
    SkewRightKeeps(Child(s, true));
    assert Rep(Child(s, true), nil) && Rep(Child(s, false), nil);
    ghost var l := Child(s, false);
    NodesAllocated(l);
    SkewLink(p.right, nil, Child(s, true));
    assert Rep(l, nil);
  }

  /** The body of the walk back up in `map_remove`. */
  method RebalanceNode(t: Node, nil: Node, ghost s: Tree<Node>) returns (r: Node)
    requires Holds(t, s, nil) && s.Fork? && s.level >= 1
    modifies Nodes(s)
    ensures Holds(r, Rebalance(s), nil)
  {
    ghost var a, b := s.left, s.right;
    assert Rep(a, nil) && Rep(b, nil) && Distinct(b);
    assert Rep(Child(b, false), nil) && Rep(Child(b, true), nil);
    r := t;
    if t.left.level < t.level - 1 || t.right.level < t.level - 1 {
      t.level := t.level - 1;
      if t.right.level > t.level {
        t.right.level := t.level;
      }
      ghost var u := Lower(s);
      LowerKeeps(s);
      assert Rep(a, nil) && Rep(Child(b, false), nil) && Rep(Child(b, true), nil);
      assert Rep(u.right, nil);
      SkewKeeps(u);
      r := SkewNode(r, nil, u);
      u := Skew(u);
      SkewRightKeeps(u);
      SkewLink(r, nil, u);
      u := SkewRight(u);
      SkewRightKeeps(Child(u, true));
      SkewLinkLink(r, nil, u);
      u := SkewRightRight(u);
      SplitKeeps(u);
      r := SplitNode(r, nil, u);
      u := Split(u);
      SplitLink(r, nil, u);
    }
  }

  class Map {
    const nil: Node
    const dup: bool
    var root: Node
    var size: int
    ghost var tree: Tree<Node>

    /** Everything but the counter. */
    ghost predicate Shape()
      reads this, nil, Nodes(tree)
    {
      Holds(root, tree, nil) && Balanced(tree) && Ascending(Inorder(tree))
    }

    ghost predicate Valid()
      reads this, nil, Nodes(tree)
    {
      Shape() && size == Size(tree)
    }

    ghost function Contents(): map<int, int>
      reads this
    {
      AsMap(Inorder(tree))
    }

    constructor (nil: Node, dup: bool)
      requires IsSentinel(nil)
      ensures Valid() && tree == Leaf && Contents() == map[] && this.nil == nil && this.dup == dup
    {
      this.nil, this.dup := nil, dup;
      root, size, tree := nil, 0, Leaf;
    }

    /** `map_find`: `comparisons` counts the calls of the compare function. */
    method Find(data: Option<Item>) returns (r: Option<Item>, comparisons: nat)
      requires Shape()
      ensures data.None? ==> r == None
      ensures data.Some? ==>
                r == if data.value.key in Contents() then Some(Item(data.value.key, Contents()[data.value.key]))
                     else None
      ensures MinItems(comparisons) <= Size(tree) + 2
    {
      comparisons := 0;
      HeightBound(tree);
      if data.None? {
        MinItemsMonotone(0, Height(tree));
        return None, 0;
      }
      var key := data.value.key;
      var it := root;
      ghost var p: Path<Node>, s := Top, tree;
      while it != nil
        invariant Plug(p, s) == tree && Rep(s, nil) && nil !in Nodes(s) && it == RootOf(s, nil)
        invariant Brackets(p, key)
        invariant comparisons == |Spine(p)|
        invariant comparisons + Height(s) <= Height(tree)
        decreases Height(s)
      {
        comparisons := comparisons + 1;
        var other := it.data.value.key;
        if other == key {
          SearchHits(p, s);
          break;
        }
        DownPlugs(p, s, other < key);
        SearchStep(p, s, key);
        p, s := Down(p, s, other < key), Child(s, other < key);
        it := it.Link(other < key);
      }
      if it == nil { SearchMisses(p, key); }
      MinItemsMonotone(comparisons, Height(tree));
      r := it.data;
    }

    /** `anode_ordered`: the items handed to the callback, in the order of the calls. */
    method Ordered(node: Node, ghost s: Tree<Node>) returns (out: seq<Item>)
      requires Holds(node, s, nil)
      ensures out == Inorder(s)
      decreases Height(s)
    {
      if node == nil {
        return [];
      }
      NodesAllocated(s);
      assert Rep(s.left, nil) && Rep(s.right, nil);
      out := Ordered(node.left, s.left);
      out := out + [node.data.value];
      var rest := Ordered(node.right, s.right);
      out := out + rest;
    }

    /** `map_clear`: destruction by rotation. The counter and the root stay as they were. */
    method Clear() returns (released: seq<Item>)
      requires Shape()
      modifies Nodes(tree)
      ensures released == old(Inorder(tree))
    {
      hide Balanced, AsMap, Ascending;
      var it := root;
      ghost var t := tree;
      released := [];
      while it != nil
        invariant Holds(it, t, nil) && Nodes(t) <= Nodes(tree)
        invariant released + Inorder(t) == old(Inorder(tree))
        decreases Size(t), Size(Child(t, false))
      {
        assert Rep(t.left, nil) && Rep(t.right, nil);
        if it.left == nil {
          Spliced(t, released);
          released := released + [it.data.value];
          it := it.right;
          t := t.right;
        } else {
          RotatedRight(t);
          assert Inorder(RotateRight(t)) == Inorder(t);
          it := RotateNode(it, nil, t);
          t := RotateRight(t);
        }
      }
    }

    /** `path[top - 1]->link[dir] = n`, or the root when there is no parent. */
    method Hang(path: array<Node>, top: nat, dir: bool, n: Node,
                ghost p: Path<Node>, ghost hole: Node, ghost s: Tree<Node>)
      requires top <= path.Length && path[..top] == Spine(p) && (p.Step? ==> dir == p.dir)
      requires RepPath(p, hole, root, nil) && Fits(p, Nodes(s)) && Holds(n, s, nil) && nil !in PathNodes(p)
      modifies this`root, PathNodes(p)
      ensures RepPath(p, n, root, nil) && Holds(n, s, nil)
    {
      FitsApart(p, Nodes(s));
      if top != 0 {
        FitsTop(p, Nodes(s));
        var parent := path[top - 1];
        assert parent == p.node;
        if dir { parent.right := n; } else { parent.left := n; }
      } else {
        root := n;
      }
    }

    /** With a copy callback, an equal key makes `map_insert` go wrong. */
    ghost predicate Spoils(key: int)
      reads this
    {
      dup && key in Contents()
    }

    /** `map_insert`. An equal key has its old item released and is overwritten. But a copy callback
        gets the old item where it expects the place for the copy: it stores the address of the copy
        at the start of the item just released, where the key is, and the node goes on pointing at
        that item. `stored` is what the item reads as after that. */
    method Insert(data: Option<Item>, stored: Item) returns (r: int, released: seq<Item>)
      requires Shape() && Size(tree) < INSERT_LIMIT
      requires data.Some? && Spoils(data.value.key) ==> stored.key != data.value.key
      modifies this, Nodes(tree)
      ensures Holds(root, tree, nil) && Balanced(tree) && fresh(Nodes(tree) - old(Nodes(tree)))
      ensures size - Size(tree) == old(size - Size(tree))
      ensures data.None? ==> r == ERR_INVAL && released == [] && tree == old(tree)
      ensures data.Some? ==>
                && r == size
                && Size(tree) == old(Size(tree)) + (if data.value.key in old(Contents()) then 0 else 1)
                && released == (if data.value.key in old(Contents())
                                then [Item(data.value.key, old(Contents())[data.value.key])] else [])
      ensures data.Some? && old(Spoils(data.value.key)) ==>
                && Became(old(Inorder(tree)), Inorder(tree), data.value.key, stored)
                && data.value.key !in Contents()
      ensures !(data.Some? && old(Spoils(data.value.key))) ==> Shape()
      ensures data.Some? ==>
                (Contents() == old(Contents())[data.value.key := data.value.value] <==> !old(Spoils(data.value.key)))
    {
      released := [];
      if data.None? {
        return ERR_INVAL, [];
      }
      var item := data.value;
      if root == nil {
        root := new Node(item, nil);
        tree := Fork(root, 1, item, Leaf, Leaf);
        InorderSize(tree);
        assert Inorder(tree) == [item];
      } else {
        r, released := InsertBelow(item, stored);
        if released != [] { return; }
      }
      size := size + 1;
      r := size;
    }

    /** The part of `map_insert` for a map that has a root. */
    method InsertBelow(item: Item, stored: Item) returns (r: int, released: seq<Item>)
      requires Shape() && Size(tree) < INSERT_LIMIT && root != nil
      requires Spoils(item.key) ==> stored.key != item.key
      modifies this`root, this`tree, Nodes(tree)
      ensures Holds(root, tree, nil) && Balanced(tree) && fresh(Nodes(tree) - old(Nodes(tree)))
      ensures old(Spoils(item.key)) ==>
                Became(old(Inorder(tree)), Inorder(tree), item.key, stored) && item.key !in Contents()
      ensures !old(Spoils(item.key)) ==> Shape() && Contents() == old(Contents())[item.key := item.value]
      ensures item.key in old(Contents()) ==>
                && r == size && Size(tree) == old(Size(tree))
                && released == [Item(item.key, old(Contents())[item.key])]
      ensures item.key !in old(Contents()) ==> released == [] && Size(tree) == old(Size(tree)) + 1
    {
      r, released := size, [];
      NodesAllocated(tree);
      var path, top, dir, found, p, s := Descend(item.key);
      assert Rep(tree, nil) && Contents() == old(Contents());
      if found {
        PlugNodes(p, s);
        SearchHits(p, s);
        released := [path[top - 1].data.value];
        if dup {
          StoreAddress(path[top - 1], stored, p, s);
        } else {
          Overwrite(path[top - 1], item, p, s);
        }
        assert Nodes(tree) - old(Nodes(tree)) == {};
      } else {
        SearchMisses(p, item.key);
        ghost var n := WalkBackInsert(item, path, top, dir, p);
        assert Nodes(tree) - old(Nodes(tree)) == {n};
      }
    }

    /** `map->dup(data, node->data)`: the item that the node points at is written, not the node. */
    method StoreAddress(node: Node, stored: Item, ghost p: Path<Node>, ghost s: Tree<Node>)
      requires Shape() && Plug(p, s) == tree && s.Fork? && s.node == node && stored.key != s.item.key
      modifies node, this`tree
      ensures Holds(root, tree, nil) && Balanced(tree)
      ensures tree == Plug(p, s.(item := stored)) && Nodes(tree) == old(Nodes(tree)) && Size(tree) == old(Size(tree))
      ensures Became(old(Inorder(tree)), Inorder(tree), s.item.key, stored) && s.item.key !in Contents()
    {
      ghost var u := s.(item := stored);
      ItemReplacedShape(p, s, stored);
      ItemBecame(p, s, stored);
      KeyGone(Inorder(tree), Inorder(Plug(p, u)), s.item.key, stored);
      InorderSize(tree);
      InorderSize(Plug(p, u));
      ItemWritten(node, stored, p, s);
      tree := Plug(p, u);
    }

    /** "Find a spot and save the path": down to the node with the key, or to the missing link. */
    method Descend(key: int)
      returns (path: array<Node>, top: nat, dir: bool, found: bool, ghost p: Path<Node>, ghost s: Tree<Node>)
      requires Shape() && Size(tree) < INSERT_LIMIT && root != nil
      ensures fresh(path) && path.Length == HEIGHT_LIMIT && 0 < top <= HEIGHT_LIMIT
      ensures Plug(p, s) == tree
      ensures found ==> s.Fork? && s.item.key == key && path[top - 1] == s.node && s.node.data == Some(s.item)
      ensures !found ==> s.Leaf? && p.Step? && p.dir == dir && path[..top] == Spine(p) && Brackets(p, key)
    {
      hide Plug, Brackets, Balanced, Ascending, Distinct, Inorder, AsMap, PathNodes, MinItems, Pow2;
      NodesAllocated(tree);
      path := new Node[HEIGHT_LIMIT](_ => nil);
      assert Rep(tree, nil);
      var node := root;
      top, dir, found, p, s := 0, false, false, Top, tree;
      PathsFit(tree);
      SearchStarts(tree, key);
      while true
        modifies path
        invariant Plug(p, s) == tree && s.Fork? && node == s.node && Rep(s, nil)
        invariant Brackets(p, key)
        invariant top + Height(s) <= Height(tree)
        invariant path[..top] == Spine(p)
        decreases Height(s)
      {
        PlugNodes(p, s);
        assert s.node.data == Some(s.item) && Rep(Child(s, false), nil) && Rep(Child(s, true), nil);
        path[top] := node;
        top := top + 1;
        assert Rep(Child(s, false), nil) && Rep(Child(s, true), nil);
        var other := node.data.value.key;
        if other == key {
          found := true;
          return;
        }
        dir := other < key;
        DownPlugs(p, s, dir);
        SearchStep(p, s, key);
        p, s := Down(p, s, dir), Child(s, dir);
        if node.Link(dir) == nil {
          return;
        }
        node := node.Link(dir);
      }
    }

    /** `node->data = data`. */
    method Overwrite(node: Node, item: Item, ghost p: Path<Node>, ghost s: Tree<Node>)
      requires Shape() && Plug(p, s) == tree && s.Fork? && s.node == node && s.item.key == item.key
      modifies node, this`tree
      ensures Shape() && Nodes(tree) == old(Nodes(tree)) && Size(tree) == old(Size(tree))
      ensures tree == Plug(p, s.(item := item))
      ensures item.key in old(Contents()) && old(Contents())[item.key] == s.item.value
      ensures Contents() == old(Contents())[item.key := item.value]
    {
      ghost var u := s.(item := item);
      ItemReplaced(p, s, item);
      ItemReplacedShape(p, s, item);
      InorderSize(tree);
      InorderSize(Plug(p, u));
      ItemWritten(node, item, p, s);
      tree := Plug(p, u);
    }

    method ItemWritten(node: Node, item: Item, ghost p: Path<Node>, ghost s: Tree<Node>)
      requires Holds(root, Plug(p, s), nil) && s.Fork? && s.node == node
      modifies node
      ensures node.left == old(node.left) && node.right == old(node.right)
      ensures Rep(Plug(p, s.(item := item)), nil) && root == RootOf(Plug(p, s.(item := item)), nil)
      ensures IsSentinel(nil)
    {
      RepPlug(p, s, root, nil);
      PlugNodes(p, s);
      FitsApart(p, Nodes(s));
      assert Rep(s.left, nil) && Rep(s.right, nil);
      node.data := Some(item);
      assert Rep(s.left, nil) && Rep(s.right, nil);
      RepPlug(p, s.(item := item), root, nil);
    }

    /** The new node, and the walk back up. */
    method WalkBackInsert(item: Item, path: array<Node>, top: nat, dir: bool, ghost p: Path<Node>)
      returns (ghost newNode: Node)
      requires Shape() && path.Length == HEIGHT_LIMIT && top <= HEIGHT_LIMIT
      requires Plug(p, Leaf) == tree && p.Step? && p.dir == dir
      requires path[..top] == Spine(p)
      requires Brackets(p, item.key)
      modifies this`root, this`tree, Nodes(tree), path
      ensures Shape() && fresh(newNode) && Nodes(tree) == old(Nodes(tree)) + {newNode}
      ensures Contents() == old(Contents())[item.key := item.value]
      ensures Size(tree) == old(Size(tree)) + 1
    {
      hide Balanced, Ascending, Inorder, AsMap, Brackets, Plug, InsertUp, Size, MinItems, Pow2;
      NodesAllocated(tree);
      assert PathNodes(p) == Nodes(tree) && Fits(p, {}) && RepPath(p, nil, root, nil) by {
        PlugNodes(p, Leaf);
        RepPlug(p, Leaf, root, nil);
      }
      var n := new Node(item, nil);
      ghost var s: Tree<Node> := Fork(n, 1, item, Leaf, Leaf);
      FitsChange(p, {}, {n});
      assert RepPath(p, nil, root, nil);
      Hang(path, top, dir, n, p, nil, s);
      RiseInsert(path, top, p, s);
      ItemInserted(p, s);
      tree, newNode := InsertUp(p, s), n;
    }

    /** `skew` and `split` at every node of the path, from the bottom up. */
    method RiseInsert(path: array<Node>, depth: nat, ghost whole: Path<Node>, ghost sub: Tree<Node>)
      requires path.Length == HEIGHT_LIMIT && depth <= HEIGHT_LIMIT && path[..depth] == Spine(whole)
      requires sub.Fork? && Holds(sub.node, sub, nil) && nil !in PathNodes(whole)
      requires Fits(whole, Nodes(sub)) && RepPath(whole, sub.node, root, nil)
      modifies this`root, PathNodes(whole), Nodes(sub), path
      ensures Holds(root, InsertUp(whole, sub), nil)
    {
      var top := depth;
      ghost var p, s := whole, sub;
      while top > 0
        invariant 0 <= top <= HEIGHT_LIMIT && path[..top] == Spine(p)
        invariant InsertUp(p, s) == InsertUp(whole, sub)
        invariant PathNodes(p) + Nodes(s) == PathNodes(whole) + Nodes(sub)
        invariant s.Fork? && Holds(s.node, s, nil)
        invariant Fits(p, Nodes(s)) && RepPath(p, s.node, root, nil)
      {
        top := top - 1;
        InsertRound(path, top, p, s);
        p, s := p.up, Split(Skew(Close(p, s)));
      }
    }

    /** One round of the walk. */
    method InsertRound(path: array<Node>, top: nat, ghost p: Path<Node>, ghost s: Tree<Node>)
      requires top < path.Length && path[..top + 1] == Spine(p)
      requires p.Step? && s.Fork? && Holds(s.node, s, nil) && nil !in PathNodes(p)
      requires Fits(p, Nodes(s)) && RepPath(p, s.node, root, nil)
      modifies this`root, PathNodes(p), Nodes(s), path
      ensures path[..top] == Spine(p.up)
      ensures var t := Split(Skew(Close(p, s)));
              && t.Fork? && Holds(t.node, t, nil)
              && Nodes(t) == Nodes(s) + {p.node} + Nodes(p.other)
              && Fits(p.up, Nodes(t)) && RepPath(p.up, t.node, root, nil)
    {
      hide Balanced, Ascending, Inorder, AsMap, Split, Skew, MinItems, Pow2;
      var up, dir := path[top], false;
      assert up == p.node && path[..top] == Spine(p.up);
      if top != 0 {
        assert path[top - 1] == p.up.node;
        ParentLink(p, s, root, nil);
        dir := path[top - 1].Link(true) == up;
      }
      up := InsertStep(up, p, s);
      PathNodesAllocated(p.up);
      path[top] := up;
      assert RepPath(p.up, p.node, root, nil);
      Hang(path, top, dir, up, p.up, p.node, Split(Skew(Close(p, s))));
    }

    /** The rebalancing of one round. */
    method InsertStep(up: Node, ghost p: Path<Node>, ghost s: Tree<Node>) returns (r: Node)
      requires p.Step? && up == p.node && s.Fork? && Holds(s.node, s, nil) && nil !in PathNodes(p)
      requires Fits(p, Nodes(s)) && RepPath(p, s.node, root, nil)
      modifies Nodes(Close(p, s))
      ensures var t := Split(Skew(Close(p, s)));
              && t.Fork? && Holds(r, t, nil) && r == t.node
              && Nodes(t) == Nodes(s) + {p.node} + Nodes(p.other) && Fits(p.up, Nodes(t))
      ensures RepPath(p.up, p.node, root, nil)
    {
      ghost var t := Close(p, s);
      assert Nodes(t) == Nodes(s) + {p.node} + Nodes(p.other);
      SkewKeeps(t);
      SplitKeeps(Skew(t));
      FitsApart(p.up, Nodes(t));
      PathNodesAllocated(p.up);
      r := SkewNode(up, nil, t);
      assert RepPath(p.up, p.node, root, nil);
      r := SplitNode(r, nil, Skew(t));
    }

    /** `map_remove`. On a map without a root the counter still goes down. `freed` is the node given
        back: one of the map's, and in it no longer. */
    method Remove(data: Option<Item>) returns (r: Option<Item>, ghost freed: set<Node>)
      requires Shape() && Size(tree) < REMOVE_LIMIT
      modifies this, Nodes(tree)
      ensures Shape() && Nodes(tree) == old(Nodes(tree)) - freed
      ensures freed <= old(Nodes(tree)) && |freed| == if r.Some? then 1 else 0
      ensures data.None? ==> r == None && tree == old(tree) && size == old(size)
      ensures data.Some? && data.value.key in old(Contents()) ==>
                && r == Some(Item(data.value.key, old(Contents())[data.value.key]))
                && Contents() == old(Contents()) - {data.value.key}
                && Size(tree) == old(Size(tree)) - 1 && size == old(size) - 1
      ensures data.Some? && data.value.key !in old(Contents()) ==>
                && r == None && tree == old(tree)
                && size == (if old(tree).Leaf? then old(size) - 1 else old(size))
    {
      hide Balanced, Distinct, Ascending;
      r, freed := None, {};
      if data.None? {
        return;
      }
      if root != nil {
        r, freed := RemoveBelow(data.value.key);
        if r == None {
          return;
        }
      }
      size := size - 1;
    }

    /** The part of `map_remove` for a map that has a root. */
    method RemoveBelow(key: int) returns (r: Option<Item>, ghost freed: set<Node>)
      requires Shape() && Size(tree) < REMOVE_LIMIT && root != nil
      modifies this`root, this`tree, Nodes(tree)
      ensures Shape() && Nodes(tree) == old(Nodes(tree)) - freed
      ensures freed <= old(Nodes(tree)) && |freed| == if r.Some? then 1 else 0
      ensures key in old(Contents()) ==>
                && r == Some(Item(key, old(Contents())[key]))
                && Contents() == old(Contents()) - {key} && Size(tree) == old(Size(tree)) - 1
      ensures key !in old(Contents()) ==> r == None && tree == old(tree)
    {
      r, freed := None, {};
      NodesAllocated(tree);
      var path, top, dir, it, p, s := Locate(key);
      assert Rep(tree, nil) && Contents() == old(Contents());
      if it == nil {
        return;
      }
      SearchHits(p, s);
      RepPlug(p, s, root, nil);
      r := it.data;
      if it.left == nil || it.right == nil {
        RemoveSingle(path, top, dir, it, p, s);
        freed := {it};
      } else {
        ghost var heir := RemoveDouble(path, top, it, p, s);
        freed := {heir};
      }
    }

    /** "Find node to remove and save path": the sentinel is saved too when the key is missing. */
    method Locate(key: int)
      returns (path: array<Node>, top: nat, dir: bool, it: Node, ghost p: Path<Node>, ghost s: Tree<Node>)
      requires Shape() && Size(tree) < REMOVE_LIMIT
      ensures fresh(path) && path.Length == HEIGHT_LIMIT && 0 < top <= HEIGHT_LIMIT
      ensures Plug(p, s) == tree && it == RootOf(s, nil) && nil !in Nodes(s)
      ensures s.Leaf? ==> key !in Contents()
      ensures s.Fork? ==>
                && s.item.key == key && top + Height(s) <= HEIGHT_LIMIT
                && path[..top] == Spine(p) + [s.node] && (p.Step? ==> dir == p.dir)
    {
      hide Plug, Brackets, Balanced, Ascending, Distinct, Inorder, AsMap, PathNodes, MinItems, Pow2;
      NodesAllocated(tree);
      path := new Node[HEIGHT_LIMIT](_ => nil);
      assert Rep(tree, nil);
      it := root;
      top, dir, p, s := 0, false, Top, tree;
      PathsFit(tree);
      SearchStarts(tree, key);
      while true
        modifies path
        invariant Plug(p, s) == tree && it == RootOf(s, nil) && Rep(s, nil) && nil !in Nodes(s)
        invariant Brackets(p, key) && (p.Step? ==> dir == p.dir)
        invariant top + Height(s) < HEIGHT_LIMIT
        invariant path[..top] == Spine(p)
        decreases Height(s)
      {
        PlugNodes(p, s);
        assert s.Fork? ==> s.node.data == Some(s.item) && Rep(s.left, nil) && Rep(s.right, nil);
        path[top] := it;
        top := top + 1;
        if it == nil {
          SearchMisses(p, key);
          return;
        }
        assert Rep(s.left, nil) && Rep(s.right, nil);
        var other := it.data.value.key;
        if other == key {
          return;
        }
        dir := other < key;
        it := it.Link(dir);
        DownPlugs(p, s, dir);
        SearchStep(p, s, key);
        p, s := Down(p, s, dir), Child(s, dir);
      }
    }

    /** The single child case: the item is unlinked. */
    method RemoveSingle(path: array<Node>, depth: nat, dir: bool, it: Node, ghost p: Path<Node>, ghost s: Tree<Node>)
      requires Shape() && Plug(p, s) == tree && s.Fork? && it == s.node
      requires it.left == nil || it.right == nil
      requires path.Length == HEIGHT_LIMIT && 0 < depth <= HEIGHT_LIMIT && path[..depth] == Spine(p) + [it]
      requires p.Step? ==> dir == p.dir
      modifies this`root, this`tree, Nodes(tree), path
      ensures Shape() && Size(tree) == old(Size(tree)) - 1
      ensures it in old(Nodes(tree)) && Nodes(tree) == old(Nodes(tree)) - {it} && unchanged(it)
      ensures Contents() == old(Contents()) - {s.item.key}
    {
      assert s.left.Leaf? && it.left == nil && it.right == RootOf(s.right, nil) by {
        PlugNodes(p, s);
        RepPlug(p, s, root, nil);
        PlugBalanced(p, s);
        SingleChildIsRight(s);
      }
      var dir2 := it.left == nil;
      var top := depth - 1;
      assert path[..top] == Spine(p) by { assert path[..top] == path[..depth][..top]; }
      RemovedSingle(p, s);
      Unlink(path, top, dir, if top != 0 then it.Link(dir2) else it.Link(true), p, s);
      tree := RemoveUp(p, s.right);
    }

    /** The link to `s`, which has no left child, is set to its right child; then the walk back up,
        which leaves the node of `s` alone. */
    method Unlink(path: array<Node>, top: nat, dir: bool, child: Node, ghost p: Path<Node>, ghost s: Tree<Node>)
      requires s.Fork? && s.left.Leaf? && Balanced(Plug(p, s)) && Holds(root, Plug(p, s), nil)
      requires path.Length == HEIGHT_LIMIT && top <= HEIGHT_LIMIT && path[..top] == Spine(p)
      requires (p.Step? ==> dir == p.dir) && child == RootOf(s.right, nil)
      modifies this`root, Nodes(Plug(p, s)), path
      ensures Holds(root, RemoveUp(p, s.right), nil) && unchanged(s.node)
    {
      PlugNodes(p, s);
      RepPlug(p, s, root, nil);
      PlugLevels(p, s);
      FitsApart(p, Nodes(s));
      FitsChange(p, Nodes(s), Nodes(s.right));
      Hang(path, top, dir, child, p, s.node, s.right);
      RiseRemove(path, top, p, s.right);
    }

    /** The two child case: the next larger item moves up, and its old node is unlinked. */
    method RemoveDouble(path: array<Node>, depth: nat, it: Node, ghost p: Path<Node>, ghost s: Tree<Node>)
      returns (ghost freed: Node)
      requires Shape() && Plug(p, s) == tree && s.Fork? && it == s.node
      requires it.left != nil && it.right != nil
      requires path.Length == HEIGHT_LIMIT && 0 < depth && depth + Height(s) <= HEIGHT_LIMIT
      requires path[..depth] == Spine(p) + [it]
      modifies this`root, this`tree, Nodes(tree), path
      ensures Shape() && Size(tree) == old(Size(tree)) - 1
      ensures freed in old(Nodes(tree)) && Nodes(tree) == old(Nodes(tree)) - {freed}
      ensures Contents() == old(Contents()) - {s.item.key}
    {
      hide Balanced, Distinct, Inorder, Ascending, AsMap, Plug, Before, After, RemoveUp, PathNodes;
      assert Holds(it, s, nil) && s.right.Fork? by {
        PlugNodes(p, s);
        RepPlug(p, s, root, nil);
      }
      NodesAllocated(tree);
      var heir, prev, top, q, sub := FindHeir(path, depth, it, p, s);
      assert Rep(tree, nil);
      assert it in Nodes(tree) by { PlugNodes(p, s); }
      RemovedDouble(p, s, q, sub);
      MoveUp(it, heir, p, s, q, sub);
      Unlink(path, top, prev == it, heir.Link(true), q, sub);
      tree, freed := RemoveUp(q, sub.right), heir;
    }

    /** `it->data = heir->data`. */
    method MoveUp(it: Node, heir: Node, ghost p: Path<Node>, ghost s: Tree<Node>,
                  ghost q: Path<Node>, ghost sub: Tree<Node>)
      requires Holds(root, Plug(p, s), nil) && s.Fork? && it == s.node
      requires sub.Fork? && heir == sub.node && heir.data == Some(sub.item) && heir.Link(true) == RootOf(sub.right, nil)
      requires Plug(q, sub) == Plug(p, s.(item := sub.item))
      requires Distinct(Plug(q, sub)) && nil !in Nodes(Plug(q, sub))
      modifies it
      ensures Holds(root, Plug(q, sub), nil) && heir.Link(true) == RootOf(sub.right, nil)
    {
      ItemWritten(it, heir.data.value, p, s);
    }

    /** Down the right child, then left to the end. The position `q` is one in the tree as it
        will be once the item found there has replaced the one to remove. */
    method FindHeir(path: array<Node>, depth: nat, it: Node, ghost p: Path<Node>, ghost s: Tree<Node>)
      returns (heir: Node, prev: Node, top: nat, ghost q: Path<Node>, ghost sub: Tree<Node>)
      requires Holds(it, s, nil) && s.Fork? && s.right.Fork?
      requires path.Length == HEIGHT_LIMIT && 0 < depth && depth + Height(s) <= HEIGHT_LIMIT
      requires path[..depth] == Spine(p) + [it]
      modifies path
      ensures top <= HEIGHT_LIMIT && path[..top] == Spine(q)
      ensures sub.Fork? && sub.left.Leaf? && heir == sub.node && heir.data == Some(sub.item)
      ensures heir.right == RootOf(sub.right, nil)
      ensures q.Step? && prev == q.node && (prev == it <==> q.dir)
      ensures Plug(q, sub) == Plug(p, s.(item := sub.item))
      ensures Before(q) + Inorder(sub.right) + After(q)
           == (Before(p) + Inorder(s.left)) + (Inorder(s.right) + After(p))
    {
      hide Plug, Balanced, Ascending, AsMap, MinItems, Pow2, Before, After, Inorder, HeirAt;
      NodesAllocated(s);
      ghost var a, b := Before(p) + Inorder(s.left), Inorder(s.right) + After(p);
      ghost var first := HeirStarts(p, s);
      ghost var t := Plug(p, s.(item := first));
      top, heir, prev := depth, it.right, it;
      q, sub := Down(p, s.(item := first), true), s.right;
      DownPlugs(p, s.(item := first), true);
      while heir.left != nil
        modifies path
        invariant top + Height(sub) <= HEIGHT_LIMIT && path[..top] == Spine(q)
        invariant sub.Fork? && heir == sub.node && Rep(sub, nil) && Nodes(sub) <= Nodes(s.right)
        invariant q.Step? && prev == q.node && (prev == it <==> q.dir)
        invariant Plug(q, sub) == t && HeirAt(q, sub, first, a, b)
        decreases Height(sub)
      {
        assert Rep(sub.left, nil);
        path[top] := heir;
        prev := heir;
        top := top + 1;
        heir := heir.left;
        DownPlugs(q, sub, false);
        HeirBelow(q, sub, first, a, b);
        q, sub := Down(q, sub, false), sub.left;
      }
      HeirFound(q, sub, first, a, b);
    }

    /** Rebalancing at every node of the path, from the bottom up. */
    method RiseRemove(path: array<Node>, depth: nat, ghost whole: Path<Node>, ghost sub: Tree<Node>)
      requires path.Length == HEIGHT_LIMIT && depth <= HEIGHT_LIMIT && path[..depth] == Spine(whole)
      requires Holds(RootOf(sub, nil), sub, nil) && nil !in PathNodes(whole) && Levels(whole)
      requires Fits(whole, Nodes(sub)) && RepPath(whole, RootOf(sub, nil), root, nil)
      modifies this`root, PathNodes(whole), Nodes(sub), path
      ensures Holds(root, RemoveUp(whole, sub), nil)
    {
      var top := depth;
      ghost var p, s := whole, sub;
      while top > 0
        invariant 0 <= top <= HEIGHT_LIMIT && path[..top] == Spine(p)
        invariant RemoveUp(p, s) == RemoveUp(whole, sub) && Levels(p)
        invariant PathNodes(p) + Nodes(s) == PathNodes(whole) + Nodes(sub)
        invariant Holds(RootOf(s, nil), s, nil)
        invariant Fits(p, Nodes(s)) && RepPath(p, RootOf(s, nil), root, nil)
      {
        top := top - 1;
        RemoveRound(path, top, p, s);
        p, s := p.up, Rebalance(Close(p, s));
      }
    }

    /** One round of the walk. */
    method RemoveRound(path: array<Node>, top: nat, ghost p: Path<Node>, ghost s: Tree<Node>)
      requires top < path.Length && path[..top + 1] == Spine(p)
      requires p.Step? && p.level >= 1 && Holds(RootOf(s, nil), s, nil) && nil !in PathNodes(p)
      requires Fits(p, Nodes(s)) && RepPath(p, RootOf(s, nil), root, nil)
      modifies this`root, PathNodes(p), Nodes(s), path
      ensures path[..top] == Spine(p.up)
      ensures var t := Rebalance(Close(p, s));
              && t.Fork? && Holds(t.node, t, nil)
              && Nodes(t) == Nodes(s) + {p.node} + Nodes(p.other)
              && Fits(p.up, Nodes(t)) && RepPath(p.up, t.node, root, nil)
    {
      hide Balanced, Ascending, Inorder, AsMap, Rebalance, MinItems, Pow2;
      var up, dir := path[top], false;
      assert up == p.node && path[..top] == Spine(p.up);
      if top != 0 {
        assert path[top - 1] == p.up.node;
        ParentLink(p, s, root, nil);
        dir := path[top - 1].Link(true) == up;
      }
      up := RemoveStep(up, p, s);
      PathNodesAllocated(p.up);
      path[top] := up;
      assert RepPath(p.up, p.node, root, nil);
      Hang(path, top, dir, up, p.up, p.node, Rebalance(Close(p, s)));
    }

    /** The rebalancing of one round. */
    method RemoveStep(up: Node, ghost p: Path<Node>, ghost s: Tree<Node>) returns (r: Node)
      requires p.Step? && p.level >= 1 && up == p.node && Holds(RootOf(s, nil), s, nil) && nil !in PathNodes(p)
      requires Fits(p, Nodes(s)) && RepPath(p, RootOf(s, nil), root, nil)
      modifies Nodes(Close(p, s))
      ensures var t := Rebalance(Close(p, s));
              && t.Fork? && Holds(r, t, nil) && r == t.node
              && Nodes(t) == Nodes(s) + {p.node} + Nodes(p.other) && Fits(p.up, Nodes(t))
      ensures RepPath(p.up, p.node, root, nil)
    {
      ghost var t := Close(p, s);
      assert Nodes(t) == Nodes(s) + {p.node} + Nodes(p.other);
      RebalanceKeeps(t);
      FitsApart(p.up, Nodes(t));
      PathNodesAllocated(p.up);
      r := RebalanceNode(up, nil, t);
    }
  }

  /** A map with a copy callback, one key inserted twice, with any two values: the key is not found. */
  method InsertTwiceWithCopy(first: int, second: int, stored: Item) returns (found: Option<Item>, size: int)
    requires stored.key != 1
    ensures found == None && size == 1
  {
    hide Rep, Balanced, Distinct, AsMap;
    var nil := new Node.Sentinel();
    var m := new Map(nil, true);
    var _, _ := m.Insert(Some(Item(1, first)), stored);
    InorderSize(m.tree);
    var _, _ := m.Insert(Some(Item(1, second)), stored);
    var comparisons;
    found, comparisons := m.Find(Some(Item(1, second)));
    size := m.size;
  }

  /** A removal from a map that has nothing: the counter says minus one. */
  method RemoveFromNothing() returns (size: int)
    ensures size == -1
  {
    var nil := new Node.Sentinel();
    var m := new Map(nil, false);
    var _, _ := m.Remove(Some(Item(1, 0)));
    size := m.size;
  }

  /** `path[top - 1]->link[1] == path[top]` tells on which side the parent holds the child. */
  lemma ParentLink(p: Path<Node>, s: Tree<Node>, root: Node, nil: Node)
    requires p.Step? && p.up.Step? && nil !in PathNodes(p)
    requires Fits(p, Nodes(s)) && RepPath(p.up, p.node, root, nil)
    ensures p.up.node.Link(true) == p.node <==> p.up.dir
  {
    assert RootOf(p.up.other, nil) == nil || RootOf(p.up.other, nil) in Nodes(p.up.other);
  }
}
