/** The cursor of `src/map.c`: a current node and the ancestors above it, moved by `start` and
    `move` in either direction. */
module MapCursor {
  import opened Options
  import opened Sequences
  import opened AaTree
  import opened AaPath
  import opened OrderedMap

  class Cursor {
    var it: Node
    var path: array<Node>
    var top: nat
    ghost var p: Path<Node>
    ghost var s: Tree<Node>

    /** Off the end, or at a fork of the map's tree with `path[0..top]` its ancestors. */
    ghost predicate Valid(m: Map)
      reads this, path, m, m.nil, Nodes(m.tree)
    {
      && m.Shape() && Size(m.tree) < CURSOR_LIMIT
      && path.Length == HEIGHT_LIMIT && top <= HEIGHT_LIMIT && path[..top] == Spine(p)
      && it == RootOf(s, m.nil)
      && (if s.Leaf? then p.Top? else Plug(p, s) == m.tree)
    }

    /** The items still to come in direction `dir`. */
    ghost function Ahead(dir: bool): seq<Item>
      reads this
    {
      if s.Leaf? then [] else Walk(Child(s, dir), dir) + Rest(p, dir)
    }

    constructor (m: Map)
      requires m.Shape() && Size(m.tree) < CURSOR_LIMIT
      ensures Valid(m) && s.Leaf? && fresh(path)
    {
      NodesAllocated(m.tree);
      it, top, p, s := m.nil, 0, Top, Leaf;
      path := new Node[HEIGHT_LIMIT](_ => m.nil);
    }

    /** `path[top++] = it; it = it->link[dir]`. */
    method Push(m: Map, dir: bool)
      requires Valid(m) && s.Fork? && Child(s, dir).Fork?
      modifies this, path
      ensures Valid(m) && path == old(path)
      ensures p == Down(old(p), old(s), dir) && s == Child(old(s), dir)
    {
      PathsFit(m.tree);
      PlugHeight(p, s);
      DownPlugs(p, s, dir);
      assert it.Link(dir) == RootOf(Child(s, dir), m.nil) by { RepPlug(p, s, m.root, m.nil); }
      path[top] := it;
      top := top + 1;
      it := it.Link(dir);
      p, s := Down(p, s, dir), Child(s, dir);
    }

    /** The link test of both loops. */
    lemma LinkIsChild(m: Map, dir: bool)
      requires Valid(m) && s.Fork?
      ensures it.Link(dir) == m.nil <==> Child(s, dir).Leaf?
      ensures it.data == Some(s.item)
    {
      RepPlug(p, s, m.root, m.nil);
      PlugNodes(p, s);
    }

    /** `start`, whatever the cursor was used for before: all the way down in direction `dir`, so
        that a walk the other way meets everything. */
    method Start(m: Map, dir: bool) returns (r: Option<Item>)
      requires m.Shape() && Size(m.tree) < CURSOR_LIMIT && path.Length == HEIGHT_LIMIT
      modifies this, path
      ensures Valid(m) && path == old(path)
      ensures m.tree.Leaf? ==> r == None && s.Leaf?
      ensures m.tree.Fork? ==>
                && s.Fork? && r == Some(s.item)
                && Walk(m.tree, !dir) == [s.item] + Ahead(!dir)
                && Ahead(dir) == []
    {
      var back := !dir;
      it := m.root;
      top := 0;
      p, s := Top, m.tree;
      if it != m.nil {
        LinkIsChild(m, dir);
        while it.Link(dir) != m.nil
          invariant Valid(m) && path == old(path) && s.Fork? && Rest(p, dir) == []
          invariant it.Link(dir) == m.nil <==> Child(s, dir).Leaf?
          invariant Walk(s, back) + Rest(p, back) == Walk(m.tree, back)
          decreases Height(s)
        {
          WalkDown(p, s, back);
          StepDown(p, s, dir);
          Push(m, dir);
          LinkIsChild(m, dir);
        }
        LinkIsChild(m, dir);
        Outermost(p, s, back);
      }
      r := it.data;
    }

    /** `move`: to the next item in direction `dir`, or off the end. */
    method Move(m: Map, dir: bool) returns (r: Option<Item>)
      requires Valid(m)
      modifies this, path
      ensures Valid(m) && path == old(path)
      ensures old(Ahead(dir)) == [] ==> r == None && s.Leaf?
      ensures old(Ahead(dir)) != [] ==>
                && s.Fork? && r == Some(s.item)
                && old(Ahead(dir)) == [s.item] + Ahead(dir)
                && Ahead(!dir) == [old(s).item] + old(Ahead(!dir))
    {
      if s.Fork? { LinkIsChild(m, dir); }
      if it.Link(dir) != m.nil {
        Descend(m, dir);
      } else {
        if s.Fork? {
          Outermost(p, s, !dir);
          assert Ahead(dir) == Rest(p, dir);
        }
        Ascend(m, dir);
      }
      if s.Fork? { LinkIsChild(m, dir); }
      r := it.data;
    }

    /** "Continue down this branch". */
    method Descend(m: Map, dir: bool)
      requires Valid(m) && s.Fork? && Child(s, dir).Fork?
      modifies this, path
      ensures Valid(m) && path == old(path) && s.Fork?
      ensures old(Ahead(dir)) == [s.item] + Ahead(dir)
      ensures Ahead(!dir) == [old(s).item] + old(Ahead(!dir))
    {
      ghost var back := !dir;
      ghost var behind := [s.item] + Ahead(back);
      StepDown(p, s, dir);
      Push(m, dir);
      LinkIsChild(m, back);
      while it.Link(!dir) != m.nil
        invariant Valid(m) && path == old(path) && s.Fork?
        invariant it.Link(back) == m.nil <==> Child(s, back).Leaf?
        invariant Walk(s, dir) + Rest(p, dir) == old(Ahead(dir))
        invariant Rest(p, back) == behind
        decreases Height(s)
      {
        WalkDown(p, s, dir);
        Push(m, !dir);
        LinkIsChild(m, back);
      }
      Outermost(p, s, dir);
      assert Walk(Child(s, back), back) + Rest(p, back) == Rest(p, back);
    }

    /** "Move to the next branch". */
    method Ascend(m: Map, dir: bool)
      requires Valid(m) && (s.Fork? ==> Child(s, dir).Leaf?)
      modifies this`it, this`top, this`p, this`s
      ensures Valid(m)
      ensures s.Leaf? ==> old(Rest(p, dir)) == []
      ensures s.Fork? ==>
                && old(s).Fork? && old(Rest(p, dir)) == [s.item] + Ahead(dir)
                && Ahead(!dir) == old(Walk(s, !dir) + Rest(p, !dir))
    {
      ghost var back := !dir;
      ghost var ahead, behind := Rest(p, dir), Walk(s, back) + Rest(p, back);
      var turned := false;
      while !turned
        invariant Valid(m) && (s.Leaf? ==> old(s).Leaf?)
        invariant !turned ==> Rest(p, dir) == ahead && Walk(s, back) + Rest(p, back) == behind
        invariant turned ==>
                    && s.Fork? && old(s).Fork? && ahead == [s.item] + Ahead(dir) && Ahead(back) == behind
        decreases p, !turned
      {
        if top == 0 {
          it := m.nil;
          p, s := Top, Leaf;
          return;
        }
        WalkUp(p, s, dir);
        turned := Above(m, dir);
      }
    }

    /** One step up; true when the way up was not through `link[dir]`. */
    method Above(m: Map, dir: bool) returns (turned: bool)
      requires Valid(m) && s.Fork? && top > 0
      modifies this`it, this`top, this`p, this`s
      ensures Valid(m) && s.Fork? && old(p).Step?
      ensures p == old(p).up && s == Close(old(p), old(s))
      ensures turned <==> old(p).dir != dir
    {
      hide Balanced, Ascending, Inorder, AsMap, Walk, Rest, MinItems, Pow2;
      RepPlug(p, s, m.root, m.nil);
      PlugNodes(p, s);
      assert path[top - 1] == p.node;
      assert path[..top - 1] == Spine(p.up);
      SideOfChild(p, s, m.root, m.nil);
      var last := it;
      top := top - 1;
      it := path[top];
      s := Close(p, s);
      p := p.up;
      turned := last != it.Link(dir);
    }

    /** `map_first` and then `map_next` until the end (`dir` true), or `map_last` and `map_prev`. */
    method Traverse(m: Map, dir: bool) returns (out: seq<Item>)
      requires m.Shape() && Size(m.tree) < CURSOR_LIMIT && path.Length == HEIGHT_LIMIT
      modifies this, path
      ensures Valid(m) && path == old(path) && s.Leaf?
      ensures out == if dir then Inorder(m.tree) else Reversed(Inorder(m.tree))
    {
      var back := !dir;
      ghost var all := Walk(m.tree, !back);
      var r := Start(m, back);
      assert m.tree.Leaf? ==> all == [];
      out := [];
      while r != None
        invariant Valid(m) && path == old(path)
        invariant if r == None then s.Leaf? && out == all
                  else s.Fork? && r == Some(s.item) && out + ([s.item] + Ahead(dir)) == all
        decreases r != None, |Ahead(dir)|
      {
        ghost var rest := Ahead(dir);
        assert out + ([s.item] + rest) == (out + [s.item]) + rest;
        out := out + [r.value];
        r := Move(m, dir);
      }
      WalkIsInorder(m.tree);
    }

    /** A step and a step back lead to the same item, with the same items on both sides. */
    method ThereAndBack(m: Map, dir: bool) returns (there: Option<Item>, back: Option<Item>)
      requires Valid(m) && Ahead(dir) != []
      modifies this, path
      ensures Valid(m) && path == old(path)
      ensures there == Some(old(Ahead(dir))[0]) && back == Some(old(s).item)
      ensures Ahead(dir) == old(Ahead(dir)) && Ahead(!dir) == old(Ahead(!dir))
    {
      ghost var fore, aft, item := Ahead(dir), Ahead(!dir), s.item;
      there := Move(m, dir);
      var reverse := !dir;
      assert Ahead(reverse) == [item] + aft;
      ghost var rest := Ahead(!reverse);
      assert fore == [there.value] + rest;
      back := Move(m, reverse);
      assert Ahead(!reverse) == fore;
      SameTail(item, aft, s.item, Ahead(reverse));
    }
  }

  lemma SameTail<T>(x: T, a: seq<T>, y: T, b: seq<T>)
    requires [x] + a == [y] + b
    ensures x == y && a == b
  {
    assert ([x] + a)[0] == x && ([y] + b)[0] == y;
    assert ([x] + a)[1..] == a && ([y] + b)[1..] == b;
  }

  lemma SideOfChild(p: Path<Node>, s: Tree<Node>, root: Node, nil: Node)
    requires p.Step? && s.Fork? && Fits(p, Nodes(s)) && nil !in Nodes(s)
    requires RepPath(p, RootOf(s, nil), root, nil)
    ensures forall dir :: p.node.Link(dir) == s.node <==> dir == p.dir
  {
    assert RootOf(p.other, nil) == nil || RootOf(p.other, nil) in Nodes(p.other);
  }

  /** A subtree with nothing on the near side starts with its own item. */
  lemma Outermost<N>(p: Path<N>, s: Tree<N>, dir: bool)
    requires s.Fork? && Child(s, !dir).Leaf?
    ensures Walk(s, dir) + Rest(p, dir) == [s.item] + (Walk(Child(s, dir), dir) + Rest(p, dir))
  {
    WalkFork(s, dir);
    assert Walk(Child(s, !dir), dir) == [];
    assert [] + [s.item] == [s.item];
    Flatten3([s.item], Walk(Child(s, dir), dir), Rest(p, dir));
  }

  lemma WalkFork<N>(s: Tree<N>, dir: bool)
    requires s.Fork?
    ensures Walk(s, dir) == Walk(Child(s, !dir), dir) + [s.item] + Walk(Child(s, dir), dir)
  {
  }

  lemma StepDown<N>(p: Path<N>, s: Tree<N>, dir: bool)
    requires s.Fork?
    ensures Rest(Down(p, s, dir), dir) == Rest(p, dir)
    ensures Rest(Down(p, s, dir), !dir) == [s.item] + (Walk(Child(s, !dir), !dir) + Rest(p, !dir))
  {
  }

  /** Stepping down against the direction of a walk does not change what it meets. */
  lemma WalkDown<N>(p: Path<N>, s: Tree<N>, dir: bool)
    requires s.Fork?
    ensures Walk(Child(s, !dir), dir) + Rest(Down(p, s, !dir), dir) == Walk(s, dir) + Rest(p, dir)
    ensures Rest(Down(p, s, !dir), !dir) == Rest(p, !dir)
  {
  }

  /** Stepping up from a subtree that a walk has finished. */
  lemma WalkUp<N>(p: Path<N>, s: Tree<N>, dir: bool)
    requires p.Step?
    ensures p.dir == dir ==>
              && Rest(p.up, dir) == Rest(p, dir)
              && Walk(Close(p, s), !dir) + Rest(p.up, !dir) == Walk(s, !dir) + Rest(p, !dir)
    ensures p.dir != dir ==>
              && Rest(p, dir) == [p.item] + (Walk(Child(Close(p, s), dir), dir) + Rest(p.up, dir))
              && Walk(Child(Close(p, s), !dir), !dir) + Rest(p.up, !dir) == Walk(s, !dir) + Rest(p, !dir)
  {
    var back := !dir;
    CloseBranch(p, s, back);
    RestUp(p, dir);
    RestUp(p, back);
    hide Walk, Rest;
    Flatten4(Walk(s, back), [p.item], Walk(p.other, back), Rest(p.up, back));
    Flatten3([p.item], Walk(p.other, dir), Rest(p.up, dir));
  }

  lemma RestUp<N>(p: Path<N>, dir: bool)
    requires p.Step?
    ensures Rest(p, dir) == if p.dir == dir then Rest(p.up, dir) else [p.item] + Walk(p.other, dir) + Rest(p.up, dir)
  {
  }

}
