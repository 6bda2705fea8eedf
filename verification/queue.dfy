/** The linked queue of `src/queue.c`: a head node that belongs to the queue, and a tail pointer. */
module Queues {
  import opened Sequences
  import opened Options

  class QNode<T> {
    var next: QNode?<T>
    var data: Option<T>

    constructor (data: Option<T>)
      ensures this.data == data && next == null
    {
      this.data, next := data, null;
    }
  }

  /** What is left of `s` after taking elements up to and including the first NULL. */
  ghost function AfterNull<T>(s: seq<Option<T>>): seq<Option<T>> {
    if s == [] then [] else if s[0].None? then s[1..] else AfterNull(s[1..])
  }

  /** The elements of `s` before the first NULL. */
  ghost function BeforeNull<T>(s: seq<Option<T>>): seq<T> {
    if s == [] || s[0].None? then [] else [s[0].value] + BeforeNull(s[1..])
  }

  /** Clearing leaves nothing exactly when no NULL was queued before the last element. */
  lemma {:induction false} ClearsAll<T>(s: seq<Option<T>>)
    ensures AfterNull(s) == [] <==> forall i :: 0 <= i < |s| - 1 ==> s[i].Some?
  {
    if s != [] {
      var rest := s[1..];
      ClearsAll(rest);
      if s[0].Some? {
        assert forall i :: 0 <= i < |rest| ==> rest[i] == s[i + 1];
        if i :| 0 <= i < |rest| - 1 && rest[i].None? { assert s[i + 1].None?; }
      }
    }
  }

  ghost function Present<T>(s: seq<T>): seq<Option<T>> {
    seq(|s|, i requires 0 <= i < |s| => Some(s[i]))
  }

  lemma PresentStep<T>(v: T, rest: seq<T>)
    ensures Present([v] + rest) == [Some(v)] + Present(rest)
  {
  }

  lemma NonePresent<T>()
    ensures Present<T>([]) == []
  {
  }

  /** Every element is released in order, kept, or the NULL that stopped the clearing. */
  lemma {:induction false} ReleasedOrKept<T>(s: seq<Option<T>>)
    ensures s == Present(BeforeNull(s)) + (if None in s then [None] else []) + AfterNull(s)
  {
    hide Present;
    NonePresent<T>();
    if s != [] {
      var rest := s[1..];
      assert s == [s[0]] + rest;
      if s[0].Some? {
        ReleasedOrKept(rest);
        PresentStep(s[0].value, BeforeNull(rest));
        assert None in s <==> None in rest;
        Flatten4([s[0]], Present(BeforeNull(rest)), if None in s then [None] else [], AfterNull(rest));
      } else {
        assert BeforeNull(s) == [] && AfterNull(s) == rest;
      }
    }
  }

  lemma FirstTaken<T>(s: seq<Option<T>>)
    ensures s == [] ==> BeforeNull(s) == [] && AfterNull(s) == []
    ensures s != [] && s[0].None? ==> BeforeNull(s) == [] && AfterNull(s) == s[1..]
    ensures s != [] && s[0].Some? ==>
              BeforeNull(s) == [s[0].value] + BeforeNull(s[1..]) && AfterNull(s) == AfterNull(s[1..])
  {
  }

  class Queue<T> {
    const head: QNode<T>
    var tail: QNode<T>
    var size: int
    ghost var spine: seq<QNode<T>>

    ghost predicate Valid()
      reads this, spine
    {
      && |spine| > 0 && spine[0] == head && tail == spine[|spine| - 1] && size == |spine| - 1
      && (forall i, j :: 0 <= i < j < |spine| ==> spine[i] != spine[j])
      && (forall i :: 0 <= i < |spine| - 1 ==> spine[i].next == spine[i + 1])
      && tail.next == null
    }

    ghost function Contents(): (s: seq<Option<T>>)
      requires |spine| > 0
      reads this, spine
      ensures |s| == |spine| - 1
    {
      seq(|spine| - 1, i requires 0 <= i < |spine| - 1 reads this, spine => spine[i + 1].data)
    }

    /** `queue_init`. */
    constructor ()
      ensures Valid() && Contents() == [] && fresh(spine)
    {
      head := new QNode(None);
      tail, size := head, 0;
      spine := [head];
    }

    /** `queue_push`. */
    method Push(p: Option<T>)
      requires Valid()
      modifies this, spine
      ensures Valid() && Contents() == old(Contents()) + [p]
      ensures old(spine) <= spine && fresh(spine[|old(spine)|..])
    {
      var n := new QNode(p);
      tail.next := n;
      tail := n;
      size := size + 1;
      spine := spine + [n];
      ghost var now, was := Contents(), old(Contents());
      forall i | 0 <= i < |was| ensures now[i] == was[i] {
        assert now[i] == spine[i + 1].data && spine[i + 1] == old(spine[i + 1]);
        assert was[i] == old(spine[i + 1].data);
      }
    }

    /** `queue_pop`: NULL from an empty queue, and from one whose first element is NULL. */
    method Pop() returns (p: Option<T>)
      requires Valid()
      modifies this, spine
      ensures Valid() && (forall i :: 0 <= i < |spine| ==> spine[i] in old(spine))
      ensures old(Contents()) == [] ==> p == None && Contents() == []
      ensures old(Contents()) != [] ==> old(Contents()) == [p] + Contents()
    {
      var first := head.next;
      assert |spine| > 1 ==> spine[0].next == spine[1];
      if first == null {
        return None;
      }
      assert first == spine[1];
      var next := first.next;
      if tail == first {
        tail := head;
      }
      p := first.data;
      head.next := next;
      size := size - 1;
      spine := [head] + spine[2..];
      assert old(Contents()) == [p] + Contents();
    }

    /** `queue_peek`. */
    method Peek() returns (p: Option<T>)
      requires Valid()
      ensures p == if Contents() == [] then None else Contents()[0]
    {
      if head.next == null {
        return None;
      } else {
        return head.next.data;
      }
    }

    /** `queue_isempty`. */
    method IsEmpty() returns (empty: bool)
      requires Valid()
      ensures empty <==> Contents() == []
      ensures empty <==> size == 0
    {
      empty := tail == head;
    }

    /** `queue_clear`, which takes the first NULL for the end; `released` goes to the release routine. */
    method Clear() returns (released: seq<T>)
      requires Valid()
      modifies this, spine
      ensures Valid()
      ensures Contents() == AfterNull(old(Contents())) && released == BeforeNull(old(Contents()))
    {
      hide BeforeNull, AfterNull;
      released := [];
      FirstTaken(Contents());
      var d := Pop();
      while d.Some?
        invariant Valid() && forall i :: 0 <= i < |spine| ==> spine[i] in old(spine)
        invariant d.Some? ==> BeforeNull(old(Contents())) == released + ([d.value] + BeforeNull(Contents()))
        invariant d.Some? ==> AfterNull(old(Contents())) == AfterNull(Contents())
        invariant d.None? ==> BeforeNull(old(Contents())) == released && AfterNull(old(Contents())) == Contents()
        decreases |spine|, d.Some?
      {
        assert released + ([d.value] + BeforeNull(Contents())) == (released + [d.value]) + BeforeNull(Contents());
        released := released + [d.value];
        FirstTaken(Contents());
        d := Pop();
      }
    }
  }
}
