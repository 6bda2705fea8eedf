/** The growable buffer of `src/buffer.c`: writes, reserved space, seeks and reads over a block
    that starts inside the buffer and moves to the heap as it grows. */
module Buffers {
  import opened Numbers
  import opened Options
  import opened ErrorCodes
  import opened Tokens

  const BUFFER_SIZE := 2048

  /** What a caller sees: the position, the end, and the bytes written so far (space that was
      reserved or skipped holds nothing known). */
  datatype View = View(pos: nat, last: nat, known: map<nat, byte>)

  datatype Op = Write(data: seq<byte>) | WriteAt(at: nat, data: seq<byte>) | Reserve(size: nat) | Seek(to: nat)

  ghost function ByteAt(data: seq<byte>, at: nat, i: nat): byte
    requires at <= i < at + |data|
  {
    data[i - at]
  }

  ghost function Cover(known: map<nat, byte>, at: nat, data: seq<byte>): map<nat, byte> {
    known + map i: nat | at <= i < at + |data| :: ByteAt(data, at, i)
  }

  ghost function Step(v: View, op: Op): View {
    match op
    case WriteAt(at, data) => View(v.pos, Max(v.last, at + |data|), Cover(v.known, at, data))
    case Write(data) => View(v.pos + |data|, Max(v.last, v.pos + |data|), Cover(v.known, v.pos, data))
    case Reserve(n) => View(v.pos + n, Max(v.last, v.pos + n), v.known)
    case Seek(to) => if to > v.last then v else v.(pos := to)
  }

  // ---------- Sequences of operations ----------

  ghost function Play(ops: seq<Op>): (v: View)
    ensures v.pos <= v.last
    ensures forall i :: i in v.known ==> i < v.last
  {
    if ops == [] then View(0, 0, map[]) else Step(Play(ops[..|ops| - 1]), ops[|ops| - 1])
  }

  /** Where an operation writes, given the position it starts from. */
  ghost function Start(v: View, op: Op): nat
    requires op.Write? || op.WriteAt?
  {
    if op.Write? then v.pos else op.at
  }

  ghost predicate Covers(v: View, op: Op, i: nat) {
    (op.Write? || op.WriteAt?) && Start(v, op) <= i < Start(v, op) + |op.data|
  }

  lemma StepWrites(v: View, op: Op, i: nat)
    ensures Covers(v, op, i) ==> i in Step(v, op).known && Step(v, op).known[i] == ByteAt(op.data, Start(v, op), i)
    ensures !Covers(v, op, i) && i in v.known ==> i in Step(v, op).known && Step(v, op).known[i] == v.known[i]
  {
  }

  /** A byte written by operation `n` and not written over since is there at the end. */
  lemma {:induction false} LastWriteStays(ops: seq<Op>, n: nat, i: nat)
    requires n < |ops| && Covers(Play(ops[..n]), ops[n], i)
    requires forall k :: n < k < |ops| ==> !Covers(Play(ops[..k]), ops[k], i)
    ensures i in Play(ops).known && Play(ops).known[i] == ByteAt(ops[n].data, Start(Play(ops[..n]), ops[n]), i)
  {
    hide Play, Step, Covers;
    var m := |ops| - 1;
    PlayLast(ops);
    StepWrites(Play(ops[..m]), ops[m], i);
    if n < m {
      Prefixes(ops, m);
      LastWriteStays(ops[..m], n, i);
    }
  }

  lemma PlayLast(ops: seq<Op>)
    requires ops != []
    ensures Play(ops) == Step(Play(ops[..|ops| - 1]), ops[|ops| - 1])
  {
  }

  lemma Prefixes<T>(s: seq<T>, m: nat)
    requires m <= |s|
    ensures forall k :: 0 <= k < m ==> s[..m][..k] == s[..k] && s[..m][k] == s[k]
  {
  }

  lemma Next(ops: seq<Op>, op: Op)
    ensures Play(ops + [op]) == Step(Play(ops), op)
  {
    assert (ops + [op])[..|ops|] == ops;
  }

  /** How far an operation reaches. */
  ghost function Reach(v: View, op: Op): nat {
    match op
    case WriteAt(at, data) => at + |data|
    case Write(data) => v.pos + |data|
    case Reserve(n) => v.pos + n
    case Seek(_) => 0
  }

  ghost predicate Reaches(ops: seq<Op>, k: nat, n: nat) {
    k < |ops| && Reach(Play(ops[..k]), ops[k]) == n
  }

  /** The end is as far as any operation has reached, and no further. */
  lemma {:induction false} EndIsFarthest(ops: seq<Op>)
    ensures forall k: nat, n: nat :: Reaches(ops, k, n) ==> n <= Play(ops).last
    ensures Play(ops).last == 0 || exists k: nat :: Reaches(ops, k, Play(ops).last)
  {
    if ops != [] {
      var m := |ops| - 1;
      EndIsFarthest(ops[..m]);
      Prefixes(ops, m);
      assert forall k: nat, n: nat :: k < m ==> (Reaches(ops[..m], k, n) <==> Reaches(ops, k, n));
      if Play(ops).last == Play(ops[..m]).last {
        if Play(ops).last != 0 {
          var k: nat :| Reaches(ops[..m], k, Play(ops).last);
          assert Reaches(ops, k, Play(ops).last);
        }
      } else {
        assert Reaches(ops, m, Play(ops).last);
      }
    }
  }

  /** `data` is known to be at `at`. */
  ghost predicate Stands(known: map<nat, byte>, at: nat, data: seq<byte>) {
    forall i: nat :: at <= i < at + |data| ==> i in known && known[i] == ByteAt(data, at, i)
  }

  ghost predicate SameBefore(known: map<nat, byte>, other: map<nat, byte>, end: nat) {
    forall i: nat :: i < end ==> (i in known <==> i in other) && (i in known ==> known[i] == other[i])
  }

  lemma Covered(known: map<nat, byte>, at: nat, data: seq<byte>)
    ensures Stands(Cover(known, at, data), at, data) && SameBefore(Cover(known, at, data), known, at)
  {
  }

  lemma CoveredBefore(known: map<nat, byte>, at: nat, head: seq<byte>, data: seq<byte>)
    requires Stands(known, at + |head|, data)
    ensures Stands(Cover(known, at, head), at, head + data)
  {
  }

  /** Space is reserved for what is known only after more has been written: the next write leaves it
      alone, and filling it in later leaves that write alone. */
  lemma {:induction false} ReservedIsKept(ops: seq<Op>, head: seq<byte>, data: seq<byte>)
    ensures var v, u := Play(ops), Play(ops + [Reserve(|head|)] + [Write(data)]);
            && u.pos == v.pos + |head| + |data|
            && SameBefore(u.known, v.known, v.pos + |head|) && Stands(u.known, v.pos + |head|, data)
    ensures var v, w := Play(ops), Play(ops + [Reserve(|head|)] + [Write(data)] + [WriteAt(Play(ops).pos, head)]);
            && w.pos == v.pos + |head| + |data|
            && SameBefore(w.known, v.known, v.pos) && Stands(w.known, v.pos, head + data)
  {
    hide Play, Cover, Stands;
    var v, at := Play(ops), Play(ops).pos;
    var u := Play(ops + [Reserve(|head|)] + [Write(data)]);
    Next(ops, Reserve(|head|));
    Next(ops + [Reserve(|head|)], Write(data));
    Next(ops + [Reserve(|head|)] + [Write(data)], WriteAt(at, head));
    Covered(v.known, at + |head|, data);
    Covered(u.known, at, head);
    CoveredBefore(u.known, at, head, data);
  }

  /** The next write goes to where the last seek has gone, or, if that was refused, to where the
      position was. */
  lemma {:induction false} WritesWhereSought(ops: seq<Op>, to: nat, data: seq<byte>)
    ensures var v, w := Play(ops), Play(ops + [Seek(to)] + [Write(data)]);
            var at := if to <= v.last then to else v.pos;
            && Stands(w.known, at, data) && SameBefore(w.known, v.known, at)
            && w.pos == at + |data| && w.last == Max(v.last, at + |data|)
  {
    hide Play, Cover, Stands, SameBefore;
    Next(ops, Seek(to));
    Next(ops + [Seek(to)], Write(data));
    Covered(Play(ops).known, Play(ops + [Seek(to)]).pos, data);
  }

  ghost function Joined(chunks: seq<seq<byte>>): seq<byte> {
    if chunks == [] then [] else Joined(chunks[..|chunks| - 1]) + chunks[|chunks| - 1]
  }

  ghost function Writes(chunks: seq<seq<byte>>): seq<Op> {
    seq(|chunks|, i requires 0 <= i < |chunks| => Write(chunks[i]))
  }

  ghost function Known(data: seq<byte>): map<nat, byte> {
    map i: nat | i < |data| :: data[i]
  }

  /** Chunks written one after the other make up the buffer, end to end. */
  lemma {:induction false} WritesJoin(chunks: seq<seq<byte>>)
    ensures Play(Writes(chunks)) == View(|Joined(chunks)|, |Joined(chunks)|, Known(Joined(chunks)))
  {
    var ops := Writes(chunks);
    if chunks != [] {
      var front, chunk := chunks[..|chunks| - 1], chunks[|chunks| - 1];
      WritesJoin(front);
      assert ops[..|ops| - 1] == Writes(front);
      assert Cover(Known(Joined(front)), |Joined(front)|, chunk) == Known(Joined(front) + chunk);
    }
  }

  /** `bytes`, read from `at`, agree with what is known to be there. */
  ghost predicate Agrees(known: map<nat, byte>, at: nat, bytes: seq<byte>) {
    forall i :: at <= i < at + |bytes| && i in known ==> ByteAt(bytes, at, i) == known[i]
  }

  lemma ReadsBack(all: seq<byte>, at: nat, bytes: seq<byte>)
    requires at + |bytes| <= |all| && Agrees(Known(all), at, bytes)
    ensures bytes == all[at..at + |bytes|]
  {
    forall j | 0 <= j < |bytes| ensures bytes[j] == all[at + j] {
      assert at + j in Known(all) && ByteAt(bytes, at, at + j) == bytes[j];
    }
  }

  ghost predicate Holds(bytes: seq<byte>, known: map<nat, byte>) {
    forall i :: i in known ==> i < |bytes| && bytes[i] == known[i]
  }

  ghost function Patched(bytes: seq<byte>, at: nat, data: seq<byte>): seq<byte>
    requires at + |data| <= |bytes|
  {
    bytes[..at] + data + bytes[at + |data|..]
  }

  /** Copying data into the block makes it known, and leaves what was known around it. */
  lemma PatchHolds(block: seq<byte>, last: nat, known: map<nat, byte>, at: nat, data: seq<byte>)
    requires last <= |block| && at + |data| <= |block| && Holds(block[..last], known)
    ensures Holds(Patched(block, at, data)[..Max(last, at + |data|)], Cover(known, at, data))
  {
    var after := Patched(block, at, data);
    forall i | i in Cover(known, at, data) ensures i < Max(last, at + |data|) && after[i] == Cover(known, at, data)[i] {
      if i < at || i >= at + |data| { assert i in known && block[..last][i] == known[i]; }
    }
  }

  // ---------- The code ----------

  class Buffer {
    const inline: array<byte>
    var p: array<byte>
    var size: nat
    var last: nat
    var pos: nat
    ghost var known: map<nat, byte>
    /** Bytes that growing has copied so far. */
    ghost var copied: nat

    ghost predicate Valid()
      reads this, p
    {
      && size == p.Length && pos <= last <= size
      && Holds(p[..last], known)
      && copied <= 2 * size
      && BUFFER_SIZE <= size <= Max(BUFFER_SIZE, last + last / 2 + 8)
    }

    ghost function Now(): View
      reads this
    {
      View(pos, last, known)
    }

    /** `buf_init`. */
    constructor ()
      ensures Valid() && Now() == View(0, 0, map[]) && fresh(p)
    {
      inline := new byte[BUFFER_SIZE];
      p, size := inline, BUFFER_SIZE;
      last, pos, known, copied := 0, 0, map[], 0;
    }

    /** `grow`: at least the space asked for, less than half as much again, and every byte kept. */
    method Grow(end: nat)
      requires Valid() && end > size
      modifies this`p, this`size, this`copied
      ensures fresh(p) && size == p.Length && end <= size <= end + end / 2 + 8
      ensures last <= size && p[..last] == old(p[..last])
      ensures copied == old(copied) + last && copied <= 2 * size
    {
      var newSize := size;
      while end > newSize
        invariant newSize == size || (newSize >= size + size / 2 + 8 && newSize <= end + end / 2 + 8)
        decreases end - newSize
      {
        newSize := newSize + newSize / 2 + 8;
      }
      var n := new byte[newSize];
      var i := 0;
      while i < last
        invariant i <= last && n[..i] == p[..i]
        modifies n
      {
        n[i] := p[i];
        i := i + 1;
      }
      p, size := n, newSize;
      copied := copied + last;
    }

    /** The macro `ensure`, for space up to `end` that the caller is about to take. */
    method Ensure(end: nat)
      requires Valid()
      modifies this`p, this`size, this`copied
      ensures p == old(p) || fresh(p)
      ensures size == p.Length && Max(last, end) <= size && copied <= 2 * size
      ensures BUFFER_SIZE <= size <= Max(BUFFER_SIZE, Max(last, end) + Max(last, end) / 2 + 8)
      ensures p[..last] == old(p[..last])
    {
      if end > size {
        Grow(end);
      }
    }

    /** `memcpy(&b->p[at], data, size)`. */
    method Copy(at: nat, data: seq<byte>)
      requires at + |data| <= p.Length
      modifies p
      ensures p[..] == Patched(old(p[..]), at, data)
    {
      var i := 0;
      while i < |data|
        invariant i <= |data| && p[at..at + i] == data[..i]
        invariant forall j :: 0 <= j < p.Length && !(at <= j < at + i) ==> p[j] == old(p[j])
      {
        p[at + i] := data[i];
        i := i + 1;
      }
      assert p[at..at + |data|] == data;
    }

    /** `buf_write_at`. */
    method WriteAt(at: nat, data: seq<byte>)
      requires Valid()
      modifies this, p
      ensures Valid() && Now() == Step(old(Now()), Op.WriteAt(at, data))
      ensures p == old(p) || fresh(p)
    {
      Ensure(at + |data|);
      ghost var before := p[..];
      assert before[..last] == p[..last];
      Copy(at, data);
      PatchHolds(before, last, known, at, data);
      last := Max(last, at + |data|);
      known := Cover(known, at, data);
      assert p[..last] == p[..][..last];
    }

    /** `buf_write`. */
    method Write(data: seq<byte>)
      requires Valid()
      modifies this, p
      ensures Valid() && Now() == Step(old(Now()), Op.Write(data))
      ensures p == old(p) || fresh(p)
    {
      WriteAt(pos, data);
      pos := pos + |data|;
    }

    /** `buf_reserve`: where the reserved space starts. */
    method Reserve(n: nat) returns (at: nat)
      requires Valid()
      modifies this
      ensures Valid() && Now() == Step(old(Now()), Op.Reserve(n)) && at == old(pos) && at + n <= size
      ensures pos == at + n && known == old(known)
      ensures p == old(p) || fresh(p)
    {
      Ensure(pos + n);
      at := pos;
      pos := pos + n;
      last := Max(last, pos);
    }

    /** `buf_seek`. */
    method Seek(to: nat) returns (rc: int)
      requires Valid()
      modifies this`pos
      ensures Valid() && Now() == Step(old(Now()), Op.Seek(to))
      ensures rc == if to > last then ERR_OVERFLOW else SUCCESS
      ensures pos == if rc == SUCCESS then to else old(pos)
    {
      if to > last {
        return ERR_OVERFLOW;
      }
      pos := to;
      return SUCCESS;
    }

    /** `buf_read_from`: the bytes that the pointer it returns leads to. */
    method ReadFrom(at: nat, n: nat) returns (r: Option<seq<byte>>)
      requires Valid()
      ensures r.Some? <==> at + n <= last
      ensures r.Some? ==> |r.value| == n && Agrees(known, at, r.value)
    {
      if at + n > last {
        return None;
      }
      r := Some(p[at..at + n]);
    }

    /** `buf_read`. */
    method Read(n: nat) returns (r: Option<seq<byte>>)
      requires Valid()
      modifies this`pos
      ensures Valid() && known == old(known) && last == old(last)
      ensures r.Some? <==> old(pos) + n <= last
      ensures pos == if r.Some? then old(pos) + n else old(pos)
      ensures r.Some? ==> |r.value| == n && Agrees(known, old(pos), r.value)
    {
      r := ReadFrom(pos, n);
      if r.Some? {
        pos := pos + n;
      }
    }
  }

  method WriteAll(chunks: seq<seq<byte>>) returns (b: Buffer)
    ensures fresh(b) && fresh(b.p) && b.Valid() && b.Now() == Play(Writes(chunks))
  {
    hide Play, Step;
    b := new Buffer();
    assert b.Now() == Play([]) by { Started(); }
    assert Writes(chunks[..0]) == [];
    var k := 0;
    while k < |chunks|
      invariant k <= |chunks| && b.Valid() && b.Now() == Play(Writes(chunks[..k]))
      invariant fresh(b.p)
    {
      assert Writes(chunks[..k + 1])[..k] == Writes(chunks[..k]);
      PlayLast(Writes(chunks[..k + 1]));
      b.Write(chunks[k]);
      k := k + 1;
    }
    assert chunks[..k] == chunks;
  }

  lemma Started()
    ensures Play([]) == View(0, 0, map[])
  {
  }

  /** Chunks written to a fresh buffer and read back with the same sizes come out as they went in. */
  method WriteThenRead(chunks: seq<seq<byte>>) returns (out: seq<seq<byte>>)
    ensures out == chunks
  {
    hide Play, Joined, Known, Agrees;
    var b := WriteAll(chunks);
    WritesJoin(chunks);
    var rc := b.Seek(0);
    out := [];
    assert |Joined(chunks[..0])| == 0 by { NothingJoined(); }
    var k := 0;
    while k < |chunks|
      invariant k <= |chunks| && b.Valid() && out == chunks[..k]
      invariant b.pos == |Joined(chunks[..k])| && b.known == Known(Joined(chunks)) && b.last == |Joined(chunks)|
      modifies b
    {
      JoinedAt(chunks, k);
      ghost var at := b.pos;
      var r := b.Read(|chunks[k]|);
      ReadsBack(Joined(chunks), at, r.value);
      out := out + [r.value];
      k := k + 1;
    }
  }

  lemma NothingJoined()
    ensures Joined([]) == []
  {
  }

  /** Where a chunk lies in the whole. */
  lemma {:induction false} JoinedAt(chunks: seq<seq<byte>>, k: nat)
    requires k < |chunks|
    ensures var at, all := |Joined(chunks[..k])|, Joined(chunks);
            && at + |chunks[k]| <= |all| && all[at..at + |chunks[k]|] == chunks[k]
            && |Joined(chunks[..k + 1])| == at + |chunks[k]|
  {
    var m := |chunks| - 1;
    assert chunks[..k + 1][..k] == chunks[..k];
    if k < m {
      JoinedAt(chunks[..m], k);
      assert chunks[..m][..k] == chunks[..k] && chunks[..m][..k + 1] == chunks[..k + 1];
    } else {
      assert chunks[..k + 1] == chunks;
    }
  }
}
