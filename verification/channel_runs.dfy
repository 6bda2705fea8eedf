/** Whole runs of one channel of `src/lc_channel.c`: which write meets which read, what is lost,
    and what becomes of every callback. */
module ChannelRuns {
  import opened Options
  import opened ErrorCodes
  import opened Sequences
  import opened Channels

  /** What has happened on a channel: the messages and the ids of the accepted writes, the ids of the
      accepted reads, the ids of both as they came, all callbacks, and the messages no reader will get. */
  datatype History = History(writes: seq<int>, writers: seq<nat>, readers: seq<nat>, asked: seq<nat>, calls: seq<Call>,
                             dropped: seq<int>)

  ghost predicate Accepted(s: State, op: Op) {
    !op.DoClose? && s.status.Open?
  }

  /** A read that finds both a buffered message and a waiting writer. */
  ghost predicate Collides(s: State, op: Op) {
    op.DoRead? && s.status.Open? && s.messages != [] && s.writers != []
  }

  ghost function Note(h: History, s: State, op: Op): History
    requires Consistent(s)
  {
    History(
      if op.DoWrite? && Accepted(s, op) then h.writes + [op.message] else h.writes,
      if op.DoWrite? && Accepted(s, op) then h.writers + [op.id] else h.writers,
      if op.DoRead? && Accepted(s, op) then h.readers + [op.id] else h.readers,
      if Accepted(s, op) then h.asked + [op.id] else h.asked,
      h.calls + Step(s, op).calls,
      if Collides(s, op) then h.dropped + [s.writers[0].message] else h.dropped)
  }

  ghost function Run(size: int, ops: seq<Op>): (r: (State, History))
    ensures Consistent(r.0)
  {
    if ops == [] then (Fresh(size), History([], [], [], [], [], []))
    else
      var (s, h) := Run(size, ops[..|ops| - 1]);
      var op := ops[|ops| - 1];
      StepConsistent(s, op);
      (Step(s, op).state, Note(h, s, op))
  }

  ghost predicate NeverClosed(ops: seq<Op>) {
    forall i :: 0 <= i < |ops| ==> !ops[i].DoClose?
  }

  // ---------- Readers and their messages ----------

  /** The callbacks with one event, in order. */
  ghost function Told(calls: seq<Call>, event: Event): seq<Call> {
    if calls == [] then []
    else Told(calls[..|calls| - 1], event) + (if calls[|calls| - 1].event == event then [calls[|calls| - 1]] else [])
  }

  /** Those that hand a message to a reader. */
  ghost function Delivered(calls: seq<Call>): seq<Call> {
    Told(calls, Read)
  }

  /** Those that tell a writer that its message is on its way. */
  ghost function Confirmed(calls: seq<Call>): seq<Call> {
    Told(calls, Write)
  }

  ghost function Ids(calls: seq<Call>): seq<nat> {
    seq(|calls|, i requires 0 <= i < |calls| => calls[i].id)
  }

  ghost function Contents(calls: seq<Call>): seq<int> {
    seq(|calls|, i requires 0 <= i < |calls| => if calls[i].message.Some? then calls[i].message.value else 0)
  }

  ghost function Waiting(ws: seq<Writer>): seq<int> {
    seq(|ws|, i requires 0 <= i < |ws| => ws[i].message)
  }

  ghost function WriterIds(ws: seq<Writer>): seq<nat> {
    seq(|ws|, i requires 0 <= i < |ws| => ws[i].id)
  }

  lemma ToldMore(calls: seq<Call>, c: Call, event: Event)
    ensures Told(calls + [c], event) == Told(calls, event) + (if c.event == event then [c] else [])
  {
    assert (calls + [c])[..|calls|] == calls;
  }

  /** Every callback is of one of the three kinds. */
  lemma {:induction false} ToldEach(calls: seq<Call>)
    ensures multiset(Ids(calls))
         == multiset(Ids(Delivered(calls))) + multiset(Ids(Confirmed(calls))) + multiset(Ids(Told(calls, Close)))
  {
    hide Ids;
    if calls == [] {
      One(Call(0, Close, None));
    } else {
      var n := |calls| - 1;
      ToldEach(calls[..n]);
      assert calls == calls[..n] + [calls[n]];
      ContentsJoin(calls[..n], [calls[n]]);
      ContentsJoin(Told(calls[..n], calls[n].event), [calls[n]]);
      One(calls[n]);
      assert forall event :: Told(calls[..n], event) + [] == Told(calls[..n], event);
    }
  }

  lemma {:induction false} ToldNone(calls: seq<Call>, event: Event)
    requires forall c :: c in calls ==> c.event != event
    ensures Told(calls, event) == []
  {
    if calls != [] { ToldNone(calls[..|calls| - 1], event); }
  }

  /** A close tells everybody it calls that the channel is closed, any other operation nobody. */
  lemma {:induction false} ToldByStep(s: State, op: Op)
    requires Consistent(s)
    ensures var calls := Step(s, op).calls;
            && multiset(Ids(Delivered(calls))) + multiset(Ids(Confirmed(calls)))
               == (if op.DoClose? then multiset{} else multiset(Ids(calls)))
            && multiset(Ids(Told(calls, Close))) == (if op.DoClose? then multiset(Ids(calls)) else multiset{})
  {
    hide Told, Step, Ids;
    var calls := Step(s, op).calls;
    OnlyCloseTells(s, op);
    ToldEach(calls);
    One(Call(0, Close, None));
    if op.DoClose? {
      ToldNone(calls, Read);
      ToldNone(calls, Write);
    } else {
      ToldNone(calls, Close);
    }
  }

  /** The deliveries that one step adds. */
  ghost function Handed(s: State, op: Op): seq<Call>
    requires Consistent(s)
  {
    match op
    case DoWrite(_, m) => if s.status.Open? && s.readers != [] then [Call(s.readers[0], Read, Some(m))] else []
    case DoRead(id) =>
      if s.status.Open? && s.messages != [] then [Call(id, Read, Some(s.messages[0]))]
      else if s.status.Open? && s.writers != [] then [Call(id, Read, Some(s.writers[0].message))]
      else []
    case DoClose => []
  }

  /** The writers that one step tells: the one that comes, unless it is left waiting, and the first
      that waits, when a read comes. */
  ghost function Freed(s: State, op: Op): seq<Call>
    requires Consistent(s)
  {
    match op
    case DoWrite(id, m) =>
      if s.status.Open? && (s.readers != [] || |s.messages| < s.bufSize) then [Call(id, Write, Some(m))] else []
    case DoRead(_) =>
      if s.status.Open? && s.writers != [] then
        [Call(s.writers[0].id, Write, Some(if s.messages != [] then s.messages[0] else s.writers[0].message))]
      else []
    case DoClose => []
  }

  /** Nobody is told anything else, and nobody but by a close that the channel is closed. */
  lemma {:induction false} StepTells(calls: seq<Call>, s: State, op: Op, event: Event)
    requires Consistent(s) && !op.DoClose?
    ensures Told(calls + Step(s, op).calls, event)
         == Told(calls, event) + (match event case Read => Handed(s, op) case Write => Freed(s, op) case Close => [])
  {
    hide Told;
    var more := Step(s, op).calls;
    if more == [] {
      assert calls + more == calls;
    } else if |more| == 1 {
      assert calls + more == calls + [more[0]];
      ToldMore(calls, more[0], event);
    } else {
      assert calls + more == calls + [more[0]] + [more[1]];
      ToldMore(calls, more[0], event);
      ToldMore(calls + [more[0]], more[1], event);
    }
  }

  lemma StepDelivers(calls: seq<Call>, s: State, op: Op)
    requires Consistent(s) && !op.DoClose?
    ensures Delivered(calls + Step(s, op).calls) == Delivered(calls) + Handed(s, op)
  {
    StepTells(calls, s, op, Read);
  }

  /** Everything written is delivered, buffered or waiting, in the order of writing. */
  ghost predicate InOrder(s: State, h: History) {
    h.writes == Contents(Delivered(h.calls)) + s.messages + Waiting(s.writers)
  }

  /** Everything written is delivered, buffered, waiting or dropped. */
  ghost predicate Accounted(s: State, h: History) {
    Conserved(h.writes, Contents(Delivered(h.calls)), s.messages, Waiting(s.writers), h.dropped)
  }

  ghost predicate Conserved(writes: seq<int>, got: seq<int>, buffered: seq<int>, waiting: seq<int>, dropped: seq<int>) {
    multiset(writes) == multiset(got) + multiset(buffered) + multiset(waiting) + multiset(dropped)
  }

  /** While nothing is dropped, writers wait only behind a full buffer. */
  ghost predicate Tidy(s: State, h: History) {
    h.dropped == [] ==> InOrder(s, h) && (s.writers != [] ==> |s.messages| == s.bufSize)
  }

  lemma ContentsJoin(a: seq<Call>, b: seq<Call>)
    ensures Contents(a + b) == Contents(a) + Contents(b) && Ids(a + b) == Ids(a) + Ids(b)
  {
  }

  lemma OrderWrite(s: State, h: History, id: nat, m: int)
    requires Consistent(s) && s.status.Open? && Tidy(s, h)
    ensures var op := DoWrite(id, m); Tidy(Step(s, op).state, Note(h, s, op))
  {
    hide Told, Delivered, Contents, Waiting;
    var op, got := DoWrite(id, m), Contents(Delivered(h.calls));
    StepDelivers(h.calls, s, op);
    ContentsJoin(Delivered(h.calls), Handed(s, op));
    LastWaiting(s.writers, Writer(id, m));
    One(Call(if s.readers != [] then s.readers[0] else id, Read, Some(m)));
    NoneWaiting();
    Lined(got, s.messages, Waiting(s.writers), m);
  }

  lemma NoneWaiting()
    ensures Waiting([]) == [] && WriterIds([]) == []
  {
  }

  lemma Lined(got: seq<int>, buffered: seq<int>, waiting: seq<int>, m: int)
    ensures got + [] == got
    ensures got + buffered + (waiting + [m]) == got + buffered + waiting + [m]
    ensures waiting == [] ==> got + (buffered + [m]) + waiting == got + buffered + waiting + [m]
    ensures buffered == [] && waiting == [] ==> got + [m] + buffered + waiting == got + buffered + waiting + [m]
    ensures buffered != [] ==> got + [buffered[0]] + buffered[1..] + waiting == got + buffered + waiting
    ensures buffered == [] && waiting != [] ==> got + [waiting[0]] + buffered + waiting[1..] == got + buffered + waiting
  {
    if buffered != [] { Popped(buffered); }
    if waiting != [] { Popped(waiting); }
  }

  lemma OrderRead(s: State, h: History, id: nat)
    requires Consistent(s) && s.status.Open? && Tidy(s, h)
    ensures var op := DoRead(id); Tidy(Step(s, op).state, Note(h, s, op))
  {
    hide Told, Delivered, Contents, Waiting;
    var op, got := DoRead(id), Contents(Delivered(h.calls));
    var handed := Handed(s, op);
    StepDelivers(h.calls, s, op);
    ContentsJoin(Delivered(h.calls), handed);
    if s.writers != [] {
      OneWaiting(s.writers);
      assert Waiting(s.writers)[1..] == Waiting(s.writers[1..]);
    }
    One(if handed != [] then handed[0] else Call(id, Read, None));
    Lined(got, s.messages, Waiting(s.writers), 0);
  }

  lemma One(c: Call)
    ensures Ids([c]) == [c.id] && (c.message.Some? ==> Contents([c]) == [c.message.value])
    ensures Ids([]) == [] && Contents([]) == []
  {
  }

  lemma OneWaiting(ws: seq<Writer>)
    requires ws != []
    ensures Waiting(ws) == [ws[0].message] + Waiting(ws[1..]) && Waiting(ws) != []
    ensures WriterIds(ws) == [ws[0].id] + WriterIds(ws[1..]) && WriterIds(ws) != []
  {
  }

  lemma LastWaiting(ws: seq<Writer>, w: Writer)
    ensures Waiting(ws + [w]) == Waiting(ws) + [w.message]
    ensures WriterIds(ws + [w]) == WriterIds(ws) + [w.id]
  {
  }

  lemma AccountWrite(s: State, h: History, id: nat, m: int)
    requires Consistent(s) && s.status.Open? && Accounted(s, h)
    ensures var op := DoWrite(id, m); Accounted(Step(s, op).state, Note(h, s, op))
  {
    hide Told, Delivered, Contents, Waiting, Conserved;
    var op, got := DoWrite(id, m), Contents(Delivered(h.calls));
    StepDelivers(h.calls, s, op);
    ContentsJoin(Delivered(h.calls), Handed(s, op));
    LastWaiting(s.writers, Writer(id, m));
    Written(h.writes, got, s.messages, Waiting(s.writers), h.dropped, m);
    One(Call(if s.readers != [] then s.readers[0] else id, Read, Some(m)));
    assert got + [] == got;
  }

  lemma Written(writes: seq<int>, got: seq<int>, buffered: seq<int>, waiting: seq<int>, dropped: seq<int>, m: int)
    requires Conserved(writes, got, buffered, waiting, dropped)
    ensures Conserved(writes + [m], got + [m], buffered, waiting, dropped)
    ensures Conserved(writes + [m], got, buffered + [m], waiting, dropped)
    ensures Conserved(writes + [m], got, buffered, waiting + [m], dropped)
  {
  }

  lemma AccountRead(s: State, h: History, id: nat)
    requires Consistent(s) && s.status.Open? && Accounted(s, h)
    ensures var op := DoRead(id); Accounted(Step(s, op).state, Note(h, s, op))
  {
    hide Told, Delivered, Contents, Waiting, Conserved;
    var op, got := DoRead(id), Contents(Delivered(h.calls));
    var handed := Handed(s, op);
    StepDelivers(h.calls, s, op);
    ContentsJoin(Delivered(h.calls), handed);
    Taken(h.writes, got, s.messages, Waiting(s.writers), h.dropped);
    if s.writers != [] {
      OneWaiting(s.writers);
      assert Waiting(s.writers)[1..] == Waiting(s.writers[1..]);
    }
    One(if handed != [] then handed[0] else Call(id, Read, None));
    assert got + [] == got;
  }

  lemma Taken(writes: seq<int>, got: seq<int>, buffered: seq<int>, waiting: seq<int>, dropped: seq<int>)
    requires Conserved(writes, got, buffered, waiting, dropped)
    ensures buffered != [] ==> Conserved(writes, got + [buffered[0]], buffered[1..], waiting, dropped)
    ensures waiting != [] ==> Conserved(writes, got + [waiting[0]], buffered, waiting[1..], dropped)
    ensures buffered != [] && waiting != [] ==>
              Conserved(writes, got + [buffered[0]], buffered[1..], waiting[1..], dropped + [waiting[0]])
  {
    if buffered != [] { Popped(buffered); }
    if waiting != [] { Popped(waiting); }
  }

  lemma OpenStep(s: State, h: History, op: Op)
    requires Consistent(s) && s.status.Open? && !op.DoClose?
    requires h.readers == Ids(Delivered(h.calls)) + s.readers
    ensures var t, g := Step(s, op).state, Note(h, s, op);
            && t.status.Open? && t.bufSize == s.bufSize
            && g.readers == Ids(Delivered(g.calls)) + t.readers
  {
    hide Told, Delivered, Ids;
    StepDelivers(h.calls, s, op);
    ContentsJoin(Delivered(h.calls), Handed(s, op));
    var got, c, t := Ids(Delivered(h.calls)), Handed(s, op), Step(s, op).state;
    One(if c == [] then Call(0, Read, None) else c[0]);
    if c != [] && op.DoWrite? {
      Popped(s.readers);
      Flatten3(got, [s.readers[0]], s.readers[1..]);
    }
    assert Note(h, s, op).readers == got + Ids(c) + t.readers;
  }

  lemma {:induction false} OpenRun(size: int, ops: seq<Op>)
    requires NeverClosed(ops)
    ensures var (s, h) := Run(size, ops);
            && s.status.Open? && s.bufSize == Fresh(size).bufSize
            && h.readers == Ids(Delivered(h.calls)) + s.readers
            && Tidy(s, h) && Accounted(s, h)
  {
    if ops != [] {
      var prefix, op := ops[..|ops| - 1], ops[|ops| - 1];
      OpenRun(size, prefix);
      var (s, h) := Run(size, prefix);
      OpenStep(s, h, op);
      match op
      case DoWrite(id, m) => OrderWrite(s, h, id, m); AccountWrite(s, h, id, m);
      case DoRead(id) => OrderRead(s, h, id); AccountRead(s, h, id);
    }
  }

  /** Each accepted read is served in turn: delivery `k` goes to read `k`; and while no read
      has collided, it carries the message of write `k`. */
  lemma Matching(size: int, ops: seq<Op>, k: nat)
    requires NeverClosed(ops)
    ensures var (s, h) := Run(size, ops);
            k < |Delivered(h.calls)| ==>
              && k < |h.readers| && Delivered(h.calls)[k].id == h.readers[k]
              && (h.dropped == [] ==> k < |h.writes| && Contents(Delivered(h.calls))[k] == h.writes[k])
  {
    OpenRun(size, ops);
    var (s, h) := Run(size, ops);
    if k < |Delivered(h.calls)| {
      assert Ids(Delivered(h.calls))[k] == h.readers[k];
    }
  }

  // ---------- Writers and what they are told ----------

  /** Every accepted write is told so or waits; and while nothing is dropped, writers are told in the
      order they came, each with its own message. */
  ghost predicate Confirming(s: State, h: History) {
    && Shared(h.writers, Ids(Confirmed(h.calls)), WriterIds(s.writers))
    && (h.dropped == [] ==>
          && h.writers == Ids(Confirmed(h.calls)) + WriterIds(s.writers)
          && h.writes == Contents(Confirmed(h.calls)) + Waiting(s.writers))
  }

  ghost predicate Shared(writers: seq<nat>, told: seq<nat>, waiting: seq<nat>) {
    multiset(writers) == multiset(told) + multiset(waiting)
  }

  lemma ConfirmWrite(s: State, h: History, id: nat, m: int)
    requires Consistent(s) && s.status.Open? && Tidy(s, h) && Confirming(s, h)
    ensures var op := DoWrite(id, m); Confirming(Step(s, op).state, Note(h, s, op))
  {
    hide Told, Ids, Contents, Waiting, WriterIds, Delivered, InOrder, Shared, Step;
    var op, told := DoWrite(id, m), Confirmed(h.calls);
    StepTells(h.calls, s, op, Write);
    Lines(s, id, m);
    ContentsJoin(told, Freed(s, op));
    One(Call(id, Write, Some(m)));
    LastWaiting(s.writers, Writer(id, m));
    NoneWaiting();
    Grown(h.writers, Ids(told), WriterIds(s.writers), id);
    Queued(Ids(told), WriterIds(s.writers), id);
    Queued(Contents(told), Waiting(s.writers), m);
  }

  /** A writer joins the line just when it is not told at once. */
  lemma Lines(s: State, id: nat, m: int)
    requires Consistent(s) && s.status.Open?
    ensures Step(s, DoWrite(id, m)).state.writers
         == if Freed(s, DoWrite(id, m)) == [] then s.writers + [Writer(id, m)] else s.writers
  {
  }

  lemma ConfirmRead(s: State, h: History, id: nat)
    requires Consistent(s) && s.status.Open? && Tidy(s, h) && Confirming(s, h)
    ensures var op := DoRead(id); Confirming(Step(s, op).state, Note(h, s, op))
  {
    hide Told, Ids, Contents, Waiting, WriterIds, Delivered, InOrder, Shared;
    var op, told := DoRead(id), Confirmed(h.calls);
    StepTells(h.calls, s, op, Write);
    ContentsJoin(told, Freed(s, op));
    Queued(Ids(told), WriterIds(s.writers), 0);
    Queued(Contents(told), Waiting(s.writers), 0);
    if s.writers != [] {
      OneWaiting(s.writers);
      One(Freed(s, op)[0]);
      assert WriterIds(s.writers)[1..] == WriterIds(s.writers[1..]);
      assert Waiting(s.writers)[1..] == Waiting(s.writers[1..]);
      Grown(h.writers, Ids(told), WriterIds(s.writers), 0);
    } else {
      One(Call(id, Read, None));
    }
  }

  lemma Grown(writers: seq<nat>, told: seq<nat>, waiting: seq<nat>, id: nat)
    requires Shared(writers, told, waiting)
    ensures Shared(writers + [id], told + [id], waiting) && Shared(writers + [id], told, waiting + [id])
    ensures waiting != [] ==> Shared(writers, told + [waiting[0]], waiting[1..])
  {
    if waiting != [] { Popped(waiting); }
  }

  lemma Queued<T>(told: seq<T>, waiting: seq<T>, x: T)
    ensures told + [] == told
    ensures told + (waiting + [x]) == told + waiting + [x]
    ensures waiting == [] ==> told + [x] + waiting == told + waiting + [x]
    ensures waiting != [] ==> told + [waiting[0]] + waiting[1..] == told + waiting
  {
    if waiting != [] { Popped(waiting); }
  }

  /** Over every run without a close: every accepted write is told so once, or its writer waits;
      nobody is told that the channel is closed; and while no read has collided the writers are told
      in turn, each with its own message. */
  lemma {:induction false} WritersTold(size: int, ops: seq<Op>)
    requires NeverClosed(ops)
    ensures var (s, h) := Run(size, ops); Confirming(s, h) && Told(h.calls, Close) == []
  {
    hide Step, Note, Confirming, Told, Tidy, Accounted;
    if ops == [] {
      NobodyTold(size);
    } else {
      var prefix, op := ops[..|ops| - 1], ops[|ops| - 1];
      WritersTold(size, prefix);
      OpenRun(size, prefix);
      var (s, h) := Run(size, prefix);
      StepTells(h.calls, s, op, Close);
      NoteCalls(h, s, op);
      match op
      case DoWrite(id, m) => ConfirmWrite(s, h, id, m);
      case DoRead(id) => ConfirmRead(s, h, id);
    }
  }

  lemma NobodyTold(size: int)
    ensures var (s, h) := Run(size, []); Confirming(s, h) && Told(h.calls, Close) == []
  {
  }

  lemma NoteCalls(h: History, s: State, op: Op)
    requires Consistent(s)
    ensures Note(h, s, op).calls == h.calls + Step(s, op).calls
  {
  }

  // ---------- When order is kept ----------

  /** No read of the run finds both a buffered message and a waiting writer. */
  ghost predicate NoCollision(size: int, ops: seq<Op>) {
    ops == [] ||
    (NoCollision(size, ops[..|ops| - 1]) && !Collides(Run(size, ops[..|ops| - 1]).0, ops[|ops| - 1]))
  }

  lemma {:induction false} DroppedCounts(size: int, ops: seq<Op>)
    ensures Run(size, ops).1.dropped == [] <==> NoCollision(size, ops)
  {
    hide Step;
    if ops != [] { DroppedCounts(size, ops[..|ops| - 1]); }
  }

  /** First in, first out, and nothing lost: just when no read collides. */
  lemma {:induction false} FifoExactly(size: int, ops: seq<Op>)
    requires NeverClosed(ops)
    ensures InOrder(Run(size, ops).0, Run(size, ops).1) <==> NoCollision(size, ops)
  {
    hide Run, Delivered, Contents, Waiting;
    OpenRun(size, ops);
    DroppedCounts(size, ops);
    var (s, h) := Run(size, ops);
    if InOrder(s, h) {
      NoneDropped(h.writes, Contents(Delivered(h.calls)), s.messages, Waiting(s.writers), h.dropped);
    }
  }

  lemma NoneDropped(writes: seq<int>, got: seq<int>, buffered: seq<int>, waiting: seq<int>, dropped: seq<int>)
    requires Conserved(writes, got, buffered, waiting, dropped) && writes == got + buffered + waiting
    ensures dropped == []
  {
    assert multiset(got + buffered + waiting) == multiset(got + buffered) + multiset(waiting);
    assert |multiset(writes) + multiset(dropped)| == |multiset(writes)| + |multiset(dropped)|;
  }

  lemma {:induction false} KeepsSize(size: int, ops: seq<Op>)
    ensures Run(size, ops).0.bufSize == Fresh(size).bufSize
  {
    if ops != [] { KeepsSize(size, ops[..|ops| - 1]); }
  }

  lemma {:induction false} UnbufferedNeverCollides(ops: seq<Op>)
    ensures NoCollision(0, ops)
  {
    hide Step, Note;
    if ops != [] {
      UnbufferedNeverCollides(ops[..|ops| - 1]);
      KeepsSize(0, ops[..|ops| - 1]);
    }
  }

  /** The writes asked for, less the reads asked for. */
  ghost function Lead(ops: seq<Op>): int {
    if ops == [] then 0
    else Lead(ops[..|ops| - 1]) + (match ops[|ops| - 1] case DoWrite(_, _) => 1 case DoRead(_) => -1 case DoClose => 0)
  }

  /** Whenever a read is asked for, the buffer can hold all the messages not yet asked for. */
  ghost predicate ReadInTime(room: nat, ops: seq<Op>) {
    ops == [] ||
    (ReadInTime(room, ops[..|ops| - 1]) && (ops[|ops| - 1].DoRead? ==> Lead(ops[..|ops| - 1]) <= room))
  }

  /** In a run without collisions the queues hold what the lead says. */
  ghost predicate Led(s: State, lead: int) {
    && |s.messages| + |s.writers| - |s.readers| == lead
    && (s.writers != [] ==> |s.messages| == s.bufSize)
  }

  lemma LedStep(s: State, op: Op, lead: int)
    requires Consistent(s) && s.status.Open? && !op.DoClose? && Led(s, lead)
    ensures Collides(s, op) <==> op.DoRead? && s.bufSize > 0 && lead > s.bufSize
    ensures !Collides(s, op) ==> Led(Step(s, op).state, if op.DoWrite? then lead + 1 else lead - 1)
  {
  }

  /** Whether some read of a run collides can be told from the operations alone. */
  lemma {:induction false} CollidesExactly(size: int, ops: seq<Op>)
    requires NeverClosed(ops)
    ensures var room := Fresh(size).bufSize;
            && (NoCollision(size, ops) <==> room == 0 || ReadInTime(room, ops))
            && (NoCollision(size, ops) ==> Led(Run(size, ops).0, Lead(ops)))
  {
    hide Step, Note, Collides, Led;
    if ops == [] {
      NothingLeads(size);
    } else {
      var prefix, op := ops[..|ops| - 1], ops[|ops| - 1];
      CollidesExactly(size, prefix);
      StaysOpen(size, prefix);
      if NoCollision(size, prefix) { LedStep(Run(size, prefix).0, op, Lead(prefix)); }
    }
  }

  lemma NothingLeads(size: int)
    ensures Led(Fresh(size), 0)
  {
  }

  lemma {:induction false} StaysOpen(size: int, ops: seq<Op>)
    requires NeverClosed(ops)
    ensures Run(size, ops).0.status.Open? && Run(size, ops).0.bufSize == Fresh(size).bufSize
  {
    KeepsSize(size, ops);
    if ops != [] { StaysOpen(size, ops[..|ops| - 1]); }
  }

  /** First in, first out, and nothing lost: just when the channel has no buffer, or no read is
      asked for while the writes lead by more than the buffer holds. */
  lemma FifoByCounting(size: int, ops: seq<Op>)
    requires NeverClosed(ops)
    ensures size >= 0 ==> (InOrder(Run(size, ops).0, Run(size, ops).1) <==> size == 0 || ReadInTime(size, ops))
    ensures size < 0 ==> (InOrder(Run(size, ops).0, Run(size, ops).1) <==> ReadInTime(INT_MAX, ops))
  {
    FifoExactly(size, ops);
    CollidesExactly(size, ops);
  }

  /** An unbuffered channel loses and reorders nothing; an unlimited one just as long as no read
      finds more than INT_MAX messages outstanding. */
  lemma {:induction false} FifoChannels(size: int, ops: seq<Op>)
    requires NeverClosed(ops)
    ensures size == 0 ==> InOrder(Run(size, ops).0, Run(size, ops).1)
    ensures size < 0 ==> (InOrder(Run(size, ops).0, Run(size, ops).1) <==> ReadInTime(INT_MAX, ops))
  {
    FifoByCounting(size, ops);
  }

  ghost function ManyWrites(n: nat): seq<Op> {
    if n == 0 then [] else ManyWrites(n - 1) + [DoWrite(n, n)]
  }

  lemma {:induction false} ManyWritesLead(n: nat)
    ensures NeverClosed(ManyWrites(n)) && NoRead(ManyWrites(n)) && Lead(ManyWrites(n)) == n
  {
    if n > 0 {
      ManyWritesLead(n - 1);
      assert ManyWrites(n)[..|ManyWrites(n)| - 1] == ManyWrites(n - 1);
    }
  }

  ghost predicate NoRead(ops: seq<Op>) {
    forall i :: 0 <= i < |ops| ==> !ops[i].DoRead?
  }

  lemma {:induction false} NeverLate(room: nat, ops: seq<Op>)
    requires NoRead(ops)
    ensures ReadInTime(room, ops)
  {
    if ops != [] { NeverLate(room, ops[..|ops| - 1]); }
  }

  /** A channel made for `size` messages holds that many: while no read has collided, its buffer has
      as many as the writes lead by, up to `size`; a writer waits just when they lead by more, and
      a reader just when the reads lead. */
  lemma {:induction false} HoldsItsSize(size: nat, ops: seq<Op>)
    requires NeverClosed(ops) && (size == 0 || ReadInTime(size, ops))
    ensures var s, lead := Run(size, ops).0, Lead(ops);
            && |s.messages| == (if lead < 0 then 0 else if lead <= size then lead else size)
            && |s.writers| == (if lead > size then lead - size else 0)
            && |s.readers| == (if lead < 0 then -lead else 0)
  {
    hide Run;
    CollidesExactly(size, ops);
    StaysOpen(size, ops);
  }

  /** Of writes alone, `size` are buffered before the first has to wait. */
  lemma HoldsManyWrites(size: nat, n: nat)
    ensures Run(size, ManyWrites(n)).0.writers == [] <==> n <= size
  {
    hide Run, ManyWrites;
    ManyWritesLead(n);
    NeverLate(size, ManyWrites(n));
    HoldsItsSize(size, ManyWrites(n));
  }

  /** Every channel with a buffer can lose a message: one write too many, then a read. */
  lemma {:induction false} EveryBufferLoses(size: int)
    requires size != 0
    ensures var ops := ManyWrites((if size < 0 then INT_MAX else size) + 1) + [DoRead(0)];
            NeverClosed(ops) && !InOrder(Run(size, ops).0, Run(size, ops).1)
  {
    hide Run, ManyWrites, InOrder;
    var n := if size < 0 then INT_MAX else size;
    var writes := ManyWrites(n + 1);
    ManyWritesLead(n + 1);
    assert (writes + [DoRead(0)])[..|writes|] == writes;
    FifoByCounting(size, writes + [DoRead(0)]);
  }

  lemma Extend(size: int, ops: seq<Op>, op: Op)
    ensures var (s, h) := Run(size, ops); Run(size, ops + [op]) == (Step(s, op).state, Note(h, s, op))
  {
    assert (ops + [op])[..|ops|] == ops;
  }

  lemma StartsFresh(size: int)
    ensures Run(size, []) == (Fresh(size), History([], [], [], [], [], []))
  {
  }

  lemma OneWrite(size: int)
    requires Fresh(size).bufSize == 1
    ensures Run(size, [DoWrite(0, 10)])
         == (State(1, Open, [10], [], []), History([10], [0], [], [0], [Call(0, Write, Some(10))], []))
  {
    hide Run;
    StartsFresh(size);
    Extend(size, [], DoWrite(0, 10));
    assert [] + [DoWrite(0, 10)] == [DoWrite(0, 10)];
    var s := Fresh(size);
    assert s.messages + [10] == [10] && [] + [0 as nat] == [0];
    assert [] + [Call(0, Write, Some(10))] == [Call(0, Write, Some(10))];
  }

  lemma TwoWrites(size: int)
    requires Fresh(size).bufSize == 1
    ensures Run(size, [DoWrite(0, 10), DoWrite(1, 20)])
         == (State(1, Open, [10], [], [Writer(1, 20)]),
             History([10, 20], [0, 1], [], [0, 1], [Call(0, Write, Some(10))], []))
  {
    hide Run;
    OneWrite(size);
    Extend(size, [DoWrite(0, 10)], DoWrite(1, 20));
    assert [DoWrite(0, 10)] + [DoWrite(1, 20)] == [DoWrite(0, 10), DoWrite(1, 20)];
    assert [10] + [20] == [10, 20] && [0 as nat] + [1] == [0, 1] && [] + [Writer(1, 20)] == [Writer(1, 20)];
    assert [Call(0, Write, Some(10))] + [] == [Call(0, Write, Some(10))];
  }

  /** A buffer of one, two writes and a read: the second message reaches nobody, though its
      writer is told that it was written. */
  lemma BoundedChannelLoses(size: int)
    requires size == 1
    ensures var (s, h) := Run(size, [DoWrite(0, 10), DoWrite(1, 20), DoRead(2)]);
            && h.dropped == [20] && s.messages == [] && s.writers == []
            && h.calls == [Call(0, Write, Some(10)), Call(2, Read, Some(10)), Call(1, Write, Some(10))]
  {
    hide Run;
    TwoWrites(size);
    Extend(size, [DoWrite(0, 10), DoWrite(1, 20)], DoRead(2));
    assert [DoWrite(0, 10), DoWrite(1, 20)] + [DoRead(2)] == [DoWrite(0, 10), DoWrite(1, 20), DoRead(2)];
  }

  // ---------- Callbacks ----------

  /** Every accepted operation has been called back, or is queued: each as often as it was asked. */
  ghost predicate Answered(s: State, h: History) {
    Pending(h.asked, Ids(h.calls), s.readers, WriterIds(s.writers))
  }

  ghost predicate Pending(asked: seq<nat>, called: seq<nat>, readers: seq<nat>, writers: seq<nat>) {
    multiset(asked) == multiset(called) + multiset(readers) + multiset(writers)
  }

  lemma Asked(asked: seq<nat>, called: seq<nat>, readers: seq<nat>, writers: seq<nat>, id: nat)
    requires Pending(asked, called, readers, writers)
    ensures Pending(asked + [id], called + [id], readers, writers)
    ensures Pending(asked + [id], called, readers + [id], writers)
    ensures Pending(asked + [id], called, readers, writers + [id])
  {
  }

  lemma ReaderMet(asked: seq<nat>, called: seq<nat>, readers: seq<nat>, writers: seq<nat>, id: nat)
    requires Pending(asked, called, readers, writers) && readers != []
    ensures Pending(asked + [id], called + [readers[0], id], readers[1..], writers)
    ensures Pending(asked + [id], called + [id, readers[0]], readers[1..], writers)
  {
    Popped(readers);
  }

  lemma WriterMet(asked: seq<nat>, called: seq<nat>, readers: seq<nat>, writers: seq<nat>, id: nat)
    requires Pending(asked, called, readers, writers) && writers != []
    ensures Pending(asked + [id], called + [id, writers[0]], readers, writers[1..])
  {
    Popped(writers);
  }

  lemma WriteLeaves(s: State, id: nat, m: int)
    requires Consistent(s) && s.status.Open?
    ensures var o := Step(s, DoWrite(id, m));
            if s.readers != [] then
              && o.state.readers == s.readers[1..] && o.state.writers == s.writers
              && (Ids(o.calls) == [s.readers[0], id] || Ids(o.calls) == [id, s.readers[0]])
            else
              && o.state.readers == s.readers
              && (if Ids(o.calls) == [] then o.state.writers == s.writers + [Writer(id, m)]
                  else Ids(o.calls) == [id] && o.state.writers == s.writers)
  {
    hide Ids;
    CallIds(Step(s, DoWrite(id, m)).calls);
  }

  lemma AnswerWrite(s: State, h: History, id: nat, m: int)
    requires Consistent(s) && s.status.Open? && Answered(s, h)
    ensures var op := DoWrite(id, m); Answered(Step(s, op).state, Note(h, s, op))
  {
    hide Ids, WriterIds, Pending, Step;
    ContentsJoin(h.calls, Step(s, DoWrite(id, m)).calls);
    WriteLeaves(s, id, m);
    LastWaiting(s.writers, Writer(id, m));
    if s.readers != [] {
      ReaderMet(h.asked, Ids(h.calls), s.readers, WriterIds(s.writers), id);
    } else {
      Asked(h.asked, Ids(h.calls), s.readers, WriterIds(s.writers), id);
      assert Ids(h.calls) + [] == Ids(h.calls);
    }
  }

  lemma AnswerRead(s: State, h: History, id: nat)
    requires Consistent(s) && s.status.Open? && Answered(s, h)
    ensures var op := DoRead(id); Answered(Step(s, op).state, Note(h, s, op))
  {
    hide Ids, WriterIds, Pending;
    var op := DoRead(id);
    var calls := Step(s, op).calls;
    ContentsJoin(h.calls, calls);
    CallIds(calls);
    if s.writers != [] {
      OneWaiting(s.writers);
      assert WriterIds(s.writers)[1..] == WriterIds(s.writers[1..]);
      WriterMet(h.asked, Ids(h.calls), s.readers, WriterIds(s.writers), id);
    } else {
      Asked(h.asked, Ids(h.calls), s.readers, WriterIds(s.writers), id);
      assert Ids(h.calls) + [] == Ids(h.calls);
    }
  }

  lemma AnswerClose(s: State, h: History)
    requires Consistent(s) && s.status.Open? && Answered(s, h)
    ensures Answered(CloseStep(s).state, Note(h, s, DoClose))
  {
    hide Ids, ReaderCloses, WriterCloses;
    ContentsJoin(h.calls, CloseStep(s).calls);
    Closing(s);
  }

  lemma AnswerStep(s: State, h: History, op: Op)
    requires Consistent(s) && Answered(s, h)
    ensures Answered(Step(s, op).state, Note(h, s, op))
  {
    if s.status.Closed? {
      assert h.calls + [] == h.calls;
    } else {
      match op
      case DoWrite(id, m) => AnswerWrite(s, h, id, m);
      case DoRead(id) => AnswerRead(s, h, id);
      case DoClose => AnswerClose(s, h);
    }
  }

  lemma CallIds(calls: seq<Call>)
    ensures |calls| == 0 ==> Ids(calls) == []
    ensures |calls| == 1 ==> Ids(calls) == [calls[0].id]
    ensures |calls| == 2 ==> Ids(calls) == [calls[0].id, calls[1].id]
  {
  }

  lemma Closing(s: State)
    ensures Ids(ReaderCloses(s.readers) + WriterCloses(s.writers)) == s.readers + WriterIds(s.writers)
    ensures WriterIds([]) == []
  {
  }

  lemma {:induction false} AllAnswered(size: int, ops: seq<Op>)
    ensures Answered(Run(size, ops).0, Run(size, ops).1)
  {
    if ops != [] {
      var prefix := ops[..|ops| - 1];
      AllAnswered(size, prefix);
      var (s, h) := Run(size, prefix);
      AnswerStep(s, h, ops[|ops| - 1]);
    }
  }

  /** For every buffer size, with closes anywhere: an id asked once is called back at most once,
      and exactly once or never as it is gone from the queues or still in them. */
  lemma CalledBackOnce(size: int, ops: seq<Op>, id: nat)
    requires multiset(Run(size, ops).1.asked)[id] == 1
    ensures var (s, h) := Run(size, ops);
            && multiset(Ids(h.calls))[id] <= 1
            && (multiset(Ids(h.calls))[id] == 1 <==> id !in s.readers && id !in WriterIds(s.writers))
  {
    AllAnswered(size, ops);
    var (s, h) := Run(size, ops);
    assert id in s.readers <==> multiset(s.readers)[id] > 0;
    assert id in WriterIds(s.writers) <==> multiset(WriterIds(s.writers))[id] > 0;
  }

  /** Once closed, a channel accepts nothing, calls nobody and stays as it is. */
  lemma ClosedStaysClosed(size: int, ops: seq<Op>, op: Op)
    requires Run(size, ops).0.status.Closed?
    ensures Run(size, ops + [op]) == Run(size, ops)
    ensures Step(Run(size, ops).0, op).rc == if op.DoClose? then SUCCESS else ERR_CLOSED
  {
    assert (ops + [op])[..|ops|] == ops;
    var (s, h) := Run(size, ops);
    assert h.calls + [] == h.calls;
  }
}
