/** The rendezvous of readers and writers in `src/lc_channel.c`: each call's locked region and
    the callbacks it makes afterwards, as methods of a channel and as steps of a run. */
module Channels {
  import opened Options
  import opened ErrorCodes
  import opened Sequences

  const INT_MAX: nat := 0x7fff_ffff

  datatype Status = Open | Closed

  datatype Event = Read | Write | Close

  /** A callback: the id that the caller passed as data, and the event. */
  datatype Call = Call(id: nat, event: Event, message: Option<int>)

  datatype Writer = Writer(id: nat, message: int)

  datatype State = State(bufSize: nat, status: Status, messages: seq<int>, readers: seq<nat>, writers: seq<Writer>)

  /** Readers wait only when there is nothing to read; a closed channel is empty. */
  ghost predicate Consistent(s: State) {
    && (s.readers != [] ==> s.messages == [] && s.writers == [])
    && |s.messages| <= s.bufSize
    && (s.status.Closed? ==> s.messages == [] && s.readers == [] && s.writers == [])
  }

  ghost function Fresh(size: int): State {
    State(if size < 0 then INT_MAX else size, Open, [], [], [])
  }

  // ---------- The operations as steps ----------

  datatype Op = DoWrite(id: nat, message: int) | DoRead(id: nat) | DoClose

  datatype Outcome = Outcome(rc: int, state: State, calls: seq<Call>)

  ghost function Step(s: State, op: Op): Outcome
    requires Consistent(s)
  {
    match op
    case DoWrite(id, m) => WriteStep(s, id, m)
    case DoRead(id) => ReadStep(s, id)
    case DoClose => CloseStep(s)
  }

  /** A write meets the first waiting reader, or is buffered, or waits itself. */
  ghost function WriteStep(s: State, id: nat, m: int): Outcome {
    var full := |s.messages| >= s.bufSize;
    var rc := if full then ERR_FULL else SUCCESS;
    var own := [Call(id, Write, Some(m))];
    if s.status.Closed? then Outcome(ERR_CLOSED, s, [])
    else if s.readers != [] then
      var read := Call(s.readers[0], Read, Some(m));
      Outcome(rc, s.(readers := s.readers[1..]), if full then [read] + own else own + [read])
    else if full then Outcome(rc, s.(writers := s.writers + [Writer(id, m)]), [])
    else Outcome(rc, s.(messages := s.messages + [m]), own)
  }

  /** A read takes the first buffered message and releases the first waiting writer. */
  ghost function ReadStep(s: State, id: nat): Outcome {
    if s.status.Closed? then Outcome(ERR_CLOSED, s, [])
    else if s.messages == [] && s.writers == [] then Outcome(ERR_EMPTY, s.(readers := s.readers + [id]), [])
    else
      var m := if s.messages != [] then s.messages[0] else s.writers[0].message;
      Outcome(SUCCESS,
              s.(messages := Tail(s.messages), writers := Tail(s.writers)),
              [Call(id, Read, Some(m))] + (if s.writers != [] then [Call(s.writers[0].id, Write, Some(m))] else []))
  }

  ghost function CloseStep(s: State): Outcome {
    if s.status.Closed? then Outcome(SUCCESS, s, [])
    else
      Outcome(SUCCESS, s.(status := Closed, messages := [], readers := [], writers := []),
              ReaderCloses(s.readers) + WriterCloses(s.writers))
  }

  ghost function ReaderCloses(rs: seq<nat>): seq<Call> {
    seq(|rs|, i requires 0 <= i < |rs| => Call(rs[i], Close, None))
  }

  ghost function WriterCloses(ws: seq<Writer>): seq<Call> {
    seq(|ws|, i requires 0 <= i < |ws| => Call(ws[i].id, Close, Some(ws[i].message)))
  }

  lemma CloseReaders(rs: seq<nat>)
    ensures ReaderCloses(rs) == if rs == [] then [] else [Call(rs[0], Close, None)] + ReaderCloses(rs[1..])
  {
  }

  lemma CloseWriters(ws: seq<Writer>)
    ensures WriterCloses(ws)
         == if ws == [] then [] else [Call(ws[0].id, Close, Some(ws[0].message))] + WriterCloses(ws[1..])
  {
  }

  /** What an open channel answers: a write SUCCESS just when it did not find the buffer full, a read
      ERR_EMPTY just when it is left waiting. A successful caller is the first to be called back,
      with its own event; a write that finds the buffer full is the last, if at all. */
  lemma Answers(s: State, op: Op)
    requires Consistent(s) && s.status.Open? && !op.DoClose?
    ensures var o := Step(s, op);
            match op
            case DoWrite(id, m) =>
              && (o.rc == SUCCESS <==> |s.messages| < s.bufSize) && (o.rc == ERR_FULL <==> |s.messages| >= s.bufSize)
              && (o.rc == SUCCESS ==> |o.calls| >= 1 && o.calls[0] == Call(id, Write, Some(m)))
              && (o.rc == ERR_FULL && o.calls != [] ==> o.calls[|o.calls| - 1] == Call(id, Write, Some(m)))
              && (o.calls == [] <==> o.state.writers == s.writers + [Writer(id, m)])
            case DoRead(id) =>
              && (o.rc == ERR_EMPTY <==> s.messages == [] && s.writers == [])
              && (o.rc == ERR_EMPTY <==> o.state.readers == s.readers + [id])
              && (o.rc == SUCCESS <==> o.calls != [] && o.calls[0].id == id && o.calls[0].event.Read?)
  {
  }

  /** A close empties the channel and tells everybody who waits, readers first, that it is closed;
      nothing else ever tells anybody so. */
  lemma OnlyCloseTells(s: State, op: Op)
    requires Consistent(s)
    ensures !op.DoClose? ==> forall c :: c in Step(s, op).calls ==> !c.event.Close?
    ensures op.DoClose? ==> forall c :: c in Step(s, op).calls ==> c.event.Close?
    ensures op.DoClose? ==> var t := Step(s, op).state;
                            t.status.Closed? && t.messages == [] && t.readers == [] && t.writers == []
    ensures op.DoClose? && s.status.Open? ==>
              var calls := Step(s, op).calls;
              && |calls| == |s.readers| + |s.writers|
              && (forall i :: 0 <= i < |s.readers| ==> calls[i].id == s.readers[i])
              && (forall i :: 0 <= i < |s.writers| ==> calls[|s.readers| + i].id == s.writers[i].id)
  {
  }

  lemma StepConsistent(s: State, op: Op)
    requires Consistent(s)
    ensures Consistent(Step(s, op).state)
  {
  }

  // ---------- The code ----------

  class Channel {
    var bufSize: nat
    var status: Status
    var messages: seq<int>
    var readers: seq<nat>
    var writers: seq<Writer>

    ghost function Now(): State
      reads this
    {
      State(bufSize, status, messages, readers, writers)
    }

    ghost predicate Valid()
      reads this
    {
      Consistent(Now())
    }

    constructor (size: int)
      ensures Valid() && Now() == Fresh(size)
      ensures status == Open && messages == [] && readers == [] && writers == []
      ensures 0 <= size ==> bufSize == size
    {
      bufSize := if size < 0 then INT_MAX else size;
      status, messages, readers, writers := Open, [], [], [];
    }

    /** `channel_write`: `m` or `w` is there whenever a reader is. */
    method WriteMessage(message: int, id: nat) returns (rc: int, calls: seq<Call>)
      requires Valid()
      modifies this
      ensures Valid() && Outcome(rc, Now(), calls) == Step(old(Now()), DoWrite(id, message))
    {
      calls := [];
      if status == Closed {
        return ERR_CLOSED, [];
      }
      rc := SUCCESS;
      if |messages| < bufSize {
        messages := messages + [message];
      } else {
        writers := writers + [Writer(id, message)];
        rc := ERR_FULL;
      }
      var r: Option<nat>, m: Option<int>, w: Option<Writer> := None, None, None;
      if readers != [] {
        r, readers := Some(readers[0]), readers[1..];
        if messages != [] {
          m, messages := Some(messages[0]), messages[1..];
        }
        if writers != [] {
          w, writers := Some(writers[0]), writers[1..];
        }
      }

      if rc == SUCCESS {
        calls := calls + [Call(id, Write, Some(message))];
      }
      if r.Some? {
        if m.None? {
          m := Some(w.value.message);
        }
        calls := calls + [Call(r.value, Read, m)];
        if w.Some? {
          calls := calls + [Call(w.value.id, Write, Some(w.value.message))];
        }
      }
    }

    /** `channel_read`. */
    method ReadMessage(id: nat) returns (rc: int, calls: seq<Call>)
      requires Valid()
      modifies this
      ensures Valid() && Outcome(rc, Now(), calls) == Step(old(Now()), DoRead(id))
    {
      calls := [];
      if status == Closed {
        return ERR_CLOSED, [];
      }
      rc := SUCCESS;
      var m: Option<int>, w: Option<Writer> := None, None;
      if messages != [] {
        m, messages := Some(messages[0]), messages[1..];
      }
      if writers != [] {
        w, writers := Some(writers[0]), writers[1..];
      }
      if m.None? && w.None? {
        readers := readers + [id];
        rc := ERR_EMPTY;
      }

      if rc == SUCCESS {
        if m.None? {
          m := Some(w.value.message);
        }
        calls := calls + [Call(id, Read, m)];
        if w.Some? {
          calls := calls + [Call(w.value.id, Write, m)];
        }
      }
    }

    /** `queue_clear(c->readers)`, whose release routine calls each reader back. */
    method ClearReaders() returns (calls: seq<Call>)
      modifies `readers
      ensures readers == [] && calls == ReaderCloses(old(readers))
    {
      hide ReaderCloses;
      calls := [];
      while readers != []
        invariant calls + ReaderCloses(readers) == ReaderCloses(old(readers))
        decreases |readers|
      {
        CloseReaders(readers);
        calls := calls + [Call(readers[0], Close, None)];
        readers := readers[1..];
      }
      CloseReaders([]);
    }

    /** `queue_clear(c->writers)`. */
    method ClearWriters() returns (calls: seq<Call>)
      modifies `writers
      ensures writers == [] && calls == WriterCloses(old(writers))
    {
      hide WriterCloses;
      calls := [];
      while writers != []
        invariant calls + WriterCloses(writers) == WriterCloses(old(writers))
        decreases |writers|
      {
        CloseWriters(writers);
        calls := calls + [Call(writers[0].id, Close, Some(writers[0].message))];
        writers := writers[1..];
      }
      CloseWriters([]);
    }

    /** `channel_close`: the three queues are cleared, each waiter told. */
    method CloseChannel() returns (rc: int, calls: seq<Call>)
      requires Valid()
      modifies this
      ensures Valid() && Outcome(rc, Now(), calls) == Step(old(Now()), DoClose)
    {
      hide ReaderCloses, WriterCloses;
      calls := [];
      if status == Open {
        messages := [];
        calls := ClearReaders();
        var more := ClearWriters();
        calls := calls + more;
        status := Closed;
      }
      rc := SUCCESS;
    }
  }
}
