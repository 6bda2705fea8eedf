/** The per-session job scheduler of `src/lc_session.c`: `session_queue_task` and the two locked
    regions of `session_run`, as methods of a session and as steps of a run in which any number
    of pool workers interleave. */
module Sessions {
  import opened Options
  import opened Sequences

  datatype Status = Ready | Running

  /** Where a worker is between the two locked regions: about to run its job, in it, or past it. */
  datatype Stage = Taken | Inside | Over

  datatype Worker<J> = Worker(job: Option<J>, stage: Stage)

  /** `pending` counts the submissions of this session that the pool has not started,
      `posts` the posts on its semaphore. */
  datatype State<J> = State(status: Status, queue: seq<J>, pending: nat, active: seq<Worker<J>>, posts: nat)

  datatype Op<J> = Enqueue(job: J) | Begin | Enter(who: nat) | Leave(who: nat) | End(who: nat)

  ghost function Fresh<J>(): State<J> {
    State(Ready, [], 0, [], 0)
  }

  ghost predicate Enabled<J>(s: State<J>, op: Op<J>) {
    match op
    case Enqueue(_) => true
    case Begin => s.pending > 0
    case Enter(k) => k < |s.active| && s.active[k].stage.Taken? && s.active[k].job.Some?
    case Leave(k) => k < |s.active| && !s.active[k].stage.Over?
    case End(k) => k < |s.active| && s.active[k].stage.Over?
  }

  ghost function Step<J>(s: State<J>, op: Op<J>): State<J>
    requires Enabled(s, op)
  {
    match op
    case Enqueue(j) =>
      s.(queue := s.queue + [j], pending := if s.status.Ready? then s.pending + 1 else s.pending)
    case Begin =>
      if s.status.Running? then s.(pending := s.pending - 1)
      else
        State(Running, Tail(s.queue), s.pending - 1, s.active + [Worker(Head(s.queue), Taken)], s.posts)
    case Enter(k) => s.(active := s.active[k := Worker(s.active[k].job, Inside)])
    case Leave(k) => s.(active := s.active[k := Worker(s.active[k].job, Over)])
    case End(k) =>
      var idle := s.queue == [];
      State(Ready, s.queue, if idle then s.pending else s.pending + 1, s.active[..k] + s.active[k + 1..],
            if idle then s.posts + 1 else s.posts)
  }

  // ---------- One runner, and never a forgotten job ----------

  /** As many workers in the session as its status says, and a waiting job is always submitted. */
  ghost predicate Inv<J>(s: State<J>) {
    && |s.active| == (if s.status.Running? then 1 else 0)
    && (s.status.Ready? && s.queue != [] ==> s.pending > 0)
    && (forall k :: 0 <= k < |s.active| && s.active[k].stage.Inside? ==> s.active[k].job.Some?)
  }

  lemma InvStep<J>(s: State<J>, op: Op<J>)
    requires Inv(s) && Enabled(s, op)
    ensures Inv(Step(s, op))
  {
  }

  /** The jobs queued so far, and those run to the end, each in the order it happened. */
  datatype History<J> = History(enqueued: seq<J>, ran: seq<J>)

  ghost function Note<J>(h: History<J>, s: State<J>, op: Op<J>): History<J>
    requires Enabled(s, op)
  {
    match op
    case Enqueue(j) => h.(enqueued := h.enqueued + [j])
    case End(k) => h.(ran := h.ran + Jobs([s.active[k]]))
    case _ => h
  }

  ghost function Jobs<J>(active: seq<Worker<J>>): seq<J> {
    if active == [] then []
    else (if active[0].job.Some? then [active[0].job.value] else []) + Jobs(active[1..])
  }

  /** All runs: an operation that is not enabled where it stands is skipped. */
  ghost function Run<J>(ops: seq<Op<J>>): (r: (State<J>, History<J>))
    ensures Inv(r.0)
  {
    if ops == [] then (Fresh(), History([], []))
    else
      var r, op := Run(ops[..|ops| - 1]), ops[|ops| - 1];
      if Enabled(r.0, op) then
        InvStep(r.0, op);
        (Step(r.0, op), Note(r.1, r.0, op))
      else r
  }

  /** Jobs run, then the job in progress, then the queue: the jobs enqueued, in order. */
  ghost predicate InOrder<J>(s: State<J>, h: History<J>) {
    h.enqueued == h.ran + Jobs(s.active) + s.queue
  }

  /** Every submission, runner and post is owed to a job of its own. */
  ghost predicate Bounded<J>(s: State<J>, h: History<J>) {
    s.pending + |s.active| + s.posts <= |h.enqueued|
  }

  /** A session that was given jobs and has nobody inside has been submitted, or has posted that it is
      ready for more. */
  ghost predicate Announced<J>(s: State<J>, h: History<J>) {
    s.status.Ready? && h.enqueued != [] ==> s.pending > 0 || s.posts > 0
  }

  lemma OrderStep<J>(s: State<J>, h: History<J>, op: Op<J>)
    requires Inv(s) && Enabled(s, op) && InOrder(s, h)
    ensures InOrder(Step(s, op), Note(h, s, op))
    ensures Announced(s, h) ==> Announced(Step(s, op), Note(h, s, op))
  {
    var t := Step(s, op);
    match op
    case Enqueue(_) =>
    case Begin =>
      if s.status.Ready? && s.queue != [] {
        OneJob(t.active[0]);
        assert s.queue == [s.queue[0]] + s.queue[1..];
      }
    case Enter(k) => OneJob(t.active[0]); OneJob(s.active[0]);
    case Leave(k) => OneJob(t.active[0]); OneJob(s.active[0]);
    case End(k) => assert s.active == [s.active[k]];
  }

  lemma OneJob<J>(w: Worker<J>)
    ensures Jobs([w]) == if w.job.Some? then [w.job.value] else []
  {
  }

  lemma {:induction false} OnceInOrder<J>(ops: seq<Op<J>>)
    ensures var (s, h) := Run(ops); InOrder(s, h) && Bounded(s, h) && Announced(s, h)
  {
    if ops != [] {
      var prefix, op := ops[..|ops| - 1], ops[|ops| - 1];
      OnceInOrder(prefix);
      var (s, h) := Run(prefix);
      if Enabled(s, op) { OrderStep(s, h, op); }
    }
  }

  /** The jobs of a run that were queued while nobody was in the session. */
  ghost function Woken<J>(ops: seq<Op<J>>): nat {
    if ops == [] then 0
    else
      Woken(ops[..|ops| - 1])
      + (if ops[|ops| - 1].Enqueue? && Run(ops[..|ops| - 1]).0.status.Ready? then 1 else 0)
  }

  /** The submissions of a run that found somebody in the session and came to nothing. */
  ghost function Early<J>(ops: seq<Op<J>>): nat {
    if ops == [] then 0
    else
      var s := Run(ops[..|ops| - 1]).0;
      Early(ops[..|ops| - 1]) + (if ops[|ops| - 1].Begin? && s.pending > 0 && s.status.Running? then 1 else 0)
  }

  /** The jobs queued while nobody was inside are as many as the submissions pending, the workers
      inside, the posts made, and the submissions that came to nothing, all together. */
  lemma {:induction false} EverySubmission<J>(ops: seq<Op<J>>)
    ensures var s := Run(ops).0; s.pending + |s.active| + s.posts + Early(ops) == Woken(ops)
  {
    hide Step, Enabled, Inv;
    if ops != [] {
      var s, op := Run(ops[..|ops| - 1]).0, ops[|ops| - 1];
      EverySubmission(ops[..|ops| - 1]);
      Passed(s, op);
    }
  }

  lemma Passed<J>(s: State<J>, op: Op<J>)
    requires Inv(s)
    ensures op.Begin? ==> (Enabled(s, op) <==> s.pending > 0)
    ensures op.Enqueue? ==> Enabled(s, op)
    ensures Enabled(s, op) ==>
              var t := Step(s, op);
              t.pending + |t.active| + t.posts + (if op.Begin? && s.status.Running? then 1 else 0)
              == s.pending + |s.active| + s.posts + (if op.Enqueue? && s.status.Ready? then 1 else 0)
  {
  }

  // ---------- Draining ----------

  /** What is left to do: each queued job may yet be submitted, begun, entered, left and ended. */
  ghost function Work<J>(s: State<J>): nat {
    4 * |s.queue| + 4 * s.pending
    + (if |s.active| == 0 then 0 else match s.active[0].stage case Taken => 3 case Inside => 2 case Over => 1)
    + (if s.status.Running? && s.queue != [] then 4 else 0)
  }

  ghost predicate Drained<J>(s: State<J>) {
    s.queue == [] && s.pending == 0 && s.active == [] && s.status.Ready?
  }

  /** Every step of a worker, an early return or an empty run included, leaves less to do. */
  lemma WorkShrinks<J>(s: State<J>, op: Op<J>)
    requires Inv(s) && Enabled(s, op) && !op.Enqueue?
    ensures Work(Step(s, op)) < Work(s)
  {
  }

  /** The steps of `ops` can be taken one after the other, and none enqueues a job. */
  ghost predicate Worked<J>(s: State<J>, ops: seq<Op<J>>)
    decreases |ops|
  {
    ops == [] || (Enabled(s, ops[0]) && !ops[0].Enqueue? && Worked(Step(s, ops[0]), ops[1..]))
  }

  ghost function After<J>(s: State<J>, ops: seq<Op<J>>): State<J>
    requires Worked(s, ops)
    decreases |ops|
  {
    if ops == [] then s else After(Step(s, ops[0]), ops[1..])
  }

  /** Whichever way the workers interleave, they stop, and stop only when everything is done. */
  lemma {:induction false} Drains<J>(s: State<J>, ops: seq<Op<J>>)
    requires Inv(s) && Worked(s, ops)
    ensures Inv(After(s, ops)) && |ops| + Work(After(s, ops)) <= Work(s)
    ensures (forall op :: Enabled(After(s, ops), op) ==> op.Enqueue?) <==> Drained(After(s, ops))
    decreases |ops|
  {
    if ops == [] {
      Stuck(s);
    } else {
      InvStep(s, ops[0]);
      WorkShrinks(s, ops[0]);
      Drains(Step(s, ops[0]), ops[1..]);
    }
  }

  lemma Stuck<J>(s: State<J>)
    requires Inv(s)
    ensures (forall op :: Enabled(s, op) ==> op.Enqueue?) <==> Drained(s)
  {
    if !Drained(s) {
      if s.active != [] {
        assert Enabled(s, if s.active[0].stage.Over? then End(0) else Leave(0));
      } else {
        assert Enabled(s, Op<J>.Begin);
      }
    }
  }

  /** When nothing more is enqueued after `ops` and the workers have stopped, every job has run, and
      whoever waits for the session to be done has been told, if there was a job at all. */
  lemma {:induction false} EverythingRan<J>(ops: seq<Op<J>>, more: seq<Op<J>>)
    requires Worked(Run(ops).0, more)
    requires forall op :: Enabled(After(Run(ops).0, more), op) ==> op.Enqueue?
    ensures Run(ops + more).1.ran == Run(ops).1.enqueued
    ensures Run(ops + more).0 == After(Run(ops).0, more)
    ensures Run(ops).1.enqueued != [] ==> Run(ops + more).0.posts > 0
    decreases |more|
  {
    Drains(Run(ops).0, more);
    if more == [] {
      OnceInOrder(ops);
      assert ops + more == ops;
    } else {
      var next := ops + [more[0]];
      assert next[..|next| - 1] == ops;
      assert ops + more == next + more[1..];
      EverythingRan(next, more[1..]);
    }
  }

  // ---------- The code ----------

  class Session<J> {
    var status: Status
    var tasks: seq<J>
    var submitted: nat
    var posts: nat
    ghost var active: seq<Worker<J>>
    ghost var history: History<J>

    ghost function Now(): State<J>
      reads this
    {
      State(status, tasks, submitted, active, posts)
    }

    ghost predicate Valid()
      reads this
    {
      Inv(Now()) && InOrder(Now(), history) && Bounded(Now(), history) && Announced(Now(), history)
    }

    constructor ()
      ensures Valid() && Now() == Fresh() && history == History([], [])
    {
      status, tasks, submitted, posts, active, history := Ready, [], 0, 0, [], History([], []);
    }

    /** `session_queue_task`, under the session lock: the job is last in line, and somebody will
        come for it. */
    method QueueTask(job: J)
      requires Valid()
      modifies this
      ensures Valid() && Now() == Step(old(Now()), Enqueue(job))
      ensures history == old(history).(enqueued := old(history).enqueued + [job])
      ensures status == Running || submitted > 0
      ensures submitted == old(submitted) + (if status == Ready then 1 else 0)
    {
      OrderStep(Now(), history, Enqueue(job));
      history := history.(enqueued := history.enqueued + [job]);
      tasks := tasks + [job];
      if status == Ready {
        submitted := submitted + 1;
      }
    }

    /** `session_run` up to its first unlock, by a worker that took one of the submissions: the job
        it gets is the first that was enqueued and has not been run. */
    method BeginRun() returns (started: bool, job: Option<J>)
      requires Valid() && submitted > 0
      modifies this
      ensures Valid() && Now() == Step(old(Now()), Begin) && history == old(history)
      ensures started == old(status.Ready?) && submitted == old(submitted) - 1
      ensures started ==>
                && active == [Worker(job, Taken)]
                && job == if |history.ran| < |history.enqueued| then Some(history.enqueued[|history.ran|]) else None
    {
      OrderStep(Now(), history, Begin);
      submitted := submitted - 1;
      if status == Running {
        return false, None;
      }
      status := Running;
      job := None;
      if |tasks| > 0 {
        job, tasks := Some(tasks[0]), tasks[1..];
      }
      active := active + [Worker(job, Taken)];
      started := true;
    }

    /** What the worker does between its two locked regions. */
    ghost method Pass(op: Op<J>)
      requires Valid() && Enabled(Now(), op) && (op.Enter? || op.Leave?)
      modifies `active
      ensures Valid() && Now() == Step(old(Now()), op)
    {
      OrderStep(Now(), history, op);
      active := Step(Now(), op).active;
    }

    /** `session_run` after `task_run`: its job is done, nobody is left inside, and if there are
        more jobs somebody will come for them, else whoever waits for the session is told. */
    method EndRun(ghost k: nat)
      requires Valid() && Enabled(Now(), End(k))
      modifies this
      ensures Valid() && Now() == Step(old(Now()), End(k))
      ensures history.enqueued == old(history).enqueued && history.ran == old(history).ran + Jobs(old(active))
      ensures active == [] && (tasks != [] ==> submitted > 0)
      ensures posts == old(posts) + if tasks == [] then 1 else 0
      ensures history.enqueued != [] ==> submitted > 0 || posts > 0
    {
      OrderStep(Now(), history, End(k));
      history := history.(ran := history.ran + Jobs([active[k]]));
      assert active == [active[k]];
      status := Ready;
      if |tasks| == 0 {
        posts := posts + 1;
      } else {
        submitted := submitted + 1;
      }
      active := active[..k] + active[k + 1..];
    }
  }

  /** One turn of a worker that finds nobody else in the session: all of `session_run`. */
  method RunOne<J>(s: Session<J>) returns (job: Option<J>)
    requires s.Valid() && s.active == [] && s.submitted > 0
    modifies s
    ensures s.Valid() && s.active == [] && Work(s.Now()) < Work(old(s.Now()))
    ensures s.history == old(s.history).(ran := old(s.history).ran + if job.Some? then [job.value] else [])
  {
    hide Work, InOrder, Bounded;
    WorkShrinks(s.Now(), Begin);
    var _, taken := s.BeginRun();
    job := taken;
    OneJob(s.active[0]);
    if job.Some? {
      WorkShrinks(s.Now(), Enter(0));
      s.Pass(Enter(0));
      OneJob(s.active[0]);
    }
    WorkShrinks(s.Now(), Leave(0));
    s.Pass(Leave(0));
    OneJob(s.active[0]);
    WorkShrinks(s.Now(), End(0));
    s.EndRun(0);
  }

  /** A single worker of the pool, given every submission, runs all the jobs in order. */
  method RunAll<J>(s: Session<J>) returns (ran: seq<J>)
    requires s.Valid() && s.active == []
    modifies s
    ensures s.Valid() && Drained(s.Now())
    ensures s.history.enqueued != [] ==> s.posts > 0
    ensures old(s.history).enqueued == s.history.enqueued == s.history.ran == old(s.history).ran + ran
  {
    hide Work;
    ran := [];
    while s.submitted > 0
      invariant s.Valid() && s.active == []
      invariant s.history == old(s.history).(ran := old(s.history).ran + ran)
      decreases Work(s.Now())
    {
      var job := RunOne(s);
      ran := ran + if job.Some? then [job.value] else [];
    }
  }
}
