/** Tasks over sessions and channels: `task_run`, `task_resume` and `task_yield` of
    `src/lc_task.c`, woken by `task_callback` of `src/lc_channel.c` through the jobs of
    `src/lc_session.c`. One transition system holds every channel, session and task; each locked
    region is one step, and the callbacks made after an unlock are steps of their own. */
module Tasks {
  import opened Options
  import opened ErrorCodes
  import C = Channels
  import R = ChannelRuns
  import S = Sessions

  const LUA_YIELD := 1
  const LUA_ERRRUN := 2

  datatype Status = Ready | Running | Suspended | Finished | Error

  /** `yielding` is set once a channel operation has returned: what is left is the yield. */
  datatype Task = Task(sid: nat, status: Status, yielding: bool)

  // ---------- The code of a task ----------

  function Resumable(status: Status): bool {
    status.Ready? || status.Suspended?
  }

  /** The status that `task_run` leaves behind once `lua_resume` is back with `rc`. */
  function Returned(status: Status, rc: int): Status {
    if rc == LUA_ERRRUN then Error else if rc == LUA_YIELD then Suspended else if rc == 0 then Finished else status
  }

  class TaskRecord {
    var status: Status

    constructor ()
      ensures status == Ready
    {
      status := Ready;
    }

    /** `task_run` up to `lua_resume`: a task in any other state is taken for finished. */
    method Enter(message: bool) returns (resumed: bool)
      modifies this
      ensures resumed == (Resumable(old(status)) && (message || old(status).Suspended?))
      ensures status == if resumed then Running else Finished
    {
      var rc := 0;
      resumed := false;
      match status {
        case Ready =>
          if !message {
            status := Finished;
          } else {
            status := Running;
            resumed := true;
          }
        case Suspended =>
          status := Running;
          resumed := true;
        case _ =>
      }
      if !resumed {
        Leave(rc);
      }
    }

    /** `task_run` after `lua_resume`. */
    method Leave(rc: int)
      modifies this
      ensures status == Returned(old(status), rc)
    {
      if rc == LUA_ERRRUN {
        status := Error;
      } else if rc == LUA_YIELD {
        status := Suspended;
      } else if rc == 0 {
        status := Finished;
      }
    }

    /** The test that `task_resume` makes before it queues the job. */
    method Refuses() returns (rc: int)
      ensures rc == if status.Finished? || status.Error? then ERR_TASKSTATE else SUCCESS
    {
      if status == Finished || status == Error {
        return ERR_TASKSTATE;
      }
      return SUCCESS;
    }
  }

  // ---------- The system ----------

  /** `called`: callbacks made, whose `task_resume` has not tested the status yet; `checked`:
      those past the test, about to queue the job; `stranded`: tasks that a close left without. */
  datatype State = State(channels: seq<C.State>, sessions: seq<S.State<nat>>, tasks: seq<Task>,
                         called: multiset<nat>, checked: multiset<nat>, stranded: multiset<nat>)

  datatype Action =
    | NewChannel(size: int)
    | NewSession
    | Create(sid: nat)
    | Begin(session: nat)
    | Enter(session: nat, who: nat)
    | Operate(session: nat, who: nat, channel: nat, op: C.Op)
    | Yield(session: nat, who: nat)
    | Return(session: nat, who: nat, rc: int)
    | Skip(session: nat, who: nat)
    | End(session: nat, who: nat)
    | Check(task: nat)
    | Push(task: nat)
    | Close(channel: nat)

  ghost function Initial(): State {
    State([], [], [], multiset{}, multiset{}, multiset{})
  }

  /** Worker `k` of session `i` holds task `t` and has got as far as `stage`. */
  ghost predicate At(s: State, i: nat, k: nat, stage: S.Stage) {
    && i < |s.sessions| && k < |s.sessions[i].active| && s.sessions[i].active[k].stage == stage
    && s.sessions[i].active[k].job.Some? && s.sessions[i].active[k].job.value < |s.tasks|
  }

  ghost function Held(s: State, i: nat, k: nat): nat
    requires i < |s.sessions| && k < |s.sessions[i].active| && s.sessions[i].active[k].job.Some?
  {
    s.sessions[i].active[k].job.value
  }

  ghost predicate Enabled(s: State, a: Action) {
    match a
    case NewChannel(_) => true
    case NewSession => true
    case Create(sid) => sid < |s.sessions|
    case Begin(i) => i < |s.sessions| && s.sessions[i].pending > 0
    case Enter(i, k) => At(s, i, k, S.Taken)
    case Operate(i, k, c, op) =>
      && At(s, i, k, S.Inside) && !s.tasks[Held(s, i, k)].yielding
      && c < |s.channels| && !op.DoClose? && op.id == Held(s, i, k)
    case Yield(i, k) => At(s, i, k, S.Inside) && s.tasks[Held(s, i, k)].yielding
    case Return(i, k, rc) => At(s, i, k, S.Inside) && !s.tasks[Held(s, i, k)].yielding && rc != LUA_YIELD
    case Skip(i, k) =>
      i < |s.sessions| && k < |s.sessions[i].active| && s.sessions[i].active[k] == S.Worker(None, S.Taken)
    case End(i, k) => i < |s.sessions| && k < |s.sessions[i].active| && s.sessions[i].active[k].stage.Over?
    case Check(t) => t in s.called && t < |s.tasks|
    case Push(t) => t in s.checked && t < |s.tasks| && s.tasks[t].sid < |s.sessions|
    case Close(c) => c < |s.channels|
  }

  ghost function InSession(s: State, i: nat, op: S.Op<nat>): State
    requires i < |s.sessions| && S.Enabled(s.sessions[i], op)
  {
    s.(sessions := s.sessions[i := S.Step(s.sessions[i], op)])
  }

  ghost function WithStatus(s: State, t: nat, status: Status): State
    requires t < |s.tasks|
  {
    s.(tasks := s.tasks[t := Task(s.tasks[t].sid, status, false)])
  }

  /** An operation on a channel with the callbacks it makes. `task_callback` resumes the task on a
      read and on a write; when it is told that the channel is closed it does nothing. */
  ghost function OnChannel(s: State, c: nat, op: C.Op): State
    requires c < |s.channels| && C.Consistent(s.channels[c])
  {
    var o := C.Step(s.channels[c], op);
    s.(channels := s.channels[c := o.state],
       called := s.called + (multiset(R.Ids(R.Delivered(o.calls))) + multiset(R.Ids(R.Confirmed(o.calls)))),
       stranded := s.stranded + multiset(R.Ids(R.Told(o.calls, C.Close))))
  }

  ghost function Next(s: State, a: Action): State
    requires Enabled(s, a) && (forall c :: 0 <= c < |s.channels| ==> C.Consistent(s.channels[c]))
  {
    match a
    case NewChannel(size) => s.(channels := s.channels + [C.Fresh(size)])
    case NewSession => s.(sessions := s.sessions + [S.Fresh()])
    case Create(sid) =>
      s.(tasks := s.tasks + [Task(sid, Ready, false)], called := s.called + multiset{|s.tasks|})
    case Begin(i) => InSession(s, i, S.Begin)
    case Enter(i, k) =>
      var t := Held(s, i, k);
      if Resumable(s.tasks[t].status) then WithStatus(InSession(s, i, S.Enter(k)), t, Running)
      else WithStatus(InSession(s, i, S.Leave(k)), t, Finished)
    case Operate(i, k, c, op) =>
      // The script's own test found the channel open. If it has been closed since, the operation is
      // refused, nobody looks at the result, and the task yields with nothing to wake it.
      var late := if s.channels[c].status.Closed? then multiset{op.id} else multiset{};
      var t := OnChannel(s, c, op);
      t.(tasks := s.tasks[op.id := s.tasks[op.id].(yielding := true)], stranded := t.stranded + late)
    case Yield(i, k) => WithStatus(InSession(s, i, S.Leave(k)), Held(s, i, k), Returned(Running, LUA_YIELD))
    case Return(i, k, rc) =>
      WithStatus(InSession(s, i, S.Leave(k)), Held(s, i, k), Returned(s.tasks[Held(s, i, k)].status, rc))
    case Skip(i, k) => InSession(s, i, S.Leave(k))
    case End(i, k) => InSession(s, i, S.End(k))
    case Check(t) =>
      if s.tasks[t].status.Finished? || s.tasks[t].status.Error? then s.(called := s.called - multiset{t})
      else s.(called := s.called - multiset{t}, checked := s.checked + multiset{t})
    case Push(t) => InSession(s.(checked := s.checked - multiset{t}), s.tasks[t].sid, S.Enqueue(t))
    case Close(c) => OnChannel(s, c, C.DoClose)
  }

  // ---------- Wake-ups ----------

  ghost function Sum(bags: seq<multiset<nat>>): multiset<nat> {
    if bags == [] then multiset{} else Sum(bags[..|bags| - 1]) + bags[|bags| - 1]
  }

  ghost function OfChannel(c: C.State): multiset<nat> {
    multiset(c.readers) + multiset(R.WriterIds(c.writers))
  }

  /** The jobs of a session that no worker has entered yet. */
  ghost function OfSession(x: S.State<nat>): multiset<nat> {
    multiset(x.queue) + OfWorkers(x.active)
  }

  ghost function OfWorkers(active: seq<S.Worker<nat>>): multiset<nat> {
    if active == [] then multiset{}
    else
      OfWorkers(active[1..]) + OfWorker(active[0])
  }

  ghost function OfWorker(w: S.Worker<nat>): multiset<nat> {
    if w.stage.Taken? && w.job.Some? then multiset{w.job.value} else multiset{}
  }

  ghost function ChannelBags(cs: seq<C.State>): seq<multiset<nat>> {
    seq(|cs|, c requires 0 <= c < |cs| => OfChannel(cs[c]))
  }

  ghost function SessionBags(xs: seq<S.State<nat>>): seq<multiset<nat>> {
    seq(|xs|, i requires 0 <= i < |xs| => OfSession(xs[i]))
  }

  ghost function Waiting(s: State): multiset<nat> {
    Sum(ChannelBags(s.channels))
  }

  ghost function Queued(s: State): multiset<nat> {
    Sum(SessionBags(s.sessions))
  }

  /** Everything that will wake a task: waiting on a channel, called back, queued as a job. */
  ghost function WakeUps(s: State): multiset<nat> {
    Waiting(s) + s.called + s.checked + Queued(s)
  }

  /** The wake-ups that task `t` should have. */
  ghost function Due(tasks: seq<Task>, t: nat): nat {
    if t < |tasks| && (Resumable(tasks[t].status) || (tasks[t].status.Running? && tasks[t].yielding)) then 1
    else 0
  }

  /** The wake-ups, and those that closing a channel has cost. */
  ghost function Outstanding(s: State): multiset<nat> {
    WakeUps(s) + s.stranded
  }

  ghost predicate Counted(s: State) {
    forall t: nat :: Outstanding(s)[t] == Due(s.tasks, t)
  }

  /** The jobs in session `i` are of its own tasks. */
  ghost predicate Hosts(x: S.State<nat>, i: nat, tasks: seq<Task>) {
    && (forall t :: t in x.queue ==> t < |tasks| && tasks[t].sid == i)
    && (forall k :: 0 <= k < |x.active| && x.active[k].job.Some? ==>
          x.active[k].job.value < |tasks| && tasks[x.active[k].job.value].sid == i)
  }

  /** A worker inside a task runs it, and a task about to yield is the one its session runs. */
  ghost predicate Drives(x: S.State<nat>, i: nat, tasks: seq<Task>) {
    && (forall k :: 0 <= k < |x.active| && x.active[k].stage.Inside? ==>
          x.active[k].job.Some? ==> x.active[k].job.value < |tasks| ==> tasks[x.active[k].job.value].status.Running?)
    && (forall t :: 0 <= t < |tasks| && tasks[t].sid == i && tasks[t].yielding ==>
          x.active == [S.Worker(Some(t), S.Inside)])
  }

  ghost predicate Well(x: S.State<nat>, i: nat, tasks: seq<Task>) {
    Hosts(x, i, tasks) && Drives(x, i, tasks)
  }

  ghost predicate Placed(s: State) {
    && (forall t :: 0 <= t < |s.tasks| ==> s.tasks[t].sid < |s.sessions|)
    && (forall i :: 0 <= i < |s.sessions| ==> Well(s.sessions[i], i, s.tasks))
  }

  ghost predicate Parts(s: State) {
    && (forall c :: 0 <= c < |s.channels| ==> C.Consistent(s.channels[c]))
    && (forall i :: 0 <= i < |s.sessions| ==> S.Inv(s.sessions[i]))
  }

  ghost predicate Inv(s: State) {
    Parts(s) && Placed(s) && Counted(s)
  }
}
