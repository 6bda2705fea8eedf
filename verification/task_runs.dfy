/** Whole runs of tasks, sessions and channels: no wake-up is lost or doubled, and no job finds
    its task running or done. */
module TaskRuns {
  import opened Options
  import opened ErrorCodes
  import opened Tasks
  import opened TaskSteps
  import C = Channels
  import R = ChannelRuns
  import S = Sessions

  /** All runs from nothing: an action that is not possible where it stands is skipped. */
  ghost function Run(actions: seq<Action>): (s: State)
    ensures Inv(s)
  {
    if actions == [] then
      Nothing();
      Initial()
    else
      var s, a := Run(actions[..|actions| - 1]), actions[|actions| - 1];
      if Enabled(s, a) then
        InvStep(s, a);
        Next(s, a)
      else s
  }

  lemma Nothing()
    ensures Inv(Initial())
  {
    assert Outstanding(Initial()) == multiset{};
  }

  /** A worker that popped a job finds the task ready or suspended: the default branch of
      `task_run`, which would mark it finished, is never taken. */
  lemma {:induction false} DefaultNeverTaken(actions: seq<Action>, i: nat, k: nat)
    requires At(Run(actions), i, k, S.Taken)
    ensures var s := Run(actions); Resumable(s.tasks[Held(s, i, k)].status)
  {
    PoppedResumable(Run(actions), i, k);
  }

  /** A callback in flight is never refused for a finished or failed task. */
  lemma {:induction false} NoCallbackRefused(actions: seq<Action>, t: nat)
    requires t in Run(actions).called || t in Run(actions).checked
    ensures var s := Run(actions);
            t < |s.tasks| && !s.tasks[t].status.Finished? && !s.tasks[t].status.Error?
  {
    CallAccepted(Run(actions), t);
  }

  /** No two workers are inside the same task, nor inside the same session. */
  lemma OneRunner(actions: seq<Action>, i: nat, k: nat, j: nat, l: nat)
    requires At(Run(actions), i, k, S.Inside) && At(Run(actions), j, l, S.Inside)
    requires i == j || Held(Run(actions), i, k) == Held(Run(actions), j, l)
    ensures i == j && k == l && Run(actions).tasks[Held(Run(actions), i, k)].status.Running?
  {
    var s := Run(actions);
    Home(s, i, k);
    Home(s, j, l);
    OnlyWorker(s, i, k);
    OnlyWorker(s, j, l);
    InsideRuns(s, i, k);
  }

  ghost predicate NoClose(actions: seq<Action>) {
    forall n :: 0 <= n < |actions| ==> !actions[n].Close?
  }

  ghost predicate Untouched(s: State) {
    s.stranded == multiset{} && forall c :: 0 <= c < |s.channels| ==> s.channels[c].status.Open?
  }

  lemma {:induction false} NobodyStranded(actions: seq<Action>)
    requires NoClose(actions)
    ensures Untouched(Run(actions))
  {
    if actions != [] {
      var prefix, a := actions[..|actions| - 1], actions[|actions| - 1];
      NobodyStranded(prefix);
      if Enabled(Run(prefix), a) { StrandedByClose(Run(prefix), a); }
    }
  }

  lemma StrandedByClose(s: State, a: Action)
    requires Inv(s) && Enabled(s, a) && !a.Close? && Untouched(s)
    ensures Untouched(Next(s, a))
  {
    hide S.Step, Outstanding, Due, Well, R.Told, R.Ids, Counted, Placed, S.Inv;
    if a.Operate? {
      WhoIsCalled(s, a.channel, a.op);
      assert C.Step(s.channels[a.channel], a.op).state.status.Open?;
    }
  }

  /** A suspended or ready task, or one about to yield, has exactly one wake-up on its way (a
      place in a channel's queue, a callback in flight or a job), a task in any other state none;
      the one exception is a task whose channel was closed under it. */
  lemma {:induction false} OneWakeUp(actions: seq<Action>, t: nat)
    requires t < |Run(actions).tasks|
    ensures var s := Run(actions); var task := s.tasks[t];
            && WakeUps(s)[t] + s.stranded[t]
               == (if Resumable(task.status) || (task.status.Running? && task.yielding) then 1 else 0)
            && (NoClose(actions) ==> s.stranded[t] == 0)
  {
    var s := Run(actions);
    assert Outstanding(s)[t] == Due(s.tasks, t);
    if NoClose(actions) { NobodyStranded(actions); }
  }

  // ---------- What becomes of a task ----------

  /** The code with which `lua_resume` last came back from task `t`, after one more step: None while
      the script runs, and before it has been started. */
  ghost function BackBy(s: State, a: Action, t: nat, back: Option<int>): Option<int>
    requires Enabled(s, a)
  {
    match a
    case Enter(i, k) => if Held(s, i, k) == t then None else back
    case Yield(i, k) => if Held(s, i, k) == t then Some(LUA_YIELD) else back
    case Return(i, k, rc) => if Held(s, i, k) == t then Some(rc) else back
    case _ => back
  }

  /** The same after a run. */
  ghost function Back(actions: seq<Action>, t: nat): Option<int> {
    if actions == [] then None
    else
      var prefix, a := actions[..|actions| - 1], actions[|actions| - 1];
      var s := Run(prefix);
      if Enabled(s, a) then BackBy(s, a, t, Back(prefix, t)) else Back(prefix, t)
  }

  /** What a status says about that code. */
  ghost predicate Tells(status: Status, back: Option<int>) {
    && (status.Error? <==> back == Some(LUA_ERRRUN))
    && (status.Suspended? <==> back == Some(LUA_YIELD))
    && (status.Finished? <==> back == Some(0))
    && (status.Ready? ==> back.None?)
  }

  /** In every reachable state a task has failed just when its script last came back with a runtime
      error, waits just when it last yielded, and is finished just when it came to its end. */
  lemma {:induction false} StatusTells(actions: seq<Action>, t: nat)
    ensures t < |Run(actions).tasks| ==> Tells(Run(actions).tasks[t].status, Back(actions, t))
    ensures t >= |Run(actions).tasks| ==> Back(actions, t).None?
  {
    hide Inv, Next, Enabled;
    if actions != [] {
      var prefix, a := actions[..|actions| - 1], actions[|actions| - 1];
      StatusTells(prefix, t);
      if Enabled(Run(prefix), a) { StatusStep(Run(prefix), a, t, Back(prefix, t)); }
    }
  }

  lemma StatusStep(s: State, a: Action, t: nat, back: Option<int>)
    requires Inv(s) && Enabled(s, a)
    requires if t < |s.tasks| then Tells(s.tasks[t].status, back) else back.None?
    ensures var u := Next(s, a);
            if t < |u.tasks| then Tells(u.tasks[t].status, BackBy(s, a, t, back)) else BackBy(s, a, t, back).None?
  {
    hide Counted, Placed, C.Consistent, C.Step, S.Step, S.Inv;
    if a.Enter? { PoppedResumable(s, a.session, a.who); }
    if a.Yield? || a.Return? || a.Operate? { InsideRuns(s, a.session, a.who); }
  }

  // ---------- When nothing moves ----------

  /** No callback is in flight, and no worker is in a session or submitted to one. */
  ghost predicate Quiet(s: State) {
    && s.called == multiset{} && s.checked == multiset{}
    && (forall i :: 0 <= i < |s.sessions| ==> s.sessions[i].pending == 0 && s.sessions[i].active == [])
  }

  lemma {:induction false} NothingQueued(xs: seq<S.State<nat>>)
    requires forall i :: 0 <= i < |xs| ==> S.Inv(xs[i]) && xs[i].pending == 0 && xs[i].active == []
    ensures Sum(SessionBags(xs)) == multiset{}
  {
    if xs != [] {
      var n := |xs| - 1;
      NothingQueued(xs[..n]);
      assert SessionBags(xs)[..n] == SessionBags(xs[..n]);
      assert OfSession(xs[n]) == multiset{};
    }
  }

  /** A system at rest has lost nobody: the tasks waiting in some channel's queue, each of them
      once, and those stranded by a close are exactly the ones that are ready or suspended. All
      others have ended, or were left running when the script broke off with an error code that
      `task_run` does not know; nothing is on its way to any of these. */
  lemma RestLosesNobody(actions: seq<Action>, t: nat)
    requires Quiet(Run(actions)) && t < |Run(actions).tasks|
    ensures var s := Run(actions); var task := s.tasks[t];
            && Waiting(s)[t] + s.stranded[t] == (if Resumable(task.status) then 1 else 0)
            && WakeUps(s)[t] == Waiting(s)[t]
            && (!Resumable(task.status) ==> task.status.Finished? || task.status.Error? || !task.yielding)
            && (NoClose(actions) ==> s.stranded[t] == 0)
  {
    var s := Run(actions);
    NothingQueued(s.sessions);
    assert Outstanding(s)[t] == Due(s.tasks, t);
    assert Well(s.sessions[s.tasks[t].sid], s.tasks[t].sid, s.tasks);
    if NoClose(actions) { NobodyStranded(actions); }
  }

  lemma {:induction false} SumPositive(bags: seq<multiset<nat>>, t: nat) returns (c: nat)
    requires Sum(bags)[t] > 0
    ensures c < |bags| && bags[c][t] > 0
  {
    var n := |bags| - 1;
    if bags[n][t] > 0 {
      c := n;
    } else {
      c := SumPositive(bags[..n], t);
    }
  }

  /** At rest and with nothing closed, every task that has not ended waits on a channel, once. */
  lemma WaitsSomewhere(actions: seq<Action>, t: nat) returns (c: nat)
    requires Quiet(Run(actions)) && t < |Run(actions).tasks| && NoClose(actions)
    requires Resumable(Run(actions).tasks[t].status)
    ensures c < |Run(actions).channels| && OfChannel(Run(actions).channels[c])[t] == 1
    ensures forall d :: 0 <= d < |Run(actions).channels| && d != c ==> OfChannel(Run(actions).channels[d])[t] == 0
  {
    hide Run, OfChannel, Sum, Resumable, Quiet;
    var cs := Run(actions).channels;
    RestLosesNobody(actions, t);
    c := SumPositive(ChannelBags(cs), t);
    SumHas(ChannelBags(cs), c, t);
    forall d | 0 <= d < |cs| && d != c ensures OfChannel(cs[d])[t] == 0 {
      SumHasBoth(ChannelBags(cs), c, d, t);
    }
  }

  lemma SumHasBoth(bags: seq<multiset<nat>>, c: nat, d: nat, t: nat)
    requires c < |bags| && d < |bags| && c != d
    ensures bags[c][t] + bags[d][t] <= Sum(bags)[t]
  {
    hide Sum;
    var rest := bags[c := multiset{}];
    SumUpdate(bags, c, multiset{});
    SumHas(rest, d, t);
    assert (Sum(rest) + bags[c])[t] == (Sum(bags) + multiset{})[t];
  }

  // ---------- The code in a run ----------

  lemma Then(actions: seq<Action>, a: Action)
    ensures Run(actions + [a]) == if Enabled(Run(actions), a) then Next(Run(actions), a) else Run(actions)
  {
    assert (actions + [a])[..|actions|] == actions;
  }

  /** `task_run` on a popped job, up to `lua_resume`: the script is always resumed, but for a new task
      whose job has no message, which is finished. */
  method StartPopped(t: TaskRecord, message: bool, ghost actions: seq<Action>, ghost i: nat, ghost k: nat)
    requires At(Run(actions), i, k, S.Taken)
    requires t.status == Run(actions).tasks[Held(Run(actions), i, k)].status
    modifies t
    ensures t.status == if message || old(t.status) == Suspended then Running else Finished
    ensures message ==> var s := Run(actions + [Enter(i, k)]);
                        At(s, i, k, S.Inside) && t.status == s.tasks[Held(s, i, k)].status
  {
    hide Run, C.Consistent, Counted, Placed;
    DefaultNeverTaken(actions, i, k);
    Then(actions, Enter(i, k));
    var resumed := t.Enter(message);
  }

  /** `task_run` when `lua_resume` is back: by a yield only after a channel operation. */
  method StopRunning(t: TaskRecord, rc: int, ghost actions: seq<Action>, ghost i: nat, ghost k: nat)
    requires At(Run(actions), i, k, S.Inside)
    requires t.status == Run(actions).tasks[Held(Run(actions), i, k)].status
    requires Run(actions).tasks[Held(Run(actions), i, k)].yielding <==> rc == LUA_YIELD
    modifies t
    ensures (t.status == Error <==> rc == LUA_ERRRUN) && (t.status == Suspended <==> rc == LUA_YIELD)
    ensures (t.status == Finished <==> rc == 0) && t.status != Ready
    ensures var s := Run(actions + [if rc == LUA_YIELD then Yield(i, k) else Return(i, k, rc)]);
            At(s, i, k, S.Over) && t.status == s.tasks[Held(s, i, k)].status
  {
    hide Run, C.Consistent, Counted, Placed;
    InsideRuns(Run(actions), i, k);
    Then(actions, if rc == LUA_YIELD then Yield(i, k) else Return(i, k, rc));
    t.Leave(rc);
  }

  /** `task_resume` from a callback in flight: it is not refused, and the job is on its way. */
  method Resume(t: TaskRecord, ghost actions: seq<Action>, ghost tid: nat) returns (rc: int)
    requires tid in Run(actions).called
    requires tid < |Run(actions).tasks| && t.status == Run(actions).tasks[tid].status
    ensures rc == SUCCESS && tid in Run(actions + [Check(tid)]).checked
  {
    hide Run, C.Consistent, Counted, Placed;
    NoCallbackRefused(actions, tid);
    Then(actions, Check(tid));
    rc := t.Refuses();
  }
}
