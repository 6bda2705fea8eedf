/** Every step of the task system keeps its invariant: how each step moves the wake-ups, and that
    jobs stay with the session that runs their task. */
module TaskSteps {
  import opened Sequences
  import opened Options
  import opened Tasks
  import C = Channels
  import R = ChannelRuns
  import S = Sessions

  // ---------- Where one step moves the wake-ups ----------

  lemma {:induction false} SumUpdate(bags: seq<multiset<nat>>, i: nat, b: multiset<nat>)
    requires i < |bags|
    ensures Sum(bags[i := b]) + bags[i] == Sum(bags) + b
  {
    var n := |bags| - 1;
    if i == n {
      assert bags[i := b][..n] == bags[..n] && bags[i := b][n] == b;
    } else {
      var front := bags[..n];
      SumUpdate(front, i, b);
      assert bags[i := b][..n] == front[i := b];
      assert bags[i := b][n] == bags[n] && front[i] == bags[i];
      AddBoth(Sum(front[i := b]), bags[i], Sum(front), b, bags[n]);
    }
  }

  lemma AddBoth(a: multiset<nat>, b: multiset<nat>, c: multiset<nat>, d: multiset<nat>, e: multiset<nat>)
    requires a + b == c + d
    ensures (a + e) + b == (c + e) + d
  {
    forall t: nat ensures ((a + e) + b)[t] == ((c + e) + d)[t] {
      assert (a + b)[t] == (c + d)[t];
    }
  }

  lemma SumMore(bags: seq<multiset<nat>>, b: multiset<nat>)
    ensures Sum(bags + [b]) == Sum(bags) + b
  {
    assert (bags + [b])[..|bags|] == bags;
  }

  lemma {:induction false} SumHas(bags: seq<multiset<nat>>, i: nat, t: nat)
    requires i < |bags|
    ensures bags[i][t] <= Sum(bags)[t]
  {
    var n := |bags| - 1;
    if i < n { SumHas(bags[..n], i, t); }
  }

  lemma ChannelChanges(cs: seq<C.State>, c: nat, x: C.State)
    requires c < |cs|
    ensures Sum(ChannelBags(cs[c := x])) + OfChannel(cs[c]) == Sum(ChannelBags(cs)) + OfChannel(x)
  {
    hide Sum, OfChannel;
    SumUpdate(ChannelBags(cs), c, OfChannel(x));
    assert ChannelBags(cs[c := x]) == ChannelBags(cs)[c := OfChannel(x)];
  }

  lemma ChannelAdded(cs: seq<C.State>, x: C.State)
    ensures Sum(ChannelBags(cs + [x])) == Sum(ChannelBags(cs)) + OfChannel(x)
  {
    hide Sum, OfChannel;
    SumMore(ChannelBags(cs), OfChannel(x));
    assert ChannelBags(cs + [x]) == ChannelBags(cs) + [OfChannel(x)];
  }

  lemma SessionChanges(xs: seq<S.State<nat>>, i: nat, x: S.State<nat>)
    requires i < |xs|
    ensures Sum(SessionBags(xs[i := x])) + OfSession(xs[i]) == Sum(SessionBags(xs)) + OfSession(x)
  {
    hide Sum, OfSession;
    SumUpdate(SessionBags(xs), i, OfSession(x));
    assert SessionBags(xs[i := x]) == SessionBags(xs)[i := OfSession(x)];
  }

  lemma SessionAdded(xs: seq<S.State<nat>>, x: S.State<nat>)
    ensures Sum(SessionBags(xs + [x])) == Sum(SessionBags(xs)) + OfSession(x)
  {
    hide Sum, OfSession;
    SumMore(SessionBags(xs), OfSession(x));
    assert SessionBags(xs + [x]) == SessionBags(xs) + [OfSession(x)];
  }

  /** One channel operation turns its own id and the waiting ids into waiting ids and callbacks. */
  lemma ChannelMoves(c: C.State, op: C.Op)
    requires C.Consistent(c)
    ensures OfChannel(C.Step(c, op).state) + multiset(R.Ids(C.Step(c, op).calls))
         == OfChannel(c) + (if c.status.Open? && !op.DoClose? then multiset{op.id} else multiset{})
  {
    hide C.Step, R.WriterIds, C.Consistent;
    var asked := c.readers + R.WriterIds(c.writers);
    var h := R.History([], [], [], asked, [], []);
    assert R.Ids(h.calls) == [];
    R.AnswerStep(c, h, op);
    assert h.calls + C.Step(c, op).calls == C.Step(c, op).calls;
  }

  lemma OneWorker(w: S.Worker<nat>)
    ensures OfWorkers([w]) == OfWorker(w)
    ensures OfWorkers([]) == multiset{}
  {
  }

  lemma EnqueueMoves(x: S.State<nat>, t: nat)
    ensures OfSession(S.Step(x, S.Enqueue(t))) == OfSession(x) + multiset{t}
  {
    hide OfWorkers;
  }

  lemma BeginMoves(x: S.State<nat>)
    requires S.Inv(x) && S.Enabled(x, S.Begin)
    ensures OfSession(S.Step(x, S.Begin)) == OfSession(x)
  {
    hide OfWorkers;
    if x.status.Ready? {
      var w := S.Worker(Head(x.queue), S.Taken);
      OneWorker(w);
      assert x.active == [] && x.active + [w] == [w];
      if x.queue != [] { Popped(x.queue); }
    }
  }

  /** Entering takes its job off; leaving and ending take nothing, unless the job was not entered. */
  lemma WorkerMoves(x: S.State<nat>, op: S.Op<nat>)
    requires S.Inv(x) && S.Enabled(x, op) && !op.Enqueue? && !op.Begin?
    ensures x.active != []
    ensures OfSession(x) == OfSession(S.Step(x, op)) + OfWorker(x.active[0])
  {
    hide OfWorkers;
    OneWorker(x.active[0]);
    assert x.active == [x.active[0]];
    var y := S.Step(x, op);
    if op.End? {
      assert y.active == [];
    } else {
      assert y.active == [y.active[0]];
      OneWorker(y.active[0]);
    }
  }

  lemma SessionShift(s: State, i: nat, op: S.Op<nat>)
    requires Parts(s) && i < |s.sessions| && S.Enabled(s.sessions[i], op)
    ensures op.Enqueue? ==> Queued(InSession(s, i, op)) == Queued(s) + multiset{op.job}
    ensures op.Begin? ==> Queued(InSession(s, i, op)) == Queued(s)
    ensures !op.Enqueue? && !op.Begin? ==>
              && s.sessions[i].active != []
              && Queued(s) == Queued(InSession(s, i, op)) + OfWorker(s.sessions[i].active[0])
  {
    hide Sum, OfSession, SessionBags, OfWorker, S.Step;
    var x := s.sessions[i];
    SessionChanges(s.sessions, i, S.Step(x, op));
    var before, after := Sum(SessionBags(s.sessions)), Sum(SessionBags(InSession(s, i, op).sessions));
    match op
    case Enqueue(t) =>
      EnqueueMoves(x, t);
      Cancel(after, OfSession(x), before, OfSession(S.Step(x, op)), multiset{t});
    case Begin =>
      BeginMoves(x);
      Cancel(after, OfSession(x), before, OfSession(S.Step(x, op)), multiset{});
    case _ =>
      WorkerMoves(x, op);
      Cancel(before, OfSession(S.Step(x, op)), after, OfSession(x), OfWorker(x.active[0]));
  }

  lemma Cancel(a: multiset<nat>, b: multiset<nat>, c: multiset<nat>, d: multiset<nat>, e: multiset<nat>)
    requires a + b == c + d && d == b + e
    ensures a == c + e
  {
    forall t: nat ensures a[t] == (c + e)[t] {
      assert (a + b)[t] == (c + d)[t];
    }
  }

  /** On the channels: the operation's own id comes in, the ids called back go out. */
  lemma WaitingShift(s: State, c: nat, op: C.Op)
    requires Parts(s) && c < |s.channels|
    ensures Waiting(OnChannel(s, c, op)) + multiset(R.Ids(C.Step(s.channels[c], op).calls))
         == Waiting(s) + (if s.channels[c].status.Open? && !op.DoClose? then multiset{op.id} else multiset{})
  {
    hide Sum, OfChannel, ChannelBags, C.Step, C.Consistent, R.Ids, S.Inv;
    var x := s.channels[c];
    var o := C.Step(x, op);
    ChannelChanges(s.channels, c, o.state);
    ChannelMoves(x, op);
    var own := if x.status.Open? && !op.DoClose? then multiset{op.id} else multiset{};
    Trade(Sum(ChannelBags(s.channels[c := o.state])), OfChannel(x), Sum(ChannelBags(s.channels)), OfChannel(o.state),
          multiset(R.Ids(o.calls)), own);
  }

  /** Only a close leaves anybody without a wake-up. */
  lemma {:induction false} WhoIsCalled(s: State, c: nat, op: C.Op)
    requires Parts(s) && c < |s.channels|
    ensures var t, ids := OnChannel(s, c, op), multiset(R.Ids(C.Step(s.channels[c], op).calls));
            && t.called == s.called + (if op.DoClose? then multiset{} else ids)
            && t.stranded == s.stranded + (if op.DoClose? then ids else multiset{})
  {
    hide R.Ids, R.Told, C.Step, C.Consistent, S.Inv;
    R.ToldByStep(s.channels[c], op);
  }

  lemma ChannelShift(s: State, c: nat, op: C.Op)
    requires Parts(s) && c < |s.channels|
    ensures Outstanding(OnChannel(s, c, op))
         == Outstanding(s) + (if s.channels[c].status.Open? && !op.DoClose? then multiset{op.id} else multiset{})
  {
    hide Waiting, Queued, C.Step, C.Consistent, R.Ids, R.Told, S.Inv;
    WaitingShift(s, c, op);
    WhoIsCalled(s, c, op);
    var t, calls := OnChannel(s, c, op), multiset(R.Ids(C.Step(s.channels[c], op).calls));
    var own := if s.channels[c].status.Open? && !op.DoClose? then multiset{op.id} else multiset{};
    Shares(t, s);
    CallsCounted(Waiting(t), calls, Waiting(s), own, s.called, s.checked + Queued(s), s.stranded);
    assert Outstanding(t) == Waiting(t) + t.called + (s.checked + Queued(s)) + t.stranded;
    assert Outstanding(s) == Waiting(s) + s.called + (s.checked + Queued(s)) + s.stranded;
  }

  lemma CallsCounted(after: multiset<nat>, calls: multiset<nat>, before: multiset<nat>, own: multiset<nat>,
                     called: multiset<nat>, queued: multiset<nat>, stranded: multiset<nat>)
    requires after + calls == before + own
    ensures after + (called + calls) + queued + stranded == before + called + queued + stranded + own
    ensures after + called + queued + (stranded + calls) == before + called + queued + stranded + own
  {
    assert after + (called + calls) + queued + stranded == (after + calls) + (called + queued + stranded);
    assert after + called + queued + (stranded + calls) == (after + calls) + (called + queued + stranded);
    assert before + called + queued + stranded + own == (before + own) + (called + queued + stranded);
  }

  lemma Trade(a: multiset<nat>, b: multiset<nat>, c: multiset<nat>, d: multiset<nat>,
              e: multiset<nat>, f: multiset<nat>)
    requires a + b == c + d && d + e == b + f
    ensures a + e == c + f
  {
    forall t: nat ensures (a + e)[t] == (c + f)[t] {
      assert (a + b)[t] == (c + d)[t] && (d + e)[t] == (b + f)[t];
    }
  }

  // ---------- Every step keeps the count ----------

  /** A job that a worker popped and has not entered is a wake-up. */
  lemma PoppedQueued(s: State, i: nat, k: nat)
    requires Parts(s) && At(s, i, k, S.Taken)
    ensures Queued(s)[Held(s, i, k)] > 0
  {
    hide Sum;
    var x, t := s.sessions[i], Held(s, i, k);
    assert S.Inv(x) && x.active == [x.active[0]];
    OneWorker(x.active[0]);
    SumHas(SessionBags(s.sessions), i, t);
    assert OfSession(x)[t] > 0 && SessionBags(s.sessions)[i] == OfSession(x);
  }

  /** The job a worker popped finds its task ready or suspended. */
  lemma PoppedResumable(s: State, i: nat, k: nat)
    requires Inv(s) && At(s, i, k, S.Taken)
    ensures Resumable(s.tasks[Held(s, i, k)].status)
  {
    hide Queued, Waiting;
    var x, t := s.sessions[i], Held(s, i, k);
    PoppedQueued(s, i, k);
    assert S.Inv(x) && x.active == [x.active[0]];
    assert Outstanding(s)[t] == Due(s.tasks, t);
    Home(s, i, k);
    assert Well(x, i, s.tasks);
  }

  /** A callback finds its task neither finished nor failed. */
  lemma CallAccepted(s: State, t: nat)
    requires Inv(s) && (t in s.called || t in s.checked)
    ensures t < |s.tasks| && !s.tasks[t].status.Finished? && !s.tasks[t].status.Error?
  {
    hide Sum;
    assert Outstanding(s)[t] == Due(s.tasks, t);
  }

  /** A new task comes with one wake-up, entering a task uses one up, and a channel operation
      creates one for its own task; everything else only passes them on. */
  ghost function Gained(s: State, a: Action): multiset<nat> {
    match a
    case Create(_) => multiset{|s.tasks|}
    case Operate(_, _, _, op) => if !op.DoClose? then multiset{op.id} else multiset{}
    case _ => multiset{}
  }

  ghost function Spent(s: State, a: Action): multiset<nat>
    requires Enabled(s, a)
  {
    match a
    case Enter(i, k) => multiset{Held(s, i, k)}
    case _ => multiset{}
  }

  lemma Enqueued(s: State, i: nat, t: nat)
    requires Parts(s) && i < |s.sessions| && t in s.checked
    ensures Outstanding(InSession(s.(checked := s.checked - multiset{t}), i, S.Enqueue(t))) == Outstanding(s)
  {
    hide Sum, SessionBags, ChannelBags, Queued, Waiting, S.Step, S.Inv, C.Consistent;
    var u := s.(checked := s.checked - multiset{t});
    assert Queued(u) == Queued(s) && Waiting(u) == Waiting(s) by { Shares(u, s); }
    var v := InSession(u, i, S.Enqueue(t));
    SessionShift(u, i, S.Enqueue(t));
    assert Waiting(v) == Waiting(s) by { Shares(v, u); }
    assert s.checked == u.checked + multiset{t};
  }

  /** What waits and what is queued depends on the channels and the sessions alone. */
  lemma Shares(s: State, t: State)
    ensures s.channels == t.channels ==> Waiting(s) == Waiting(t)
    ensures s.sessions == t.sessions ==> Queued(s) == Queued(t)
  {
  }

  lemma Begun(s: State, i: nat)
    requires Parts(s) && Enabled(s, Begin(i))
    ensures Outstanding(InSession(s, i, S.Begin)) == Outstanding(s)
  {
    hide Queued, Waiting, S.Step, S.Inv, C.Consistent;
    SessionShift(s, i, S.Begin);
    Shares(InSession(s, i, S.Begin), s);
  }

  lemma Worked(s: State, i: nat, op: S.Op<nat>, tasks: seq<Task>)
    requires Parts(s) && i < |s.sessions| && S.Enabled(s.sessions[i], op) && !op.Enqueue? && !op.Begin?
    ensures s.sessions[i].active != []
    ensures Outstanding(s) == Outstanding(InSession(s, i, op).(tasks := tasks)) + OfWorker(s.sessions[i].active[0])
  {
    hide Queued, Waiting, S.Step, S.Inv, C.Consistent, OfWorker;
    SessionShift(s, i, op);
    var u := InSession(s, i, op);
    Shares(u, s);
    Shares(u.(tasks := tasks), u);
  }

  lemma EnterActs(s: State, i: nat, k: nat)
    requires Inv(s) && Enabled(s, Enter(i, k))
    ensures Outstanding(s) == Outstanding(Next(s, Enter(i, k))) + multiset{Held(s, i, k)}
  {
    hide Outstanding, Counted, Placed, S.Step, C.Consistent;
    PoppedResumable(s, i, k);
    OnlyWorker(s, i, k);
    Worked(s, i, S.Enter(k), Next(s, Enter(i, k)).tasks);
  }

  lemma LeaveActs(s: State, i: nat, k: nat, tasks: seq<Task>)
    requires Parts(s) && i < |s.sessions| && S.Enabled(s.sessions[i], S.Leave(k))
    requires OfWorker(s.sessions[i].active[k]) == multiset{}
    ensures Outstanding(s) == Outstanding(InSession(s, i, S.Leave(k)).(tasks := tasks))
  {
    hide Outstanding, S.Step, C.Consistent;
    OnlyWorker(s, i, k);
    Worked(s, i, S.Leave(k), tasks);
  }

  lemma EndActs(s: State, i: nat, k: nat)
    requires Parts(s) && Enabled(s, End(i, k))
    ensures Outstanding(s) == Outstanding(InSession(s, i, S.End(k)))
  {
    hide Outstanding, S.Step, C.Consistent;
    OnlyWorker(s, i, k);
    Worked(s, i, S.End(k), s.tasks);
  }

  lemma SessionActs(s: State, a: Action)
    requires Inv(s) && Enabled(s, a)
    requires a.Begin? || a.Enter? || a.Yield? || a.Return? || a.Skip? || a.End?
    ensures Outstanding(s) == Outstanding(Next(s, a)) + Spent(s, a)
  {
    hide Outstanding, Counted, Placed, S.Step, S.Inv, C.Consistent;
    match a
    case Begin(i) => Begun(s, i);
    case Enter(i, k) => EnterActs(s, i, k);
    case Yield(i, k) => LeaveActs(s, i, k, Next(s, a).tasks);
    case Return(i, k, _) => LeaveActs(s, i, k, Next(s, a).tasks);
    case Skip(i, k) => LeaveActs(s, i, k, Next(s, a).tasks);
    case End(i, k) => EndActs(s, i, k);
  }

  lemma OnlyWorker(s: State, i: nat, k: nat)
    requires Parts(s) && i < |s.sessions| && k < |s.sessions[i].active|
    ensures k == 0 && |s.sessions[i].active| == 1
  {
  }

  lemma {:induction false} Added(s: State, size: int)
    ensures Outstanding(s.(channels := s.channels + [C.Fresh(size)])) == Outstanding(s)
    ensures Outstanding(s.(sessions := s.sessions + [S.Fresh()])) == Outstanding(s)
  {
    hide Sum, SessionBags, ChannelBags, OfSession, OfChannel;
    ChannelAdded(s.channels, C.Fresh(size));
    SessionAdded(s.sessions, S.Fresh());
    Empty(size);
  }

  lemma Checked(s: State, t: nat)
    requires t in s.called
    ensures Outstanding(s.(called := s.called - multiset{t}, checked := s.checked + multiset{t})) == Outstanding(s)
  {
    hide Queued, Waiting;
    var u := s.(called := s.called - multiset{t}, checked := s.checked + multiset{t});
    Shares(u, s);
    assert s.called + s.checked == u.called + u.checked;
  }

  lemma OtherActs(s: State, a: Action)
    requires Inv(s) && Enabled(s, a)
    requires !(a.Begin? || a.Enter? || a.Yield? || a.Return? || a.Skip? || a.End?)
    ensures Outstanding(Next(s, a)) == Outstanding(s) + Gained(s, a)
  {
    hide Outstanding, Counted, Placed, S.Step, C.Consistent, C.Step, R.Ids, R.Told;
    match a
    case NewChannel(size) => Added(s, size);
    case NewSession => Added(s, 0);
    case Create(sid) => Retasked(s, s.tasks + [Task(sid, Ready, false)], multiset{|s.tasks|});
    case Operate(_, _, c, op) =>
      ChannelShift(s, c, op);
      Stranded(OnChannel(s, c, op), Next(s, a).tasks,
               if s.channels[c].status.Closed? then multiset{op.id} else multiset{});
    case Check(t) => CallAccepted(s, t); Checked(s, t);
    case Push(t) => Enqueued(s, s.tasks[t].sid, t);
    case Close(c) => ChannelShift(s, c, C.DoClose);
  }

  lemma Stranded(s: State, tasks: seq<Task>, more: multiset<nat>)
    ensures Outstanding(s.(tasks := tasks, stranded := s.stranded + more)) == Outstanding(s) + more
  {
    hide Queued, Waiting;
    Shares(s.(tasks := tasks, stranded := s.stranded + more), s);
  }

  lemma Retasked(s: State, tasks: seq<Task>, more: multiset<nat>)
    ensures Outstanding(s.(tasks := tasks, called := s.called + more)) == Outstanding(s) + more
    ensures Outstanding(s.(tasks := tasks)) == Outstanding(s)
  {
    hide Queued, Waiting;
    Shares(s.(tasks := tasks), s);
    Shares(s.(tasks := tasks, called := s.called + more), s);
  }

  lemma Empty(size: int)
    ensures OfChannel(C.Fresh(size)) == multiset{} && OfSession(S.Fresh()) == multiset{}
  {
  }

  lemma DueSet(tasks: seq<Task>, t: nat, task: Task, u: nat)
    requires t < |tasks|
    ensures Due(tasks[t := task], u) == if u == t then Due([task], 0) else Due(tasks, u)
  {
  }

  lemma DueAdded(tasks: seq<Task>, task: Task, u: nat)
    ensures Due(tasks + [task], u) == if u == |tasks| then Due([task], 0) else Due(tasks, u)
    ensures Due(tasks, |tasks|) == 0
  {
  }

  /** The status of the task that a worker is inside of. */
  lemma InsideRuns(s: State, i: nat, k: nat)
    requires Inv(s) && At(s, i, k, S.Inside)
    ensures s.tasks[Held(s, i, k)].status.Running?
  {
  }

  lemma DueWorker(s: State, a: Action, u: nat)
    requires Inv(s) && Enabled(s, a) && (a.Enter? || a.Yield? || a.Return?)
    ensures Due(Next(s, a).tasks, u) + Spent(s, a)[u] == Due(s.tasks, u)
  {
    hide Counted, Placed, S.Step, C.Step, C.Consistent, S.Inv;
    var i, k := a.session, a.who;
    var t := Held(s, i, k);
    if a.Enter? { PoppedResumable(s, i, k); } else { InsideRuns(s, i, k); }
    DueSet(s.tasks, t, Next(s, a).tasks[t], u);
  }

  lemma DueOperation(s: State, a: Action, u: nat)
    requires Inv(s) && Enabled(s, a) && a.Operate?
    ensures Due(Next(s, a).tasks, u) == Due(s.tasks, u) + Gained(s, a)[u]
  {
    hide Counted, Placed, S.Step, C.Step, C.Consistent, S.Inv, OnChannel;
    InsideRuns(s, a.session, a.who);
    DueSet(s.tasks, a.op.id, Next(s, a).tasks[a.op.id], u);
  }

  lemma DueOther(s: State, a: Action, u: nat)
    requires Inv(s) && Enabled(s, a) && !(a.Enter? || a.Yield? || a.Return? || a.Operate?)
    ensures Due(Next(s, a).tasks, u) == Due(s.tasks, u) + Gained(s, a)[u]
  {
    hide Counted, Placed, S.Step, C.Step, C.Consistent, S.Inv, Due;
    match a
    case Create(sid) =>
      DueAdded(s.tasks, Task(sid, Ready, false), u);
      Fresh(sid);
    case _ =>
  }

  lemma Fresh(sid: nat)
    ensures Due([Task(sid, Ready, false)], 0) == 1
  {
  }

  lemma CountStep(s: State, a: Action)
    requires Inv(s) && Enabled(s, a)
    ensures Counted(Next(s, a))
  {
    hide Outstanding, Due, Next, Placed, S.Step, S.Inv, C.Consistent, Gained, Spent;
    var s' := Next(s, a);
    forall u: nat ensures Outstanding(s')[u] == Due(s'.tasks, u) {
      assert Outstanding(s)[u] == Due(s.tasks, u);
      if a.Begin? || a.Enter? || a.Yield? || a.Return? || a.Skip? || a.End? {
        SessionActs(s, a);
        assert (Outstanding(s') + Spent(s, a))[u] == Outstanding(s)[u];
      } else {
        OtherActs(s, a);
      }
      if a.Enter? || a.Yield? || a.Return? { DueWorker(s, a, u); }
      else if a.Operate? { DueOperation(s, a, u); }
      else { DueOther(s, a, u); Neither(s, a, u); }
    }
  }

  lemma Neither(s: State, a: Action, u: nat)
    requires Enabled(s, a)
    ensures a.Begin? || a.Skip? || a.End? ==> Gained(s, a)[u] == Spent(s, a)[u] == 0
  {
  }

  lemma SessionParts(s: State, i: nat, op: S.Op<nat>)
    requires Parts(s) && i < |s.sessions| && S.Enabled(s.sessions[i], op)
    ensures Parts(InSession(s, i, op))
  {
    hide C.Consistent, S.Inv, S.Step, S.Enabled;
    S.InvStep(s.sessions[i], op);
  }

  lemma ChannelParts(s: State, c: nat, op: C.Op)
    requires Parts(s) && c < |s.channels|
    ensures Parts(OnChannel(s, c, op))
  {
    hide C.Consistent, S.Inv, C.Step, R.Ids;
    C.StepConsistent(s.channels[c], op);
  }

  lemma FreshParts(size: int)
    ensures C.Consistent(C.Fresh(size)) && S.Inv(S.Fresh<nat>())
  {
  }

  lemma PartsStep(s: State, a: Action)
    requires Parts(s) && Enabled(s, a)
    ensures Parts(Next(s, a))
  {
    hide C.Consistent, S.Inv, S.Step, OnChannel;
    match a
    case NewChannel(size) => FreshParts(size);
    case NewSession => FreshParts(0);
    case Create(_) =>
    case Begin(i) => SessionParts(s, i, S.Begin);
    case Enter(i, k) => SessionParts(s, i, S.Enter(k)); SessionParts(s, i, S.Leave(k));
    case Operate(_, _, c, op) => ChannelParts(s, c, op);
    case Yield(i, k) => SessionParts(s, i, S.Leave(k));
    case Return(i, k, _) => SessionParts(s, i, S.Leave(k));
    case Skip(i, k) => SessionParts(s, i, S.Leave(k));
    case End(i, k) => SessionParts(s, i, S.End(k));
    case Check(_) =>
    case Push(t) => SessionParts(s.(checked := s.checked - multiset{t}), s.tasks[t].sid, S.Enqueue(t));
    case Close(c) => ChannelParts(s, c, C.DoClose);
  }

  // ---------- Every step keeps jobs with their tasks ----------

  lemma Elsewhere(x: S.State<nat>, j: nat, tasks: seq<Task>, t: nat, task: Task)
    requires Well(x, j, tasks) && t < |tasks| && tasks[t].sid != j && task.sid == tasks[t].sid
    ensures Well(x, j, tasks[t := task])
  {
  }

  lemma WithNew(x: S.State<nat>, j: nat, tasks: seq<Task>, task: Task)
    requires Well(x, j, tasks) && !task.yielding
    ensures Well(x, j, tasks + [task])
  {
  }

  /** A step of a session that touches no task. */
  ghost predicate Apart(x: S.State<nat>, i: nat, tasks: seq<Task>, op: S.Op<nat>) {
    S.Enabled(x, op) &&
    match op
    case Enqueue(t) => t < |tasks| && tasks[t].sid == i
    case Begin => true
    case Enter(_) => false
    case Leave(k) => x.active[k].stage.Taken?
    case End(_) => true
  }

  lemma HostsStep(x: S.State<nat>, i: nat, tasks: seq<Task>, op: S.Op<nat>)
    requires S.Inv(x) && Hosts(x, i, tasks) && Apart(x, i, tasks, op)
    ensures Hosts(S.Step(x, op), i, tasks)
  {
    if op.Begin? && x.queue != [] {
      assert x.queue[0] in x.queue;
      assert forall t :: t in x.queue[1..] ==> t in x.queue;
    }
  }

  lemma DrivesStep(x: S.State<nat>, i: nat, tasks: seq<Task>, op: S.Op<nat>)
    requires S.Inv(x) && Drives(x, i, tasks) && Apart(x, i, tasks, op)
    ensures Drives(S.Step(x, op), i, tasks)
  {
    assert x.active == [] || x.active == [x.active[0]];
  }

  lemma WellStep(x: S.State<nat>, i: nat, tasks: seq<Task>, op: S.Op<nat>)
    requires S.Inv(x) && Well(x, i, tasks) && Apart(x, i, tasks, op)
    ensures Well(S.Step(x, op), i, tasks)
  {
    hide Hosts, Drives, S.Step, S.Inv;
    HostsStep(x, i, tasks, op);
    DrivesStep(x, i, tasks, op);
  }

  lemma WellEnter(x: S.State<nat>, i: nat, tasks: seq<Task>, k: nat)
    requires S.Inv(x) && Well(x, i, tasks) && S.Enabled(x, S.Enter(k))
    ensures var t := x.active[k].job.value; Well(S.Step(x, S.Enter(k)), i, tasks[t := Task(i, Running, false)])
  {
  }

  lemma WellLeave(x: S.State<nat>, i: nat, tasks: seq<Task>, k: nat, status: Status)
    requires S.Inv(x) && Well(x, i, tasks) && S.Enabled(x, S.Leave(k)) && x.active[k].stage.Inside?
    ensures var t := x.active[k].job.value; Well(S.Step(x, S.Leave(k)), i, tasks[t := Task(i, status, false)])
  {
  }

  lemma WellYielding(x: S.State<nat>, i: nat, tasks: seq<Task>, k: nat)
    requires S.Inv(x) && Well(x, i, tasks) && k < |x.active| && x.active[k].stage.Inside?
    ensures var t := x.active[k].job.value; Well(x, i, tasks[t := tasks[t].(yielding := true)])
  {
    assert x.active == [x.active[0]];
  }

  /** Session `i` and task `t` of it change, and all stays in place there: so it does everywhere. */
  lemma PlacedBy(s: State, s': State, i: nat, t: nat)
    requires Placed(s) && i < |s.sessions| && t < |s.tasks| && s.tasks[t].sid == i
    requires |s'.sessions| == |s.sessions|
    requires forall j :: 0 <= j < |s.sessions| && j != i ==> s'.sessions[j] == s.sessions[j]
    requires |s'.tasks| == |s.tasks| && s'.tasks == s.tasks[t := s'.tasks[t]] && s'.tasks[t].sid == i
    requires Well(s'.sessions[i], i, s'.tasks)
    ensures Placed(s')
  {
    hide Well;
    forall j | 0 <= j < |s.sessions| && j != i ensures Well(s'.sessions[j], j, s'.tasks) {
      Elsewhere(s.sessions[j], j, s.tasks, t, s'.tasks[t]);
    }
  }

  lemma PlacedIn(s: State, i: nat, op: S.Op<nat>)
    requires Placed(s) && i < |s.sessions| && S.Enabled(s.sessions[i], op)
    requires Well(S.Step(s.sessions[i], op), i, s.tasks)
    ensures Placed(InSession(s, i, op))
  {
    hide Well, S.Step;
  }

  lemma PlacedWorker(s: State, a: Action)
    requires Inv(s) && Enabled(s, a) && (a.Enter? || a.Yield? || a.Return? || a.Operate?)
    ensures Placed(Next(s, a))
  {
    hide Counted, C.Step, C.Consistent, S.Step, Well;
    var i, k := a.session, a.who;
    var x, t := s.sessions[i], Held(s, i, k);
    Home(s, i, k);
    match a
    case Enter(_, _) =>
      PoppedResumable(s, i, k);
      WellEnter(x, i, s.tasks, k);
      PlacedBy(s, Next(s, a), i, t);
    case Yield(_, _) =>
      WellLeave(x, i, s.tasks, k, Returned(Running, LUA_YIELD));
      PlacedBy(s, Next(s, a), i, t);
    case Return(_, _, rc) =>
      WellLeave(x, i, s.tasks, k, Returned(s.tasks[t].status, rc));
      PlacedBy(s, Next(s, a), i, t);
    case Operate(_, _, c, op) =>
      WellYielding(x, i, s.tasks, k);
      PlacedBy(s, Next(s, a), i, t);
  }

  /** A worker's task is one of its session. */
  lemma Home(s: State, i: nat, k: nat)
    requires Placed(s) && i < |s.sessions| && k < |s.sessions[i].active| && s.sessions[i].active[k].job.Some?
    ensures Held(s, i, k) < |s.tasks| && s.tasks[Held(s, i, k)].sid == i
  {
    assert Well(s.sessions[i], i, s.tasks);
  }

  lemma PlacedOther(s: State, a: Action)
    requires Inv(s) && Enabled(s, a) && !(a.Enter? || a.Yield? || a.Return? || a.Operate?)
    ensures Placed(Next(s, a))
  {
    hide Counted, C.Step, C.Consistent, S.Step, Well;
    match a
    case NewChannel(_) =>
    case NewSession => FreshWell(|s.sessions|, s.tasks, |s.sessions|);
    case Create(sid) =>
      forall i | 0 <= i < |s.sessions| ensures Well(s.sessions[i], i, Next(s, a).tasks) {
        WithNew(s.sessions[i], i, s.tasks, Task(sid, Ready, false));
      }
    case Begin(i) => WellStep(s.sessions[i], i, s.tasks, S.Begin); PlacedIn(s, i, S.Begin);
    case Skip(i, k) => WellStep(s.sessions[i], i, s.tasks, S.Leave(k)); PlacedIn(s, i, S.Leave(k));
    case End(i, k) => WellStep(s.sessions[i], i, s.tasks, S.End(k)); PlacedIn(s, i, S.End(k));
    case Check(_) =>
    case Push(t) =>
      var i := s.tasks[t].sid;
      WellStep(s.sessions[i], i, s.tasks, S.Enqueue(t));
      PlacedIn(s.(checked := s.checked - multiset{t}), i, S.Enqueue(t));
    case Close(_) =>
  }

  lemma FreshWell(i: nat, tasks: seq<Task>, n: nat)
    requires i == n && forall t :: 0 <= t < |tasks| ==> tasks[t].sid < n
    ensures Well(S.Fresh(), i, tasks)
  {
    var x: S.State<nat> := S.Fresh();
    assert x.queue == [] && x.active == [];
  }

  lemma InvStep(s: State, a: Action)
    requires Inv(s) && Enabled(s, a)
    ensures Inv(Next(s, a))
  {
    hide Counted, Placed, Enabled, Next, Well;
    PartsStep(s, a);
    CountStep(s, a);
    if a.Enter? || a.Yield? || a.Return? || a.Operate? { PlacedWorker(s, a); } else { PlacedOther(s, a); }
  }
}
