/** What closing a channel costs: when it leaves a task without a wake-up, and for how long. */
module Stranding {
  import opened Options
  import opened Tasks
  import opened TaskSteps
  import opened TaskRuns
  import C = Channels
  import R = ChannelRuns
  import S = Sessions

  // ---------- When ----------

  /** The close of an open channel on which task `t` waits, and an operation of `t` that comes
      after a close. */
  ghost predicate Strands(s: State, a: Action, t: nat)
    requires Enabled(s, a)
  {
    match a
    case Close(c) => s.channels[c].status.Open? && t in OfChannel(s.channels[c])
    case Operate(_, _, c, op) => s.channels[c].status.Closed? && t == op.id
    case _ => false
  }

  ghost predicate NothingStrands(actions: seq<Action>, t: nat) {
    actions == [] ||
    (var prefix, a := actions[..|actions| - 1], actions[|actions| - 1];
     NothingStrands(prefix, t) && (Enabled(Run(prefix), a) ==> !Strands(Run(prefix), a, t)))
  }

  lemma StrandsStep(s: State, a: Action, t: nat)
    requires Inv(s) && Enabled(s, a)
    ensures s.stranded[t] <= Next(s, a).stranded[t]
    ensures Next(s, a).stranded[t] == 0 <==> s.stranded[t] == 0 && !Strands(s, a, t)
  {
    hide C.Consistent, C.Step, S.Step, S.Inv, S.Enabled, Counted, Placed, R.Ids, R.Told, OfChannel;
    if a.Operate? { WhoIsCalled(s, a.channel, a.op); }
    if a.Close? {
      WhoIsCalled(s, a.channel, C.DoClose);
      CloseCosts(s.channels[a.channel]);
    }
  }

  lemma CloseCosts(x: C.State)
    requires C.Consistent(x)
    ensures multiset(R.Ids(C.Step(x, C.DoClose).calls)) == if x.status.Open? then OfChannel(x) else multiset{}
  {
    hide R.Ids, R.WriterIds;
    R.Closing(x);
    NoIds();
  }

  lemma NoIds()
    ensures R.Ids([]) == []
  {
  }

  /** A task is stranded in a run if and only if some step of it closed an open channel on which
      the task waited, or was an operation of the task that came after a close. */
  lemma {:induction false} StrandedExactly(actions: seq<Action>, t: nat)
    ensures Run(actions).stranded[t] == 0 <==> NothingStrands(actions, t)
  {
    hide Inv, Next, Strands, Enabled;
    if actions != [] {
      var prefix, a := actions[..|actions| - 1], actions[|actions| - 1];
      StrandedExactly(prefix, t);
      if Enabled(Run(prefix), a) { StrandsStep(Run(prefix), a, t); }
    }
  }

  ghost predicate NobodyStrandedBy(actions: seq<Action>) {
    forall t: nat :: NothingStrands(actions, t)
  }

  /** Nobody is stranded just when no step stranded anybody. */
  lemma {:induction false} NobodyExactly(actions: seq<Action>)
    ensures Run(actions).stranded == multiset{} <==> NobodyStrandedBy(actions)
  {
    hide Run, Strands, Enabled;
    var stranded := Run(actions).stranded;
    if stranded == multiset{} {
      forall t: nat ensures NothingStrands(actions, t) {
        StrandedExactly(actions, t);
        assert stranded[t] == 0;
      }
    } else {
      var t :| t in stranded;
      StrandedExactly(actions, t);
      assert stranded[t] > 0 && !NothingStrands(actions, t);
    }
  }

  // ---------- Who ----------

  /** The ids that channels hold, or held when they were closed. */
  ghost function OnChannels(s: State): multiset<nat> {
    Waiting(s) + s.stranded
  }

  /** Only an operation puts an id there, and it is that of the task whose script makes it. */
  lemma OnlyOperations(s: State, a: Action)
    requires Inv(s) && Enabled(s, a)
    ensures a.Operate? ==> OnChannels(Next(s, a)) <= OnChannels(s) + multiset{a.op.id}
    ensures !a.Operate? ==> OnChannels(Next(s, a)) == OnChannels(s)
  {
    hide Waiting, Counted, Placed, C.Consistent, C.Step, S.Step, S.Inv, R.Ids, R.Told, S.Enabled, Due, Outstanding;
    match a
    case NewChannel(size) => Opened(s, size);
    case Operate(_, _, c, op) =>
      WaitingShift(s, c, op);
      WhoIsCalled(s, c, op);
      Shares(Next(s, a), OnChannel(s, c, op));
      if s.channels[c].status.Closed? { Refused(s.channels[c], op); }
      Part(Waiting(Next(s, a)), multiset(R.Ids(C.Step(s.channels[c], op).calls)), Waiting(s), s.stranded, op.id);
    case Close(c) =>
      WaitingShift(s, c, C.DoClose);
      WhoIsCalled(s, c, C.DoClose);
      Passed(Waiting(Next(s, a)), multiset(R.Ids(C.Step(s.channels[c], C.DoClose).calls)), Waiting(s), s.stranded);
    case _ => Shares(Next(s, a), s);
  }

  lemma Part(a: multiset<nat>, calls: multiset<nat>, b: multiset<nat>, stranded: multiset<nat>, id: nat)
    ensures a + calls == b + multiset{id} ==> a + stranded <= b + stranded + multiset{id}
    ensures a + calls == b ==> a + (stranded + multiset{id}) <= b + stranded + multiset{id}
  {
    if a + calls == b + multiset{id} { assert a <= b + multiset{id}; }
    if a + calls == b { assert a <= b; }
  }

  lemma Passed(a: multiset<nat>, calls: multiset<nat>, b: multiset<nat>, stranded: multiset<nat>)
    requires a + calls == b
    ensures a + (stranded + calls) == b + stranded
  {
    assert a + (stranded + calls) == (a + calls) + stranded;
  }

  lemma Opened(s: State, size: int)
    ensures Waiting(s.(channels := s.channels + [C.Fresh(size)])) == Waiting(s)
  {
    hide Sum, ChannelBags, OfChannel;
    ChannelAdded(s.channels, C.Fresh(size));
    Empty(size);
  }

  lemma Refused(x: C.State, op: C.Op)
    requires C.Consistent(x) && x.status.Closed?
    ensures C.Step(x, op).calls == [] && R.Ids([]) == []
  {
  }

  /** A task that was never run is on no channel. */
  ghost predicate FreshElsewhere(s: State) {
    forall t :: 0 <= t < |s.tasks| && s.tasks[t].status.Ready? ==> OnChannels(s)[t] == 0
  }

  lemma ReadyBefore(s: State, a: Action, t: nat)
    requires Inv(s) && Enabled(s, a) && t < |Next(s, a).tasks| && Next(s, a).tasks[t].status.Ready?
    ensures t < |s.tasks| ==> s.tasks[t].status.Ready?
    ensures t >= |s.tasks| ==> a.Create? && t == |s.tasks|
    ensures a.Operate? ==> t != a.op.id
  {
    hide Counted, C.Consistent, C.Step, S.Step, R.Ids, Outstanding;
    if a.Yield? || a.Return? || a.Operate? { InsideRuns(s, a.session, a.who); }
  }

  lemma FreshElsewhereStep(s: State, a: Action)
    requires Inv(s) && Enabled(s, a) && FreshElsewhere(s)
    ensures FreshElsewhere(Next(s, a))
  {
    hide Next, Waiting, OnChannels, Placed, Queued;
    var u := Next(s, a);
    forall t | 0 <= t < |u.tasks| && u.tasks[t].status.Ready? ensures OnChannels(u)[t] == 0 {
      ReadyBefore(s, a, t);
      OnlyOperations(s, a);
      if t == |s.tasks| { Unknown(s, t); }
    }
  }

  lemma Unknown(s: State, t: nat)
    requires Inv(s) && t >= |s.tasks|
    ensures OnChannels(s)[t] == 0
  {
    hide Waiting, Queued;
    assert Outstanding(s)[t] == Due(s.tasks, t);
  }

  lemma {:induction false} AlwaysFreshElsewhere(actions: seq<Action>)
    ensures FreshElsewhere(Run(actions))
  {
    hide Inv, Next, Enabled, FreshElsewhere;
    if actions == [] {
      NobodyYet();
    } else {
      var prefix, a := actions[..|actions| - 1], actions[|actions| - 1];
      AlwaysFreshElsewhere(prefix);
      if Enabled(Run(prefix), a) { FreshElsewhereStep(Run(prefix), a); }
    }
  }

  lemma NobodyYet()
    ensures FreshElsewhere(Initial())
  {
  }

  /** A stranded task is suspended, or about to be, and nothing is on its way to wake it. */
  ghost predicate Lost(s: State, t: nat) {
    && t < |s.tasks| && s.stranded[t] == 1 && WakeUps(s)[t] == 0
    && (s.tasks[t].status.Suspended? || (s.tasks[t].status.Running? && s.tasks[t].yielding))
  }

  lemma {:induction false} StrandedIsLost(actions: seq<Action>, t: nat)
    requires Run(actions).stranded[t] > 0
    ensures Lost(Run(actions), t)
  {
    hide Run, WakeUps, Waiting;
    var s := Run(actions);
    AlwaysFreshElsewhere(actions);
    assert Outstanding(s)[t] == Due(s.tasks, t);
  }

  // ---------- For how long ----------

  /** No step of anybody wakes a stranded task: at most it goes through with its yield. */
  lemma LostStays(s: State, a: Action, t: nat)
    requires Inv(s) && Enabled(s, a) && Lost(s, t)
    ensures t < |Next(s, a).tasks|
    ensures s.tasks[t].status.Suspended? ==> Next(s, a).tasks[t] == s.tasks[t]
    ensures s.tasks[t].status.Running? ==> Next(s, a).tasks[t] in {s.tasks[t], Task(s.tasks[t].sid, Suspended, false)}
  {
    hide Counted, C.Consistent, C.Step, S.Step, R.Ids, Waiting, Queued;
    if a.Yield? || a.Return? || a.Operate? { InsideRuns(s, a.session, a.who); }
    if a.Enter? { PoppedQueued(s, a.session, a.who); PoppedResumable(s, a.session, a.who); }
  }

  /** Once stranded, a task stays so in every continuation; once suspended, it never changes. */
  lemma {:induction false} LostForever(actions: seq<Action>, more: seq<Action>, t: nat)
    requires Lost(Run(actions), t)
    ensures Lost(Run(actions + more), t)
    ensures Run(actions).tasks[t].status.Suspended? ==> Run(actions + more).tasks[t] == Run(actions).tasks[t]
    decreases |more|
  {
    hide Inv, Next, Enabled, WakeUps;
    if more == [] {
      assert actions + more == actions;
    } else {
      var n := |more| - 1;
      var before, a := actions + more[..n], more[n];
      LostForever(actions, more[..n], t);
      assert (actions + more)[..|actions + more| - 1] == before && (actions + more)[|actions + more| - 1] == a;
      if Enabled(Run(before), a) {
        StrandsStep(Run(before), a, t);
        LostStays(Run(before), a, t);
      }
      StrandedIsLost(actions + more, t);
    }
  }

  // ---------- A run that strands a task ----------

  ghost function Script(n: nat): Action {
    match n
    case 0 => NewChannel(0)
    case 1 => NewSession
    case 2 => Create(0)
    case 3 => Check(0)
    case 4 => Push(0)
    case 5 => Begin(0)
    case 6 => Enter(0, 0)
    case 7 => Operate(0, 0, 0, C.DoRead(0))
    case 8 => Yield(0, 0)
    case _ => Close(0)
  }

  ghost function Channel(n: nat): C.State {
    C.State(0, if n < 10 then C.Open else C.Closed, [], if 8 <= n < 10 then [0] else [], [])
  }

  ghost function Session(n: nat): S.State<nat> {
    if n < 5 then S.Fresh()
    else if n == 5 then S.State(S.Ready, [0], 1, [], 0)
    else
      var stage := if n == 6 then S.Taken else if n < 9 then S.Inside else S.Over;
      S.State(S.Running, [], 0, [S.Worker(Some(0), stage)], 0)
  }

  ghost function TheTask(n: nat): Task {
    Task(0, if n < 7 then Ready else if n < 9 then Running else Suspended, n == 8)
  }

  /** What the run has come to after `n` steps. */
  ghost function Trace(n: nat): State {
    State(if n < 1 then [] else [Channel(n)], if n < 2 then [] else [Session(n)], if n < 3 then [] else [TheTask(n)],
          if n == 3 then multiset{0} else multiset{}, if n == 4 then multiset{0} else multiset{},
          if n < 10 then multiset{} else multiset{0})
  }

  lemma SessionGoes()
    ensures S.Step(Session(4), S.Enqueue(0)) == Session(5)
    ensures S.Enabled(Session(5), S.Begin) && S.Step(Session(5), S.Begin) == Session(6)
    ensures S.Enabled(Session(6), S.Enter(0)) && S.Step(Session(6), S.Enter(0)) == Session(7)
    ensures S.Enabled(Session(8), S.Leave(0)) && S.Step(Session(8), S.Leave(0)) == Session(9)
  {
    assert S.Step(Session(4), S.Enqueue(0)).queue == [0];
    assert S.Step(Session(5), S.Begin).active == Session(6).active;
    assert S.Step(Session(6), S.Enter(0)).active == Session(7).active;
    assert S.Step(Session(8), S.Leave(0)).active == Session(9).active;
  }

  lemma ChannelGoes()
    ensures C.Fresh(0) == Channel(1)
    ensures C.Step(Channel(7), C.DoRead(0)).state == Channel(8) && C.Step(Channel(7), C.DoRead(0)).calls == []
    ensures C.Step(Channel(9), C.DoClose).state == Channel(10)
    ensures R.Ids(C.Step(Channel(9), C.DoClose).calls) == [0]
  {
    assert C.Step(Channel(7), C.DoRead(0)).state.readers == [0];
    R.Closing(Channel(9));
    assert R.WriterIds([]) == [];
  }

  lemma TraceCreates(n: nat)
    requires 0 <= n < 3 && Parts(Trace(n))
    ensures Enabled(Trace(n), Script(n)) && Next(Trace(n), Script(n)) == Trace(n + 1)
  {
    hide S.Step, C.Step, S.Inv, C.Consistent, R.Ids, R.Told;
    SessionGoes();
    ChannelGoes();
    NoIds();
    var u, t := Next(Trace(n), Script(n)), Trace(n + 1);
    assert u.channels == t.channels && u.sessions == t.sessions && u.tasks == t.tasks;
    assert u.called == t.called && u.checked == t.checked && u.stranded == t.stranded;
  }

  lemma TraceResumes(n: nat)
    requires 3 <= n < 6 && Parts(Trace(n))
    ensures Enabled(Trace(n), Script(n)) && Next(Trace(n), Script(n)) == Trace(n + 1)
  {
    hide S.Step, C.Step, S.Inv, C.Consistent, R.Ids, R.Told;
    SessionGoes();
    ChannelGoes();
    NoIds();
    var u, t := Next(Trace(n), Script(n)), Trace(n + 1);
    assert u.channels == t.channels && u.sessions == t.sessions && u.tasks == t.tasks;
    assert u.called == t.called && u.checked == t.checked && u.stranded == t.stranded;
  }

  lemma TraceReads(n: nat)
    requires 6 <= n < 8 && Parts(Trace(n))
    ensures Enabled(Trace(n), Script(n)) && Next(Trace(n), Script(n)) == Trace(n + 1)
  {
    hide S.Step, C.Step, S.Inv, C.Consistent, R.Ids, R.Told;
    if n == 7 { WhoIsCalled(Trace(7), 0, C.DoRead(0)); }
    SessionGoes();
    ChannelGoes();
    NoIds();
    var u, t := Next(Trace(n), Script(n)), Trace(n + 1);
    assert u.channels == t.channels && u.sessions == t.sessions && u.tasks == t.tasks;
    assert u.called == t.called && u.checked == t.checked && u.stranded == t.stranded;
  }

  lemma TraceCloses(n: nat)
    requires 8 <= n < 10 && Parts(Trace(n))
    ensures Enabled(Trace(n), Script(n)) && Next(Trace(n), Script(n)) == Trace(n + 1)
  {
    hide S.Step, C.Step, S.Inv, C.Consistent, R.Ids, R.Told;
    if n == 9 { WhoIsCalled(Trace(9), 0, C.DoClose); }
    SessionGoes();
    ChannelGoes();
    NoIds();
    var u, t := Next(Trace(n), Script(n)), Trace(n + 1);
    assert u.channels == t.channels && u.sessions == t.sessions && u.tasks == t.tasks;
    assert u.called == t.called && u.checked == t.checked && u.stranded == t.stranded;
  }

  lemma TraceStep(n: nat)
    requires n < 10 && Parts(Trace(n))
    ensures Enabled(Trace(n), Script(n)) && Next(Trace(n), Script(n)) == Trace(n + 1)
  {
    hide Trace, Script, Next, Enabled, Parts;
    if n < 3 { TraceCreates(n); } else if n < 6 { TraceResumes(n); }
    else if n < 8 { TraceReads(n); } else { TraceCloses(n); }
  }

  lemma {:induction false} Played(n: nat) returns (actions: seq<Action>)
    requires n <= 10
    ensures Run(actions) == Trace(n)
  {
    hide Trace, Script, Next, Enabled, Counted, Placed;
    if n == 0 {
      actions := [];
      assert Run(actions) == Trace(0) by { Starts(); }
    } else {
      actions := Played(n - 1);
      TraceStep(n - 1);
      assert (actions + [Script(n - 1)])[..|actions|] == actions;
      actions := actions + [Script(n - 1)];
    }
  }

  lemma Starts()
    ensures Run([]) == Trace(0)
  {
  }

  /** One task reads from an unbuffered channel, waits, and the channel is closed: the task is
      suspended for good. */
  lemma ACloseStrands() returns (actions: seq<Action>)
    ensures forall more :: Lost(Run(actions + more), 0) && Run(actions + more).tasks[0].status.Suspended?
  {
    hide Run;
    actions := Played(10);
    StrandedIsLost(actions, 0);
    forall more ensures Lost(Run(actions + more), 0) && Run(actions + more).tasks[0].status.Suspended? {
      LostForever(actions, more, 0);
    }
  }
}
