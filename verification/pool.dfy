/** The thread pool of `src/lc_thread.c`: submitting a job, the workers' loop over a timed wait on
    the semaphore, and the two limits, as methods of a pool and as steps of a run in which the
    workers interleave freely. */
module ThreadPools {
  import opened Numbers
  import opened Options

  /** Where a worker is: in the timed wait, past it with a permit, running a job, past it without
      a permit, out of the loop but still counted, gone. */
  datatype Phase<J> = Waiting | Awake | Busy(job: J) | Expired | Leaving | Gone

  datatype State<J> = State(min: int, max: int, threads: int, permits: nat, jobs: seq<J>, workers: seq<Phase<J>>)

  /** `creates` says whether `pthread_create` succeeds, should it be called. */
  datatype Op<J> =
    | Submit(job: J, creates: bool)
    | Wake(who: nat)
    | Pop(who: nat)
    | Done(who: nat)
    | Timeout(who: nat)
    | Retest(who: nat)
    | Leave(who: nat)
    | SetLimits(min: int, max: int)

  ghost function Fresh<J>(min: int, max: int): State<J> {
    State(min, max, 0, 0, [], [])
  }

  ghost predicate In<J>(s: State<J>, w: nat, phase: Phase<J>) {
    w < |s.workers| && s.workers[w] == phase
  }

  ghost predicate Enabled<J>(s: State<J>, op: Op<J>) {
    match op
    case Submit(_, _) => true
    case Wake(w) => In(s, w, Waiting) && s.permits > 0
    case Pop(w) => In(s, w, Awake)
    case Done(w) => w < |s.workers| && s.workers[w].Busy?
    case Timeout(w) => In(s, w, Waiting)
    case Retest(w) => In(s, w, Expired)
    case Leave(w) => In(s, w, Leaving)
    case SetLimits(_, _) => true
  }

  /** The test of `lc_threadpool_run` once the new job is in the queue. */
  predicate WantsThread(min: int, max: int, threads: int, queued: nat) {
    threads < min || (queued > 1 && threads < max)
  }

  ghost function Step<J>(s: State<J>, op: Op<J>): State<J>
    requires Enabled(s, op)
  {
    match op
    case Submit(j, creates) =>
      var t := s.(jobs := s.jobs + [j], permits := s.permits + 1);
      if creates && WantsThread(s.min, s.max, s.threads, |t.jobs|) then
        t.(threads := s.threads + 1, workers := s.workers + [Waiting])
      else t
    case Wake(w) => s.(permits := s.permits - 1, workers := s.workers[w := Awake])
    case Pop(w) =>
      if s.jobs == [] then s.(workers := s.workers[w := Leaving])
      else s.(jobs := s.jobs[1..], workers := s.workers[w := Busy(s.jobs[0])])
    case Done(w) => s.(workers := s.workers[w := Waiting])
    case Timeout(w) => s.(workers := s.workers[w := Expired])
    case Retest(w) => s.(workers := s.workers[w := if s.threads > s.min then Leaving else Waiting])
    case Leave(w) => s.(threads := s.threads - 1, workers := s.workers[w := Gone])
    case SetLimits(min, max) => s.(min := min, max := max)
  }

  // ---------- Permits, jobs and workers agree ----------

  ghost function Count<J>(ws: seq<Phase<J>>, f: Phase<J> -> bool): nat {
    if ws == [] then 0 else Count(ws[..|ws| - 1], f) + (if f(ws[|ws| - 1]) then 1 else 0)
  }

  lemma {:induction false} CountSet<J>(ws: seq<Phase<J>>, w: nat, p: Phase<J>, f: Phase<J> -> bool)
    requires w < |ws|
    ensures Count(ws[w := p], f) + (if f(ws[w]) then 1 else 0) == Count(ws, f) + (if f(p) then 1 else 0)
  {
    var n := |ws| - 1;
    if w == n {
      assert ws[w := p][..n] == ws[..n];
    } else {
      CountSet(ws[..n], w, p, f);
      assert ws[w := p][..n] == ws[..n][w := p];
    }
  }

  lemma CountAdd<J>(ws: seq<Phase<J>>, p: Phase<J>, f: Phase<J> -> bool)
    ensures Count(ws + [p], f) == Count(ws, f) + (if f(p) then 1 else 0)
  {
    assert (ws + [p])[..|ws|] == ws;
  }

  lemma {:induction false} CountHas<J>(ws: seq<Phase<J>>, w: nat, f: Phase<J> -> bool)
    requires w < |ws| && f(ws[w])
    ensures Count(ws, f) > 0
  {
    if w < |ws| - 1 { CountHas(ws[..|ws| - 1], w, f); }
  }

  /** Workers that hold a permit and have not popped yet. */
  ghost function HoldPermit<J>(ws: seq<Phase<J>>): nat {
    Count(ws, (p: Phase<J>) => p.Awake?)
  }

  ghost function Counted<J>(ws: seq<Phase<J>>): nat {
    Count(ws, (p: Phase<J>) => !p.Gone?)
  }

  ghost predicate Inv<J>(s: State<J>) {
    && |s.jobs| == s.permits + HoldPermit(s.workers)
    && s.threads == Counted(s.workers)
  }

  lemma PhaseChange<J>(ws: seq<Phase<J>>, w: nat, p: Phase<J>)
    requires w < |ws|
    ensures HoldPermit(ws[w := p]) + (if ws[w].Awake? then 1 else 0) == HoldPermit(ws) + (if p.Awake? then 1 else 0)
    ensures Counted(ws[w := p]) + (if ws[w].Gone? then 0 else 1) == Counted(ws) + (if p.Gone? then 0 else 1)
    ensures ws[w].Awake? ==> HoldPermit(ws) > 0
  {
    CountSet(ws, w, p, (q: Phase<J>) => q.Awake?);
    CountSet(ws, w, p, (q: Phase<J>) => !q.Gone?);
    if ws[w].Awake? { CountHas(ws, w, (q: Phase<J>) => q.Awake?); }
  }

  lemma Hired<J>(ws: seq<Phase<J>>)
    ensures HoldPermit(ws + [Waiting]) == HoldPermit(ws) && Counted(ws + [Waiting]) == Counted(ws) + 1
  {
    CountAdd(ws, Waiting, (q: Phase<J>) => q.Awake?);
    CountAdd(ws, Waiting, (q: Phase<J>) => !q.Gone?);
  }

  lemma InvStep<J>(s: State<J>, op: Op<J>)
    requires Inv(s) && Enabled(s, op)
    ensures Inv(Step(s, op))
  {
    hide HoldPermit, Counted;
    match op
    case Submit(_, _) => Hired(s.workers);
    case SetLimits(_, _) =>
    case _ => PhaseChange(s.workers, op.who, Step(s, op).workers[op.who]);
  }

  /** The jobs submitted, and those handed to a worker, in order. */
  datatype History<J> = History(submitted: seq<J>, dispatched: seq<J>)

  ghost function Note<J>(h: History<J>, s: State<J>, op: Op<J>): History<J> {
    match op
    case Submit(j, _) => h.(submitted := h.submitted + [j])
    case Pop(_) => if s.jobs == [] then h else h.(dispatched := h.dispatched + [s.jobs[0]])
    case _ => h
  }

  /** All runs: an operation that is not possible where it stands is skipped. */
  ghost function Run<J>(min: int, max: int, ops: seq<Op<J>>): (r: (State<J>, History<J>))
    ensures Inv(r.0)
  {
    if ops == [] then (Fresh(min, max), History([], []))
    else
      var r, op := Run(min, max, ops[..|ops| - 1]), ops[|ops| - 1];
      if Enabled(r.0, op) then
        InvStep(r.0, op);
        (Step(r.0, op), Note(r.1, r.0, op))
      else r
  }

  /** A worker that took a permit finds a job, so workers leave by timing out only. */
  lemma PopFindsAJob<J>(min: int, max: int, ops: seq<Op<J>>, w: nat)
    requires In(Run(min, max, ops).0, w, Awake)
    ensures Run(min, max, ops).0.jobs != []
    ensures Step(Run(min, max, ops).0, Pop(w)).workers[w].Busy?
  {
    var s := Run(min, max, ops).0;
    PhaseChange(s.workers, w, Waiting);
  }

  /** Jobs are dispatched once each, first in first out; and the counter of threads is the number
      of workers that have not signed off. */
  lemma {:induction false} FirstComeFirstServed<J>(min: int, max: int, ops: seq<Op<J>>)
    ensures var (s, h) := Run(min, max, ops);
            h.submitted == h.dispatched + s.jobs && s.threads == Counted(s.workers)
  {
    if ops != [] {
      FirstComeFirstServed(min, max, ops[..|ops| - 1]);
      var (s, h) := Run(min, max, ops[..|ops| - 1]);
      if Enabled(s, ops[|ops| - 1]) { OrderStep(h, s, ops[|ops| - 1]); }
    }
  }

  lemma OrderStep<J>(h: History<J>, s: State<J>, op: Op<J>)
    requires Enabled(s, op) && h.submitted == h.dispatched + s.jobs
    ensures Note(h, s, op).submitted == Note(h, s, op).dispatched + Step(s, op).jobs
  {
    if op.Pop? && s.jobs != [] { assert s.jobs == [s.jobs[0]] + s.jobs[1..]; }
  }

  ghost predicate LimitsFixed<J>(ops: seq<Op<J>>) {
    forall i :: 0 <= i < |ops| ==> !ops[i].SetLimits?
  }

  /** With fixed limits there are never more threads than the greater of the two. */
  lemma {:induction false} ThreadsWithinLimits<J>(min: int, max: int, ops: seq<Op<J>>)
    requires LimitsFixed(ops)
    ensures var s := Run(min, max, ops).0;
            s.min == min && s.max == max && (s.threads == 0 || s.threads <= if min > max then min else max)
  {
    hide Counted, HoldPermit;
    if ops != [] {
      var prefix := ops[..|ops| - 1];
      ThreadsWithinLimits(min, max, prefix);
    }
  }

  // ---------- How many threads submissions start ----------

  /** A submission starts a thread just when there are fewer than the lower limit, or when it finds
      other jobs queued and there are fewer than the upper limit. */
  lemma StartsAThread<J>(s: State<J>, job: J, creates: bool)
    ensures var t := Step(s, Submit(job, creates));
            && t.threads == s.threads + |t.workers| - |s.workers|
            && t.threads == s.threads
                            + if creates && (s.threads < s.min || (s.jobs != [] && s.threads < s.max)) then 1 else 0
  {
  }

  /** Every creation succeeds, the limits stand, and no worker signs off. */
  ghost predicate Growing<J>(ops: seq<Op<J>>) {
    forall i :: 0 <= i < |ops| ==> !ops[i].SetLimits? && !ops[i].Leave? && (ops[i].Submit? ==> ops[i].creates)
  }

  ghost predicate NoPop<J>(ops: seq<Op<J>>) {
    forall i :: 0 <= i < |ops| ==> !ops[i].Pop?
  }

  ghost function Submissions<J>(ops: seq<Op<J>>): nat {
    if ops == [] then 0 else Submissions(ops[..|ops| - 1]) + (if ops[|ops| - 1].Submit? then 1 else 0)
  }

  /** What `n` submissions make of an empty pool when none of their jobs is taken off: one thread each
      up to the greater limit, but none for the first job if the lower limit does not ask for it. */
  ghost function Started(min: int, max: int, n: nat): nat {
    Max(0, Min(if min >= 1 then n else n - 1, Max(min, max)))
  }

  /** However jobs and workers interleave, as many submissions as the lower limit start that many
      threads; and as long as no job is taken off the queue, their number is known exactly. */
  lemma {:induction false} ThreadsStarted<J>(min: int, max: int, ops: seq<Op<J>>)
    requires Growing(ops)
    ensures var s, n := Run(min, max, ops).0, Submissions(ops);
            && s.min == min && s.max == max && s.threads >= Min(n, min)
            && (NoPop(ops) ==> |s.jobs| == n && s.threads == Started(min, max, n))
  {
    hide Inv, Step;
    if ops != [] {
      var prefix, op := ops[..|ops| - 1], ops[|ops| - 1];
      ThreadsStarted(min, max, prefix);
      var s := Run(min, max, prefix).0;
      if Enabled(s, op) { Others(s, op); }
      if op.Submit? { StartsAThread(s, op.job, true); }
    }
  }

  lemma Others<J>(s: State<J>, op: Op<J>)
    requires Enabled(s, op) && !op.Leave? && !op.SetLimits?
    ensures var t := Step(s, op);
            && t.min == s.min && t.max == s.max && (!op.Submit? ==> t.threads == s.threads)
            && (!op.Pop? ==> |t.jobs| == |s.jobs| + if op.Submit? then 1 else 0)
  {
  }

  // ---------- What the exit test does not ensure ----------

  /** A worker that is still in the loop, or that its exit test may yet send back into it. */
  ghost predicate Willing<J>(s: State<J>, w: nat) {
    w < |s.workers| && (InLoop(s.workers[w]) || (s.workers[w].Expired? && s.min >= 1))
  }

  ghost predicate InLoop<J>(p: Phase<J>) {
    p.Waiting? || p.Awake? || p.Busy?
  }

  ghost predicate Staffed<J>(s: State<J>) {
    exists w :: Willing(s, w)
  }

  /** Steps of workers only: no submission and no new limits. */
  ghost predicate WorkersOnly<J>(ops: seq<Op<J>>) {
    forall i :: 0 <= i < |ops| ==> !ops[i].Submit? && !ops[i].SetLimits?
  }

  ghost function After<J>(s: State<J>, ops: seq<Op<J>>): State<J>
    decreases |ops|
  {
    if ops == [] then s
    else After(if Enabled(s, ops[0]) then Step(s, ops[0]) else s, ops[1..])
  }

  lemma Then<J>(s: State<J>, op: Op<J>, more: seq<Op<J>>)
    requires Enabled(s, op) && WorkersOnly(more) && !op.Submit? && !op.SetLimits?
    ensures After(s, [op] + more) == After(Step(s, op), more) && WorkersOnly([op] + more)
    ensures After(s, [op]) == Step(s, op)
  {
    assert ([op] + more)[1..] == more && [op][1..] == [];
  }

  /** A pool without staff does nothing until another job comes. */
  lemma {:induction false} UnstaffedForever<J>(s: State<J>, ops: seq<Op<J>>)
    requires Inv(s) && !Staffed(s) && WorkersOnly(ops)
    ensures !Staffed(After(s, ops)) && After(s, ops).jobs == s.jobs
    decreases |ops|
  {
    if ops != [] {
      var op := ops[0];
      if Enabled(s, op) {
        InvStep(s, op);
        assert !Willing(s, op.who);
        UnstaffedStep(s, op);
        UnstaffedForever(Step(s, op), ops[1..]);
      } else {
        UnstaffedForever(s, ops[1..]);
      }
    }
  }

  lemma UnstaffedStep<J>(s: State<J>, op: Op<J>)
    requires Inv(s) && !Staffed(s) && Enabled(s, op) && !op.Submit? && !op.SetLimits?
    ensures !Staffed(Step(s, op)) && Step(s, op).jobs == s.jobs
  {
    hide HoldPermit, Counted;
    assert !Willing(s, op.who);
    if op.Retest? { Counts(s.workers, op.who); }
    forall w ensures !Willing(Step(s, op), w) {
      assert !Willing(s, w);
    }
  }

  lemma Counts<J>(ws: seq<Phase<J>>, w: nat)
    requires w < |ws| && !ws[w].Gone?
    ensures Counted(ws) >= 1
  {
    CountHas(ws, w, (q: Phase<J>) => !q.Gone?);
  }

  /** From wherever a worker in the loop stands, the first job can be dispatched. */
  lemma ServedFrom<J>(s: State<J>, w: nat) returns (ops: seq<Op<J>>)
    requires Inv(s) && s.jobs != [] && w < |s.workers| && InLoop(s.workers[w])
    ensures WorkersOnly(ops) && After(s, ops).jobs == s.jobs[1..]
    decreases if s.workers[w].Busy? then 1 else 0
  {
    hide HoldPermit, Counted, After;
    if s.workers[w].Awake? {
      ops := [Pop(w)];
      Then(s, Pop(w), []);
    } else if s.workers[w].Busy? {
      InvStep(s, Done(w));
      var more := ServedFrom(Step(s, Done(w)), w);
      ops := [Done(w)] + more;
      Then(s, Done(w), more);
    } else if s.permits > 0 {
      ops := [Wake(w)] + [Pop(w)];
      Then(Step(s, Wake(w)), Pop(w), []);
      Then(s, Wake(w), [Pop(w)]);
    } else {
      var v := Holder(s.workers);
      ops := [Pop(v)];
      Then(s, Pop(v), []);
    }
  }

  /** An expired worker comes back once enough others are gone, if one thread is to stay. */
  lemma ServedByExpired<J>(s: State<J>, w: nat) returns (ops: seq<Op<J>>)
    requires Inv(s) && s.jobs != [] && s.min >= 1 && In(s, w, Expired)
    ensures WorkersOnly(ops) && After(s, ops).jobs == s.jobs[1..]
    decreases Counted(s.workers), Count(s.workers, (q: Phase<J>) => q.Expired?)
  {
    hide HoldPermit, Counted, After;
    if s.threads <= s.min {
      InvStep(s, Retest(w));
      var more := ServedFrom(Step(s, Retest(w)), w);
      ops := [Retest(w)] + more;
      Then(s, Retest(w), more);
    } else {
      var v := Another(s.workers, w);
      if InLoop(s.workers[v]) {
        ops := ServedFrom(s, v);
      } else {
        var op := if s.workers[v].Leaving? then Leave(v) else Retest(v);
        InvStep(s, op);
        PhaseChange(s.workers, v, Step(s, op).workers[v]);
        CountSet(s.workers, v, Step(s, op).workers[v], (q: Phase<J>) => q.Expired?);
        var more := ServedByExpired(Step(s, op), w);
        ops := [op] + more;
        Then(s, op, more);
      }
    }
  }

  /** Of two counted workers, one that is not `w`. */
  lemma Another<J>(ws: seq<Phase<J>>, w: nat) returns (v: nat)
    requires w < |ws| && Counted(ws) >= 2
    ensures v < |ws| && v != w && !ws[v].Gone?
  {
    CountSet(ws, w, Gone, (q: Phase<J>) => !q.Gone?);
    v := Found(ws[w := Gone], (q: Phase<J>) => !q.Gone?);
  }

  lemma {:induction false} Found<J>(ws: seq<Phase<J>>, f: Phase<J> -> bool) returns (v: nat)
    requires Count(ws, f) > 0
    ensures v < |ws| && f(ws[v])
  {
    var n := |ws| - 1;
    if f(ws[n]) { v := n; } else { v := Found(ws[..n], f); }
  }

  /** The workers can get to the first job exactly when the pool is staffed; and a submission
      leaves it staffed exactly when it was so before or starts a thread. */
  lemma ServedIffStaffed<J>(s: State<J>)
    requires Inv(s) && s.jobs != []
    ensures Staffed(s) <==> exists ops :: WorkersOnly(ops) && After(s, ops).jobs == s.jobs[1..]
  {
    hide HoldPermit, Counted, After, Inv;
    if Staffed(s) {
      var w: nat :| Willing(s, w);
      var ops;
      if InLoop(s.workers[w]) { ops := ServedFrom(s, w); } else { ops := ServedByExpired(s, w); }
    } else {
      forall ops | WorkersOnly(ops) ensures After(s, ops).jobs != s.jobs[1..] {
        UnstaffedForever(s, ops);
      }
    }
  }

  lemma StaffedBySubmit<J>(s: State<J>, job: J, creates: bool)
    ensures Staffed(Step(s, Submit(job, creates))) <==>
            Staffed(s) || (creates && (s.threads < s.min || (s.jobs != [] && s.threads < s.max)))
  {
    var t := Step(s, Submit(job, creates));
    if |t.workers| > |s.workers| { assert Willing(t, |s.workers|); }
    if w: nat :| Willing(s, w) { assert Willing(t, w); }
    if w: nat :| Willing(t, w) && w < |s.workers| { assert Willing(s, w); }
  }

  lemma Holder<J>(ws: seq<Phase<J>>) returns (w: nat)
    requires HoldPermit(ws) > 0
    ensures w < |ws| && ws[w].Awake?
  {
    w := Found(ws, (q: Phase<J>) => q.Awake?);
  }

  lemma More<J>(min: int, max: int, ops: seq<Op<J>>, op: Op<J>)
    ensures var s := Run(min, max, ops).0;
            Run(min, max, ops + [op]).0 == if Enabled(s, op) then Step(s, op) else s
  {
    assert (ops + [op])[..|ops|] == ops;
  }

  ghost function Script(n: nat): Op<int> {
    match n
    case 0 => Submit(1, true)
    case 1 => Submit(2, true)
    case 2 => Wake(0)
    case 3 => Wake(1)
    case 4 => Pop(0)
    case 5 => Pop(1)
    case 6 => Done(0)
    case 7 => Done(1)
    case 8 => Timeout(0)
    case 9 => Timeout(1)
    case 10 => Retest(0)
    case 11 => Retest(1)
    case 12 => Submit(3, true)
    case 13 => Leave(0)
    case _ => Leave(1)
  }

  ghost function Trace(n: nat): State<int> {
    match n
    case 0 => State(1, 2, 0, 0, [], [])
    case 1 => State(1, 2, 1, 1, [1], [Waiting])
    case 2 => State(1, 2, 2, 2, [1, 2], [Waiting, Waiting])
    case 3 => State(1, 2, 2, 1, [1, 2], [Awake, Waiting])
    case 4 => State(1, 2, 2, 0, [1, 2], [Awake, Awake])
    case 5 => State(1, 2, 2, 0, [2], [Busy(1), Awake])
    case 6 => State(1, 2, 2, 0, [], [Busy(1), Busy(2)])
    case 7 => State(1, 2, 2, 0, [], [Waiting, Busy(2)])
    case 8 => State(1, 2, 2, 0, [], [Waiting, Waiting])
    case 9 => State(1, 2, 2, 0, [], [Expired, Waiting])
    case 10 => State(1, 2, 2, 0, [], [Expired, Expired])
    case 11 => State(1, 2, 2, 0, [], [Leaving, Expired])
    case 12 => State(1, 2, 2, 0, [], [Leaving, Leaving])
    case 13 => State(1, 2, 2, 1, [3], [Leaving, Leaving])
    case 14 => State(1, 2, 1, 1, [3], [Gone, Leaving])
    case _ => State(1, 2, 0, 1, [3], [Gone, Gone])
  }

  lemma TraceStep(n: nat)
    requires n < 15
    ensures Enabled(Trace(n), Script(n)) && Step(Trace(n), Script(n)) == Trace(n + 1) && !Script(n).SetLimits?
  {
    if n < 5 {} else if n < 10 {} else {}
  }

  lemma TraceEnds()
    ensures Trace(0) == Fresh(1, 2) && Trace(15) == State(1, 2, 0, 1, [3], [Gone, Gone])
  {
  }

  lemma Start<J>(min: int, max: int)
    ensures Run<J>(min, max, []).0 == Fresh(min, max)
  {
  }

  lemma {:induction false} Played(n: nat) returns (ops: seq<Op<int>>)
    requires n <= 15
    ensures LimitsFixed(ops) && Run(1, 2, ops).0 == Trace(n)
  {
    hide Trace, Script, Step, Enabled, Run, Inv;
    if n == 0 {
      ops := [];
      TraceEnds();
      Start<int>(1, 2);
    } else {
      ops := Played(n - 1);
      TraceStep(n - 1);
      More(1, 2, ops, Script(n - 1));
      ops := ops + [Script(n - 1)];
    }
  }

  /** The limits 1 and 2 of `src/lc_session.c`: two idle workers pass the exit test before either
      has signed off, and a job submitted in between starts no thread. It is left with no worker. */
  lemma {:induction false} TwoTimeoutsStrandAJob() returns (ops: seq<Op<int>>)
    ensures LimitsFixed(ops)
    ensures var s := Run(1, 2, ops).0; !Staffed(s) && s.jobs == [3] && s.threads < s.min
  {
    hide Run, Trace, Inv;
    ops := Played(15);
    TraceEnds();
  }

  // ---------- The code ----------

  class Pool<J> {
    var min: int
    var max: int
    var threads: int
    var permits: nat
    var jobs: seq<J>
    ghost var workers: seq<Phase<J>>
    ghost var history: History<J>

    ghost function Now(): State<J>
      reads this
    {
      State(min, max, threads, permits, jobs, workers)
    }

    /** Permits, jobs and workers agree, and so do the jobs submitted, dispatched and queued. */
    ghost predicate Valid()
      reads this
    {
      Inv(Now()) && history.submitted == history.dispatched + jobs
    }

    constructor (min: int, max: int)
      ensures Valid() && Now() == Fresh(min, max) && history == History([], [])
      ensures this.min == min && this.max == max && threads == 0
    {
      this.min, this.max, threads, permits, jobs, workers, history := min, max, 0, 0, [], [], History([], []);
    }

    /** `lc_threadpool_run`, under the pool's lock; `rc` is what `pthread_create` would return. */
    method Submit(job: J, rc: int) returns (started: bool)
      requires Valid()
      modifies this
      ensures Valid() && Now() == Step(old(Now()), Op.Submit(job, rc == 0))
      ensures history == old(history).(submitted := old(history).submitted + [job])
      ensures started <==> rc == 0 && (old(threads) < min || (old(jobs) != [] && old(threads) < max))
      ensures threads == old(threads) + if started then 1 else 0
      ensures Counted(workers) == Counted(old(workers)) + if started then 1 else 0
      ensures Staffed(Now()) <==> old(Staffed(Now())) || started
    {
      hide HoldPermit, Counted, Staffed, Inv;
      InvStep(Now(), Op.Submit(job, rc == 0));
      StartsAThread(Now(), job, rc == 0);
      StaffedBySubmit(Now(), job, rc == 0);
      Hired(workers);
      history := history.(submitted := history.submitted + [job]);
      jobs := jobs + [job];
      permits := permits + 1;
      var queued := |jobs|;
      started := false;
      if threads < min || (queued > 1 && threads < max) {
        if rc == 0 {
          threads := threads + 1;
          workers := workers + [Waiting];
          started := true;
        }
      }
    }

    /** The wait of `next_job` that succeeds: from here on there is a job for this worker. */
    method TakePermit(ghost w: nat)
      requires Valid() && Enabled(Now(), Wake(w))
      modifies this
      ensures Valid() && Now() == Step(old(Now()), Wake(w)) && history == old(history)
      ensures jobs != []
    {
      InvStep(Now(), Wake(w));
      permits := permits - 1;
      workers := workers[w := Awake];
      PhaseChange(workers, w, Waiting);
    }

    /** The end of `next_job`: a NULL job would end the loop of `pool_thread`. */
    method PopJob(ghost w: nat) returns (job: Option<J>)
      requires Valid() && Enabled(Now(), Pop(w))
      modifies this
      ensures Valid() && Now() == Step(old(Now()), Pop(w))
      ensures job.Some? && old(jobs) == [job.value] + jobs && workers[w] == Busy(job.value)
      ensures history == old(history).(dispatched := old(history).dispatched + [job.value])
    {
      InvStep(Now(), Pop(w));
      OrderStep(history, Now(), Pop(w));
      PhaseChange(workers, w, Waiting);
      if |jobs| == 0 {
        job := None;
      } else {
        job, jobs := Some(jobs[0]), jobs[1..];
        history := history.(dispatched := history.dispatched + [job.value]);
        workers := workers[w := Busy(job.value)];
      }
    }

    /** Back from the job to the wait. */
    ghost method Finish(w: nat)
      requires Valid() && Enabled(Now(), Done(w))
      modifies `workers
      ensures Valid() && Now() == Step(old(Now()), Done(w))
    {
      InvStep(Now(), Done(w));
      workers := workers[w := Waiting];
    }

    /** The test that `next_job` makes after a wait that timed out. The worker goes only if, with
        itself, there are more than the lower limit asks for; nothing tells how many of these are
        on their way out as well. */
    method AfterTimeout(ghost w: nat) returns (leave: bool)
      requires Valid() && Enabled(Now(), Retest(w))
      modifies this
      ensures Valid() && Now() == Step(old(Now()), Retest(w)) && history == old(history)
      ensures leave <==> Counted(workers) > min
      ensures Counted(workers) == Counted(old(workers)) && leave == workers[w].Leaving?
    {
      InvStep(Now(), Retest(w));
      PhaseChange(workers, w, if threads > min then Leaving else Waiting);
      leave := threads > min;
      workers := workers[w := if leave then Leaving else Waiting];
    }

    /** The end of `pool_thread`: the counter stays the number of workers that have not signed off. */
    method SignOff(ghost w: nat)
      requires Valid() && Enabled(Now(), Leave(w))
      modifies this
      ensures Valid() && Now() == Step(old(Now()), Leave(w)) && history == old(history)
      ensures threads >= 0 && Counted(workers) == Counted(old(workers)) - 1
    {
      InvStep(Now(), Leave(w));
      PhaseChange(workers, w, Gone);
      threads := threads - 1;
      workers := workers[w := Gone];
    }

    /** `lc_threadpool_set_threads`: no thread starts or ends by it, and no job moves. */
    method SetThreads(min: int, max: int)
      requires Valid()
      modifies `min, `max
      ensures Valid() && Now() == Step(old(Now()), SetLimits(min, max))
      ensures this.min == min && this.max == max
    {
      InvStep(Now(), SetLimits(min, max));
      this.min := min;
      this.max := max;
    }
  }

  /** One worker, when nobody else holds a permit, runs every job in the order submitted and goes
      back to its wait. */
  method RunAll<J>(p: Pool<J>, ghost w: nat) returns (ran: seq<J>)
    requires p.Valid() && In(p.Now(), w, Waiting) && HoldPermit(p.workers) == 0
    modifies p
    ensures p.Valid() && In(p.Now(), w, Waiting)
    ensures ran == old(p.jobs) && p.jobs == [] && p.history.dispatched == old(p.history).submitted
  {
    hide HoldPermit, Counted;
    ran := [];
    while p.permits > 0
      invariant p.Valid() && In(p.Now(), w, Waiting) && HoldPermit(p.workers) == 0
      invariant p.history.submitted == old(p.history).submitted && ran + p.jobs == old(p.jobs)
      decreases p.permits
    {
      PhaseChange(p.workers, w, Awake);
      p.TakePermit(w);
      PhaseChange(p.workers, w, Waiting);
      ghost var queue := p.jobs;
      var job := p.PopJob(w);
      assert ran + queue == (ran + [job.value]) + p.jobs;
      ran := ran + [job.value];
      PhaseChange(p.workers, w, Waiting);
      p.Finish(w);
    }
  }
}
