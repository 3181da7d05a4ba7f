/** Whether Flush comes to an end: it does if Reset is only called after a Flush has returned, and in general
    exactly if no worker can be left waiting on a channel that this Flush did not close. */
module EventFlush {
  import opened Wrappers
  import opened EventDispatch
  import opened EventProofs
  import opened EventTheorems

  // ----- How much work is left

  /** The steps of workers, the drain goroutine and Flush itself. */
  predicate Working(a: Action) {
    Mover(a).Some? || a.FlushTasksDone? || a.FlushReturn?
  }

  function Weight(x: Executor): nat {
    match x.status
    case Exited => 0
    case Selecting(_) => 1
    case Idle => 2
    case Busy(_, stage) =>
      (match stage
       case Settling => 3
       case Resolving => 4
       case Reporting(_) => 5
       case Ready => 6)
  }

  function TotalWeight(xs: seq<Executor>): nat {
    if xs == [] then 0 else TotalWeight(xs[..|xs| - 1]) + Weight(xs[|xs| - 1])
  }

  /** How much work is left: queued and executing closures, live executors, and Flush's own two waits. */
  function Work(s: State): nat {
    6 * |s.queue| + TotalWeight(s.executors) +
    match s.flush
    case NotFlushing => 0
    case AwaitingTasks => 2
    case AwaitingWorkers => 1
  }

  lemma {:induction false} WeightUpdate(xs: seq<Executor>, e: nat, x: Executor)
    requires e < |xs|
    ensures TotalWeight(xs[e := x]) == TotalWeight(xs) - Weight(xs[e]) + Weight(x)
    decreases |xs|
  {
    var n := |xs| - 1;
    if e == n {
      assert xs[e := x][..n] == xs[..n];
    } else {
      assert xs[e := x][..n] == xs[..n][e := x];
      WeightUpdate(xs[..n], e, x);
    }
  }

  lemma MoverLosesWeight(s: State, a: Action)
    requires Enabled(s, a) && Mover(a).Some?
    ensures var e := Mover(a).value;
      e < |s.executors| && Weight(s.executors[e].(status := NextStatus(s, a, e))) <
        Weight(s.executors[e]) + if a.Take? then 6 else 0
  {
  }

  lemma QueueShrinks(s: State, a: Action)
    requires Enabled(s, a) && Working(a)
    ensures |NextQueue(s, a)| == |s.queue| - if a.Take? then 1 else 0
  {
  }

  /** Every working step leaves less work. */
  lemma WorkingReducesWork(s: State, a: Action)
    requires Enabled(s, a) && Working(a)
    ensures Work(Next(s, a)) < Work(s)
  {
    QueueShrinks(s, a);
    if Mover(a).Some? {
      MoverLosesWeight(s, a);
      var e := Mover(a).value;
      WeightUpdate(s.executors, e, s.executors[e].(status := NextStatus(s, a, e)));
    }
    hide TotalWeight, Weight, NextStatus, NextQueue, NextDispatches, NextPlace;
  }

  /** The environment's steps that may happen meanwhile: cancelled contexts, received results, closed channels. */
  predicate Bystanding(a: Action) {
    a.Cancel? || a.Receive? || a.Close?
  }

  lemma BystandingKeepsWork(s: State, a: Action)
    requires Enabled(s, a) && Bystanding(a)
    ensures Work(Next(s, a)) == Work(s)
  {
    hide NextDispatches, NextPlace;
  }

  /** A busy executor can always take its next step. */
  lemma BusyCanStep(t: State, e: nat) returns (a: Action)
    requires Inv(t) && e < |t.executors| && t.executors[e].status.Busy?
    ensures Enabled(t, a) && Mover(a) == Some(e) && !a.Select?
  {
    assert ExecutorOk(t, e);
    match StageOf(t, e)
    case Ready => a := RunListener(e, Panicked);
    case Reporting(_) =>
      RoomForReport(t, e);
      a := SendResult(e);
    case Resolving => a := Resolve(e);
    case Settling => a := Settle(e);
  }

  // ----- Workers that nobody will wake

  /** A worker that only a closed channel can end. */
  predicate Lingers(s: State, e: nat) {
    && e < |s.executors| && IsLiveWorker(s.executors[e])
    && s.executors[e].kind.run !in s.cancelled
  }

  /** The channel worker e waits on now or, if it is not at its select, will wait on next. */
  function Awaited(s: State, e: nat): nat
    requires e < |s.executors|
  {
    if s.executors[e].status.Selecting? then s.executors[e].status.on else |s.past|
  }

  predicate Deserted(s: State, e: nat) {
    Lingers(s, e) && !ChannelClosed(s, Awaited(s, e))
  }

  /** Some worker is deserted, or can be after one more event: it would come back to an open channel. */
  ghost predicate Perilous(s: State) {
    || (exists e :: Deserted(s, e))
    || (!s.closed && s.queue != [] && exists e :: Lingers(s, e))
  }

  lemma WorkerMoves(s: State, a: Action, e: nat)
    requires Enabled(s, a) && (Working(a) || Bystanding(a)) && Lingers(Next(s, a), e)
    ensures Lingers(s, e) && Next(s, a).executors[e].kind == s.executors[e].kind
    ensures Next(s, a).past == s.past && Next(s, a).closed == s.closed
    ensures Awaited(Next(s, a), e) == Awaited(s, e) || (a == Take(e) && Awaited(Next(s, a), e) == |s.past|)
  {
    ExecutorMoves(s, a, e);
    hide NextExecutors, NextDispatches, NextPlace, NextQueue;
  }

  /** No step of a worker, the drain goroutine or Flush brings the peril about. */
  lemma StepBringsNoPeril(s: State, a: Action)
    requires Enabled(s, a) && (Working(a) || Bystanding(a)) && Perilous(Next(s, a))
    ensures Perilous(s)
  {
    var u := Next(s, a);
    if e :| Deserted(u, e) {
      WorkerMoves(s, a, e);
      hide Next, NextQueue;
      if a == Take(e) {
        assert Lingers(s, e);
      } else {
        assert Deserted(s, e);
      }
    } else {
      var e :| Lingers(u, e);
      WorkerMoves(s, a, e);
      hide NextExecutors, NextDispatches, NextPlace;
      assert s.queue != [];
    }
  }

  /** The documented use of Reset: only after Flush has returned. */
  ghost predicate ResetsAfterFlush(s: State, acts: seq<Action>)
    requires Legal(s, acts)
    decreases |acts|
  {
    acts == [] ||
    (var pre := acts[..|acts| - 1];
     && ResetsAfterFlush(s, pre)
     && (acts[|acts| - 1].Reset? ==> After(s, pre).flush.NotFlushing? && After(s, pre).closed))
  }

  /** Only channels that were closed have been replaced, and while Flush waits the present one is closed too. */
  ghost predicate WellReset(s: State) {
    && (forall on | 0 <= on < |s.past| :: s.past[on])
    && (!s.flush.NotFlushing? ==> s.closed)
  }

  lemma {:induction false} RunKeepsWellReset(s: State, acts: seq<Action>)
    requires WellReset(s) && Legal(s, acts) && ResetsAfterFlush(s, acts)
    ensures WellReset(After(s, acts))
    decreases |acts|
  {
    if acts != [] {
      RunKeepsWellReset(s, acts[..|acts| - 1]);
    }
  }

  lemma WellResetIsSafe(s: State)
    requires WellReset(s) && !s.flush.NotFlushing?
    ensures !Perilous(s)
  {
  }

  // ----- Flush comes to an end

  /** While Flush waits, nobody dispatches and there is no peril, some working step is possible: no deadlock. */
  lemma FlushCanStep(t: State) returns (a: Action)
    requires Inv(t) && Flushing(t) && !Perilous(t) && !t.flush.NotFlushing?
    ensures Enabled(t, a) && Working(a)
  {
    if t.queue != [] {
      a := WorkOffQueue(t);
    } else if e :| 0 <= e < |t.executors| && t.executors[e].status.Busy? {
      a := BusyCanStep(t, e);
    } else if e: nat :| e < |t.executors| && IsLiveWorker(t.executors[e]) {
      assert !Deserted(t, e);
      a := if t.executors[e].status.Idle? then Select(e) else Exit(e);
    } else {
      CountZero(t.executors, IsLiveWorker);
      CountZero(t.executors, IsBusy);
      CountZero(t.dispatches, IsSending);
      a := if t.flush.AwaitingTasks? then FlushTasksDone else FlushReturn;
    }
  }

  /** As long as something is queued while Flush waits, there is a step that leaves every waiting worker alone. */
  lemma WorkOffQueue(t: State) returns (a: Action)
    requires Inv(t) && Flushing(t) && !t.flush.NotFlushing? && t.queue != []
    ensures Enabled(t, a) && Working(a) && Mover(a).Some? && !a.Select?
    ensures Mover(a).value < |t.executors|
    ensures t.executors[Mover(a).value].kind.Worker? ==> !t.executors[Mover(a).value].status.Selecting?
  {
    if e :| 0 <= e < |t.executors| && t.executors[e].status.Busy? {
      a := BusyCanStep(t, e);
    } else {
      var e: nat :| e < |t.executors| && t.executors[e].kind.Drain? && !t.executors[e].status.Exited?;
      a := Take(e);
    }
  }

  /** The number of working steps in a run. */
  function WorkingSteps(acts: seq<Action>): nat {
    if acts == [] then 0 else WorkingSteps(acts[..|acts| - 1]) + One(Working(acts[|acts| - 1]))
  }

  /** The number of workers that calls of Run start in a run. */
  function Spawns(acts: seq<Action>): nat {
    if acts == [] then 0 else Spawns(acts[..|acts| - 1]) + One(acts[|acts| - 1].Spawn?)
  }

  lemma SpawnAddsWork(s: State, a: Action)
    requires Enabled(s, a) && a.Spawn?
    ensures Work(Next(s, a)) == Work(s) + 2
  {
    var x := Executor(Worker(a.run), Idle);
    assert (s.executors + [x])[..|s.executors|] == s.executors;
    hide NextDispatches, NextPlace;
  }

  lemma {:induction false} WorkBoundsSteps(s: State, acts: seq<Action>)
    requires Legal(s, acts) && forall a | a in acts :: Working(a) || Bystanding(a) || a.Spawn?
    ensures WorkingSteps(acts) + Work(After(s, acts)) <= Work(s) + 2 * Spawns(acts)
    decreases |acts|
  {
    if acts != [] {
      var pre := acts[..|acts| - 1];
      var a := acts[|acts| - 1];
      assert a in acts;
      WorkBoundsSteps(s, pre);
      if Working(a) {
        WorkingReducesWork(After(s, pre), a);
      } else if a.Spawn? {
        SpawnAddsWork(After(s, pre), a);
      } else {
        BystandingKeepsWork(After(s, pre), a);
      }
    }
  }

  /** Flush cannot get stuck when Reset is only called after a Flush has returned: once it waits with nobody
      dispatching, every schedule of workers, drain goroutine and Flush, with any cancellations, receives, closes and
      further calls of Run in between, takes at most Work(start) working steps and two for each worker that is
      started meanwhile, and whenever Flush has not returned yet another working step is possible. */
  lemma {:induction false} FlushTerminates(s: State, pre: seq<Action>, mid: seq<Action>, post: seq<Action>)
    returns (a: Action)
    requires Initial(s) && Legal(s, pre) && After(s, pre).flush.NotFlushing? && Quiet(After(s, pre))
    requires Legal(s, pre + mid) && (forall x | x in mid :: !x.StartDispatch?)
    requires ResetsAfterFlush(s, pre + mid)
    requires Legal(After(s, pre + mid), post) && (forall x | x in post :: Working(x) || Bystanding(x) || x.Spawn?)
    ensures WorkingSteps(post) + Work(After(After(s, pre + mid), post)) <= Work(After(s, pre + mid)) + 2 * Spawns(post)
    ensures !After(After(s, pre + mid), post).flush.NotFlushing? ==>
      Enabled(After(After(s, pre + mid), post), a) && Working(a)
  {
    InitialWellReset(s);
    hide *;
    var t := After(s, pre + mid);
    var u := After(t, post);
    RunKeepsWellReset(s, pre + mid);
    ReachesFlushing(s, pre, mid);
    WorkBoundsSteps(t, post);
    NoResetMeanwhile(t, post);
    RunKeepsWellReset(t, post);
    RunKeepsInv(t, post);
    RunKeepsFlushing(t, post);
    a := FlushReturn;
    if !u.flush.NotFlushing? {
      WellResetIsSafe(u);
      a := FlushCanStep(u);
    }
  }

  lemma {:induction false} NoResetMeanwhile(t: State, post: seq<Action>)
    requires Legal(t, post) && forall x | x in post :: Working(x) || Bystanding(x) || x.Spawn?
    ensures ResetsAfterFlush(t, post)
    ensures forall x | x in post :: !x.StartDispatch?
    decreases |post|
  {
    if post != [] {
      assert post[|post| - 1] in post;
      NoResetMeanwhile(t, post[..|post| - 1]);
      hide Next, Enabled;
    }
  }

  lemma {:induction false} NoSpawns(acts: seq<Action>)
    requires forall x | x in acts :: !x.Spawn?
    ensures Spawns(acts) == 0
    decreases |acts|
  {
    if acts != [] {
      assert acts[|acts| - 1] in acts;
      NoSpawns(acts[..|acts| - 1]);
    }
  }

  lemma InitialWellReset(s: State)
    requires Initial(s)
    ensures WellReset(s)
  {
  }

  lemma ReachesFlushing(s: State, pre: seq<Action>, mid: seq<Action>)
    requires Initial(s) && Legal(s, pre) && After(s, pre).flush.NotFlushing? && Quiet(After(s, pre))
    requires Legal(s, pre + mid) && (forall x | x in mid :: !x.StartDispatch?)
    ensures Inv(After(s, pre + mid)) && Flushing(After(s, pre + mid))
  {
    hide *;
    InitialInv(s);
    RunKeepsInv(s, pre);
    RunKeepsInv(s, pre + mid);
    Split(s, pre, mid);
    QuietIsFlushing(After(s, pre));
    RunKeepsFlushing(After(s, pre), mid);
  }

  lemma ScheduleEnds(t: State, post: seq<Action>) returns (a: Action)
    requires Inv(t) && Flushing(t) && !Perilous(t)
    requires Legal(t, post) && forall x | x in post :: Working(x) || Bystanding(x)
    ensures WorkingSteps(post) + Work(After(t, post)) <= Work(t)
    ensures !After(t, post).flush.NotFlushing? ==> Enabled(After(t, post), a) && Working(a)
  {
    forall x | x in post ensures !x.Spawn? {
      assert Working(x) || Bystanding(x);
    }
    hide *;
    var u := After(t, post);
    WorkBoundsSteps(t, post);
    NoSpawns(post);
    NoPerilLater(t, post);
    RunKeepsInv(t, post);
    RunKeepsFlushing(t, post);
    a := FlushReturn;
    if !u.flush.NotFlushing? {
      a := FlushCanStep(u);
    }
  }

  lemma {:induction false} NoPerilLater(t: State, post: seq<Action>)
    requires Legal(t, post) && forall x | x in post :: Working(x) || Bystanding(x)
    ensures Perilous(After(t, post)) ==> Perilous(t)
    ensures forall x | x in post :: !x.StartDispatch?
    decreases |post|
  {
    if post != [] {
      var pre := post[..|post| - 1];
      assert post[|post| - 1] in post;
      NoPerilLater(t, pre);
      hide Perilous;
      if Perilous(After(t, post)) {
        StepBringsNoPeril(After(t, pre), post[|post| - 1]);
      }
    }
  }

  lemma QuietIsFlushing(s: State)
    requires Quiet(s) && s.flush.NotFlushing?
    ensures Flushing(s)
  {
  }

  // ----- When Flush may wait for ever

  /** Flush waits for a worker that nothing but the end of its context can wake. */
  ghost predicate Hung(s: State, e: nat) {
    && !s.flush.NotFlushing? && s.queue == [] && Quiet(s)
    && Deserted(s, e) && s.executors[e].status.Selecting?
  }

  lemma StepKeepsHung(s: State, a: Action, e: nat)
    requires Inv(s) && Hung(s, e) && Enabled(s, a) && !a.StartDispatch? && a != Cancel(s.executors[e].kind.run)
    ensures Hung(Next(s, a), e) && Next(s, a).executors[e] == s.executors[e]
  {
    FlushWaitsFor(s, e);
    StepKeepsQuiet(s, a);
    ExecutorMoves(s, a, e);
    hide NextExecutors, NextDispatches, NextPlace, Inv;
  }

  lemma FlushWaitsFor(s: State, e: nat)
    requires Inv(s) && Hung(s, e)
    ensures !Enabled(s, FlushReturn)
  {
    CountZero(s.executors, IsLiveWorker);
    assert IsLiveWorker(s.executors[e]);
  }

  /** Once hung, Flush never returns, whatever is called, unless somebody dispatches or cancels that worker. */
  lemma {:induction false} HungForever(s: State, acts: seq<Action>, e: nat)
    requires Inv(s) && Hung(s, e) && Legal(s, acts)
    requires forall a | a in acts :: !a.StartDispatch? && a != Cancel(s.executors[e].kind.run)
    ensures Hung(After(s, acts), e) && After(s, acts).executors[e] == s.executors[e]
    ensures !Enabled(After(s, acts), FlushReturn)
    decreases |acts|
  {
    RunKeepsInv(s, acts);
    hide Inv;
    if acts != [] {
      var pre := acts[..|acts| - 1];
      assert acts[|acts| - 1] in acts;
      HungForever(s, pre, e);
      RunKeepsInv(s, pre);
      StepKeepsHung(After(s, pre), acts[|acts| - 1], e);
    }
    FlushWaitsFor(After(s, acts), e);
  }

  lemma Append(s: State, acts: seq<Action>, a: Action)
    requires Legal(s, acts) && Enabled(After(s, acts), a)
    ensures Legal(s, acts + [a]) && After(s, acts + [a]) == Next(After(s, acts), a)
  {
    assert (acts + [a])[..|acts + [a]| - 1] == acts;
  }

  /** What a schedule that is meant to end in a hang keeps. */
  ghost predicate HangingOn(t: State, acts: seq<Action>, u: State, e: nat) {
    && Legal(t, acts) && u == After(t, acts) && (forall a | a in acts :: Working(a))
    && Inv(u) && Flushing(u) && !u.flush.NotFlushing? && Deserted(u, e)
  }

  /** Any step that ends no wait of e keeps e deserted. */
  lemma DesertedStays(t: State, a: Action, e: nat)
    requires Deserted(t, e) && Enabled(t, a) && Mover(a).Some? && !a.Exit?
    requires a == Take(e) ==> !t.closed
    ensures Deserted(Next(t, a), e) && Next(t, a).flush == t.flush
  {
    ExecutorMoves(t, a, e);
    hide NextExecutors, NextDispatches, NextPlace, NextQueue;
  }

  lemma KeepsInvAndFlushing(u: State, a: Action)
    requires Inv(u) && Flushing(u) && Enabled(u, a) && !a.StartDispatch?
    ensures Inv(Next(u, a)) && Flushing(Next(u, a))
  {
    StepKeepsAccounted(u, a);
    StepKeepsPlaced(u, a);
    StepKeepsChannelsOk(u, a);
    StepKeepsFlushing(u, a);
    hide Accounted, Placed, ChannelsOk, Flushing, Next, Enabled;
  }

  /** The next step towards a hang: e goes to its select, or others work off the queue. */
  lemma StepTowardsHang(u: State, e: nat) returns (a: Action)
    requires Inv(u) && Flushing(u) && !u.flush.NotFlushing? && Deserted(u, e)
    requires u.queue != [] || !u.executors[e].status.Selecting?
    ensures Enabled(u, a) && Mover(a).Some? && !a.Exit? && a != Take(e)
  {
    hide Inv, Flushing;
    match u.executors[e].status
    case Idle => a := Select(e);
    case Busy(_, _) => a := BusyCanStep(u, e);
    case Selecting(_) => a := WorkOffQueue(u);
  }

  lemma OneStepCloser(t: State, acts: seq<Action>, u: State, e: nat, a: Action) returns (v: State)
    requires HangingOn(t, acts, u, e) && Enabled(u, a) && Mover(a).Some? && !a.Exit? && (a == Take(e) ==> !u.closed)
    ensures HangingOn(t, acts + [a], v, e) && Work(v) < Work(u)
  {
    assert Working(a) && !a.StartDispatch?;
    Append(t, acts, a);
    v := Next(u, a);
    WorkingReducesWork(u, a);
    DesertedStays(u, a, e);
    KeepsInvAndFlushing(u, a);
    hide Next, Enabled, Inv, Flushing, Deserted, Work, Legal, After;
  }

  /** The others may empty the queue and leave Flush to the deserted worker. */
  lemma DesertedHangs(t: State, start: seq<Action>, s: State, e: nat) returns (acts: seq<Action>)
    requires HangingOn(t, start, s, e)
    ensures Legal(t, acts) && (forall a | a in acts :: Working(a)) && Hung(After(t, acts), e)
  {
    acts := start;
    var u := s;
    while u.queue != [] || !u.executors[e].status.Selecting?
      invariant HangingOn(t, acts, u, e)
      decreases Work(u)
    {
      hide Inv, Flushing, Legal, After, Next, Enabled, Work;
      var a := StepTowardsHang(u, e);
      u := OneStepCloser(t, acts, u, e, a);
      acts := acts + [a];
    }
  }

  /** From a state in peril some schedule hangs. */
  lemma PerilHangs(t: State) returns (acts: seq<Action>, e: nat)
    requires Inv(t) && Flushing(t) && !t.flush.NotFlushing? && Perilous(t)
    ensures Legal(t, acts) && (forall a | a in acts :: Working(a)) && Hung(After(t, acts), e)
  {
    hide Inv, Flushing;
    if x :| Deserted(t, x) {
      e := x;
      acts := DesertedHangs(t, [], t, e);
    } else {
      e :| Lingers(t, e);
      assert !Deserted(t, e);
      assert t.executors[e].status.Selecting?;
      var u := TakenAndDeserted(t, e);
      acts := DesertedHangs(t, [Take(e)], u, e);
    }
  }

  lemma TakenAndDeserted(t: State, e: nat) returns (u: State)
    requires Inv(t) && Flushing(t) && !t.flush.NotFlushing? && !t.closed && t.queue != []
    requires Lingers(t, e) && t.executors[e].status.Selecting?
    ensures HangingOn(t, [Take(e)], u, e)
  {
    TakeDeserts(t, e);
    FirstStep(t, Take(e));
    hide Inv, Flushing, Next, Enabled, Deserted, Lingers, Legal, After;
    u := Next(t, Take(e));
    KeepsInvAndFlushing(t, Take(e));
  }

  lemma TakeDeserts(t: State, e: nat)
    requires !t.closed && t.queue != [] && Lingers(t, e) && t.executors[e].status.Selecting?
    ensures Enabled(t, Take(e)) && Deserted(Next(t, Take(e)), e) && Next(t, Take(e)).flush == t.flush
  {
  }

  lemma FirstStep(t: State, a: Action)
    requires Enabled(t, a)
    ensures Legal(t, [a]) && After(t, [a]) == Next(t, a)
  {
    hide Next, Enabled;
    Append(t, [], a);
    assert [] + [a] == [a];
  }

  /** A schedule of workers, drain goroutine and Flush that leaves Flush hanging on worker e. */
  ghost predicate HangsBy(t: State, acts: seq<Action>, e: nat) {
    Legal(t, acts) && (forall a | a in acts :: Working(a) || Bystanding(a)) && Hung(After(t, acts), e)
  }

  /** However Reset was used: a Flush that waits, with nobody dispatching, can come to hang exactly if some worker
      waits on an open channel, is on its way to one, or can get there after one more event. */
  lemma {:induction false} FlushHangsExactly(s: State, pre: seq<Action>, mid: seq<Action>)
    requires Initial(s) && Legal(s, pre) && After(s, pre).flush.NotFlushing? && Quiet(After(s, pre))
    requires Legal(s, pre + mid) && (forall x | x in mid :: !x.StartDispatch?)
    requires !After(s, pre + mid).flush.NotFlushing?
    ensures (exists acts, e :: HangsBy(After(s, pre + mid), acts, e)) <==> Perilous(After(s, pre + mid))
  {
    var t := After(s, pre + mid);
    ReachesFlushing(s, pre, mid);
    hide Inv, Flushing, Legal, After, Next, Enabled, Initial, Quiet;
    if Perilous(t) {
      var acts, e := PerilHangs(t);
      assert HangsBy(t, acts, e);
    }
    if acts, e :| HangsBy(t, acts, e) {
      NoPerilLater(t, acts);
      assert Deserted(After(t, acts), e);
    }
  }

  /** Without peril every schedule in which Run is not called again comes to an end, however Reset was used. */
  lemma {:induction false} SafeFlushTerminates(s: State, pre: seq<Action>, mid: seq<Action>, post: seq<Action>)
    returns (a: Action)
    requires Initial(s) && Legal(s, pre) && After(s, pre).flush.NotFlushing? && Quiet(After(s, pre))
    requires Legal(s, pre + mid) && (forall x | x in mid :: !x.StartDispatch?) && !Perilous(After(s, pre + mid))
    requires Legal(After(s, pre + mid), post) && (forall x | x in post :: Working(x) || Bystanding(x))
    ensures WorkingSteps(post) + Work(After(After(s, pre + mid), post)) <= Work(After(s, pre + mid))
    ensures !After(After(s, pre + mid), post).flush.NotFlushing? ==>
      Enabled(After(After(s, pre + mid), post), a) && Working(a)
  {
    hide *;
    ReachesFlushing(s, pre, mid);
    a := ScheduleEnds(After(s, pre + mid), post);
  }

  /** A Reset before any Flush leaves every worker deserted that waits on the open channel by then, and the next
      Flush is in peril. */
  lemma {:induction false} EarlyResetIsPerilous(s: State, acts: seq<Action>, e: nat)
    requires Legal(s, acts)
    requires var t := After(s, acts);
      && t.flush.NotFlushing? && !t.closed && Lingers(t, e) && t.executors[e].status == Selecting(|t.past|)
    ensures Legal(s, acts + [Reset] + [FlushStart])
    ensures Deserted(After(s, acts + [Reset] + [FlushStart]), e)
  {
    Append(s, acts, Reset);
    Append(s, acts + [Reset], FlushStart);
  }
}
