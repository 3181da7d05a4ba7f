/** Invariants of the event dispatcher, kept by every step of every goroutine. */
module EventProofs {
  import opened Wrappers
  import opened EventDispatch
  import Sequences

  // ----- Counting

  function Count<T>(s: seq<T>, p: T -> bool): nat {
    if s == [] then 0 else Count(s[..|s| - 1], p) + if p(s[|s| - 1]) then 1 else 0
  }

  function One(b: bool): int {
    if b then 1 else 0
  }

  lemma CountSnoc<T>(s: seq<T>, x: T, p: T -> bool)
    ensures Count(s + [x], p) == Count(s, p) + One(p(x))
  {
    assert (s + [x])[..|s|] == s;
  }

  lemma {:induction false} CountUpdate<T>(s: seq<T>, i: nat, x: T, p: T -> bool)
    requires i < |s|
    ensures Count(s[i := x], p) == Count(s, p) - One(p(s[i])) + One(p(x))
    decreases |s|
  {
    var n := |s| - 1;
    if i == n {
      assert s[i := x][..n] == s[..n];
    } else {
      assert s[i := x][..n] == s[..n][i := x];
      CountUpdate(s[..n], i, x, p);
    }
  }

  lemma {:induction false} CountZero<T>(s: seq<T>, p: T -> bool)
    ensures Count(s, p) == 0 <==> forall i | 0 <= i < |s| :: !p(s[i])
    decreases |s|
  {
    if s != [] {
      var n := |s| - 1;
      CountZero(s[..n], p);
      assert forall i | 0 <= i < n :: s[..n][i] == s[i];
    }
  }

  // ----- The WaitGroups count what they stand for

  /** wg counts the closures being sent, queued and executing; running counts the live workers. */
  ghost predicate Accounted(s: State) {
    && s.wg == Count(s.dispatches, IsSending) + |s.queue| + Count(s.executors, IsBusy)
    && s.running == Count(s.executors, IsLiveWorker)
    && |s.queue| <= CAPACITY
  }

  lemma ExecutorCounts(s: State, a: Action)
    requires Enabled(s, a)
    ensures Count(NextExecutors(s, a), IsBusy) == Count(s.executors, IsBusy) + One(a.Take?) - One(a.Settle?)
    ensures Count(NextExecutors(s, a), IsLiveWorker) ==
      Count(s.executors, IsLiveWorker) + One(a.Spawn?) - One(a.Exit? && s.executors[a.e].kind.Worker?)
  {
    if a.Spawn? {
      CountSnoc(s.executors, Executor(Worker(a.run), Idle), IsBusy);
      CountSnoc(s.executors, Executor(Worker(a.run), Idle), IsLiveWorker);
    } else if a.FlushStart? {
      CountSnoc(s.executors, Executor(Drain, Idle), IsBusy);
      CountSnoc(s.executors, Executor(Drain, Idle), IsLiveWorker);
    } else if Mover(a).Some? {
      var e := Mover(a).value;
      var x := s.executors[e].(status := NextStatus(s, a, e));
      CountUpdate(s.executors, e, x, IsBusy);
      CountUpdate(s.executors, e, x, IsLiveWorker);
    }
  }

  lemma DispatchCounts(s: State, a: Action)
    requires Enabled(s, a)
    ensures Count(NextDispatches(s, a), IsSending) == Count(s.dispatches, IsSending) + One(a.Add?) - One(a.Enqueue?)
  {
    if a.StartDispatch? {
      CountSnoc(s.dispatches, NextDispatches(s, a)[|s.dispatches|], IsSending);
    } else if Subject(s, a).Some? {
      var i := Subject(s, a).value;
      CountUpdate(s.dispatches, i, NextDispatch(s, a, i), IsSending);
    }
  }

  lemma StepKeepsAccounted(s: State, a: Action)
    requires Accounted(s) && Enabled(s, a)
    ensures Accounted(Next(s, a))
  {
    ExecutorCounts(s, a);
    DispatchCounts(s, a);
    hide NextExecutors, NextDispatches, NextPlace, Count;
  }

  // ----- Every task is in one place

  ghost predicate DispatchOk(d: Dispatch) {
    d.next <= d.n && (d.phase.Sending? ==> d.next < d.n) && (d.phase.Over? ==> d.next == d.n)
  }

  /** Task t was added: its WaitGroup entries exist. */
  ghost predicate Added(s: State, t: Task) {
    t.i < |s.dispatches|
    && (t.k < s.dispatches[t.i].next || (t.k == s.dispatches[t.i].next && s.dispatches[t.i].phase.Sending?))
  }

  predicate WithExecutor(s: State, t: Task) {
    t in s.place && s.place[t].With? && s.place[t].e < |s.executors| && s.executors[s.place[t].e].status.Busy?
  }

  function StageIn(s: State, t: Task): Stage
    requires WithExecutor(s, t)
  {
    s.executors[s.place[t].e].status.stage
  }

  ghost predicate Located(s: State, t: Task)
    requires t in s.place && t.i < |s.dispatches|
  {
    match s.place[t]
    case BeingSent => s.dispatches[t.i].phase.Sending? && t.k == s.dispatches[t.i].next
    case InQueue => t in s.queue && t.k < s.dispatches[t.i].next
    case With(e) => WithExecutor(s, t) && s.executors[e].status.task == t && t.k < s.dispatches[t.i].next
    case Gone => t.k < s.dispatches[t.i].next
  }

  ghost predicate TaskOk(s: State, t: Task) {
    && (t in s.place <==> Added(s, t))
    && (t in s.place ==> Located(s, t))
    && (t in s.resolved <==> t in s.place && (s.place[t].Gone? || (WithExecutor(s, t) && StageIn(s, t).Settling?)))
    && (t in s.outcomes <==> t in s.place && (s.place[t].Gone? || (WithExecutor(s, t) && !StageIn(s, t).Ready?)))
  }

  ghost predicate ExecutorOk(s: State, e: nat)
    requires e < |s.executors|
  {
    var x := s.executors[e].status;
    x.Busy? ==>
      && x.task in s.place && s.place[x.task] == With(e) && x.task.i < |s.dispatches|
      && (x.stage.Reporting? ==>
            s.dispatches[x.task.i].channel.Some? && x.task in s.outcomes && s.outcomes[x.task] == Returned(x.stage.error))
  }

  ghost predicate QueueOk(s: State) {
    && (forall j | 0 <= j < |s.queue| :: s.queue[j] in s.place && s.place[s.queue[j]].InQueue?)
    && (forall j, l | 0 <= j < l < |s.queue| :: s.queue[j] != s.queue[l])
  }

  ghost predicate Placed(s: State) {
    && (forall i | 0 <= i < |s.dispatches| :: DispatchOk(s.dispatches[i]))
    && (forall t :: TaskOk(s, t))
    && (forall e: nat | e < |s.executors| :: ExecutorOk(s, e))
    && QueueOk(s)
  }

  /** Which task an action is about. */
  function TaskOfAction(s: State, a: Action): Option<Task>
    requires Enabled(s, a)
  {
    match a
    case Add(i) => Some(Task(i, s.dispatches[i].next))
    case Enqueue(i) => Some(Task(i, s.dispatches[i].next))
    case Take(_) => Some(s.queue[0])
    case RunListener(e, _) => Some(TaskOf(s, e))
    case SendResult(e) => Some(TaskOf(s, e))
    case Resolve(e) => Some(TaskOf(s, e))
    case Settle(e) => Some(TaskOf(s, e))
    case _ => None
  }

  lemma ExecutorMoves(s: State, a: Action, e: nat)
    requires Enabled(s, a) && e < |NextExecutors(s, a)|
    ensures e < |s.executors| ==>
      NextExecutors(s, a)[e] == s.executors[e].(status :=
        if Mover(a) == Some(e) then NextStatus(s, a, e) else s.executors[e].status)
    ensures e >= |s.executors| ==> NextExecutors(s, a)[e].status.Idle?
    ensures |s.executors| <= |NextExecutors(s, a)|
  {
  }

  lemma DispatchMoves(s: State, a: Action, i: nat)
    requires Enabled(s, a) && i < |NextDispatches(s, a)|
    ensures |s.dispatches| <= |NextDispatches(s, a)|
    ensures i < |s.dispatches| ==>
      var d := NextDispatches(s, a)[i];
      && d == NextDispatch(s, a, i)
      && d.n == s.dispatches[i].n
      && d.channel.Some? == s.dispatches[i].channel.Some?
      && d.next == s.dispatches[i].next + (if a == Enqueue(i) then 1 else 0)
      && d.phase == (if a == Add(i) then Sending else if a == Enqueue(i) then Adding
        else if a == EndDispatch(i) then Over else s.dispatches[i].phase)
    ensures i >= |s.dispatches| ==> NextDispatches(s, a)[i].next == 0 && NextDispatches(s, a)[i].phase.Adding?
  {
    if i < |s.dispatches| {
      assert Subject(s, a) != Some(i) ==> NextDispatch(s, a, i) == s.dispatches[i];
    }
  }

  lemma OtherQueuedKept(s: State, a: Action, t: Task)
    requires Enabled(s, a) && TaskOfAction(s, a) != Some(t)
    ensures t in NextQueue(s, a) <==> t in s.queue
  {
    if a.Take? {
      Sequences.HeadAndTail(s.queue);
    }
  }

  lemma OtherPlaceKept(s: State, a: Action, t: Task)
    requires Enabled(s, a) && TaskOfAction(s, a) != Some(t)
    ensures t in NextPlace(s, a) <==> t in s.place
    ensures t in s.place ==> NextPlace(s, a)[t] == s.place[t]
    ensures t in NextQueue(s, a) <==> t in s.queue
    ensures t in Next(s, a).resolved <==> t in s.resolved
    ensures t in Next(s, a).outcomes <==> t in s.outcomes
    ensures t in s.outcomes ==> Next(s, a).outcomes[t] == s.outcomes[t]
  {
    OtherQueuedKept(s, a, t);
    hide NextExecutors, NextDispatches, NextQueue;
  }

  lemma OtherAddedKept(s: State, a: Action, t: Task)
    requires Placed(s) && Enabled(s, a) && TaskOfAction(s, a) != Some(t)
    ensures Added(Next(s, a), t) <==> Added(s, t)
  {
    assert t.i < |s.dispatches| ==> DispatchOk(s.dispatches[t.i]);
    if t.i < |NextDispatches(s, a)| {
      DispatchMoves(s, a, t.i);
    }
    hide NextExecutors, NextDispatches, NextDispatch, NextPlace, NextQueue, Placed;
  }

  lemma OtherLocatedKept(s: State, a: Action, t: Task)
    requires Placed(s) && Enabled(s, a) && TaskOfAction(s, a) != Some(t) && t in s.place
    ensures t in Next(s, a).place && t.i < |Next(s, a).dispatches| && Located(Next(s, a), t)
    ensures WithExecutor(Next(s, a), t) <==> WithExecutor(s, t)
    ensures WithExecutor(s, t) ==> StageIn(Next(s, a), t) == StageIn(s, t)
  {
    assert TaskOk(s, t);
    OtherPlaceKept(s, a, t);
    DispatchMoves(s, a, t.i);
    if s.place[t].With? {
      ExecutorMoves(s, a, s.place[t].e);
      assert Mover(a) != Some(s.place[t].e);
    }
    hide NextExecutors, NextDispatches, NextDispatch, NextStatus, NextPlace, NextQueue, Placed, TaskOk;
  }

  /** A task the action is not about stays as it was. */
  lemma OtherTaskKept(s: State, a: Action, t: Task)
    requires Placed(s) && Enabled(s, a) && TaskOfAction(s, a) != Some(t)
    ensures TaskOk(Next(s, a), t)
  {
    assert TaskOk(s, t);
    OtherPlaceKept(s, a, t);
    OtherAddedKept(s, a, t);
    if t in s.place {
      OtherLocatedKept(s, a, t);
    }
    hide NextExecutors, NextDispatches, NextPlace, NextQueue, Placed, Enabled, Located, Added;
  }

  /** The step was about t: where t is now. */
  lemma SubjectLocated(s: State, a: Action, t: Task)
    requires Placed(s) && Enabled(s, a) && TaskOfAction(s, a) == Some(t)
    ensures t in Next(s, a).place && Added(Next(s, a), t) && Located(Next(s, a), t)
  {
    if Mover(a).Some? {
      ExecutorTaskLocated(s, a, t);
    } else {
      DispatcherTaskLocated(s, a, t);
    }
  }

  lemma DispatcherTaskLocated(s: State, a: Action, t: Task)
    requires Placed(s) && Enabled(s, a) && TaskOfAction(s, a) == Some(t) && Mover(a).None?
    ensures t in Next(s, a).place && Added(Next(s, a), t) && Located(Next(s, a), t)
  {
    assert TaskOk(s, t);
    DispatchMoves(s, a, t.i);
    hide NextExecutors, NextDispatches, NextDispatch, Placed, NextStatus;
    if a.Enqueue? {
      assert Next(s, a).queue[|s.queue|] == t;
    }
  }

  lemma ExecutorTaskLocated(s: State, a: Action, t: Task)
    requires Placed(s) && Enabled(s, a) && TaskOfAction(s, a) == Some(t) && Mover(a).Some?
    ensures t in Next(s, a).place && Added(Next(s, a), t) && Located(Next(s, a), t)
  {
    assert TaskOk(s, t);
    if t.i < |s.dispatches| {
      DispatchMoves(s, a, t.i);
    }
    ExecutorMoves(s, a, Mover(a).value);
    assert ExecutorOk(s, Mover(a).value);
    hide NextExecutors, NextDispatches, NextDispatch, NextQueue, Placed;
  }

  /** The task the action is about goes where the action puts it. */
  lemma SubjectTaskKept(s: State, a: Action)
    requires Placed(s) && Enabled(s, a) && TaskOfAction(s, a).Some?
    ensures TaskOk(Next(s, a), TaskOfAction(s, a).value)
  {
    var t := TaskOfAction(s, a).value;
    assert TaskOk(s, t);
    SubjectLocated(s, a, t);
    if Mover(a).Some? {
      ExecutorMoves(s, a, Mover(a).value);
      assert ExecutorOk(s, Mover(a).value);
    }
    hide NextExecutors, NextDispatches, NextQueue, Placed, Added, Located;
  }

  /** Executor e goes on with the task it has. */
  lemma BusyExecutorOk(s: State, a: Action, e: nat)
    requires Placed(s) && Enabled(s, a) && e < |s.executors| && s.executors[e].status.Busy?
    ensures e < |Next(s, a).executors| && ExecutorOk(Next(s, a), e)
  {
    var u := Next(s, a);
    var t := s.executors[e].status.task;
    ExecutorMoves(s, a, e);
    assert ExecutorOk(s, e) && TaskOk(s, t);
    DispatchMoves(s, a, t.i);
    if Mover(a) != Some(e) && Mover(a).Some? {
      assert ExecutorOk(s, Mover(a).value);
    }
    if TaskOfAction(s, a) != Some(t) {
      OtherPlaceKept(s, a, t);
      hide NextPlace, NextQueue;
    }
    hide NextExecutors, NextDispatches, NextDispatch, Placed;
  }

  lemma StepKeepsExecutorOk(s: State, a: Action, e: nat)
    requires Placed(s) && Enabled(s, a) && e < |Next(s, a).executors|
    ensures ExecutorOk(Next(s, a), e)
  {
    ExecutorMoves(s, a, e);
    if e < |s.executors| {
      if s.executors[e].status.Busy? {
        BusyExecutorOk(s, a, e);
      } else if a == Take(e) {
        var t := s.queue[0];
        assert TaskOk(s, t);
        DispatchMoves(s, a, t.i);
        hide NextExecutors, NextDispatches, NextDispatch;
      }
    }
  }

  lemma StepKeepsQueueOk(s: State, a: Action)
    requires Placed(s) && Enabled(s, a)
    ensures QueueOk(Next(s, a))
  {
    hide NextExecutors, NextDispatches;
    var u := Next(s, a);
    if a.Add? {
      assert TaskOk(s, Task(a.i, s.dispatches[a.i].next));
    }
    if a.Enqueue? {
      assert TaskOk(s, Task(a.i, s.dispatches[a.i].next));
    }
    if a.Settle? {
      assert ExecutorOk(s, a.e);
    }
  }

  lemma StepKeepsPlaced(s: State, a: Action)
    requires Placed(s) && Enabled(s, a)
    ensures Placed(Next(s, a))
  {
    var u := Next(s, a);
    forall i | 0 <= i < |u.dispatches| ensures DispatchOk(u.dispatches[i]) {
      DispatchMoves(s, a, i);
    }
    forall t ensures TaskOk(u, t) {
      if TaskOfAction(s, a) == Some(t) {
        SubjectTaskKept(s, a);
      } else {
        OtherTaskKept(s, a, t);
      }
    }
    forall e: nat | e < |u.executors| ensures ExecutorOk(u, e) {
      StepKeepsExecutorOk(s, a, e);
    }
    StepKeepsQueueOk(s, a);
    hide Next;
  }

  // ----- Result channels

  /** The listeners of dispatch i that were added and have not called results.Done. */
  ghost function Unresolved(s: State, i: nat): set<nat>
    requires i < |s.dispatches|
  {
    set k: nat | k < s.dispatches[i].n && Task(i, k) in s.place && Task(i, k) !in s.resolved
  }

  /** The listener returned and its closure is past sending the error. */
  ghost predicate Reported(s: State, t: Task) {
    t in s.outcomes && s.outcomes[t].Returned? && !(WithExecutor(s, t) && StageIn(s, t).Reporting?)
  }

  /** What a channel has been sent: one value, its own, for each listener that is past sending. */
  ghost predicate SentOk(s: State, i: nat)
    requires i < |s.dispatches| && s.dispatches[i].channel.Some?
  {
    var sent := s.dispatches[i].channel.value.sent;
    && (forall j | 0 <= j < |sent| ::
      Reported(s, Task(i, sent[j].k)) && s.outcomes[Task(i, sent[j].k)] == Returned(sent[j].error))
    && (forall j, l | 0 <= j < l < |sent| :: sent[j].k != sent[l].k)
    && (forall k: nat | Reported(s, Task(i, k)) :: exists j :: 0 <= j < |sent| && sent[j].k == k)
  }

  ghost predicate CloserOk(s: State, i: nat)
    requires i < |s.dispatches| && s.dispatches[i].channel.Some?
  {
    var d := s.dispatches[i];
    var ch := d.channel.value;
    && (ch.closer.NotStarted? <==> !d.phase.Over?)
    && ch.closes == (if ch.closer.Done? then 1 else 0)
    && (ch.closer.Done? ==> ch.results == 0)
    && ch.read <= |ch.sent|
  }

  ghost predicate ChannelOk(s: State, i: nat)
    requires i < |s.dispatches|
  {
    s.dispatches[i].channel.Some? ==>
      && s.dispatches[i].channel.value.results == |Unresolved(s, i)|
      && SentOk(s, i)
      && CloserOk(s, i)
  }

  ghost predicate ChannelsOk(s: State) {
    forall i: nat | i < |s.dispatches| :: ChannelOk(s, i)
  }

  /** What a step does to the history of a task it is not about: nothing. */
  lemma OtherTaskHistory(s: State, a: Action, t: Task)
    requires Placed(s) && Enabled(s, a) && TaskOfAction(s, a) != Some(t)
    ensures var u := Next(s, a);
      && (t in u.place <==> t in s.place) && (t in u.resolved <==> t in s.resolved)
      && (t in u.outcomes <==> t in s.outcomes) && (t in s.outcomes ==> u.outcomes[t] == s.outcomes[t])
      && (Reported(u, t) <==> Reported(s, t))
  {
    var u := Next(s, a);
    assert TaskOk(s, t);
    if t in s.place && s.place[t].With? {
      ExecutorMoves(s, a, s.place[t].e);
      assert Mover(a) != Some(s.place[t].e);
    }
    hide NextExecutors, NextDispatches, NextDispatch, NextStatus;
    assert t in s.place ==> u.place[t] == s.place[t];
  }

  /** When the subject of a step becomes reported: exactly by sending its result, unless it needs none. */
  lemma SubjectReported(s: State, a: Action)
    requires Placed(s) && Enabled(s, a) && TaskOfAction(s, a).Some?
    ensures var t := TaskOfAction(s, a).value;
      var u := Next(s, a);
      && (t.i < |s.dispatches| && s.dispatches[t.i].channel.Some? ==>
            (Reported(u, t) <==> a.SendResult? || Reported(s, t)))
      && (t in s.outcomes && !a.RunListener? ==> t in u.outcomes && u.outcomes[t] == s.outcomes[t])
      && (a.SendResult? ==> !Reported(s, t) && t in s.outcomes && s.outcomes[t] == Returned(StageOf(s, a.e).error))
      && (a.RunListener? ==> !Reported(s, t))
  {
    var t := TaskOfAction(s, a).value;
    var u := Next(s, a);
    assert TaskOk(s, t);
    if Mover(a).Some? {
      var e := Mover(a).value;
      ExecutorMoves(s, a, e);
      assert ExecutorOk(s, e);
    }
    hide NextExecutors, NextDispatches, NextDispatch;
  }

  /** The step sends the result of listener k of dispatch i. */
  predicate SendsFor(s: State, a: Action, i: nat, k: nat) {
    a.SendResult? && BusyAt(s, a.e) && TaskOf(s, a.e) == Task(i, k)
  }

  lemma ReportedMoves(s: State, a: Action, i: nat, k: nat)
    requires Placed(s) && Enabled(s, a) && i < |s.dispatches| && s.dispatches[i].channel.Some?
    ensures Reported(Next(s, a), Task(i, k)) <==> Reported(s, Task(i, k)) || SendsFor(s, a, i, k)
    ensures Reported(Next(s, a), Task(i, k)) ==>
      Task(i, k) in s.outcomes && Next(s, a).outcomes[Task(i, k)] == s.outcomes[Task(i, k)]
  {
    if TaskOfAction(s, a) == Some(Task(i, k)) {
      SubjectReported(s, a);
    } else {
      OtherTaskHistory(s, a, Task(i, k));
    }
  }

  lemma SentMoves(s: State, a: Action, i: nat)
    requires Placed(s) && Enabled(s, a) && i < |s.dispatches| && s.dispatches[i].channel.Some?
    ensures i < |Next(s, a).dispatches| && Next(s, a).dispatches[i].channel.Some?
    ensures Next(s, a).dispatches[i].channel.value.sent ==
      s.dispatches[i].channel.value.sent +
      if a.SendResult? && TaskOf(s, a.e).i == i then [Sent(TaskOf(s, a.e).k, StageOf(s, a.e).error)] else []
    ensures a.SendResult? && TaskOf(s, a.e).i == i ==>
      !Reported(s, TaskOf(s, a.e)) && TaskOf(s, a.e) in s.outcomes
      && s.outcomes[TaskOf(s, a.e)] == Returned(StageOf(s, a.e).error)
  {
    DispatchMoves(s, a, i);
    if a.SendResult? {
      SubjectReported(s, a);
    }
  }

  lemma StepKeepsSent(s: State, a: Action, i: nat)
    requires Placed(s) && Enabled(s, a) && i < |s.dispatches| && s.dispatches[i].channel.Some? && SentOk(s, i)
    ensures i < |Next(s, a).dispatches| && Next(s, a).dispatches[i].channel.Some? && SentOk(Next(s, a), i)
  {
    var u := Next(s, a);
    SentMoves(s, a, i);
    hide Next, Reported, Placed, Enabled;
    var old_, new_ := s.dispatches[i].channel.value.sent, u.dispatches[i].channel.value.sent;
    forall j | 0 <= j < |new_|
      ensures Reported(u, Task(i, new_[j].k)) && u.outcomes[Task(i, new_[j].k)] == Returned(new_[j].error)
    {
      ReportedMoves(s, a, i, new_[j].k);
      if j < |old_| {
        assert new_[j] == old_[j];
      }
    }
    forall j, l | 0 <= j < l < |new_| ensures new_[j].k != new_[l].k {
      assert new_[j] == old_[j];
      assert Reported(s, Task(i, old_[j].k));
    }
    forall k: nat | Reported(u, Task(i, k)) ensures exists j :: 0 <= j < |new_| && new_[j].k == k {
      ReportedMoves(s, a, i, k);
      if Reported(s, Task(i, k)) {
        var j :| 0 <= j < |old_| && old_[j].k == k;
        assert new_[j] == old_[j];
      } else {
        assert new_[|old_|].k == k;
      }
    }
  }

  /** How the unresolved listeners of dispatch i change by a step about task t of it. */
  lemma SubjectUnresolved(s: State, a: Action, t: Task)
    requires Placed(s) && Enabled(s, a) && TaskOfAction(s, a) == Some(t)
    requires t.i < |s.dispatches| && t.i < |Next(s, a).dispatches|
    ensures t.k in Unresolved(Next(s, a), t.i) <==> a.Add? || (t.k in Unresolved(s, t.i) && !a.Resolve?)
    ensures a.Add? ==> t.k !in Unresolved(s, t.i)
    ensures a.Resolve? ==> t.k in Unresolved(s, t.i)
  {
    DispatchMoves(s, a, t.i);
    assert TaskOk(s, t) && DispatchOk(s.dispatches[t.i]);
    if Mover(a).Some? {
      assert ExecutorOk(s, Mover(a).value);
    }
    hide NextExecutors, NextDispatches, NextDispatch, NextStatus;
  }

  lemma StepKeepsUnresolved(s: State, a: Action, i: nat)
    requires Placed(s) && Enabled(s, a) && i < |s.dispatches| && i < |Next(s, a).dispatches|
    ensures |Unresolved(Next(s, a), i)| ==
      |Unresolved(s, i)| + One(a == Add(i)) - One(a.Resolve? && TaskOf(s, a.e).i == i)
  {
    var before, after := Unresolved(s, i), Unresolved(Next(s, a), i);
    forall k: nat | TaskOfAction(s, a) != Some(Task(i, k)) ensures k in after <==> k in before {
      OtherUnresolved(s, a, i, k);
    }
    hide Unresolved, Next, Placed;
    if TaskOfAction(s, a).Some? && TaskOfAction(s, a).value.i == i {
      var k := TaskOfAction(s, a).value.k;
      SubjectUnresolved(s, a, Task(i, k));
      OneElementApart(before, after, k);
    } else {
      assert after == before;
    }
  }

  lemma OtherUnresolved(s: State, a: Action, i: nat, k: nat)
    requires Placed(s) && Enabled(s, a) && i < |s.dispatches| && i < |Next(s, a).dispatches|
    requires TaskOfAction(s, a) != Some(Task(i, k))
    ensures k in Unresolved(Next(s, a), i) <==> k in Unresolved(s, i)
  {
    OtherTaskHistory(s, a, Task(i, k));
    DispatchMoves(s, a, i);
    hide NextExecutors, NextDispatches, NextDispatch, NextPlace, Placed;
  }

  lemma OneElementApart(before: set<nat>, after: set<nat>, k: nat)
    requires forall x: nat | x != k :: x in after <==> x in before
    ensures |after| == |before| + One(k in after) - One(k in before)
  {
    if k in after && k !in before {
      assert after == before + {k};
    } else if k in before && k !in after {
      assert before == after + {k};
    } else {
      assert after == before;
    }
  }

  /** A closure that has not called results.Done keeps its dispatch's count above zero. */
  lemma BusyIsUnresolved(s: State, e: nat)
    requires Placed(s) && BusyAt(s, e) && !StageOf(s, e).Settling?
    requires DispatchOf(s, e).channel.Some? && ChannelOk(s, TaskOf(s, e).i)
    ensures DispatchOf(s, e).channel.value.results >= 1
    ensures DispatchOf(s, e).channel.value.closes == 0
    ensures TaskOf(s, e).k < DispatchOf(s, e).n
  {
    var t := TaskOf(s, e);
    assert ExecutorOk(s, e) && TaskOk(s, t) && DispatchOk(s.dispatches[t.i]);
    assert t.k in Unresolved(s, t.i);
    assert |Unresolved(s, t.i)| >= 1 by {
      assert Unresolved(s, t.i) != {};
    }
  }

  lemma StepKeepsCloser(s: State, a: Action, i: nat)
    requires Placed(s) && Enabled(s, a) && i < |s.dispatches| && s.dispatches[i].channel.Some? && ChannelOk(s, i)
    ensures i < |Next(s, a).dispatches| && Next(s, a).dispatches[i].channel.Some? && CloserOk(Next(s, a), i)
  {
    DispatchMoves(s, a, i);
    if a.Resolve? && TaskOf(s, a.e).i == i {
      BusyIsUnresolved(s, a.e);
    }
    hide NextExecutors, NextDispatches, NextPlace, Placed;
  }

  lemma ResultsMove(s: State, a: Action, i: nat)
    requires Enabled(s, a) && i < |s.dispatches| && s.dispatches[i].channel.Some?
    ensures i < |Next(s, a).dispatches| && Next(s, a).dispatches[i].channel.Some?
    ensures Next(s, a).dispatches[i].channel.value.results ==
      s.dispatches[i].channel.value.results + One(a == Add(i)) - One(a.Resolve? && TaskOf(s, a.e).i == i)
  {
    DispatchMoves(s, a, i);
  }

  lemma NewChannelOk(s: State, a: Action)
    requires Placed(s) && a.StartDispatch?
    ensures ChannelOk(Next(s, a), |s.dispatches|)
  {
    var i := |s.dispatches|;
    var u := Next(s, a);
    forall k: nat ensures Task(i, k) !in u.place && Task(i, k) !in u.outcomes {
      assert TaskOk(s, Task(i, k));
    }
    assert Unresolved(u, i) == {};
  }

  lemma StepKeepsChannelsOk(s: State, a: Action)
    requires Placed(s) && ChannelsOk(s) && Enabled(s, a)
    ensures ChannelsOk(Next(s, a))
  {
    var u := Next(s, a);
    forall i: nat | i < |u.dispatches| ensures ChannelOk(u, i) {
      if i >= |s.dispatches| {
        NewChannelOk(s, a);
      } else if s.dispatches[i].channel.Some? {
        assert ChannelOk(s, i);
        ResultsMove(s, a, i);
        StepKeepsUnresolved(s, a, i);
        StepKeepsSent(s, a, i);
        StepKeepsCloser(s, a, i);
      } else {
        DispatchMoves(s, a, i);
      }
    }
  }

  // ----- All of it, over whole runs

  ghost predicate Inv(s: State) {
    Accounted(s) && Placed(s) && ChannelsOk(s)
  }

  lemma InitialInv(s: State)
    requires Initial(s)
    ensures Inv(s)
  {
    forall t ensures TaskOk(s, t) {
    }
  }

  lemma {:induction false} RunKeepsInv(s: State, acts: seq<Action>)
    requires Inv(s) && Legal(s, acts)
    ensures Inv(After(s, acts))
    decreases |acts|
  {
    if acts != [] {
      var pre := acts[..|acts| - 1];
      RunKeepsInv(s, pre);
      hide Accounted, Placed, ChannelsOk, Next, Enabled;
      StepKeepsAccounted(After(s, pre), acts[|acts| - 1]);
      StepKeepsPlaced(After(s, pre), acts[|acts| - 1]);
      StepKeepsChannelsOk(After(s, pre), acts[|acts| - 1]);
    }
  }
}
