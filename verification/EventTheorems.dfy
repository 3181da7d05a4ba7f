/** What the event dispatcher guarantees over whole runs. */
module EventTheorems {
  import opened Wrappers
  import opened EventDispatch
  import opened EventProofs
  import Sequences

  /** After every step of every run: wg is the number of closures being sent, queued or executing, so never
      negative; at most 100 are queued; and running is the number of live workers. */
  lemma {:induction false} WaitGroupsAreExact(s: State, acts: seq<Action>)
    requires Initial(s) && Legal(s, acts)
    ensures var t := After(s, acts);
      && t.wg == Count(t.dispatches, IsSending) + |t.queue| + Count(t.executors, IsBusy)
      && t.wg >= 0 && |t.queue| <= 100
      && t.running == Count(t.executors, IsLiveWorker)
  {
    InitialInv(s);
    RunKeepsInv(s, acts);
  }

  // ----- Result channels

  lemma {:induction false} DistinctBelow(ks: seq<nat>, n: nat)
    requires forall j | 0 <= j < |ks| :: ks[j] < n
    requires forall j, l | 0 <= j < l < |ks| :: ks[j] != ks[l]
    ensures |ks| <= n
    decreases n
  {
    assert ks != [] ==> ks[0] < n;
    if ks == [] {
    } else if j: nat :| j < |ks| && ks[j] == n - 1 {
      var rest := ks[..j] + ks[j + 1..];
      Sequences.Without(ks, j, rest);
      DistinctWithout(ks, rest, j, n);
      DistinctBelow(rest, n - 1);
    } else {
      DistinctBelow(ks, n - 1);
    }
  }

  lemma DistinctWithout(ks: seq<nat>, rest: seq<nat>, j: nat, n: nat)
    requires forall i | 0 <= i < |ks| :: ks[i] < n
    requires forall i, l | 0 <= i < l < |ks| :: ks[i] != ks[l]
    requires j < |ks| && ks[j] == n - 1 && |rest| == |ks| - 1
    requires forall l | 0 <= l < |rest| :: rest[l] == ks[if l < j then l else l + 1]
    ensures forall l | 0 <= l < |rest| :: rest[l] < n - 1
    ensures forall i, l | 0 <= i < l < |rest| :: rest[i] != rest[l]
  {
  }

  lemma SentBelow(s: State, i: nat, j: nat)
    requires Inv(s) && i < |s.dispatches| && s.dispatches[i].channel.Some? && j < |s.dispatches[i].channel.value.sent|
    ensures s.dispatches[i].channel.value.sent[j].k < s.dispatches[i].n
  {
    assert ChannelOk(s, i) && DispatchOk(s.dispatches[i]);
    assert TaskOk(s, Task(i, s.dispatches[i].channel.value.sent[j].k));
  }

  /** In every interleaving, a listener that has an error to report finds the channel open and with room. */
  lemma {:induction false} SendNeverBlocks(s: State, acts: seq<Action>, e: nat)
    requires Initial(s) && Legal(s, acts)
    requires BusyAt(After(s, acts), e) && StageOf(After(s, acts), e).Reporting?
    ensures Enabled(After(s, acts), SendResult(e))
    ensures DispatchOf(After(s, acts), e).channel.Some? && DispatchOf(After(s, acts), e).channel.value.closes == 0
  {
    InitialInv(s);
    RunKeepsInv(s, acts);
    RoomForReport(After(s, acts), e);
  }

  lemma RoomForReport(t: State, e: nat)
    requires Inv(t) && BusyAt(t, e) && StageOf(t, e).Reporting?
    ensures Enabled(t, SendResult(e))
    ensures DispatchOf(t, e).channel.Some? && DispatchOf(t, e).channel.value.closes == 0
  {
    var i, k := TaskOf(t, e).i, TaskOf(t, e).k;
    assert ExecutorOk(t, e) && TaskOk(t, Task(i, k)) && ChannelOk(t, i);
    BusyIsUnresolved(t, e);
    var sent := t.dispatches[i].channel.value.sent;
    var ks := seq(|sent|, (j: nat) requires j < |sent| => sent[j].k) + [k];
    forall j | 0 <= j < |ks| ensures ks[j] < t.dispatches[i].n {
      if j < |sent| {
        SentBelow(t, i, j);
      }
    }
    forall j, l | 0 <= j < l < |ks| ensures ks[j] != ks[l] {
      assert Reported(t, Task(i, sent[j].k)) && !Reported(t, Task(i, k));
    }
    DistinctBelow(ks, t.dispatches[i].n);
  }

  /** The errors of the listeners below n of dispatch i that returned. */
  ghost function ReturnedErrors(outcomes: map<Task, Outcome>, i: nat, n: nat): multiset<Error> {
    if n == 0 then multiset{}
    else
      ReturnedErrors(outcomes, i, n - 1) +
      if Task(i, n - 1) in outcomes && outcomes[Task(i, n - 1)].Returned? then multiset{outcomes[Task(i, n - 1)].error}
      else multiset{}
  }

  ghost function Errors(sent: seq<Sent>): multiset<Error> {
    if sent == [] then multiset{} else Errors(sent[..|sent| - 1]) + multiset{sent[|sent| - 1].error}
  }

  lemma ErrorsSnoc(sent: seq<Sent>, x: Sent)
    ensures Errors(sent + [x]) == Errors(sent) + multiset{x.error}
  {
    Sequences.Snoc(sent, x);
  }

  lemma {:induction false} ErrorsWithout(sent: seq<Sent>, j: nat)
    requires j < |sent|
    ensures Errors(sent) == Errors(sent[..j] + sent[j + 1..]) + multiset{sent[j].error}
    decreases |sent|
  {
    hide Errors;
    var front, x := sent[..|sent| - 1], sent[|sent| - 1];
    Sequences.FrontAndLast(sent);
    ErrorsSnoc(front, x);
    if j == |front| {
      Sequences.WithoutLast(front, x);
    } else {
      ErrorsWithout(front, j);
      Sequences.WithoutSnoc(front, x, j);
      ErrorsSnoc(front[..j] + front[j + 1..], x);
    }
  }

  /** One value for each returned listener, with its error. */
  ghost predicate Lists(sent: seq<Sent>, outcomes: map<Task, Outcome>, i: nat, n: nat) {
    && (forall j | 0 <= j < |sent| ::
          sent[j].k < n && Task(i, sent[j].k) in outcomes && outcomes[Task(i, sent[j].k)] == Returned(sent[j].error))
    && (forall j, l | 0 <= j < l < |sent| :: sent[j].k != sent[l].k)
    && (forall k: nat | k < n && Task(i, k) in outcomes && outcomes[Task(i, k)].Returned? ::
          exists j :: 0 <= j < |sent| && sent[j].k == k)
  }

  lemma WithoutEntry(sent: seq<Sent>, outcomes: map<Task, Outcome>, i: nat, n: nat, j: nat)
    requires n > 0 && Lists(sent, outcomes, i, n) && j < |sent| && sent[j].k == n - 1
    ensures Lists(sent[..j] + sent[j + 1..], outcomes, i, n - 1)
  {
    hide Lists;
    var rest := sent[..j] + sent[j + 1..];
    Sequences.Without(sent, j, rest);
    ListsWithout(sent, rest, outcomes, i, n, j);
  }

  lemma ListsWithout(sent: seq<Sent>, rest: seq<Sent>, outcomes: map<Task, Outcome>, i: nat, n: nat, j: nat)
    requires n > 0 && Lists(sent, outcomes, i, n) && j < |sent| && sent[j].k == n - 1
    requires |rest| == |sent| - 1
    requires forall l | 0 <= l < |rest| :: rest[l] == sent[if l < j then l else l + 1]
    ensures Lists(rest, outcomes, i, n - 1)
  {
    forall k: nat | k < n - 1 && Task(i, k) in outcomes && outcomes[Task(i, k)].Returned?
      ensures exists l :: 0 <= l < |rest| && rest[l].k == k
    {
      var l :| 0 <= l < |sent| && sent[l].k == k;
      assert rest[if l < j then l else l - 1].k == k;
    }
  }

  lemma WithoutListener(sent: seq<Sent>, outcomes: map<Task, Outcome>, i: nat, n: nat)
    requires n > 0 && Lists(sent, outcomes, i, n) && !(Task(i, n - 1) in outcomes && outcomes[Task(i, n - 1)].Returned?)
    ensures Lists(sent, outcomes, i, n - 1)
  {
    forall j | 0 <= j < |sent| ensures sent[j].k < n - 1 {
      assert Task(i, sent[j].k) in outcomes && outcomes[Task(i, sent[j].k)].Returned?;
    }
  }

  lemma NoneListed(sent: seq<Sent>, outcomes: map<Task, Outcome>, i: nat)
    requires Lists(sent, outcomes, i, 0)
    ensures Errors(sent) == ReturnedErrors(outcomes, i, 0) == multiset{}
  {
    assert |sent| > 0 ==> sent[0].k < 0;
  }

  lemma {:induction false} ListedErrors(sent: seq<Sent>, outcomes: map<Task, Outcome>, i: nat, n: nat)
    requires Lists(sent, outcomes, i, n)
    ensures Errors(sent) == ReturnedErrors(outcomes, i, n)
    decreases n
  {
    hide Errors, Lists;
    if n == 0 {
      NoneListed(sent, outcomes, i);
    } else if Task(i, n - 1) in outcomes && outcomes[Task(i, n - 1)].Returned? {
      var j := EntryOf(sent, outcomes, i, n);
      WithoutEntry(sent, outcomes, i, n, j);
      ErrorsWithout(sent, j);
      ListedErrors(sent[..j] + sent[j + 1..], outcomes, i, n - 1);
    } else {
      WithoutListener(sent, outcomes, i, n);
      ListedErrors(sent, outcomes, i, n - 1);
    }
  }

  lemma EntryOf(sent: seq<Sent>, outcomes: map<Task, Outcome>, i: nat, n: nat) returns (j: nat)
    requires n > 0 && Lists(sent, outcomes, i, n) && Task(i, n - 1) in outcomes && outcomes[Task(i, n - 1)].Returned?
    ensures j < |sent| && sent[j].k == n - 1 && outcomes[Task(i, n - 1)].error == sent[j].error
  {
    j :| 0 <= j < |sent| && sent[j].k == n - 1;
    assert outcomes[Task(i, sent[j].k)] == Returned(sent[j].error);
  }

  /** A result channel is closed at most once, only after every listener of the dispatch has finished, and what
      was sent on it by then are, as a multiset, the errors of exactly the listeners that did not panic. */
  lemma {:induction false} ClosedChannelIsComplete(s: State, acts: seq<Action>, i: nat)
    requires Initial(s) && Legal(s, acts)
    requires i < |After(s, acts).dispatches| && After(s, acts).dispatches[i].channel.Some?
    requires After(s, acts).dispatches[i].channel.value.closes > 0
    ensures var t := After(s, acts);
      var d := t.dispatches[i];
      && d.channel.value.closes == 1
      && (forall k: nat | k < d.n :: Task(i, k) in t.outcomes && Task(i, k) in t.resolved)
      && Errors(d.channel.value.sent) == ReturnedErrors(t.outcomes, i, d.n)
  {
    InitialInv(s);
    RunKeepsInv(s, acts);
    ClosedIsComplete(After(s, acts), i);
  }

  lemma ClosedIsComplete(t: State, i: nat)
    requires Inv(t) && i < |t.dispatches| && t.dispatches[i].channel.Some? && t.dispatches[i].channel.value.closes > 0
    ensures var d := t.dispatches[i];
      && d.channel.value.closes == 1
      && (forall k: nat | k < d.n :: Task(i, k) in t.outcomes && Task(i, k) in t.resolved)
      && Errors(d.channel.value.sent) == ReturnedErrors(t.outcomes, i, d.n)
  {
    var d := t.dispatches[i];
    assert ChannelOk(t, i) && DispatchOk(d);
    assert |Unresolved(t, i)| == 0;
    assert Unresolved(t, i) == {};
    forall k: nat | k < d.n
      ensures Task(i, k) in t.outcomes && Task(i, k) in t.resolved
      ensures t.outcomes[Task(i, k)].Returned? ==> Reported(t, Task(i, k))
    {
      assert TaskOk(t, Task(i, k));
      assert k !in Unresolved(t, i);
    }
    var sent := d.channel.value.sent;
    forall j: nat | j < |sent| ensures sent[j].k < d.n {
      SentBelow(t, i, j);
    }
    hide Placed, ChannelsOk, Accounted;
    ListedErrors(sent, t.outcomes, i, d.n);
  }

  /** Nor is it left open: once a dispatch is over and its listeners have finished, closing the channel is
      possible until it has happened, and it does not happen again. */
  lemma {:induction false} CloseIsDue(s: State, acts: seq<Action>, i: nat)
    requires Initial(s) && Legal(s, acts)
    requires i < |After(s, acts).dispatches| && After(s, acts).dispatches[i].channel.Some?
    requires After(s, acts).dispatches[i].phase.Over?
    requires forall k: nat | k < After(s, acts).dispatches[i].n :: Task(i, k) in After(s, acts).resolved
    ensures Enabled(After(s, acts), Close(i)) <==> After(s, acts).dispatches[i].channel.value.closes == 0
    ensures After(s, acts).dispatches[i].channel.value.closes <= 1
  {
    InitialInv(s);
    RunKeepsInv(s, acts);
    CloseIsDueAt(After(s, acts), i);
  }

  lemma CloseIsDueAt(t: State, i: nat)
    requires Inv(t) && i < |t.dispatches| && t.dispatches[i].channel.Some? && t.dispatches[i].phase.Over?
    requires forall k: nat | k < t.dispatches[i].n :: Task(i, k) in t.resolved
    ensures Enabled(t, Close(i)) <==> t.dispatches[i].channel.value.closes == 0
    ensures t.dispatches[i].channel.value.closes <= 1
  {
    assert ChannelOk(t, i);
    assert Unresolved(t, i) == {};
    hide Placed, ChannelsOk, Accounted, SentOk, Unresolved;
  }

  // ----- The queue is first in, first out

  /** The closures that were sent in a run, in order. */
  ghost function SentTasks(s: State, acts: seq<Action>): seq<Task>
    requires Legal(s, acts)
    decreases |acts|
  {
    if acts == [] then []
    else
      var pre, a := acts[..|acts| - 1], acts[|acts| - 1];
      SentTasks(s, pre) + if a.Enqueue? then [Task(a.i, After(s, pre).dispatches[a.i].next)] else []
  }

  /** The closures that executors took in a run, in order. */
  ghost function TakenTasks(s: State, acts: seq<Action>): seq<Task>
    requires Legal(s, acts)
    decreases |acts|
  {
    if acts == [] then []
    else
      var pre, a := acts[..|acts| - 1], acts[|acts| - 1];
      TakenTasks(s, pre) + if a.Take? then [Taken(After(s, pre), a)] else []
  }

  /** What executor a.e has in hand after it took from the queue. */
  ghost function Taken(s: State, a: Action): Task
    requires Enabled(s, a) && a.Take?
  {
    TakenIsBusy(s, a);
    Next(s, a).executors[a.e].status.task
  }

  lemma TakenIsBusy(s: State, a: Action)
    requires Enabled(s, a) && a.Take?
    ensures a.e < |Next(s, a).executors| && Next(s, a).executors[a.e].status.Busy?
    ensures s.queue == [Next(s, a).executors[a.e].status.task] + Next(s, a).queue
  {
    Sequences.HeadAndTail(s.queue);
    hide NextDispatches, NextPlace;
  }

  lemma QueueOtherwise(s: State, a: Action)
    requires Enabled(s, a) && !a.Take?
    ensures Next(s, a).queue == s.queue + if a.Enqueue? then [Task(a.i, s.dispatches[a.i].next)] else []
  {
    hide NextDispatches, NextPlace, NextExecutors;
  }

  /** In every run the closures are executed in the order in which they were sent. */
  lemma {:induction false} FirstInFirstOut(s: State, acts: seq<Action>)
    requires Initial(s) && Legal(s, acts)
    ensures SentTasks(s, acts) == TakenTasks(s, acts) + After(s, acts).queue
    decreases |acts|
  {
    if acts != [] {
      var pre, a := acts[..|acts| - 1], acts[|acts| - 1];
      var t := After(s, pre);
      FirstInFirstOut(s, pre);
      hide Next, Enabled;
      if a.Take? {
        TakenIsBusy(t, a);
        Sequences.Associates(TakenTasks(s, pre), [Taken(t, a)], Next(t, a).queue);
      } else {
        QueueOtherwise(t, a);
        if a.Enqueue? {
          Sequences.Associates(TakenTasks(s, pre), t.queue, [Task(a.i, t.dispatches[a.i].next)]);
        }
      }
    }
  }

  // ----- Every closure runs at most once

  /** How often the listener of task t was called. */
  ghost function Calls(s: State, acts: seq<Action>, t: Task): nat
    requires Legal(s, acts)
    decreases |acts|
  {
    if acts == [] then 0
    else
      var pre := acts[..|acts| - 1];
      Calls(s, pre, t) + One(acts[|acts| - 1].RunListener? && TaskOf(After(s, pre), acts[|acts| - 1].e) == t)
  }

  /** A step calls a listener only for a task that has no outcome yet, and that is how tasks get one. */
  lemma StepCalls(s: State, a: Action, t: Task)
    requires Inv(s) && Enabled(s, a)
    ensures One(t in Next(s, a).outcomes) == One(t in s.outcomes) + One(a.RunListener? && TaskOf(s, a.e) == t)
  {
    if a.RunListener? {
      assert ExecutorOk(s, a.e) && TaskOk(s, TaskOf(s, a.e));
    }
    hide NextExecutors, NextDispatches, NextPlace, NextQueue;
  }

  lemma {:induction false} CalledOnce(s: State, acts: seq<Action>, t: Task)
    requires Initial(s) && Legal(s, acts)
    ensures Calls(s, acts, t) == One(t in After(s, acts).outcomes)
    decreases |acts|
  {
    if acts != [] {
      var pre := acts[..|acts| - 1];
      var a := acts[|acts| - 1];
      CalledOnce(s, pre, t);
      InitialInv(s);
      RunKeepsInv(s, pre);
      StepCalls(After(s, pre), a, t);
      hide Inv, Next, Enabled;
    }
  }

  // ----- Flush

  /** No call of dispatch is under way. */
  ghost predicate Quiet(s: State) {
    forall i | 0 <= i < |s.dispatches| :: s.dispatches[i].phase.Over?
  }

  /** What holds from before a Flush on, as long as nobody dispatches: while Flush waits, the drain goroutine is
      there for whatever is queued; and once the tasks are done they stay done. */
  ghost predicate Flushing(s: State) {
    && Quiet(s)
    && (!s.flush.NotFlushing? && s.queue != [] ==>
          exists e: nat :: e < |s.executors| && s.executors[e].kind.Drain? && !s.executors[e].status.Exited?)
    && (s.flush.AwaitingWorkers? ==> s.wg == 0)
  }

  lemma StepKeepsQuiet(s: State, a: Action)
    requires Quiet(s) && Enabled(s, a) && !a.StartDispatch?
    ensures Quiet(Next(s, a))
  {
    var u := Next(s, a);
    forall i | 0 <= i < |u.dispatches| ensures u.dispatches[i].phase.Over? {
      DispatchMoves(s, a, i);
    }
  }

  lemma StepKeepsFlushing(s: State, a: Action)
    requires Accounted(s) && Flushing(s) && Enabled(s, a) && !a.StartDispatch?
    ensures Flushing(Next(s, a))
  {
    var u := Next(s, a);
    StepKeepsQuiet(s, a);
    if !u.flush.NotFlushing? && u.queue != [] {
      if a.FlushStart? {
        assert u.executors[|s.executors|].kind.Drain?;
      } else {
        var e: nat :| e < |s.executors| && s.executors[e].kind.Drain? && !s.executors[e].status.Exited?;
        ExecutorMoves(s, a, e);
        assert u.executors[e].kind.Drain? && !u.executors[e].status.Exited?;
      }
    }
    if a.Settle? {
      CountZero(s.executors, IsBusy);
    }
  }

  lemma {:induction false} RunKeepsFlushing(s: State, acts: seq<Action>)
    requires Inv(s) && Flushing(s) && Legal(s, acts)
    requires forall a | a in acts :: !a.StartDispatch?
    ensures Flushing(After(s, acts))
    decreases |acts|
  {
    if acts != [] {
      var pre := acts[..|acts| - 1];
      assert acts[|acts| - 1] in acts;
      RunKeepsFlushing(s, pre);
      RunKeepsInv(s, pre);
      StepKeepsFlushing(After(s, pre), acts[|acts| - 1]);
    }
  }

  lemma NothingLeft(t: State)
    requires Inv(t) && Quiet(t) && t.wg == 0
    ensures t.queue == [] && (forall e | 0 <= e < |t.executors| :: !t.executors[e].status.Busy?)
    ensures forall i: nat, k: nat | i < |t.dispatches| && k < t.dispatches[i].n ::
      Task(i, k) in t.place && t.place[Task(i, k)].Gone? && Task(i, k) in t.outcomes
  {
    CountZero(t.executors, IsBusy);
    forall i: nat, k: nat | i < |t.dispatches| && k < t.dispatches[i].n
      ensures Task(i, k) in t.place && t.place[Task(i, k)].Gone? && Task(i, k) in t.outcomes
    {
      assert DispatchOk(t.dispatches[i]) && TaskOk(t, Task(i, k));
    }
  }

  /** If nobody dispatches from before Flush on, then Flush returns only when the queue is empty, every worker has
      exited, and every listener of every dispatch ever made was called exactly once. It makes no difference
      whether Run was called, how often, or which contexts were cancelled. */
  lemma {:induction false} FlushIsComplete(s: State, pre: seq<Action>, post: seq<Action>)
    requires Initial(s) && Legal(s, pre) && After(s, pre).flush.NotFlushing? && Quiet(After(s, pre))
    requires Legal(s, pre + post) && (forall a | a in post :: !a.StartDispatch?)
    requires Enabled(After(s, pre + post), FlushReturn)
    ensures var t := After(s, pre + post);
      && t.queue == []
      && (forall e | 0 <= e < |t.executors| ::
        !t.executors[e].status.Busy? && (t.executors[e].kind.Worker? ==> t.executors[e].status.Exited?))
      && (forall i: nat, k: nat | i < |t.dispatches| && k < t.dispatches[i].n :: Calls(s, pre + post, Task(i, k)) == 1)
  {
    var t := After(s, pre + post);
    InitialInv(s);
    RunKeepsInv(s, pre);
    RunKeepsInv(s, pre + post);
    Split(s, pre, post);
    RunKeepsFlushing(After(s, pre), post);
    NothingLeft(t);
    CountZero(t.executors, IsLiveWorker);
    forall i: nat, k: nat | i < |t.dispatches| && k < t.dispatches[i].n ensures Calls(s, pre + post, Task(i, k)) == 1 {
      CalledOnce(s, pre + post, Task(i, k));
    }
  }

  /** A run may be cut in two. */
  lemma {:induction false} Split(s: State, pre: seq<Action>, post: seq<Action>)
    requires Legal(s, pre + post)
    ensures Legal(s, pre) && Legal(After(s, pre), post) && After(After(s, pre), post) == After(s, pre + post)
    decreases |post|
  {
    if post == [] {
      assert pre + post == pre;
    } else {
      var shorter := post[..|post| - 1];
      assert (pre + post)[..|pre + post| - 1] == pre + shorter;
      Split(s, pre, shorter);
    }
  }
}
