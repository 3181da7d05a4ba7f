/** The event handler's code: registration, dispatch, the closures and Flush, each running among arbitrary other
    goroutines. Every method is proved to follow the EventDispatch step relation. A goroutine that waits may wait
    past the end of the observed run; its method then says that it did not finish. */
module EventHandlers {
  import opened Wrappers
  import opened EventDispatch
  import opened EventProofs
  import opened EventTheorems
  import Sequences

  /** Whose step an action is: one goroutine per dispatch, per executor, and the one that flushes. */
  datatype Goroutine = Dispatcher(i: nat) | Executing(e: nat) | Flusher

  predicate StepOf(a: Action, g: Goroutine) {
    match g
    case Dispatcher(i) => a == Add(i) || a == Enqueue(i) || a == EndDispatch(i)
    case Executing(e) => Mover(a) == Some(e)
    case Flusher => a.FlushStart? || a.FlushTasksDone? || a.FlushReturn?
  }

  /** The steps of one goroutine in a run, in order. */
  function Own(acts: seq<Action>, g: Goroutine): seq<Action>
    decreases |acts|
  {
    if acts == [] then []
    else
      var rest := Own(acts[..|acts| - 1], g);
      if StepOf(acts[|acts| - 1], g) then rest + [acts[|acts| - 1]] else rest
  }

  lemma OwnAppend(acts: seq<Action>, a: Action, g: Goroutine)
    ensures Own(acts + [a], g) == if StepOf(a, g) then Own(acts, g) + [a] else Own(acts, g)
  {
    Sequences.Snoc(acts, a);
  }

  lemma Append(s: State, acts: seq<Action>, a: Action)
    requires Legal(s, acts) && Enabled(After(s, acts), a)
    ensures Legal(s, acts + [a]) && After(s, acts + [a]) == Next(After(s, acts), a)
  {
    assert (acts + [a])[..|acts + [a]| - 1] == acts;
  }

  /** What a goroutine can count on while others run. */
  ghost predicate SameFor(s: State, t: State, g: Goroutine) {
    match g
    case Dispatcher(i) =>
      i < |s.dispatches| ==>
        && i < |t.dispatches| && t.dispatches[i].phase == s.dispatches[i].phase
        && t.dispatches[i].next == s.dispatches[i].next && t.dispatches[i].n == s.dispatches[i].n
        && t.dispatches[i].channel.Some? == s.dispatches[i].channel.Some?
    case Executing(e) =>
      && (e < |s.executors| ==> e < |t.executors| && t.executors[e] == s.executors[e])
      && |s.dispatches| <= |t.dispatches|
      && forall i | 0 <= i < |s.dispatches| :: t.dispatches[i].channel.Some? == s.dispatches[i].channel.Some?
    case Flusher => t.flush == s.flush
  }

  lemma StepOfOthers(s: State, a: Action, g: Goroutine)
    requires Enabled(s, a) && !StepOf(a, g)
    ensures SameFor(s, Next(s, a), g)
  {
    match g
    case Dispatcher(i) =>
      if i < |s.dispatches| {
        DispatchMoves(s, a, i);
      }
    case Executing(e) =>
      if e < |s.executors| {
        ExecutorMoves(s, a, e);
      }
      forall i | 0 <= i < |s.dispatches| ensures Next(s, a).dispatches[i].channel.Some? == s.dispatches[i].channel.Some? {
        DispatchMoves(s, a, i);
      }
    case Flusher =>
  }

  lemma {:induction false} OthersLeaveAlone(s: State, pre: seq<Action>, acts: seq<Action>, g: Goroutine)
    requires pre <= acts && Legal(s, acts) && Legal(s, pre)
    requires forall k | |pre| <= k < |acts| :: !StepOf(acts[k], g)
    ensures SameFor(After(s, pre), After(s, acts), g)
    ensures Own(acts, g) == Own(pre, g)
    decreases |acts|
  {
    if |acts| == |pre| {
      assert acts == pre;
    } else {
      var shorter := acts[..|acts| - 1];
      OthersLeaveAlone(s, pre, shorter, g);
      hide Next, Enabled;
      StepOfOthers(After(s, shorter), acts[|acts| - 1], g);
    }
  }

  // ----- Registration

  /** A call of Listen. */
  datatype Registration<L> = Registration(name: string, listeners: seq<L>)

  /** The listeners of an event; none for one that is not registered. */
  function Known<L>(handlers: map<string, seq<L>>, name: string): seq<L> {
    if name in handlers then handlers[name] else []
  }

  /** The handler's table after a history of registrations, one call after the other. */
  function TableAfter<L>(rs: seq<Registration<L>>): map<string, seq<L>> {
    if rs == [] then map[]
    else
      var before, r := TableAfter(rs[..|rs| - 1]), rs[|rs| - 1];
      before[r.name := Known(before, r.name) + r.listeners]
  }

  /** All listeners ever registered for the event, in the order of their registration. */
  function Registered<L>(rs: seq<Registration<L>>, name: string): seq<L> {
    if rs == [] then [] else (if rs[0].name == name then rs[0].listeners else []) + Registered(rs[1..], name)
  }

  lemma {:induction false} RegisteredSnoc<L>(rs: seq<Registration<L>>, r: Registration<L>, name: string)
    ensures Registered(rs + [r], name) == Registered(rs, name) + if r.name == name then r.listeners else []
    decreases |rs|
  {
    Sequences.One(r);
    if rs != [] {
      TailOfSnoc(rs, r);
      RegisteredSnoc(rs[1..], r, name);
      hide Registered;
      RegisteredCons(rs + [r], name);
      RegisteredCons(rs, name);
    }
  }

  lemma TailOfSnoc<T>(s: seq<T>, x: T)
    requires s != []
    ensures (s + [x])[1..] == s[1..] + [x] && (s + [x])[0] == s[0]
  {
  }

  lemma RegisteredCons<L>(rs: seq<Registration<L>>, name: string)
    requires rs != []
    ensures Registered(rs, name) == (if rs[0].name == name then rs[0].listeners else []) + Registered(rs[1..], name)
  {
  }

  lemma TableAfterSnoc<L>(rs: seq<Registration<L>>, r: Registration<L>)
    ensures TableAfter(rs + [r]) == TableAfter(rs)[r.name := Known(TableAfter(rs), r.name) + r.listeners]
  {
    Sequences.Snoc(rs, r);
  }

  /** Over every history: an event is known exactly if it was ever registered, be it without listeners, and its
      listeners are all that were ever registered for it, in order and as often as they were registered. */
  lemma {:induction false} RegistrationsInOrder<L>(rs: seq<Registration<L>>, name: string)
    ensures name in TableAfter(rs) <==> exists i: nat :: i < |rs| && rs[i].name == name
    ensures Known(TableAfter(rs), name) == Registered(rs, name)
    decreases |rs|
  {
    if rs != [] {
      var pre, r := rs[..|rs| - 1], rs[|rs| - 1];
      RegistrationsInOrder(pre, name);
      Sequences.FrontAndLast(rs);
      RegisteredSnoc(pre, r, name);
      TableAfterSnoc(pre, r);
      EverSnoc(pre, r, name);
      hide Registered, TableAfter;
    }
  }

  lemma EverSnoc<L>(rs: seq<Registration<L>>, r: Registration<L>, name: string)
    ensures (exists i: nat :: i < |rs + [r]| && (rs + [r])[i].name == name) <==>
      r.name == name || exists i: nat :: i < |rs| && rs[i].name == name
  {
    var more := rs + [r];
    assert more[|rs|] == r;
    if i: nat :| i < |rs| && rs[i].name == name {
      assert more[i].name == name;
    }
  }

  /** Registering goes on at the end: whoever has taken the listeners before keeps a prefix of those after. */
  lemma SnapshotIsPrefix<L>(rs: seq<Registration<L>>, more: seq<Registration<L>>, name: string)
    ensures Known(TableAfter(rs), name) <= Known(TableAfter(rs + more), name)
    ensures name in TableAfter(rs) ==> name in TableAfter(rs + more)
    decreases |more|
  {
    if more == [] {
      assert rs + more == rs;
    } else {
      var shorter := more[..|more| - 1];
      SnapshotIsPrefix(rs, shorter, name);
      assert (rs + more)[..|rs + more| - 1] == rs + shorter;
    }
  }

  lemma ResetStep(s: State)
    ensures Enabled(s, Action.Reset)
    ensures var t := Next(s, Action.Reset);
      && !t.closed && t.past == s.past + [s.closed] && t.executors == s.executors
      && forall on | 0 <= on <= |s.past| :: ChannelClosed(t, on) == ChannelClosed(s, on)
  {
  }

  class EventHandler<Listener> {
    ghost const origin: State
    ghost var trace: seq<Action>
    ghost var registrations: seq<Registration<Listener>>
    var st: State
    var handlers: map<string, seq<Listener>>

    ghost predicate Valid()
      reads this
    {
      Legal(origin, trace) && st == After(origin, trace) && handlers == TableAfter(registrations)
    }

    constructor ()
      ensures Valid() && Initial(origin) && trace == [] && registrations == []
    {
      var empty := State([], [], [], 0, 0, false, [], {}, NotFlushing, map[], {}, map[]);
      origin, trace, st, registrations, handlers := empty, [], empty, [], map[];
    }

    /** Any legal steps of other goroutines, in any number. Callers learn nothing else. */
    method Interleave(ghost g: Goroutine)
      requires Valid()
      modifies this`st, this`trace
      ensures Valid() && old(trace) <= trace
      ensures forall k | |old(trace)| <= k < |trace| :: !StepOf(trace[k], g)
    {
    }

    method Pause(ghost g: Goroutine)
      requires Valid()
      modifies this`st, this`trace
      ensures Valid() && SameFor(old(st), st, g)
      ensures Own(trace, g) == Own(old(trace), g)
    {
      Interleave(g);
      OthersLeaveAlone(origin, old(trace), trace, g);
    }

    method Do(a: Action, ghost g: Goroutine)
      requires Valid() && Enabled(st, a) && StepOf(a, g)
      modifies this`st, this`trace
      ensures Valid() && Enabled(old(st), a) && st == Next(old(st), a)
      ensures Own(trace, g) == Own(old(trace), g) + [a]
    {
      Append(origin, trace, a);
      OwnAppend(trace, a, g);
      st := Next(st, a);
      trace := trace + [a];
    }

    method Listen(name: string, lis: seq<Listener>)
      requires Valid()
      modifies this`handlers, this`registrations
      ensures Valid() && registrations == old(registrations) + [Registration(name, lis)]
    {
      hide TableAfter, Legal, After;
      var r := Registration(name, lis);
      TableAfterSnoc(registrations, r);
      handlers := handlers[name := (if name in handlers then handlers[name] else []) + lis];
      registrations := registrations + [r];
    }

    /** All listeners registered for the event by now, in order; None for an event that nobody registered. */
    method GetHandlers(name: string) returns (found: Option<seq<Listener>>)
      requires Valid()
      ensures found.Some? <==> exists i: nat :: i < |registrations| && registrations[i].name == name
      ensures found.Some? ==> found.value == Registered(registrations, name)
    {
      RegistrationsInOrder(registrations, name);
      found := if name in handlers then Some(handlers[name]) else None;
    }

    // ----- dispatch

    /** One closure per listener of the snapshot, each added before it is sent; `finished` is false only if the
        dispatcher was still waiting for room in the queue, which holds 100. */
    method Dispatch(name: string, withChannel: bool) returns (registered: bool, finished: bool, i: nat)
      requires Valid()
      modifies this`st, this`trace
      ensures Valid()
      ensures registered <==> exists j: nat :: j < |registrations| && registrations[j].name == name
      ensures !registered ==> st == old(st) && trace == old(trace)
      ensures registered ==> i < |st.dispatches| && st.dispatches[i].n == |Registered(registrations, name)|
      ensures registered ==>
        exists k: nat :: k <= |Registered(registrations, name)|
          && Own(trace, Dispatcher(i)) == Own(old(trace), Dispatcher(i)) + Rounds(i, k, finished)
      ensures registered ==> i < |st.dispatches| && (st.dispatches[i].channel.Some? <==> withChannel)
      ensures registered && !finished ==> |st.queue| >= 100
      ensures registered && finished ==>
        && st.dispatches[i].phase.Over?
        && Own(trace, Dispatcher(i)) == Own(old(trace), Dispatcher(i)) + Rounds(i, |Registered(registrations, name)|, true)
    {
      hide Legal, After, Own, Rounds;
      var found := GetHandlers(name);
      if found.None? {
        return false, false, 0;
      }
      registered, finished := true, false;
      var n := |found.value|;
      i := Start(n, withChannel);
      ghost var before := Own(trace, Dispatcher(i));
      assert before == Own(old(trace), Dispatcher(i));
      NoRounds(i);
      var k := 0;
      while k < n
        invariant 0 <= k <= n && Valid()
        invariant i < |st.dispatches| && st.dispatches[i].n == n
        invariant st.dispatches[i].channel.Some? <==> withChannel
        invariant st.dispatches[i].next == k && st.dispatches[i].phase.Adding?
        invariant Own(trace, Dispatcher(i)) == before + AddedRounds(i, k)
      {
        var sent := AddAndSend(i);
        if !sent {
          assert before + AddedRounds(i, k) + [Add(i)] == before + (AddedRounds(i, k) + [Add(i)]);
          RoundsCutShort(i, k);
          return;
        }
        OneMoreRound(i, k, before);
        k := k + 1;
      }
      Pause(Dispatcher(i));
      DispatchMoves(st, EndDispatch(i), i);
      Do(EndDispatch(i), Dispatcher(i));
      finished := true;
      AllRounds(i, n, before);
    }

    method Start(n: nat, withChannel: bool) returns (i: nat)
      requires Valid()
      modifies this`st, this`trace
      ensures Valid() && i < |st.dispatches|
      ensures st.dispatches[i].n == n && st.dispatches[i].next == 0 && st.dispatches[i].phase.Adding?
      ensures st.dispatches[i].channel.Some? <==> withChannel
      ensures Own(trace, Dispatcher(i)) == Own(old(trace), Dispatcher(i))
    {
      var a := StartDispatch(n, withChannel);
      i := |st.dispatches|;
      Append(origin, trace, a);
      OwnAppend(trace, a, Dispatcher(i));
      st := Next(st, a);
      trace := trace + [a];
    }

    method AddAndSend(i: nat) returns (sent: bool)
      requires Valid() && i < |st.dispatches| && st.dispatches[i].phase.Adding? && st.dispatches[i].next < st.dispatches[i].n
      modifies this`st, this`trace
      ensures Valid() && i < |st.dispatches| && st.dispatches[i].n == old(st.dispatches[i].n)
      ensures st.dispatches[i].channel.Some? == old(st.dispatches[i].channel.Some?)
      ensures sent ==> st.dispatches[i].phase.Adding? && st.dispatches[i].next == old(st.dispatches[i].next) + 1
      ensures !sent ==> |st.queue| >= 100
      ensures Own(trace, Dispatcher(i)) == Own(old(trace), Dispatcher(i)) + if sent then [Add(i), Enqueue(i)] else [Add(i)]
    {
      hide Legal, After, Own;
      ghost var before := Own(trace, Dispatcher(i));
      Pause(Dispatcher(i));
      DispatchMoves(st, Add(i), i);
      Do(Add(i), Dispatcher(i));
      Pause(Dispatcher(i));
      if |st.queue| >= CAPACITY {
        return false;
      }
      DispatchMoves(st, Enqueue(i), i);
      Do(Enqueue(i), Dispatcher(i));
      assert before + [Add(i)] + [Enqueue(i)] == before + [Add(i), Enqueue(i)];
      return true;
    }

    // ----- The closure

    /** A closure calls its listener, reports its error if it returned one and there is a channel, then counts
        down the results and, last, the handler's own group: on a panic as well. `finished` is false only if it was
        still waiting to send, which does not happen to a handler that started empty. */
    method RunClosure(e: nat) returns (outcome: Outcome, finished: bool, ghost own: seq<Action>)
      requires Valid() && BusyAt(st, e) && StageOf(st, e).Ready?
      modifies this`st, this`trace
      ensures Valid()
      ensures Own(trace, Executing(e)) == Own(old(trace), Executing(e)) + own
      ensures own == ClosureSteps(e, outcome, old(DispatchOf(st, e).channel.Some?), finished)
      ensures finished ==> e < |st.executors| && st.executors[e].status.Idle?
      ensures !finished ==>
        && outcome.Returned? && old(DispatchOf(st, e).channel.Some?)
        && BusyAt(st, e) && StageOf(st, e).Reporting? && !HasRoom(DispatchOf(st, e))
      ensures Initial(origin) ==> finished
    {
      hide Legal, After, Own, SameFor;
      ghost var before := Own(trace, Executing(e));
      var hasChannel := DispatchOf(st, e).channel.Some?;
      outcome := CallListener(e);
      own := [RunListener(e, outcome)];
      if outcome.Returned? && hasChannel {
        var sent := Report(e);
        if !sent {
          return outcome, false, own;
        }
        own := own + [SendResult(e)];
      }
      Finish(e);
      assert before + own + [Resolve(e), Settle(e)] == before + (own + [Resolve(e), Settle(e)]);
      own := own + [Resolve(e), Settle(e)];
      finished := true;
    }

    method CallListener(e: nat) returns (outcome: Outcome)
      requires Valid() && BusyAt(st, e) && StageOf(st, e).Ready?
      modifies this`st, this`trace
      ensures Valid() && BusyAt(st, e)
      ensures StageOf(st, e) ==
        if outcome.Returned? && old(DispatchOf(st, e).channel.Some?) then Reporting(outcome.error) else Resolving
      ensures Own(trace, Executing(e)) == Own(old(trace), Executing(e)) + [RunListener(e, outcome)]
    {
      hide Legal, After, Own;
      Pause(Executing(e));
      outcome := *;
      Move(e, RunListener(e, outcome));
    }

    method Report(e: nat) returns (sent: bool)
      requires Valid() && BusyAt(st, e) && StageOf(st, e).Reporting?
      modifies this`st, this`trace
      ensures Valid()
      ensures sent ==> BusyAt(st, e) && StageOf(st, e).Resolving?
      ensures !sent ==> BusyAt(st, e) && StageOf(st, e).Reporting? && !HasRoom(DispatchOf(st, e)) && !Initial(origin)
      ensures Own(trace, Executing(e)) == Own(old(trace), Executing(e)) + if sent then [SendResult(e)] else []
    {
      hide Legal, After, Own;
      Pause(Executing(e));
      if !HasRoom(DispatchOf(st, e)) {
        if Initial(origin) {
          SendNeverBlocks(origin, trace, e);
        }
        assert Own(trace, Executing(e)) + [] == Own(trace, Executing(e));
        return false;
      }
      Move(e, SendResult(e));
      return true;
    }

    /** The deferred calls. */
    method Finish(e: nat)
      requires Valid() && BusyAt(st, e) && StageOf(st, e).Resolving?
      modifies this`st, this`trace
      ensures Valid() && e < |st.executors| && st.executors[e].status.Idle?
      ensures Own(trace, Executing(e)) == Own(old(trace), Executing(e)) + [Resolve(e), Settle(e)]
    {
      hide Legal, After, Own;
      ghost var before := Own(trace, Executing(e));
      Pause(Executing(e));
      Move(e, Resolve(e));
      Pause(Executing(e));
      Move(e, Settle(e));
      assert before + [Resolve(e)] + [Settle(e)] == before + [Resolve(e), Settle(e)];
    }

    method Move(e: nat, a: Action)
      requires Valid() && Enabled(st, a) && Mover(a) == Some(e) && e < |st.executors|
      modifies this`st, this`trace
      ensures Valid() && Enabled(old(st), a) && e < |st.executors| && st.executors[e].status == NextStatus(old(st), a, e)
      ensures |st.dispatches| == |old(st).dispatches|
      ensures forall i | 0 <= i < |st.dispatches| :: st.dispatches[i].channel.Some? == old(st).dispatches[i].channel.Some?
      ensures Own(trace, Executing(e)) == Own(old(trace), Executing(e)) + [a]
    {
      forall i | 0 <= i < |st.dispatches| ensures NextDispatches(st, a)[i].channel.Some? == st.dispatches[i].channel.Some? {
        DispatchMoves(st, a, i);
      }
      ExecutorMoves(st, a, e);
      Do(a, Executing(e));
    }

    // ----- Flush

    /** Closes the handler, starts the drain goroutine, waits for the tasks, then for the workers. The source
        panics if the handler is closed already. `finished` is false only if it was still waiting for tasks or for
        workers. */
    method Flush() returns (finished: bool, ghost own: seq<Action>)
      requires Valid() && st.flush.NotFlushing? && !st.closed
      modifies this`st, this`trace
      ensures Valid()
      ensures Own(trace, Flusher) == Own(old(trace), Flusher) + own
      ensures own <= [FlushStart, FlushTasksDone, FlushReturn] && |own| >= 1 && (finished <==> |own| == 3)
      ensures !finished ==> if |own| == 1 then st.wg != 0 else st.running != 0
    {
      hide Legal, After, Own;
      ghost var before := Own(trace, Flusher);
      Do(FlushStart, Flusher);
      own := [FlushStart];
      Pause(Flusher);
      if st.wg != 0 {
        return false, own;
      }
      Do(FlushTasksDone, Flusher);
      own := [FlushStart, FlushTasksDone];
      assert before + [FlushStart] + [FlushTasksDone] == before + own;
      Pause(Flusher);
      if st.running != 0 {
        return false, own;
      }
      Do(FlushReturn, Flusher);
      assert before + own + [FlushReturn] == before + [FlushStart, FlushTasksDone, FlushReturn];
      own := [FlushStart, FlushTasksDone, FlushReturn];
      finished := true;
    }

    /** A new closed channel takes the place of the present one. Nobody is told: a worker that waits at its select
        goes on waiting on the channel it has. */
    method Reset()
      requires Valid()
      modifies this`st, this`trace
      ensures Valid() && trace == old(trace) + [Action.Reset]
      ensures !st.closed && st.past == old(st).past + [old(st).closed]
      ensures st.executors == old(st).executors
      ensures forall on | 0 <= on <= |old(st).past| :: ChannelClosed(st, on) == ChannelClosed(old(st), on)
    {
      hide Legal, After, Next, ChannelClosed;
      ResetStep(st);
      Append(origin, trace, Action.Reset);
      st := Next(st, Action.Reset);
      trace := trace + [Action.Reset];
    }
  }

  // ----- The shapes

  function AddedRounds(i: nat, k: nat): seq<Action> {
    if k == 0 then [] else AddedRounds(i, k - 1) + [Add(i), Enqueue(i)]
  }

  /** k closures added and sent; then either the end of the dispatch, or one more that is not sent. */
  function Rounds(i: nat, k: nat, finished: bool): seq<Action> {
    AddedRounds(i, k) + [if finished then EndDispatch(i) else Add(i)]
  }

  lemma NoRounds(i: nat)
    ensures AddedRounds(i, 0) == []
  {
  }

  lemma OneMoreRound(i: nat, k: nat, before: seq<Action>)
    ensures before + AddedRounds(i, k) + [Add(i), Enqueue(i)] == before + AddedRounds(i, k + 1)
  {
  }

  lemma RoundsCutShort(i: nat, k: nat)
    ensures AddedRounds(i, k) + [Add(i)] == Rounds(i, k, false)
  {
  }

  lemma AllRounds(i: nat, n: nat, before: seq<Action>)
    ensures before + AddedRounds(i, n) + [EndDispatch(i)] == before + Rounds(i, n, true)
  {
  }

  /** A listener that returned reports first if there is a channel; every closure ends with both Dones, in order. */
  function ClosureSteps(e: nat, outcome: Outcome, hasChannel: bool, finished: bool): seq<Action> {
    [RunListener(e, outcome)] +
    (if !finished then []
     else (if outcome.Returned? && hasChannel then [SendResult(e)] else []) + [Resolve(e), Settle(e)])
  }
}
