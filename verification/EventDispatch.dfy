/** The event dispatcher as a state machine over the steps of its goroutines: dispatchers, workers, the drain
    goroutine of Flush, channel closers, and the callers of Run, Flush and Reset. */
module EventDispatch {
  import opened Wrappers

  type Error = Option<string>

  const CAPACITY: nat := 100

  /** The closure for listener k of dispatch i. */
  datatype Task = Task(i: nat, k: nat)

  /** How a listener ends: with its error, or nil, or in a panic. */
  datatype Outcome = Returned(error: Error) | Panicked

  /** A value sent on a result channel; the listener's number says whose it is. */
  datatype Sent = Sent(k: nat, error: Error)

  datatype Closer = NotStarted | Waiting | Done

  /** A result channel with room for one value per listener, its WaitGroup and its closing goroutine. */
  datatype Channel = Channel(results: int, sent: seq<Sent>, read: nat, closes: nat, closer: Closer)

  /** Where a call of dispatch stands: about to add listener `next`, about to send its closure, or returned. */
  datatype Phase = Adding | Sending | Over

  datatype Dispatch = Dispatch(n: nat, next: nat, phase: Phase, channel: Option<Channel>)

  /** What an executing closure does next: call its listener, send the error, results.Done, wg.Done. */
  datatype Stage = Ready | Reporting(error: Error) | Resolving | Settling

  /** A worker at its select waits on the closed channel that the handler had when the select began. The drain
      goroutine never waits: it takes from the queue or leaves. */
  datatype Status = Idle | Selecting(on: nat) | Busy(task: Task, stage: Stage) | Exited

  /** A worker of a call of Run, or the drain goroutine of a call of Flush. */
  datatype Kind = Worker(run: nat) | Drain

  datatype Executor = Executor(kind: Kind, status: Status)

  datatype FlushPhase = NotFlushing | AwaitingTasks | AwaitingWorkers

  /** Where a task that was added is now. */
  datatype Place = BeingSent | InQueue | With(e: nat) | Gone

  /** Reset replaces the handler's closed channel. `closed` says whether the present one was closed, `past` the
      same of those before it; channels are numbered in this order. `place`, `resolved` and `outcomes` only
      record history; no step depends on them. */
  datatype State = State(
    queue: seq<Task>,
    executors: seq<Executor>,
    dispatches: seq<Dispatch>,
    wg: int,
    running: int,
    closed: bool,
    past: seq<bool>,
    cancelled: set<nat>,
    flush: FlushPhase,
    place: map<Task, Place>,
    resolved: set<Task>,
    outcomes: map<Task, Outcome>)

  datatype Action =
    | StartDispatch(n: nat, withChannel: bool)
    | Add(i: nat)
    | Enqueue(i: nat)
    | EndDispatch(i: nat)
    | Spawn(run: nat)
    | Cancel(run: nat)
    | Select(e: nat)
    | Take(e: nat)
    | RunListener(e: nat, outcome: Outcome)
    | SendResult(e: nat)
    | Resolve(e: nat)
    | Settle(e: nat)
    | Exit(e: nat)
    | Receive(i: nat)
    | Close(i: nat)
    | FlushStart
    | FlushTasksDone
    | FlushReturn
    | Reset

  ghost predicate Initial(s: State) {
    s == State([], [], [], 0, 0, false, [], {}, NotFlushing, map[], {}, map[])
  }

  // ----- Reading a state

  predicate IsBusy(x: Executor) {
    x.status.Busy?
  }

  predicate IsLiveWorker(x: Executor) {
    x.kind.Worker? && !x.status.Exited?
  }

  predicate ChannelClosed(s: State, on: nat) {
    if on < |s.past| then s.past[on] else s.closed
  }

  predicate IsSending(d: Dispatch) {
    d.phase.Sending?
  }

  /** Executor e is at a step of task t, and its dispatch is known. */
  predicate BusyAt(s: State, e: nat) {
    e < |s.executors| && s.executors[e].status.Busy? && s.executors[e].status.task.i < |s.dispatches|
  }

  function TaskOf(s: State, e: nat): Task
    requires BusyAt(s, e)
  {
    s.executors[e].status.task
  }

  function StageOf(s: State, e: nat): Stage
    requires BusyAt(s, e)
  {
    s.executors[e].status.stage
  }

  function DispatchOf(s: State, e: nat): Dispatch
    requires BusyAt(s, e)
  {
    s.dispatches[TaskOf(s, e).i]
  }

  predicate HasRoom(d: Dispatch) {
    d.channel.Some? && |d.channel.value.sent| < d.n + d.channel.value.read
  }

  // ----- The step relation

  /** A send waits for room, a WaitGroup's Wait for zero. A worker may leave once its context is cancelled or the
      channel it waits on is closed; the drain goroutine leaves when it finds the queue empty. */
  predicate Enabled(s: State, a: Action) {
    match a
    case StartDispatch(_, _) => true
    case Add(i) => i < |s.dispatches| && s.dispatches[i].phase.Adding? && s.dispatches[i].next < s.dispatches[i].n
    case Enqueue(i) => i < |s.dispatches| && s.dispatches[i].phase.Sending? && |s.queue| < CAPACITY
    case EndDispatch(i) => i < |s.dispatches| && s.dispatches[i].phase.Adding? && s.dispatches[i].next >= s.dispatches[i].n
    case Spawn(_) => true
    case Cancel(_) => true
    case Select(e) => e < |s.executors| && s.executors[e].kind.Worker? && s.executors[e].status.Idle?
    case Take(e) =>
      && e < |s.executors| && s.queue != []
      && (s.executors[e].status.Selecting? || (s.executors[e].kind.Drain? && s.executors[e].status.Idle?))
    case RunListener(e, _) => BusyAt(s, e) && StageOf(s, e).Ready?
    case SendResult(e) => BusyAt(s, e) && StageOf(s, e).Reporting? && HasRoom(DispatchOf(s, e))
    case Resolve(e) => BusyAt(s, e) && StageOf(s, e).Resolving?
    case Settle(e) => BusyAt(s, e) && StageOf(s, e).Settling?
    case Exit(e) =>
      && e < |s.executors|
      && (match s.executors[e].kind
          case Worker(run) =>
            s.executors[e].status.Selecting? && (ChannelClosed(s, s.executors[e].status.on) || run in s.cancelled)
          case Drain => s.executors[e].status.Idle? && s.queue == [])
    case Receive(i) =>
      i < |s.dispatches| && s.dispatches[i].channel.Some?
      && s.dispatches[i].channel.value.read < |s.dispatches[i].channel.value.sent|
    case Close(i) =>
      && i < |s.dispatches| && s.dispatches[i].channel.Some?
      && s.dispatches[i].channel.value.closer.Waiting? && s.dispatches[i].channel.value.results == 0
    case FlushStart => s.flush.NotFlushing? && !s.closed
    case FlushTasksDone => s.flush.AwaitingTasks? && s.wg == 0
    case FlushReturn => s.flush.AwaitingWorkers? && s.running == 0
    case Reset => true
  }

  function NextQueue(s: State, a: Action): seq<Task>
    requires Enabled(s, a)
  {
    match a
    case Enqueue(i) => s.queue + [Task(i, s.dispatches[i].next)]
    case Take(_) => s.queue[1..]
    case _ => s.queue
  }

  function AfterListener(d: Dispatch, outcome: Outcome): Stage {
    if outcome.Returned? && d.channel.Some? then Reporting(outcome.error) else Resolving
  }

  function NextStatus(s: State, a: Action, e: nat): Status
    requires Enabled(s, a) && e < |s.executors|
  {
    match a
    case Select(x) => if x == e then Selecting(|s.past|) else s.executors[e].status
    case Take(x) => if x == e then Busy(s.queue[0], Ready) else s.executors[e].status
    case RunListener(x, outcome) =>
      if x == e then Busy(TaskOf(s, e), AfterListener(DispatchOf(s, e), outcome)) else s.executors[e].status
    case SendResult(x) => if x == e then Busy(TaskOf(s, e), Resolving) else s.executors[e].status
    case Resolve(x) => if x == e then Busy(TaskOf(s, e), Settling) else s.executors[e].status
    case Settle(x) => if x == e then Idle else s.executors[e].status
    case Exit(x) => if x == e then Exited else s.executors[e].status
    case _ => s.executors[e].status
  }

  /** The executor an action moves. */
  function Mover(a: Action): Option<nat> {
    match a
    case Select(e) => Some(e)
    case Take(e) => Some(e)
    case RunListener(e, _) => Some(e)
    case SendResult(e) => Some(e)
    case Resolve(e) => Some(e)
    case Settle(e) => Some(e)
    case Exit(e) => Some(e)
    case _ => None
  }

  function NextExecutors(s: State, a: Action): seq<Executor>
    requires Enabled(s, a)
  {
    if a.Spawn? then s.executors + [Executor(Worker(a.run), Idle)]
    else if a.FlushStart? then s.executors + [Executor(Drain, Idle)]
    else if Mover(a).Some? then
      var e := Mover(a).value;
      s.executors[e := s.executors[e].(status := NextStatus(s, a, e))]
    else s.executors
  }

  function NextChannel(s: State, a: Action, i: nat): Option<Channel>
    requires Enabled(s, a) && i < |s.dispatches|
  {
    var d := s.dispatches[i];
    if d.channel.None? then None
    else
      var ch := d.channel.value;
      match a
      case Add(j) => if j == i then Some(ch.(results := ch.results + 1)) else d.channel
      case EndDispatch(j) => if j == i then Some(ch.(closer := Waiting)) else d.channel
      case SendResult(e) =>
        if TaskOf(s, e).i == i then Some(ch.(sent := ch.sent + [Sent(TaskOf(s, e).k, StageOf(s, e).error)])) else d.channel
      case Resolve(e) => if TaskOf(s, e).i == i then Some(ch.(results := ch.results - 1)) else d.channel
      case Receive(j) => if j == i then Some(ch.(read := ch.read + 1)) else d.channel
      case Close(j) => if j == i then Some(ch.(closes := ch.closes + 1, closer := Done)) else d.channel
      case _ => d.channel
  }

  /** The dispatch an action changes. */
  function Subject(s: State, a: Action): Option<nat>
    requires Enabled(s, a)
  {
    match a
    case Add(i) => Some(i)
    case Enqueue(i) => Some(i)
    case EndDispatch(i) => Some(i)
    case SendResult(e) => Some(TaskOf(s, e).i)
    case Resolve(e) => Some(TaskOf(s, e).i)
    case Receive(i) => Some(i)
    case Close(i) => Some(i)
    case _ => None
  }

  function NextDispatch(s: State, a: Action, i: nat): Dispatch
    requires Enabled(s, a) && i < |s.dispatches|
  {
    var d := s.dispatches[i].(channel := NextChannel(s, a, i));
    match a
    case Add(j) => if j == i then d.(phase := Sending) else d
    case Enqueue(j) => if j == i then d.(phase := Adding, next := d.next + 1) else d
    case EndDispatch(j) => if j == i then d.(phase := Over) else d
    case _ => d
  }

  function NextDispatches(s: State, a: Action): seq<Dispatch>
    requires Enabled(s, a)
  {
    if a.StartDispatch? then
      s.dispatches + [Dispatch(a.n, 0, Adding, if a.withChannel then Some(Channel(0, [], 0, 0, NotStarted)) else None)]
    else if Subject(s, a).Some? then
      var i := Subject(s, a).value;
      s.dispatches[i := NextDispatch(s, a, i)]
    else s.dispatches
  }

  function NextPlace(s: State, a: Action): map<Task, Place>
    requires Enabled(s, a)
  {
    match a
    case Add(i) => s.place[Task(i, s.dispatches[i].next) := BeingSent]
    case Enqueue(i) => s.place[Task(i, s.dispatches[i].next) := InQueue]
    case Take(e) => s.place[s.queue[0] := With(e)]
    case Settle(e) => s.place[TaskOf(s, e) := Gone]
    case _ => s.place
  }

  function Next(s: State, a: Action): State
    requires Enabled(s, a)
  {
    State(NextQueue(s, a),
          NextExecutors(s, a),
          NextDispatches(s, a),
          if a.Add? then s.wg + 1 else if a.Settle? then s.wg - 1 else s.wg,
          if a.Spawn? then s.running + 1
          else if a.Exit? && s.executors[a.e].kind.Worker? then s.running - 1
          else s.running,
          if a.FlushStart? then true else if a.Reset? then false else s.closed,
          if a.Reset? then s.past + [s.closed] else s.past,
          if a.Cancel? then s.cancelled + {a.run} else s.cancelled,
          if a.FlushStart? then AwaitingTasks
          else if a.FlushTasksDone? then AwaitingWorkers
          else if a.FlushReturn? then NotFlushing
          else s.flush,
          NextPlace(s, a),
          if a.Resolve? then s.resolved + {TaskOf(s, a.e)} else s.resolved,
          if a.RunListener? then s.outcomes[TaskOf(s, a.e) := a.outcome] else s.outcomes)
  }

  // ----- Runs

  ghost predicate Legal(s: State, acts: seq<Action>)
    decreases |acts|, 0
  {
    acts == [] ||
    (var pre := acts[..|acts| - 1];
     Legal(s, pre) && Enabled(After(s, pre), acts[|acts| - 1]))
  }

  ghost function After(s: State, acts: seq<Action>): State
    requires Legal(s, acts)
    decreases |acts|, 1
  {
    if acts == [] then s else Next(After(s, acts[..|acts| - 1]), acts[|acts| - 1])
  }
}
