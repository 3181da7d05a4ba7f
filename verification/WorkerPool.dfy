/** The consumer's goroutines around its bounded channel: the driver's fetch loop, C workers, and the caller of
    Consume, who drains the channel after the context is cancelled. */
module WorkerPool {
  import opened Wrappers

  type Message = nat

  /** `waiting` is the message the fetch loop is trying to send. `forwarded` and `settled` only record history. */
  datatype Pool = Pool(
    concurrency: nat,
    channel: seq<Message>,
    waiting: Option<Message>,
    fetching: bool,
    workers: seq<Worker>,
    cancelled: bool,
    main: Main,
    forwarded: multiset<Message>,
    settled: multiset<Message>)

  datatype Worker = Idle | Handling(m: Message) | Exited

  /** The caller of Consume: blocked until cancellation, then draining as many messages as it saw in the channel. */
  datatype Main = Blocked | Draining(left: nat) | DrainHandling(m: Message, left: nat) | Returned

  datatype Action =
    | Fetch(m: Message)
    | Send
    | StopFetching
    | Take(w: nat)
    | Finish(w: nat)
    | Exit(w: nat)
    | Cancel
    | StartDrain
    | DrainTake
    | DrainFinish
    | Return

  ghost predicate Initial(p: Pool) {
    && p.channel == [] && p.waiting == None && p.fetching && !p.cancelled && p.main.Blocked?
    && |p.workers| == p.concurrency && (forall w | 0 <= w < |p.workers| :: p.workers[w].Idle?)
    && p.forwarded == multiset{} && p.settled == multiset{}
  }

  predicate Enabled(p: Pool, a: Action) {
    match a
    case Fetch(_) => p.fetching && p.waiting.None?
    case Send => p.waiting.Some? && |p.channel| < 2 * p.concurrency
    case StopFetching => p.cancelled && p.fetching && p.waiting.None?
    case Take(w) => w < |p.workers| && p.workers[w].Idle? && p.channel != []
    case Finish(w) => w < |p.workers| && p.workers[w].Handling?
    case Exit(w) => w < |p.workers| && p.workers[w].Idle? && p.cancelled
    case Cancel => !p.cancelled
    case StartDrain => p.cancelled && p.main.Blocked?
    case DrainTake => p.main.Draining? && p.main.left > 0 && p.channel != []
    case DrainFinish => p.main.DrainHandling?
    case Return => p.main.Draining? && p.main.left == 0
  }

  function Next(p: Pool, a: Action): Pool
    requires Enabled(p, a)
  {
    match a
    case Fetch(m) => p.(waiting := Some(m), forwarded := p.forwarded + multiset{m})
    case Send => p.(waiting := None, channel := p.channel + [p.waiting.value])
    case StopFetching => p.(fetching := false)
    case Take(w) => p.(workers := p.workers[w := Handling(p.channel[0])], channel := p.channel[1..])
    case Finish(w) => p.(workers := p.workers[w := Idle], settled := p.settled + multiset{p.workers[w].m})
    case Exit(w) => p.(workers := p.workers[w := Exited])
    case Cancel => p.(cancelled := true)
    case StartDrain => p.(main := Draining(|p.channel|))
    case DrainTake => p.(main := DrainHandling(p.channel[0], p.main.left - 1), channel := p.channel[1..])
    case DrainFinish => p.(main := Draining(p.main.left), settled := p.settled + multiset{p.main.m})
    case Return => p.(main := Returned)
  }

  ghost predicate Legal(p: Pool, acts: seq<Action>)
    decreases |acts|, 0
  {
    acts == [] || (Legal(p, acts[..|acts| - 1]) && Enabled(After(p, acts[..|acts| - 1]), acts[|acts| - 1]))
  }

  ghost function After(p: Pool, acts: seq<Action>): Pool
    requires Legal(p, acts)
    decreases |acts|, 1
  {
    if acts == [] then p else Next(After(p, acts[..|acts| - 1]), acts[|acts| - 1])
  }

  // ----- Every forwarded message is in one place, or was settled once

  function One(b: bool): nat {
    if b then 1 else 0
  }

  /** The workers that handle message m. */
  function HandlersOf(workers: seq<Worker>, m: Message): nat {
    if workers == [] then 0
    else HandlersOf(workers[..|workers| - 1], m) + One(workers[|workers| - 1] == Handling(m))
  }

  function Busy(workers: seq<Worker>): nat {
    if workers == [] then 0 else Busy(workers[..|workers| - 1]) + One(workers[|workers| - 1].Handling?)
  }

  lemma {:induction false} WorkerUpdate(workers: seq<Worker>, w: nat, x: Worker, m: Message)
    requires w < |workers|
    ensures HandlersOf(workers[w := x], m) + One(workers[w] == Handling(m)) == HandlersOf(workers, m) + One(x == Handling(m))
    decreases |workers|
  {
    var n := |workers| - 1;
    if w == n {
      assert workers[w := x][..n] == workers[..n];
    } else {
      assert workers[w := x][..n] == workers[..n][w := x];
      WorkerUpdate(workers[..n], w, x, m);
    }
  }

  lemma {:induction false} BusyAtMost(workers: seq<Worker>)
    ensures Busy(workers) <= |workers|
    decreases |workers|
  {
    if workers != [] {
      BusyAtMost(workers[..|workers| - 1]);
    }
  }

  lemma {:induction false} IdleHandleNothing(workers: seq<Worker>, m: Message)
    requires forall w | 0 <= w < |workers| :: workers[w].Idle?
    ensures HandlersOf(workers, m) == 0
    decreases |workers|
  {
    if workers != [] {
      IdleHandleNothing(workers[..|workers| - 1], m);
    }
  }

  /** How often message m is waiting, in the channel, or being handled. */
  function InFlight(p: Pool, m: Message): nat {
    multiset(p.channel)[m] + One(p.waiting == Some(m)) + HandlersOf(p.workers, m)
    + One(p.main.DrainHandling? && p.main.m == m)
  }

  /** How many messages are waiting, in the channel, or being handled. */
  function Load(p: Pool): nat {
    |p.channel| + One(p.waiting.Some?) + Busy(p.workers) + One(p.main.DrainHandling?)
  }

  ghost predicate Conserved(p: Pool, m: Message) {
    p.forwarded[m] == InFlight(p, m) + p.settled[m]
  }

  ghost predicate Bounded(p: Pool) {
    && |p.channel| <= 2 * p.concurrency
    && |p.workers| == p.concurrency
    && (!p.cancelled ==> p.main.Blocked?)
  }

  lemma HeadCount(s: seq<Message>, m: Message)
    requires s != []
    ensures multiset(s)[m] == One(s[0] == m) + multiset(s[1..])[m]
  {
    assert s == [s[0]] + s[1..];
    assert multiset(s) == multiset{s[0]} + multiset(s[1..]);
  }

  lemma LastCount(s: seq<Message>, x: Message, m: Message)
    ensures multiset(s + [x])[m] == multiset(s)[m] + One(x == m)
  {
  }

  /** Where message m is counted after a step. */
  lemma InFlightMoves(p: Pool, a: Action, m: Message)
    requires Enabled(p, a)
    ensures InFlight(Next(p, a), m) ==
      match a
      case Fetch(x) => InFlight(p, m) + One(x == m)
      case Finish(w) => InFlight(p, m) - One(p.workers[w].m == m)
      case DrainFinish => InFlight(p, m) - One(p.main.m == m)
      case _ => InFlight(p, m)
  {
    hide HandlersOf;
    match a
    case Send => LastCount(p.channel, p.waiting.value, m);
    case Take(w) =>
      HeadCount(p.channel, m);
      WorkerUpdate(p.workers, w, Handling(p.channel[0]), m);
    case Finish(w) => WorkerUpdate(p.workers, w, Idle, m);
    case Exit(w) => WorkerUpdate(p.workers, w, Exited, m);
    case DrainTake => HeadCount(p.channel, m);
    case _ =>
  }

  lemma StepKeepsConserved(p: Pool, a: Action, m: Message)
    requires Conserved(p, m) && Enabled(p, a)
    ensures Conserved(Next(p, a), m)
  {
    InFlightMoves(p, a, m);
    hide InFlight;
  }

  lemma StepKeepsBounded(p: Pool, a: Action)
    requires Bounded(p) && Enabled(p, a)
    ensures Bounded(Next(p, a)) && Next(p, a).concurrency == p.concurrency
  {
  }

  lemma {:induction false} RunKeepsConserved(p: Pool, acts: seq<Action>, m: Message)
    requires Conserved(p, m) && Bounded(p) && Legal(p, acts)
    ensures Conserved(After(p, acts), m) && Bounded(After(p, acts)) && After(p, acts).concurrency == p.concurrency
    decreases |acts|
  {
    if acts != [] {
      RunKeepsConserved(p, acts[..|acts| - 1], m);
      StepKeepsConserved(After(p, acts[..|acts| - 1]), acts[|acts| - 1], m);
      StepKeepsBounded(After(p, acts[..|acts| - 1]), acts[|acts| - 1]);
      hide Conserved, Bounded, Next, Enabled;
    }
  }

  /** In every run, each message is waiting, in the channel, being handled or settled exactly as often as it was
      forwarded: each one taken is settled once. */
  lemma EachSettledOnce(p: Pool, acts: seq<Action>, m: Message)
    requires Initial(p) && Legal(p, acts)
    ensures After(p, acts).forwarded[m] == InFlight(After(p, acts), m) + After(p, acts).settled[m]
  {
    IdleHandleNothing(p.workers, m);
    RunKeepsConserved(p, acts, m);
  }

  /** At most 3C+1 messages are in flight while the context lives, and one more once the caller drains. */
  lemma BoundedInFlight(p: Pool, acts: seq<Action>)
    requires Initial(p) && Legal(p, acts)
    ensures Load(After(p, acts)) <= 3 * p.concurrency + (if After(p, acts).cancelled then 2 else 1)
  {
    IdleHandleNothing(p.workers, 0);
    RunKeepsConserved(p, acts, 0);
    BusyAtMost(After(p, acts).workers);
  }

  // ----- The drain can block

  /** The caller still wants messages, the channel is empty, and nobody is left to send. */
  ghost predicate Stuck(p: Pool) {
    && (p.main.Draining? && p.main.left > 0)
    && p.channel == [] && p.waiting == None && !p.fetching
  }

  /** Once stuck, the drain never ends, whatever happens. */
  lemma {:induction false} StuckForever(p: Pool, acts: seq<Action>)
    requires Stuck(p) && Legal(p, acts)
    ensures Stuck(After(p, acts))
    decreases |acts|
  {
    if acts != [] {
      StuckForever(p, acts[..|acts| - 1]);
    }
  }

  lemma Append(p: Pool, acts: seq<Action>, a: Action)
    requires Legal(p, acts) && Enabled(After(p, acts), a)
    ensures Legal(p, acts + [a]) && After(p, acts + [a]) == Next(After(p, acts), a)
  {
    assert (acts + [a])[..|acts| + 1 - 1] == acts;
  }

  /** Workers may take a message after the drain has counted it: with any number of workers, one message is
      enough for the caller of Consume to wait for ever. */
  lemma {:induction false} DrainCanBlock(p: Pool, m: Message) returns (acts: seq<Action>)
    requires Initial(p) && p.concurrency > 0
    ensures Legal(p, acts) && Stuck(After(p, acts))
  {
    acts := [];
    Append(p, acts, Fetch(m));
    acts := acts + [Fetch(m)];
    Append(p, acts, Send);
    acts := acts + [Send];
    Append(p, acts, Cancel);
    acts := acts + [Cancel];
    Append(p, acts, StartDrain);
    acts := acts + [StartDrain];
    Append(p, acts, Take(0));
    acts := acts + [Take(0)];
    Append(p, acts, StopFetching);
    acts := acts + [StopFetching];
  }

  /** The drain is blocked for good only if a worker took a message the drain had counted: as long as the channel
      holds what is left to drain, the drain can go on. */
  ghost predicate DrainCovered(p: Pool) {
    match p.main
    case Draining(left) => left <= |p.channel|
    case DrainHandling(_, left) => left <= |p.channel|
    case _ => true
  }

  lemma StepKeepsCovered(p: Pool, a: Action)
    requires DrainCovered(p) && Enabled(p, a) && !a.Take?
    ensures DrainCovered(Next(p, a))
  {
  }

  lemma {:induction false} DrainGoesOn(p: Pool, acts: seq<Action>)
    requires DrainCovered(p) && Legal(p, acts)
    requires forall a | a in acts :: !a.Take?
    ensures DrainCovered(After(p, acts)) && !Stuck(After(p, acts))
    ensures After(p, acts).main.Draining? ==> Enabled(After(p, acts), DrainTake) || Enabled(After(p, acts), Return)
    decreases |acts|
  {
    if acts != [] {
      assert acts[|acts| - 1] in acts;
      DrainGoesOn(p, acts[..|acts| - 1]);
      StepKeepsCovered(After(p, acts[..|acts| - 1]), acts[|acts| - 1]);
      hide Next;
    }
  }

  // ----- Exactly when the drain can return, and when it can block

  predicate Drains(p: Pool) {
    p.main.Draining? || p.main.DrainHandling?
  }

  /** How many more messages the drain takes. */
  function Left(p: Pool): nat
    requires Drains(p)
  {
    p.main.left
  }

  /** What the drain can still be sent: the channel, the message waiting to be sent, and all that may be fetched. */
  predicate Supplied(p: Pool)
    requires Drains(p)
  {
    p.fetching || Left(p) <= |p.channel| + One(p.waiting.Some?)
  }

  lemma StepKeepsUnsupplied(p: Pool, a: Action)
    requires Drains(p) && !Supplied(p) && Enabled(p, a)
    ensures Drains(Next(p, a)) && !Supplied(Next(p, a))
  {
  }

  lemma {:induction false} UnsuppliedForever(p: Pool, acts: seq<Action>)
    requires Drains(p) && !Supplied(p) && Legal(p, acts)
    ensures Drains(After(p, acts)) && !Supplied(After(p, acts))
    decreases |acts|
  {
    if acts != [] {
      UnsuppliedForever(p, acts[..|acts| - 1]);
      StepKeepsUnsupplied(After(p, acts[..|acts| - 1]), acts[|acts| - 1]);
    }
  }

  /** How far the drain is from its end, if nobody else takes a message. */
  function Distance(p: Pool): nat
    requires Drains(p)
  {
    4 * Left(p) + One(p.main.DrainHandling?) +
    if p.channel != [] then 0 else if p.waiting.Some? then 1 else 2
  }

  /** One step towards the end of a drain that is supplied; the drain itself ends with Return. */
  lemma StepTowardsReturn(p: Pool) returns (a: Action)
    requires Bounded(p) && p.concurrency > 0 && Drains(p) && Supplied(p) && !Enabled(p, Return)
    ensures Enabled(p, a) && Bounded(Next(p, a)) && Next(p, a).concurrency == p.concurrency
    ensures Drains(Next(p, a)) && Supplied(Next(p, a)) && Distance(Next(p, a)) < Distance(p)
  {
    a := if p.main.DrainHandling? then DrainFinish
         else if p.channel != [] then DrainTake
         else if p.waiting.Some? then Send
         else Fetch(0);
  }

  lemma {:induction false} SuppliedDrainReturns(p: Pool) returns (acts: seq<Action>)
    requires Bounded(p) && p.concurrency > 0 && Drains(p) && Supplied(p)
    ensures Legal(p, acts) && After(p, acts).main.Returned?
  {
    acts := [];
    while !Enabled(After(p, acts), Return)
      invariant Legal(p, acts)
      invariant var q := After(p, acts);
        Bounded(q) && q.concurrency == p.concurrency && Drains(q) && Supplied(q)
      decreases Distance(After(p, acts))
    {
      hide Bounded, Supplied, Distance, Next, Enabled;
      var a := StepTowardsReturn(After(p, acts));
      Append(p, acts, a);
      acts := acts + [a];
    }
    Append(p, acts, Return);
    acts := acts + [Return];
  }

  /** A run that ends with the caller of Consume returning. */
  ghost predicate ReturnsBy(p: Pool, acts: seq<Action>) {
    Legal(p, acts) && After(p, acts).main.Returned?
  }

  /** A drain that is under way can return exactly if what it has still to take is in the channel or can yet be
      sent. Once the fetch loop has stopped, that is a matter of counting the channel. */
  lemma {:induction false} DrainReturnsExactly(p: Pool)
    requires Bounded(p) && p.concurrency > 0 && Drains(p)
    ensures (exists acts :: ReturnsBy(p, acts)) <==> Supplied(p)
  {
    if Supplied(p) {
      var acts := SuppliedDrainReturns(p);
      assert ReturnsBy(p, acts);
    } else if acts :| ReturnsBy(p, acts) {
      UnsuppliedForever(p, acts);
    }
  }

  /** A run that ends with the drain waiting for ever. */
  ghost predicate SticksBy(p: Pool, acts: seq<Action>) {
    Legal(p, acts) && Stuck(After(p, acts))
  }

  lemma {:induction false} ExitedStay(p: Pool, acts: seq<Action>)
    requires Legal(p, acts) && forall w | 0 <= w < |p.workers| :: p.workers[w].Exited?
    ensures forall w | 0 <= w < |After(p, acts).workers| :: After(p, acts).workers[w].Exited?
    ensures forall a | a in acts :: !a.Take?
    decreases |acts|
  {
    if acts != [] {
      ExitedStay(p, acts[..|acts| - 1]);
    }
  }

  /** Worker w is there and the drain still wants a message; nothing else takes part. */
  ghost predicate Starving(p: Pool, w: nat) {
    && Bounded(p) && p.cancelled && Drains(p) && Left(p) > 0
    && w < |p.workers| && !p.workers[w].Exited?
  }

  function Remaining(p: Pool, w: nat): nat
    requires w < |p.workers|
  {
    3 * |p.channel| + One(p.workers[w].Handling?) + 4 * One(p.waiting.Some?) + One(p.fetching) + One(p.main.DrainHandling?)
  }

  /** Worker w takes whatever there is, and the fetch loop stops when it can. */
  lemma StepTowardsStuck(p: Pool, w: nat) returns (a: Action)
    requires Starving(p, w) && !Stuck(p)
    ensures Enabled(p, a) && Starving(Next(p, a), w) && Remaining(Next(p, a), w) < Remaining(p, w)
  {
    a := if p.workers[w].Handling? then Finish(w)
         else if p.channel != [] then Take(w)
         else if p.waiting.Some? then Send
         else if p.fetching then StopFetching
         else DrainFinish;
  }

  lemma {:induction false} StarvedDrainSticks(p: Pool, w: nat) returns (acts: seq<Action>)
    requires Starving(p, w)
    ensures Legal(p, acts) && Stuck(After(p, acts))
  {
    acts := [];
    while !Stuck(After(p, acts))
      invariant Legal(p, acts) && Starving(After(p, acts), w)
      decreases Remaining(After(p, acts), w)
    {
      hide Stuck, Remaining, Next, Enabled;
      var a := StepTowardsStuck(After(p, acts), w);
      Append(p, acts, a);
      acts := acts + [a];
    }
  }

  /** A drain that has still something to take, all of it in the channel, can come to wait for ever exactly if some
      worker has not left. */
  lemma {:induction false} DrainBlocksExactly(p: Pool)
    requires Bounded(p) && p.cancelled && Drains(p) && Left(p) > 0 && DrainCovered(p)
    ensures (exists acts :: SticksBy(p, acts)) <==> exists w: nat :: w < |p.workers| && !p.workers[w].Exited?
  {
    if w: nat :| w < |p.workers| && !p.workers[w].Exited? {
      var acts := StarvedDrainSticks(p, w);
      assert SticksBy(p, acts);
    } else if acts :| SticksBy(p, acts) {
      ExitedStay(p, acts);
      DrainGoesOn(p, acts);
    }
  }

  // ----- The bound on messages in flight is reached

  /** The first w workers are busy, the others idle, k messages are in the channel, and the fetch loop is free. */
  ghost predicate Filled(p: Pool, q: Pool, w: nat, k: nat) {
    && |q.workers| == p.concurrency == q.concurrency && w <= |q.workers|
    && (forall i | 0 <= i < w :: q.workers[i].Handling?) && (forall i | w <= i < |q.workers| :: q.workers[i].Idle?)
    && |q.channel| == k && q.waiting == None && q.fetching && !q.cancelled && q.main.Blocked?
  }

  lemma {:induction false} AllBusy(workers: seq<Worker>)
    requires forall w | 0 <= w < |workers| :: workers[w].Handling?
    ensures Busy(workers) == |workers|
    decreases |workers|
  {
    if workers != [] {
      AllBusy(workers[..|workers| - 1]);
    }
  }

  lemma FetchAndSend(p: Pool, q: Pool, w: nat, k: nat)
    requires Filled(p, q, w, k) && k < 2 * p.concurrency
    ensures Enabled(q, Fetch(0)) && Enabled(Next(q, Fetch(0)), Send)
    ensures Filled(p, Next(Next(q, Fetch(0)), Send), w, k + 1)
  {
  }

  lemma TakeOne(p: Pool, q: Pool, w: nat)
    requires Filled(p, q, w, 1) && w < p.concurrency
    ensures Enabled(q, Take(w)) && Filled(p, Next(q, Take(w)), w + 1, 0)
  {
  }

  lemma OneMoreQueued(p: Pool, acts: seq<Action>, w: nat, k: nat) returns (more: seq<Action>)
    requires Legal(p, acts) && Filled(p, After(p, acts), w, k) && k < 2 * p.concurrency
    ensures Legal(p, more) && Filled(p, After(p, more), w, k + 1)
  {
    FetchAndSend(p, After(p, acts), w, k);
    hide Next, Enabled, Filled;
    Append(p, acts, Fetch(0));
    Append(p, acts + [Fetch(0)], Send);
    more := acts + [Fetch(0)] + [Send];
  }

  lemma {:induction false} FillUp(p: Pool) returns (acts: seq<Action>)
    requires Initial(p)
    ensures Legal(p, acts) && Filled(p, After(p, acts), p.concurrency, 2 * p.concurrency)
  {
    acts := [];
    assert Filled(p, After(p, acts), 0, 0);
    hide Filled, Initial;
    for w := 0 to p.concurrency
      invariant Legal(p, acts) && Filled(p, After(p, acts), w, 0)
    {
      hide Next, Enabled;
      acts := OneMoreQueued(p, acts, w, 0);
      TakeOne(p, After(p, acts), w);
      Append(p, acts, Take(w));
      acts := acts + [Take(w)];
    }
    for k := 0 to 2 * p.concurrency
      invariant Legal(p, acts) && Filled(p, After(p, acts), p.concurrency, k)
    {
      acts := OneMoreQueued(p, acts, p.concurrency, k);
    }
  }

  /** For every number of workers some run reaches the bound 3C+1 while the context lives. */
  lemma {:induction false} BoundIsReached(p: Pool) returns (acts: seq<Action>)
    requires Initial(p)
    ensures Legal(p, acts) && !After(p, acts).cancelled && Load(After(p, acts)) == 3 * p.concurrency + 1
  {
    acts := FillUp(p);
    AllBusy(After(p, acts).workers);
    Append(p, acts, Fetch(0));
    acts := acts + [Fetch(0)];
  }
}
