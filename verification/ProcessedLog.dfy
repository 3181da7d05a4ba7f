/** The processed-log protocol of the NATS driver, as one global state machine.

    A message id is claimed by creating a key in a key-value store, marked there
    once its handler succeeded, and released again when the handler asked for a
    retry. Any number of deliveries, of any number of messages, by any number of
    processes, interleave one remote operation at a time. Every remote operation
    may fail, and a failed one may still have been applied. A process may die
    between any two operations and the store may expire keys on its own. */
module ProcessedLog {
  import opened Wrappers

  type Id = string
  type MsgKey = nat
  type Delivery = nat

  /** flow.RetryDelay is given the constant 3, whatever AckAttempts says. */
  const ACK_ATTEMPTS: nat := 3

  type AckAttempt = k: nat | 1 <= k <= ACK_ATTEMPTS witness 1

  datatype KvState = Processing | Processed

  /** What the broker has done with a message for good. A Pending message may be delivered again at any time. */
  datatype Fate = Pending | Acked | Termed

  /** `notBefore` is None when the delay header is absent or does not parse. */
  datatype Message = Message(id: Id, notBefore: Option<int>, decodable: bool, fate: Fate)

  /** How a registered handler returns: nil, ErrSkipRetry, ErrDeadLetter or any other error. */
  datatype Outcome = Succeeded | SkipRetry | DeadLetter | Failed

  /** Where one delivery stands; each value names the operation that comes next. */
  datatype Pc =
    | Arrived
    | Claiming
    | Checking
    | Terming
    | Naking
    | Decoding
    | Queued
    | Running
    | Marking(attempt: AckAttempt)
    | Acking(attempt: AckAttempt)
    | GivingUp
    | Releasing
    | Finished

  datatype Attempt = Attempt(msg: MsgKey, pc: Pc)

  /** `forwards`, `successes`, `abandoned` and `marked` only record history: how often an id was handed to a
      worker, how often its handler returned nil, which messages got a verdict that gives up on them, and
      which ids were ever marked processed. No transition reads them, except the assumption on expiry. */
  datatype State = State(
    logOn: bool,
    now: int,
    kv: map<Id, KvState>,
    msgs: map<MsgKey, Message>,
    attempts: map<Delivery, Attempt>,
    forwards: multiset<Id>,
    successes: multiset<Id>,
    abandoned: set<MsgKey>,
    marked: set<Id>)

  /** The reply to an atomic create: a failure other than "key exists" may hide a create that was applied. */
  datatype CreateReply = Created | KeyExists | CreateFailed(applied: bool)

  datatype Action =
    | Publish(key: MsgKey, id: Id, notBefore: Option<int>, decodable: bool)
    | Deliver(d: Delivery, key: MsgKey)
    | Inspect(d: Delivery)
    | Create(d: Delivery, reply: CreateReply)
    | Get(d: Delivery, ok: bool)
    | Term(d: Delivery, applied: bool)
    | Nak(d: Delivery)
    | Decode(d: Delivery)
    | Take(d: Delivery, registered: bool)
    | Return(d: Delivery, outcome: Outcome)
    | Put(d: Delivery, applied: bool, ok: bool)
    | DoubleAck(d: Delivery, applied: bool, ok: bool)
    | Delete(d: Delivery, applied: bool)
    | Crash(d: Delivery)
    | Expire(key_id: Id)
    | Tick(to: int)

  /** What is assumed of expiry in the key-value store. */
  datatype Ttl = Arbitrary | NotWhileHeld | NotAfterSuccess

  // ----- Reading a state

  /** A delivery is a live claim holder from the create that succeeded until its last operation on the claim. */
  predicate HolderPc(pc: Pc) {
    pc.Decoding? || pc.Queued? || pc.Running? || pc.Marking? || pc.Acking? || pc.GivingUp? || pc.Releasing?
  }

  predicate Settling(pc: Pc) {
    pc.Marking? || pc.Acking?
  }

  predicate At(s: State, d: Delivery, pc: Pc) {
    d in s.attempts && s.attempts[d].pc == pc
  }

  ghost predicate WellFormed(s: State) {
    forall d | d in s.attempts :: s.attempts[d].msg in s.msgs
  }

  function Msg(s: State, d: Delivery): Message
    requires d in s.attempts && s.attempts[d].msg in s.msgs
  {
    s.msgs[s.attempts[d].msg]
  }

  /** d is in the middle of handling message id `id` with the claim on it. */
  ghost predicate Holds(s: State, d: Delivery, id: Id) {
    d in s.attempts && s.attempts[d].msg in s.msgs && HolderPc(s.attempts[d].pc) && Msg(s, d).id == id
  }

  ghost predicate Initial(s: State) {
    && s.kv == map[] && s.msgs == map[] && s.attempts == map[]
    && s.forwards == multiset{} && s.successes == multiset{} && s.abandoned == {} && s.marked == {}
  }

  // ----- The step relation

  ghost predicate MayExpire(s: State, ttl: Ttl, id: Id) {
    match ttl
    case Arbitrary => true
    case NotWhileHeld => forall d :: !Holds(s, d, id)
    case NotAfterSuccess => s.successes[id] == 0 && forall d :: !Holds(s, d, id)
  }

  /** Some step of delivery d is possible while d stands at pc. */
  predicate Can(s: State, d: Delivery, pc: Pc) {
    At(s, d, pc) && s.attempts[d].msg in s.msgs
  }

  ghost predicate Enabled(s: State, ttl: Ttl, a: Action) {
    match a
    case Publish(key, _, _, _) => key !in s.msgs
    case Deliver(d, key) => d !in s.attempts && key in s.msgs && s.msgs[key].fate.Pending?
    case Inspect(d) => Can(s, d, Arrived)
    case Create(d, reply) =>
      && Can(s, d, Claiming)
      && (reply == Created || reply == CreateFailed(true) ==> Msg(s, d).id !in s.kv)
      && (reply == KeyExists ==> Msg(s, d).id in s.kv)
    case Get(d, _) => Can(s, d, Checking)
    case Term(d, _) => Can(s, d, Terming) || Can(s, d, GivingUp)
    case Nak(d) => Can(s, d, Naking)
    case Decode(d) => Can(s, d, Decoding)
    case Take(d, _) => Can(s, d, Queued)
    case Return(d, _) => Can(s, d, Running)
    case Put(d, applied, ok) =>
      d in s.attempts && s.attempts[d].pc.Marking? && s.attempts[d].msg in s.msgs && s.logOn && (ok ==> applied)
    case DoubleAck(d, applied, ok) =>
      d in s.attempts && s.attempts[d].pc.Acking? && s.attempts[d].msg in s.msgs && (ok ==> applied)
    case Delete(d, _) => Can(s, d, Releasing) && s.logOn
    case Crash(d) => d in s.attempts
    case Expire(id) => MayExpire(s, ttl, id)
    case Tick(to) => s.now <= to
  }

  /** The delivery whose operation an action is; None for the environment's actions. */
  function Actor(a: Action): Option<Delivery> {
    match a
    case Publish(_, _, _, _) => None
    case Deliver(_, _) => None
    case Expire(_) => None
    case Tick(_) => None
    case _ => Some(a.d)
  }

  /** Where handleMessage goes after the id and delay checks. */
  function AfterInspect(s: State, m: Message): Pc {
    if m.id == "" then Terming
    else if m.notBefore.Some? && m.notBefore.value > s.now then Naking
    else if s.logOn then Claiming
    else Decoding
  }

  /** Ack starts with the mark when there is a log; without one it goes straight to the broker. */
  function StartAck(logOn: bool, attempt: AckAttempt): Pc {
    if logOn then Marking(attempt) else Acking(attempt)
  }

  function RetryAck(logOn: bool, attempt: AckAttempt): Pc {
    if attempt < ACK_ATTEMPTS then StartAck(logOn, attempt + 1) else Finished
  }

  function AfterReturn(logOn: bool, outcome: Outcome): Pc {
    match outcome
    case Succeeded => StartAck(logOn, 1)
    case SkipRetry => GivingUp
    case DeadLetter => GivingUp
    case Failed => if logOn then Releasing else Naking
  }

  /** What delivery a.d does after action a. */
  function NextPc(s: State, a: Action): Pc
    requires Enabled(s, Arbitrary, a) && Actor(a).Some?
  {
    match a
    case Inspect(d) => AfterInspect(s, Msg(s, d))
    case Create(d, reply) =>
      (match reply
       case Created => Decoding
       case KeyExists => Checking
       case CreateFailed(_) => Naking)
    case Get(d, ok) =>
      var id := Msg(s, d).id;
      if ok && id in s.kv && s.kv[id] == Processed then Terming else Naking
    case Term(_, _) => Finished
    case Nak(_) => Finished
    case Decode(d) => if Msg(s, d).decodable then Queued else Naking
    case Take(_, registered) => if registered then Running else GivingUp
    case Return(_, outcome) => AfterReturn(s.logOn, outcome)
    case Put(d, _, ok) =>
      var k := s.attempts[d].pc.attempt;
      if ok then Acking(k) else RetryAck(s.logOn, k)
    case DoubleAck(d, _, ok) => if ok then Finished else RetryAck(s.logOn, s.attempts[d].pc.attempt)
    case Delete(_, _) => Naking
    case Crash(_) => Finished
  }

  /** The key-value store after action a. */
  function NextKv(s: State, a: Action): map<Id, KvState>
    requires Enabled(s, Arbitrary, a)
  {
    match a
    case Create(d, reply) =>
      if reply == Created || reply == CreateFailed(true) then s.kv[Msg(s, d).id := Processing] else s.kv
    case Put(d, applied, _) => if applied then s.kv[Msg(s, d).id := Processed] else s.kv
    case Delete(d, applied) => if applied then s.kv - {Msg(s, d).id} else s.kv
    case Expire(id) => s.kv - {id}
    case _ => s.kv
  }

  /** The broker acts on the first ack or term it receives for a message and ignores later ones. */
  function Remove(s: State, d: Delivery, fate: Fate): map<MsgKey, Message>
    requires d in s.attempts && s.attempts[d].msg in s.msgs
  {
    if Msg(s, d).fate.Pending? then s.msgs[s.attempts[d].msg := Msg(s, d).(fate := fate)] else s.msgs
  }

  /** The broker's messages after action a. */
  function NextMsgs(s: State, a: Action): map<MsgKey, Message>
    requires Enabled(s, Arbitrary, a)
  {
    match a
    case Publish(key, id, notBefore, decodable) => s.msgs[key := Message(id, notBefore, decodable, Pending)]
    case Term(d, applied) => if applied then Remove(s, d, Termed) else s.msgs
    case DoubleAck(d, applied, _) => if applied then Remove(s, d, Acked) else s.msgs
    case _ => s.msgs
  }

  function NextAttempts(s: State, a: Action): map<Delivery, Attempt>
    requires Enabled(s, Arbitrary, a)
  {
    if a.Deliver? then s.attempts[a.d := Attempt(a.key, Arrived)]
    else if Actor(a).Some? then s.attempts[Actor(a).value := s.attempts[Actor(a).value].(pc := NextPc(s, a))]
    else s.attempts
  }

  function Forwarded(s: State, a: Action): multiset<Id>
    requires Enabled(s, Arbitrary, a)
  {
    if a.Decode? && Msg(s, a.d).decodable then multiset{Msg(s, a.d).id} else multiset{}
  }

  function NewSuccess(s: State, a: Action): multiset<Id>
    requires Enabled(s, Arbitrary, a)
  {
    if a.Return? && a.outcome == Succeeded then multiset{Msg(s, a.d).id} else multiset{}
  }

  function NewlyAbandoned(s: State, a: Action): set<MsgKey>
    requires Enabled(s, Arbitrary, a)
  {
    if (a.Take? && !a.registered) || (a.Return? && (a.outcome == SkipRetry || a.outcome == DeadLetter))
    then {s.attempts[a.d].msg} else {}
  }

  function NewlyMarked(s: State, a: Action): set<Id>
    requires Enabled(s, Arbitrary, a)
  {
    if a.Put? && a.applied then {Msg(s, a.d).id} else {}
  }

  function Next(s: State, a: Action): State
    requires Enabled(s, Arbitrary, a)
  {
    State(s.logOn,
          if a.Tick? then a.to else s.now,
          NextKv(s, a),
          NextMsgs(s, a),
          NextAttempts(s, a),
          s.forwards + Forwarded(s, a),
          s.successes + NewSuccess(s, a),
          s.abandoned + NewlyAbandoned(s, a),
          s.marked + NewlyMarked(s, a))
  }

  // ----- Runs

  /** The actions can be taken one after the other from s. */
  ghost predicate Legal(s: State, ttl: Ttl, acts: seq<Action>)
    decreases |acts|, 0
  {
    acts == [] ||
    (var pre := acts[..|acts| - 1];
     Legal(s, ttl, pre) && Enabled(After(s, ttl, pre), ttl, acts[|acts| - 1]))
  }

  /** The state after a legal run. */
  ghost function After(s: State, ttl: Ttl, acts: seq<Action>): State
    requires Legal(s, ttl, acts)
    decreases |acts|, 1
  {
    if acts == [] then s
    else Next(After(s, ttl, acts[..|acts| - 1]), acts[|acts| - 1])
  }
}
