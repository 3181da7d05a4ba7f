/** The idempotency middleware over its Redis store, as one state machine. Any number of requests interleave one
    Redis command at a time; every command may fail, and a failed one may still have been applied. The lock and
    the stored response of a key expire independently of each other. */
module Idempotency {
  import opened Wrappers

  type Key = string
  type Bytes = string
  type Request = nat

  /** Where a request stands; each value names what it does next. */
  datatype Pc =
    | Locking
    | Getting
    | Starting
    | Running
    | Storing(response: Bytes)
    | Unlocking
    | Finished

  datatype Attempt = Attempt(key: Key, pc: Pc)

  datatype Replay = Replay(key: Key, response: Bytes)

  /** `locks` and `store` are the two kinds of Redis entries. `runs`, `replays` and `leftBehind` only record
      history: how often a key's handler was started, the responses replayed, in order, and the keys whose lock
      outlived its request because of a lost reply, a failed unlock or a crash. */
  datatype State = State(
    locks: set<Key>,
    store: map<Key, Bytes>,
    requests: map<Request, Attempt>,
    runs: multiset<Key>,
    replays: seq<Replay>,
    leftBehind: set<Key>)

  /** The reply to SET NX on the lock key. */
  datatype LockReply = Acquired | AlreadyLocked | LockFailed(applied: bool)

  datatype Action =
    | Arrive(r: Request, key: Key)
    | Lock(r: Request, reply: LockReply)
    | Get(r: Request, ok: bool, decodes: bool)
    | Start(r: Request)
    | Finish(r: Request, response: Option<Bytes>)
    | Store(r: Request, applied: bool, ok: bool)
    | Unlock(r: Request, applied: bool)
    | Crash(r: Request)
    | ExpireLock(lock: Key)
    | ExpireStore(stored: Key)

  /** Between a lock that is known to have worked and the end of the unlock. */
  predicate InsidePc(pc: Pc) {
    !pc.Locking? && !pc.Finished?
  }

  ghost predicate Inside(s: State, r: Request, key: Key) {
    r in s.requests && s.requests[r].key == key && InsidePc(s.requests[r].pc)
  }

  predicate At(s: State, r: Request, pc: Pc) {
    r in s.requests && s.requests[r].pc == pc
  }

  ghost predicate Initial(s: State) {
    s == State({}, map[], map[], multiset{}, [], {})
  }

  /** `guarded` assumes that a lock never expires while a request is inside. */
  ghost predicate Enabled(s: State, guarded: bool, a: Action) {
    match a
    case Arrive(r, _) => r !in s.requests
    case Lock(r, reply) =>
      && At(s, r, Locking)
      && (reply == Acquired || reply == LockFailed(true) ==> s.requests[r].key !in s.locks)
      && (reply == AlreadyLocked ==> s.requests[r].key in s.locks)
    case Get(r, _, _) => At(s, r, Getting)
    case Start(r) => At(s, r, Starting)
    case Finish(r, _) => At(s, r, Running)
    case Store(r, applied, ok) => r in s.requests && s.requests[r].pc.Storing? && (ok ==> applied)
    case Unlock(r, _) => At(s, r, Unlocking)
    case Crash(r) => r in s.requests
    case ExpireLock(key) => guarded ==> forall r :: !Inside(s, r, key)
    case ExpireStore(_) => true
  }

  /** The request whose operation an action is; None for the environment's actions. */
  function Actor(a: Action): Option<Request> {
    match a
    case Arrive(_, _) => None
    case ExpireLock(_) => None
    case ExpireStore(_) => None
    case _ => Some(a.r)
  }

  /** A get that finds a response it can decode. */
  predicate IsReplay(s: State, a: Action) {
    a.Get? && a.ok && a.decodes && a.r in s.requests && s.requests[a.r].key in s.store
  }

  function NextPc(s: State, a: Action): Pc
    requires Enabled(s, false, a) && Actor(a).Some?
  {
    match a
    case Lock(_, reply) => if reply == Acquired then Getting else Finished
    case Get(r, ok, _) => if ok && s.requests[r].key !in s.store then Starting else Unlocking
    case Start(_) => Running
    case Finish(_, response) => if response.Some? then Storing(response.value) else Unlocking
    case Store(_, _, _) => Unlocking
    case Unlock(_, _) => Finished
    case Crash(_) => Finished
  }

  function NextLocks(s: State, a: Action): set<Key>
    requires Enabled(s, false, a)
  {
    match a
    case Lock(r, reply) => if reply == Acquired || reply == LockFailed(true) then s.locks + {s.requests[r].key} else s.locks
    case Unlock(r, applied) => if applied then s.locks - {s.requests[r].key} else s.locks
    case ExpireLock(key) => s.locks - {key}
    case _ => s.locks
  }

  /** SET NX leaves a stored response alone. */
  function NextStore(s: State, a: Action): map<Key, Bytes>
    requires Enabled(s, false, a)
  {
    match a
    case Store(r, applied, _) =>
      if applied && s.requests[r].key !in s.store
      then s.store[s.requests[r].key := s.requests[r].pc.response] else s.store
    case ExpireStore(key) => s.store - {key}
    case _ => s.store
  }

  function NextRequests(s: State, a: Action): map<Request, Attempt>
    requires Enabled(s, false, a)
  {
    if a.Arrive? then s.requests[a.r := Attempt(a.key, Locking)]
    else if Actor(a).Some? then s.requests[Actor(a).value := s.requests[Actor(a).value].(pc := NextPc(s, a))]
    else s.requests
  }

  function NewRuns(s: State, a: Action): multiset<Key>
    requires Enabled(s, false, a)
  {
    if a.Start? then multiset{s.requests[a.r].key} else multiset{}
  }

  function NewReplays(s: State, a: Action): seq<Replay>
    requires Enabled(s, false, a)
  {
    if IsReplay(s, a) then [Replay(s.requests[a.r].key, s.store[s.requests[a.r].key])] else []
  }

  function NextLeftBehind(s: State, a: Action): set<Key>
    requires Enabled(s, false, a)
  {
    match a
    case Lock(r, reply) => if reply == LockFailed(true) then s.leftBehind + {s.requests[r].key} else s.leftBehind
    case Unlock(r, applied) => if applied then s.leftBehind else s.leftBehind + ({s.requests[r].key} * s.locks)
    case Crash(r) => if InsidePc(s.requests[r].pc) then s.leftBehind + ({s.requests[r].key} * s.locks) else s.leftBehind
    case ExpireLock(key) => s.leftBehind - {key}
    case _ => s.leftBehind
  }

  function Next(s: State, a: Action): State
    requires Enabled(s, false, a)
  {
    State(NextLocks(s, a),
          NextStore(s, a),
          NextRequests(s, a),
          s.runs + NewRuns(s, a),
          s.replays + NewReplays(s, a),
          NextLeftBehind(s, a))
  }

  // ----- Runs

  ghost predicate Legal(s: State, guarded: bool, acts: seq<Action>)
    decreases |acts|, 0
  {
    acts == [] ||
    (var pre := acts[..|acts| - 1];
     Legal(s, guarded, pre) && Enabled(After(s, guarded, pre), guarded, acts[|acts| - 1]))
  }

  ghost function After(s: State, guarded: bool, acts: seq<Action>): State
    requires Legal(s, guarded, acts)
    decreases |acts|, 1
  {
    if acts == [] then s
    else Next(After(s, guarded, acts[..|acts| - 1]), acts[|acts| - 1])
  }

  lemma Append(s: State, guarded: bool, acts: seq<Action>, a: Action)
    requires Legal(s, guarded, acts) && Enabled(After(s, guarded, acts), guarded, a)
    ensures Legal(s, guarded, acts + [a])
    ensures After(s, guarded, acts + [a]) == Next(After(s, guarded, acts), a)
  {
    assert (acts + [a])[..|acts + [a]| - 1] == acts;
  }
}

/** What the middleware guarantees over whole runs. */
module IdempotencyProofs {
  import opened Wrappers
  import opened Idempotency

  // ----- One request inside per key, while locks do not expire under their holder

  /** At most one request is inside, and the lock is there exactly when one is, or when it was left behind. */
  ghost predicate KeyExclusive(s: State, key: Key) {
    && (forall r, q | Inside(s, r, key) && Inside(s, q, key) :: r == q)
    && (forall r | Inside(s, r, key) :: key in s.locks && key !in s.leftBehind)
    && (key in s.leftBehind ==> key in s.locks)
    && (key in s.locks && key !in s.leftBehind ==> exists r :: Inside(s, r, key))
  }

  ghost predicate Exclusive(s: State) {
    forall key :: KeyExclusive(s, key)
  }

  /** How a step moves one request. */
  lemma StepMoves(s: State, guarded: bool, a: Action, r: Request)
    requires Enabled(s, guarded, a) && r in Next(s, a).requests
    ensures var t := Next(s, a);
      if r in s.requests then
        t.requests[r] == (if Actor(a) == Some(r) then s.requests[r].(pc := NextPc(s, a)) else s.requests[r])
      else t.requests[r].pc == Locking
  {
    hide NextPc, NextLocks, NextStore, NewRuns, NewReplays, NextLeftBehind;
  }

  lemma StepKeepsRequests(s: State, guarded: bool, a: Action, r: Request)
    requires Enabled(s, guarded, a) && r in s.requests
    ensures r in Next(s, a).requests && Next(s, a).requests[r].key == s.requests[r].key
  {
    hide NextPc, NextLocks, NextStore, NewRuns, NewReplays, NextLeftBehind;
  }

  /** A request gets inside only by a lock that found the key unlocked. */
  lemma StepEnters(s: State, guarded: bool, a: Action, r: Request, key: Key)
    requires Enabled(s, guarded, a) && Inside(Next(s, a), r, key)
    ensures Inside(s, r, key) || (a == Lock(r, Acquired) && s.requests[r].key == key && key !in s.locks)
  {
    StepMoves(s, guarded, a, r);
    hide Next;
  }

  lemma OthersKeepKey(s: State, a: Action, key: Key)
    requires Enabled(s, false, a) && a != ExpireLock(key)
    requires Actor(a).Some? ==> s.requests[Actor(a).value].key != key
    ensures key in Next(s, a).locks <==> key in s.locks
    ensures key in Next(s, a).leftBehind <==> key in s.leftBehind
  {
    hide NextPc, NextStore, NextRequests, NewRuns, NewReplays;
  }

  lemma OthersStayInside(s: State, a: Action, r: Request, key: Key)
    requires Enabled(s, false, a) && Actor(a) != Some(r) && Inside(s, r, key)
    ensures Inside(Next(s, a), r, key)
  {
    StepKeepsRequests(s, false, a, r);
    StepMoves(s, false, a, r);
  }

  lemma ActorKeepsKey(s: State, a: Action)
    requires Enabled(s, false, a) && Actor(a).Some? && KeyExclusive(s, s.requests[Actor(a).value].key)
    ensures KeyExclusive(Next(s, a), s.requests[Actor(a).value].key)
  {
    var t := Next(s, a);
    var d := Actor(a).value;
    var key := s.requests[d].key;
    StepKeepsRequests(s, false, a, d);
    StepMoves(s, false, a, d);
    hide NextStore, NextRequests, NewRuns, NewReplays;
    forall r | Inside(t, r, key) ensures r == d || (Inside(s, r, key) && !Inside(s, d, key)) {
      StepEnters(s, false, a, r, key);
      if r != d {
        assert Inside(s, d, key) && Inside(s, r, key) ==> r == d;
      }
    }
    if Inside(s, d, key) {
      assert key in s.locks && key !in s.leftBehind;
      assert InsidePc(NextPc(s, a)) ==> Inside(t, d, key);
    } else {
      assert Inside(t, d, key) ==> a == Lock(d, Acquired);
      if key in s.locks && key !in s.leftBehind {
        var r :| Inside(s, r, key);
        OthersStayInside(s, a, r, key);
      }
    }
  }

  lemma BystandersKeepKey(s: State, a: Action, key: Key)
    requires KeyExclusive(s, key) && Enabled(s, true, a)
    requires Actor(a).Some? ==> s.requests[Actor(a).value].key != key
    ensures KeyExclusive(Next(s, a), key)
  {
    var t := Next(s, a);
    forall r | Inside(t, r, key) ensures Inside(s, r, key) {
      StepEnters(s, true, a, r, key);
    }
    if a == ExpireLock(key) {
      assert key !in t.locks;
    } else {
      OthersKeepKey(s, a, key);
      if key in s.locks && key !in s.leftBehind {
        var r :| Inside(s, r, key);
        OthersStayInside(s, a, r, key);
      }
    }
  }

  lemma StepKeepsExclusive(s: State, a: Action)
    requires Exclusive(s) && Enabled(s, true, a)
    ensures Exclusive(Next(s, a))
  {
    forall key ensures KeyExclusive(Next(s, a), key) {
      assert KeyExclusive(s, key);
      if Actor(a).Some? && s.requests[Actor(a).value].key == key {
        ActorKeepsKey(s, a);
      } else {
        BystandersKeepKey(s, a, key);
      }
    }
  }

  lemma {:induction false} RunKeepsExclusive(s: State, acts: seq<Action>)
    requires Exclusive(s) && Legal(s, true, acts)
    ensures Exclusive(After(s, true, acts))
    decreases |acts|
  {
    if acts != [] {
      var pre := acts[..|acts| - 1];
      RunKeepsExclusive(s, pre);
      StepKeepsExclusive(After(s, true, pre), acts[|acts| - 1]);
    }
  }

  // ----- A request that is past its get found nothing stored, and nothing gets stored while it is inside

  predicate PastMiss(pc: Pc) {
    pc.Starting? || pc.Running? || pc.Storing?
  }

  ghost predicate MissStillTrue(s: State, key: Key) {
    forall r | Inside(s, r, key) && PastMiss(s.requests[r].pc) :: key !in s.store
  }

  lemma StepKeepsMiss(s: State, a: Action, key: Key)
    requires KeyExclusive(s, key) && MissStillTrue(s, key) && Enabled(s, true, a)
    ensures MissStillTrue(Next(s, a), key)
  {
    var t := Next(s, a);
    forall r | Inside(t, r, key) && PastMiss(t.requests[r].pc) ensures key !in t.store {
      StepMoves(s, true, a, r);
      StepEnters(s, true, a, r, key);
      if Actor(a) == Some(r) {
        assert t.store == s.store;
      } else if a.Store? && s.requests[a.r].key == key {
        assert Inside(s, a.r, key);
      }
    }
  }

  lemma {:induction false} RunKeepsMiss(s: State, acts: seq<Action>, key: Key)
    requires Exclusive(s) && MissStillTrue(s, key) && Legal(s, true, acts)
    ensures MissStillTrue(After(s, true, acts), key)
    decreases |acts|
  {
    if acts != [] {
      var pre := acts[..|acts| - 1];
      RunKeepsExclusive(s, pre);
      RunKeepsMiss(s, pre, key);
      assert KeyExclusive(After(s, true, pre), key);
      StepKeepsMiss(After(s, true, pre), acts[|acts| - 1], key);
    }
  }

  lemma StepKeepsRuns(s: State, a: Action, key: Key)
    requires MissStillTrue(s, key) && Enabled(s, true, a) && key in s.store && a != ExpireStore(key)
    ensures Next(s, a).runs[key] == s.runs[key] && key in Next(s, a).store
  {
    if a.Start? {
      assert Inside(s, a.r, s.requests[a.r].key);
    }
    hide NextLocks, NextRequests, NextPc, NewReplays, NextLeftBehind;
  }

  lemma {:induction false} RunKeepsRuns(s: State, acts: seq<Action>, key: Key)
    requires Exclusive(s) && MissStillTrue(s, key) && Legal(s, true, acts)
    requires key in s.store && ExpireStore(key) !in acts
    ensures After(s, true, acts).runs[key] == s.runs[key] && key in After(s, true, acts).store
    decreases |acts|
  {
    if acts != [] {
      var pre := acts[..|acts| - 1];
      assert acts[|acts| - 1] in acts;
      RunKeepsMiss(s, pre, key);
      RunKeepsRuns(s, pre, key);
      hide Exclusive, MissStillTrue, Next, Enabled;
      StepKeepsRuns(After(s, true, pre), acts[|acts| - 1], key);
    }
  }

  // ----- The stored response does not change, whatever happens to locks

  /** More replays may have come, and those of the key among them carry this response. */
  ghost predicate ReplaysAdded(before: seq<Replay>, after: seq<Replay>, key: Key, response: Bytes) {
    && |before| <= |after| && after[..|before|] == before
    && forall i | |before| <= i < |after| && after[i].key == key :: after[i].response == response
  }

  lemma MoreReplays(before: seq<Replay>, after: seq<Replay>, more: seq<Replay>, key: Key, response: Bytes)
    requires ReplaysAdded(before, after, key, response)
    requires |more| <= 1 && (more != [] && more[0].key == key ==> more[0].response == response)
    ensures ReplaysAdded(before, after + more, key, response)
  {
  }

  lemma StepKeepsStored(s: State, guarded: bool, a: Action, key: Key)
    requires Enabled(s, guarded, a) && key in s.store && a != ExpireStore(key)
    ensures Enabled(s, false, a)
    ensures key in Next(s, a).store && Next(s, a).store[key] == s.store[key]
    ensures var more := NewReplays(s, a);
      && Next(s, a).replays == s.replays + more
      && |more| <= 1 && (more != [] && more[0].key == key ==> more[0].response == s.store[key])
  {
    hide NextLocks, NextRequests, NextPc, NewRuns, NextLeftBehind;
  }

  lemma {:induction false} RunKeepsStored(s: State, guarded: bool, acts: seq<Action>, key: Key)
    requires Legal(s, guarded, acts) && key in s.store && ExpireStore(key) !in acts
    ensures var t := After(s, guarded, acts);
      key in t.store && t.store[key] == s.store[key] && ReplaysAdded(s.replays, t.replays, key, s.store[key])
    decreases |acts|
  {
    if acts == [] {
      assert s.replays[..|s.replays|] == s.replays;
    } else {
      var pre := acts[..|acts| - 1];
      assert acts[|acts| - 1] in acts;
      RunKeepsStored(s, guarded, pre, key);
      var u := After(s, guarded, pre);
      hide Next, Enabled, ReplaysAdded, NewReplays;
      StepKeepsStored(u, guarded, acts[|acts| - 1], key);
      MoreReplays(s.replays, u.replays, NewReplays(u, acts[|acts| - 1]), key, s.store[key]);
    }
  }

  // ----- Main results, from an empty store

  lemma InitialIsExclusive(s: State, key: Key)
    requires Initial(s)
    ensures Exclusive(s) && MissStillTrue(s, key)
  {
  }

  /** While locks outlive their holders' stay: per key at most one request is between lock and unlock, and the
      lock is there exactly when a request is inside or a lost reply, failed unlock or crash left it behind. */
  lemma {:induction false} OneInside(s: State, acts: seq<Action>, key: Key)
    requires Initial(s) && Legal(s, true, acts)
    ensures var t := After(s, true, acts);
      && (forall r, q | Inside(t, r, key) && Inside(t, q, key) :: r == q)
      && (key in t.locks <==> (exists r :: Inside(t, r, key)) || key in t.leftBehind)
      && !((exists r :: Inside(t, r, key)) && key in t.leftBehind)
  {
    InitialIsExclusive(s, key);
    RunKeepsExclusive(s, acts);
    assert KeyExclusive(After(s, true, acts), key);
  }

  /** Under the same assumption: once a response is stored, no handler for the key is started again until the
      stored response expires. */
  lemma {:induction false} NoRunAfterStored(s: State, pre: seq<Action>, post: seq<Action>, key: Key)
    requires Initial(s) && Legal(s, true, pre) && key in After(s, true, pre).store
    requires Legal(After(s, true, pre), true, post) && ExpireStore(key) !in post
    ensures After(After(s, true, pre), true, post).runs[key] == After(s, true, pre).runs[key]
  {
    InitialIsExclusive(s, key);
    RunKeepsExclusive(s, pre);
    RunKeepsMiss(s, pre, key);
    RunKeepsRuns(After(s, true, pre), post, key);
  }

  /** With no assumption on locks: until the stored response expires it does not change, and all replays in that
      window carry its bytes. */
  lemma {:induction false} ReplaysAgree(s: State, pre: seq<Action>, post: seq<Action>, key: Key)
    requires Initial(s) && Legal(s, false, pre) && key in After(s, false, pre).store
    requires Legal(After(s, false, pre), false, post) && ExpireStore(key) !in post
    ensures var t := After(s, false, pre);
      var u := After(t, false, post);
      && key in u.store && u.store[key] == t.store[key]
      && |t.replays| <= |u.replays| && u.replays[..|t.replays|] == t.replays
      && forall i | |t.replays| <= i < |u.replays| && u.replays[i].key == key :: u.replays[i].response == t.store[key]
  {
    RunKeepsStored(After(s, false, pre), false, post, key);
  }

  /** Only a request whose lock worked ever unlocks; one that was turned away with "locked" never does. */
  lemma {:induction false} UnlockAfterLock(s: State, guarded: bool, acts: seq<Action>, r: Request)
    requires Initial(s) && Legal(s, guarded, acts)
    requires r in After(s, guarded, acts).requests && InsidePc(After(s, guarded, acts).requests[r].pc)
    ensures Lock(r, Acquired) in acts
    decreases |acts|
  {
    if acts != [] {
      var pre := acts[..|acts| - 1];
      var a := acts[|acts| - 1];
      var t := After(s, guarded, acts);
      StepMoves(After(s, guarded, pre), guarded, a, r);
      StepEnters(After(s, guarded, pre), guarded, a, r, t.requests[r].key);
      if a != Lock(r, Acquired) {
        UnlockAfterLock(s, guarded, pre, r);
        assert forall x | x in pre :: x in acts;
      }
    }
  }

  /** A request that was told the key is locked is done for good. */
  lemma {:induction false} TurnedAwayStaysOut(s: State, guarded: bool, acts: seq<Action>, r: Request)
    requires Initial(s) && Legal(s, guarded, acts) && Lock(r, AlreadyLocked) in acts
    ensures At(After(s, guarded, acts), r, Finished)
    decreases |acts|
  {
    var pre := acts[..|acts| - 1];
    var a := acts[|acts| - 1];
    if a != Lock(r, AlreadyLocked) {
      var i :| 0 <= i < |acts| && acts[i] == Lock(r, AlreadyLocked);
      assert pre[i] == acts[i];
      TurnedAwayStaysOut(s, guarded, pre, r);
      StepKeepsRequests(After(s, guarded, pre), guarded, a, r);
      StepMoves(After(s, guarded, pre), guarded, a, r);
    }
  }

  lemma EnabledUnguarded(s: State, guarded: bool, a: Action)
    requires Enabled(s, guarded, a)
    ensures Enabled(s, false, a)
  {
  }
}
