/** The middleware's code and its Redis store, operation by operation among arbitrary other requests. Every method
    is proved to follow the Idempotency step relation, so the guarantees over runs hold of it. */
module IdempotentMiddleware {
  import opened Wrappers
  import opened Idempotency
  import opened IdempotencyProofs
  import Sequences

  /** The actions of one request in a run, in order. */
  function Own(acts: seq<Action>, r: Request): seq<Action>
    decreases |acts|
  {
    if acts == [] then []
    else
      var rest := Own(acts[..|acts| - 1], r);
      if Actor(acts[|acts| - 1]) == Some(r) then rest + [acts[|acts| - 1]] else rest
  }

  lemma OwnAppend(acts: seq<Action>, a: Action, r: Request)
    ensures Own(acts + [a], r) == if Actor(a) == Some(r) then Own(acts, r) + [a] else Own(acts, r)
  {
    assert (acts + [a])[..|acts + [a]| - 1] == acts;
  }

  lemma {:induction false} OthersLeaveAlone(s: State, guarded: bool, pre: seq<Action>, acts: seq<Action>, r: Request)
    requires pre <= acts && Legal(s, guarded, acts) && Legal(s, guarded, pre) && r in After(s, guarded, pre).requests
    requires forall k | |pre| <= k < |acts| :: Actor(acts[k]) != Some(r)
    ensures r in After(s, guarded, acts).requests
    ensures After(s, guarded, acts).requests[r] == After(s, guarded, pre).requests[r]
    ensures Own(acts, r) == Own(pre, r)
    decreases |acts|
  {
    if |acts| == |pre| {
      assert acts == pre;
    } else {
      var shorter := acts[..|acts| - 1];
      OthersLeaveAlone(s, guarded, pre, shorter, r);
      StepKeepsRequests(After(s, guarded, shorter), guarded, acts[|acts| - 1], r);
      StepMoves(After(s, guarded, shorter), guarded, acts[|acts| - 1], r);
    }
  }

  class RedisStore {
    ghost const origin: State
    ghost const guarded: bool
    ghost var trace: seq<Action>
    var st: State

    ghost predicate Valid()
      reads this
    {
      Legal(origin, guarded, trace) && st == After(origin, guarded, trace)
    }

    ghost predicate Standing(r: Request, key: Key, pc: Pc)
      reads this
    {
      Valid() && r in st.requests && st.requests[r] == Attempt(key, pc)
    }

    /** Command number k of the run was `a`. */
    ghost predicate Took(k: nat, a: Action)
      reads this
    {
      k < |trace| && trace[k] == a && Legal(origin, guarded, trace[..k])
    }

    /** The state in which command number k was taken. */
    ghost function StateAt(k: nat): State
      requires k <= |trace| && Legal(origin, guarded, trace[..k])
      reads this
    {
      After(origin, guarded, trace[..k])
    }

    constructor (ghost guarded: bool)
      ensures Valid() && trace == [] && Initial(st) && origin == st && this.guarded == guarded
    {
      var empty := State({}, map[], map[], multiset{}, [], {});
      origin, this.guarded, trace, st := empty, guarded, [], empty;
    }

    /** Any legal operations of anyone but r, in any number, expiry included. Callers learn nothing else. */
    method Interleave(ghost r: Request)
      requires Valid()
      modifies this
      ensures Valid() && old(trace) <= trace
      ensures forall k | |old(trace)| <= k < |trace| :: Actor(trace[k]) != Some(r)
    {
    }

    method Pause(ghost r: Request)
      requires Valid() && r in st.requests
      modifies this
      ensures Valid() && r in st.requests && st.requests[r] == old(st.requests[r]) && old(trace) <= trace
      ensures Own(trace, r) == Own(old(trace), r)
    {
      Interleave(r);
      OthersLeaveAlone(origin, guarded, old(trace), trace, r);
    }

    /** One atomic operation. */
    method Do(a: Action)
      requires Valid() && Enabled(st, guarded, a) && Actor(a).Some? && Actor(a).value in st.requests
      modifies this
      ensures Valid() && trace == old(trace) + [a] && Enabled(old(st), false, a) && st == Next(old(st), a)
      ensures var r := Actor(a).value;
        && Own(trace, r) == Own(old(trace), r) + [a]
        && r in st.requests && st.requests[r] == old(st).requests[r].(pc := NextPc(old(st), a))
    {
      Append(origin, guarded, trace, a);
      OwnAppend(trace, a, Actor(a).value);
      StepKeepsRequests(st, guarded, a, Actor(a).value);
      StepMoves(st, guarded, a, Actor(a).value);
      EnabledUnguarded(st, guarded, a);
      st := Next(st, a);
      trace := trace + [a];
    }

    /** SET NX on the lock key: unless the command fails, it is acquired exactly if it is not there, at command `at`. */
    method Lock(r: Request, key: Key) returns (reply: LockReply, ghost at: nat)
      requires Standing(r, key, Locking)
      modifies this
      ensures Standing(r, key, if reply.Acquired? then Getting else Finished) && old(trace) <= trace
      ensures Own(trace, r) == Own(old(trace), r) + [Action.Lock(r, reply)]
      ensures Took(at, Action.Lock(r, reply))
      ensures reply.LockFailed? || (reply.Acquired? <==> key !in StateAt(at).locks)
    {
      Pause(r);
      at := |trace|;
      var lost: bool := *;
      var applied: bool := *;
      if lost {
        reply := LockFailed(applied && key !in st.locks);
      } else {
        reply := if key in st.locks then AlreadyLocked else Acquired;
      }
      Do(Action.Lock(r, reply));
      assert trace[..at] == trace[..|trace| - 1];
    }

    /** Err stands for a failed command or a response that does not decode, Ok(None) for "nothing stored". */
    method Get(r: Request, key: Key)
      returns (reply: Result<Option<Bytes>, ()>, ghost ok: bool, ghost decodes: bool, ghost at: nat)
      requires Standing(r, key, Getting)
      modifies this
      ensures Standing(r, key, if reply == Ok(None) then Starting else Unlocking) && old(trace) <= trace
      ensures Own(trace, r) == Own(old(trace), r) + [Action.Get(r, ok, decodes)]
      ensures Took(at, Action.Get(r, ok, decodes))
      ensures var stored := StateAt(at).store;
        reply ==
          if !ok || (key in stored && !decodes) then Err(())
          else if key in stored then Ok(Some(stored[key]))
          else Ok(None)
      ensures reply.Ok? && reply.value.Some? ==>
        st.replays != [] && st.replays[|st.replays| - 1] == Replay(key, reply.value.value)
        && key in st.store && st.store[key] == reply.value.value
    {
      Pause(r);
      at := |trace|;
      var works: bool := *;
      var readable: bool := *;
      ok, decodes := works, readable;
      if !works {
        reply := Err(());
      } else if key !in st.store {
        reply := Ok(None);
      } else if !readable {
        reply := Err(());
      } else {
        reply := Ok(Some(st.store[key]));
      }
      Do(Action.Get(r, works, readable));
      assert trace[..at] == trace[..|trace| - 1];
    }

    /** SET NX: a response that is already stored stays, and that is not an error. `before` in the contract is the
        store at the moment of the command. */
    method Store(r: Request, key: Key, response: Bytes) returns (ok: bool, ghost applied: bool)
      requires Standing(r, key, Storing(response))
      modifies this
      ensures Standing(r, key, Unlocking) && old(trace) <= trace
      ensures Own(trace, r) == Own(old(trace), r) + [Action.Store(r, applied, ok)]
      ensures ok ==> applied && key in st.store
      ensures trace != [] && Legal(origin, guarded, trace[..|trace| - 1])
      ensures var before := After(origin, guarded, trace[..|trace| - 1]).store;
        st.store == if key in before || !applied then before else before[key := response]
    {
      Pause(r);
      var reply: bool := *;
      var effect: bool := *;
      ok, applied := reply, effect || reply;
      Do(Action.Store(r, effect || reply, reply));
    }

    method Unlock(r: Request, key: Key) returns (ghost applied: bool)
      requires Standing(r, key, Unlocking)
      modifies this
      ensures Standing(r, key, Finished) && old(trace) <= trace
      ensures Own(trace, r) == Own(old(trace), r) + [Action.Unlock(r, applied)]
    {
      Pause(r);
      var effect: bool := *;
      applied := effect;
      Do(Action.Unlock(r, effect));
    }

    /** The wrapped handler: it runs for any time and answers, or fails. */
    method RunHandler(r: Request, key: Key) returns (response: Option<Bytes>)
      requires Standing(r, key, Starting)
      modifies this
      ensures Standing(r, key, if response.Some? then Storing(response.value) else Unlocking) && old(trace) <= trace
      ensures Own(trace, r) == Own(old(trace), r) + [Start(r)] + [Finish(r, response)]
    {
      Pause(r);
      Do(Start(r));
      Pause(r);
      response := *;
      Do(Finish(r, response));
    }
  }

  /** What a request ends with. */
  datatype Reply =
    | PassedThrough
    | InvalidKey
    | Locked
    | Failed
    | Replayed(response: Bytes)
    | Answered(response: Bytes)

  /** What a run of the handler comes to: its answer if it has one and the store command reports success. */
  ghost predicate RunShape(own: seq<Action>, r: Request, reply: Reply) {
    || (exists response, applied ::
          && own == [Start(r), Finish(r, Some(response)), Store(r, applied, true)]
          && reply == Answered(response))
    || (exists response, applied ::
          own == [Start(r), Finish(r, Some(response)), Store(r, applied, false)] && reply == Failed)
    || (own == [Start(r), Finish(r, None)] && reply == Failed)
  }

  /** What a request does inside, when the store is `stored` at its get: it replays what is stored, and fails if the
      get does or what it finds does not decode; only if nothing is stored it runs the handler, exactly once. */
  ghost predicate InsideShape(own: seq<Action>, r: Request, key: Key, reply: Reply, stored: map<Key, Bytes>) {
    && |own| >= 1 && own[0].Get? && own[0].r == r
    && if !own[0].ok then |own| == 1 && reply == Failed
       else if key in stored then |own| == 1 && reply == (if own[0].decodes then Replayed(stored[key]) else Failed)
       else RunShape(own[1..], r, reply)
  }

  /** `at` is where in the run the get was. */
  method Visit(store: RedisStore, r: Request, key: Key) returns (reply: Reply, ghost own: seq<Action>, ghost at: nat)
    requires store.Standing(r, key, Getting)
    modifies store
    ensures store.Standing(r, key, Unlocking) && old(store.trace) <= store.trace
    ensures Own(store.trace, r) == Own(old(store.trace), r) + own
    ensures |own| >= 1 && store.Took(at, own[0]) && InsideShape(own, r, key, reply, store.StateAt(at).store)
    ensures reply.Replayed? ==> key in store.st.store && store.st.store[key] == reply.response
  {
    hide Legal, After, Own, RunShape;
    ghost var before := Own(store.trace, r);
    ghost var ok, decodes;
    var found;
    found, ok, decodes, at := store.Get(r, key);
    ghost var get := Action.Get(r, ok, decodes);
    own := [get];
    if found.Err? {
      return Failed, own, at;
    }
    if found.value.Some? {
      return Replayed(found.value.value), own, at;
    }
    ghost var sofar := store.trace;
    ghost var rest: seq<Action>;
    reply, rest := RunAndStore(store, r, key);
    own := [get] + rest;
    Sequences.Cons(get, rest);
    Sequences.Associates(before, [get], rest);
    Sequences.PrefixKept(sofar, store.trace, at);
  }

  method RunAndStore(store: RedisStore, r: Request, key: Key) returns (reply: Reply, ghost own: seq<Action>)
    requires store.Standing(r, key, Starting)
    modifies store
    ensures store.Standing(r, key, Unlocking) && old(store.trace) <= store.trace
    ensures Own(store.trace, r) == Own(old(store.trace), r) + own
    ensures RunShape(own, r, reply) && !reply.Replayed?
  {
    hide Legal, After, Own;
    ghost var before := Own(store.trace, r);
    var response := store.RunHandler(r, key);
    own := [Start(r), Finish(r, response)];
    assert before + [Start(r)] + [Finish(r, response)] == before + own;
    if response.None? {
      return Failed, own;
    }
    ghost var applied;
    var ok;
    ok, applied := store.Store(r, key, response.value);
    assert before + own + [Store(r, applied, ok)] == before + [Start(r), Finish(r, response), Store(r, applied, ok)];
    own := [Start(r), Finish(r, response), Store(r, applied, ok)];
    reply := if ok then Answered(response.value) else Failed;
  }

  /** A request with its key header; None for a header that is no UUID. */
  datatype KeyHeader = Missing | Unparsable | Given(key: Key)

  /** Everything a request with a key does: one lock attempt, and only after a lock that worked a visit that ends in
      one unlock. */
  ghost predicate RequestShape(own: seq<Action>, r: Request, key: Key, reply: Reply, stored: map<Key, Bytes>) {
    && own != [] && own[0].Lock? && own[0].r == r
    && match own[0].reply
       case AlreadyLocked => |own| == 1 && reply == Locked
       case LockFailed(_) => |own| == 1 && reply == Failed
       case Acquired => exists visit, applied ::
         own == [own[0]] + visit + [Unlock(r, applied)] && InsideShape(visit, r, key, reply, stored)
  }

  /** `lockAt` is where in the run the lock attempt was, `getAt` where the get was if there was one. */
  method Handle(store: RedisStore, r: Request, header: KeyHeader, skipMissing: bool)
    returns (reply: Reply, ghost own: seq<Action>, ghost lockAt: nat, ghost getAt: nat)
    requires store.Valid() && (header.Given? ==> store.Standing(r, header.key, Locking))
    modifies store
    ensures store.Valid()
    ensures Own(store.trace, r) == Own(old(store.trace), r) + own
    ensures header.Missing? ==> own == [] && reply == if skipMissing then PassedThrough else InvalidKey
    ensures header.Unparsable? ==> own == [] && reply == InvalidKey
    ensures header.Given? ==>
      && own != [] && store.Took(lockAt, own[0]) && own[0].Lock?
      && (own[0].reply.LockFailed? || (own[0].reply.Acquired? <==> header.key !in store.StateAt(lockAt).locks))
      && getAt < |store.trace| && Legal(store.origin, store.guarded, store.trace[..getAt])
      && (|own| > 1 ==> store.Took(getAt, own[1]))
      && RequestShape(own, r, header.key, reply, store.StateAt(getAt).store)
  {
    hide Legal, After, Own, InsideShape;
    lockAt, getAt := 0, 0;
    if header.Missing? {
      return if skipMissing then PassedThrough else InvalidKey, [], 0, 0;
    }
    if header.Unparsable? {
      return InvalidKey, [], 0, 0;
    }
    ghost var before := Own(store.trace, r);
    var lock;
    lock, lockAt := store.Lock(r, header.key);
    getAt := lockAt;
    own := [Action.Lock(r, lock)];
    if lock.AlreadyLocked? {
      return Locked, own, lockAt, getAt;
    }
    if lock.LockFailed? {
      return Failed, own, lockAt, getAt;
    }
    ghost var locked := store.trace;
    ghost var visit;
    reply, visit, getAt := Visit(store, r, header.key);
    ghost var visited := store.trace;
    ghost var applied := store.Unlock(r, header.key);
    own := [Action.Lock(r, Acquired)] + visit + [Action.Unlock(r, applied)];
    Joined(before, Action.Lock(r, Acquired), visit, Action.Unlock(r, applied));
    Sequences.PrefixKept(locked, store.trace, lockAt);
    Sequences.PrefixKept(visited, store.trace, getAt);
  }

  lemma Joined(before: seq<Action>, first: Action, visit: seq<Action>, last: Action)
    requires |visit| >= 1
    ensures before + [first] + visit + [last] == before + ([first] + visit + [last])
    ensures var own := [first] + visit + [last]; |own| > 1 && own[0] == first && own[1] == visit[0]
  {
  }
}
