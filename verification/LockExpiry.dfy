/** Exactly when the expiry of a lock does harm. A lock that expires while its holder is inside, at whatever step,
    can lead to two requests inside and to a handler run after a response was stored; one that expires while
    nobody is inside cannot. */
module LockExpiry {
  import opened Fresh
  import opened Wrappers
  import opened Idempotency
  import opened IdempotencyProofs

  // ----- Single steps in constructed runs

  predicate Stands(s: State, r: Request, key: Key, pc: Pc) {
    r in s.requests && s.requests[r] == Attempt(key, pc)
  }

  /** Nobody but r was moved. */
  ghost predicate OthersSame(s: State, t: State, r: Request) {
    forall q | q in s.requests && q != r :: q in t.requests && t.requests[q] == s.requests[q]
  }

  /** u is where a run from s has got to. */
  ghost predicate Reached(s: State, acts: seq<Action>, u: State) {
    Legal(s, true, acts) && u == After(s, true, acts)
  }

  lemma Go(s: State, acts: seq<Action>, u: State, a: Action) returns (more: seq<Action>, v: State)
    requires Reached(s, acts, u) && Enabled(u, true, a)
    ensures Enabled(u, false, a) && more == acts + [a] && v == Next(u, a) && Reached(s, more, v)
  {
    EnabledUnguarded(u, true, a);
    hide Next, Enabled;
    Append(s, true, acts, a);
    more, v := acts + [a], Next(u, a);
  }

  lemma ArriveStep(u: State, q: Request, key: Key)
    requires q !in u.requests
    ensures Enabled(u, true, Arrive(q, key))
    ensures var v := Next(u, Arrive(q, key));
      Stands(v, q, key, Locking) && OthersSame(u, v, q) && v.locks == u.locks && v.store == u.store
  {
  }

  lemma LockStep(u: State, q: Request, key: Key)
    requires Stands(u, q, key, Locking) && key !in u.locks
    ensures Enabled(u, true, Lock(q, Acquired))
    ensures var v := Next(u, Lock(q, Acquired));
      Stands(v, q, key, Getting) && OthersSame(u, v, q) && v.store == u.store
  {
  }

  lemma UnlockStep(u: State, r: Request, key: Key)
    requires Stands(u, r, key, Unlocking)
    ensures Enabled(u, true, Unlock(r, true))
    ensures var v := Next(u, Unlock(r, true)); key !in v.locks && OthersSame(u, v, r) && v.store == u.store
  {
  }

  lemma MissStep(u: State, q: Request, key: Key)
    requires Stands(u, q, key, Getting) && key !in u.store
    ensures Enabled(u, true, Get(q, true, true))
    ensures var v := Next(u, Get(q, true, true));
      && Stands(v, q, key, Starting) && OthersSame(u, v, q) && v.store == u.store && v.locks == u.locks
  {
  }

  /** A new request gets the lock of a key that is not locked. */
  lemma Newcomer(s: State, acts: seq<Action>, u: State, key: Key)
    returns (more: seq<Action>, v: State, q: Request)
    requires Reached(s, acts, u) && key !in u.locks
    ensures Reached(s, more, v) && q !in u.requests && Stands(v, q, key, Getting)
    ensures OthersSame(u, v, q) && v.store == u.store
  {
    q := FreshNumber(u.requests.Keys);
    ArriveStep(u, q, key);
    hide Reached, Enabled, Next;
    var w;
    more, w := Go(s, acts, u, Arrive(q, key));
    LockStep(w, q, key);
    more, v := Go(s, more, w, Lock(q, Acquired));
  }

  // ----- A start after a store

  /** Guarded steps `pre` lead to a stored response for the key and, with that response still stored, guarded steps
      `post` to one more start of its handler. */
  ghost predicate RunsAfterStoreBy(u: State, pre: seq<Action>, post: seq<Action>, key: Key) {
    && Legal(u, true, pre) && key in After(u, true, pre).store
    && Legal(After(u, true, pre), true, post) && ExpireStore(key) !in post
    && After(After(u, true, pre), true, post).runs[key] > After(u, true, pre).runs[key]
  }

  /** b has found nothing stored, or is about to find that, and is on its way to store a response. */
  predicate OnItsWay(s: State, b: Request, key: Key) {
    b in s.requests && s.requests[b].key == key &&
    match s.requests[b].pc
    case Getting => true
    case Starting => true
    case Running => true
    case Storing(_) => true
    case _ => false
  }

  function StepsToStore(pc: Pc): nat {
    match pc
    case Getting => 4
    case Starting => 3
    case Running => 2
    case Storing(_) => 1
    case _ => 0
  }

  lemma WayStep(u: State, b: Request, key: Key) returns (a: Action)
    requires OnItsWay(u, b, key) && key !in u.store
    ensures Enabled(u, true, a) && Enabled(u, false, a) && OthersSame(u, Next(u, a), b)
    ensures u.requests[b].pc.Storing? ==> key in Next(u, a).store
    ensures !u.requests[b].pc.Storing? ==>
      && OnItsWay(Next(u, a), b, key) && key !in Next(u, a).store
      && StepsToStore(Next(u, a).requests[b].pc) < StepsToStore(u.requests[b].pc)
  {
    a := match u.requests[b].pc
         case Getting => Get(b, true, true)
         case Starting => Start(b)
         case Running => Finish(b, Some(""))
         case _ => Store(b, true, true);
  }

  /** b stores a response while a waits to start the handler. */
  lemma {:induction false} GoesOnToStore(s: State, acts: seq<Action>, u: State, a: Request, b: Request, key: Key)
    returns (more: seq<Action>, v: State)
    requires Reached(s, acts, u) && key !in u.store && a != b && Stands(u, a, key, Starting) && OnItsWay(u, b, key)
    ensures Reached(s, more, v) && key in v.store && Stands(v, a, key, Starting)
    decreases StepsToStore(u.requests[b].pc)
  {
    var step := WayStep(u, b, key);
    hide Reached, Enabled, Next, OnItsWay;
    more, v := Go(s, acts, u, step);
    if !u.requests[b].pc.Storing? {
      more, v := GoesOnToStore(s, more, v, a, b, key);
    }
  }

  lemma LateStart(v: State, a: Request, key: Key)
    requires Stands(v, a, key, Starting)
    ensures Legal(v, true, [Start(a)]) && After(v, true, [Start(a)]).runs[key] == v.runs[key] + 1
  {
    assert Legal(v, true, []);
    Append(v, true, [], Start(a));
    assert [] + [Start(a)] == [Start(a)];
  }

  lemma StoreThenStart(s: State, acts: seq<Action>, u: State, a: Request, b: Request, key: Key)
    returns (pre: seq<Action>, post: seq<Action>)
    requires Reached(s, acts, u) && key !in u.store && a != b && Stands(u, a, key, Starting) && OnItsWay(u, b, key)
    ensures RunsAfterStoreBy(s, pre, post, key)
  {
    var v;
    pre, v := GoesOnToStore(s, acts, u, a, b, key);
    LateStart(v, a, key);
    post := [Start(a)];
  }

  /** What the expiry itself does, and a removal of the stored response if there is one. */
  lemma LoseLock(t: State, key: Key)
    ensures Enabled(t, false, ExpireLock(key))
    ensures var u := Next(t, ExpireLock(key)); key !in u.locks && u.requests == t.requests && u.store == t.store
  {
  }

  lemma DropStored(s: State, key: Key) returns (acts: seq<Action>, u: State)
    ensures Reached(s, acts, u) && key !in u.store && u.locks == s.locks && u.requests == s.requests
  {
    assert Legal(s, true, []);
    acts, u := Go(s, [], s, ExpireStore(key));
  }

  /** The request that lost its lock has not yet started its handler: a new one overtakes it. */
  lemma EarlyHolder(s: State, acts: seq<Action>, u: State, r: Request, key: Key)
    returns (pre: seq<Action>, post: seq<Action>)
    requires Reached(s, acts, u) && key !in u.store && key !in u.locks
    requires Stands(u, r, key, Getting) || Stands(u, r, key, Starting)
    ensures RunsAfterStoreBy(s, pre, post, key)
  {
    hide Reached, RunsAfterStoreBy, Enabled, Next;
    var more, v := acts, u;
    if Stands(u, r, key, Getting) {
      MissStep(u, r, key);
      more, v := Go(s, acts, u, Get(r, true, true));
    }
    var w, q;
    more, w, q := Newcomer(s, more, v, key);
    pre, post := StoreThenStart(s, more, w, r, q, key);
  }

  /** It is running its handler or about to store: a new one is past its get by then. */
  lemma LateHolder(s: State, acts: seq<Action>, u: State, r: Request, key: Key)
    returns (pre: seq<Action>, post: seq<Action>)
    requires Reached(s, acts, u) && key !in u.store && key !in u.locks && OnItsWay(u, r, key)
    ensures RunsAfterStoreBy(s, pre, post, key)
  {
    hide Reached, RunsAfterStoreBy, Enabled, Next;
    var more, v, q := Newcomer(s, acts, u, key);
    MissStep(v, q, key);
    var w;
    more, w := Go(s, more, v, Get(q, true, true));
    pre, post := StoreThenStart(s, more, w, q, r, key);
  }

  /** It is about to unlock: that removes the lock of a new one, and a third gets in. */
  lemma LeavingHolder(s: State, acts: seq<Action>, u: State, r: Request, key: Key)
    returns (pre: seq<Action>, post: seq<Action>)
    requires Reached(s, acts, u) && key !in u.store && key !in u.locks && Stands(u, r, key, Unlocking)
    ensures RunsAfterStoreBy(s, pre, post, key)
  {
    hide Reached, RunsAfterStoreBy, Enabled, Next;
    var more, v, q := Newcomer(s, acts, u, key);
    UnlockStep(v, r, key);
    var w;
    more, w := Go(s, more, v, Unlock(r, true));
    pre, post := EarlyHolder(s, more, w, q, key);
  }

  /** From any state: if the lock of a key expires while some request is inside, a handler of the key can be started
      after a response was stored, although no other lock ever expires under its holder. */
  lemma {:induction false} ExpiryAllowsRunAfterStored(t: State, r: Request, key: Key)
    returns (pre: seq<Action>, post: seq<Action>)
    requires Inside(t, r, key)
    ensures Enabled(t, false, ExpireLock(key))
    ensures RunsAfterStoreBy(Next(t, ExpireLock(key)), pre, post, key)
  {
    LoseLock(t, key);
    hide Reached, RunsAfterStoreBy, Enabled, Next;
    var s := Next(t, ExpireLock(key));
    var acts, u := DropStored(s, key);
    match t.requests[r].pc
    case Getting => pre, post := EarlyHolder(s, acts, u, r, key);
    case Starting => pre, post := EarlyHolder(s, acts, u, r, key);
    case Running => pre, post := LateHolder(s, acts, u, r, key);
    case Storing(_) => pre, post := LateHolder(s, acts, u, r, key);
    case Unlocking => pre, post := LeavingHolder(s, acts, u, r, key);
  }

  // ----- Exactly then

  /** Nobody is inside, so the expiry is one that the guard allows. */
  lemma HarmlessExpiry(s: State, acts: seq<Action>, key: Key)
    requires Initial(s) && Legal(s, true, acts) && forall r :: !Inside(After(s, true, acts), r, key)
    ensures Enabled(After(s, true, acts), true, ExpireLock(key))
    ensures Enabled(After(s, true, acts), false, ExpireLock(key))
    ensures Legal(s, true, acts + [ExpireLock(key)])
    ensures After(s, true, acts + [ExpireLock(key)]) == Next(After(s, true, acts), ExpireLock(key))
  {
    Append(s, true, acts, ExpireLock(key));
  }

  /** From every state of a run in which no lock expired under its holder: if the lock of the key expires now, and
      no lock expires under its holder after that, a handler can be started while a response for the key is stored
      if and only if some request is inside on the key now. */
  lemma {:induction false} RunAfterStoredExactly(s: State, acts: seq<Action>, key: Key)
    requires Initial(s) && Legal(s, true, acts)
    ensures Enabled(After(s, true, acts), false, ExpireLock(key))
    ensures (exists pre, post :: RunsAfterStoreBy(Next(After(s, true, acts), ExpireLock(key)), pre, post, key)) <==>
      exists r :: Inside(After(s, true, acts), r, key)
  {
    var t := After(s, true, acts);
    LoseLock(t, key);
    if r :| Inside(t, r, key) {
      var pre, post := ExpiryAllowsRunAfterStored(t, r, key);
    } else {
      HarmlessExpiry(s, acts, key);
      forall pre, post ensures !RunsAfterStoreBy(Next(t, ExpireLock(key)), pre, post, key) {
        NeverRunsAfterStore(s, acts + [ExpireLock(key)], pre, post, key);
      }
    }
  }

  lemma NeverRunsAfterStore(s: State, acts: seq<Action>, pre: seq<Action>, post: seq<Action>, key: Key)
    requires Initial(s) && Legal(s, true, acts)
    ensures !RunsAfterStoreBy(After(s, true, acts), pre, post, key)
  {
    var u := After(s, true, acts);
    InitialIsExclusive(s, key);
    RunKeepsExclusive(s, acts);
    RunKeepsMiss(s, acts, key);
    hide *;
    if RunsAfterStoreBy(u, pre, post, key) {
      StoredBy(u, pre, post, key);
      RunKeepsExclusive(u, pre);
      RunKeepsMiss(u, pre, key);
      RunKeepsRuns(After(u, true, pre), post, key);
    }
  }

  lemma StoredBy(u: State, pre: seq<Action>, post: seq<Action>, key: Key)
    requires RunsAfterStoreBy(u, pre, post, key)
    ensures Legal(u, true, pre) && key in After(u, true, pre).store
    ensures Legal(After(u, true, pre), true, post) && ExpireStore(key) !in post
    ensures After(After(u, true, pre), true, post).runs[key] > After(u, true, pre).runs[key]
  {
  }

  /** Guarded steps lead to two requests inside on the key. */
  ghost predicate TwoInsideBy(u: State, acts: seq<Action>, key: Key) {
    Legal(u, true, acts) &&
    exists r, q :: r != q && Inside(After(u, true, acts), r, key) && Inside(After(u, true, acts), q, key)
  }

  lemma NewcomerJoins(t: State, r: Request, key: Key) returns (acts: seq<Action>)
    requires Inside(t, r, key)
    ensures Enabled(t, false, ExpireLock(key)) && TwoInsideBy(Next(t, ExpireLock(key)), acts, key)
  {
    LoseLock(t, key);
    var s := Next(t, ExpireLock(key));
    assert Reached(s, [], s);
    hide Next, Enabled;
    var v, q;
    acts, v, q := Newcomer(s, [], s, key);
    assert Inside(v, r, key) && Inside(v, q, key);
  }

  /** In the same way, that expiry can lead to two requests inside on the key if and only if one is inside now. */
  lemma {:induction false} TwoInsideExactly(s: State, acts: seq<Action>, key: Key)
    requires Initial(s) && Legal(s, true, acts)
    ensures Enabled(After(s, true, acts), false, ExpireLock(key))
    ensures (exists more :: TwoInsideBy(Next(After(s, true, acts), ExpireLock(key)), more, key)) <==>
      exists r :: Inside(After(s, true, acts), r, key)
  {
    var t := After(s, true, acts);
    LoseLock(t, key);
    if r :| Inside(t, r, key) {
      var more := NewcomerJoins(t, r, key);
    } else {
      HarmlessExpiry(s, acts, key);
      InitialIsExclusive(s, key);
      RunKeepsExclusive(s, acts + [ExpireLock(key)]);
      hide Next, Enabled;
      forall more ensures !TwoInsideBy(Next(t, ExpireLock(key)), more, key) {
        if Legal(Next(t, ExpireLock(key)), true, more) {
          RunKeepsExclusive(Next(t, ExpireLock(key)), more);
          assert KeyExclusive(After(Next(t, ExpireLock(key)), true, more), key);
        }
      }
    }
  }
}
