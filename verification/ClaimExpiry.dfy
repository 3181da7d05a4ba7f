/** Exactly when the expiry of a key does harm to the processed log. One key expires at an arbitrary moment, and from
    then on keys expire only as the guarantees assume: the lemmas say from which states that one expiry can lead to
    two live holders, to a "processed" entry that does not last, and to a second success. */
module ClaimExpiry {
  import opened Wrappers
  import opened ProcessedLog
  import opened ProcessedLogProofs
  import opened ProcessedLogTheorems

  // ----- Holders that can still do something to the log or to the successes of their id

  /** A holder whose payload does not decode, one that gives up and one at its last acknowledgement will leave the
      log alone from here on, and their handler has returned or is never called. */
  ghost predicate Meddles(s: State, d: Delivery, id: Id) {
    Holds(s, d, id) &&
    match s.attempts[d].pc
    case Decoding => Msg(s, d).decodable
    case Acking(attempt) => attempt < ACK_ATTEMPTS
    case GivingUp => false
    case _ => true
  }

  /** At most one such holder, and the key is there for it. */
  ghost predicate OneMeddler(s: State, id: Id) {
    && s.logOn && WellFormed(s)
    && (forall d, e | Meddles(s, d, id) && Meddles(s, e, id) :: d == e)
    && (forall d | Meddles(s, d, id) :: id in s.kv && (s.kv[id] == Processed ==> Settling(s.attempts[d].pc)))
  }

  lemma StepMakesMeddler(s: State, ttl: Ttl, a: Action, d: Delivery, id: Id)
    requires s.logOn && WellFormed(s) && Enabled(s, ttl, a) && Meddles(Next(s, a), d, id)
    ensures Meddles(s, d, id) || (a == Create(d, Created) && Msg(s, d).id == id && id !in s.kv)
    ensures Actor(a) != Some(d) ==> Next(s, a).attempts[d] == s.attempts[d]
  {
    StepMoves(s, ttl, a, d);
    hide Next;
  }

  /** Whoever is no meddler cannot change a key that is there. */
  lemma OutsiderLeavesKey(s: State, ttl: Ttl, a: Action, id: Id)
    requires s.logOn && WellFormed(s) && Enabled(s, ttl, a) && Actor(a).Some?
    requires Msg(s, Actor(a).value).id == id && !Meddles(s, Actor(a).value, id)
    ensures id in s.kv ==> id in NextKv(s, a) && NextKv(s, a)[id] == s.kv[id]
    ensures Forwarded(s, a) == multiset{} && NewSuccess(s, a) == multiset{}
  {
  }

  /** What a meddler's own step does. */
  lemma MeddlerStep(s: State, ttl: Ttl, a: Action, id: Id)
    requires OneMeddler(s, id) && Enabled(s, ttl, a) && Actor(a).Some? && Meddles(s, Actor(a).value, id)
    ensures var pc, next := s.attempts[Actor(a).value].pc, NextPc(s, a);
      && (HolderPc(next) ==> id in NextKv(s, a) && (NextKv(s, a)[id] == Processed ==> Settling(next)))
      && (Settling(pc) ==> id in NextKv(s, a) && (!HolderPc(next) || Settling(next)))
      && (s.kv[id] == Processed ==>
            id in NextKv(s, a) && NextKv(s, a)[id] == Processed && Forwarded(s, a) == multiset{})
      && NewSuccess(s, a) == (if a.Return? && a.outcome == Succeeded then multiset{id} else multiset{})
      && (a.Return? && a.outcome == Succeeded ==> !Settling(pc) && Settling(next) && id in NextKv(s, a))
      && (Settling(next) ==> Settling(pc) || (a.Return? && a.outcome == Succeeded))
  {
    hide NextMsgs, NextAttempts, NewlyAbandoned, NewlyMarked;
  }

  lemma ExpiryWithoutHolder(s: State, ttl: Ttl, a: Action, d: Delivery, id: Id)
    requires s.logOn && WellFormed(s) && ttl != Arbitrary && Enabled(s, ttl, a) && a == Expire(id)
    ensures !Meddles(Next(s, a), d, id)
  {
    if Meddles(Next(s, a), d, id) {
      StepMakesMeddler(s, ttl, a, d, id);
    }
  }

  lemma StepKeepsMeddler(s: State, ttl: Ttl, a: Action, d: Delivery, id: Id)
    requires OneMeddler(s, id) && ttl != Arbitrary && Enabled(s, ttl, a) && Meddles(Next(s, a), d, id)
    ensures id in Next(s, a).kv && (Next(s, a).kv[id] == Processed ==> Settling(Next(s, a).attempts[d].pc))
  {
    StepMakesMeddler(s, ttl, a, d, id);
    if a == Expire(id) {
      ExpiryWithoutHolder(s, ttl, a, d, id);
    } else if Actor(a).None? || Msg(s, Actor(a).value).id != id {
      StepKeepsOtherClaims(s, ttl, a, id);
    } else if Meddles(s, Actor(a).value, id) {
      MeddlerStep(s, ttl, a, id);
      assert Meddles(s, d, id);
      StepMoves(s, ttl, a, d);
    } else if Meddles(s, d, id) {
      OutsiderLeavesKey(s, ttl, a, id);
    }
    hide Enabled, NextPc, NextMsgs, NextAttempts, Forwarded, NewSuccess, NewlyAbandoned, NewlyMarked;
  }

  lemma StepKeepsOneMeddler(s: State, ttl: Ttl, a: Action, id: Id)
    requires OneMeddler(s, id) && ttl != Arbitrary && Enabled(s, ttl, a)
    ensures OneMeddler(Next(s, a), id)
  {
    var t := Next(s, a);
    StepIsLocal(s, ttl, a);
    hide Next, Enabled, Meddles;
    forall d | Meddles(t, d, id)
      ensures id in t.kv && (t.kv[id] == Processed ==> Settling(t.attempts[d].pc))
    {
      StepKeepsMeddler(s, ttl, a, d, id);
    }
    forall d, e | Meddles(t, d, id) && Meddles(t, e, id) ensures d == e {
      StepMakesMeddler(s, ttl, a, d, id);
      StepMakesMeddler(s, ttl, a, e, id);
    }
  }

  lemma {:induction false} RunKeepsOneMeddler(s: State, ttl: Ttl, acts: seq<Action>, id: Id)
    requires OneMeddler(s, id) && ttl != Arbitrary && Legal(s, ttl, acts)
    ensures OneMeddler(After(s, ttl, acts), id)
    decreases |acts|
  {
    if acts != [] {
      RunKeepsOneMeddler(s, ttl, acts[..|acts| - 1], id);
      hide OneMeddler, Next, Enabled;
      StepKeepsOneMeddler(After(s, ttl, acts[..|acts| - 1]), ttl, acts[|acts| - 1], id);
    }
  }

  // ----- Runs with one arbitrary expiry

  /** The state after the key expired, whoever holds it. */
  ghost function Lost(t: State, id: Id): State {
    Next(t, Expire(id))
  }

  lemma LostChangesOneKey(t: State, id: Id)
    requires WellFormed(t)
    ensures Enabled(t, Arbitrary, Expire(id)) && WellFormed(Lost(t, id))
    ensures var u := Lost(t, id);
      && id !in u.kv && u.logOn == t.logOn && u.attempts == t.attempts && u.msgs == t.msgs && u.successes == t.successes
      && forall d :: (Holds(u, d, id) <==> Holds(t, d, id)) && (Meddles(u, d, id) <==> Meddles(t, d, id))
  {
  }

  /** u is where a run from s has got to. */
  ghost predicate Reached(s: State, ttl: Ttl, acts: seq<Action>, u: State) {
    Legal(s, ttl, acts) && u == After(s, ttl, acts) && WellFormed(u) && u.logOn
  }

  lemma Go(s: State, ttl: Ttl, acts: seq<Action>, u: State, a: Action) returns (more: seq<Action>, v: State)
    requires Reached(s, ttl, acts, u) && Enabled(u, ttl, a)
    ensures Enabled(u, Arbitrary, a) && more == acts + [a] && v == Next(u, a) && Reached(s, ttl, more, v)
  {
    StepIsLocal(u, ttl, a);
    hide Next, Enabled;
    Append(s, ttl, acts, a);
    more, v := acts + [a], Next(u, a);
  }

  lemma {:induction false} RunKeepsWellFormed(s: State, ttl: Ttl, acts: seq<Action>)
    requires WellFormed(s) && Legal(s, ttl, acts)
    ensures WellFormed(After(s, ttl, acts))
    decreases |acts|
  {
    if acts != [] {
      RunKeepsWellFormed(s, ttl, acts[..|acts| - 1]);
      StepIsLocal(After(s, ttl, acts[..|acts| - 1]), ttl, acts[|acts| - 1]);
    }
  }

  predicate Stands(s: State, d: Delivery, id: Id, pc: Pc) {
    Can(s, d, pc) && Msg(s, d).id == id
  }

  /** No other delivery was moved, and the broker did nothing. */
  ghost predicate OthersSame(s: State, t: State, d: Delivery) {
    && (forall e | e in s.attempts && e != d :: e in t.attempts && t.attempts[e] == s.attempts[e])
    && t.msgs == s.msgs
  }

  /** A new delivery of a new message claims the id. */
  lemma Newcomer(s: State, ttl: Ttl, acts: seq<Action>, u: State, id: Id)
    returns (more: seq<Action>, v: State, b: Delivery)
    requires Reached(s, ttl, acts, u) && WellFormed(s) && id != "" && id !in u.kv
    ensures Reached(s, ttl, more, v) && NewcomerAt(u, v, b, id, Decoding) && v.successes == u.successes
  {
    hide Next, Enabled, NewcomerAt;
    more, b := ClaimAgain(s, ttl, acts, id);
    v := After(s, ttl, more);
    RunKeepsWellFormed(s, ttl, more);
    LogStaysOn(s, ttl, more);
    LogStaysOn(s, ttl, acts);
  }

  lemma NewcomerKeepsOthers(u: State, v: State, b: Delivery, id: Id, d: Delivery, pc: Pc)
    requires NewcomerAt(u, v, b, id, Decoding) && Stands(u, d, id, pc)
    ensures Stands(v, d, id, pc) && b != d
    ensures MaySucceed(v, b, id)
  {
  }

  lemma OthersStand(s: State, t: State, d: Delivery, e: Delivery, id: Id, pc: Pc)
    requires OthersSame(s, t, d) && e != d && Stands(s, e, id, pc)
    ensures Stands(t, e, id, pc)
  {
  }

  /** d's handler gets to run. */
  lemma {:induction false} BringToRunning(s: State, ttl: Ttl, acts: seq<Action>, u: State, d: Delivery, id: Id)
    returns (more: seq<Action>, v: State)
    requires Reached(s, ttl, acts, u) && MaySucceed(u, d, id)
    ensures Reached(s, ttl, more, v) && Stands(v, d, id, Running) && OthersSame(u, v, d) && v.kv == u.kv
    decreases if u.attempts[d].pc.Decoding? then 2 else if u.attempts[d].pc.Queued? then 1 else 0
  {
    if u.attempts[d].pc.Running? {
      more, v := acts, u;
    } else {
      var a := OnwardStep(u, ttl, d, id);
      hide Reached, Next, Enabled, MaySucceed, OthersSame;
      var w;
      more, w := Go(s, ttl, acts, u, a);
      more, v := BringToRunning(s, ttl, more, w, d, id);
      SameTwice(u, w, v, d);
    }
  }

  lemma SameTwice(u: State, w: State, v: State, d: Delivery)
    requires OthersSame(u, w, d) && OthersSame(w, v, d)
    ensures OthersSame(u, v, d)
  {
  }

  lemma OnwardStep(u: State, ttl: Ttl, d: Delivery, id: Id) returns (a: Action)
    requires MaySucceed(u, d, id) && !u.attempts[d].pc.Running?
    ensures Enabled(u, ttl, a) && Enabled(u, Arbitrary, a)
    ensures var v := Next(u, a); MaySucceed(v, d, id) && OthersSame(u, v, d) && v.kv == u.kv
    ensures u.attempts[d].pc.Queued? ==> Next(u, a).attempts[d].pc.Running?
    ensures u.attempts[d].pc.Decoding? ==> Next(u, a).attempts[d].pc.Queued?
  {
    a := if u.attempts[d].pc.Decoding? then Decode(d) else Take(d, true);
  }

  lemma FailStep(u: State, ttl: Ttl, d: Delivery, id: Id)
    requires Stands(u, d, id, Running) && u.logOn
    ensures Enabled(u, ttl, Return(d, Failed)) && Enabled(u, Arbitrary, Return(d, Failed))
    ensures var v := Next(u, Return(d, Failed)); Stands(v, d, id, Releasing) && OthersSame(u, v, d) && v.kv == u.kv
  {
  }

  lemma SucceedStep(u: State, ttl: Ttl, d: Delivery, id: Id)
    requires Stands(u, d, id, Running) && u.logOn
    ensures Enabled(u, ttl, Return(d, Succeeded)) && Enabled(u, Arbitrary, Return(d, Succeeded))
    ensures var v := Next(u, Return(d, Succeeded)); Stands(v, d, id, Marking(1)) && OthersSame(u, v, d)
  {
  }

  lemma MarkStep(u: State, ttl: Ttl, d: Delivery, id: Id, k: AckAttempt)
    requires Stands(u, d, id, Marking(k)) && u.logOn
    ensures Enabled(u, ttl, Put(d, true, true)) && Enabled(u, Arbitrary, Put(d, true, true))
    ensures var v := Next(u, Put(d, true, true)); id in v.kv && v.kv[id] == Processed && OthersSame(u, v, d)
  {
  }

  lemma LostAckStep(u: State, ttl: Ttl, d: Delivery, id: Id, k: AckAttempt)
    requires Stands(u, d, id, Acking(k)) && u.logOn && k < ACK_ATTEMPTS
    ensures Enabled(u, ttl, DoubleAck(d, false, false)) && Enabled(u, Arbitrary, DoubleAck(d, false, false))
    ensures var v := Next(u, DoubleAck(d, false, false)); Stands(v, d, id, Marking(k + 1)) && v.kv == u.kv
  {
  }

  lemma DeleteStep(u: State, ttl: Ttl, d: Delivery, id: Id)
    requires Stands(u, d, id, Releasing) && u.logOn
    ensures Enabled(u, ttl, Delete(d, true)) && Enabled(u, Arbitrary, Delete(d, true))
    ensures var v := Next(u, Delete(d, true)); id !in v.kv && OthersSame(u, v, d) && v.successes == u.successes
  {
  }

  // ----- "Processed" that does not last

  /** Steps lead to a nack whose delete takes away a "processed" entry of the id. */
  ghost predicate ErasesBy(s: State, ttl: Ttl, acts: seq<Action>, e: Delivery, id: Id) {
    && Legal(s, ttl, acts) && Stands(After(s, ttl, acts), e, id, Releasing) && After(s, ttl, acts).logOn
    && id in After(s, ttl, acts).kv && After(s, ttl, acts).kv[id] == Processed
  }

  /** The old holder is about to delete: a new one marks the id first. */
  lemma ReleasingErases(s: State, ttl: Ttl, acts: seq<Action>, u: State, d: Delivery, id: Id)
    returns (more: seq<Action>)
    requires Reached(s, ttl, acts, u) && WellFormed(s) && id != "" && id !in u.kv && Stands(u, d, id, Releasing)
    ensures ErasesBy(s, ttl, more, d, id)
  {
    var first: AckAttempt := 1;
    hide *;
    var v, b;
    more, v, b := Newcomer(s, ttl, acts, u, id);
    NewcomerKeepsOthers(u, v, b, id, d, Releasing);
    var w;
    more, w := BringToRunning(s, ttl, more, v, b, id);
    OthersStand(v, w, b, d, id, Releasing);
    ReachedIsLogged(s, ttl, more, w);
    SucceedStep(w, ttl, b, id);
    OthersStand(w, Next(w, Return(b, Succeeded)), b, d, id, Releasing);
    var x;
    more, x := Go(s, ttl, more, w, Return(b, Succeeded));
    ReachedIsLogged(s, ttl, more, x);
    MarkStep(x, ttl, b, id, first);
    OthersStand(x, Next(x, Put(b, true, true)), b, d, id, Releasing);
    var y;
    more, y := Go(s, ttl, more, x, Put(b, true, true));
    ErasesNow(s, ttl, more, y, d, id);
  }

  lemma ReachedIsLogged(s: State, ttl: Ttl, acts: seq<Action>, u: State)
    requires Reached(s, ttl, acts, u)
    ensures u.logOn && WellFormed(u)
  {
  }

  lemma ErasesNow(s: State, ttl: Ttl, acts: seq<Action>, u: State, e: Delivery, id: Id)
    requires Reached(s, ttl, acts, u) && Stands(u, e, id, Releasing) && id in u.kv && u.kv[id] == Processed
    ensures ErasesBy(s, ttl, acts, e, id)
  {
  }

  /** The old holder is about to mark: it marks the claim of a new one, whose handler then fails. */
  lemma MarkingErases(s: State, ttl: Ttl, acts: seq<Action>, u: State, d: Delivery, id: Id, k: AckAttempt)
    returns (more: seq<Action>, b: Delivery)
    requires Reached(s, ttl, acts, u) && WellFormed(s) && id != "" && id !in u.kv && Stands(u, d, id, Marking(k))
    ensures ErasesBy(s, ttl, more, b, id)
  {
    hide *;
    var v;
    more, v, b := Newcomer(s, ttl, acts, u, id);
    NewcomerKeepsOthers(u, v, b, id, d, Marking(k));
    var w;
    more, w := BringToRunning(s, ttl, more, v, b, id);
    OthersStand(v, w, b, d, id, Marking(k));
    ReachedIsLogged(s, ttl, more, w);
    FailStep(w, ttl, b, id);
    OthersStand(w, Next(w, Return(b, Failed)), b, d, id, Marking(k));
    var x;
    more, x := Go(s, ttl, more, w, Return(b, Failed));
    ReachedIsLogged(s, ttl, more, x);
    MarkStep(x, ttl, d, id, k);
    OthersStand(x, Next(x, Put(d, true, true)), d, b, id, Releasing);
    var y;
    more, y := Go(s, ttl, more, x, Put(d, true, true));
    ErasesNow(s, ttl, more, y, b, id);
  }

  lemma MeddlerErases(s: State, ttl: Ttl, d: Delivery, id: Id) returns (acts: seq<Action>, e: Delivery)
    requires s.logOn && WellFormed(s) && id != "" && id !in s.kv && Meddles(s, d, id)
    ensures ErasesBy(s, ttl, acts, e, id)
  {
    var pc := s.attempts[d].pc;
    WhereMeddlersStand(s, d, id);
    NothingYet(s, ttl);
    hide *;
    if pc.Releasing? {
      e := d;
      acts := ReleasingErases(s, ttl, [], s, d, id);
    } else if pc.Marking? {
      acts, e := MarkingErases(s, ttl, [], s, d, id, pc.attempt);
    } else if pc.Acking? {
      acts, e := AckingErases(s, ttl, d, id, pc.attempt);
    } else {
      e := d;
      acts := FailingErases(s, ttl, d, id);
    }
  }

  lemma WhereMeddlersStand(s: State, d: Delivery, id: Id)
    requires Meddles(s, d, id)
    ensures d in s.attempts && Stands(s, d, id, s.attempts[d].pc)
    ensures var pc := s.attempts[d].pc;
      || pc.Releasing? || pc.Marking? || (pc.Acking? && pc.attempt < ACK_ATTEMPTS) || MaySucceed(s, d, id)
  {
  }

  lemma NothingYet(s: State, ttl: Ttl)
    requires WellFormed(s) && s.logOn
    ensures Reached(s, ttl, [], s)
  {
  }

  /** The old holder's acknowledgement is lost, and it is about to mark again. */
  lemma AckingErases(s: State, ttl: Ttl, d: Delivery, id: Id, k: AckAttempt)
    returns (acts: seq<Action>, e: Delivery)
    requires s.logOn && WellFormed(s) && id != "" && id !in s.kv && Stands(s, d, id, Acking(k)) && k < ACK_ATTEMPTS
    ensures ErasesBy(s, ttl, acts, e, id)
  {
    var next: AckAttempt := k + 1;
    NothingYet(s, ttl);
    LostAckStep(s, ttl, d, id, k);
    hide *;
    var u;
    acts, u := Go(s, ttl, [], s, DoubleAck(d, false, false));
    acts, e := MarkingErases(s, ttl, acts, u, d, id, next);
  }

  /** The old holder's handler has not returned: it may fail, and then it is about to delete. */
  lemma FailingErases(s: State, ttl: Ttl, d: Delivery, id: Id) returns (acts: seq<Action>)
    requires s.logOn && WellFormed(s) && id != "" && id !in s.kv && MaySucceed(s, d, id)
    ensures ErasesBy(s, ttl, acts, d, id)
  {
    NothingYet(s, ttl);
    hide *;
    var u, v;
    acts, u := BringToRunning(s, ttl, [], s, d, id);
    ReachedIsLogged(s, ttl, acts, u);
    FailStep(u, ttl, d, id);
    acts, v := Go(s, ttl, acts, u, Return(d, Failed));
    acts := ReleasingErases(s, ttl, acts, v, d, id);
  }

  lemma OneMeddlerErasesNothing(s: State, ttl: Ttl, acts: seq<Action>, e: Delivery, id: Id)
    requires OneMeddler(s, id) && ttl != Arbitrary
    ensures !ErasesBy(s, ttl, acts, e, id)
  {
    if Legal(s, ttl, acts) {
      RunKeepsOneMeddler(s, ttl, acts, id);
      ReleasingOwnClaim(After(s, ttl, acts), e, id);
    }
  }

  lemma ReleasingOwnClaim(u: State, e: Delivery, id: Id)
    requires OneMeddler(u, id)
    ensures Stands(u, e, id, Releasing) ==> !(id in u.kv && u.kv[id] == Processed)
  {
    if Stands(u, e, id, Releasing) {
      assert Meddles(u, e, id);
    }
  }

  lemma NoMeddlerIsFine(t: State, id: Id)
    requires t.logOn && WellFormed(t) && forall d :: !Meddles(t, d, id)
    ensures OneMeddler(Lost(t, id), id)
  {
    LostChangesOneKey(t, id);
    hide Meddles, Next;
  }

  lemma RunIsLogged(s: State, acts: seq<Action>)
    requires Initial(s) && s.logOn && Legal(s, NotWhileHeld, acts)
    ensures After(s, NotWhileHeld, acts).logOn && WellFormed(After(s, NotWhileHeld, acts))
  {
    LogStaysOn(s, NotWhileHeld, acts);
    RunKeepsWellFormed(s, NotWhileHeld, acts);
  }

  /** From every state of a run in which keys expired only when nobody held them: if the key of the id expires now,
      and keys expire only when nobody holds them after that, a nack's delete can take away a "processed" entry if
      and only if some holder can still meddle. */
  lemma {:induction false} ErasureExactly(s: State, acts: seq<Action>, id: Id)
    requires Initial(s) && s.logOn && Legal(s, NotWhileHeld, acts) && id != ""
    ensures var t := After(s, NotWhileHeld, acts);
      && Enabled(t, Arbitrary, Expire(id))
      && ((exists more, e :: ErasesBy(Lost(t, id), NotWhileHeld, more, e, id)) <==> exists d :: Meddles(t, d, id))
  {
    var t := After(s, NotWhileHeld, acts);
    RunIsLogged(s, acts);
    hide *;
    LostChangesOneKey(t, id);
    if d :| Meddles(t, d, id) {
      var more, e := MeddlerErases(Lost(t, id), NotWhileHeld, d, id);
    } else {
      NoMeddlerIsFine(t, id);
      forall more, e ensures !ErasesBy(Lost(t, id), NotWhileHeld, more, e, id) {
        OneMeddlerErasesNothing(Lost(t, id), NotWhileHeld, more, e, id);
      }
    }
  }

  /** Steps lead to a "processed" entry, and more steps without its expiry to its loss, to another hand-over of the id
      to a worker, or to another success. */
  ghost predicate UndoesBy(s: State, ttl: Ttl, pre: seq<Action>, post: seq<Action>, id: Id) {
    && Legal(s, ttl, pre) && id in After(s, ttl, pre).kv && After(s, ttl, pre).kv[id] == Processed
    && Legal(After(s, ttl, pre), ttl, post) && Expire(id) !in post
    && !(var t := After(s, ttl, pre);
         var u := After(t, ttl, post);
         id in u.kv && u.kv[id] == Processed && u.forwards[id] == t.forwards[id] && u.successes[id] == t.successes[id])
  }

  lemma StepKeepsFinal(s: State, ttl: Ttl, a: Action, id: Id)
    requires OneMeddler(s, id) && id in s.kv && s.kv[id] == Processed && a != Expire(id) && Enabled(s, ttl, a)
    ensures var t := Next(s, a);
      id in t.kv && t.kv[id] == Processed && t.forwards[id] == s.forwards[id] && t.successes[id] == s.successes[id]
  {
    if Actor(a).None? || Msg(s, Actor(a).value).id != id {
      StepKeepsOtherClaims(s, ttl, a, id);
    } else if Meddles(s, Actor(a).value, id) {
      MeddlerStep(s, ttl, a, id);
      assert Settling(s.attempts[Actor(a).value].pc);
    } else {
      OutsiderLeavesKey(s, ttl, a, id);
    }
    hide NextKv, NextPc, NextMsgs, NextAttempts, NewlyAbandoned, NewlyMarked, Meddles;
  }

  lemma {:induction false} RunKeepsFinal(s: State, ttl: Ttl, acts: seq<Action>, id: Id)
    requires OneMeddler(s, id) && ttl != Arbitrary && id in s.kv && s.kv[id] == Processed
    requires Legal(s, ttl, acts) && Expire(id) !in acts
    ensures var t := After(s, ttl, acts);
      id in t.kv && t.kv[id] == Processed && t.forwards[id] == s.forwards[id] && t.successes[id] == s.successes[id]
    decreases |acts|
  {
    if acts != [] {
      var pre := acts[..|acts| - 1];
      assert acts[|acts| - 1] in acts;
      RunKeepsFinal(s, ttl, pre, id);
      RunKeepsOneMeddler(s, ttl, pre, id);
      hide OneMeddler, Next, Enabled;
      StepKeepsFinal(After(s, ttl, pre), ttl, acts[|acts| - 1], id);
    }
  }

  lemma ErasureUndoes(s: State, ttl: Ttl, acts: seq<Action>, e: Delivery, id: Id)
    requires ErasesBy(s, ttl, acts, e, id)
    ensures UndoesBy(s, ttl, acts, [Delete(e, true)], id)
  {
    var u := After(s, ttl, acts);
    DeleteStep(u, ttl, e, id);
    hide Next, Enabled, Stands;
    assert Legal(u, ttl, []);
    Append(u, ttl, [], Delete(e, true));
    assert [] + [Delete(e, true)] == [Delete(e, true)];
  }

  lemma MeddlerUndoes(s: State, ttl: Ttl, d: Delivery, id: Id) returns (pre: seq<Action>, post: seq<Action>)
    requires s.logOn && WellFormed(s) && id != "" && id !in s.kv && Meddles(s, d, id)
    ensures UndoesBy(s, ttl, pre, post, id)
  {
    hide *;
    var e;
    pre, e := MeddlerErases(s, ttl, d, id);
    ErasureUndoes(s, ttl, pre, e, id);
    post := [Delete(e, true)];
  }

  lemma OneMeddlerUndoesNothing(s: State, ttl: Ttl, pre: seq<Action>, post: seq<Action>, id: Id)
    requires OneMeddler(s, id) && ttl != Arbitrary
    ensures !UndoesBy(s, ttl, pre, post, id)
  {
    hide OneMeddler, Next, Enabled;
    if UndoesBy(s, ttl, pre, post, id) {
      RunKeepsOneMeddler(s, ttl, pre, id);
      RunKeepsFinal(After(s, ttl, pre), ttl, post, id);
    }
  }

  /** In the same way, that expiry can lead to a "processed" entry that does not stand, before it expires itself, if
      and only if some holder can still meddle. */
  lemma {:induction false} FinalityExactly(s: State, acts: seq<Action>, id: Id)
    requires Initial(s) && s.logOn && Legal(s, NotWhileHeld, acts) && id != ""
    ensures var t := After(s, NotWhileHeld, acts);
      && Enabled(t, Arbitrary, Expire(id))
      && ((exists pre, post :: UndoesBy(Lost(t, id), NotWhileHeld, pre, post, id)) <==> exists d :: Meddles(t, d, id))
  {
    var t := After(s, NotWhileHeld, acts);
    RunIsLogged(s, acts);
    hide *;
    LostChangesOneKey(t, id);
    if d :| Meddles(t, d, id) {
      var pre, post := MeddlerUndoes(Lost(t, id), NotWhileHeld, d, id);
    } else {
      NoMeddlerIsFine(t, id);
      forall pre, post ensures !UndoesBy(Lost(t, id), NotWhileHeld, pre, post, id) {
        OneMeddlerUndoesNothing(Lost(t, id), NotWhileHeld, pre, post, id);
      }
    }
  }

  // ----- A second success

  /** Steps lead to two successes of the id in all. */
  ghost predicate SucceedsTwiceBy(s: State, acts: seq<Action>, id: Id) {
    Legal(s, NotAfterSuccess, acts) && After(s, NotAfterSuccess, acts).successes[id] >= 2
  }

  /** At most one success, and it leaves the key and none but settling meddlers behind. */
  ghost predicate MeddledOnce(s: State, id: Id) {
    && OneMeddler(s, id)
    && s.successes[id] <= 1
    && (id in s.successes ==> id in s.kv && forall d | Meddles(s, d, id) :: Settling(s.attempts[d].pc))
    && (forall d | Meddles(s, d, id) && Settling(s.attempts[d].pc) :: id in s.successes)
  }

  lemma OthersKeepMeddledOnce(s: State, a: Action, id: Id)
    requires MeddledOnce(s, id) && Enabled(s, NotAfterSuccess, a)
    requires Actor(a).Some? ==> Msg(s, Actor(a).value).id != id
    ensures MeddledOnce(Next(s, a), id)
  {
    var t := Next(s, a);
    StepKeepsOneMeddler(s, NotAfterSuccess, a, id);
    assert t.successes[id] == s.successes[id];
    if a != Expire(id) {
      StepKeepsOtherClaims(s, NotAfterSuccess, a, id);
    }
    hide NextPc, NextMsgs, NextKv, NextAttempts, Forwarded, NewSuccess, NewlyAbandoned, NewlyMarked, Meddles;
    forall d | Meddles(t, d, id) ensures Meddles(s, d, id) && t.attempts[d] == s.attempts[d] {
      StepMakesMeddler(s, NotAfterSuccess, a, d, id);
    }
  }

  lemma OutsiderKeepsMeddledOnce(s: State, a: Action, id: Id)
    requires MeddledOnce(s, id) && Enabled(s, NotAfterSuccess, a)
    requires Actor(a).Some? && Msg(s, Actor(a).value).id == id && !Meddles(s, Actor(a).value, id)
    ensures MeddledOnce(Next(s, a), id)
  {
    var t := Next(s, a);
    StepKeepsOneMeddler(s, NotAfterSuccess, a, id);
    OutsiderLeavesKey(s, NotAfterSuccess, a, id);
    forall d | Meddles(t, d, id)
      ensures if Meddles(s, d, id) then t.attempts[d] == s.attempts[d] else id !in s.kv && t.attempts[d].pc == Decoding
    {
      OutsiderMakesMeddler(s, a, d, id);
    }
    hide NextPc, NextMsgs, NextKv, NextAttempts, Forwarded, NewSuccess, NewlyAbandoned, NewlyMarked, Meddles, Enabled;
  }

  lemma OutsiderMakesMeddler(s: State, a: Action, d: Delivery, id: Id)
    requires s.logOn && WellFormed(s) && Enabled(s, NotAfterSuccess, a) && Meddles(Next(s, a), d, id)
    requires Actor(a).Some? && !Meddles(s, Actor(a).value, id)
    ensures if Meddles(s, d, id) then Next(s, a).attempts[d] == s.attempts[d]
            else id !in s.kv && Next(s, a).attempts[d].pc == Decoding
  {
    StepMakesMeddler(s, NotAfterSuccess, a, d, id);
    hide Meddles;
  }

  lemma MeddlerKeepsMeddledOnce(s: State, a: Action, id: Id)
    requires MeddledOnce(s, id) && Enabled(s, NotAfterSuccess, a)
    requires Actor(a).Some? && Meddles(s, Actor(a).value, id)
    ensures MeddledOnce(Next(s, a), id)
  {
    var t := Next(s, a);
    var d := Actor(a).value;
    StepKeepsOneMeddler(s, NotAfterSuccess, a, id);
    MeddlerStep(s, NotAfterSuccess, a, id);
    forall e | Meddles(t, e, id) ensures e == d && t.attempts[d].pc == NextPc(s, a) && HolderPc(NextPc(s, a)) {
      StepMakesMeddler(s, NotAfterSuccess, a, e, id);
      StepMoves(s, NotAfterSuccess, a, e);
    }
    hide NextPc, NextMsgs, NextKv, NextAttempts, Forwarded, NewSuccess, NewlyAbandoned, NewlyMarked, Meddles, Enabled;
  }

  lemma {:induction false} RunKeepsMeddledOnce(s: State, acts: seq<Action>, id: Id)
    requires MeddledOnce(s, id) && Legal(s, NotAfterSuccess, acts)
    ensures MeddledOnce(After(s, NotAfterSuccess, acts), id)
    decreases |acts|
  {
    if acts != [] {
      var pre := acts[..|acts| - 1];
      RunKeepsMeddledOnce(s, pre, id);
      StepKeepsMeddledOnce(After(s, NotAfterSuccess, pre), acts[|acts| - 1], id);
      hide MeddledOnce, Next, Enabled;
    }
  }

  lemma StepKeepsMeddledOnce(s: State, a: Action, id: Id)
    requires MeddledOnce(s, id) && Enabled(s, NotAfterSuccess, a)
    ensures MeddledOnce(Next(s, a), id)
  {
    if Actor(a).None? || Msg(s, Actor(a).value).id != id {
      OthersKeepMeddledOnce(s, a, id);
    } else if Meddles(s, Actor(a).value, id) {
      MeddlerKeepsMeddledOnce(s, a, id);
    } else {
      OutsiderKeepsMeddledOnce(s, a, id);
    }
  }

  /** The id has succeeded, or a holder's handler may still return nil, or a holder is about to delete its key. */
  ghost predicate SuccessAtRisk(t: State, id: Id) {
    id in t.successes || exists d :: MaySucceed(t, d, id) || Stands(t, d, id, Releasing)
  }

  lemma NoRiskIsFine(t: State, id: Id)
    requires Exclusive(t) && SucceededOnce(t, id) && !SuccessAtRisk(t, id)
    ensures MeddledOnce(Lost(t, id), id)
  {
    forall d ensures !Meddles(t, d, id) {
      assert !MaySucceed(t, d, id) && !Stands(t, d, id, Releasing);
    }
    NoMeddlerIsFine(t, id);
    LostChangesOneKey(t, id);
  }

  lemma {:induction false} SuccessFromScratch(s: State, acts: seq<Action>, u: State, id: Id) returns (more: seq<Action>)
    requires Reached(s, NotAfterSuccess, acts, u) && id != "" && id !in u.kv && u.successes[id] >= 1
    ensures SucceedsTwiceBy(s, more, id)
  {
    hide Next, Enabled;
    more := SucceedFromScratch(s, NotAfterSuccess, acts, id);
  }

  lemma SuccessOfHolder(s: State, acts: seq<Action>, u: State, d: Delivery, id: Id) returns (more: seq<Action>)
    requires Reached(s, NotAfterSuccess, acts, u) && WellFormed(s) && id != "" && id !in u.kv && MaySucceed(u, d, id)
    ensures SucceedsTwiceBy(s, more, id)
  {
    hide Next, Enabled, MaySucceed, SucceedsTwiceBy;
    more := HolderSucceeds(s, NotAfterSuccess, acts, id, d);
    RunKeepsWellFormed(s, NotAfterSuccess, more);
    LogStaysOn(s, NotAfterSuccess, more);
    LogStaysOn(s, NotAfterSuccess, acts);
    more := SuccessFromScratch(s, more, After(s, NotAfterSuccess, more), id);
  }

  /** The old holder's delete frees the claim of a new one for a third. */
  lemma SuccessAfterRelease(s: State, d: Delivery, id: Id) returns (acts: seq<Action>)
    requires s.logOn && WellFormed(s) && id != "" && id !in s.kv && Stands(s, d, id, Releasing)
    ensures SucceedsTwiceBy(s, acts, id)
  {
    assert Reached(s, NotAfterSuccess, [], s);
    hide *;
    var u, b, v;
    acts, u, b := Newcomer(s, NotAfterSuccess, [], s, id);
    NewcomerKeepsOthers(s, u, b, id, d, Releasing);
    ReachedIsLogged(s, NotAfterSuccess, acts, u);
    DeleteStep(u, NotAfterSuccess, d, id);
    SuccessStillPossible(u, Next(u, Delete(d, true)), d, b, id);
    acts, v := Go(s, NotAfterSuccess, acts, u, Delete(d, true));
    acts := SuccessOfHolder(s, acts, v, b, id);
  }

  lemma SuccessStillPossible(u: State, v: State, d: Delivery, b: Delivery, id: Id)
    requires OthersSame(u, v, d) && b != d && MaySucceed(u, b, id)
    ensures MaySucceed(v, b, id)
  {
  }

  lemma RiskIsReal(t: State, id: Id) returns (acts: seq<Action>)
    requires t.logOn && WellFormed(t) && id != "" && SuccessAtRisk(t, id)
    ensures SucceedsTwiceBy(Lost(t, id), acts, id)
  {
    var s := Lost(t, id);
    LostChangesOneKey(t, id);
    assert Reached(s, NotAfterSuccess, [], s);
    hide Next, Enabled, SucceedsTwiceBy, Reached;
    if id in t.successes {
      acts := SuccessFromScratch(s, [], s, id);
    } else if d :| MaySucceed(t, d, id) {
      assert MaySucceed(s, d, id);
      acts := SuccessOfHolder(s, [], s, d, id);
    } else {
      var d :| Stands(t, d, id, Releasing);
      assert Stands(s, d, id, Releasing);
      acts := SuccessAfterRelease(s, d, id);
    }
  }

  /** From every state of a run that meets the assumption of AtMostOneSuccess: if the key of the id expires now, and
      the assumption is met again after that, the id can come to two successes if and only if it has succeeded, or
      some holder's handler may still return nil, or some holder is about to delete the key. */
  lemma {:induction false} SecondSuccessExactly(s: State, acts: seq<Action>, id: Id)
    requires Initial(s) && s.logOn && Legal(s, NotAfterSuccess, acts) && id != ""
    ensures var t := After(s, NotAfterSuccess, acts);
      && Enabled(t, Arbitrary, Expire(id))
      && ((exists more :: SucceedsTwiceBy(Lost(t, id), more, id)) <==> SuccessAtRisk(t, id))
  {
    var t := After(s, NotAfterSuccess, acts);
    RunKeepsExclusive(s, NotAfterSuccess, acts);
    RunKeepsSucceededOnce(s, acts, id);
    LostChangesOneKey(t, id);
    hide Next, Enabled, SuccessAtRisk;
    if SuccessAtRisk(t, id) {
      var more := RiskIsReal(t, id);
    } else {
      NoRiskIsFine(t, id);
      forall more ensures !SucceedsTwiceBy(Lost(t, id), more, id) {
        if Legal(Lost(t, id), NotAfterSuccess, more) {
          RunKeepsMeddledOnce(Lost(t, id), more, id);
        }
      }
    }
  }

  // ----- Two live holders

  ghost predicate TwoHoldersBy(s: State, acts: seq<Action>, id: Id) {
    Legal(s, NotWhileHeld, acts) &&
    exists d, e :: d != e && Holds(After(s, NotWhileHeld, acts), d, id) && Holds(After(s, NotWhileHeld, acts), e, id)
  }

  lemma HolderIsJoined(t: State, d: Delivery, id: Id) returns (acts: seq<Action>)
    requires t.logOn && WellFormed(t) && id != "" && Holds(t, d, id)
    ensures TwoHoldersBy(Lost(t, id), acts, id)
  {
    var s := Lost(t, id);
    LostChangesOneKey(t, id);
    assert Reached(s, NotWhileHeld, [], s) && Holds(s, d, id);
    hide Next, Enabled;
    var u, b;
    acts, u, b := Newcomer(s, NotWhileHeld, [], s, id);
    assert Holds(u, d, id) && Holds(u, b, id);
  }

  /** From every state of a run in which keys expired only when nobody held them, the expiry of the key can lead to
      two live holders if and only if there is one now. */
  lemma {:induction false} TwoHoldersExactly(s: State, acts: seq<Action>, id: Id)
    requires Initial(s) && s.logOn && Legal(s, NotWhileHeld, acts) && id != ""
    ensures var t := After(s, NotWhileHeld, acts);
      && Enabled(t, Arbitrary, Expire(id))
      && ((exists more :: TwoHoldersBy(Lost(t, id), more, id)) <==> exists d :: Holds(t, d, id))
  {
    var t := After(s, NotWhileHeld, acts);
    RunKeepsExclusive(s, NotWhileHeld, acts);
    LostChangesOneKey(t, id);
    if d :| Holds(t, d, id) {
      var more := HolderIsJoined(t, d, id);
    } else {
      StepKeepsExclusive(t, NotWhileHeld, Expire(id));
      hide Next, Enabled;
      forall more ensures !TwoHoldersBy(Lost(t, id), more, id) {
        if Legal(Lost(t, id), NotWhileHeld, more) {
          RunKeepsExclusive(Lost(t, id), NotWhileHeld, more);
        }
      }
    }
  }
}
