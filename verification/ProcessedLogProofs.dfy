/** Safety of the processed-log protocol over whole runs. */
module ProcessedLogProofs {
  import opened Wrappers
  import opened ProcessedLog

  // ----- Runs

  lemma Append(s: State, ttl: Ttl, acts: seq<Action>, a: Action)
    requires Legal(s, ttl, acts) && Enabled(After(s, ttl, acts), ttl, a)
    ensures Legal(s, ttl, acts + [a])
    ensures After(s, ttl, acts + [a]) == Next(After(s, ttl, acts), a)
  {
    assert (acts + [a])[..|acts + [a]| - 1] == acts;
  }

  // ----- Removal from the broker is always justified, whatever expires or crashes

  /** Why a message may leave the broker: it has no id, a handler for its id returned nil, or a delivery
      of this very message got a skip, dead-letter or no-handler verdict. */
  ghost predicate MayLeave(s: State, key: MsgKey)
    requires key in s.msgs
  {
    s.msgs[key].id == "" || s.msgs[key].id in s.successes || key in s.abandoned
  }

  ghost predicate AttemptJustified(s: State, d: Delivery)
    requires d in s.attempts && s.attempts[d].msg in s.msgs
  {
    var pc := s.attempts[d].pc;
    && (Settling(pc) ==> Msg(s, d).id in s.successes)
    && (pc.Acking? && s.logOn ==> Msg(s, d).id in s.marked)
    && (pc.Terming? ==> Msg(s, d).id == "" || Msg(s, d).id in s.successes)
    && (pc.GivingUp? ==> s.attempts[d].msg in s.abandoned)
  }

  ghost predicate Justified(s: State) {
    && WellFormed(s)
    && (forall id | id in s.kv && s.kv[id] == Processed :: id in s.successes && id in s.marked)
    && (forall d | d in s.attempts :: AttemptJustified(s, d))
    && (forall key | key in s.msgs && !s.msgs[key].fate.Pending? :: MayLeave(s, key))
    && (forall key | key in s.msgs && s.msgs[key].fate.Acked? && s.logOn :: s.msgs[key].id in s.marked)
  }

  lemma AttemptsAreLocal(s: State, ttl: Ttl, a: Action)
    requires WellFormed(s) && Enabled(s, ttl, a)
    ensures s.attempts.Keys <= NextAttempts(s, a).Keys
    ensures forall e | e in s.attempts :: NextAttempts(s, a)[e].msg == s.attempts[e].msg
    ensures forall e | e in s.attempts && Actor(a) != Some(e) :: NextAttempts(s, a)[e] == s.attempts[e]
    ensures forall e | e in NextAttempts(s, a) :: NextAttempts(s, a)[e].msg in s.msgs
  {
    hide NextPc;
  }

  lemma MessagesAreLocal(s: State, ttl: Ttl, a: Action)
    requires WellFormed(s) && Enabled(s, ttl, a)
    ensures s.msgs.Keys <= NextMsgs(s, a).Keys
    ensures forall k | k in s.msgs :: NextMsgs(s, a)[k] == s.msgs[k].(fate := NextMsgs(s, a)[k].fate)
  {
  }

  /** What a step leaves alone: other deliveries, what messages say, and the claims on other ids. */
  lemma StepIsLocal(s: State, ttl: Ttl, a: Action)
    requires WellFormed(s) && Enabled(s, ttl, a)
    ensures var t := Next(s, a);
      && WellFormed(t)
      && t.logOn == s.logOn && s.now <= t.now
      && s.attempts.Keys <= t.attempts.Keys
      && (forall e | e in s.attempts :: t.attempts[e].msg == s.attempts[e].msg)
      && (forall e | e in s.attempts && Actor(a) != Some(e) :: t.attempts[e] == s.attempts[e])
      && s.msgs.Keys <= t.msgs.Keys
      && (forall k | k in s.msgs :: t.msgs[k] == s.msgs[k].(fate := t.msgs[k].fate))
      && s.forwards <= t.forwards && s.successes <= t.successes
      && s.abandoned <= t.abandoned && s.marked <= t.marked
  {
    AttemptsAreLocal(s, ttl, a);
    MessagesAreLocal(s, ttl, a);
    hide NextAttempts, NextMsgs, NextKv, NextPc, Forwarded, NewSuccess, NewlyAbandoned, NewlyMarked;
  }

  /** Only a create, a mark, a delete or an expiry changes a claim, and only the actor's own. */
  lemma StepKeepsOtherClaims(s: State, ttl: Ttl, a: Action, id: Id)
    requires WellFormed(s) && Enabled(s, ttl, a)
    requires Actor(a).Some? ==> Msg(s, Actor(a).value).id != id
    requires a != Expire(id)
    ensures id in Next(s, a).kv <==> id in s.kv
    ensures id in s.kv ==> Next(s, a).kv[id] == s.kv[id]
  {
  }

  lemma StepKeepsClaimsJustified(s: State, ttl: Ttl, a: Action, id: Id)
    requires Justified(s) && Enabled(s, ttl, a)
    ensures var t := Next(s, a); id in t.kv && t.kv[id] == Processed ==> id in t.successes && id in t.marked
  {
    StepIsLocal(s, ttl, a);
    if a != Expire(id) && (Actor(a).Some? ==> Msg(s, Actor(a).value).id != id) {
      StepKeepsOtherClaims(s, ttl, a, id);
    } else if a.Put? {
      assert AttemptJustified(s, a.d);
    }
  }

  /** How a step moves one delivery, and that it keeps what the delivery's message says. */
  lemma StepMoves(s: State, ttl: Ttl, a: Action, d: Delivery)
    requires WellFormed(s) && Enabled(s, ttl, a) && d in Next(s, a).attempts
    ensures var t := Next(s, a);
      if d in s.attempts then
        && t.attempts[d] == (if Actor(a) == Some(d) then s.attempts[d].(pc := NextPc(s, a)) else s.attempts[d])
        && t.attempts[d].msg in t.msgs && Msg(t, d) == Msg(s, d).(fate := Msg(t, d).fate)
      else t.attempts[d].pc == Arrived
  {
    hide NextPc, NextKv, Forwarded, NewSuccess, NewlyAbandoned, NewlyMarked;
  }

  lemma SettlingIsJustified(s: State, ttl: Ttl, a: Action)
    requires Justified(s) && Enabled(s, ttl, a) && Actor(a).Some? && Settling(NextPc(s, a))
    ensures var id := Msg(s, Actor(a).value).id;
      && id in s.successes + NewSuccess(s, a)
      && (NextPc(s, a).Acking? && s.logOn ==> id in s.marked + NewlyMarked(s, a))
  {
    assert AttemptJustified(s, Actor(a).value);
    assert a.Return? || a.Put? || a.DoubleAck?;
  }

  lemma TermingIsJustified(s: State, ttl: Ttl, a: Action)
    requires Justified(s) && Enabled(s, ttl, a) && Actor(a).Some? && NextPc(s, a).Terming?
    ensures Msg(s, Actor(a).value).id == "" || Msg(s, Actor(a).value).id in s.successes
  {
    assert a.Inspect? || a.Get?;
  }

  lemma GivingUpIsJustified(s: State, ttl: Ttl, a: Action)
    requires Justified(s) && Enabled(s, ttl, a) && Actor(a).Some? && NextPc(s, a).GivingUp?
    ensures s.attempts[Actor(a).value].msg in s.abandoned + NewlyAbandoned(s, a)
  {
    assert a.Take? || a.Return?;
  }

  lemma ActorStaysJustified(s: State, ttl: Ttl, a: Action)
    requires Justified(s) && Enabled(s, ttl, a) && Actor(a).Some? && WellFormed(Next(s, a))
    ensures AttemptJustified(Next(s, a), Actor(a).value)
  {
    var d := Actor(a).value;
    assert d in Next(s, a).attempts;
    StepMoves(s, ttl, a, d);
    hide NextPc, NextMsgs, NextKv, NextAttempts, Forwarded, NewSuccess, NewlyAbandoned, NewlyMarked, Justified, Enabled;
    if Settling(NextPc(s, a)) {
      SettlingIsJustified(s, ttl, a);
    } else if NextPc(s, a).Terming? {
      TermingIsJustified(s, ttl, a);
    } else if NextPc(s, a).GivingUp? {
      GivingUpIsJustified(s, ttl, a);
    }
  }

  lemma StepKeepsAttemptJustified(s: State, ttl: Ttl, a: Action, d: Delivery)
    requires Justified(s) && Enabled(s, ttl, a)
    requires d in Next(s, a).attempts && WellFormed(Next(s, a))
    ensures AttemptJustified(Next(s, a), d)
  {
    StepIsLocal(s, ttl, a);
    if Actor(a) == Some(d) {
      ActorStaysJustified(s, ttl, a);
    } else if d in s.attempts {
      assert AttemptJustified(s, d);
      assert Next(s, a).attempts[d] == s.attempts[d];
    }
  }

  /** A message leaves the broker only by a term or an ack of one of its deliveries. */
  lemma StepThatRemoves(s: State, ttl: Ttl, a: Action, key: MsgKey)
    requires WellFormed(s) && Enabled(s, ttl, a)
    requires key in Next(s, a).msgs && !Next(s, a).msgs[key].fate.Pending?
    ensures key in s.msgs
    ensures Next(s, a).msgs[key].fate == s.msgs[key].fate ||
      (s.attempts[a.d].msg == key && ((a.Term? && Next(s, a).msgs[key].fate == Termed) || a.DoubleAck?))
  {
    hide NextPc, NextAttempts, NextKv, Forwarded, NewSuccess, NewlyAbandoned, NewlyMarked;
  }

  lemma RemovalNow(s: State, ttl: Ttl, a: Action, key: MsgKey)
    requires Justified(s) && Enabled(s, ttl, a) && (a.Term? || a.DoubleAck?) && s.attempts[a.d].msg == key
    ensures key in s.msgs && MayLeave(s, key)
    ensures a.DoubleAck? && s.logOn ==> s.msgs[key].id in s.marked
  {
    assert AttemptJustified(s, a.d);
  }

  lemma StepKeepsFateJustified(s: State, ttl: Ttl, a: Action, key: MsgKey)
    requires Justified(s) && Enabled(s, ttl, a)
    requires key in Next(s, a).msgs && !Next(s, a).msgs[key].fate.Pending?
    ensures MayLeave(Next(s, a), key)
    ensures Next(s, a).msgs[key].fate.Acked? && s.logOn ==> Next(s, a).msgs[key].id in Next(s, a).marked
  {
    StepIsLocal(s, ttl, a);
    StepThatRemoves(s, ttl, a, key);
    if Next(s, a).msgs[key].fate != s.msgs[key].fate {
      RemovalNow(s, ttl, a, key);
    } else {
      JustifiedSoFar(s, key);
    }
    hide Next, Justified, Enabled;
  }

  lemma JustifiedSoFar(s: State, key: MsgKey)
    requires Justified(s) && key in s.msgs && !s.msgs[key].fate.Pending?
    ensures MayLeave(s, key) && (s.msgs[key].fate.Acked? && s.logOn ==> s.msgs[key].id in s.marked)
  {
  }

  lemma {:induction false} StepKeepsJustified(s: State, ttl: Ttl, a: Action)
    requires Justified(s) && Enabled(s, ttl, a)
    ensures Justified(Next(s, a))
  {
    StepIsLocal(s, ttl, a);
    hide Next, Enabled;
    var t := Next(s, a);
    forall id | id in t.kv && t.kv[id] == Processed ensures id in t.successes && id in t.marked {
      StepKeepsClaimsJustified(s, ttl, a, id);
    }
    forall d | d in t.attempts ensures AttemptJustified(t, d) {
      StepKeepsAttemptJustified(s, ttl, a, d);
    }
    forall key | key in t.msgs && !t.msgs[key].fate.Pending?
      ensures MayLeave(t, key) && (t.msgs[key].fate.Acked? && t.logOn ==> t.msgs[key].id in t.marked)
    {
      StepKeepsFateJustified(s, ttl, a, key);
    }
  }

  lemma {:induction false} RunKeepsJustified(s: State, ttl: Ttl, acts: seq<Action>)
    requires Justified(s) && Legal(s, ttl, acts)
    ensures Justified(After(s, ttl, acts))
    decreases |acts|
  {
    if acts != [] {
      var pre := acts[..|acts| - 1];
      RunKeepsJustified(s, ttl, pre);
      StepKeepsJustified(After(s, ttl, pre), ttl, acts[|acts| - 1]);
    }
  }

  // ----- Exclusive claims

  ghost predicate HolderConsistent(s: State, d: Delivery, id: Id) {
    Holds(s, d, id) ==>
      var pc := s.attempts[d].pc;
      && id in s.kv
      && (s.kv[id] == Processed ==> Settling(pc))
      && (pc == Marking(1) ==> s.kv[id] == Processing)
      && (pc.Acking? ==> s.kv[id] == Processed)
  }

  ghost predicate Exclusive(s: State) {
    && s.logOn
    && WellFormed(s)
    && (forall d, e, id | Holds(s, d, id) && Holds(s, e, id) :: d == e)
    && (forall d, id :: HolderConsistent(s, d, id))
  }

  /** A step makes d a holder only if d already was one, or by a create that found the key absent. */
  lemma StepMakesHolder(s: State, ttl: Ttl, a: Action, d: Delivery, id: Id)
    requires Exclusive(s) && Enabled(s, ttl, a) && Holds(Next(s, a), d, id)
    ensures Holds(s, d, id) || (a == Create(d, Created) && Msg(s, d).id == id && id !in s.kv)
  {
    StepMoves(s, ttl, a, d);
    hide Next;
  }

  lemma ActorKeepsHolderConsistent(s: State, ttl: Ttl, a: Action, id: Id)
    requires Exclusive(s) && ttl != Arbitrary && Enabled(s, ttl, a) && Actor(a).Some?
    requires Holds(s, Actor(a).value, id)
    ensures HolderConsistent(Next(s, a), Actor(a).value, id)
  {
    hide NextMsgs, Forwarded, NewSuccess, NewlyAbandoned, NewlyMarked;
    assert HolderConsistent(s, Actor(a).value, id);
  }

  lemma OthersKeepHolderConsistent(s: State, ttl: Ttl, a: Action, d: Delivery, id: Id)
    requires Exclusive(s) && ttl != Arbitrary && Enabled(s, ttl, a) && Actor(a) != Some(d)
    requires Holds(s, d, id)
    ensures HolderConsistent(Next(s, a), d, id)
  {
    StepIsLocal(s, ttl, a);
    assert HolderConsistent(s, d, id);
    if Actor(a).Some? && Msg(s, Actor(a).value).id == id {
      assert !Holds(s, Actor(a).value, id);
      assert NextKv(s, a) == s.kv;
    } else {
      assert a != Expire(id);
      StepKeepsOtherClaims(s, ttl, a, id);
    }
  }

  lemma StepKeepsHolderConsistent(s: State, ttl: Ttl, a: Action, d: Delivery, id: Id)
    requires Exclusive(s) && ttl != Arbitrary && Enabled(s, ttl, a)
    ensures HolderConsistent(Next(s, a), d, id)
  {
    if Holds(Next(s, a), d, id) {
      StepMakesHolder(s, ttl, a, d, id);
      if Holds(s, d, id) {
        if Actor(a) == Some(d) {
          ActorKeepsHolderConsistent(s, ttl, a, id);
        } else {
          OthersKeepHolderConsistent(s, ttl, a, d, id);
        }
      }
    }
  }

  lemma StepKeepsOneHolder(s: State, ttl: Ttl, a: Action, d: Delivery, e: Delivery, id: Id)
    requires Exclusive(s) && Enabled(s, ttl, a)
    requires Holds(Next(s, a), d, id) && Holds(Next(s, a), e, id)
    ensures d == e
  {
    StepMakesHolder(s, ttl, a, d, id);
    StepMakesHolder(s, ttl, a, e, id);
    assert HolderConsistent(s, d, id) && HolderConsistent(s, e, id);
  }

  lemma StepKeepsExclusive(s: State, ttl: Ttl, a: Action)
    requires Exclusive(s) && ttl != Arbitrary && Enabled(s, ttl, a)
    ensures Exclusive(Next(s, a))
  {
    StepIsLocal(s, ttl, a);
    hide Next, Enabled;
    var t := Next(s, a);
    forall d, e, id | Holds(t, d, id) && Holds(t, e, id) ensures d == e {
      StepKeepsOneHolder(s, ttl, a, d, e, id);
    }
    forall d, id ensures HolderConsistent(t, d, id) {
      StepKeepsHolderConsistent(s, ttl, a, d, id);
    }
  }

  lemma {:induction false} RunKeepsExclusive(s: State, ttl: Ttl, acts: seq<Action>)
    requires Exclusive(s) && ttl != Arbitrary && Legal(s, ttl, acts)
    ensures Exclusive(After(s, ttl, acts))
    decreases |acts|
  {
    if acts != [] {
      var pre := acts[..|acts| - 1];
      RunKeepsExclusive(s, ttl, pre);
      StepKeepsExclusive(After(s, ttl, pre), ttl, acts[|acts| - 1]);
    }
  }

  // ----- Success happens at most once while the log keeps successful ids

  ghost predicate SucceededOnce(s: State, id: Id) {
    && s.successes[id] <= 1
    && (id in s.successes ==> id in s.kv && forall d | Holds(s, d, id) :: Settling(s.attempts[d].pc))
    && (forall d | Holds(s, d, id) && Settling(s.attempts[d].pc) :: id in s.successes)
  }

  lemma OthersKeepSucceededOnce(s: State, a: Action, id: Id)
    requires Exclusive(s) && SucceededOnce(s, id) && Enabled(s, NotAfterSuccess, a)
    requires Actor(a).Some? ==> Msg(s, Actor(a).value).id != id
    ensures SucceededOnce(Next(s, a), id)
  {
    var t := Next(s, a);
    StepIsLocal(s, NotAfterSuccess, a);
    if a != Expire(id) {
      StepKeepsOtherClaims(s, NotAfterSuccess, a, id);
    }
    assert t.successes[id] == s.successes[id];
    forall d | Holds(t, d, id)
      ensures Holds(s, d, id) && t.attempts[d] == s.attempts[d]
    {
      StepMakesHolder(s, NotAfterSuccess, a, d, id);
    }
  }

  /** What the holder's step does to its own claim and to the successes of its id. */
  lemma HolderStep(s: State, a: Action, id: Id)
    requires Exclusive(s) && SucceededOnce(s, id) && Enabled(s, NotAfterSuccess, a)
    requires Actor(a).Some? && Holds(s, Actor(a).value, id)
    ensures var settling := Settling(s.attempts[Actor(a).value].pc);
      && (s.successes + NewSuccess(s, a))[id] <= 1
      && (id in s.successes + NewSuccess(s, a) <==> settling || (a.Return? && a.outcome == Succeeded))
      && (settling || a.Return? ==> id in NextKv(s, a))
      && (Settling(NextPc(s, a)) ==> settling || (a.Return? && a.outcome == Succeeded))
      && (settling || (a.Return? && a.outcome == Succeeded) ==> !HolderPc(NextPc(s, a)) || Settling(NextPc(s, a)))
  {
    hide NextMsgs, Forwarded, NewlyAbandoned, NewlyMarked, NextAttempts;
    assert HolderConsistent(s, Actor(a).value, id);
  }

  lemma HolderKeepsSucceededOnce(s: State, a: Action, id: Id)
    requires Exclusive(s) && SucceededOnce(s, id) && Enabled(s, NotAfterSuccess, a)
    requires Actor(a).Some? && Holds(s, Actor(a).value, id)
    ensures SucceededOnce(Next(s, a), id)
  {
    var t := Next(s, a);
    var d := Actor(a).value;
    HolderStep(s, a, id);
    assert d in t.attempts;
    StepMoves(s, NotAfterSuccess, a, d);
    hide NextPc, NextMsgs, NextKv, NextAttempts, Forwarded, NewSuccess, NewlyAbandoned, NewlyMarked, Enabled;
    forall e | Holds(t, e, id) ensures e == d {
      StepMakesHolder(s, NotAfterSuccess, a, e, id);
      assert HolderConsistent(s, d, id);
    }
  }

  lemma OutsiderKeepsSucceededOnce(s: State, a: Action, id: Id)
    requires Exclusive(s) && SucceededOnce(s, id) && Enabled(s, NotAfterSuccess, a)
    requires Actor(a).Some? && Msg(s, Actor(a).value).id == id && !Holds(s, Actor(a).value, id)
    ensures SucceededOnce(Next(s, a), id)
  {
    var t := Next(s, a);
    var e := Actor(a).value;
    StepIsLocal(s, NotAfterSuccess, a);
    assert t.successes == s.successes;
    assert a.Create? || t.kv == s.kv;
    assert id in s.kv ==> id in t.kv;
    forall d | Holds(t, d, id)
      ensures if d == e then id !in s.kv && t.attempts[d].pc == Decoding
              else Holds(s, d, id) && t.attempts[d] == s.attempts[d]
    {
      StepMakesHolder(s, NotAfterSuccess, a, d, id);
    }
  }

  lemma {:induction false} StepKeepsSucceededOnce(s: State, a: Action, id: Id)
    requires Exclusive(s) && SucceededOnce(s, id) && Enabled(s, NotAfterSuccess, a)
    ensures SucceededOnce(Next(s, a), id)
  {
    if Actor(a).None? || Msg(s, Actor(a).value).id != id {
      OthersKeepSucceededOnce(s, a, id);
    } else if Holds(s, Actor(a).value, id) {
      HolderKeepsSucceededOnce(s, a, id);
    } else {
      OutsiderKeepsSucceededOnce(s, a, id);
    }
  }

  lemma {:induction false} RunKeepsSucceededOnce(s: State, acts: seq<Action>, id: Id)
    requires Exclusive(s) && SucceededOnce(s, id) && Legal(s, NotAfterSuccess, acts)
    ensures SucceededOnce(After(s, NotAfterSuccess, acts), id)
    decreases |acts|
  {
    if acts != [] {
      var pre := acts[..|acts| - 1];
      RunKeepsExclusive(s, NotAfterSuccess, pre);
      RunKeepsSucceededOnce(s, pre, id);
      StepKeepsSucceededOnce(After(s, NotAfterSuccess, pre), acts[|acts| - 1], id);
    }
  }

  // ----- A claim nobody works on

  /** The id is claimed as in progress, but no live delivery holds the claim and none is about to term its message. */
  ghost predicate Stale(s: State, id: Id) {
    && id in s.kv && s.kv[id] == Processing
    && (forall d :: !Holds(s, d, id))
    && (forall d | d in s.attempts && s.attempts[d].msg in s.msgs && Msg(s, d).id == id :: !s.attempts[d].pc.Terming?)
  }

  /** A delivery of the stale id goes nowhere but to a nak. */
  lemma StaleDeliveryNaks(s: State, ttl: Ttl, a: Action, id: Id)
    requires s.logOn && WellFormed(s) && Stale(s, id) && id != "" && Enabled(s, ttl, a)
    requires Actor(a).Some? && Msg(s, Actor(a).value).id == id
    ensures NextKv(s, a) == s.kv && NextMsgs(s, a) == s.msgs
    ensures Forwarded(s, a) == multiset{} && NewSuccess(s, a) == multiset{}
    ensures !HolderPc(NextPc(s, a)) && !NextPc(s, a).Terming?
  {
    assert !Holds(s, Actor(a).value, id);
  }

  /** Steps that are about other ids. */
  lemma StaleIgnoresOthers(s: State, ttl: Ttl, a: Action, id: Id)
    requires s.logOn && WellFormed(s) && Stale(s, id) && a != Expire(id) && Enabled(s, ttl, a)
    requires Actor(a).Some? ==> Msg(s, Actor(a).value).id != id
    ensures id in NextKv(s, a) && NextKv(s, a)[id] == s.kv[id]
    ensures Forwarded(s, a)[id] == 0 && NewSuccess(s, a)[id] == 0
    ensures forall k | k in s.msgs && s.msgs[k].id == id :: k in NextMsgs(s, a) && NextMsgs(s, a)[k] == s.msgs[k]
  {
    StepKeepsOtherClaims(s, ttl, a, id);
  }

  lemma StaleStaysIdle(s: State, ttl: Ttl, a: Action, id: Id, d: Delivery)
    requires s.logOn && WellFormed(s) && Stale(s, id) && id != "" && Enabled(s, ttl, a)
    requires WellFormed(Next(s, a)) && d in Next(s, a).attempts && Msg(Next(s, a), d).id == id
    ensures !HolderPc(Next(s, a).attempts[d].pc) && !Next(s, a).attempts[d].pc.Terming?
  {
    StepMoves(s, ttl, a, d);
    hide Next;
    if Actor(a) == Some(d) {
      StaleDeliveryNaks(s, ttl, a, id);
    } else if d in s.attempts {
      assert !Holds(s, d, id);
    }
  }

  lemma StepKeepsStale(s: State, ttl: Ttl, a: Action, id: Id)
    requires s.logOn && WellFormed(s) && Stale(s, id) && id != "" && a != Expire(id) && Enabled(s, ttl, a)
    ensures var t := Next(s, a);
      && Stale(t, id)
      && t.forwards[id] == s.forwards[id] && t.successes[id] == s.successes[id]
      && forall k | k in s.msgs && s.msgs[k].id == id :: t.msgs[k] == s.msgs[k]
  {
    var t := Next(s, a);
    StepIsLocal(s, ttl, a);
    if Actor(a).Some? && Msg(s, Actor(a).value).id == id {
      StaleDeliveryNaks(s, ttl, a, id);
    } else {
      StaleIgnoresOthers(s, ttl, a, id);
    }
    hide NextPc, NextMsgs, NextKv, NextAttempts, Forwarded, NewSuccess, NewlyAbandoned, NewlyMarked, Enabled;
    forall d | d in t.attempts && t.attempts[d].msg in t.msgs && Msg(t, d).id == id
      ensures !HolderPc(t.attempts[d].pc) && !t.attempts[d].pc.Terming?
    {
      StaleStaysIdle(s, ttl, a, id, d);
    }
  }

  lemma {:induction false} RunKeepsStale(s: State, ttl: Ttl, acts: seq<Action>, id: Id)
    requires s.logOn && WellFormed(s) && Stale(s, id) && id != ""
    requires Legal(s, ttl, acts) && Expire(id) !in acts
    ensures var t := After(s, ttl, acts);
      && t.logOn && WellFormed(t) && Stale(t, id)
      && t.forwards[id] == s.forwards[id] && t.successes[id] == s.successes[id]
      && forall k | k in s.msgs && s.msgs[k].id == id :: k in t.msgs && t.msgs[k] == s.msgs[k]
    decreases |acts|
  {
    if acts != [] {
      var pre := acts[..|acts| - 1];
      assert acts[|acts| - 1] in acts;
      RunKeepsStale(s, ttl, pre, id);
      StepIsLocal(After(s, ttl, pre), ttl, acts[|acts| - 1]);
      StepKeepsStale(After(s, ttl, pre), ttl, acts[|acts| - 1], id);
    }
  }

  // ----- Payloads that do not decode

  /** A delivery that got past the decoding of its payload. */
  predicate PastDecode(pc: Pc) {
    HolderPc(pc) && !pc.Decoding?
  }

  /** Only messages that decode get past decoding, get a verdict that gives up on them, or are acknowledged. */
  ghost predicate OnlyDecoded(s: State) {
    && WellFormed(s)
    && (forall d | d in s.attempts && PastDecode(s.attempts[d].pc) :: Msg(s, d).decodable)
    && (forall key | key in s.abandoned :: key in s.msgs && s.msgs[key].decodable)
    && (forall key | key in s.msgs && s.msgs[key].fate.Acked? :: s.msgs[key].decodable)
  }

  lemma ActorPastDecode(s: State, ttl: Ttl, a: Action)
    requires OnlyDecoded(s) && Enabled(s, ttl, a) && Actor(a).Some?
    ensures PastDecode(NextPc(s, a)) ==> Msg(s, Actor(a).value).decodable
    ensures NewlyAbandoned(s, a) != {} ==>
      NewlyAbandoned(s, a) == {s.attempts[Actor(a).value].msg} && Msg(s, Actor(a).value).decodable
    ensures a.DoubleAck? ==> Msg(s, a.d).decodable
  {
  }

  lemma DeliveryStaysDecoded(s: State, ttl: Ttl, a: Action, d: Delivery)
    requires OnlyDecoded(s) && Enabled(s, ttl, a) && WellFormed(Next(s, a))
    requires d in Next(s, a).attempts && PastDecode(Next(s, a).attempts[d].pc)
    ensures Msg(Next(s, a), d).decodable
  {
    StepMoves(s, ttl, a, d);
    hide Next;
    if Actor(a) == Some(d) {
      ActorPastDecode(s, ttl, a);
    }
  }

  lemma AckedStaysDecoded(s: State, ttl: Ttl, a: Action, key: MsgKey)
    requires OnlyDecoded(s) && Enabled(s, ttl, a) && key in Next(s, a).msgs && Next(s, a).msgs[key].fate.Acked?
    ensures Next(s, a).msgs[key].decodable
  {
    StepIsLocal(s, ttl, a);
    StepThatRemoves(s, ttl, a, key);
    if a.DoubleAck? {
      ActorPastDecode(s, ttl, a);
    }
    hide Next, Enabled;
  }

  lemma StepKeepsOnlyDecoded(s: State, ttl: Ttl, a: Action)
    requires OnlyDecoded(s) && Enabled(s, ttl, a)
    ensures OnlyDecoded(Next(s, a))
  {
    var t := Next(s, a);
    StepIsLocal(s, ttl, a);
    forall d | d in t.attempts && PastDecode(t.attempts[d].pc) ensures Msg(t, d).decodable {
      DeliveryStaysDecoded(s, ttl, a, d);
    }
    if Actor(a).Some? {
      ActorPastDecode(s, ttl, a);
    }
    forall key | key in t.msgs && t.msgs[key].fate.Acked? ensures t.msgs[key].decodable {
      AckedStaysDecoded(s, ttl, a, key);
    }
    forall key | key in t.abandoned ensures key in t.msgs && t.msgs[key].decodable {
      assert key in s.abandoned + NewlyAbandoned(s, a);
      assert key !in s.abandoned ==> NewlyAbandoned(s, a) != {};
    }
    hide NextPc, NextMsgs, NextKv, NextAttempts, Forwarded, NewSuccess, NewlyMarked, NewlyAbandoned, Enabled;
  }

  lemma {:induction false} RunKeepsOnlyDecoded(s: State, ttl: Ttl, acts: seq<Action>)
    requires OnlyDecoded(s) && Legal(s, ttl, acts)
    ensures OnlyDecoded(After(s, ttl, acts))
    decreases |acts|
  {
    if acts != [] {
      RunKeepsOnlyDecoded(s, ttl, acts[..|acts| - 1]);
      StepKeepsOnlyDecoded(After(s, ttl, acts[..|acts| - 1]), ttl, acts[|acts| - 1]);
    }
  }

  // ----- A processed claim

  lemma StepKeepsProcessed(s: State, ttl: Ttl, a: Action, id: Id)
    requires Exclusive(s) && id in s.kv && s.kv[id] == Processed && a != Expire(id) && Enabled(s, ttl, a)
    ensures var t := Next(s, a);
      id in t.kv && t.kv[id] == Processed && t.forwards[id] == s.forwards[id] && t.successes[id] == s.successes[id]
  {
    StepIsLocal(s, ttl, a);
    if Actor(a).Some? && Msg(s, Actor(a).value).id == id {
      assert HolderConsistent(s, Actor(a).value, id);
      assert HolderPc(s.attempts[Actor(a).value].pc) ==> Holds(s, Actor(a).value, id);
    } else {
      StepKeepsOtherClaims(s, ttl, a, id);
    }
  }

  lemma {:induction false} RunKeepsProcessed(s: State, ttl: Ttl, acts: seq<Action>, id: Id)
    requires Exclusive(s) && id in s.kv && s.kv[id] == Processed && ttl != Arbitrary
    requires Legal(s, ttl, acts) && Expire(id) !in acts
    ensures var t := After(s, ttl, acts);
      id in t.kv && t.kv[id] == Processed && t.forwards[id] == s.forwards[id] && t.successes[id] == s.successes[id]
    decreases |acts|
  {
    if acts != [] {
      var pre := acts[..|acts| - 1];
      assert acts[|acts| - 1] in acts;
      RunKeepsExclusive(s, ttl, pre);
      RunKeepsProcessed(s, ttl, pre, id);
      StepKeepsProcessed(After(s, ttl, pre), ttl, acts[|acts| - 1], id);
    }
  }

  // ----- Delayed messages

  /** A delivery that got past the delay check did so no earlier than its message is due. */
  ghost predicate OnTime(s: State) {
    && WellFormed(s)
    && forall d | d in s.attempts && PastDelayCheck(s.attempts[d].pc) ::
         Msg(s, d).notBefore.Some? ==> Msg(s, d).notBefore.value <= s.now
  }

  lemma {:induction false} RunKeepsOnTime(s: State, ttl: Ttl, acts: seq<Action>)
    requires OnTime(s) && Legal(s, ttl, acts)
    ensures OnTime(After(s, ttl, acts))
    decreases |acts|
  {
    if acts != [] {
      var pre := acts[..|acts| - 1];
      var a := acts[|acts| - 1];
      RunKeepsOnTime(s, ttl, pre);
      StepIsLocal(After(s, ttl, pre), ttl, a);
      StepKeepsOnTime(After(s, ttl, pre), ttl, a);
    }
  }

  predicate PastDelayCheck(pc: Pc) {
    HolderPc(pc) || pc.Claiming? || pc.Checking?
  }

  lemma StepKeepsOnTime(s: State, ttl: Ttl, a: Action)
    requires OnTime(s) && Enabled(s, ttl, a)
    ensures OnTime(Next(s, a))
  {
    StepIsLocal(s, ttl, a);
    forall d | d in Next(s, a).attempts && PastDelayCheck(Next(s, a).attempts[d].pc)
      ensures Msg(Next(s, a), d).notBefore.Some? ==> Msg(Next(s, a), d).notBefore.value <= Next(s, a).now
    {
      DeliveryStaysOnTime(s, ttl, a, d);
    }
    hide Next, Enabled;
  }

  lemma ActorOnTime(s: State, ttl: Ttl, a: Action)
    requires OnTime(s) && Enabled(s, ttl, a) && Actor(a).Some? && PastDelayCheck(NextPc(s, a))
    ensures var m := Msg(s, Actor(a).value); m.notBefore.Some? ==> m.notBefore.value <= s.now
  {
    assert PastDelayCheck(s.attempts[Actor(a).value].pc) || a.Inspect?;
  }

  lemma DeliveryStaysOnTime(s: State, ttl: Ttl, a: Action, d: Delivery)
    requires OnTime(s) && Enabled(s, ttl, a) && WellFormed(Next(s, a))
    requires d in Next(s, a).attempts && PastDelayCheck(Next(s, a).attempts[d].pc)
    ensures Msg(Next(s, a), d).notBefore.Some? ==> Msg(Next(s, a), d).notBefore.value <= Next(s, a).now
  {
    StepMoves(s, ttl, a, d);
    StepIsLocal(s, ttl, a);
    if Actor(a) == Some(d) {
      ActorOnTime(s, ttl, a);
    }
    hide Next, Enabled, NextPc, HolderPc;
  }
}
