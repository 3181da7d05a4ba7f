/** What each delivery does next, operation by operation, read off the code and not off the step relation; that no
    delivery stops short of a verdict; and that a verdict takes effect. */
module ProcessedLogOrder {
  import opened Wrappers
  import opened ProcessedLog
  import opened ProcessedLogProofs
  import opened ProcessedLogTheorems
  import Sequences

  // ----- The order of a delivery's operations

  /** The operation that the code goes on to after operation a, which was taken in state s. */
  ghost predicate Follows(s: State, a: Action, b: Action)
    requires Actor(a).Some? && Actor(a).value in s.attempts && s.attempts[Actor(a).value].msg in s.msgs
  {
    var m := Msg(s, Actor(a).value);
    match a
    case Inspect(_) =>
      if m.id == "" then b.Term?
      else if m.notBefore.Some? && s.now < m.notBefore.value then b.Nak?
      else if s.logOn then b.Create? else b.Decode?
    case Create(_, reply) => if reply.Created? then b.Decode? else if reply.KeyExists? then b.Get? else b.Nak?
    case Get(_, ok) => if ok && m.id in s.kv && s.kv[m.id] == Processed then b.Term? else b.Nak?
    case Decode(_) => if m.decodable then b.Take? else b.Nak?
    case Take(_, registered) => if registered then b.Return? else b.Term?
    case Return(_, outcome) =>
      (match outcome
       case Succeeded => if s.logOn then b.Put? else b.DoubleAck?
       case SkipRetry => b.Term?
       case DeadLetter => b.Term?
       case Failed => if s.logOn then b.Delete? else b.Nak?)
    case Put(_, _, ok) => if ok then b.DoubleAck? else b.Put?
    case DoubleAck(_, _, ok) => !ok && if s.logOn then b.Put? else b.DoubleAck?
    case Delete(_, _) => b.Nak?
    case _ => false
  }

  /** Where the step relation leaves a delivery after its operation, only operations that follow are possible. */
  lemma NextOperation(s: State, ttl: Ttl, a: Action, u: State, b: Action)
    requires Enabled(s, ttl, a) && Enabled(u, ttl, b) && Actor(a).Some? && Actor(b) == Actor(a) && !b.Crash?
    requires Actor(a).value in s.attempts && s.attempts[Actor(a).value].msg in s.msgs
    requires u.logOn == s.logOn && Actor(a).value in u.attempts && u.attempts[Actor(a).value].pc == NextPc(s, a)
    ensures Follows(s, a, b)
  {
  }

  /** Operation j is the next one of the delivery that took operation i. */
  ghost predicate Consecutive(acts: seq<Action>, i: nat, j: nat) {
    && i < j < |acts| && Actor(acts[i]).Some? && Actor(acts[j]) == Actor(acts[i])
    && forall k | i < k < j :: Actor(acts[k]) != Actor(acts[i])
  }

  /** From just after its operation i on, a delivery stands still until it acts again. */
  lemma {:induction false} StandsStill(s: State, ttl: Ttl, acts: seq<Action>, i: nat)
    requires WellFormed(s) && Legal(s, ttl, acts) && i < |acts| && Actor(acts[i]).Some? && Legal(s, ttl, acts[..i])
    requires forall k | i < k < |acts| :: Actor(acts[k]) != Actor(acts[i])
    ensures Enabled(After(s, ttl, acts[..i]), ttl, acts[i]) && Enabled(After(s, ttl, acts[..i]), Arbitrary, acts[i])
    ensures WellFormed(After(s, ttl, acts[..i])) && WellFormed(After(s, ttl, acts))
    ensures var d := Actor(acts[i]).value;
      && d in After(s, ttl, acts[..i]).attempts && d in After(s, ttl, acts).attempts
      && After(s, ttl, acts).attempts[d].pc == NextPc(After(s, ttl, acts[..i]), acts[i])
    ensures After(s, ttl, acts).logOn == After(s, ttl, acts[..i]).logOn == s.logOn
    decreases |acts|
  {
    var pre := acts[..|acts| - 1];
    var last := acts[|acts| - 1];
    RunIsWellFormed(s, ttl, pre);
    StepIsLocal(After(s, ttl, pre), ttl, last);
    if i == |acts| - 1 {
      hide Next;
      StepOfActor(After(s, ttl, pre), ttl, last);
    } else {
      assert pre[..i] == acts[..i];
      StandsStill(s, ttl, pre, i);
      hide Next, Enabled, NextPc;
    }
  }

  lemma StepOfActor(s: State, ttl: Ttl, a: Action)
    requires WellFormed(s) && Enabled(s, ttl, a) && Actor(a).Some?
    ensures Enabled(s, Arbitrary, a) && Actor(a).value in s.attempts
    ensures Actor(a).value in Next(s, a).attempts && Next(s, a).attempts[Actor(a).value].pc == NextPc(s, a)
  {
    hide NextPc, NextKv, NextMsgs, Forwarded, NewSuccess, NewlyAbandoned, NewlyMarked;
  }

  lemma {:induction false} RunIsWellFormed(s: State, ttl: Ttl, acts: seq<Action>)
    requires WellFormed(s) && Legal(s, ttl, acts)
    ensures WellFormed(After(s, ttl, acts)) && After(s, ttl, acts).logOn == s.logOn
    decreases |acts|
  {
    if acts != [] {
      RunIsWellFormed(s, ttl, acts[..|acts| - 1]);
      StepIsLocal(After(s, ttl, acts[..|acts| - 1]), ttl, acts[|acts| - 1]);
    }
  }

  /** A prefix of a legal run is legal. */
  lemma {:induction false} PrefixIsLegal(s: State, ttl: Ttl, acts: seq<Action>, n: nat)
    requires Legal(s, ttl, acts) && n <= |acts|
    ensures Legal(s, ttl, acts[..n])
    decreases |acts|
  {
    if n == |acts| {
      assert acts[..n] == acts;
    } else {
      assert acts[..|acts| - 1][..n] == acts[..n];
      PrefixIsLegal(s, ttl, acts[..|acts| - 1], n);
    }
  }

  lemma EnabledThere(s: State, ttl: Ttl, acts: seq<Action>, j: nat)
    requires Legal(s, ttl, acts) && j < |acts|
    ensures Legal(s, ttl, acts[..j]) && Enabled(After(s, ttl, acts[..j]), ttl, acts[j])
  {
    PrefixIsLegal(s, ttl, acts, j);
    PrefixIsLegal(s, ttl, acts, j + 1);
    Sequences.TakeOneMore(acts, j);
    hide Next, Enabled;
    Sequences.Snoc(acts[..j], acts[j]);
  }

  /** In every run, with any expiry: each operation of a delivery is the one that the code goes on to after the
      delivery's operation before, by the state that one was taken in; or its process dies. */
  lemma {:induction false} EachStepFollows(s: State, ttl: Ttl, acts: seq<Action>, i: nat, j: nat)
    requires Initial(s) && Legal(s, ttl, acts) && Consecutive(acts, i, j)
    ensures Legal(s, ttl, acts[..i])
    ensures var t := After(s, ttl, acts[..i]);
      && Actor(acts[i]).value in t.attempts && t.attempts[Actor(acts[i]).value].msg in t.msgs
      && (acts[j].Crash? || Follows(t, acts[i], acts[j]))
  {
    PrefixIsLegal(s, ttl, acts, i);
    EnabledThere(s, ttl, acts, j);
    Sequences.TakeTake(acts, i, j);
    hide Follows, Next, Enabled;
    StandsStill(s, ttl, acts[..j], i);
    if !acts[j].Crash? {
      NextOperation(After(s, ttl, acts[..i]), ttl, acts[i], After(s, ttl, acts[..j]), acts[j]);
    }
  }

  // ----- Nobody stops short

  /** The operations of one delivery in a run, in order. */
  function Own(acts: seq<Action>, d: Delivery): seq<Action>
    decreases |acts|
  {
    if acts == [] then []
    else
      var rest := Own(acts[..|acts| - 1], d);
      if Actor(acts[|acts| - 1]) == Some(d) then rest + [acts[|acts| - 1]] else rest
  }

  lemma OwnAppend(acts: seq<Action>, a: Action, d: Delivery)
    ensures Own(acts + [a], d) == if Actor(a) == Some(d) then Own(acts, d) + [a] else Own(acts, d)
  {
    Sequences.Snoc(acts, a);
  }

  /** An acknowledgement that did not work: a failed mark, or a failed message to the broker. */
  predicate FailedAck(a: Action) {
    (a.Put? && !a.ok) || (a.DoubleAck? && !a.ok)
  }

  function FailedAcks(own: seq<Action>): nat {
    if own == [] then 0
    else FailedAcks(own[..|own| - 1]) + if FailedAck(own[|own| - 1]) then 1 else 0
  }

  lemma FailedAcksSnoc(own: seq<Action>, a: Action)
    ensures FailedAcks(own + [a]) == FailedAcks(own) + if FailedAck(a) then 1 else 0
  {
    Sequences.Snoc(own, a);
  }

  /** The delivery has got its verdict, or failed to acknowledge for the third time, or its process died. */
  ghost predicate Ended(own: seq<Action>) {
    own != [] &&
    var last := own[|own| - 1];
    last.Term? || last.Nak? || last.Crash? || (last.DoubleAck? && last.ok) || (FailedAck(last) && FailedAcks(own) == 3)
  }

  /** How far a delivery is, by its operations so far. */
  ghost predicate OnCourse(pc: Pc, own: seq<Action>) {
    && (pc.Finished? ==> Ended(own))
    && (pc.Marking? || pc.Acking? ==> FailedAcks(own) == pc.attempt - 1)
    && (!pc.Marking? && !pc.Acking? && !pc.Finished? ==> FailedAcks(own) == 0)
    && FailedAcks(own) <= 3
  }

  lemma OperationKeepsOnCourse(s: State, ttl: Ttl, a: Action, own: seq<Action>)
    requires WellFormed(s) && Enabled(s, ttl, a) && Actor(a).Some? && Actor(a).value in s.attempts
    requires OnCourse(s.attempts[Actor(a).value].pc, own)
    ensures Enabled(s, Arbitrary, a) && OnCourse(NextPc(s, a), own + [a])
  {
    FailedAcksSnoc(own, a);
    Sequences.Snoc(own, a);
    hide FailedAcks;
  }

  lemma {:induction false} RunKeepsOnCourse(s: State, ttl: Ttl, acts: seq<Action>, d: Delivery)
    requires Initial(s) && Legal(s, ttl, acts) && d in After(s, ttl, acts).attempts
    ensures OnCourse(After(s, ttl, acts).attempts[d].pc, Own(acts, d))
    decreases |acts|
  {
    var pre := acts[..|acts| - 1];
    var a := acts[|acts| - 1];
    var t := After(s, ttl, pre);
    RunIsWellFormed(s, ttl, pre);
    StepIsLocal(t, ttl, a);
    Sequences.FrontAndLast(acts);
    OwnAppend(pre, a, d);
    if d in t.attempts {
      RunKeepsOnCourse(s, ttl, pre, d);
      if Actor(a) == Some(d) {
        OperationKeepsOnCourse(t, ttl, a, Own(pre, d));
        StepOfActor(t, ttl, a);
      }
      hide Next, OnCourse, NextPc, Own;
    } else {
      NobodyBefore(s, ttl, pre, d);
      NewcomerOnCourse(t, ttl, a, d);
      hide Next, OnCourse, NextPc, Own;
    }
  }

  lemma NewcomerOnCourse(t: State, ttl: Ttl, a: Action, d: Delivery)
    requires Enabled(t, ttl, a) && d !in t.attempts && d in Next(t, a).attempts
    ensures Actor(a) != Some(d) && Next(t, a).attempts[d].pc == Arrived && OnCourse(Arrived, [])
  {
    hide NextPc, NextKv, NextMsgs, Forwarded, NewSuccess, NewlyAbandoned, NewlyMarked;
  }

  lemma {:induction false} NobodyBefore(s: State, ttl: Ttl, acts: seq<Action>, d: Delivery)
    requires Initial(s) && Legal(s, ttl, acts) && d !in After(s, ttl, acts).attempts
    ensures Own(acts, d) == []
    decreases |acts|
  {
    if acts != [] {
      var pre := acts[..|acts| - 1];
      RunIsWellFormed(s, ttl, pre);
      StepIsLocal(After(s, ttl, pre), ttl, acts[|acts| - 1]);
      NobodyBefore(s, ttl, pre, d);
      hide Next, Enabled;
      if Actor(acts[|acts| - 1]).Some? {
        ActorIsKnown(After(s, ttl, pre), ttl, acts[|acts| - 1]);
      }
    }
  }

  lemma ActorIsKnown(s: State, ttl: Ttl, a: Action)
    requires Enabled(s, ttl, a) && Actor(a).Some?
    ensures Actor(a).value in s.attempts
  {
  }

  /** The log is on wherever an operation on it is next. */
  ghost predicate LogUsedRightly(s: State) {
    forall d | d in s.attempts && (s.attempts[d].pc.Marking? || s.attempts[d].pc.Releasing?) :: s.logOn
  }

  lemma {:induction false} RunUsesLogRightly(s: State, ttl: Ttl, acts: seq<Action>)
    requires Initial(s) && Legal(s, ttl, acts)
    ensures LogUsedRightly(After(s, ttl, acts))
    decreases |acts|
  {
    if acts != [] {
      var pre := acts[..|acts| - 1];
      RunUsesLogRightly(s, ttl, pre);
      RunIsWellFormed(s, ttl, pre);
      hide Next, Enabled;
      StepUsesLogRightly(After(s, ttl, pre), ttl, acts[|acts| - 1]);
    }
  }

  lemma StepUsesLogRightly(s: State, ttl: Ttl, a: Action)
    requires WellFormed(s) && LogUsedRightly(s) && Enabled(s, ttl, a)
    ensures LogUsedRightly(Next(s, a))
  {
    forall d | d in Next(s, a).attempts && (Next(s, a).attempts[d].pc.Marking? || Next(s, a).attempts[d].pc.Releasing?)
      ensures Next(s, a).logOn
    {
      StepMoves(s, ttl, a, d);
      hide Next;
    }
  }

  lemma OperationIsPossible(s: State, ttl: Ttl, d: Delivery) returns (a: Action)
    requires WellFormed(s) && LogUsedRightly(s) && d in s.attempts && !s.attempts[d].pc.Finished?
    ensures Enabled(s, ttl, a) && Actor(a) == Some(d) && !a.Crash?
  {
    match s.attempts[d].pc
    case Arrived => a := Inspect(d);
    case Claiming => a := Create(d, CreateFailed(false));
    case Checking => a := Get(d, false);
    case Terming => a := Term(d, true);
    case GivingUp => a := Term(d, true);
    case Naking => a := Nak(d);
    case Decoding => a := Decode(d);
    case Queued => a := Take(d, true);
    case Running => a := Return(d, Failed);
    case Marking(_) => a := Put(d, true, true);
    case Acking(_) => a := DoubleAck(d, true, true);
    case Releasing => a := Delete(d, true);
  }

  /** In every run, with any expiry: a delivery fails to acknowledge at most three times, and until it has its verdict,
      has failed for the third time or has lost its process, some operation of it other than a crash is possible. */
  lemma {:induction false} NobodyStopsShort(s: State, ttl: Ttl, acts: seq<Action>, d: Delivery) returns (a: Action)
    requires Initial(s) && Legal(s, ttl, acts) && d in After(s, ttl, acts).attempts
    ensures FailedAcks(Own(acts, d)) <= 3
    ensures !Ended(Own(acts, d)) ==> Enabled(After(s, ttl, acts), ttl, a) && Actor(a) == Some(d) && !a.Crash?
  {
    var t := After(s, ttl, acts);
    RunKeepsOnCourse(s, ttl, acts, d);
    RunUsesLogRightly(s, ttl, acts);
    RunIsWellFormed(s, ttl, acts);
    a := Crash(d);
    if !t.attempts[d].pc.Finished? {
      a := OperationIsPossible(t, ttl, d);
    }
  }

  // ----- Verdicts take effect

  /** A term or an acknowledgement that reaches the broker while the message is pending: what it does to the message. */
  lemma VerdictWorks(s: State, ttl: Ttl, a: Action)
    requires WellFormed(s) && Enabled(s, ttl, a) && (a.Term? || a.DoubleAck?) && a.applied && Msg(s, a.d).fate.Pending?
    ensures s.attempts[a.d].msg in Next(s, a).msgs
    ensures Next(s, a).msgs[s.attempts[a.d].msg].fate == if a.Term? then Termed else Acked
  {
    hide NextPc, NextAttempts, NextKv, Forwarded, NewSuccess, NewlyAbandoned, NewlyMarked;
  }

  lemma StepLeavesSettled(s: State, ttl: Ttl, a: Action, key: MsgKey)
    requires WellFormed(s) && Enabled(s, ttl, a) && key in s.msgs && !s.msgs[key].fate.Pending?
    ensures key in Next(s, a).msgs && Next(s, a).msgs[key] == s.msgs[key] && (a.Deliver? ==> a.key != key)
  {
    hide NextPc, NextAttempts, NextKv, Forwarded, NewSuccess, NewlyAbandoned, NewlyMarked;
  }

  /** A settled message stays as it is and is never delivered again, whatever happens. */
  lemma {:induction false} SettledForGood(s: State, ttl: Ttl, acts: seq<Action>, key: MsgKey)
    requires WellFormed(s) && Legal(s, ttl, acts) && key in s.msgs && !s.msgs[key].fate.Pending?
    ensures key in After(s, ttl, acts).msgs && After(s, ttl, acts).msgs[key] == s.msgs[key]
    ensures forall a | a in acts && a.Deliver? :: a.key != key
    decreases |acts|
  {
    if acts != [] {
      var pre := acts[..|acts| - 1];
      SettledForGood(s, ttl, pre, key);
      RunIsWellFormed(s, ttl, pre);
      hide Next, Enabled;
      StepLeavesSettled(After(s, ttl, pre), ttl, acts[|acts| - 1], key);
      Sequences.FrontAndLast(acts);
    }
  }

  lemma TermAfterGet(t: State, ttl: Ttl, d: Delivery)
    requires WellFormed(t) && Can(t, d, Checking)
    requires Msg(t, d).id in t.kv && t.kv[Msg(t, d).id] == Processed
    ensures Enabled(t, ttl, Get(d, true)) && Enabled(t, Arbitrary, Get(d, true))
    ensures var u := Next(t, Get(d, true));
      && WellFormed(u) && Enabled(u, ttl, Term(d, true)) && Msg(u, d) == Msg(t, d)
      && u.attempts[d].msg == t.attempts[d].msg
  {
  }

  /** A redelivery of an id that is marked processed leaves the broker: once its read of the claim works, it is termed
      and nothing else, and a term that reaches the broker takes the message away for good. */
  lemma {:induction false} ProcessedRedeliveryIsTermed(s: State, ttl: Ttl, acts: seq<Action>, d: Delivery)
    requires Initial(s) && s.logOn && Legal(s, ttl, acts) && Can(After(s, ttl, acts), d, Checking)
    requires var t := After(s, ttl, acts); Msg(t, d).id in t.kv && t.kv[Msg(t, d).id] == Processed
    requires Msg(After(s, ttl, acts), d).fate.Pending?
    ensures Legal(s, ttl, acts + [Get(d, true)])
    ensures forall b | Actor(b) == Some(d) && Enabled(After(s, ttl, acts + [Get(d, true)]), ttl, b) :: b.Term? || b.Crash?
    ensures Legal(s, ttl, acts + [Get(d, true)] + [Term(d, true)])
    ensures var key := After(s, ttl, acts).attempts[d].msg;
      var u := After(s, ttl, acts + [Get(d, true)] + [Term(d, true)]);
      key in u.msgs && u.msgs[key].fate == Termed
  {
    var t := After(s, ttl, acts);
    RunIsWellFormed(s, ttl, acts);
    TermAfterGet(t, ttl, d);
    Append(s, ttl, acts, Get(d, true));
    Append2(s, ttl, acts, Get(d, true), Term(d, true));
    VerdictWorks(Next(t, Get(d, true)), ttl, Term(d, true));
    forall b | Actor(b) == Some(d) && Enabled(Next(t, Get(d, true)), ttl, b) ensures b.Term? || b.Crash? {
      StepOfActor(t, ttl, Get(d, true));
      if !b.Crash? {
        NextOperation(t, ttl, Get(d, true), Next(t, Get(d, true)), b);
      }
    }
  }
}
