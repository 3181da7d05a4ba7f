/** The code of the NATS driver and of the generic worker, operation by operation, running among
    arbitrary other deliveries. Every method is proved to follow the ProcessedLog step relation, so what
    ProcessedLogTheorems says of all runs holds of these programs. */
module NatsConsumer {
  import opened Wrappers
  import opened ProcessedLog
  import opened ProcessedLogOrder
  import opened ProcessedLogProofs
  import Sequences

  /** What one delivery can count on while others run: its own position, its message's content, the log setting. */
  ghost predicate SameFor(s: State, t: State, d: Delivery) {
    && d in s.attempts && d in t.attempts && t.attempts[d] == s.attempts[d]
    && s.attempts[d].msg in s.msgs && s.attempts[d].msg in t.msgs
    && Msg(t, d) == Msg(s, d).(fate := Msg(t, d).fate)
    && t.logOn == s.logOn && s.now <= t.now
  }

  lemma {:induction false} OthersLeaveAlone(s: State, ttl: Ttl, pre: seq<Action>, acts: seq<Action>, d: Delivery)
    requires pre <= acts && Legal(s, ttl, acts) && WellFormed(s)
    requires forall k | |pre| <= k < |acts| :: Actor(acts[k]) != Some(d)
    requires Legal(s, ttl, pre) && d in After(s, ttl, pre).attempts && WellFormed(After(s, ttl, pre))
    ensures SameFor(After(s, ttl, pre), After(s, ttl, acts), d)
    ensures WellFormed(After(s, ttl, acts))
    ensures Own(acts, d) == Own(pre, d)
    decreases |acts|
  {
    if |acts| == |pre| {
      assert acts == pre;
    } else {
      var shorter := acts[..|acts| - 1];
      OthersLeaveAlone(s, ttl, pre, shorter, d);
      StepIsLocal(After(s, ttl, shorter), ttl, acts[|acts| - 1]);
      hide Next, Enabled;
    }
  }

  /** The key-value store and the broker, shared by every consumer process. `trace` records every operation
      since `origin`; it is what the guarantees are stated over. */
  class Cluster {
    ghost const origin: State
    ghost const ttl: Ttl
    ghost var trace: seq<Action>
    var st: State

    ghost predicate Valid()
      reads this
    {
      Legal(origin, ttl, trace) && st == After(origin, ttl, trace) && WellFormed(origin) && WellFormed(st)
    }

    ghost predicate Standing(d: Delivery, pc: Pc)
      reads this
    {
      Valid() && Can(st, d, pc)
    }

    /** Operation number k of the run was `a`, and its delivery's message was known by then. */
    ghost predicate Took(k: nat, a: Action)
      reads this
    {
      && k < |trace| && trace[k] == a && Actor(a).Some? && Legal(origin, ttl, trace[..k])
      && Actor(a).value in After(origin, ttl, trace[..k]).attempts
      && After(origin, ttl, trace[..k]).attempts[Actor(a).value].msg in After(origin, ttl, trace[..k]).msgs
    }

    /** The state in which operation number k was taken. */
    ghost function StateAt(k: nat): State
      requires k <= |trace| && Legal(origin, ttl, trace[..k])
      reads this
    {
      After(origin, ttl, trace[..k])
    }

    constructor (s: State, ghost expiry: Ttl)
      requires WellFormed(s)
      ensures Valid() && st == s && trace == []
    {
      origin, ttl, trace, st := s, expiry, [], s;
    }

    /** Any legal operations of anyone but d, in any number. Callers learn nothing else. */
    method Interleave(ghost d: Delivery)
      requires Valid()
      modifies this
      ensures Valid()
      ensures old(trace) <= trace
      ensures forall k | |old(trace)| <= k < |trace| :: Actor(trace[k]) != Some(d)
    {
    }

    /** The rest of the world runs for a while before d's next operation. */
    method Pause(ghost d: Delivery)
      requires Valid() && d in st.attempts
      modifies this
      ensures Valid() && SameFor(old(st), st, d) && old(trace) <= trace
      ensures Own(trace, d) == Own(old(trace), d)
    {
      Interleave(d);
      OthersLeaveAlone(origin, ttl, old(trace), trace, d);
    }

    /** One atomic operation. */
    method Do(a: Action)
      requires Valid() && Enabled(st, ttl, a) && Actor(a).Some?
      modifies this
      ensures Valid() && trace == old(trace) + [a] && st == Next(old(st), a)
      ensures Own(trace, Actor(a).value) == Own(old(trace), Actor(a).value) + [a]
      ensures var d := Actor(a).value;
        && d in old(st).attempts && Enabled(old(st), Arbitrary, a)
        && st.attempts == old(st).attempts[d := old(st).attempts[d].(pc := NextPc(old(st), a))]
        && st.logOn == old(st).logOn && st.attempts[d].msg in st.msgs && old(st).attempts[d].msg in old(st).msgs
        && Msg(st, d) == Msg(old(st), d).(fate := Msg(st, d).fate)
    {
      StepIsLocal(st, ttl, a);
      Append(origin, ttl, trace, a);
      OwnAppend(trace, a, Actor(a).value);
      st := Next(st, a);
      trace := trace + [a];
    }

    /** Reads the id and the delay header against the clock. `at` is the number of the operation in the run. */
    method InspectHeaders(d: Delivery) returns (id: Id, notDue: bool, ghost at: nat)
      requires Standing(d, Arrived)
      modifies this
      ensures Valid() && st.logOn == old(st).logOn && old(trace) <= trace
      ensures Own(trace, d) == Own(old(trace), d) + [Inspect(d)]
      ensures Standing(d, if id == "" then Terming else if notDue then Naking else if st.logOn then Claiming else Decoding)
      ensures Took(at, Inspect(d)) && at + 1 == |trace|
      ensures var m := Msg(StateAt(at), d);
        && id == m.id && st.logOn == StateAt(at).logOn
        && (notDue <==> m.notBefore.Some? && StateAt(at).now < m.notBefore.value)
    {
      Pause(d);
      at := |trace|;
      id := Msg(st, d).id;
      notDue := Msg(st, d).notBefore.Some? && Msg(st, d).notBefore.value > st.now;
      Do(Inspect(d));
      assert trace[..at] == trace[..|trace| - 1];
    }

    method CreateKey(d: Delivery) returns (reply: CreateReply, ghost at: nat)
      requires Standing(d, Claiming)
      modifies this
      ensures Valid() && st.logOn == old(st).logOn && old(trace) <= trace
      ensures Own(trace, d) == Own(old(trace), d) + [Create(d, reply)]
      ensures Standing(d, if reply.Created? then Decoding else if reply.KeyExists? then Checking else Naking)
      ensures Took(at, Create(d, reply)) && at + 1 == |trace|
      ensures reply.CreateFailed? || (reply.Created? <==> Msg(StateAt(at), d).id !in StateAt(at).kv)
    {
      Pause(d);
      at := |trace|;
      var lost: bool := *;
      var applied: bool := *;
      if lost {
        reply := CreateFailed(applied && Msg(st, d).id !in st.kv);
      } else {
        reply := if Msg(st, d).id in st.kv then KeyExists else Created;
      }
      Do(Create(d, reply));
      assert trace[..at] == trace[..|trace| - 1];
    }

    /** None stands for an error, "key not found" included. */
    method GetKey(d: Delivery) returns (value: Option<KvState>, ghost ok: bool, ghost at: nat)
      requires Standing(d, Checking)
      modifies this
      ensures Valid() && st.logOn == old(st).logOn && old(trace) <= trace
      ensures Own(trace, d) == Own(old(trace), d) + [Get(d, ok)]
      ensures Standing(d, if value == Some(Processed) then Terming else Naking)
      ensures Took(at, Get(d, ok)) && at + 1 == |trace|
      ensures var s := StateAt(at);
        var id := Msg(s, d).id;
        value == if ok && id in s.kv then Some(s.kv[id]) else None
    {
      Pause(d);
      var works: bool := *;
      ok := works;
      at := |trace|;
      value := if works && Msg(st, d).id in st.kv then Some(st.kv[Msg(st, d).id]) else None;
      Do(Get(d, works));
      assert trace[..at] == trace[..|trace| - 1];
    }

    method PutProcessed(d: Delivery) returns (ok: bool, ghost applied: bool)
      requires Valid() && d in st.attempts && st.attempts[d].pc.Marking? && st.logOn
      modifies this
      ensures Valid() && st.logOn == old(st).logOn && old(trace) <= trace
      ensures Own(trace, d) == Own(old(trace), d) + [Put(d, applied, ok)] && (ok ==> applied)
      ensures var k := old(st).attempts[d].pc.attempt;
        Standing(d, if ok then Acking(k) else RetryAck(true, k))
    {
      Pause(d);
      var reply: bool := *;
      var effect: bool := *;
      ok, applied := reply, effect || reply;
      Do(Put(d, effect || reply, reply));
    }

    method SendDoubleAck(d: Delivery) returns (ok: bool, ghost applied: bool)
      requires Valid() && d in st.attempts && st.attempts[d].pc.Acking?
      modifies this
      ensures Valid() && st.logOn == old(st).logOn && old(trace) <= trace
      ensures Own(trace, d) == Own(old(trace), d) + [DoubleAck(d, applied, ok)] && (ok ==> applied)
      ensures var k := old(st).attempts[d].pc.attempt;
        Standing(d, if ok then Finished else RetryAck(st.logOn, k))
    {
      Pause(d);
      var reply: bool := *;
      var effect: bool := *;
      ok, applied := reply, effect || reply;
      Do(DoubleAck(d, effect || reply, reply));
    }

    method DeleteKey(d: Delivery) returns (ghost applied: bool)
      requires Standing(d, Releasing) && st.logOn
      modifies this
      ensures Valid() && st.logOn == old(st).logOn && old(trace) <= trace
      ensures Own(trace, d) == Own(old(trace), d) + [Delete(d, applied)]
      ensures Standing(d, Naking)
    {
      Pause(d);
      var effect: bool := *;
      applied := effect;
      Do(Delete(d, effect));
    }

    method SendTerm(d: Delivery) returns (ghost applied: bool)
      requires Standing(d, Terming) || Standing(d, GivingUp)
      modifies this
      ensures Valid() && st.logOn == old(st).logOn && old(trace) <= trace
      ensures Own(trace, d) == Own(old(trace), d) + [Term(d, applied)]
      ensures Standing(d, Finished)
    {
      Pause(d);
      var effect: bool := *;
      applied := effect;
      Do(Term(d, effect));
    }

    method SendNak(d: Delivery)
      requires Standing(d, Naking)
      modifies this
      ensures Valid() && st.logOn == old(st).logOn && old(trace) <= trace
      ensures Own(trace, d) == Own(old(trace), d) + [Nak(d)]
      ensures Standing(d, Finished)
    {
      Pause(d);
      Do(Nak(d));
    }

    /** A worker takes the message from the channel and looks its handler up. */
    method TakeMessage(d: Delivery, registered: bool)
      requires Standing(d, Queued)
      modifies this
      ensures Valid() && st.logOn == old(st).logOn && old(trace) <= trace
      ensures Own(trace, d) == Own(old(trace), d) + [Take(d, registered)]
      ensures Standing(d, if registered then Running else GivingUp)
    {
      Pause(d);
      Do(Take(d, registered));
    }

    /** Decodes the payload and, when that works, hands the message to the workers. */
    method DecodeAndForward(d: Delivery) returns (decoded: bool)
      requires Standing(d, Decoding)
      modifies this
      ensures Valid() && st.logOn == old(st).logOn && old(trace) <= trace
      ensures Own(trace, d) == Own(old(trace), d) + [Decode(d)]
      ensures Standing(d, if decoded then Queued else Naking)
      ensures decoded == Msg(st, d).decodable
    {
      Pause(d);
      decoded := Msg(st, d).decodable;
      Do(Decode(d));
    }
  }

  // ----- handleMessage

  /** All a delivery may do before a worker sees it. The claim is read only after a create found the key taken,
      and the payload is decoded only under a fresh claim. */
  ghost predicate HandleShape(logOn: bool, own: seq<Action>, d: Delivery, forwarded: bool) {
    && |own| >= 2 && own[0] == Inspect(d)
    && (ClaimAndDecodeShape(logOn, own[1..], d, forwarded) || (!forwarded && (own[1..] == [Nak(d)] || GaveUp(own[1..], d))))
  }

  /** What the checks of the headers come to: a term without an id, a nak before the message is due, and only
      otherwise a claim, or the payload if there is no log. */
  ghost predicate CheckedRightly(s: State, d: Delivery, next: Action)
    requires d in s.attempts && s.attempts[d].msg in s.msgs
  {
    var m := Msg(s, d);
    if m.id == "" then next.Term?
    else if m.notBefore.Some? && s.now < m.notBefore.value then next == Nak(d)
    else if s.logOn then next.Create?
    else next == Decode(d)
  }

  /** `at` is where in the run the headers were read. */
  method HandleMessage(c: Cluster, d: Delivery) returns (forwarded: bool, ghost own: seq<Action>, ghost at: nat)
    requires c.Standing(d, Arrived)
    modifies c
    ensures c.Took(at, Inspect(d)) && |own| >= 2 && CheckedRightly(c.StateAt(at), d, own[1])
    ensures old(c.trace) <= c.trace
    ensures c.Standing(d, if forwarded then Queued else Finished)
    ensures Own(c.trace, d) == Own(old(c.trace), d) + own
    ensures HandleShape(old(c.st).logOn, own, d, forwarded)
  {
    hide Legal, After, Own, ClaimAndDecodeShape, GaveUp;
    ghost var before := Own(c.trace, d);
    var id, notDue;
    id, notDue, at := c.InspectHeaders(d);
    ghost var sofar := c.trace;
    ghost var rest: seq<Action>;
    if id == "" {
      forwarded := false;
      ghost var applied := c.SendTerm(d);
      rest := [Term(d, applied)];
      OneTerm(d, applied);
    } else if notDue {
      forwarded := false;
      c.SendNak(d);
      rest := [Nak(d)];
    } else {
      forwarded, rest := ClaimAndDecode(c, d);
      FirstOfClaim(old(c.st).logOn, rest, d, forwarded);
    }
    own := [Inspect(d)] + rest;
    Sequences.Associates(before, [Inspect(d)], rest);
    Sequences.Cons(Inspect(d), rest);
    Sequences.PrefixKept(sofar, c.trace, at);
  }

  lemma OneTerm(d: Delivery, applied: bool)
    ensures GaveUp([Term(d, applied)], d)
  {
  }

  lemma FirstOfClaim(logOn: bool, own: seq<Action>, d: Delivery, forwarded: bool)
    requires ClaimAndDecodeShape(logOn, own, d, forwarded)
    ensures own != [] && if logOn then own[0].Create? else own[0] == Decode(d)
  {
  }

  ghost predicate ClaimAndDecodeShape(logOn: bool, own: seq<Action>, d: Delivery, forwarded: bool) {
    if forwarded then own == if logOn then [Create(d, Created), Decode(d)] else [Decode(d)]
    else if logOn then own == [Create(d, Created), Decode(d), Nak(d)] || ClaimRefused(own, d)
    else own == [Decode(d), Nak(d)]
  }

  method ClaimAndDecode(c: Cluster, d: Delivery) returns (forwarded: bool, ghost own: seq<Action>)
    requires c.Standing(d, if c.st.logOn then Claiming else Decoding)
    modifies c
    ensures c.Standing(d, if forwarded then Queued else Finished)
    ensures Own(c.trace, d) == Own(old(c.trace), d) + own
    ensures ClaimAndDecodeShape(old(c.st).logOn, own, d, forwarded) && old(c.trace) <= c.trace
  {
    hide Legal, After, Own;
    ghost var before := Own(c.trace, d);
    ghost var claim: seq<Action> := [];
    ghost var decode: seq<Action> := [];
    forwarded := true;
    if c.st.logOn {
      ghost var at;
      forwarded, claim, at := ClaimId(c, d);
    }
    if forwarded {
      forwarded, decode := Decoded(c, d);
    }
    own := claim + decode;
    assert before + claim + decode == before + own;
  }

  method Decoded(c: Cluster, d: Delivery) returns (forwarded: bool, ghost own: seq<Action>)
    requires c.Standing(d, Decoding)
    modifies c
    ensures c.Standing(d, if forwarded then Queued else Finished)
    ensures Own(c.trace, d) == Own(old(c.trace), d) + own
    ensures own == (if forwarded then [Decode(d)] else [Decode(d), Nak(d)]) && old(c.trace) <= c.trace
  {
    hide Legal, After, Own;
    forwarded := c.DecodeAndForward(d);
    own := [Decode(d)];
    if !forwarded {
      c.SendNak(d);
      own := own + [Nak(d)];
    }
  }

  ghost predicate ClaimRefused(own: seq<Action>, d: Delivery) {
    || (exists applied :: own == [Create(d, CreateFailed(applied)), Nak(d)])
    || (|own| == 3 && own[0] == Create(d, KeyExists) && own[1].Get? && (own[2] == Nak(d) || own[2].Term?))
  }

  /** Unless the create fails, the id is claimed exactly if its key is absent at that moment, operation number `at`. */
  method ClaimId(c: Cluster, d: Delivery) returns (claimed: bool, ghost own: seq<Action>, ghost at: nat)
    requires c.Standing(d, Claiming)
    modifies c
    ensures own != [] && own[0].Create? && c.Took(at, own[0]) && Actor(own[0]) == Some(d)
    ensures own[0].reply.CreateFailed? || (claimed <==> Msg(c.StateAt(at), d).id !in c.StateAt(at).kv)
    ensures c.Standing(d, if claimed then Decoding else Finished) && c.st.logOn == old(c.st).logOn
    ensures Own(c.trace, d) == Own(old(c.trace), d) + own
    ensures if claimed then own == [Create(d, Created)] else ClaimRefused(own, d)
    ensures old(c.trace) <= c.trace
  {
    hide Legal, After, Own;
    ghost var before := Own(c.trace, d);
    var reply;
    reply, at := c.CreateKey(d);
    ghost var sofar := c.trace;
    claimed := reply.Created?;
    ghost var rest: seq<Action> := [];
    match reply {
      case Created =>
      case KeyExists =>
        ghost var read;
        rest, read := TurnAway(c, d);
      case CreateFailed(_) =>
        c.SendNak(d);
        rest := [Nak(d)];
    }
    own := [Create(d, reply)] + rest;
    Sequences.Associates(before, [Create(d, reply)], rest);
    Sequences.PrefixKept(sofar, c.trace, at);
  }

  /** In state s the key of d's message reads "processed". */
  ghost predicate ReadsProcessed(s: State, d: Delivery)
    requires d in s.attempts && s.attempts[d].msg in s.msgs
  {
    Msg(s, d).id in s.kv && s.kv[Msg(s, d).id] == Processed
  }

  /** The id is taken: the message is termed exactly if the claim was read and read "processed" at that moment, which
      is operation number `at` of the run. */
  method TurnAway(c: Cluster, d: Delivery) returns (ghost own: seq<Action>, ghost at: nat)
    requires c.Standing(d, Checking)
    modifies c
    ensures |own| == 2 && own[0].Get? && c.Took(at, own[0]) && Actor(own[0]) == Some(d)
    ensures own[1].Term? <==> own[0].ok && ReadsProcessed(c.StateAt(at), d)
    ensures old(c.trace) <= c.trace
    ensures c.Standing(d, Finished) && c.st.logOn == old(c.st).logOn
    ensures Own(c.trace, d) == Own(old(c.trace), d) + own
    ensures |own| == 2 && own[0].Get? && (own[1] == Nak(d) || own[1].Term?)
  {
    hide Legal, After, Own;
    ghost var before := Own(c.trace, d);
    var value;
    ghost var ok;
    value, ok, at := c.GetKey(d);
    ghost var sofar := c.trace;
    if value == Some(Processed) {
      ghost var applied := c.SendTerm(d);
      own := [Get(d, ok), Term(d, applied)];
    } else {
      c.SendNak(d);
      own := [Get(d, ok), Nak(d)];
    }
    assert before + [Get(d, ok)] + own[1..] == before + own;
    Sequences.PrefixKept(sofar, c.trace, at);
  }

  // ----- Settling a message

  /** A message in a worker's hands. `useLog` says whether it was given a key-value store. */
  class Message {
    const cluster: Cluster
    const d: Delivery
    const useLog: bool

    constructor (cluster: Cluster, d: Delivery, useLog: bool)
      ensures this.cluster == cluster && this.d == d && this.useLog == useLog
    {
      this.cluster, this.d, this.useLog := cluster, d, useLog;
    }

    ghost predicate Ready(pc: Pc)
      reads this, cluster
    {
      cluster.Standing(d, pc) && useLog == cluster.st.logOn
    }

    /** Marks the id processed, then acknowledges; the acknowledgement is sent only after a
        mark that is known to have worked. */
    method Ack(ghost attempt: AckAttempt) returns (ok: bool, ghost own: seq<Action>)
      requires Ready(StartAck(useLog, attempt))
      modifies cluster
      ensures Ready(if ok then Finished else RetryAck(useLog, attempt))
      ensures Own(cluster.trace, d) == Own(old(cluster.trace), d) + own
      ensures if ok then AckWorked(useLog, own, d) else AckFailed(useLog, own, d)
    {
      hide Legal, After, Own;
      own := [];
      if useLog {
        ghost var applied;
        ok, applied := cluster.PutProcessed(d);
        own := [Put(d, applied, ok)];
        if !ok {
          return;
        }
      }
      ghost var acked;
      ok, acked := cluster.SendDoubleAck(d);
      own := own + [DoubleAck(d, acked, ok)];
    }

    method Cancel() returns (ghost own: seq<Action>)
      requires Ready(GivingUp)
      modifies cluster
      ensures Ready(Finished)
      ensures Own(cluster.trace, d) == Own(old(cluster.trace), d) + own && GaveUp(own, d)
    {
      ghost var applied := cluster.SendTerm(d);
      own := [Term(d, applied)];
    }

    method Deadletter() returns (ghost own: seq<Action>)
      requires Ready(GivingUp)
      modifies cluster
      ensures Ready(Finished)
      ensures Own(cluster.trace, d) == Own(old(cluster.trace), d) + own && GaveUp(own, d)
    {
      ghost var applied := cluster.SendTerm(d);
      own := [Term(d, applied)];
    }

    /** Releases the claim, whether or not that works, then puts the message back. */
    method Nack() returns (ghost own: seq<Action>)
      requires Ready(if useLog then Releasing else Naking)
      modifies cluster
      ensures Ready(Finished)
      ensures Own(cluster.trace, d) == Own(old(cluster.trace), d) + own && PutBack(useLog, own, d)
    {
      hide Legal, After, Own;
      own := [];
      if useLog {
        ghost var applied := cluster.DeleteKey(d);
        own := [Delete(d, applied)];
      }
      cluster.SendNak(d);
      own := own + [Nak(d)];
    }
  }

  // ----- One verdict per message

  ghost predicate AckWorked(useLog: bool, own: seq<Action>, d: Delivery) {
    own == if useLog then [Put(d, true, true), DoubleAck(d, true, true)] else [DoubleAck(d, true, true)]
  }

  ghost predicate AckFailed(useLog: bool, own: seq<Action>, d: Delivery) {
    exists applied ::
      || (useLog && own == [Put(d, applied, false)])
      || (useLog && own == [Put(d, true, true), DoubleAck(d, applied, false)])
      || (!useLog && own == [DoubleAck(d, applied, false)])
  }

  ghost predicate GaveUp(own: seq<Action>, d: Delivery) {
    exists applied :: own == [Term(d, applied)]
  }

  ghost predicate PutBack(useLog: bool, own: seq<Action>, d: Delivery) {
    if useLog then exists applied :: own == [Delete(d, applied), Nak(d)] else own == [Nak(d)]
  }

  /** n acknowledgements, one after the other, that all failed. */
  ghost predicate AllFailed(useLog: bool, own: seq<Action>, d: Delivery, n: nat)
    decreases n
  {
    if n == 0 then own == []
    else exists first, last :: own == first + last && AllFailed(useLog, first, d, n - 1) && AckFailed(useLog, last, d)
  }

  /** Up to three acknowledgements, of which at most the last one works. */
  ghost predicate Acknowledged(useLog: bool, own: seq<Action>, d: Delivery, ok: bool) {
    if ok then
      exists n: nat, first, last ::
        n < 3 && own == first + last && AllFailed(useLog, first, d, n) && AckWorked(useLog, last, d)
    else AllFailed(useLog, own, d, 3)
  }

  lemma NoneFailed(useLog: bool, d: Delivery)
    ensures AllFailed(useLog, [], d, 0)
  {
  }

  lemma OneMoreFailed(useLog: bool, first: seq<Action>, last: seq<Action>, d: Delivery, n: nat)
    requires AllFailed(useLog, first, d, n) && AckFailed(useLog, last, d)
    ensures AllFailed(useLog, first + last, d, n + 1)
  {
    hide AckFailed;
  }

  lemma LastWorks(useLog: bool, first: seq<Action>, last: seq<Action>, d: Delivery, n: nat)
    requires n < ACK_ATTEMPTS && AllFailed(useLog, first, d, n) && AckWorked(useLog, last, d)
    ensures Acknowledged(useLog, first + last, d, true)
  {
    hide AllFailed, AckWorked;
  }

  lemma NoneWorked(useLog: bool, own: seq<Action>, d: Delivery)
    requires AllFailed(useLog, own, d, ACK_ATTEMPTS)
    ensures Acknowledged(useLog, own, d, false)
  {
    hide AllFailed;
  }

  /** The calls that settle a message are fixed by how its handler returned. */
  ghost predicate Verdict(useLog: bool, own: seq<Action>, d: Delivery, outcome: Outcome, ok: bool) {
    match outcome
    case Succeeded => Acknowledged(useLog, own, d, ok)
    case SkipRetry => GaveUp(own, d)
    case DeadLetter => GaveUp(own, d)
    case Failed => PutBack(useLog, own, d)
  }

  /** Everything a worker does with one message: the verdict is fixed by handler presence and outcome, each
      message gets one verdict, and only an acknowledgement is ever repeated. */
  ghost predicate SettledOnce(useLog: bool, own: seq<Action>, d: Delivery, registered: bool, outcome: Outcome, ok: bool) {
    if !registered then
      |own| >= 1 && own[0] == Take(d, false) && GaveUp(own[1..], d)
    else
      && |own| >= 2 && own[0] == Take(d, true)
      && own[1..][0] == Return(d, outcome) && Verdict(useLog, own[1..][1..], d, outcome, ok)
  }

  lemma SettledFrom(useLog: bool, rest: seq<Action>, d: Delivery, registered: bool, outcome: Outcome, ok: bool)
    requires if registered then |rest| >= 1 && rest[0] == Return(d, outcome) && Verdict(useLog, rest[1..], d, outcome, ok)
             else GaveUp(rest, d)
    ensures SettledOnce(useLog, [Take(d, registered)] + rest, d, registered, outcome, ok)
  {
    var own := [Take(d, registered)] + rest;
    assert own[1..] == rest;
    hide Verdict, GaveUp;
  }

  type Task = string

  /** A call of RegisterHandler. */
  datatype Registration<H> = Registration(kind: Task, handler: H)

  /** The handlers after a history of registrations, one call after the other. */
  function HandlersAfter<H>(rs: seq<Registration<H>>): map<Task, H> {
    if rs == [] then map[]
    else HandlersAfter(rs[..|rs| - 1])[rs[|rs| - 1].kind := rs[|rs| - 1].handler]
  }

  lemma HandlersAfterSnoc<H>(rs: seq<Registration<H>>, r: Registration<H>)
    ensures HandlersAfter(rs + [r]) == HandlersAfter(rs)[r.kind := r.handler]
  {
    Sequences.Snoc(rs, r);
  }

  /** Registration i is the last one for its kind. */
  ghost predicate LastFor<H>(rs: seq<Registration<H>>, kind: Task, i: nat) {
    i < |rs| && rs[i].kind == kind && forall j | i < j < |rs| :: rs[j].kind != kind
  }

  /** Over every history: the handler of a kind is the one registered last for it, and a kind that was never
      registered has none. */
  lemma {:induction false} LastRegistrationWins<H>(rs: seq<Registration<H>>, kind: Task)
    ensures kind in HandlersAfter(rs) <==> exists i: nat :: i < |rs| && rs[i].kind == kind
    ensures kind in HandlersAfter(rs) ==>
      exists i: nat :: LastFor(rs, kind, i) && HandlersAfter(rs)[kind] == rs[i].handler
    decreases |rs|
  {
    if rs != [] {
      var pre, n := rs[..|rs| - 1], |rs| - 1;
      LastRegistrationWins(pre, kind);
      if rs[n].kind == kind {
        assert LastFor(rs, kind, n);
      } else if kind in HandlersAfter(pre) {
        var i: nat :| LastFor(pre, kind, i) && HandlersAfter(pre)[kind] == pre[i].handler;
        assert LastFor(rs, kind, i) by {
          forall j | i < j < |rs| ensures rs[j].kind != kind {
            assert j < n ==> rs[j] == pre[j];
          }
        }
        assert rs[i] == pre[i];
      } else {
        forall i: nat | i < |rs| ensures rs[i].kind != kind {
          assert i < n ==> rs[i] == pre[i];
        }
      }
    }
  }

  /** A worker of the generic consumer: the registered handlers, and the code that runs one message. */
  class Worker<Handler> {
    ghost var registrations: seq<Registration<Handler>>
    var handlers: map<Task, Handler>

    ghost predicate Valid()
      reads this
    {
      handlers == HandlersAfter(registrations)
    }

    constructor ()
      ensures Valid() && registrations == []
    {
      registrations, handlers := [], map[];
    }

    method RegisterHandler(kind: Task, handler: Handler)
      requires Valid()
      modifies this
      ensures Valid() && registrations == old(registrations) + [Registration(kind, handler)]
    {
      hide HandlersAfter;
      var r := Registration(kind, handler);
      HandlersAfterSnoc(registrations, r);
      handlers := handlers[kind := handler];
      registrations := registrations + [r];
    }

    /** The registered function runs for as long as it likes and returns any outcome. */
    method RunHandler(m: Message) returns (outcome: Outcome)
      requires m.Ready(Running)
      modifies m.cluster
      ensures m.Ready(AfterReturn(m.useLog, outcome))
      ensures Own(m.cluster.trace, m.d) == Own(old(m.cluster.trace), m.d) + [Return(m.d, outcome)]
    {
      m.cluster.Pause(m.d);
      outcome := *;
      m.cluster.Do(Return(m.d, outcome));
    }

    method Lookup(task: Task) returns (found: Option<Handler>)
      requires Valid()
      ensures found.Some? <==> exists i: nat :: i < |registrations| && registrations[i].kind == task
      ensures found.Some? ==>
        exists i: nat :: LastFor(registrations, task, i) && found.value == registrations[i].handler
    {
      LastRegistrationWins(registrations, task);
      found := if task in handlers then Some(handlers[task]) else None;
    }

    /** `ran` is the handler that was called, if the task had one. */
    method Handle(m: Message, task: Task)
      returns (ran: Option<Handler>, outcome: Outcome, ok: bool, ghost own: seq<Action>)
      requires m.Ready(Queued) && Valid()
      modifies m.cluster
      ensures m.Ready(Finished)
      ensures Own(m.cluster.trace, m.d) == Own(old(m.cluster.trace), m.d) + own
      ensures SettledOnce(m.useLog, own, m.d, ran.Some?, outcome, ok)
      ensures ran.Some? <==> exists i: nat :: i < |registrations| && registrations[i].kind == task
      ensures ran.Some? ==> exists i: nat :: LastFor(registrations, task, i) && ran.value == registrations[i].handler
    {
      hide Legal, After, Own, Verdict, GaveUp, SettledOnce, LastFor, HandlersAfter;
      ghost var before := Own(m.cluster.trace, m.d);
      ran := Lookup(task);
      ghost var rest: seq<Action>;
      m.cluster.TakeMessage(m.d, ran.Some?);
      if ran.None? {
        outcome, ok := DeadLetter, true;
        rest := m.Deadletter();
      } else {
        outcome, ok, rest := RunAndSettle(m);
      }
      own := [Take(m.d, ran.Some?)] + rest;
      SettledFrom(m.useLog, rest, m.d, ran.Some?, outcome, ok);
      Sequences.Associates(before, [Take(m.d, ran.Some?)], rest);
    }

    method RunAndSettle(m: Message) returns (outcome: Outcome, ok: bool, ghost own: seq<Action>)
      requires m.Ready(Running)
      modifies m.cluster
      ensures m.Ready(Finished)
      ensures Own(m.cluster.trace, m.d) == Own(old(m.cluster.trace), m.d) + own
      ensures |own| >= 1 && own[0] == Return(m.d, outcome) && Verdict(m.useLog, own[1..], m.d, outcome, ok)
    {
      hide Legal, After, Own, Verdict;
      ghost var before := Own(m.cluster.trace, m.d);
      outcome := RunHandler(m);
      ghost var rest: seq<Action>;
      ok, rest := Settle(m, outcome);
      own := [Return(m.d, outcome)] + rest;
      assert own[1..] == rest;
      assert before + [Return(m.d, outcome)] + rest == before + own;
    }

    method Settle(m: Message, outcome: Outcome) returns (ok: bool, ghost own: seq<Action>)
      requires m.Ready(AfterReturn(m.useLog, outcome))
      modifies m.cluster
      ensures m.Ready(Finished)
      ensures Own(m.cluster.trace, m.d) == Own(old(m.cluster.trace), m.d) + own
      ensures Verdict(m.useLog, own, m.d, outcome, ok)
    {
      hide Legal, After, Own;
      ok := true;
      match outcome
      case SkipRetry => own := m.Cancel();
      case DeadLetter => own := m.Deadletter();
      case Failed => own := m.Nack();
      case Succeeded => ok, own := AckWithRetry(m);
    }

    method AckWithRetry(m: Message) returns (ok: bool, ghost own: seq<Action>)
      requires m.Ready(StartAck(m.useLog, 1))
      modifies m.cluster
      ensures m.Ready(Finished)
      ensures Own(m.cluster.trace, m.d) == Own(old(m.cluster.trace), m.d) + own
      ensures Acknowledged(m.useLog, own, m.d, ok)
    {
      hide Legal, After, Own, AllFailed, AckWorked, AckFailed, Acknowledged;
      ghost var before := Own(m.cluster.trace, m.d);
      ok, own := false, [];
      NoneFailed(m.useLog, m.d);
      assert before + own == before;
      var attempt := 1;
      while attempt <= ACK_ATTEMPTS
        invariant 1 <= attempt <= ACK_ATTEMPTS + 1
        invariant m.Ready(if attempt <= ACK_ATTEMPTS then StartAck(m.useLog, attempt) else Finished)
        invariant Own(m.cluster.trace, m.d) == before + own
        invariant AllFailed(m.useLog, own, m.d, attempt - 1)
      {
        ghost var step: seq<Action>;
        ok, step := m.Ack(attempt);
        ghost var sofar := own;
        own := own + step;
        Sequences.Associates(before, sofar, step);
        if ok {
          LastWorks(m.useLog, sofar, step, m.d, attempt - 1);
          return;
        }
        OneMoreFailed(m.useLog, sofar, step, m.d, attempt - 1);
        attempt := attempt + 1;
      }
      NoneWorked(m.useLog, own, m.d);
      ok := false;
    }
  }
}
