/** What the processed log guarantees, over every run from an empty system. */
module ProcessedLogTheorems {
  import opened Wrappers
  import opened ProcessedLog
  import opened ProcessedLogProofs
  import opened Fresh

  // ----- Guarantees

  /** With any expiry and any crashes, the broker loses a message only for a reason, and an ack with
      the log on comes after the id was marked processed. */
  lemma {:induction false} RemovalIsJustified(s: State, ttl: Ttl, acts: seq<Action>, key: MsgKey)
    requires Initial(s) && Legal(s, ttl, acts) && key in After(s, ttl, acts).msgs
    ensures var t := After(s, ttl, acts);
      && (!t.msgs[key].fate.Pending? ==> MayLeave(t, key))
      && (t.msgs[key].fate.Acked? && t.logOn ==> t.msgs[key].id in t.marked)
  {
    RunKeepsJustified(s, ttl, acts);
  }

  /** While keys expire only when nobody holds them, at most one delivery per id is live, and the key
      reads "processing", or "processed" once its holder's mark was applied. */
  lemma {:induction false} OneLiveHolder(s: State, ttl: Ttl, acts: seq<Action>, d: Delivery, id: Id)
    requires Initial(s) && s.logOn && ttl != Arbitrary && Legal(s, ttl, acts)
    requires Holds(After(s, ttl, acts), d, id)
    ensures var t := After(s, ttl, acts);
      && (forall e | Holds(t, e, id) :: e == d)
      && id in t.kv
      && (t.kv[id] == Processed ==> Settling(t.attempts[d].pc) && id in t.successes && id in t.marked)
  {
    RunKeepsExclusive(s, ttl, acts);
    RunKeepsJustified(s, ttl, acts);
    assert HolderConsistent(After(s, ttl, acts), d, id);
  }

  /** While keys expire only when nobody holds them, a nack deletes the nacker's own claim: the key reads
      "processing" and no other delivery is live on the id. */
  lemma {:induction false} NackReleasesOwnClaim(s: State, ttl: Ttl, acts: seq<Action>, d: Delivery, applied: bool)
    requires Initial(s) && s.logOn && ttl != Arbitrary && Legal(s, ttl, acts)
    requires Enabled(After(s, ttl, acts), ttl, Delete(d, applied))
    ensures var t := After(s, ttl, acts);
      && Msg(t, d).id in t.kv && t.kv[Msg(t, d).id] == Processing
      && (forall e | e != d :: !Holds(t, e, Msg(t, d).id))
  {
    var t := After(s, ttl, acts);
    RunKeepsExclusive(s, ttl, acts);
    assert Holds(t, d, Msg(t, d).id);
    assert HolderConsistent(t, d, Msg(t, d).id);
  }

  /** Under the same assumption "processed" is final until it expires itself: whatever happens after, the id is never
      handed to a worker again and no handler for it returns nil again. */
  lemma {:induction false} ProcessedIsFinal(s: State, ttl: Ttl, pre: seq<Action>, post: seq<Action>, id: Id)
    requires Initial(s) && s.logOn && ttl != Arbitrary && Legal(s, ttl, pre)
    requires id in After(s, ttl, pre).kv && After(s, ttl, pre).kv[id] == Processed
    requires Legal(After(s, ttl, pre), ttl, post) && Expire(id) !in post
    ensures var t := After(s, ttl, pre);
      var u := After(t, ttl, post);
      id in u.kv && u.kv[id] == Processed && u.forwards[id] == t.forwards[id] && u.successes[id] == t.successes[id]
  {
    RunKeepsExclusive(s, ttl, pre);
    RunKeepsProcessed(After(s, ttl, pre), ttl, post, id);
  }

  /** A handler returns nil at most once per id, as long as keys expire neither while somebody holds them nor
      after their id succeeded. */
  lemma {:induction false} AtMostOneSuccess(s: State, acts: seq<Action>, id: Id)
    requires Initial(s) && s.logOn && Legal(s, NotAfterSuccess, acts)
    ensures After(s, NotAfterSuccess, acts).successes[id] <= 1
  {
    RunKeepsSucceededOnce(s, acts, id);
  }

  /** A crash or a lost create reply between claim and verdict blocks the id until the key expires, whatever else
      expires or crashes: it is never worked on, and its messages stay where they are. */
  lemma {:induction false} StaleClaimBlocks(s: State, ttl: Ttl, pre: seq<Action>, post: seq<Action>, id: Id)
    requires Initial(s) && s.logOn && Legal(s, ttl, pre) && id != ""
    requires Stale(After(s, ttl, pre), id)
    requires Legal(After(s, ttl, pre), ttl, post) && Expire(id) !in post
    ensures var t := After(s, ttl, pre);
      var u := After(t, ttl, post);
      && Stale(u, id) && u.forwards[id] == t.forwards[id]
      && forall k | k in t.msgs && t.msgs[k].id == id :: k in u.msgs && u.msgs[k] == t.msgs[k]
  {
    RunKeepsJustified(s, ttl, pre);
    LogStaysOn(s, ttl, pre);
    RunKeepsStale(After(s, ttl, pre), ttl, post, id);
  }

  /** A payload that does not decode, with any expiry and any crashes: none of its deliveries is handed to a worker,
      no verdict gives up on it, it is never acknowledged, and it leaves the broker only for having no id or after
      another message with its id succeeded. */
  lemma {:induction false} UndecodableOnlyNaks(s: State, ttl: Ttl, acts: seq<Action>, key: MsgKey)
    requires Initial(s) && Legal(s, ttl, acts)
    requires key in After(s, ttl, acts).msgs && !After(s, ttl, acts).msgs[key].decodable
    ensures var t := After(s, ttl, acts);
      && (forall d | d in t.attempts && t.attempts[d].msg == key :: !PastDecode(t.attempts[d].pc))
      && key !in t.abandoned && !t.msgs[key].fate.Acked?
      && (t.msgs[key].fate.Termed? ==> t.msgs[key].id == "" || t.msgs[key].id in t.successes)
  {
    RunKeepsOnlyDecoded(s, ttl, acts);
    RunKeepsJustified(s, ttl, acts);
  }

  /** Delayed messages: whoever reads or holds a claim looked at the clock at or after the due time.
      A premature delivery therefore never touches the log. */
  lemma {:induction false} ClaimsOnlyWhenDue(s: State, ttl: Ttl, acts: seq<Action>, d: Delivery)
    requires Initial(s) && Legal(s, ttl, acts)
    requires d in After(s, ttl, acts).attempts && After(s, ttl, acts).attempts[d].msg in After(s, ttl, acts).msgs
    ensures var t := After(s, ttl, acts);
      var pc := t.attempts[d].pc;
      Msg(t, d).notBefore.Some? && t.now < Msg(t, d).notBefore.value ==>
        !HolderPc(pc) && !pc.Claiming? && !pc.Checking?
  {
    RunKeepsOnTime(s, ttl, acts);
  }

  /** A nack lets the message be worked on again: once its delete is applied, a redelivery of the very same
      message can take the claim. */
  lemma {:induction false} NackAllowsRetry(s: State, ttl: Ttl, acts: seq<Action>, d: Delivery)
    returns (more: seq<Action>, e: Delivery)
    requires Initial(s) && s.logOn && Legal(s, ttl, acts) && Can(After(s, ttl, acts), d, Releasing)
    requires Msg(After(s, ttl, acts), d).fate.Pending? && Msg(After(s, ttl, acts), d).id != ""
    ensures acts <= more && Legal(s, ttl, more) && e != d
    ensures Can(After(s, ttl, more), e, Decoding)
    ensures After(s, ttl, more).attempts[e].msg == After(s, ttl, acts).attempts[d].msg
  {
    LogStaysOn(s, ttl, acts);
    RunKeepsOnTime(s, ttl, acts);
    hide *;
    var t := After(s, ttl, acts);
    Release(t, ttl, d);
    Append2(s, ttl, acts, Delete(d, true), Nak(d));
    var freed := acts + [Delete(d, true)] + [Nak(d)];
    e := FreshNumber(t.attempts.Keys);
    Redeliver(t, After(s, ttl, freed), ttl, d, e);
    Append2(s, ttl, freed, Deliver(e, t.attempts[d].msg), Inspect(e));
    more := freed + [Deliver(e, t.attempts[d].msg)] + [Inspect(e)];
    Append(s, ttl, more, Create(e, Created));
    more := more + [Create(e, Created)];
  }

  lemma Release(t: State, ttl: Ttl, d: Delivery)
    requires Can(t, d, Releasing) && t.logOn
    ensures Enabled(t, ttl, Delete(d, true)) && Enabled(t, Arbitrary, Delete(d, true))
    ensures Enabled(Next(t, Delete(d, true)), ttl, Nak(d)) && Enabled(Next(t, Delete(d, true)), Arbitrary, Nak(d))
    ensures var u := Next(Next(t, Delete(d, true)), Nak(d));
      && Msg(t, d).id !in u.kv && u.msgs == t.msgs && u.attempts.Keys == t.attempts.Keys && u.now == t.now && u.logOn
  {
  }

  lemma Redeliver(t: State, u: State, ttl: Ttl, d: Delivery, e: Delivery)
    requires OnTime(t) && Can(t, d, Releasing) && e !in t.attempts && Msg(t, d).fate.Pending? && Msg(t, d).id != ""
    requires Msg(t, d).id !in u.kv && u.msgs == t.msgs && u.attempts.Keys == t.attempts.Keys && u.now == t.now && u.logOn
    ensures var key := t.attempts[d].msg;
      && Enabled(u, ttl, Deliver(e, key)) && Enabled(u, Arbitrary, Deliver(e, key))
      && var v := Next(u, Deliver(e, key));
      && Enabled(v, ttl, Inspect(e)) && Enabled(v, Arbitrary, Inspect(e))
      && var w := Next(v, Inspect(e));
      && Enabled(w, ttl, Create(e, Created)) && Enabled(w, Arbitrary, Create(e, Created))
      && Can(Next(w, Create(e, Created)), e, Decoding) && Next(w, Create(e, Created)).attempts[e].msg == key
  {
    assert HolderPc(Releasing);
  }

  // ----- The assumptions on expiry are needed

  /** u is a later state of the same system: d is new, stands at pc with a decodable message for id, and all other
      deliveries and messages are what they were. */
  ghost predicate NewcomerAt(t: State, u: State, d: Delivery, id: Id, pc: Pc) {
    && Can(u, d, pc) && Msg(u, d).id == id && Msg(u, d).decodable && Msg(u, d).notBefore == None
    && d !in t.attempts
    && u.logOn == t.logOn
    && (forall e | e in t.attempts :: e in u.attempts && u.attempts[e] == t.attempts[e])
    && (forall k | k in t.msgs :: k in u.msgs && u.msgs[k] == t.msgs[k])
  }

  lemma Arrive(t: State, ttl: Ttl, id: Id, key: MsgKey, d: Delivery)
    requires WellFormed(t) && key !in t.msgs && d !in t.attempts
    ensures var p := Publish(key, id, None, true);
      && Enabled(t, ttl, p)
      && Enabled(Next(t, p), ttl, Deliver(d, key))
      && var u := Next(Next(t, p), Deliver(d, key));
         NewcomerAt(t, u, d, id, Arrived) && u.kv == t.kv && u.successes == t.successes
  {
  }

  lemma Claim(t: State, u: State, ttl: Ttl, id: Id, d: Delivery)
    requires NewcomerAt(t, u, d, id, Arrived) && u.logOn && id != "" && id !in u.kv
    ensures Enabled(u, ttl, Inspect(d))
    ensures Enabled(Next(u, Inspect(d)), ttl, Create(d, Created))
    ensures var v := Next(Next(u, Inspect(d)), Create(d, Created));
      NewcomerAt(t, v, d, id, Decoding) && v.successes == u.successes
  {
    var w := Next(u, Inspect(d));
    assert NewcomerAt(t, w, d, id, Claiming) && w.kv == u.kv && w.successes == u.successes;
  }

  lemma Succeed(u: State, ttl: Ttl, id: Id, d: Delivery)
    requires Can(u, d, Decoding) && Msg(u, d).id == id && Msg(u, d).decodable
    ensures Enabled(u, ttl, Decode(d))
    ensures Enabled(Next(u, Decode(d)), ttl, Take(d, true))
    ensures Enabled(Next(Next(u, Decode(d)), Take(d, true)), ttl, Return(d, Succeeded))
    ensures Next(Next(Next(u, Decode(d)), Take(d, true)), Return(d, Succeeded)).successes[id] == u.successes[id] + 1
  {
    var v := Next(u, Decode(d));
    assert Can(v, d, Queued) && Msg(v, d).id == id && v.successes == u.successes;
    var w := Next(v, Take(d, true));
    assert Can(w, d, Running) && Msg(w, d).id == id && w.successes == u.successes;
  }

  lemma Append2(s: State, ttl: Ttl, acts: seq<Action>, a: Action, b: Action)
    requires Legal(s, ttl, acts) && Enabled(After(s, ttl, acts), ttl, a)
    requires Enabled(Next(After(s, ttl, acts), a), ttl, b)
    ensures Legal(s, ttl, acts + [a] + [b])
    ensures After(s, ttl, acts + [a] + [b]) == Next(Next(After(s, ttl, acts), a), b)
  {
    hide *;
    Append(s, ttl, acts, a);
    Append(s, ttl, acts + [a], b);
  }

  /** Once its key is gone, an id can be claimed by a new delivery of a new message. */
  lemma {:induction false} ClaimAgain(s: State, ttl: Ttl, acts: seq<Action>, id: Id)
    returns (more: seq<Action>, d: Delivery)
    requires Legal(s, ttl, acts) && After(s, ttl, acts).logOn && id != "" && id !in After(s, ttl, acts).kv
    requires WellFormed(After(s, ttl, acts))
    ensures acts <= more && Legal(s, ttl, more)
    ensures forall k | |acts| <= k < |more| :: !more[k].Expire?
    ensures NewcomerAt(After(s, ttl, acts), After(s, ttl, more), d, id, Decoding)
    ensures After(s, ttl, more).successes == After(s, ttl, acts).successes
  {
    hide *;
    var t := After(s, ttl, acts);
    var key := FreshNumber(t.msgs.Keys);
    d := FreshNumber(t.attempts.Keys);
    Arrive(t, ttl, id, key, d);
    var arrived := acts + [Publish(key, id, None, true)] + [Deliver(d, key)];
    Append2(s, ttl, acts, Publish(key, id, None, true), Deliver(d, key));
    Claim(t, After(s, ttl, arrived), ttl, id, d);
    Append2(s, ttl, arrived, Inspect(d), Create(d, Created));
    more := arrived + [Inspect(d)] + [Create(d, Created)];
  }

  lemma LoseKey(t: State, ttl: Ttl, id: Id)
    requires WellFormed(t) && MayExpire(t, ttl, id)
    ensures Enabled(t, ttl, Expire(id))
    ensures var u := Next(t, Expire(id));
      && id !in u.kv && u.logOn == t.logOn && u.successes == t.successes && WellFormed(u)
      && forall e, i | Holds(t, e, i) :: Holds(u, e, i)
  {
  }

  lemma {:induction false} LogStaysOn(s: State, ttl: Ttl, acts: seq<Action>)
    requires Legal(s, ttl, acts)
    ensures After(s, ttl, acts).logOn == s.logOn
    decreases |acts|
  {
    if acts != [] {
      LogStaysOn(s, ttl, acts[..|acts| - 1]);
    }
  }

  /** If a key may expire under a live holder, a second delivery can go live on the same id. */
  lemma {:induction false} ExpiryUnderHolderBreaksExclusion(s: State, acts: seq<Action>, d: Delivery, id: Id)
      returns (more: seq<Action>, e: Delivery)
    requires Initial(s) && s.logOn && Legal(s, Arbitrary, acts) && id != ""
    requires Holds(After(s, Arbitrary, acts), d, id)
    ensures acts <= more && Legal(s, Arbitrary, more) && e != d
    ensures Holds(After(s, Arbitrary, more), d, id) && Holds(After(s, Arbitrary, more), e, id)
  {
    RunKeepsJustified(s, Arbitrary, acts);
    LogStaysOn(s, Arbitrary, acts);
    LoseKey(After(s, Arbitrary, acts), Arbitrary, id);
    hide Next, Enabled;
    Append(s, Arbitrary, acts, Expire(id));
    more, e := ClaimAgain(s, Arbitrary, acts + [Expire(id)], id);
  }

  /** d holds a claim and its handler may still return nil. */
  ghost predicate MaySucceed(t: State, d: Delivery, id: Id) {
    && Holds(t, d, id)
    && ((t.attempts[d].pc.Decoding? && Msg(t, d).decodable) || t.attempts[d].pc.Queued? || t.attempts[d].pc.Running?)
  }

  lemma SuccessStep(u: State, ttl: Ttl, d: Delivery, id: Id) returns (a: Action)
    requires MaySucceed(u, d, id)
    ensures Enabled(u, ttl, a) && Enabled(u, Arbitrary, a) && !a.Expire? && Next(u, a).kv == u.kv
    ensures if u.attempts[d].pc.Running? then Next(u, a).successes[id] == u.successes[id] + 1
            else MaySucceed(Next(u, a), d, id) && Next(u, a).successes == u.successes
    ensures u.attempts[d].pc.Queued? ==> Next(u, a).attempts[d].pc.Running?
    ensures u.attempts[d].pc.Decoding? ==> Next(u, a).attempts[d].pc.Queued?
  {
    a := match u.attempts[d].pc
         case Decoding => Decode(d)
         case Queued => Take(d, true)
         case _ => Return(d, Succeeded);
  }

  /** The holder's handler returns nil, and the claim stays as it is. */
  lemma {:induction false} HolderSucceeds(s: State, ttl: Ttl, acts: seq<Action>, id: Id, d: Delivery)
    returns (more: seq<Action>)
    requires Legal(s, ttl, acts) && MaySucceed(After(s, ttl, acts), d, id)
    ensures acts <= more && Legal(s, ttl, more)
    ensures forall k | |acts| <= k < |more| :: !more[k].Expire?
    ensures After(s, ttl, more).kv == After(s, ttl, acts).kv
    ensures After(s, ttl, more).successes[id] == After(s, ttl, acts).successes[id] + 1
    decreases if After(s, ttl, acts).attempts[d].pc.Decoding? then 2
              else if After(s, ttl, acts).attempts[d].pc.Queued? then 1 else 0
  {
    hide Enabled, Next;
    var u := After(s, ttl, acts);
    var a := SuccessStep(u, ttl, d, id);
    Append(s, ttl, acts, a);
    more := acts + [a];
    if !u.attempts[d].pc.Running? {
      more := HolderSucceeds(s, ttl, acts + [a], id, d);
      assert more[|acts|] == a;
    }
  }

  /** If a key may expire under a live holder whose handler has not returned, the id can succeed twice, with no
      expiry after either success. */
  lemma {:induction false} ExpiryUnderHolderAllowsTwo(s: State, acts: seq<Action>, d: Delivery, id: Id)
    returns (more: seq<Action>)
    requires Initial(s) && s.logOn && Legal(s, Arbitrary, acts) && id != ""
    requires MaySucceed(After(s, Arbitrary, acts), d, id)
    ensures acts + [Expire(id)] <= more && Legal(s, Arbitrary, more)
    ensures forall k | |acts| < k < |more| :: !more[k].Expire?
    ensures After(s, Arbitrary, more).successes[id] == After(s, Arbitrary, acts).successes[id] + 2
  {
    var t := After(s, Arbitrary, acts);
    var lost := acts + [Expire(id)];
    InitialJustified(s);
    RunKeepsJustified(s, Arbitrary, acts);
    LoseKey(t, Arbitrary, id);
    ExpiryLeavesHolder(t, d, id);
    Append(s, Arbitrary, acts, Expire(id));
    hide Next, Enabled, MaySucceed, Initial;
    var first := HolderSucceeds(s, Arbitrary, lost, id, d);
    RunKeepsJustified(s, Arbitrary, first);
    LogStaysOn(s, Arbitrary, first);
    more := SucceedFromScratch(s, Arbitrary, first, id);
    assert forall k | |lost| <= k < |first| :: more[k] == first[k];
  }

  lemma InitialJustified(s: State)
    requires Initial(s)
    ensures Justified(s)
  {
  }

  lemma ExpiryLeavesHolder(t: State, d: Delivery, id: Id)
    requires MaySucceed(t, d, id)
    ensures Enabled(t, Arbitrary, Expire(id)) && MaySucceed(Next(t, Expire(id)), d, id)
  {
  }

  /** If the key of an id that succeeded expires, the handler can succeed for that id once more, even though
      keys only expire when nobody holds them. */
  lemma {:induction false} ExpiryAfterSuccessAllowsAnother(s: State, acts: seq<Action>, id: Id) returns (more: seq<Action>)
    requires Initial(s) && s.logOn && Legal(s, NotWhileHeld, acts) && id != ""
    requires forall d :: !Holds(After(s, NotWhileHeld, acts), d, id)
    ensures acts <= more && Legal(s, NotWhileHeld, more)
    ensures After(s, NotWhileHeld, more).successes[id] == After(s, NotWhileHeld, acts).successes[id] + 1
  {
    RunKeepsJustified(s, NotWhileHeld, acts);
    LogStaysOn(s, NotWhileHeld, acts);
    LoseKey(After(s, NotWhileHeld, acts), NotWhileHeld, id);
    hide Next, Enabled;
    Append(s, NotWhileHeld, acts, Expire(id));
    more := SucceedFromScratch(s, NotWhileHeld, acts + [Expire(id)], id);
  }

  lemma {:induction false} SucceedFromScratch(s: State, ttl: Ttl, acts: seq<Action>, id: Id) returns (more: seq<Action>)
    requires Legal(s, ttl, acts) && After(s, ttl, acts).logOn && id != "" && id !in After(s, ttl, acts).kv
    requires WellFormed(After(s, ttl, acts))
    ensures acts <= more && Legal(s, ttl, more)
    ensures forall k | |acts| <= k < |more| :: !more[k].Expire?
    ensures After(s, ttl, more).successes[id] == After(s, ttl, acts).successes[id] + 1
  {
    hide Next, Enabled;
    var d;
    more, d := ClaimAgain(s, ttl, acts, id);
    more := SucceedAgain(s, ttl, more, id, d);
  }

  lemma {:induction false} SucceedAgain(s: State, ttl: Ttl, acts: seq<Action>, id: Id, d: Delivery)
    returns (more: seq<Action>)
    requires Legal(s, ttl, acts)
    requires var u := After(s, ttl, acts); Can(u, d, Decoding) && Msg(u, d).id == id && Msg(u, d).decodable
    ensures acts <= more && Legal(s, ttl, more)
    ensures forall k | |acts| <= k < |more| :: !more[k].Expire?
    ensures After(s, ttl, more).successes[id] == After(s, ttl, acts).successes[id] + 1
  {
    hide *;
    Succeed(After(s, ttl, acts), ttl, id, d);
    Append2(s, ttl, acts, Decode(d), Take(d, true));
    more := acts + [Decode(d)] + [Take(d, true)];
    Append(s, ttl, more, Return(d, Succeeded));
    more := more + [Return(d, Succeeded)];
  }
}
