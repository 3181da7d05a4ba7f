/** Delayed jobs: the run-at time a producer stamps on a message, and the consumer's check against it. */
module RunAt {
  import opened Wrappers
  import opened ProcessedLog
  import opened ProcessedLogTheorems

  /** Times are nanoseconds since the Unix epoch. */
  const SECOND: int := 1_000_000_000

  /** time.Time's zero value, the start of year 1. */
  const ZERO_TIME: int := -62_135_596_800 * SECOND

  /** The first and last second whose year has the four digits that section 5.6 of RFC 3339 asks for. */
  const YEAR_0: int := -62_167_219_200
  const YEAR_9999_END: int := 253_402_300_799

  datatype JobOption =
    | OnQueue(queue: string)
    | RunAt(time: int)
    | RunAfter(delay: int)
    | MessageId(id: string)
    | MaxTries(tries: int)

  /** The header: absent, or a whole second as text. */
  datatype DelayHeader = Absent | Stamped(second: int)

  /** What one option makes of the run-at time, given the clock at that moment. */
  function Chosen(option: JobOption, now: int, runAt: int): int {
    match option
    case RunAfter(delay) => now + delay
    case RunAt(time) => time
    case _ => runAt
  }

  /** Formatting keeps whole seconds only. */
  function HeaderFor(runAt: int): DelayHeader {
    if runAt == ZERO_TIME then Absent else Stamped(runAt / SECOND)
  }

  /** What the options come to: the last delaying option decides; none means the zero time. */
  ghost predicate IsRunAt(options: seq<JobOption>, clock: seq<int>, runAt: int)
    requires |clock| == |options|
  {
    || (runAt == -62_135_596_800_000_000_000 && NoneDelays(options, 0))
    || exists i: nat :: i < |options| && Decides(options[i], clock[i], runAt) && NoneDelays(options, i + 1)
  }

  /** A fixed time is taken as it is; a delay counts from the time the clock reads. */
  predicate Decides(option: JobOption, now: int, runAt: int) {
    (option.RunAt? && runAt == option.time) || (option.RunAfter? && runAt == now + option.delay)
  }

  predicate NoneDelays(options: seq<JobOption>, start: nat) {
    forall j | start <= j < |options| :: !options[j].RunAt? && !options[j].RunAfter?
  }

  /** Push's loop over the options; `clock[i]` is the time read for option i. */
  method StampDelay(options: seq<JobOption>, clock: seq<int>) returns (header: DelayHeader, runAt: int)
    requires |clock| == |options|
    ensures IsRunAt(options, clock, runAt)
    ensures header == if runAt == -62_135_596_800_000_000_000 then Absent else Stamped(runAt / 1_000_000_000)
  {
    runAt := ZERO_TIME;
    for i := 0 to |options|
      invariant IsRunAt(options[..i], clock[..i], runAt)
    {
      ghost var before := runAt;
      runAt := Chosen(options[i], clock[i], runAt);
      OneMoreOption(options[..i], clock[..i], before, options[i], clock[i]);
      assert options[..i] + [options[i]] == options[..i + 1] && clock[..i] + [clock[i]] == clock[..i + 1];
    }
    assert options[..|options|] == options && clock[..|clock|] == clock;
    header := HeaderFor(runAt);
  }

  lemma OneMoreOption(options: seq<JobOption>, clock: seq<int>, runAt: int, option: JobOption, now: int)
    requires |clock| == |options| && IsRunAt(options, clock, runAt)
    ensures IsRunAt(options + [option], clock + [now], Chosen(option, now, runAt))
  {
    var os, cs := options + [option], clock + [now];
    assert os[|options|] == option && cs[|options|] == now;
    if option.RunAt? || option.RunAfter? {
      assert Decides(os[|options|], cs[|options|], Chosen(option, now, runAt));
    } else if i: nat :| i < |options| && Decides(options[i], clock[i], runAt) && NoneDelays(options, i + 1) {
      assert Decides(os[i], cs[i], runAt) && NoneDelays(os, i + 1);
    }
  }

  /** The consumer's reading of the header: a time that does not parse counts as the zero time, long past. */
  function NotBefore(header: DelayHeader): Option<int> {
    match header
    case Absent => None
    case Stamped(second) => if YEAR_0 <= second <= YEAR_9999_END then Some(second * SECOND) else None
  }

  /** The consumer lets a message with this run-at time pass at `now`. */
  predicate Passes(runAt: int, now: int) {
    var t := NotBefore(HeaderFor(runAt));
    t.None? || t.value <= now
  }

  /** A message passes exactly from the whole second of its run-at time on, if that has a four-digit year, and
      at any time otherwise. So it is never late, and early by less than a second at most, except that one set
      for a year after 9999 is not delayed at all. */
  lemma DelayExactly(runAt: int, now: int)
    requires now >= -62_167_219_200_000_000_000 && runAt != -62_135_596_800_000_000_000
    ensures Passes(runAt, now) <==>
      runAt / 1_000_000_000 * 1_000_000_000 <= now || runAt / 1_000_000_000 > 253_402_300_799
    ensures runAt <= now ==> Passes(runAt, now)
    ensures Passes(runAt, now) && runAt / 1_000_000_000 <= 253_402_300_799 ==> runAt - now < 1_000_000_000
  {
    assert runAt == runAt / SECOND * SECOND + runAt % SECOND;
  }

  lemma StepClock(s: State, ttl: Ttl, a: Action)
    requires Enabled(s, ttl, a)
    ensures Enabled(s, Arbitrary, a) && s.now <= Next(s, a).now
  {
    hide NextKv, NextMsgs, NextAttempts, NextPc, Forwarded, NewSuccess, NewlyAbandoned, NewlyMarked;
  }

  lemma {:induction false} ClockRuns(s: State, ttl: Ttl, acts: seq<Action>)
    requires Initial(s) && Legal(s, ttl, acts)
    ensures s.now <= After(s, ttl, acts).now
    decreases |acts|
  {
    if acts != [] {
      ClockRuns(s, ttl, acts[..|acts| - 1]);
      StepClock(After(s, ttl, acts[..|acts| - 1]), ttl, acts[|acts| - 1]);
      hide Initial, Next, Enabled;
    }
  }

  /** In every run of the protocol, on a clock that starts no earlier than year 1: a delivery that holds a claim on a
      message has it less than a second before the time the producer asked for, at the earliest, unless that time is
      after the year 9999. */
  lemma {:induction false} NoClaimBeforeRunAt(s: State, ttl: Ttl, acts: seq<Action>, d: Delivery, runAt: int)
    requires Initial(s) && Legal(s, ttl, acts) && s.now >= ZERO_TIME
    requires d in After(s, ttl, acts).attempts && After(s, ttl, acts).attempts[d].msg in After(s, ttl, acts).msgs
    requires Msg(After(s, ttl, acts), d).notBefore == NotBefore(HeaderFor(runAt))
    requires HolderPc(After(s, ttl, acts).attempts[d].pc)
    ensures After(s, ttl, acts).now > runAt - 1_000_000_000 || runAt / 1_000_000_000 > 253_402_300_799
  {
    ClaimsOnlyWhenDue(s, ttl, acts, d);
    ClockRuns(s, ttl, acts);
    assert runAt == runAt / SECOND * SECOND + runAt % SECOND;
  }
}
