/** What the parser makes of day tokens that it does not read as 24 hours a day: counts whose hours overflow, digits
    behind a decimal point, and tokens that an earlier one takes apart. */
module DurationReading {
  import opened Wrappers
  import opened Int64
  import opened Text
  import opened DurationText
  import opened DurationTheorems
  import opened DurationRoundTrip
  import Sequences

  // ----- A single day count, with or without a sign

  /** The hours the parser computes for a day count: the range error of Atoi is ignored and the product wraps. */
  function HoursComputed(days: nat): int {
    Wrap64((if days < LIMIT then days else LIMIT - 1) * 24)
  }

  /** The text of these hours, behind this sign, is read as a duration. */
  predicate Fits(sign: string, hours: int) {
    if hours < 0 then sign == "" && IsInt64(hours * HOUR) else hours * HOUR <= Bound(sign)
  }

  function DurationOfHours(sign: string, hours: int): Option<int> {
    if !Fits(sign, hours) then None
    else if sign == "-" then Some(0 - hours * HOUR)
    else Some(hours * HOUR)
  }

  lemma NaturalHoursParse(sign: string, hours: nat)
    requires IsSign(sign)
    ensures ParseDuration(sign + (Digits(hours) + "h")) ==
      if hours * HOUR <= Bound(sign) then Some(Signed(sign, hours * HOUR)) else None
  {
    var t := Term(Digits(hours), None, "h");
    WholeTermNanos(hours, "h");
    SumOf1(t);
    RenderWhole(Digits(hours), "h");
    RenderSingle(t);
    assert Times(hours, NanosPerUnit("h")) == hours * HOUR;
    SingleTermOk(t);
    hide Digits, RenderAll, ParseDuration, Sum, TermNanos, WellFormed, NoDoubleFill, Times, Render;
    ParseDurationOf(sign, [t]);
  }

  lemma RenderSingle(t: Term)
    ensures RenderAll([t]) == Render(t)
  {
    Sequences.One(t);
    assert Render(t) + "" == Render(t);
    hide Render;
    assert RenderAll([]) == "" && RenderAll([t]) == Render([t][0]) + RenderAll([t][1..]);
  }

  lemma SingleTermOk(t: Term)
    requires WellFormed(t) && t.unit != "d"
    ensures AllWellFormed([t]) && NoDays([t]) && NoDoubleFill([t], 0)
  {
    hide TermNanos, WellFormed;
  }

  lemma TwoSigns(sign: string, rest: string)
    requires (sign == "-" || sign == "+") && rest != "" && rest[0] == '-'
    ensures ParseDuration(sign + rest) == None
  {
    assert (sign + rest)[0] == sign[0] && (sign + rest)[1..] == rest;
  }

  lemma MinusLeads(digits: string)
    ensures "-" + digits + "h" == "-" + (digits + "h") && "" + ("-" + digits + "h") == "-" + digits + "h"
    ensures ("-" + digits + "h")[0] == '-'
  {
  }

  /** What the parser makes of the hours computed for a single day count. */
  lemma HoursParse(sign: string, hours: int)
    requires IsSign(sign)
    ensures ParseDuration(sign + (FormatInt(hours) + "h")) == DurationOfHours(sign, hours)
  {
    hide ParseDuration, Digits;
    if hours >= 0 {
      NaturalHoursParse(sign, hours);
    } else {
      MinusLeads(Digits(-hours));
      if sign == "" {
        NaturalHoursParse("-", -hours);
      } else {
        TwoSigns(sign, "-" + Digits(-hours) + "h");
      }
    }
  }

  /** A sign is copied by the loop over the tokens. */
  lemma SignedToken(sign: string, count: string)
    requires IsSign(sign) && AllDigits(count) && count != ""
    ensures var m := count + "d";
      Tokens(sign + m, 'd') == [m] && ReplaceEach(sign + m, [m], DaysAsHours) == sign + DaysAsHours(m)
  {
    var m := count + "d";
    TokenOfCount(count);
    OneToken(count);
    RewriteAfterSign(sign, m, 'd', DaysAsHours);
    hide DaysAsHours, Tokens, Rewrite;
    OneReplacement(sign, m, DaysAsHours(m));
    OneRound(sign + m, m);
  }

  lemma OneRound(s: string, m: string)
    requires |m| > 0
    ensures ReplaceEach(s, [m], DaysAsHours) == ReplaceAll(s, m, DaysAsHours(m))
  {
    Sequences.One(m);
    hide DaysAsHours, ReplaceAll;
    var t := ReplaceAll(s, m, DaysAsHours(m));
    assert ReplaceEach(t, [], DaysAsHours) == t;
    assert ReplaceEach(s, [m], DaysAsHours) == ReplaceEach(t, [m][1..], DaysAsHours);
  }

  lemma OneReplacement(sign: string, m: string, new_: string)
    requires IsSign(sign) && IsToken(m, 'd')
    ensures ReplaceAll(sign + m, m, new_) == sign + new_
  {
    hide ReplaceAll;
    ReplaceHits("", m, new_);
    NothingToReplace(m, new_);
    assert m + "" == m && new_ + "" == new_;
    if sign == "" {
      assert sign + m == m && sign + new_ == new_;
    } else {
      InertIsCopied(sign, m, 'd', m, new_);
    }
  }

  lemma NothingToReplace(m: string, new_: string)
    requires |m| > 0
    ensures ReplaceAll("", m, new_) == ""
  {
  }

  lemma CountAsHours(count: string)
    requires AllDigits(count) && count != ""
    ensures DaysAsHours(count + "d") == FormatInt(HoursComputed(Value(count))) + "h"
  {
    TokenOfCount(count);
    hide Digits, Value;
  }

  /** For every day count, with or without a sign: what the text made of it and a "d" parses to. */
  lemma DayCountParses(sign: string, count: string)
    requires IsSign(sign) && AllDigits(count) && count != ""
    ensures ParseSpec(sign + (count + "d")) == DurationOfHours(sign, HoursComputed(Value(count)))
  {
    SignedToken(sign, count);
    CountAsHours(count);
    HoursParse(sign, HoursComputed(Value(count)));
    hide ParseDuration, Tokens, ReplaceEach, FormatInt, Value, DurationOfHours, DaysAsHours;
  }

  /** For every day count, with or without a sign: it parses to 24 hours a day, or to an error if that does not fit in
      a duration, exactly if its hours are a 64-bit number or the hours computed instead do not fit behind the sign. */
  lemma {:induction false} DayCountRightExactly(sign: string, count: string)
    requires IsSign(sign) && AllDigits(count) && count != ""
    ensures var days := Value(count);
      ParseSpec(sign + (count + "d")) == DurationOfHours(sign, 24 * days) <==>
        24 * days < LIMIT || !Fits(sign, HoursComputed(days))
  {
    DayCountParses(sign, count);
    HoursOfSmallCount(Value(count));
    HoursOfLargeCount(sign, Value(count));
    hide ParseSpec, Value, Fits, HoursComputed;
  }

  lemma HoursOfSmallCount(days: nat)
    ensures 24 * days < LIMIT ==> HoursComputed(days) == 24 * days
  {
  }

  lemma HoursOfLargeCount(sign: string, days: nat)
    ensures 24 * days >= LIMIT ==> !Fits(sign, 24 * days)
  {
  }

  /** From 2^63 - 1 up, every day count without a sign is accepted, and parses as minus one day. */
  lemma HugeDayCountIsMinusOneDay(count: string)
    requires AllDigits(count) && Value(count) >= LIMIT - 1
    ensures ParseSpec(count + "d") == Some(-24 * HOUR)
  {
    DayCountParses("", count);
    HugeCountWraps(Value(count));
    hide ParseSpec, Value, HoursComputed;
    assert "" + (count + "d") == count + "d";
  }

  lemma HugeCountWraps(days: nat)
    requires days >= LIMIT - 1
    ensures HoursComputed(days) == -24
  {
    assert Wrap64((LIMIT - 1) * 24) == -24;
  }

  // ----- Behind a decimal point

  /** The digits before a "d" are a day count even behind a decimal point: 24 times the number they denote is put in
      their place, and is then a fraction of an hour. */
  lemma {:induction false} FractionOfDays(whole: string, frac: string)
    requires AllDigits(whole) && AllDigits(frac) && frac != "" && |Digits(24 * Value(frac))| <= 9
    ensures var t := Term(whole, Some(Digits(24 * Value(frac))), "h");
      && WellFormed(t)
      && ParseSpec(whole + "." + frac + "d") == if TermNanos(t) < LIMIT then Some(TermNanos(t)) else None
  {
    var hours := Digits(24 * Value(frac));
    var t := Term(whole, Some(hours), "h");
    HourFraction(whole, hours);
    FewDigits(24 * Value(frac));
    FractionToken(whole, frac);
    hide TermNanos, WellFormed, Tokens, ReplaceEach, ParseDuration, Digits, Value;
    FractionParses(t);
  }

  lemma FractionParses(t: Term)
    requires WellFormed(t) && t.unit == "h" && t.frac.Some?
    ensures ParseDuration(t.whole + "." + t.frac.value + "h") ==
      if TermNanos(t) < LIMIT then Some(TermNanos(t)) else None
  {
    SumOf1(t);
    RenderOne(t);
    assert NoDays([t]) && NoDoubleFill([t], 0);
    hide RenderAll, Sum, TermNanos, WellFormed, ParseDuration, NoDoubleFill;
    ParseDurationOf("", [t]);
    assert "" + RenderAll([t]) == RenderAll([t]);
  }

  lemma RenderOne(t: Term)
    requires t.frac.Some?
    ensures RenderAll([t]) == t.whole + "." + t.frac.value + t.unit
  {
    assert [t][1..] == [];
    assert RenderAll([t]) == Render(t) + RenderAll([]);
    assert t.whole + ("." + t.frac.value) + t.unit == t.whole + "." + t.frac.value + t.unit;
  }

  lemma HourFraction(whole: string, frac: string)
    requires AllDigits(whole) && AllDigits(frac) && 0 < |frac| <= 9
    ensures WellFormed(Term(whole, Some(frac), "h"))
  {
    Pow10Splits(|frac|, 9);
    Pow10Nine();
    var rest := Pow10(9 - |frac|);
    assert HOUR == Pow10(|frac|) * (3600 * rest);
    assert HOUR % Pow10(|frac|) == 0;
  }

  /** A numeral of at most nine digits is that of a number far below 2^63. */
  lemma FewDigits(n: nat)
    requires |Digits(n)| <= 9
    ensures n < LIMIT
  {
    ValueOfDigits(n);
    ValueBelowPow10(Digits(n));
    Pow10Grows(|Digits(n)|, 9);
    Pow10Nine();
  }

  lemma FractionToken(whole: string, frac: string)
    requires AllDigits(whole) && AllDigits(frac) && frac != "" && 24 * Value(frac) < LIMIT
    ensures var s := whole + "." + frac + "d";
      ReplaceEach(s, Tokens(s, 'd'), DaysAsHours) == whole + "." + Digits(24 * Value(frac)) + "h"
  {
    var m := frac + "d";
    var hours := Digits(24 * Value(frac));
    TokenOfCount(frac);
    SmallDayTokenAsHours(m);
    OneToken(frac);
    CopyUnit(whole, '.', m, 'd', DaysAsHours);
    DotLeads(whole, frac);
    DotLeads(whole, hours);
    hide *;
    OneTokenLoop(whole + ['.'] + m, m);
    Sequences.Associates(whole + ['.'], hours, "h");
  }

  lemma DotLeads(whole: string, digits: string)
    ensures whole + "." + digits + "d" == whole + ['.'] + (digits + "d")
    ensures whole + "." + digits == whole + ['.'] + digits
    ensures !IsDigit('.') && !IsDigit('d') && '.' != 'd'
  {
  }

  lemma TokenOfCount(count: string)
    requires AllDigits(count) && count != ""
    ensures var m := count + "d"; IsToken(m, 'd') && m[..|m| - 1] == count
  {
    var m := count + "d";
    assert m[..|m| - 1] == count;
  }

  lemma OneToken(count: string)
    requires AllDigits(count) && count != ""
    ensures Tokens(count + "d", 'd') == [count + "d"]
    ensures Rewrite(count + "d", 'd', DaysAsHours) == DaysAsHours(count + "d")
  {
    HitUnit(count, "", 'd', DaysAsHours);
    NothingToRewrite();
    hide Rewrite, Tokens, DaysAsHours;
    assert count + ['d'] + "" == count + "d" && count + ['d'] == count + "d";
  }

  lemma NothingToRewrite()
    ensures Rewrite("", 'd', DaysAsHours) == "" && Tokens("", 'd') == []
  {
  }

  /** A single small day token cannot be taken apart. */
  lemma OneTokenLoop(s: string, m: string)
    requires Tokens(s, 'd') == [m] && SmallDayToken(m)
    ensures ReplaceEach(s, Tokens(s, 'd'), DaysAsHours) == Rewrite(s, 'd', DaysAsHours)
  {
    hide Tokens, Rewrite, ReplaceEach, SmallDayToken;
    DayLoopIsSimultaneous(s);
  }

  // ----- Tokens taken apart

  /** Day tokens whose computed hours are not negative. */
  ghost predicate Countable(ms: seq<string>) {
    forall i | 0 <= i < |ms| :: IsToken(ms[i], 'd') && HoursComputed(Value(ms[i][..|ms[i]| - 1])) >= 0
  }

  /** The number of hours that the loop leaves in place of a day count, as digits: the first token of the list that
      ends in the same digits is replaced, and whatever stands before it stays. */
  ghost function ReadHours(ms: seq<string>, whole: string): (r: string)
    requires Countable(ms) && AllDigits(whole)
    ensures AllDigits(r) && (whole != "" ==> r != "")
    decreases |ms|
  {
    if ms == [] then whole
    else if IsSuffix(ms[0], whole + "d") then
      FrontOf(whole, ms[0]) + Digits(HoursComputed(Value(ms[0][..|ms[0]| - 1])))
    else ReadHours(ms[1..], whole)
  }

  /** What stands before the token m in a day count. */
  function FrontOf(whole: string, m: string): (x: string)
    requires IsSuffix(m, whole + "d") && |m| > 0 && AllDigits(whole)
    ensures AllDigits(x) && x == (whole + "d")[..|whole| + 1 - |m|]
  {
    whole[..|whole| + 1 - |m|]
  }

  lemma TokenHours(m: string)
    requires IsToken(m, 'd') && HoursComputed(Value(m[..|m| - 1])) >= 0
    ensures DaysAsHours(m) == Digits(HoursComputed(Value(m[..|m| - 1]))) + "h"
  {
    hide Digits, Value;
  }

  lemma {:induction false} RuleReads(ms: seq<string>, whole: string)
    requires Countable(ms) && AllDigits(whole) && RuleApplies(ms, whole + "d")
    ensures FirstSuffixRule(ms, DaysAsHours, whole + "d") == ReadHours(ms, whole) + "h"
    decreases |ms|
  {
    hide Digits, Value, DaysAsHours, HoursComputed;
    var t := whole + "d";
    if IsSuffix(ms[0], t) {
      TokenHours(ms[0]);
      Sequences.Associates(FrontOf(whole, ms[0]), Digits(HoursComputed(Value(ms[0][..|ms[0]| - 1]))), "h");
    } else {
      var i :| 0 <= i < |ms| && IsSuffix(ms[i], t);
      assert ms[1..][i - 1] == ms[i];
      RuleReads(ms[1..], whole);
    }
  }

  lemma ReadsFirst(ms: seq<string>, whole: string)
    requires Countable(ms) && AllDigits(whole) && ms != []
    ensures ReadHours(ms, whole) ==
      if IsSuffix(ms[0], whole + "d") then
        FrontOf(whole, ms[0]) + Digits(HoursComputed(Value(ms[0][..|ms[0]| - 1])))
      else ReadHours(ms[1..], whole)
  {
    hide Digits, Value, HoursComputed, FrontOf;
  }

  lemma ReadValueFirst(ms: seq<string>, whole: string)
    requires Countable(ms) && AllDigits(whole) && ms != [] && IsSuffix(ms[0], whole + "d")
    ensures var hours := HoursComputed(Value(ms[0][..|ms[0]| - 1]));
      Value(ReadHours(ms, whole)) == Times(Value(FrontOf(whole, ms[0])), Pow10(|Digits(hours)|)) + hours
  {
    hide Digits, Value, HoursComputed, Times, Pow10, ReadHours, FrontOf, IsSuffix;
    ReadsFirst(ms, whole);
    var hours := HoursComputed(Value(ms[0][..|ms[0]| - 1]));
    ValueOfConcat(FrontOf(whole, ms[0]), Digits(hours));
    ValueOfDigits(hours);
  }

  /** What the number of hours is that a token taken apart comes to: the first listed token that it ends in decides. */
  lemma {:induction false} ReadValue(ms: seq<string>, whole: string) returns (i: nat)
    requires Countable(ms) && AllDigits(whole) && RuleApplies(ms, whole + "d")
    ensures i < |ms| && IsSuffix(ms[i], whole + "d") && forall k | 0 <= k < i :: !IsSuffix(ms[k], whole + "d")
    ensures var hours := HoursComputed(Value(ms[i][..|ms[i]| - 1]));
      Value(ReadHours(ms, whole)) == Times(Value(FrontOf(whole, ms[i])), Pow10(|Digits(hours)|)) + hours
    decreases |ms|
  {
    hide Digits, Value, HoursComputed, Times, Pow10, ReadHours, FrontOf, IsToken, IsSuffix;
    ReadsFirst(ms, whole);
    if IsSuffix(ms[0], whole + "d") {
      i := 0;
      ReadValueFirst(ms, whole);
    } else {
      var j :| 0 <= j < |ms| && IsSuffix(ms[j], whole + "d");
      assert ms[1..][j - 1] == ms[j];
      i := ReadValue(ms[1..], whole);
      i := i + 1;
    }
  }

  ghost function ReadTerm(ms: seq<string>, t: Term): Term
    requires Countable(ms) && AllDigits(t.whole)
  {
    if t.unit == "d" then Term(ReadHours(ms, t.whole), None, "h") else t
  }

  /** The terms as the loop over the tokens ms leaves them. */
  ghost function ReadTerms(ms: seq<string>, ts: seq<Term>): (r: seq<Term>)
    requires Countable(ms) && AllWellFormed(ts)
    ensures |r| == |ts| && AllWellFormed(r) && NoDays(r)
  {
    if ts == [] then []
    else
      ReadTermOk(ms, ts[0]);
      [ReadTerm(ms, ts[0])] + ReadTerms(ms, ts[1..])
  }

  lemma ReadTermOk(ms: seq<string>, t: Term)
    requires Countable(ms) && WellFormed(t)
    ensures WellFormed(ReadTerm(ms, t)) && ReadTerm(ms, t).unit != "d"
  {
  }

  lemma ReadTermRenders(ms: seq<string>, t: Term)
    requires Countable(ms) && WellFormed(t) && (t.unit == "d" ==> Render(t) in ms)
    ensures RewrittenTerm(t, 'd', ByFirstSuffix(ms, DaysAsHours)) == Render(ReadTerm(ms, t))
  {
    hide ReadHours, FirstSuffixRule, Countable, DaysAsHours;
    if t.unit == "d" {
      assert Render(t) == t.whole + "d";
      assert RuleApplies(ms, t.whole + "d") by {
        var i :| 0 <= i < |ms| && ms[i] == Render(t);
        assert IsSuffix(ms[i], t.whole + "d");
      }
      RuleReads(ms, t.whole);
      RenderWhole(ReadHours(ms, t.whole), "h");
    }
  }

  lemma {:induction false} ReadTermsRender(ms: seq<string>, ts: seq<Term>)
    requires Countable(ms) && AllWellFormed(ts) && forall m | m in TermsOf(ts, 'd') :: m in ms
    ensures RewrittenTerms(ts, 'd', ByFirstSuffix(ms, DaysAsHours)) == RenderAll(ReadTerms(ms, ts))
    decreases |ts|
  {
    hide Render, RewrittenTerm, ReadTerm, Countable, ByFirstSuffix;
    if ts != [] {
      assert ts[0].unit == ['d'] ==> Render(ts[0]) in TermsOf(ts, 'd');
      ReadTermRenders(ms, ts[0]);
      ReadTermsRender(ms, ts[1..]);
      Sequences.Cons(ReadTerm(ms, ts[0]), ReadTerms(ms, ts[1..]));
    }
  }

  lemma CountableRules(ms: seq<string>)
    requires Countable(ms)
    ensures AreRules(ms, 'd', DaysAsHours)
  {
    DaysAreRules(ms);
  }

  /** Every signed list of terms, whatever tokens take apart whatever others, as long as no computed hours are
      negative: it parses to the signed sum of the terms as the loop leaves them, or to an error if that does not fit.
      A term of exactly 2^63 nanoseconds after terms that make up exactly 2^63 is excepted. */
  lemma {:induction false} ParsesToRead(sign: string, ts: seq<Term>)
    requires IsSign(sign) && ts != [] && AllWellFormed(ts) && Countable(TermsOf(ts, 'd'))
    requires NoDoubleFill(ReadTerms(TermsOf(ts, 'd'), ts), 0)
    ensures var sum := Sum(ReadTerms(TermsOf(ts, 'd'), ts));
      ParseSpec(sign + RenderAll(ts)) == if sum <= Bound(sign) then Some(Signed(sign, sum)) else None
  {
    var ms := TermsOf(ts, 'd');
    var s := sign + RenderAll(ts);
    AllRewritable(ts);
    RewriteSigned(sign, ts, 'd', ByFirstSuffix(ms, DaysAsHours));
    CountableRules(ms);
    SequentialMeaning(s, 'd', ms, DaysAsHours);
    ReadTermsRender(ms, ts);
    hide Rewrite, Tokens, ReplaceEach, RenderAll, RewrittenTerms, ReadTerms, Sum, NoDoubleFill, ParseDuration, Countable,
      AreRules, TermsOf, WellFormed, ByFirstSuffix, DaysAsHours;
    ParseDurationOf(sign, ReadTerms(ms, ts));
  }

  lemma AllRewritable(ts: seq<Term>)
    requires AllWellFormed(ts)
    ensures forall i | 0 <= i < |ts| :: Rewritable(ts[i], 'd')
  {
  }

  /** Under the same conditions: the list parses to its signed sum with 24 hours to the day, or to an error if that
      does not fit, exactly if the loop leaves the sum as it was or neither sum fits. */
  lemma {:induction false} ListRightExactly(sign: string, ts: seq<Term>)
    requires IsSign(sign) && ts != [] && AllWellFormed(ts) && Countable(TermsOf(ts, 'd'))
    requires NoDoubleFill(ReadTerms(TermsOf(ts, 'd'), ts), 0)
    ensures var sum, read := Sum(ts), Sum(ReadTerms(TermsOf(ts, 'd'), ts));
      ParseSpec(sign + RenderAll(ts)) == (if sum <= Bound(sign) then Some(Signed(sign, sum)) else None) <==>
        sum == read || (sum > Bound(sign) && read > Bound(sign))
  {
    ParsesToRead(sign, ts);
    hide ParseSpec, RenderAll, Sum, ReadTerms, TermsOf, NoDoubleFill, Countable, WellFormed;
  }

  /** Two tokens, the first of them the end of the second: the loop takes the second one apart, and the text
      is not what replacing every token at once gives. */
  lemma CapturedToken(x: string, y: string)
    requires AllDigits(x) && AllDigits(y) && x != "" && y != "" && 24 * Value(x + y) < LIMIT
    ensures var s := y + "d" + x + y + "d";
      ReplaceEach(s, Tokens(s, 'd'), DaysAsHours) != Rewrite(s, 'd', DaysAsHours)
  {
    var m, t := y + "d", x + y + "d";
    var s := y + "d" + x + y + "d";
    hide Tokens, Rewrite, ReplaceEach, DaysAsHours, Times, Pow10;
    ValueOfConcat(x, y);
    TokensOfTwo(y, x + y);
    TwoTokens(m, t, x, y);
    hide *;
    assert s == m + t;
    DayLoopIsSimultaneous(s);
  }

  lemma TokensOfTwo(y: string, z: string)
    requires AllDigits(y) && AllDigits(z) && y != "" && z != ""
    ensures Tokens(y + "d" + (z + "d"), 'd') == [y + "d", z + "d"]
  {
    hide Rewrite, DigitRun, DaysAsHours;
    HitUnit(y, z + "d", 'd', DaysAsHours);
    HitUnit(z, "", 'd', DaysAsHours);
    hide *;
    assert z + ['d'] + "" == z + "d" && y + ['d'] + (z + "d") == y + "d" + (z + "d");
    NothingToRewrite();
    assert [y + "d"] + [z + "d"] == [y + "d", z + "d"];
  }

  lemma TwoTokens(m: string, t: string, x: string, y: string)
    requires AllDigits(x) && AllDigits(y) && x != "" && y != ""
    requires m == y + "d" && t == x + y + "d" && 24 * Value(x + y) < LIMIT && Value(y) <= Value(x + y)
    ensures SmallDayTokens([m, t]) && !NoCapture([m, t])
  {
    assert m[..|m| - 1] == y && t[..|t| - 1] == x + y;
    assert IsSuffix(m, t) && m != t;
    assert Captures([m, t], 0, 1);
  }
}
