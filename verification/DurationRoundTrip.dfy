/** Every 64-bit duration survives being printed with days and parsed back. */
module DurationRoundTrip {
  import opened Wrappers
  import opened Int64
  import opened Text
  import opened DurationText
  import opened DurationTheorems

  // ----- What time.Duration.String prints

  lemma {:induction false} PaddedValue(v: nat, n: nat)
    requires v < Pow10(n)
    ensures Value(Padded(v, n)) == v
    decreases n
  {
    if n > 0 {
      var last := [DigitChar(v % 10)];
      assert last[1..] == [];
      PaddedValue(v / 10, n - 1);
      ValueAppend(0, Padded(v / 10, n - 1), last);
      assert ValueFrom(v / 10, last) == ValueFrom(10 * (v / 10) + v % 10, []);
    }
  }

  /** Dropping trailing zeros drops as many factors of ten. */
  lemma {:induction false} FracDigitsValue(v: nat, prec: nat)
    requires 0 < v < Pow10(prec)
    ensures FracDigits(v, prec) != ""
    ensures Times(Value(FracDigits(v, prec)), Pow10(prec - |FracDigits(v, prec)|)) == v
    decreases prec
  {
    if v % 10 == 0 {
      FracDigitsValue(v / 10, prec - 1);
      var s := FracDigits(v, prec);
      assert Value(s) * Pow10(prec - |s|) == 10 * (Value(s) * Pow10(prec - 1 - |s|));
    } else {
      PaddedValue(v, prec);
      assert Value(Padded(v, prec)) * Pow10(0) == v;
    }
  }

  lemma {:induction false} Pow10Splits(k: nat, n: nat)
    requires k <= n
    ensures Pow10(n) == Times(Pow10(n - k), Pow10(k))
    decreases k
  {
    if k > 0 {
      Pow10Splits(k - 1, n - 1);
      TimesTen(Pow10(n - k), Pow10(k - 1));
      assert Pow10(n) == 10 * Pow10(n - 1) && Pow10(k) == 10 * Pow10(k - 1);
      hide Pow10, Times;
    }
  }

  lemma TimesTen(a: nat, b: nat)
    ensures Times(a, 10 * b) == 10 * Times(a, b)
  {
  }

  lemma FractionNanos(v: nat, prec: nat)
    requires 0 < v < Pow10(prec)
    ensures var s := FracDigits(v, prec);
      s != "" && Pow10(prec) % Pow10(|s|) == 0 && FracNanos(s, Pow10(prec)) == v
  {
    var s := FracDigits(v, prec);
    FracDigitsValue(v, prec);
    Pow10Splits(|s|, prec);
    MulDiv(Value(s), Pow10(prec - |s|), Pow10(|s|));
  }

  lemma MulDiv(v: nat, a: nat, b: nat)
    requires b > 0
    ensures Times(a, b) % b == 0
    ensures Over(Times(v, Times(a, b)), b) == Times(v, a)
  {
    assert v * (a * b) == (v * a) * b;
    MulDivides(a, b);
    MulDivides(v * a, b);
  }

  lemma NonzeroMultiple(k: int, b: nat)
    requires k != 0
    ensures k * b >= b || k * b <= 0 - b
  {
    if k >= 1 {
      assert (k - 1) * b >= 0;
    } else {
      assert (-k - 1) * b >= 0;
    }
  }

  lemma MulDivides(q: nat, b: nat)
    requires b > 0
    ensures (q * b) % b == 0 && (q * b) / b == q
  {
    var x := q * b;
    var k := q - x / b;
    assert x == (x / b) * b + x % b;
    assert k * b == x % b;
    if k != 0 {
      NonzeroMultiple(k, b);
      assert false;
    }
  }

  /** A last term with a fraction of its unit. */
  lemma FractionTermNanos(w: nat, v: nat, prec: nat, unit: string)
    requires UnitNanos(unit) == Some(Pow10(prec)) && prec <= 9 && v < Pow10(prec)
    ensures var t := Term(Digits(w), Fraction(v, prec), unit);
      WellFormed(t) && TermNanos(t) == Times(w, Pow10(prec)) + v
  {
    ValueOfDigits(w);
    if v > 0 {
      FractionNanos(v, prec);
    }
  }

  lemma WholeTermNanos(w: nat, unit: string)
    requires UnitNanos(unit).Some? || unit == "d"
    ensures var t := Term(Digits(w), None, unit); WellFormed(t) && TermNanos(t) == Times(w, NanosPerUnit(unit))
  {
    ValueOfDigits(w);
  }

  lemma SumOf1(a: Term)
    requires WellFormed(a)
    ensures AllWellFormed([a]) && Sum([a]) == TermNanos(a)
  {
    assert [a][1..] == [];
  }

  lemma SumOfCons(a: Term, ts: seq<Term>)
    requires WellFormed(a) && AllWellFormed(ts)
    ensures AllWellFormed([a] + ts) && Sum([a] + ts) == TermNanos(a) + Sum(ts)
  {
    assert ([a] + ts)[1..] == ts;
  }

  lemma SubSecond(u: nat)
    requires u < 1_000_000_000
    ensures AllWellFormed(GoTerms(u)) && Sum(GoTerms(u)) == u
  {
    Pow10Nine();
    if u == 0 {
      assert Digits(0) == "0";
      WholeTermNanos(0, "s");
    } else if u < 1_000 {
      WholeTermNanos(u, "ns");
    } else if u < 1_000_000 {
      FractionTermNanos(u / 1_000, u % 1_000, 3, "\U{00B5}s");
    } else {
      FractionTermNanos(u / 1_000_000, u % 1_000_000, 6, "ms");
    }
    SumOf1(GoTerms(u)[0]);
    assert GoTerms(u) == [GoTerms(u)[0]];
  }

  /** The terms after the hours. */
  function MinutesOn(u: nat): seq<Term> {
    var secs := u / 1_000_000_000;
    [Term(Digits(secs / 60 % 60), None, "m"), Term(Digits(secs % 60), Fraction(u % 1_000_000_000, 9), "s")]
  }

  lemma MinutesOnSum(u: nat)
    ensures var secs := u / 1_000_000_000;
      && AllWellFormed(MinutesOn(u))
      && Sum(MinutesOn(u)) == 60_000_000_000 * (secs / 60 % 60) + 1_000_000_000 * (secs % 60) + u % 1_000_000_000
  {
    hide Digits, Fraction, TermNanos, Sum, WellFormed;
    var secs := u / 1_000_000_000;
    Pow10Nine();
    FractionTermNanos(secs % 60, u % 1_000_000_000, 9, "s");
    WholeTermNanos(secs / 60 % 60, "m");
    SumOf1(MinutesOn(u)[1]);
    SumOfCons(MinutesOn(u)[0], [MinutesOn(u)[1]]);
    assert MinutesOn(u) == [MinutesOn(u)[0]] + [MinutesOn(u)[1]];
  }

  /** Seconds, minutes and hours as the printer splits them. */
  lemma ClockSplits(u: nat)
    ensures var secs := u / 1_000_000_000;
      && u == 1_000_000_000 * secs + u % 1_000_000_000
      && secs == 3600 * (secs / 3600) + 60 * (secs / 60 % 60) + secs % 60
      && (secs < 60 ==> secs / 60 % 60 == 0)
      && (secs < 3600 ==> secs / 60 == secs / 60 % 60)
      && 0 <= secs % 60 < 60 && 0 <= secs / 60 % 60 < 60
  {
    var secs := u / 1_000_000_000;
    assert secs / 60 / 60 == secs / 3600;
  }

  lemma TimesDay(h: nat)
    ensures Times(h, NanosPerUnit("d")) == 86_400_000_000_000 * h
  {
  }

  lemma TimesHour(h: nat)
    ensures Times(h, NanosPerUnit("h")) == 3_600_000_000_000 * h
  {
  }

  lemma WithHours(h: nat, u: nat)
    ensures var t := Term(Digits(h), None, "h");
      && AllWellFormed([t] + MinutesOn(u)) && AllWellFormed(MinutesOn(u))
      && Sum([t] + MinutesOn(u)) == 3_600_000_000_000 * h + Sum(MinutesOn(u))
  {
    hide MinutesOn, Sum, TermNanos, WellFormed, Digits, AllWellFormed;
    WholeTermNanos(h, "h");
    MinutesOnSum(u);
    SumOfCons(Term(Digits(h), None, "h"), MinutesOn(u));
    TimesHour(h);
  }

  lemma AboveSecond(u: nat)
    requires u >= 1_000_000_000
    ensures AllWellFormed(GoTerms(u)) && Sum(GoTerms(u)) == u
  {
    var secs := u / 1_000_000_000;
    ClockSplits(u);
    MinutesOnSum(u);
    hide Sum, Digits, WellFormed;
    if secs < 60 {
      LastTermSum(u);
    } else if secs < 3600 {
      assert GoTerms(u) == MinutesOn(u);
    } else {
      WithHours(secs / 3600, u);
      assert GoTerms(u) == [Term(Digits(secs / 3600), None, "h")] + MinutesOn(u);
    }
  }

  lemma LastTermSum(u: nat)
    requires 1_000_000_000 <= u < 60_000_000_000
    ensures AllWellFormed(GoTerms(u)) && Sum(GoTerms(u)) == u
  {
    var secs := u / 1_000_000_000;
    ClockSplits(u);
    Pow10Nine();
    FractionTermNanos(secs % 60, u % 1_000_000_000, 9, "s");
    SumOf1(MinutesOn(u)[1]);
    assert GoTerms(u) == [MinutesOn(u)[1]];
  }

  lemma GoTermsSum(u: nat)
    ensures AllWellFormed(GoTerms(u)) && Sum(GoTerms(u)) == u && GoTerms(u) != []
    ensures forall i | 0 <= i < |GoTerms(u)| ::
      GoTerms(u)[i].unit != "d" && (GoTerms(u)[i].unit == "h" ==> i == 0 && u / 1_000_000_000 >= 3600)
  {
    if u < 1_000_000_000 {
      SubSecond(u);
    } else {
      AboveSecond(u);
    }
  }

  // ----- What String prints

  /** Whole hours of u nanoseconds. */
  function Hours(u: nat): nat {
    u / 1_000_000_000 / 3600
  }

  /** Days and hours in place of the hours, if hours are printed at all. */
  function DayTerms(u: nat): seq<Term> {
    if Hours(u) == 0 then GoTerms(u)
    else [Term(Digits(Hours(u) / 24), None, "d"), Term(Digits(Hours(u) % 24), None, "h")] + MinutesOn(u)
  }

  lemma DayTermsSum(u: nat)
    ensures AllWellFormed(DayTerms(u)) && Sum(DayTerms(u)) == u && DayTerms(u) != []
  {
    GoTermsSum(u);
    var hours := Hours(u);
    if hours > 0 {
      WithDays(u);
    }
  }

  lemma WithDays(u: nat)
    requires Hours(u) > 0
    ensures AllWellFormed(DayTerms(u)) && Sum(DayTerms(u)) == u
  {
    var hours := Hours(u);
    var d := Term(Digits(hours / 24), None, "d");
    var rest := [Term(Digits(hours % 24), None, "h")] + MinutesOn(u);
    assert DayTerms(u) == [d] + rest;
    hide MinutesOn, Sum, Digits, WellFormed, AllWellFormed, TermNanos, DayTerms;
    ClockSplits(u);
    MinutesOnSum(u);
    WithHours(hours % 24, u);
    WholeTermNanos(hours / 24, "d");
    SumOfCons(d, rest);
    TimesDay(hours / 24);
    assert hours == 24 * (hours / 24) + hours % 24;
  }

  lemma TermsOfOne(t: Term, ts: seq<Term>, u: char)
    requires forall i | 0 <= i < |ts| :: ts[i].unit != [u]
    ensures TermsOf(ts, u) == []
    ensures TermsOf([t] + ts, u) == if t.unit == [u] then [Render(t)] else []
  {
    NoTermsOf(ts, u);
    assert ([t] + ts)[1..] == ts;
  }

  lemma {:induction false} NoTermsOf(ts: seq<Term>, u: char)
    requires forall i | 0 <= i < |ts| :: ts[i].unit != [u]
    ensures TermsOf(ts, u) == []
    decreases |ts|
  {
    if ts != [] {
      NoTermsOf(ts[1..], u);
    }
  }

  lemma {:induction false} UntouchedTerms(ts: seq<Term>, u: char, out: string -> string)
    requires forall i | 0 <= i < |ts| :: ts[i].unit != [u]
    ensures RewrittenTerms(ts, u, out) == RenderAll(ts)
    decreases |ts|
  {
    if ts != [] {
      UntouchedTerms(ts[1..], u, out);
    }
  }

  /** String prints the sign and the terms, hours split into days and hours. */
  lemma StringPrintsDayTerms(d: int)
    requires IsInt64(d)
    ensures StringSpec(d) == Sign(d) + RenderAll(DayTerms(Abs(d)))
  {
    var u := Abs(d);
    var ts := GoTerms(u);
    var s := GoString(d);
    GoTermsSum(u);
    if Hours(u) == 0 {
      RewriteSigned(Sign(d), ts, 'h', HoursAsDays);
      NoTermsOf(ts, 'h');
    } else {
      var h := Term(Digits(Hours(u)), None, "h");
      assert ts == [h] + MinutesOn(u);
      OneHourToken(d);
    }
  }

  lemma OneHourToken(d: int)
    requires IsInt64(d) && Hours(Abs(d)) > 0
    ensures StringSpec(d) == Sign(d) + RenderAll(DayTerms(Abs(d)))
  {
    var u := Abs(d);
    var h := Term(Digits(Hours(u)), None, "h");
    var ts := [h] + MinutesOn(u);
    var m := Render(h);
    var out := ByFirstSuffix([m], HoursAsDays);
    GoTermsSum(u);
    assert GoTerms(u) == ts;
    hide Tokens, Rewrite, ReplaceEach, ReplaceAll, GoTerms, MinutesOn, FirstSuffixRule, HoursAsDays, Digits;
    RewriteSigned(Sign(d), ts, 'h', out);
    TermsOfOne(h, MinutesOn(u), 'h');
    UntouchedTerms(MinutesOn(u), 'h', out);
    assert ts[1..] == MinutesOn(u);
    HourTokenSplits(Hours(u));
    SinglePassMeaning(GoString(d), 'h', m, HoursAsDays);
    OnePass(GoString(d), m, HoursAsDays);
    RenderDayTerms(u);
  }

  lemma OnePass(s: string, m: string, f: string -> string)
    requires |m| > 0
    ensures ReplaceEach(s, [m], f) == ReplaceAll(s, m, f(m))
  {
    LoopStep(s, [m], 0, f);
    NothingLeft(ReplaceAll(s, m, f(m)), [m], f);
  }

  lemma HourTokenSplits(hours: nat)
    requires hours < LIMIT
    ensures var m := Render(Term(Digits(hours), None, "h"));
      && IsToken(m, 'h')
      && FirstSuffixRule([m], HoursAsDays, m) == Digits(hours / 24) + "d" + Digits(hours % 24) + "h"
  {
    var m := Render(Term(Digits(hours), None, "h"));
    assert m == Digits(hours) + "h";
    assert m[..|m| - 1] == Digits(hours);
    ValueOfDigits(hours);
    assert m[..0] + HoursAsDays(m) == HoursAsDays(m);
  }

  lemma RenderDayTerms(u: nat)
    requires Hours(u) > 0
    ensures RenderAll(DayTerms(u)) ==
      Digits(Hours(u) / 24) + "d" + Digits(Hours(u) % 24) + "h" + RenderAll(MinutesOn(u))
  {
    var a, b := Term(Digits(Hours(u) / 24), None, "d"), Term(Digits(Hours(u) % 24), None, "h");
    assert DayTerms(u) == [a, b] + MinutesOn(u);
    hide *;
    RenderTwoMore(a, b, MinutesOn(u));
    RenderWhole(Digits(Hours(u) / 24), "d");
    RenderWhole(Digits(Hours(u) % 24), "h");
  }

  lemma RenderWhole(whole: string, unit: string)
    ensures Render(Term(whole, None, unit)) == whole + unit
  {
  }

  lemma RenderTwoMore(a: Term, b: Term, ts: seq<Term>)
    ensures RenderAll([a, b] + ts) == Render(a) + Render(b) + RenderAll(ts)
  {
    var all := [a, b] + ts;
    assert all[1..] == [b] + ts && ([b] + ts)[1..] == ts;
    hide Render;
    assert RenderAll(all) == Render(a) + (Render(b) + RenderAll(ts));
  }

  // ----- Main results

  /** The printed days and hours make up the original hours, and the hours field stays below 24. */
  lemma PrintedHoursBelow24(d: int)
    requires IsInt64(d)
    ensures StringSpec(d) == Sign(d) + RenderAll(DayTerms(Abs(d)))
    ensures var ts := DayTerms(Abs(d));
      forall i | 0 <= i < |ts| && ts[i].unit == "h" ::
        && i == 1 && ts[0].unit == "d" && AllDigits(ts[0].whole) && AllDigits(ts[1].whole)
        && Value(ts[1].whole) < 24
        && 24 * Value(ts[0].whole) + Value(ts[1].whole) == Hours(Abs(d))
  {
    var u := Abs(d);
    StringPrintsDayTerms(d);
    GoTermsSum(u);
    ValueOfDigits(Hours(u) / 24);
    ValueOfDigits(Hours(u) % 24);
  }

  /** Printing a duration and parsing the text gives the duration back, for every 64-bit value. */
  lemma {:induction false} RoundTrip(d: int)
    requires IsInt64(d)
    ensures ParseSpec(StringSpec(d)) == Some(d)
  {
    var u := Abs(d);
    var ts := DayTerms(u);
    StringPrintsDayTerms(d);
    DayTermsSum(u);
    AtMostOneDayToken(d);
    SumThatFits(ts, 0);
    ParsesToSum(Sign(d), ts);
  }

  lemma AtMostOneDayToken(d: int)
    ensures |Tokens(Sign(d) + RenderAll(DayTerms(Abs(d))), 'd')| <= 1
  {
    OneDayTerm(Abs(d));
    hide Tokens, Rewrite, DayTerms, TermsOf, RenderAll, DaysAsHours;
    RewriteSigned(Sign(d), DayTerms(Abs(d)), 'd', DaysAsHours);
  }

  lemma OneDayTerm(u: nat)
    ensures |TermsOf(DayTerms(u), 'd')| <= 1
    ensures forall i | 0 <= i < |DayTerms(u)| :: Rewritable(DayTerms(u)[i], 'd')
  {
    var ts := DayTerms(u);
    DayTermsSum(u);
    GoTermsSum(u);
    hide GoTerms, Sum, WellFormed, Digits, TermsOf;
    if Hours(u) == 0 {
      NoTermsOf(ts, 'd');
    } else {
      TermsOfOne(ts[0], ts[1..], 'd');
      assert ts == [ts[0]] + ts[1..];
    }
  }
}
