/** What durations look like, in figures: what each unit is worth, which texts are accepted at all, and the one text
    that is printed for a duration. */
module DurationGrammar {
  import opened Wrappers
  import opened Int64
  import opened Text
  import opened DurationText
  import opened DurationTheorems
  import opened DurationRoundTrip
  import opened DurationReading
  import Sequences

  // ----- What each unit is worth

  /** A number of nanoseconds as a duration; an error if it does not fit. */
  function Nanoseconds(n: int): Option<int> {
    if -0x8000_0000_0000_0000 <= n < 0x8000_0000_0000_0000 then Some(n) else None
  }

  function WithSign(sign: string, n: nat): int {
    if sign == "-" then 0 - n else n
  }

  lemma SignedIsNanoseconds(sign: string, n: nat)
    requires IsSign(sign)
    ensures (if n <= Bound(sign) then Some(Signed(sign, n)) else None) == Nanoseconds(WithSign(sign, n))
  {
  }

  /** A single term with one of Go's own units. */
  lemma SingleTermParses(sign: string, t: Term)
    requires IsSign(sign) && WellFormed(t) && t.unit != "d"
    ensures ParseSpec(sign + Render(t)) == Nanoseconds(WithSign(sign, TermNanos(t)))
  {
    SingleTermOk(t);
    RenderSingle(t);
    SumOf1(t);
    NoDayTerm(t);
    AllRewritable([t]);
    SignedIsNanoseconds(sign, TermNanos(t));
    hide RenderAll, Sum, TermNanos, WellFormed, NoDoubleFill, ParseSpec, Tokens, Rewrite,
      TermsOf, Render, DaysAsHours, Signed;
    RewriteSigned(sign, [t], 'd', DaysAsHours);
    NoTokenNoCapture();
    ParsesToSum(sign, [t]);
  }

  lemma NoDayTerm(t: Term)
    requires WellFormed(t) && t.unit != "d"
    ensures TermsOf([t], 'd') == [] && AllWellFormed([t]) && SmallDays([t][0])
  {
    NoTermsOf([t], 'd');
    hide TermsOf, WellFormed;
  }

  lemma NoTokenNoCapture()
    ensures NoCapture([])
  {
  }

  /** A whole number of a unit that is worth k nanoseconds. */
  lemma WholeNumber(sign: string, n: string, unit: string, k: nat)
    requires IsSign(sign) && AllDigits(n) && n != "" && UnitNanos(unit) == Some(k)
    ensures ParseSpec(sign + (n + unit)) == Nanoseconds(WithSign(sign, Value(n) * k))
  {
    var t := Term(n, None, unit);
    RenderWhole(n, unit);
    assert unit != "d";
    assert TermNanos(t) == Times(Value(n), k);
    hide ParseSpec, Nanoseconds, WithSign, Render, Value, UnitNanos;
    SingleTermParses(sign, t);
  }

  /** For every digit string, with or without a sign: what it is worth in each unit, or that it is an error because it
      does not fit. */
  lemma {:induction false} UnitsInNanoseconds(sign: string, n: string)
    requires IsSign(sign) && AllDigits(n) && n != ""
    ensures ParseSpec(sign + (n + "ns")) == Nanoseconds(WithSign(sign, Value(n)))
    ensures ParseSpec(sign + (n + "us")) == Nanoseconds(WithSign(sign, Value(n) * 1_000))
    ensures ParseSpec(sign + (n + "\U{00B5}s")) == Nanoseconds(WithSign(sign, Value(n) * 1_000))
    ensures ParseSpec(sign + (n + "\U{03BC}s")) == Nanoseconds(WithSign(sign, Value(n) * 1_000))
    ensures ParseSpec(sign + (n + "ms")) == Nanoseconds(WithSign(sign, Value(n) * 1_000_000))
    ensures ParseSpec(sign + (n + "s")) == Nanoseconds(WithSign(sign, Value(n) * 1_000_000_000))
    ensures ParseSpec(sign + (n + "m")) == Nanoseconds(WithSign(sign, Value(n) * 60_000_000_000))
    ensures ParseSpec(sign + (n + "h")) == Nanoseconds(WithSign(sign, Value(n) * 3_600_000_000_000))
    ensures 24 * Value(n) < 0x8000_0000_0000_0000 ==>
      ParseSpec(sign + (n + "d")) == Nanoseconds(WithSign(sign, Value(n) * 86_400_000_000_000))
  {
    Units();
    hide ParseSpec, Nanoseconds, WithSign, Value, UnitNanos;
    WholeNumber(sign, n, "ns", 1);
    WholeNumber(sign, n, "us", 1_000);
    WholeNumber(sign, n, "\U{00B5}s", 1_000);
    WholeNumber(sign, n, "\U{03BC}s", 1_000);
    WholeNumber(sign, n, "ms", 1_000_000);
    WholeNumber(sign, n, "s", 1_000_000_000);
    WholeNumber(sign, n, "m", 60_000_000_000);
    WholeNumber(sign, n, "h", 3_600_000_000_000);
    if 24 * Value(n) < 0x8000_0000_0000_0000 {
      DaysInNanoseconds(sign, n);
    }
  }

  lemma Units()
    ensures UnitNanos("ns") == Some(1) && UnitNanos("us") == Some(1_000)
    ensures UnitNanos("\U{00B5}s") == Some(1_000) && UnitNanos("\U{03BC}s") == Some(1_000)
    ensures UnitNanos("ms") == Some(1_000_000) && UnitNanos("s") == Some(1_000_000_000)
    ensures UnitNanos("m") == Some(60_000_000_000) && UnitNanos("h") == Some(3_600_000_000_000)
  {
  }

  lemma DaysInNanoseconds(sign: string, n: string)
    requires IsSign(sign) && AllDigits(n) && n != "" && 24 * Value(n) < 0x8000_0000_0000_0000
    ensures ParseSpec(sign + (n + "d")) == Nanoseconds(WithSign(sign, Value(n) * 86_400_000_000_000))
  {
    DayCountRightExactly(sign, n);
    hide ParseSpec, Value, HoursComputed;
    SignedIsNanoseconds(sign, 24 * Value(n) * HOUR);
  }

  /** Digits behind the point, as many as len, always come to whole nanoseconds of a unit worth k. */
  predicate IsWhole(k: nat, len: nat) {
    k % Pow10(len) == 0
  }

  /** A number with a point in it, and a unit. */
  function PointText(n: string, frac: string, unit: string): string {
    n + "." + frac + unit
  }

  /** A number with a fraction of a unit that is worth k nanoseconds, where that comes to whole nanoseconds. */
  lemma FractionalNumber(sign: string, n: string, frac: string, unit: string, k: nat)
    requires IsSign(sign) && AllDigits(n) && AllDigits(frac) && UnitNanos(unit) == Some(k)
    requires 0 < |frac| <= 9 && IsWhole(k, |frac|)
    ensures ParseSpec(sign + PointText(n, frac, unit)) ==
      Nanoseconds(WithSign(sign, Times(Value(n), k) + Over(Times(Value(frac), k), Pow10(|frac|))))
  {
    hide *;
    var t := Term(n, Some(frac), unit);
    FractionTermOk(n, frac, unit, k);
    RenderPoint(n, frac, unit);
    SingleTermParses(sign, t);
  }

  lemma FractionTermOk(n: string, frac: string, unit: string, k: nat)
    requires AllDigits(n) && AllDigits(frac) && UnitNanos(unit) == Some(k)
    requires 0 < |frac| <= 9 && IsWhole(k, |frac|)
    ensures var t := Term(n, Some(frac), unit);
      && WellFormed(t) && t.unit != "d"
      && TermNanos(t) == Times(Value(n), k) + Over(Times(Value(frac), k), Pow10(|frac|))
  {
    hide Value, Times, Over, Pow10;
  }

  lemma RenderPoint(n: string, frac: string, unit: string)
    ensures Render(Term(n, Some(frac), unit)) == PointText(n, frac, unit)
  {
    Sequences.Associates(n, ".", frac);
  }

  /** v / 10^len of c seconds, in nanoseconds. */
  lemma PartOfSeconds(v: nat, len: nat, c: nat)
    requires len <= 9
    ensures IsWhole(c * 1_000_000_000, len)
    ensures Over(Times(v, c * 1_000_000_000), Pow10(len)) == Times(c, Times(v, Pow10(9 - len)))
  {
    var p, q := Pow10(len), Pow10(9 - len);
    Pow10Splits(len, 9);
    Pow10Nine();
    assert Times(q, p) == 1_000_000_000;
    hide Pow10;
    ProductParts(v, p, q, c);
  }

  lemma ProductParts(v: nat, p: nat, q: nat, c: nat)
    requires p > 0 && q * p == 1_000_000_000
    ensures (c * 1_000_000_000) % p == 0
    ensures Over(Times(v, c * 1_000_000_000), p) == c * (v * q)
  {
    Regroup(c, q, p);
    MulDivides(c * q, p);
    Regroup3(v, c, q, p);
    MulDivides(c * (v * q), p);
  }

  lemma Regroup(c: nat, q: nat, p: nat)
    ensures c * (q * p) == c * q * p
  {
  }

  lemma Regroup3(v: nat, c: nat, q: nat, p: nat)
    ensures v * (c * (q * p)) == c * (v * q) * p
  {
    assert v * (c * (q * p)) == (v * c) * (q * p);
    assert (v * c) * (q * p) == (c * v) * (q * p);
    assert (c * v) * (q * p) == c * (v * (q * p));
    assert v * (q * p) == v * q * p;
    assert c * (v * q * p) == c * (v * q) * p;
  }

  /** For every number with up to nine digits behind the point, with or without a sign: what it is worth in hours,
      minutes and seconds. */
  lemma {:induction false} FractionsInNanoseconds(sign: string, n: string, frac: string)
    requires IsSign(sign) && AllDigits(n) && AllDigits(frac) && 0 < |frac| <= 9
    ensures var part := Value(frac) * Pow10(9 - |frac|);
      && ParseSpec(sign + (n + "." + frac + "s")) == Nanoseconds(WithSign(sign, Value(n) * 1_000_000_000 + part))
      && ParseSpec(sign + (n + "." + frac + "m")) == Nanoseconds(WithSign(sign, Value(n) * 60_000_000_000 + 60 * part))
      && ParseSpec(sign + (n + "." + frac + "h")) ==
           Nanoseconds(WithSign(sign, Value(n) * 3_600_000_000_000 + 3_600 * part))
  {
    Units();
    hide ParseSpec, Nanoseconds, WithSign, Value, UnitNanos, Pow10, Over;
    FractionOfSeconds(sign, n, frac, "s", 1);
    FractionOfSeconds(sign, n, frac, "m", 60);
    FractionOfSeconds(sign, n, frac, "h", 3_600);
  }

  lemma FractionOfSeconds(sign: string, n: string, frac: string, unit: string, c: nat)
    requires IsSign(sign) && AllDigits(n) && AllDigits(frac) && 0 < |frac| <= 9
    requires UnitNanos(unit) == Some(c * 1_000_000_000)
    ensures ParseSpec(sign + PointText(n, frac, unit)) ==
      Nanoseconds(WithSign(sign,
        Times(Value(n), c * 1_000_000_000) + Times(c, Times(Value(frac), Pow10(9 - |frac|)))))
  {
    hide *;
    PartOfSeconds(Value(frac), |frac|, c);
    FractionalNumber(sign, n, frac, unit, c * 1_000_000_000);
  }

  // ----- Which texts are accepted

  /** A number with one of Go's units: digits before the point or behind it, and any number of them. */
  predicate Acceptable(t: Term) {
    && AllDigits(t.whole)
    && (t.frac.None? ==> t.whole != "")
    && (t.frac.Some? ==> AllDigits(t.frac.value) && (t.whole != "" || t.frac.value != ""))
    && t.unit in ["ns", "us", "\U{00B5}s", "\U{03BC}s", "ms", "s", "m", "h"]
  }

  ghost predicate AllAcceptable(ts: seq<Term>) {
    forall i | 0 <= i < |ts| :: Acceptable(ts[i])
  }

  lemma {:induction false} LeadingIntSplits(s: string, x: nat) returns (n: nat)
    requires LeadingInt(s, x).Some?
    ensures n <= |s| && AllDigits(s[..n]) && s[n..] == LeadingInt(s, x).value.1
    decreases |s|
  {
    if s == [] || !IsDigit(s[0]) {
      n := 0;
    } else {
      n := LeadingIntSplits(s[1..], 10 * x + DigitValue(s[0]));
      hide LeadingInt;
      OneDigitMore(s, n);
      n := n + 1;
    }
  }

  lemma OneDigitMore(s: string, n: nat)
    requires s != [] && IsDigit(s[0]) && n < |s| && AllDigits(s[1..][..n])
    ensures n + 1 <= |s| && AllDigits(s[..n + 1]) && s[n + 1..] == s[1..][n..]
  {
    var front := s[..n + 1];
    forall i | 0 <= i < |front| ensures IsDigit(front[i]) {
      assert i > 0 ==> front[i] == s[1..][..n][i - 1];
    }
  }

  lemma {:induction false} LeadingFractionSplits(s: string, f: nat, scale: nat, full: bool) returns (n: nat)
    requires scale > 0
    ensures n <= |s| && AllDigits(s[..n]) && s[n..] == LeadingFraction(s, f, scale, full).2
    decreases |s|
  {
    if s == [] || !IsDigit(s[0]) {
      n := 0;
    } else {
      var more := full || f > (LIMIT - 1) / 10 || 10 * f + DigitValue(s[0]) > LIMIT;
      n := LeadingFractionSplits(s[1..], if more then f else 10 * f + DigitValue(s[0]), if more then scale else 10 * scale,
        more);
      hide LeadingFraction;
      OneDigitMore(s, n);
      n := n + 1;
    }
  }

  /** How the parser cuts up the front of s: a number, perhaps a point and more digits, and a unit. */
  ghost predicate CutInto(s: string, t: Term, rest: string) {
    && Acceptable(t) && s == Render(t) + rest
  }

  /** The text at the front of s that the parser takes for a number with its unit is one. */
  lemma TermOfAccepted(s: string) returns (t: Term)
    requires s != [] && ParseTerm(s).Some?
    ensures CutInto(s, t, ParseTerm(s).value.1)
  {
    var r1 := LeadingInt(s, 0).value.1;
    var w := LeadingIntSplits(s, 0);
    if r1 != [] && r1[0] == '.' {
      t := TermWithPoint(s, w, r1);
    } else {
      t := TermWithoutPoint(s, w, r1);
    }
  }

  lemma TermWithPoint(s: string, w: nat, r1: string) returns (t: Term)
    requires s != [] && ParseTerm(s).Some? && LeadingInt(s, 0).Some? && r1 == LeadingInt(s, 0).value.1
    requires w <= |s| && AllDigits(s[..w]) && s[w..] == r1 && r1 != [] && r1[0] == '.'
    ensures CutInto(s, t, ParseTerm(s).value.1)
  {
    var r2 := LeadingFraction(r1[1..], 0, 1, false).2;
    var f := LeadingFractionSplits(r1[1..], 0, 1, false);
    PointResult(s, r1, r2);
    hide ParseTerm, LeadingInt, LeadingFraction, UnitRun, UnitNanos, Render;
    t := Term(s[..w], Some(r1[1..][..f]), r2[..UnitRun(r2)]);
    UnitListed(t.unit);
    DigitsSomewhere(s, w, r1, f, r2);
    PiecesWithPoint(s, w, r1, f, r2, UnitRun(r2));
    RenderOfPoint(s[..w], r1[1..][..f], t.unit);
  }

  lemma PointResult(s: string, r1: string, r2: string)
    requires s != [] && ParseTerm(s).Some? && LeadingInt(s, 0).Some? && r1 == LeadingInt(s, 0).value.1
    requires r1 != [] && r1[0] == '.' && r2 == LeadingFraction(r1[1..], 0, 1, false).2
    ensures UnitNanos(r2[..UnitRun(r2)]).Some? && ParseTerm(s).value.1 == r2[UnitRun(r2)..]
    ensures |r1| < |s| || |r2| < |r1| - 1
  {
    hide LeadingInt, LeadingFraction, UnitRun, UnitNanos, Nanos;
  }

  lemma DigitsSomewhere(s: string, w: nat, r1: string, f: nat, r2: string)
    requires w <= |s| && s[w..] == r1 && r1 != [] && f <= |r1[1..]| && r1[1..][f..] == r2
    requires |r1| < |s| || |r2| < |r1| - 1
    ensures s[..w] != "" || r1[1..][..f] != ""
  {
  }

  lemma RenderOfPoint(whole: string, frac: string, unit: string)
    ensures Render(Term(whole, Some(frac), unit)) == whole + ("." + frac) + unit
  {
  }

  lemma UnitListed(unit: string)
    requires UnitNanos(unit).Some?
    ensures unit in ["ns", "us", "\U{00B5}s", "\U{03BC}s", "ms", "s", "m", "h"]
  {
  }

  lemma TermWithoutPoint(s: string, w: nat, r1: string) returns (t: Term)
    requires s != [] && ParseTerm(s).Some? && LeadingInt(s, 0).Some? && r1 == LeadingInt(s, 0).value.1
    requires w <= |s| && AllDigits(s[..w]) && s[w..] == r1 && !(r1 != [] && r1[0] == '.')
    ensures CutInto(s, t, ParseTerm(s).value.1)
  {
    NoPointResult(s, r1);
    hide ParseTerm, LeadingInt, UnitRun, UnitNanos, Render;
    t := Term(s[..w], None, r1[..UnitRun(r1)]);
    UnitListed(t.unit);
    PiecesWithoutPoint(s, w, r1, UnitRun(r1));
    RenderWhole(s[..w], t.unit);
    assert s[..w] + "" == s[..w];
  }

  lemma NoPointResult(s: string, r1: string)
    requires s != [] && ParseTerm(s).Some? && LeadingInt(s, 0).Some? && r1 == LeadingInt(s, 0).value.1
    requires !(r1 != [] && r1[0] == '.')
    ensures UnitNanos(r1[..UnitRun(r1)]).Some? && ParseTerm(s).value.1 == r1[UnitRun(r1)..] && |r1| < |s|
  {
    hide LeadingInt, UnitRun, UnitNanos, Nanos;
  }

  lemma PiecesWithPoint(s: string, w: nat, r1: string, f: nat, r2: string, n: nat)
    requires w <= |s| && s[w..] == r1 && r1 != [] && r1[0] == '.' && f <= |r1[1..]| && r1[1..][f..] == r2 && n <= |r2|
    ensures s == s[..w] + ("." + r1[1..][..f]) + r2[..n] + r2[n..]
  {
    Sequences.TakeDrop(s, w);
    Sequences.HeadAndTail(r1);
    Sequences.TakeDrop(r1[1..], f);
    Sequences.TakeDrop(r2, n);
    Glued(s, s[..w], r1, r1[1..], r1[1..][..f], r2, r2[..n], r2[n..]);
  }

  lemma Glued(s: string, a: string, r1: string, q: string, b: string, r2: string, c: string, d: string)
    requires s == a + r1 && r1 == ['.'] + q && q == b + r2 && r2 == c + d
    ensures s == a + ("." + b) + c + d
  {
    Sequences.Associates(['.'], b, r2);
    Sequences.Associates(a, "." + b, r2);
    Sequences.Associates(a + ("." + b), c, d);
  }

  lemma PiecesWithoutPoint(s: string, w: nat, r1: string, n: nat)
    requires w <= |s| && s[w..] == r1 && n <= |r1|
    ensures s == s[..w] + "" + r1[..n] + r1[n..]
  {
    assert s == s[..w] + r1;
  }

  lemma {:induction false} ListOfAccepted(s: string, d: nat) returns (ts: seq<Term>)
    requires ParseTerms(s, d).Some?
    ensures AllAcceptable(ts) && s == RenderAll(ts) && (s != "" ==> ts != [])
    decreases |s|
  {
    if s == [] {
      ts := [];
    } else {
      var t := TermOfAccepted(s);
      assert Acceptable(t) && s == Render(t) + ParseTerm(s).value.1;
      hide ParseTerm, Render, Acceptable, CutInto;
      var (v, rest) := ParseTerm(s).value;
      var more := ListOfAccepted(rest, (d + v) % (2 * LIMIT));
      ts := [t] + more;
      Sequences.Cons(t, more);
    }
  }

  /** A sign or none, and then "0" or a list of acceptable numbers with units. */
  ghost predicate DurationShaped(s: string) {
    exists sign, ts :: HasShape(s, sign, ts)
  }

  ghost predicate HasShape(s: string, sign: string, ts: seq<Term>) {
    IsSign(sign) && (s == sign + "0" || (ts != [] && AllAcceptable(ts) && s == sign + RenderAll(ts)))
  }

  lemma AcceptedByGo(s: string)
    requires ParseDuration(s).Some?
    ensures DurationShaped(s)
  {
    var sign := if s != [] && (s[0] == '-' || s[0] == '+') then [s[0]] else "";
    var body := if s != [] && (s[0] == '-' || s[0] == '+') then s[1..] else s;
    assert s == sign + body;
    var ts: seq<Term> := [];
    if body != "0" {
      ts := ListOfAccepted(body, 0);
    }
    hide ParseDuration, ParseTerms, RenderAll;
    assert HasShape(s, sign, ts);
  }

  /** What Go's parser is given in the end: the text itself if it has no "d". */
  lemma NothingToReplaceIn(s: string)
    requires 'd' !in s
    ensures Tokens(s, 'd') == [] && ParseSpec(s) == ParseDuration(s)
  {
    NoDayTokens(s);
    hide ParseDuration, Tokens;
  }

  lemma {:induction false} NoDayTokens(s: string)
    requires 'd' !in s
    ensures Tokens(s, 'd') == []
    decreases |s|
  {
    var n := DigitRun(s);
    if n < |s| {
      assert s[n] in s;
      NoDayTokens(s[n + 1..]);
    }
  }

  /** Only durations are accepted: every text without a "d" that parses has the shape of one, and so has, for every
      text that parses, what the loop over its day tokens leaves. */
  lemma {:induction false} AcceptedIsShaped(s: string)
    requires ParseSpec(s).Some?
    ensures DurationShaped(ReplaceEach(s, Tokens(s, 'd'), DaysAsHours))
    ensures 'd' !in s ==> DurationShaped(s)
  {
    hide ParseDuration, Tokens, ReplaceEach, DurationShaped, DaysAsHours;
    AcceptedByGo(ReplaceEach(s, Tokens(s, 'd'), DaysAsHours));
    if 'd' !in s {
      NothingToReplaceIn(s);
      AcceptedByGo(s);
    }
  }

  /** Every number needs one of the units, and there must be a number; only a zero may do without. */
  lemma {:induction false} OtherTextsAreErrors(n: string, unit: string)
    requires AllDigits(n) && n != ""
    requires unit != "" && 'd' !in unit && forall i | 0 <= i < |unit| :: unit[i] != '.' && !IsDigit(unit[i])
    requires unit !in ["ns", "us", "\U{00B5}s", "\U{03BC}s", "ms", "s", "m", "h"]
    ensures ParseSpec("") == None && ParseSpec("-") == None && ParseSpec("+") == None
    ensures ParseSpec("0") == ParseSpec("-0") == ParseSpec("+0") == Some(0)
    ensures n != "0" ==> ParseSpec(n) == None
    ensures ParseSpec(n + unit) == None
  {
    NoText();
    if n != "0" {
      NumberWithout(n, "");
      assert n + "" == n;
    }
    NumberWithout(n, unit);
  }

  lemma NoText()
    ensures ParseSpec("") == None && ParseSpec("-") == None && ParseSpec("+") == None
    ensures ParseSpec("0") == ParseSpec("-0") == ParseSpec("+0") == Some(0)
  {
    NothingToReplaceIn("0");
    NothingToReplaceIn("-0");
    NothingToReplaceIn("+0");
    NothingToReplaceIn("");
    NothingToReplaceIn("-");
    NothingToReplaceIn("+");
  }

  lemma NumberWithout(n: string, unit: string)
    requires AllDigits(n) && n != "" && n + unit != "0" && 'd' !in unit && UnitNanos(unit) == None
    requires forall i | 0 <= i < |unit| :: unit[i] != '.' && !IsDigit(unit[i])
    ensures ParseSpec(n + unit) == None
  {
    var s := n + unit;
    assert 'd' !in n;
    NothingToReplaceIn(s);
    LeadingIntOf(n, unit, 0);
    assert unit + "" == unit;
    UnitRunOf(unit, "");
    hide LeadingInt, UnitRun, UnitNanos, ParseSpec, LeadingFraction, ValueFrom;
    assert unit[..|unit|] == unit;
    assert ParseTerm(s) == None;
    hide ParseTerm;
    assert s[0] != '-' && s[0] != '+';
  }

  // ----- The text that is printed

  /** Digits as they are printed: no zero leads, unless it is the only one. */
  predicate Plain(digits: string) {
    digits != "" && AllDigits(digits) && (digits[0] == '0' ==> |digits| == 1)
  }

  predicate PlainFraction(frac: Option<string>) {
    frac.Some? ==> frac.value != "" && AllDigits(frac.value) && frac.value[|frac.value| - 1] != '0'
  }

  /** A whole number below a limit, of a unit that takes no fraction. */
  predicate Whole(t: Term, unit: string, limit: nat) {
    Plain(t.whole) && t.frac == None && t.unit == unit && Value(t.whole) < limit
  }

  /** A number from 1 up and below a thousand of a unit below the second. */
  predicate Small(t: Term, unit: string) {
    Plain(t.whole) && PlainFraction(t.frac) && t.unit == unit && 1 <= Value(t.whole) < 1_000
  }

  predicate Seconds(t: Term) {
    Plain(t.whole) && PlainFraction(t.frac) && t.unit == "s" && Value(t.whole) < 60
  }

  /** The terms for u nanoseconds: below a second the one unit that leaves a number from 1 up; from a second on seconds,
      from a minute on minutes before them, and from an hour on days and hours before those. */
  predicate Canonical(u: nat, ts: seq<Term>) {
    if u == 0 then ts == [Term("0", None, "s")]
    else if u < 1_000 then |ts| == 1 && Whole(ts[0], "ns", 1_000)
    else if u < 1_000_000 then |ts| == 1 && Small(ts[0], "\U{00B5}s")
    else if u < 1_000_000_000 then |ts| == 1 && Small(ts[0], "ms")
    else if u < 60_000_000_000 then |ts| == 1 && Seconds(ts[0])
    else if u < 3_600_000_000_000 then |ts| == 2 && Whole(ts[0], "m", 60) && Seconds(ts[1])
    else
      && |ts| == 4 && Plain(ts[0].whole) && ts[0].frac == None && ts[0].unit == "d"
      && Whole(ts[1], "h", 24) && Whole(ts[2], "m", 60) && Seconds(ts[3])
  }

  lemma {:induction false} DigitsArePlain(n: nat)
    ensures Plain(Digits(n)) && Value(Digits(n)) == n
  {
    ValueOfDigits(n);
    if n > 0 {
      DigitsLeadsNonzero(n);
    }
  }

  lemma {:induction false} FractionIsPlain(v: nat, prec: nat)
    requires v < Pow10(prec)
    ensures PlainFraction(Fraction(v, prec))
    decreases prec
  {
    if v > 0 {
      FracDigitsEnd(v, prec);
    }
  }

  lemma {:induction false} FracDigitsEnd(v: nat, prec: nat)
    requires 0 < v < Pow10(prec)
    ensures var s := FracDigits(v, prec); s != "" && AllDigits(s) && s[|s| - 1] != '0'
    decreases prec
  {
    if v % 10 == 0 {
      FracDigitsEnd(v / 10, prec - 1);
    } else {
      var s := Padded(v, prec);
      assert s[|s| - 1] == DigitChar(v % 10);
      assert DigitValue(s[|s| - 1]) == v % 10;
    }
  }

  lemma SecondsArePlain(u: nat)
    ensures Seconds(Term(Digits(u / 1_000_000_000 % 60), Fraction(u % 1_000_000_000, 9), "s"))
  {
    Pow10Nine();
    DigitsArePlain(u / 1_000_000_000 % 60);
    FractionIsPlain(u % 1_000_000_000, 9);
    hide Digits, Fraction, Value, Pow10, Plain, PlainFraction;
  }

  lemma WholeIsPlain(n: nat, unit: string, limit: nat)
    requires n < limit
    ensures Whole(Term(Digits(n), None, unit), unit, limit)
  {
    DigitsArePlain(n);
    hide Digits, Value, Plain;
  }

  lemma SmallIsPlain(n: nat, v: nat, prec: nat, unit: string)
    requires 1 <= n < 1_000 && v < Pow10(prec)
    ensures Small(Term(Digits(n), Fraction(v, prec), unit), unit)
  {
    DigitsArePlain(n);
    FractionIsPlain(v, prec);
    hide Digits, Fraction, Value, Pow10, Plain, PlainFraction;
  }

  lemma BelowSecond(u: nat)
    requires u < 1_000_000_000
    ensures Canonical(u, DayTerms(u))
  {
    Pow10Nine();
    assert Hours(u) == 0;
    hide Digits, Fraction, Value, Pow10, Whole, Small, MinutesOn;
    if u == 0 {
    } else if u < 1_000 {
      WholeIsPlain(u, "ns", 1_000);
    } else if u < 1_000_000 {
      SmallIsPlain(u / 1_000, u % 1_000, 3, "\U{00B5}s");
    } else {
      SmallIsPlain(u / 1_000_000, u % 1_000_000, 6, "ms");
    }
  }

  lemma FromSecond(u: nat)
    requires u >= 1_000_000_000
    ensures Canonical(u, DayTerms(u))
  {
    var secs := u / 1_000_000_000;
    SecondsArePlain(u);
    WholeIsPlain(secs / 60 % 60, "m", 60);
    DigitsArePlain(Hours(u) / 24);
    WholeIsPlain(Hours(u) % 24, "h", 24);
    hide Digits, Fraction, Value, Whole, Seconds, Plain;
    assert secs < 3_600 ==> secs / 60 % 60 == secs / 60;
    assert secs < 60 ==> secs % 60 == secs;
  }

  /** What is printed for every 64-bit duration: a minus sign if it is negative, and the canonical terms of its
      magnitude. With RoundTrip, which fixes the value, this leaves no choice. */
  lemma {:induction false} PrintsCanonically(d: int)
    requires IsInt64(d)
    ensures var u := if d < 0 then -d else d;
      StringSpec(d) == (if d < 0 then "-" else "") + RenderAll(DayTerms(u)) && Canonical(u, DayTerms(u))
  {
    StringPrintsDayTerms(d);
    hide StringSpec, RenderAll, Canonical, DayTerms;
    var u: nat := if d < 0 then -d else d;
    if u < 1_000_000_000 {
      BelowSecond(u);
    } else {
      FromSecond(u);
    }
  }
}
