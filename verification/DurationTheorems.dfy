/** The duration text round trip, and what day tokens mean to the parser. */
module DurationTheorems {
  import opened Wrappers
  import opened Int64
  import opened Text
  import opened DurationText
  import Sequences

  // ----- Numbers with units

  function NanosPerUnit(u: string): (n: nat)
    requires UnitNanos(u).Some? || u == "d"
    ensures n > 0
  {
    if u == "d" then 24 * HOUR else UnitNanos(u).value
  }

  /** Go's documented syntax of one term, with whole days added. A fraction has at most nine digits and
      resolves to whole nanoseconds of its unit. */
  ghost predicate WellFormed(t: Term) {
    && AllDigits(t.whole)
    && (UnitNanos(t.unit).Some? || (t.unit == "d" && t.frac == None))
    && (t.frac == None ==> t.whole != "")
    && (t.frac.Some? ==>
          && AllDigits(t.frac.value) && 0 < |t.frac.value| <= 9
          && NanosPerUnit(t.unit) % Pow10(|t.frac.value|) == 0)
  }

  function FracNanos(frac: string, unit: nat): nat
    requires AllDigits(frac)
  {
    Over(Times(Value(frac), unit), Pow10(|frac|))
  }

  /** What a term denotes; a day is 24 hours. */
  ghost function TermNanos(t: Term): nat
    requires WellFormed(t)
  {
    Times(Value(t.whole), NanosPerUnit(t.unit)) +
    if t.frac.Some? then FracNanos(t.frac.value, NanosPerUnit(t.unit)) else 0
  }

  ghost predicate AllWellFormed(ts: seq<Term>) {
    forall i | 0 <= i < |ts| :: WellFormed(ts[i])
  }

  ghost function Sum(ts: seq<Term>): nat
    requires AllWellFormed(ts)
  {
    if ts == [] then 0 else TermNanos(ts[0]) + Sum(ts[1..])
  }

  // ----- Go's parser on one term

  lemma {:induction false} ValueGrows(x: nat, s: string)
    requires AllDigits(s)
    ensures ValueFrom(x, s) >= x
    decreases |s|
  {
    if s != [] {
      ValueGrows(10 * x + DigitValue(s[0]), s[1..]);
    }
  }

  lemma {:induction false} LeadingIntOf(digits: string, rest: string, x: nat)
    requires AllDigits(digits) && x <= LIMIT && (rest == [] || !IsDigit(rest[0]))
    ensures LeadingInt(digits + rest, x) ==
      if ValueFrom(x, digits) <= LIMIT then Some((ValueFrom(x, digits), rest)) else None
    decreases |digits|
  {
    if digits == [] {
      assert digits + rest == rest;
    } else {
      assert (digits + rest)[1..] == digits[1..] + rest;
      var y := 10 * x + DigitValue(digits[0]);
      ValueGrows(y, digits[1..]);
      if y <= LIMIT {
        LeadingIntOf(digits[1..], rest, y);
      }
    }
  }

  lemma {:induction false} ValueBelowPow10(s: string)
    requires AllDigits(s)
    ensures Value(s) < Pow10(|s|)
    decreases |s|
  {
    if s != [] {
      var front, last := s[..|s| - 1], s[|s| - 1..];
      assert s == front + last && last[1..] == [];
      ValueBelowPow10(front);
      ValueAppend(0, front, last);
      assert ValueFrom(Value(front), last) == ValueFrom(10 * Value(front) + DigitValue(last[0]), []);
    }
  }

  lemma Pow10Nine()
    ensures Pow10(9) == 1_000_000_000 && Pow10(6) == 1_000_000 && Pow10(3) == 1_000
  {
    assert Pow10(2) == 100;
    assert Pow10(4) == 10_000;
    assert Pow10(6) == 1_000_000;
    assert Pow10(8) == 100_000_000;
  }

  lemma {:induction false} Pow10Grows(k: nat, n: nat)
    requires k <= n
    ensures Pow10(k) <= Pow10(n)
    decreases n
  {
    if k < n {
      Pow10Grows(k, n - 1);
    }
  }

  lemma TimesShift(a: nat, b: nat)
    ensures Times(10 * a, b) == Times(a, 10 * b)
  {
  }

  lemma {:induction false} LeadingFractionOf(digits: string, rest: string, f: nat, scale: nat)
    requires AllDigits(digits) && scale > 0 && (rest == [] || !IsDigit(rest[0]))
    requires ValueFrom(f, digits) < 1_000_000_000
    ensures LeadingFraction(digits + rest, f, scale, false) ==
      (ValueFrom(f, digits), Times(scale, Pow10(|digits|)), rest)
    decreases |digits|
  {
    if digits == [] {
      assert digits + rest == rest;
    } else {
      assert (digits + rest)[1..] == digits[1..] + rest;
      var y := 10 * f + DigitValue(digits[0]);
      ValueGrows(y, digits[1..]);
      LeadingFractionOf(digits[1..], rest, y, 10 * scale);
      TimesShift(scale, Pow10(|digits| - 1));
      assert Pow10(|digits|) == 10 * Pow10(|digits| - 1);
      hide Times, Pow10;
    }
  }

  lemma {:induction false} UnitRunOf(unit: string, rest: string)
    requires forall i | 0 <= i < |unit| :: unit[i] != '.' && !IsDigit(unit[i])
    requires rest == [] || rest[0] == '.' || IsDigit(rest[0])
    ensures UnitRun(unit + rest) == |unit|
    decreases |unit|
  {
    if unit == [] {
      assert unit + rest == rest;
    } else {
      assert (unit + rest)[1..] == unit[1..] + rest;
      UnitRunOf(unit[1..], rest);
    }
  }

  /** A unit has one or two characters, none of which continues a number. */
  lemma UnitShape(u: string)
    requires UnitNanos(u).Some? || u == "d"
    ensures 1 <= |u| <= 2 && forall i | 0 <= i < |u| :: u[i] != '.' && !IsDigit(u[i])
    ensures u != "d" ==> 'd' !in u
    ensures u != "h" ==> 'h' !in u
  {
  }

  lemma QuotientBound(v: nat, unit: nat)
    requires unit > 0
    ensures v > LIMIT / unit <==> Times(v, unit) > LIMIT
  {
    var q := LIMIT / unit;
    assert LIMIT == q * unit + LIMIT % unit;
    if v > q {
      assert v * unit >= (q + 1) * unit;
    } else {
      assert v * unit <= q * unit;
    }
  }

  ghost predicate StartsTerm(rest: string) {
    rest == [] || rest[0] == '.' || IsDigit(rest[0])
  }

  lemma NanosOf(v: nat, f: nat, scale: nat, unit: nat)
    requires unit > 0 && scale > 0
    ensures var total := Times(v, unit) + Over(Times(f, unit), scale);
      Nanos(v, f, scale, unit) == if total <= LIMIT then Some(total) else None
  {
    QuotientBound(v, unit);
  }

  lemma WholeTerm(t: Term, rest: string)
    requires WellFormed(t) && t.unit != "d" && t.frac == None && StartsTerm(rest)
    ensures Render(t) + rest != []
    ensures ParseTerm(Render(t) + rest) == if TermNanos(t) <= LIMIT then Some((TermNanos(t), rest)) else None
  {
    var tail := t.unit + rest;
    var s := Render(t) + rest;
    assert s == t.whole + tail;
    UnitShape(t.unit);
    LeadingIntOf(t.whole, tail, 0);
    UnitRunOf(t.unit, rest);
    assert tail[..|t.unit|] == t.unit && tail[|t.unit|..] == rest;
    var unit := NanosPerUnit(t.unit);
    NanosOf(Value(t.whole), 0, 1, unit);
    TimesFacts(Value(t.whole), unit);
    hide Times, Over, ValueFrom, LeadingInt, UnitRun, UnitNanos, Nanos;
  }

  lemma TimesFacts(v: nat, unit: nat)
    requires unit > 0
    ensures Times(v, unit) >= v && Times(1, unit) == unit && Times(0, unit) == 0
    ensures Over(0, 1) == 0
  {
    assert v * unit >= v * 1;
  }

  /** ParseTerm on a number with a fraction, given what its three scans find. */
  lemma FractionScan(s: string, v: nat, r1: string, frac: string, r2: string, n: nat, unit: nat)
    requires s != [] && (s[0] == '.' || IsDigit(s[0])) && AllDigits(frac) && frac != ""
    requires LeadingInt(s, 0) == Some((v, r1)) && r1 == "." + (frac + r2)
    requires LeadingFraction(frac + r2, 0, 1, false) == (Value(frac), Pow10(|frac|), r2)
    requires UnitRun(r2) == n && n > 0 && UnitNanos(r2[..n]) == Some(unit)
    ensures ParseTerm(s) == match Nanos(v, Value(frac), Pow10(|frac|), unit)
                            case None => None
                            case Some(total) => Some((total, r2[n..]))
  {
    hide LeadingInt, LeadingFraction, UnitRun, Pow10, ValueFrom, Value, UnitNanos, Nanos;
    assert r1[1..] == frac + r2;
  }

  lemma FractionPartOf(frac: string, tail: string)
    requires AllDigits(frac) && |frac| <= 9 && (tail == "" || !IsDigit(tail[0]))
    ensures LeadingFraction(frac + tail, 0, 1, false) == (Value(frac), Pow10(|frac|), tail)
    ensures Value(frac) < Pow10(|frac|)
  {
    ValueBelowPow10(frac);
    Pow10Grows(|frac|, 9);
    Pow10Nine();
    LeadingFractionOf(frac, tail, 0, 1);
    TimesFacts(0, Pow10(|frac|));
  }

  lemma FractionTerm(t: Term, rest: string)
    requires WellFormed(t) && t.unit != "d" && t.frac.Some? && StartsTerm(rest)
    ensures Render(t) + rest != []
    ensures ParseTerm(Render(t) + rest) == if TermNanos(t) <= LIMIT then Some((TermNanos(t), rest)) else None
  {
    var frac := t.frac.value;
    var tail := t.unit + rest;
    var s := Render(t) + rest;
    var unit := NanosPerUnit(t.unit);
    assert s == t.whole + ("." + (frac + tail));
    UnitShape(t.unit);
    LeadingIntOf(t.whole, "." + (frac + tail), 0);
    FractionPartOf(frac, tail);
    UnitRunOf(t.unit, rest);
    assert tail[..|t.unit|] == t.unit && tail[|t.unit|..] == rest;
    NanosOf(Value(t.whole), Value(frac), Pow10(|frac|), unit);
    TimesFacts(Value(t.whole), unit);
    hide LeadingInt, LeadingFraction, UnitRun, Pow10, ValueFrom, UnitNanos, Nanos, Times, Over;
    if Value(t.whole) > LIMIT {
      assert ParseTerm(s) == None;
    } else {
      hide ParseTerm;
      FractionScan(s, Value(t.whole), "." + (frac + tail), frac, tail, |t.unit|, unit);
    }
  }

  lemma RenderAllStartsTerm(ts: seq<Term>)
    requires AllWellFormed(ts)
    ensures StartsTerm(RenderAll(ts)) && (ts != [] ==> |RenderAll(ts)| >= 2)
  {
    if ts != [] {
      UnitShape(ts[0].unit);
    }
  }

  lemma NoWrap(x: nat)
    ensures x < 2 * LIMIT ==> x % (2 * LIMIT) == x
  {
  }

  ghost predicate NoDays(ts: seq<Term>) {
    forall i | 0 <= i < |ts| :: ts[i].unit != "d"
  }

  /** Nowhere does a term of exactly 2^63 nanoseconds follow terms that make up exactly 2^63 with d: the unsigned
      running sum would be back at zero. */
  ghost predicate NoDoubleFill(ts: seq<Term>, d: nat)
    requires AllWellFormed(ts)
  {
    ts == [] ||
    (!(d == LIMIT && TermNanos(ts[0]) == LIMIT) && NoDoubleFill(ts[1..], d + TermNanos(ts[0])))
  }

  lemma ParseFirstTerm(ts: seq<Term>)
    requires AllWellFormed(ts) && NoDays(ts) && ts != []
    ensures RenderAll(ts) != ""
    ensures ParseTerm(RenderAll(ts)) ==
      if TermNanos(ts[0]) <= LIMIT then Some((TermNanos(ts[0]), RenderAll(ts[1..]))) else None
  {
    hide ParseTerm, TermNanos, WellFormed, Render;
    RenderAllStartsTerm(ts[1..]);
    if ts[0].frac == None {
      WholeTerm(ts[0], RenderAll(ts[1..]));
    } else {
      FractionTerm(ts[0], RenderAll(ts[1..]));
    }
  }

  /** On terms in Go's own units, the parser adds up, and a sum that does not fit is an error. */
  lemma {:induction false} ParseTermsOf(ts: seq<Term>, d: nat)
    requires AllWellFormed(ts) && d <= LIMIT
    requires NoDays(ts)
    requires NoDoubleFill(ts, d)
    ensures ParseTerms(RenderAll(ts), d) == if d + Sum(ts) <= LIMIT then Some(d + Sum(ts)) else None
    decreases |ts|
  {
    hide ParseTerm, TermNanos, WellFormed, Render;
    if ts != [] {
      ParseFirstTerm(ts);
      var v := TermNanos(ts[0]);
      NoWrap(d + v);
      if v <= LIMIT && d + v <= LIMIT {
        ParseTermsOf(ts[1..], d + v);
      }
    }
  }

  /** Where such a term does follow, everything up to it is forgotten. */
  lemma {:induction false} DoubleFillRestarts(ts: seq<Term>, d: nat, i: nat)
    requires AllWellFormed(ts) && NoDays(ts) && i < |ts|
    requires d + Sum(ts[..i]) == LIMIT && TermNanos(ts[i]) == LIMIT
    ensures ParseTerms(RenderAll(ts), d) == ParseTerms(RenderAll(ts[i + 1..]), 0)
    decreases i
  {
    hide ParseTerm, TermNanos, WellFormed, Render;
    ParseFirstTerm(ts);
    if i == 0 {
      assert (d + TermNanos(ts[0])) % (2 * LIMIT) == 0;
    } else {
      assert ts[..i][0] == ts[0] && ts[..i][1..] == ts[1..][..i - 1];
      assert ts[1..][i..] == ts[i + 1..];
      NoWrap(d + TermNanos(ts[0]));
      DoubleFillRestarts(ts[1..], d + TermNanos(ts[0]), i - 1);
    }
  }

  // ----- Tokens of a rendered duration

  lemma CopyUnit(x: string, c: char, rest: string, u: char, out: string -> string)
    requires AllDigits(x) && !IsDigit(c) && !IsDigit(u) && (x == [] || c != u)
    ensures Rewrite(x + [c] + rest, u, out) == x + [c] + Rewrite(rest, u, out)
    ensures Tokens(x + [c] + rest, u) == Tokens(rest, u)
  {
    var s := x + [c] + rest;
    assert s == x + ([c] + rest);
    DigitRunOf(x, [c] + rest);
    assert s[..|x| + 1] == x + [c] && s[|x| + 1..] == rest;
  }

  lemma HitUnit(x: string, rest: string, u: char, out: string -> string)
    requires AllDigits(x) && x != [] && !IsDigit(u)
    ensures Rewrite(x + [u] + rest, u, out) == out(x + [u]) + Rewrite(rest, u, out)
    ensures Tokens(x + [u] + rest, u) == [x + [u]] + Tokens(rest, u)
  {
    var s := x + [u] + rest;
    assert s == x + ([u] + rest);
    DigitRunOf(x, [u] + rest);
    assert s[..|x| + 1] == x + [u] && s[|x| + 1..] == rest;
  }

  /** The term can be rewritten by a rule for unit u: it is a whole number if it has that unit. */
  ghost predicate Rewritable(t: Term, u: char) {
    WellFormed(t) && (t.unit == [u] ==> t.frac == None)
  }

  function RewrittenTerm(t: Term, u: char, out: string -> string): string {
    if t.unit == [u] then out(Render(t)) else Render(t)
  }

  lemma CopyTwo(x: string, c: char, d: char, rest: string, u: char, out: string -> string)
    requires AllDigits(x) && !IsDigit(c) && !IsDigit(d) && !IsDigit(u) && c != u && d != u
    ensures Rewrite(x + [c, d] + rest, u, out) == x + [c, d] + Rewrite(rest, u, out)
    ensures Tokens(x + [c, d] + rest, u) == Tokens(rest, u)
  {
    hide Rewrite, Tokens;
    var after := Rewrite(rest, u, out);
    assert x + [c, d] + rest == x + [c] + ([] + [d] + rest);
    CopyUnit(x, c, [] + [d] + rest, u, out);
    CopyUnit([], d, rest, u, out);
    assert x + [c] + ([] + [d] + after) == x + [c, d] + after;
  }

  lemma RewriteOtherUnit(unit: string, rest: string, u: char, out: string -> string, x: string)
    requires UnitNanos(unit).Some? || unit == "d"
    requires u !in unit && !IsDigit(u) && AllDigits(x)
    ensures Rewrite(x + unit + rest, u, out) == x + unit + Rewrite(rest, u, out)
    ensures Tokens(x + unit + rest, u) == Tokens(rest, u)
  {
    UnitShape(unit);
    hide Rewrite, Tokens, UnitNanos;
    if |unit| == 2 {
      assert unit == [unit[0], unit[1]];
      CopyTwo(x, unit[0], unit[1], rest, u, out);
    } else {
      assert unit == [unit[0]];
      CopyUnit(x, unit[0], rest, u, out);
    }
  }

  lemma RewriteTerm(t: Term, rest: string, u: char, out: string -> string)
    requires (u == 'd' || u == 'h') && Rewritable(t, u)
    ensures Rewrite(Render(t) + rest, u, out) == RewrittenTerm(t, u, out) + Rewrite(rest, u, out)
    ensures Tokens(Render(t) + rest, u) == (if t.unit == [u] then [Render(t)] else []) + Tokens(rest, u)
  {
    UnitShape(t.unit);
    hide Rewrite, Tokens, UnitNanos, Pow10, ValueFrom;
    if t.unit == [u] {
      assert Render(t) == t.whole + [u];
      HitUnit(t.whole, rest, u, out);
    } else if t.frac == None {
      assert Render(t) == t.whole + t.unit;
      RewriteOtherUnit(t.unit, rest, u, out, t.whole);
    } else {
      RewriteFraction(t, rest, u, out);
    }
  }

  lemma RewriteFraction(t: Term, rest: string, u: char, out: string -> string)
    requires (u == 'd' || u == 'h') && Rewritable(t, u) && t.unit != [u] && t.frac.Some?
    ensures Rewrite(Render(t) + rest, u, out) == Render(t) + Rewrite(rest, u, out)
    ensures Tokens(Render(t) + rest, u) == Tokens(rest, u)
  {
    UnitShape(t.unit);
    RenderFraction(t);
    hide *;
    var inner := t.frac.value + t.unit;
    RewriteOtherUnit(t.unit, rest, u, out, t.frac.value);
    CopyUnit(t.whole, '.', inner + rest, u, out);
    DotAssociates(t.whole, inner, rest);
    DotAssociates(t.whole, inner, Rewrite(rest, u, out));
  }

  lemma RenderFraction(t: Term)
    requires WellFormed(t) && t.frac.Some?
    ensures Render(t) == t.whole + "." + (t.frac.value + t.unit)
    ensures AllDigits(t.whole) && AllDigits(t.frac.value) && (UnitNanos(t.unit).Some? || t.unit == "d")
    ensures !IsDigit('.') && !IsDigit('d') && !IsDigit('h')
  {
  }

  lemma DotAssociates(a: string, b: string, c: string)
    ensures a + ['.'] + (b + c) == a + "." + b + c
  {
  }

  function RewrittenTerms(ts: seq<Term>, u: char, out: string -> string): string {
    if ts == [] then "" else RewrittenTerm(ts[0], u, out) + RewrittenTerms(ts[1..], u, out)
  }

  function TermsOf(ts: seq<Term>, u: char): seq<string> {
    if ts == [] then [] else (if ts[0].unit == [u] then [Render(ts[0])] else []) + TermsOf(ts[1..], u)
  }

  lemma {:induction false} RewriteTerms(ts: seq<Term>, u: char, out: string -> string)
    requires (u == 'd' || u == 'h') && forall i | 0 <= i < |ts| :: Rewritable(ts[i], u)
    ensures Rewrite(RenderAll(ts), u, out) == RewrittenTerms(ts, u, out)
    ensures Tokens(RenderAll(ts), u) == TermsOf(ts, u)
    decreases |ts|
  {
    if ts != [] {
      RewriteTerm(ts[0], RenderAll(ts[1..]), u, out);
      RewriteTerms(ts[1..], u, out);
    }
  }

  predicate IsSign(sign: string) {
    sign == "" || sign == "-" || sign == "+"
  }

  lemma RewriteSigned(sign: string, ts: seq<Term>, u: char, out: string -> string)
    requires IsSign(sign)
    requires (u == 'd' || u == 'h') && forall i | 0 <= i < |ts| :: Rewritable(ts[i], u)
    ensures Rewrite(sign + RenderAll(ts), u, out) == sign + RewrittenTerms(ts, u, out)
    ensures Tokens(sign + RenderAll(ts), u) == TermsOf(ts, u)
  {
    RewriteTerms(ts, u, out);
    RewriteAfterSign(sign, RenderAll(ts), u, out);
  }

  lemma RewriteAfterSign(sign: string, body: string, u: char, out: string -> string)
    requires IsSign(sign) && (u == 'd' || u == 'h')
    ensures Rewrite(sign + body, u, out) == sign + Rewrite(body, u, out)
    ensures Tokens(sign + body, u) == Tokens(body, u)
  {
    hide Rewrite, Tokens;
    if sign == "" {
      assert sign + body == body;
    } else {
      assert sign == [] + [sign[0]];
      CopyUnit([], sign[0], body, u, out);
    }
  }

  // ----- Days as hours

  function HoursTerm(t: Term): Term
    requires AllDigits(t.whole)
  {
    if t.unit == "d" then Term(Digits(24 * Value(t.whole)), None, "h") else t
  }

  ghost function HoursTerms(ts: seq<Term>): (r: seq<Term>)
    requires AllWellFormed(ts)
    ensures |r| == |ts| && forall i | 0 <= i < |r| :: r[i] == HoursTerm(ts[i])
  {
    if ts == [] then [] else [HoursTerm(ts[0])] + HoursTerms(ts[1..])
  }

  /** The day count is small enough for its hours to be a 64-bit number. */
  ghost predicate SmallDays(t: Term)
    requires WellFormed(t)
  {
    t.unit == "d" ==> 24 * Value(t.whole) < LIMIT
  }

  lemma HoursTermSame(t: Term)
    requires WellFormed(t)
    ensures WellFormed(HoursTerm(t)) && TermNanos(HoursTerm(t)) == TermNanos(t) && HoursTerm(t).unit != "d"
  {
    if t.unit == "d" {
      ValueOfDigits(24 * Value(t.whole));
    }
  }

  lemma DayTokenAsHours(t: Term)
    requires WellFormed(t) && SmallDays(t)
    ensures RewrittenTerm(t, 'd', DaysAsHours) == Render(HoursTerm(t))
  {
    if t.unit == "d" {
      assert Render(t) == t.whole + "d";
      assert Render(t)[..|Render(t)| - 1] == t.whole;
      assert IsToken(Render(t), 'd');
    }
  }

  lemma {:induction false} HoursTermsSame(ts: seq<Term>)
    requires AllWellFormed(ts) && forall i | 0 <= i < |ts| :: SmallDays(ts[i])
    ensures AllWellFormed(HoursTerms(ts)) && Sum(HoursTerms(ts)) == Sum(ts)
    ensures RewrittenTerms(ts, 'd', DaysAsHours) == RenderAll(HoursTerms(ts))
    decreases |ts|
  {
    if ts != [] {
      forall i | 0 <= i < |ts| ensures WellFormed(HoursTerms(ts)[i]) {
        HoursTermSame(ts[i]);
      }
      HoursTermSame(ts[0]);
      DayTokenAsHours(ts[0]);
      HoursTermsSame(ts[1..]);
      assert HoursTerms(ts)[1..] == HoursTerms(ts[1..]);
    }
  }

  // ----- When replacing one token after the other is replacing them all at once

  /** A day token whose hours are a 64-bit number. */
  ghost predicate SmallDayToken(t: string) {
    IsToken(t, 'd') && 24 * Value(t[..|t| - 1]) < LIMIT
  }

  ghost predicate SmallDayTokens(ms: seq<string>) {
    forall i | 0 <= i < |ms| :: SmallDayToken(ms[i])
  }

  lemma DaysAreRules(ms: seq<string>)
    requires forall i | 0 <= i < |ms| :: IsToken(ms[i], 'd')
    ensures AreRules(ms, 'd', DaysAsHours)
  {
    forall i | 0 <= i < |ms| ensures Inert(DaysAsHours(ms[i]), 'd') {
      var n := Wrap64(Atoi(ms[i][..|ms[i]| - 1]) * 24);
      NumeralHasNoLetter(n);
    }
  }

  lemma NumeralHasNoLetter(n: int)
    ensures 'd' !in FormatInt(n)
  {
    assert AllDigits(Digits(if n < 0 then -n else n));
  }

  lemma {:induction false} PowerIsNot24(a: nat, b: nat)
    ensures Pow10(a) != 24 * Pow10(b)
    decreases b
  {
    if a > 0 && b > 0 {
      PowerIsNot24(a - 1, b - 1);
    } else if a == 0 {
      assert Pow10(b) >= 1;
    } else if a >= 2 {
      assert Pow10(a) == 100 * Pow10(a - 2);
    }
  }

  /** 24 times a numeral is never written by putting its front before 24 times its end. */
  lemma HoursOfFrontAndEnd(x: string, y: string)
    requires AllDigits(x) && AllDigits(y) && x != ""
    ensures AllDigits(x + y)
    ensures x + Digits(24 * Value(y)) != Digits(24 * Value(x + y))
  {
    var hours := Digits(24 * Value(y));
    ValueOfConcat(x, y);
    ValueOfConcat(x, hours);
    ValueOfDigits(24 * Value(y));
    ValueOfDigits(24 * Value(x + y));
    hide ValueFrom, Value, Pow10, Digits;
    if x + hours == Digits(24 * Value(x + y)) {
      PowerIsNot24(|hours|, |y|);
      CompareShifts(Value(x), Value(y), Pow10(|hours|), Pow10(|y|));
      ZeroStartsWithZero(x);
      if Value(x + y) > 0 {
        DigitsLeadsNonzero(24 * Value(x + y));
      } else {
        DigitsOfZero();
      }
    }
  }

  lemma DigitsOfZero()
    ensures |Digits(0)| == 1
  {
  }

  lemma ValueOfConcat(x: string, y: string)
    requires AllDigits(x) && AllDigits(y)
    ensures AllDigits(x + y) && Value(x + y) == Times(Value(x), Pow10(|y|)) + Value(y)
  {
    ValueAppend(0, x, y);
    ValueFromScales(Value(x), y);
  }

  lemma CompareShifts(v: nat, w: nat, a: nat, b: nat)
    requires Times(v, a) + 24 * w == 24 * (Times(v, b) + w) && a != 24 * b
    ensures v == 0
  {
    assert v * a == v * (24 * b);
    CancelFactor(v, a, 24 * b);
  }

  lemma CancelFactor(f: nat, a: nat, b: nat)
    requires f * a == f * b
    ensures f == 0 || a == b
  {
    if a < b {
      assert f * (b - a) == 0;
    } else if b < a {
      assert f * (a - b) == 0;
    }
  }

  lemma ZeroStartsWithZero(x: string)
    requires AllDigits(x) && x != "" && Value(x) == 0
    ensures x[0] == '0'
  {
    ValueGrows(DigitValue(x[0]), x[1..]);
  }

  lemma DigitTextsApart(x: string, y: string)
    requires AllDigits(x) && AllDigits(y) && x != y
    ensures Apart(x + "h", y + "h")
  {
    var k := CommonLength(x, y);
    assert (x + "h")[k] != (y + "h")[k];
  }

  /** Where two different digit texts, each ended by a letter, first differ. */
  lemma {:induction false} CommonLength(x: string, y: string) returns (k: nat)
    requires AllDigits(x) && AllDigits(y) && x != y
    ensures k <= |x| && k <= |y| && (x + "h")[k] != (y + "h")[k]
    decreases |x|
  {
    if x == [] || y == [] || x[0] != y[0] {
      k := 0;
    } else {
      assert x == [x[0]] + x[1..] && y == [y[0]] + y[1..];
      k := CommonLength(x[1..], y[1..]);
      assert (x + "h")[1..] == x[1..] + "h" && (y + "h")[1..] == y[1..] + "h";
      k := k + 1;
    }
  }

  lemma DayTokensApart(m: string, t: string)
    requires SmallDayToken(m) && SmallDayToken(t) && IsSuffix(m, t) && m != t
    ensures Apart(t[..|t| - |m|] + DaysAsHours(m), DaysAsHours(t))
  {
    var x, y := t[..|t| - |m|], m[..|m| - 1];
    assert t == x + m;
    assert t[..|t| - 1] == x + y;
    assert AllDigits(x);
    SmallDayTokenAsHours(m);
    SmallDayTokenAsHours(t);
    hide *;
    FrontKeptApart(x, y);
  }

  lemma SmallDayTokenAsHours(t: string)
    requires SmallDayToken(t)
    ensures DaysAsHours(t) == Digits(24 * Value(t[..|t| - 1])) + "h"
  {
  }

  lemma FrontKeptApart(x: string, y: string)
    requires AllDigits(x) && AllDigits(y) && x != ""
    ensures Apart(x + (Digits(24 * Value(y)) + "h"), Digits(24 * Value(x + y)) + "h")
  {
    HoursOfFrontAndEnd(x, y);
    var a, b := Digits(24 * Value(y)), Digits(24 * Value(x + y));
    hide Digits, Value, Apart;
    DigitTextsApart(x + a, b);
    assert x + (a + "h") == x + a + "h";
  }

  lemma DaysDistinguish(ms: seq<string>)
    requires SmallDayTokens(ms)
    ensures Distinguishes(ms, DaysAsHours)
  {
    forall i, j | 0 <= i < |ms| && 0 <= j < |ms| && IsSuffix(ms[i], ms[j]) && ms[i] != ms[j]
      ensures Apart(ms[j][..|ms[j]| - |ms[i]|] + DaysAsHours(ms[i]), DaysAsHours(ms[j]))
    {
      DayTokensApart(ms[i], ms[j]);
    }
  }

  /** For every input whose day counts fit: the parser's loop replaces every day token by its hours, as if all
      were replaced at once, exactly when no token is taken apart by an earlier one. */
  lemma {:induction false} DayLoopIsSimultaneous(s: string)
    requires SmallDayTokens(Tokens(s, 'd'))
    ensures ReplaceEach(s, Tokens(s, 'd'), DaysAsHours) == Rewrite(s, 'd', DaysAsHours) <==> NoCapture(Tokens(s, 'd'))
  {
    var ms := Tokens(s, 'd');
    DaysAreRules(ms);
    DaysDistinguish(ms);
    hide Tokens, Rewrite, ReplaceEach, NoCapture, Distinguishes, AreRules;
    SequentialIsSimultaneous(s, 'd', DaysAsHours);
  }

  // ----- The parser on durations with days

  /** The largest magnitude a 64-bit duration of this sign can have. */
  function Bound(sign: string): nat {
    if sign == "-" then LIMIT else LIMIT - 1
  }

  function Signed(sign: string, n: nat): int {
    if sign == "-" then 0 - n else n
  }

  lemma ParseDurationSigned(sign: string, body: string)
    requires IsSign(sign) && |body| >= 2 && body[0] != '-' && body[0] != '+'
    ensures ParseDuration(sign + body) ==
      match ParseTerms(body, 0)
      case None => None
      case Some(d) => if d <= Bound(sign) then Some(Signed(sign, d)) else None
  {
    hide ParseTerms;
    if sign == "" {
      assert sign + body == body;
    } else {
      assert (sign + body)[0] == sign[0] && (sign + body)[1..] == body;
    }
    match ParseTerms(body, 0)
    case None =>
    case Some(d) => ParsedWithinLimit(body, 0);
  }

  lemma {:induction false} ParsedWithinLimit(s: string, d: nat)
    requires d <= LIMIT
    ensures ParseTerms(s, d).Some? ==> ParseTerms(s, d).value <= LIMIT
    decreases |s|
  {
    hide ParseTerm;
    if s != [] {
      match ParseTerm(s)
      case None =>
      case Some((v, rest)) =>
        var e := (d + v) % (2 * LIMIT);
        if e <= LIMIT {
          ParsedWithinLimit(rest, e);
        }
    }
  }

  lemma RenderAllUnsigned(ts: seq<Term>)
    requires AllWellFormed(ts) && ts != []
    ensures var body := RenderAll(ts); |body| >= 2 && body[0] != '-' && body[0] != '+'
  {
    RenderAllStartsTerm(ts);
  }

  lemma ParsedSum(sign: string, body: string, n: nat)
    requires IsSign(sign) && |body| >= 2 && body[0] != '-' && body[0] != '+'
    requires ParseTerms(body, 0) == if n <= LIMIT then Some(n) else None
    ensures ParseDuration(sign + body) == if n <= Bound(sign) then Some(Signed(sign, n)) else None
  {
    hide ParseDuration, ParseTerms;
    ParseDurationSigned(sign, body);
  }

  lemma ParseDurationOf(sign: string, ts: seq<Term>)
    requires IsSign(sign) && ts != [] && AllWellFormed(ts)
    requires NoDays(ts)
    requires NoDoubleFill(ts, 0)
    ensures ParseDuration(sign + RenderAll(ts)) == if Sum(ts) <= Bound(sign) then Some(Signed(sign, Sum(ts))) else None
  {
    RenderAllUnsigned(ts);
    hide *;
    ParseTermsOf(ts, 0);
    ParsedSum(sign, RenderAll(ts), Sum(ts));
  }

  lemma {:induction false} TermWithinSum(ts: seq<Term>, i: nat)
    requires AllWellFormed(ts) && i < |ts|
    ensures TermNanos(ts[i]) <= Sum(ts)
    decreases |ts|
  {
    if i > 0 {
      TermWithinSum(ts[1..], i - 1);
    }
  }

  lemma {:induction false} SumThatFits(ts: seq<Term>, d: nat)
    requires AllWellFormed(ts) && d + Sum(ts) <= LIMIT
    ensures NoDoubleFill(ts, d) && forall i | 0 <= i < |ts| :: SmallDays(ts[i])
    decreases |ts|
  {
    if ts != [] {
      SumThatFits(ts[1..], d + TermNanos(ts[0]));
      forall i | 0 <= i < |ts| ensures SmallDays(ts[i]) {
        TermWithinSum(ts, i);
      }
      hide Sum;
    }
  }

  lemma {:induction false} DayTermsSmall(ts: seq<Term>)
    requires AllWellFormed(ts) && (forall k | 0 <= k < |ts| :: SmallDays(ts[k]))
    ensures SmallDayTokens(TermsOf(ts, 'd'))
    decreases |ts|
  {
    if ts != [] {
      DayTermsSmall(ts[1..]);
      if ts[0].unit == "d" {
        assert Render(ts[0]) == ts[0].whole + "d";
        assert Render(ts[0])[..|Render(ts[0])| - 1] == ts[0].whole;
      }
    }
  }

  lemma {:induction false} HoursTermsNanos(ts: seq<Term>, d: nat)
    requires AllWellFormed(ts)
    ensures AllWellFormed(HoursTerms(ts)) && NoDays(HoursTerms(ts))
    ensures NoDoubleFill(HoursTerms(ts), d) <==> NoDoubleFill(ts, d)
    decreases |ts|
  {
    forall i | 0 <= i < |ts|
      ensures WellFormed(HoursTerms(ts)[i])
      ensures HoursTerms(ts)[i].unit != "d" && TermNanos(HoursTerms(ts)[i]) == TermNanos(ts[i])
    {
      HoursTermSame(ts[i]);
    }
    if ts != [] {
      HoursTermsNanos(ts[1..], d + TermNanos(ts[0]));
      assert HoursTerms(ts)[1..] == HoursTerms(ts[1..]);
    }
  }

  /** What Go's parser is given for a signed list of terms, days among them. */
  lemma SpecOfTerms(sign: string, ts: seq<Term>)
    requires IsSign(sign) && ts != [] && AllWellFormed(ts) && forall i | 0 <= i < |ts| :: SmallDays(ts[i])
    requires NoCapture(Tokens(sign + RenderAll(ts), 'd'))
    ensures ParseSpec(sign + RenderAll(ts)) == ParseDuration(sign + RenderAll(HoursTerms(ts)))
  {
    hide RenderAll, RewrittenTerms, Sum, TermNanos, SmallDays, Tokens, Rewrite, ReplaceEach, NoCapture, ParseDuration;
    RewriteSigned(sign, ts, 'd', DaysAsHours);
    DayTermsSmall(ts);
    DayLoopIsSimultaneous(sign + RenderAll(ts));
    HoursTermsSame(ts);
  }

  /** A signed list of terms whose day counts have their hours in 64 bits parses to the signed sum, with 24 hours to
      the day, if that is a 64-bit duration, and is an error otherwise. The one exception is a term of exactly 2^63
      nanoseconds after terms that make up exactly 2^63: see DoubleFillForgets. */
  lemma {:induction false} ParsesToSum(sign: string, ts: seq<Term>)
    requires IsSign(sign) && ts != [] && AllWellFormed(ts) && forall i | 0 <= i < |ts| :: SmallDays(ts[i])
    requires NoCapture(Tokens(sign + RenderAll(ts), 'd'))
    requires NoDoubleFill(ts, 0)
    ensures ParseSpec(sign + RenderAll(ts)) == if Sum(ts) <= Bound(sign) then Some(Signed(sign, Sum(ts))) else None
  {
    hide RenderAll, Sum, TermNanos, SmallDays, Tokens, NoCapture, ParseDuration, ParseSpec, NoDoubleFill;
    SpecOfTerms(sign, ts);
    HoursTermsSame(ts);
    HoursTermsNanos(ts, 0);
    ParseDurationOf(sign, HoursTerms(ts));
  }

  /** Terms that make up exactly 2^63 nanoseconds, with a term of exactly 2^63 after them, are forgotten: only what
      comes behind counts. */
  lemma {:induction false} DoubleFillForgets(sign: string, ts: seq<Term>, i: nat)
    requires IsSign(sign) && i < |ts| && AllWellFormed(ts) && forall k | 0 <= k < |ts| :: SmallDays(ts[k])
    requires NoCapture(Tokens(sign + RenderAll(ts), 'd'))
    requires Sum(ts[..i]) == LIMIT && TermNanos(ts[i]) == LIMIT
    ensures ParseSpec(sign + RenderAll(ts)) ==
      if i + 1 == |ts| then Some(0) else ParseDuration(sign + RenderAll(HoursTerms(ts[i + 1..])))
  {
    SpecOfTerms(sign, ts);
    HoursTermsOfParts(ts, i);
    hide *;
    ParseFromFill(sign, HoursTerms(ts), i);
  }

  lemma HoursTermsOfParts(ts: seq<Term>, i: nat)
    requires i < |ts| && AllWellFormed(ts) && forall k | 0 <= k < |ts| :: SmallDays(ts[k])
    requires Sum(ts[..i]) == LIMIT && TermNanos(ts[i]) == LIMIT
    ensures var hs := HoursTerms(ts);
      && |hs| == |ts| && AllWellFormed(hs) && NoDays(hs)
      && Sum(hs[..i]) == LIMIT && TermNanos(hs[i]) == LIMIT
      && hs[i + 1..] == HoursTerms(ts[i + 1..])
  {
    HoursTermsNanos(ts, 0);
    HoursTermsSame(ts[..i]);
    HoursTermSame(ts[i]);
    HoursTermsFrom(ts, i + 1);
    HoursTermsUpTo(ts, i);
    hide HoursTerms, HoursTerm, TermNanos, Sum, WellFormed, SmallDays, NoDoubleFill, RenderAll, RewrittenTerms;
  }

  lemma DigitsOf(ts: seq<Term>, k: nat)
    requires AllWellFormed(ts) && k < |ts|
    ensures AllDigits(ts[k].whole)
  {
  }

  lemma HoursTermsFrom(ts: seq<Term>, i: nat)
    requires i <= |ts| && AllWellFormed(ts)
    ensures HoursTerms(ts)[i..] == HoursTerms(ts[i..])
  {
    var whole, part := HoursTerms(ts), HoursTerms(ts[i..]);
    forall k: nat | k < |part| ensures part[k] == whole[i + k] {
      DigitsOf(ts, i + k);
      hide HoursTerms, HoursTerm, WellFormed, AllDigits;
      assert ts[i..][k] == ts[i + k];
    }
    hide *;
    Sequences.SameFrom(whole, i, part);
  }

  lemma HoursTermsUpTo(ts: seq<Term>, i: nat)
    requires i <= |ts| && AllWellFormed(ts)
    ensures HoursTerms(ts)[..i] == HoursTerms(ts[..i])
  {
    var whole, part := HoursTerms(ts), HoursTerms(ts[..i]);
    forall k: nat | k < |part| ensures part[k] == whole[k] {
      DigitsOf(ts, k);
      hide HoursTerms, HoursTerm, WellFormed, AllDigits;
      assert ts[..i][k] == ts[k];
    }
    hide *;
    Sequences.SameUpTo(whole, i, part);
  }

  lemma ParseFromFill(sign: string, hs: seq<Term>, i: nat)
    requires IsSign(sign) && i < |hs| && AllWellFormed(hs) && NoDays(hs)
    requires Sum(hs[..i]) == LIMIT && TermNanos(hs[i]) == LIMIT
    ensures ParseDuration(sign + RenderAll(hs)) ==
      if i + 1 == |hs| then Some(0) else ParseDuration(sign + RenderAll(hs[i + 1..]))
  {
    hide RenderAll, Sum, TermNanos, WellFormed, ParseDuration, ParseTerms;
    DoubleFillRestarts(hs, 0, i);
    RenderAllUnsigned(hs);
    ParseDurationSigned(sign, RenderAll(hs));
    if i + 1 < |hs| {
      RenderAllUnsigned(hs[i + 1..]);
      ParseDurationSigned(sign, RenderAll(hs[i + 1..]));
    } else {
      NothingToParse();
    }
  }

  lemma NothingToParse()
    ensures RenderAll([]) == "" && ParseTerms("", 0) == Some(0)
  {
  }
}
