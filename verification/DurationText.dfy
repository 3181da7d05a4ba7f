/** Durations as text with days: the printer and the parser around Go's own duration syntax. */
module DurationText {
  import opened Wrappers
  import opened Int64
  import opened Text

  // ----- Numerals of 64-bit integers

  const HOUR: nat := 3_600_000_000_000

  /** strconv.Atoi on digits, its range error ignored: a number too large comes out as the largest one. */
  function Atoi(s: string): int
    requires AllDigits(s)
  {
    if Value(s) < LIMIT then Value(s) else LIMIT - 1
  }

  /** The verb %d. */
  function FormatInt(x: int): string {
    if x < 0 then "-" + Digits(-x) else Digits(x)
  }

  // ----- time.ParseDuration

  function UnitNanos(u: string): (r: Option<nat>)
    ensures r.Some? ==> r.value > 0
  {
    if u == "ns" then Some(1)
    else if u == "us" || u == "\U{00B5}s" || u == "\U{03BC}s" then Some(1_000)
    else if u == "ms" then Some(1_000_000)
    else if u == "s" then Some(1_000_000_000)
    else if u == "m" then Some(60_000_000_000)
    else if u == "h" then Some(HOUR)
    else None
  }

  /** Consumes digits after a numeral for x; None on overflow of an unsigned 63-bit value. */
  function LeadingInt(s: string, x: nat): (r: Option<(nat, string)>)
    ensures r.Some? ==> |r.value.1| <= |s|
    decreases |s|
  {
    if s == [] || !IsDigit(s[0]) then Some((x, s))
    else if x > LIMIT / 10 then None
    else
      var y := 10 * x + DigitValue(s[0]);
      if y > LIMIT then None else LeadingInt(s[1..], y)
  }

  /** Consumes fraction digits; digits that no longer fit are dropped. */
  function LeadingFraction(s: string, f: nat, scale: nat, full: bool): (r: (nat, nat, string))
    requires scale > 0
    ensures r.1 > 0 && |r.2| <= |s|
    decreases |s|
  {
    if s == [] || !IsDigit(s[0]) then (f, scale, s)
    else if full || f > (LIMIT - 1) / 10 then LeadingFraction(s[1..], f, scale, true)
    else
      var y := 10 * f + DigitValue(s[0]);
      if y > LIMIT then LeadingFraction(s[1..], f, scale, true)
      else LeadingFraction(s[1..], y, 10 * scale, false)
  }

  /** The length of the unit at the front of s: everything up to a dot or a digit. */
  function UnitRun(s: string): (n: nat)
    ensures n <= |s|
    decreases |s|
  {
    if s == [] || s[0] == '.' || IsDigit(s[0]) then 0 else 1 + UnitRun(s[1..])
  }

  function Times(a: nat, b: nat): nat {
    a * b
  }

  function Over(a: nat, b: nat): nat
    requires b > 0
  {
    a / b
  }

  /** v + f / scale units, if that is at most LIMIT. */
  function Nanos(v: nat, f: nat, scale: nat, unit: nat): (r: Option<nat>)
    requires unit > 0 && scale > 0
    ensures r.Some? ==> r.value <= LIMIT
  {
    if v > LIMIT / unit then None
    else
      var total := Times(v, unit) + Over(Times(f, unit), scale);
      if total > LIMIT then None else Some(total)
  }

  /** One number with its unit at the front of s: its nanoseconds and what follows. */
  function ParseTerm(s: string): (r: Option<(nat, string)>)
    requires s != []
    ensures r.Some? ==> |r.value.1| < |s| && r.value.0 <= LIMIT
  {
    if s[0] != '.' && !IsDigit(s[0]) then None
    else
      match LeadingInt(s, 0)
      case None => None
      case Some((v, r1)) =>
        var dot := r1 != [] && r1[0] == '.';
        var (f, scale, r2) := if dot then LeadingFraction(r1[1..], 0, 1, false) else (0, 1, r1);
        var n := UnitRun(r2);
        if |r1| == |s| && !(dot && |r2| < |r1| - 1) then None
        else if n == 0 then None
        else
          match UnitNanos(r2[..n])
          case None => None
          case Some(unit) =>
            match Nanos(v, f, scale, unit)
            case None => None
            case Some(total) => Some((total, r2[n..]))
  }

  /** The sum of all terms, on top of d; the running sum is an unsigned 64-bit value. */
  function ParseTerms(s: string, d: nat): Option<nat>
    decreases |s|
  {
    if s == [] then Some(d)
    else
      match ParseTerm(s)
      case None => None
      case Some((v, rest)) =>
        var e := (d + v) % (2 * LIMIT);
        if e > LIMIT then None else ParseTerms(rest, e)
  }

  function ParseDuration(s: string): Option<int> {
    var neg := s != [] && s[0] == '-';
    var body := if s != [] && (s[0] == '-' || s[0] == '+') then s[1..] else s;
    if body == "0" then Some(0)
    else if body == "" then None
    else
      match ParseTerms(body, 0)
      case None => None
      case Some(d) => if neg then Some(0 - d) else if d >= LIMIT then None else Some(d)
  }

  // ----- ParseStringDuration

  /** What the parser replaces a day token by; it is only applied to day tokens. */
  function DaysAsHours(t: string): string {
    if IsToken(t, 'd') then FormatInt(Wrap64(Atoi(t[..|t| - 1]) * 24)) + "h" else t
  }

  function ParseSpec(s: string): Option<int> {
    ParseDuration(ReplaceEach(s, Tokens(s, 'd'), DaysAsHours))
  }

  lemma {:induction false} StripUnit(digits: string, u: char)
    requires AllDigits(digits) && !IsDigit(u)
    ensures ReplaceAll(digits + [u], [u], "") == digits
    decreases |digits|
  {
    if digits == [] {
      assert digits + [u] == [u];
      assert [u][1..] == [];
      assert ReplaceAll([u], [u], "") == "" + ReplaceAll([], [u], "");
    } else {
      assert (digits + [u])[1..] == digits[1..] + [u];
      StripUnit(digits[1..], u);
      assert digits == [digits[0]] + digits[1..];
    }
  }

  lemma TokenDigits(m: string, u: char)
    requires IsToken(m, u) && !IsDigit(u)
    ensures ReplaceAll(m, [u], "") == m[..|m| - 1]
  {
    assert m == m[..|m| - 1] + [u];
    StripUnit(m[..|m| - 1], u);
  }

  method ParseStringDuration(input: string) returns (r: Option<int>)
    ensures r == ParseSpec(input)
  {
    hide ReplaceAll, ReplaceEach, Tokens, ParseDuration;
    var text := input;
    var matches := Tokens(text, 'd');
    assert matches[0..] == matches;
    for i := 0 to |matches|
      invariant forall k | 0 <= k < |matches| :: IsToken(matches[k], 'd')
      invariant ReplaceEach(text, matches[i..], DaysAsHours) == ReplaceEach(input, matches, DaysAsHours)
    {
      var m := matches[i];
      TokenDigits(m, 'd');
      var days := Atoi(ReplaceAll(m, "d", ""));
      LoopStep(text, matches, i, DaysAsHours);
      text := ReplaceAll(text, m, FormatInt(Wrap64(days * 24)) + "h");
    }
    NothingLeft(text, matches, DaysAsHours);
    r := ParseDuration(text);
  }

  // ----- time.Duration.String

  /** A number with a unit. The printer writes numbers without a sign, and a fraction only when it is not zero. */
  datatype Term = Term(whole: string, frac: Option<string>, unit: string)

  function Render(t: Term): string {
    t.whole + (if t.frac.Some? then "." + t.frac.value else "") + t.unit
  }

  function RenderAll(ts: seq<Term>): string {
    if ts == [] then "" else Render(ts[0]) + RenderAll(ts[1..])
  }

  /** v as exactly n digits. */
  function Padded(v: nat, n: nat): (s: string)
    ensures |s| == n && AllDigits(s)
  {
    if n == 0 then "" else Padded(v / 10, n - 1) + [DigitChar(v % 10)]
  }

  /** v over 10^prec, without trailing zeros. */
  function FracDigits(v: nat, prec: nat): (s: string)
    ensures AllDigits(s) && |s| <= prec
  {
    if prec == 0 then "" else if v % 10 == 0 then FracDigits(v / 10, prec - 1) else Padded(v, prec)
  }

  function Fraction(v: nat, prec: nat): Option<string> {
    if v == 0 then None else Some(FracDigits(v, prec))
  }

  /** The terms time.Duration.String prints for u nanoseconds. */
  function GoTerms(u: nat): seq<Term> {
    if u == 0 then [Term("0", None, "s")]
    else if u < 1_000 then [Term(Digits(u), None, "ns")]
    else if u < 1_000_000 then [Term(Digits(u / 1_000), Fraction(u % 1_000, 3), "\U{00B5}s")]
    else if u < 1_000_000_000 then [Term(Digits(u / 1_000_000), Fraction(u % 1_000_000, 6), "ms")]
    else
      var secs := u / 1_000_000_000;
      var last := Term(Digits(secs % 60), Fraction(u % 1_000_000_000, 9), "s");
      if secs < 60 then [last]
      else if secs < 3600 then [Term(Digits(secs / 60), None, "m"), last]
      else [Term(Digits(secs / 3600), None, "h"), Term(Digits(secs / 60 % 60), None, "m"), last]
  }

  function Abs(d: int): nat {
    if d < 0 then -d else d
  }

  function Sign(d: int): string {
    if d < 0 then "-" else ""
  }

  function GoString(d: int): string {
    Sign(d) + RenderAll(GoTerms(Abs(d)))
  }

  // ----- String

  function HoursAsDays(t: string): string {
    if IsToken(t, 'h') then
      var hours := Atoi(t[..|t| - 1]);
      FormatInt(hours / 24) + "d" + FormatInt(hours % 24) + "h"
    else t
  }

  function StringSpec(d: int): string {
    ReplaceEach(GoString(d), Tokens(GoString(d), 'h'), HoursAsDays)
  }

  method String(d: int) returns (out: string)
    requires IsInt64(d)
    ensures out == StringSpec(d)
  {
    hide ReplaceAll, ReplaceEach, Tokens, GoString;
    out := GoString(d);
    var matches := Tokens(out, 'h');
    assert matches[0..] == matches;
    for i := 0 to |matches|
      invariant forall k | 0 <= k < |matches| :: IsToken(matches[k], 'h')
      invariant ReplaceEach(out, matches[i..], HoursAsDays) == StringSpec(d)
    {
      var m := matches[i];
      TokenDigits(m, 'h');
      var hours := Atoi(ReplaceAll(m, "h", ""));
      var days := 0;
      ghost var total := hours;
      while hours >= 24
        invariant hours >= 0 && total == 24 * days + hours
      {
        days := days + 1;
        hours := hours - 24;
      }
      assert days == total / 24 && hours == total % 24;
      LoopStep(out, matches, i, HoursAsDays);
      out := ReplaceAll(out, m, FormatInt(days) + "d" + FormatInt(hours) + "h");
    }
    NothingLeft(out, matches, HoursAsDays);
  }
}
