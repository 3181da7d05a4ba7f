/** Decimal numerals, strings.ReplaceAll, and rewriting of the tokens that the regular expression
    "[0-9]+u" finds, for a unit letter u. */
module Text {
  // ----- Decimal numerals

  predicate IsDigit(c: char) {
    '0' <= c <= '9'
  }

  predicate AllDigits(s: string) {
    forall i | 0 <= i < |s| :: IsDigit(s[i])
  }

  function DigitValue(c: char): (v: nat)
    requires IsDigit(c)
    ensures v < 10
  {
    c as int - '0' as int
  }

  function DigitChar(v: nat): (c: char)
    requires v < 10
    ensures IsDigit(c) && DigitValue(c) == v
  {
    '0' + v as char
  }

  /** The usual decimal numeral of n. */
  function Digits(n: nat): (s: string)
    ensures |s| > 0 && AllDigits(s)
  {
    if n < 10 then [DigitChar(n)] else Digits(n / 10) + [DigitChar(n % 10)]
  }

  /** The number that digits s denote when written after a numeral for x. */
  function ValueFrom(x: nat, s: string): nat
    requires AllDigits(s)
    decreases |s|
  {
    if s == [] then x else ValueFrom(10 * x + DigitValue(s[0]), s[1..])
  }

  function Value(s: string): nat
    requires AllDigits(s)
  {
    ValueFrom(0, s)
  }

  function Pow10(k: nat): (p: nat)
    ensures p > 0
  {
    if k == 0 then 1 else 10 * Pow10(k - 1)
  }

  lemma {:induction false} ValueAppend(x: nat, s: string, t: string)
    requires AllDigits(s) && AllDigits(t)
    ensures AllDigits(s + t)
    ensures ValueFrom(x, s + t) == ValueFrom(ValueFrom(x, s), t)
    decreases |s|
  {
    if s == [] {
      assert s + t == t;
    } else {
      assert (s + t)[1..] == s[1..] + t;
      ValueAppend(10 * x + DigitValue(s[0]), s[1..], t);
    }
  }

  lemma {:induction false} ValueOfDigits(n: nat)
    ensures Value(Digits(n)) == n
  {
    var last := [DigitChar(n % 10)];
    assert last[1..] == [];
    if n >= 10 {
      ValueOfDigits(n / 10);
      ValueAppend(0, Digits(n / 10), last);
      assert ValueFrom(n / 10, last) == ValueFrom(10 * (n / 10) + n % 10, []);
    } else {
      assert ValueFrom(0, last) == ValueFrom(n, []);
    }
  }

  lemma {:induction false} ValueFromScales(x: nat, s: string)
    requires AllDigits(s)
    ensures ValueFrom(x, s) == x * Pow10(|s|) + Value(s)
    decreases |s|
  {
    if s != [] {
      var v := DigitValue(s[0]);
      ValueFromScales(10 * x + v, s[1..]);
      ValueFromScales(v, s[1..]);
      assert (10 * x + v) * Pow10(|s| - 1) == x * Pow10(|s|) + v * Pow10(|s| - 1);
    }
  }

  /** Digits writes no leading zero, except for the number zero itself. */
  lemma {:induction false} DigitsLeadsNonzero(n: nat)
    requires n > 0
    ensures Digits(n)[0] != '0'
  {
    if n >= 10 {
      DigitsLeadsNonzero(n / 10);
    }
  }

  // ----- strings.ReplaceAll

  function ReplaceAll(s: string, old_: string, new_: string): string
    requires |old_| > 0
    decreases |s|
  {
    if s == [] then []
    else if old_ <= s then new_ + ReplaceAll(s[|old_|..], old_, new_)
    else [s[0]] + ReplaceAll(s[1..], old_, new_)
  }

  /** Text in which no occurrence starts is copied. */
  lemma {:induction false} ReplaceSkips(x: string, y: string, old_: string, new_: string)
    requires |old_| > 0
    requires forall i | 0 <= i < |x| :: !(old_ <= x[i..] + y)
    ensures ReplaceAll(x + y, old_, new_) == x + ReplaceAll(y, old_, new_)
    decreases |x|
  {
    if x == [] {
      assert x + y == y;
    } else {
      assert x[0..] + y == x + y;
      assert (x + y)[1..] == x[1..] + y;
      forall i | 0 <= i < |x[1..]| ensures !(old_ <= x[1..][i..] + y) {
        assert x[1..][i..] == x[i + 1..];
      }
      ReplaceSkips(x[1..], y, old_, new_);
      assert x == [x[0]] + x[1..];
    }
  }

  lemma ReplaceHits(y: string, old_: string, new_: string)
    requires |old_| > 0
    ensures ReplaceAll(old_ + y, old_, new_) == new_ + ReplaceAll(y, old_, new_)
  {
    assert (old_ + y)[|old_|..] == y;
  }

  // ----- Tokens

  /** The length of the longest run of digits at the front of s. */
  function DigitRun(s: string): (n: nat)
    ensures n <= |s| && AllDigits(s[..n])
    ensures n < |s| ==> !IsDigit(s[n])
    decreases |s|
  {
    if s == [] || !IsDigit(s[0]) then 0
    else
      var k := DigitRun(s[1..]);
      assert s[..1 + k] == [s[0]] + s[1..][..k];
      1 + k
  }

  lemma {:induction false} DigitRunOf(run: string, rest: string)
    requires AllDigits(run)
    requires rest == [] || !IsDigit(rest[0])
    ensures DigitRun(run + rest) == |run|
    decreases |run|
  {
    if run == [] {
      assert run + rest == rest;
    } else {
      assert (run + rest)[1..] == run[1..] + rest;
      DigitRunOf(run[1..], rest);
    }
  }

  /** One or more digits followed by the unit letter. */
  predicate IsToken(t: string, u: char) {
    |t| > 1 && AllDigits(t[..|t| - 1]) && t[|t| - 1] == u
  }

  /** What FindAllString returns for "[0-9]+u": from left to right, every longest run of digits that the letter follows. */
  function Tokens(s: string, u: char): (ts: seq<string>)
    requires !IsDigit(u)
    ensures forall i | 0 <= i < |ts| :: IsToken(ts[i], u)
    decreases |s|
  {
    var n := DigitRun(s);
    if n == |s| then []
    else if n > 0 && s[n] == u then [s[..n + 1]] + Tokens(s[n + 1..], u)
    else Tokens(s[n + 1..], u)
  }

  /** Replaces every token t of s, at once, by out(t). */
  function Rewrite(s: string, u: char, out: string -> string): string
    requires !IsDigit(u)
    decreases |s|
  {
    var n := DigitRun(s);
    if n == |s| then s
    else if n > 0 && s[n] == u then out(s[..n + 1]) + Rewrite(s[n + 1..], u, out)
    else s[..n + 1] + Rewrite(s[n + 1..], u, out)
  }

  /** The loop of the source: one ReplaceAll per token, in the order found. */
  function ReplaceEach(s: string, ms: seq<string>, f: string -> string): string
    requires forall i | 0 <= i < |ms| :: |ms[i]| > 0
    decreases |ms|
  {
    if ms == [] then s else ReplaceEach(ReplaceAll(s, ms[0], f(ms[0])), ms[1..], f)
  }

  lemma LoopStep(text: string, ms: seq<string>, i: nat, f: string -> string)
    requires i < |ms| && forall k | 0 <= k < |ms| :: |ms[k]| > 0
    ensures ReplaceEach(text, ms[i..], f) == ReplaceEach(ReplaceAll(text, ms[i], f(ms[i])), ms[i + 1..], f)
  {
    assert ms[i..][0] == ms[i] && ms[i..][1..] == ms[i + 1..];
  }

  lemma NothingLeft(text: string, ms: seq<string>, f: string -> string)
    requires forall k | 0 <= k < |ms| :: |ms[k]| > 0
    ensures ReplaceEach(text, ms[|ms|..], f) == text
  {
  }

  // ----- What the loop does, for every string

  predicate IsSuffix(m: string, t: string) {
    |m| <= |t| && t[|t| - |m|..] == m
  }

  /** What becomes of token t: the first member of ms that is a suffix of t is replaced in it, and nothing else. */
  function FirstSuffixRule(ms: seq<string>, f: string -> string, t: string): string {
    if ms == [] then t
    else if IsSuffix(ms[0], t) then t[..|t| - |ms[0]|] + f(ms[0])
    else FirstSuffixRule(ms[1..], f, t)
  }

  predicate RuleApplies(ms: seq<string>, t: string) {
    exists i | 0 <= i < |ms| :: IsSuffix(ms[i], t)
  }

  function ByFirstSuffix(ms: seq<string>, f: string -> string): string -> string {
    t => FirstSuffixRule(ms, f, t)
  }

  /** Replacement text that cannot take part in a later token: it ends in something that is neither a digit nor the letter,
      and the letter does not occur in it. */
  predicate Inert(x: string, u: char) {
    |x| > 0 && !IsDigit(x[|x| - 1]) && u !in x
  }

  ghost predicate AreRules(ms: seq<string>, u: char, f: string -> string) {
    && (forall i | 0 <= i < |ms| :: IsToken(ms[i], u))
    && (forall i | 0 <= i < |ms| :: Inert(f(ms[i]), u))
  }

  lemma {:induction false} RuleSnoc(ms: seq<string>, m: string, f: string -> string, t: string)
    ensures FirstSuffixRule(ms + [m], f, t) ==
      if RuleApplies(ms, t) || !IsSuffix(m, t) then FirstSuffixRule(ms, f, t) else t[..|t| - |m|] + f(m)
    ensures !RuleApplies(ms, t) ==> FirstSuffixRule(ms, f, t) == t
    decreases |ms|
  {
    if ms == [] {
      assert ms + [m] == [m];
      assert [m][1..] == [];
    } else {
      assert (ms + [m])[1..] == ms[1..] + [m];
      RuleSnoc(ms[1..], m, f, t);
      assert RuleApplies(ms, t) <==> IsSuffix(ms[0], t) || RuleApplies(ms[1..], t) by {
        if RuleApplies(ms[1..], t) {
          var i :| 0 <= i < |ms[1..]| && IsSuffix(ms[1..][i], t);
          assert ms[i + 1] == ms[1..][i];
        }
        if RuleApplies(ms, t) && !IsSuffix(ms[0], t) {
          var i :| 0 <= i < |ms| && IsSuffix(ms[i], t);
          assert ms[1..][i - 1] == ms[i];
        }
      }
    }
  }

  lemma {:induction false} RuleIsInert(ms: seq<string>, f: string -> string, t: string, u: char)
    requires AreRules(ms, u, f)
    requires IsToken(t, u) && !IsDigit(u) && RuleApplies(ms, t)
    ensures Inert(FirstSuffixRule(ms, f, t), u)
    decreases |ms|
  {
    if IsSuffix(ms[0], t) {
      assert AllDigits(t[..|t| - |ms[0]|]);
    } else {
      var i :| 0 <= i < |ms| && IsSuffix(ms[i], t);
      assert ms[1..][i - 1] == ms[i];
      RuleIsInert(ms[1..], f, t, u);
    }
  }

  /** No occurrence of a token starts inside inert text. */
  lemma InertIsCopied(x: string, y: string, u: char, m: string, new_: string)
    requires IsToken(m, u) && !IsDigit(u) && Inert(x, u)
    ensures ReplaceAll(x + y, m, new_) == x + ReplaceAll(y, m, new_)
  {
    forall i | 0 <= i < |x| ensures !(m <= x[i..] + y) {
      var z := x[i..] + y;
      var k := if |x| - 1 - i < |m| then |x| - 1 - i else |m| - 1;
      assert z[k] == x[i + k];
      assert m[k] == u || m[k] == m[..|m| - 1][k];
      assert m[k] != z[k];
    }
    ReplaceSkips(x, y, m, new_);
  }

  /** In a run of digits and the character after it, only a token that is a suffix is found, at the very end. */
  lemma RunIsReplaced(run: string, c: char, y: string, u: char, m: string, new_: string)
    requires AllDigits(run) && !IsDigit(c) && !IsDigit(u) && IsToken(m, u)
    ensures ReplaceAll(run + [c] + y, m, new_) ==
      (if c == u && IsSuffix(m, run + [c]) then (run + [c])[..|run| + 1 - |m|] + new_ else run + [c])
      + ReplaceAll(y, m, new_)
  {
    var x := run + [c];
    forall i | 0 <= i < |x|
      ensures m <= x[i..] + y ==> c == u && i == |x| - |m| && IsSuffix(m, x)
    {
      var z := x[i..] + y;
      var k := |x| - 1 - i;
      if |m| - 1 == k {
        assert z[..|m|] == x[i..];
        assert z[k] == c;
      } else {
        var l := if k < |m| - 1 then k else |m| - 1;
        assert z[l] == x[i + l];
        assert m[l] == u || m[l] == m[..|m| - 1][l];
        assert m[l] != z[l];
      }
    }
    if c == u && IsSuffix(m, x) {
      var k := |x| - |m|;
      var front := x[..k];
      forall i | 0 <= i < |front| ensures !(m <= front[i..] + (m + y)) {
        assert front[i..] + (m + y) == x[i..] + y;
      }
      assert x == front + m;
      ReplaceSkips(front, m + y, m, new_);
      ReplaceHits(y, m, new_);
      assert x + y == front + (m + y);
      assert front + new_ + ReplaceAll(y, m, new_) == front + (new_ + ReplaceAll(y, m, new_));
    } else {
      ReplaceSkips(x, y, m, new_);
    }
  }

  lemma TokenPass(t: string, y: string, u: char, ms: seq<string>, m: string, f: string -> string)
    requires !IsDigit(u) && IsToken(m, u) && IsToken(t, u) && AreRules(ms, u, f)
    ensures ReplaceAll(FirstSuffixRule(ms, f, t) + y, m, f(m)) == FirstSuffixRule(ms + [m], f, t) + ReplaceAll(y, m, f(m))
  {
    hide FirstSuffixRule, ReplaceAll, RuleApplies, Inert;
    RuleSnoc(ms, m, f, t);
    if RuleApplies(ms, t) {
      RuleIsInert(ms, f, t, u);
      InertIsCopied(FirstSuffixRule(ms, f, t), y, u, m, f(m));
    } else {
      assert t == t[..|t| - 1] + [u];
      RunIsReplaced(t[..|t| - 1], u, y, u, m, f(m));
    }
  }

  lemma DigitsPass(s: string, u: char, m: string, new_: string)
    requires !IsDigit(u) && IsToken(m, u) && AllDigits(s)
    ensures ReplaceAll(s, m, new_) == s
  {
    assert s + [] == s;
    forall i | 0 <= i < |s| ensures !(m <= s[i..] + []) {
      assert s[i..] + [] == s[i..];
      assert |m| <= |s[i..]| ==> m[|m| - 1] != s[i..][|m| - 1];
    }
    ReplaceSkips(s, [], m, new_);
  }

  /** One more pass of the loop is one more rule. */
  lemma {:induction false} PassIsRule(s: string, u: char, ms: seq<string>, m: string, f: string -> string)
    requires !IsDigit(u) && IsToken(m, u) && AreRules(ms, u, f)
    ensures ReplaceAll(Rewrite(s, u, ByFirstSuffix(ms, f)), m, f(m)) == Rewrite(s, u, ByFirstSuffix(ms + [m], f))
    decreases |s|
  {
    var n := DigitRun(s);
    if n == |s| {
      assert s[..n] == s;
      DigitsPass(s, u, m, f(m));
    } else {
      var unit, rest := s[..n + 1], s[n + 1..];
      var more := Rewrite(rest, u, ByFirstSuffix(ms, f));
      PassIsRule(rest, u, ms, m, f);
      assert unit == s[..n] + [s[n]];
      assert unit[..|unit| - 1] == s[..n];
      if n > 0 && s[n] == u {
        TokenPass(unit, more, u, ms, m, f);
      } else {
        RunIsReplaced(s[..n], s[n], more, u, m, f(m));
        assert !(s[n] == u && IsSuffix(m, unit));
      }
    }
  }

  lemma {:induction false} RewriteNothing(s: string, u: char, f: string -> string)
    requires !IsDigit(u)
    ensures Rewrite(s, u, ByFirstSuffix([], f)) == s
    decreases |s|
  {
    var n := DigitRun(s);
    if n < |s| {
      RewriteNothing(s[n + 1..], u, f);
      assert s == s[..n + 1] + s[n + 1..];
    }
  }

  lemma {:induction false} LoopIsRules(s: string, u: char, done: seq<string>, ms: seq<string>, f: string -> string)
    requires !IsDigit(u)
    requires AreRules(done, u, f)
    requires AreRules(ms, u, f)
    ensures ReplaceEach(Rewrite(s, u, ByFirstSuffix(done, f)), ms, f) == Rewrite(s, u, ByFirstSuffix(done + ms, f))
    decreases |ms|
  {
    if ms == [] {
      assert done + ms == done;
    } else {
      assert ms[0] in ms;
      assert done + [ms[0]] + ms[1..] == done + ms;
      PassIsRule(s, u, done, ms[0], f);
      LoopIsRules(s, u, done + [ms[0]], ms[1..], f);
    }
  }

  /** For every string and every list of tokens: replacing the tokens one after the other rewrites each token
      of the string by the first listed token that is a suffix of it. */
  lemma SequentialMeaning(s: string, u: char, ms: seq<string>, f: string -> string)
    requires !IsDigit(u)
    requires AreRules(ms, u, f)
    ensures ReplaceEach(s, ms, f) == Rewrite(s, u, ByFirstSuffix(ms, f))
  {
    RewriteNothing(s, u, f);
    assert [] + ms == ms;
    LoopIsRules(s, u, [], ms, f);
  }

  /** A single pass needs no care about what the replacement contains. */
  lemma SinglePassMeaning(s: string, u: char, m: string, f: string -> string)
    requires !IsDigit(u) && IsToken(m, u)
    ensures ReplaceAll(s, m, f(m)) == Rewrite(s, u, ByFirstSuffix([m], f))
  {
    RewriteNothing(s, u, f);
    assert [] + [m] == [m];
    PassIsRule(s, u, [], m, f);
  }

  // ----- When the loop is the same as replacing every token at once

  /** By the time token i is replaced, token j ends in it and was not replaced as a whole. */
  ghost predicate Captures(ms: seq<string>, i: nat, j: nat)
    requires i < |ms| && j < |ms|
  {
    IsSuffix(ms[i], ms[j]) && forall k | 0 <= k <= i :: ms[k] != ms[j]
  }

  /** No token is taken apart by an earlier one. */
  ghost predicate NoCapture(ms: seq<string>) {
    forall i: nat, j: nat | i < j < |ms| :: !Captures(ms, i, j)
  }

  /** Two texts that differ at some place both have, so that neither can be completed to the other. */
  predicate Apart(x: string, y: string) {
    exists k | 0 <= k < |x| && k < |y| :: x[k] != y[k]
  }

  /** Replacing the end of a token by a rule for that end never looks like replacing the whole token. */
  ghost predicate Distinguishes(ms: seq<string>, f: string -> string) {
    forall i, j | 0 <= i < |ms| && 0 <= j < |ms| && IsSuffix(ms[i], ms[j]) && ms[i] != ms[j] ::
      Apart(ms[j][..|ms[j]| - |ms[i]|] + f(ms[i]), f(ms[j]))
  }

  lemma {:induction false} RewritesAgree(s: string, u: char, f: string -> string, g: string -> string)
    requires !IsDigit(u)
    requires forall t | t in Tokens(s, u) :: f(t) == g(t) || Apart(f(t), g(t))
    ensures Rewrite(s, u, f) == Rewrite(s, u, g) <==> forall t | t in Tokens(s, u) :: f(t) == g(t)
    decreases |s|
  {
    var n := DigitRun(s);
    if n < |s| {
      var unit, rest := s[..n + 1], s[n + 1..];
      var a, b := Rewrite(rest, u, f), Rewrite(rest, u, g);
      if n > 0 && s[n] == u {
        assert Tokens(s, u) == [unit] + Tokens(rest, u);
        assert forall t | t in Tokens(rest, u) :: t in Tokens(s, u);
        assert Tokens(s, u)[0] == unit;
        RewritesAgree(rest, u, f, g);
        if f(unit) == g(unit) {
          assert (f(unit) + a)[|f(unit)|..] == a && (g(unit) + b)[|f(unit)|..] == b;
        } else {
          var k :| 0 <= k < |f(unit)| && k < |g(unit)| && f(unit)[k] != g(unit)[k];
          assert (f(unit) + a)[k] != (g(unit) + b)[k];
        }
      } else {
        RewritesAgree(rest, u, f, g);
        assert (unit + a)[n + 1..] == a && (unit + b)[n + 1..] == b;
      }
    }
  }

  /** The rule that is applied to t is the first one that is a suffix of it. */
  lemma {:induction false} RuleIsFirst(ms: seq<string>, f: string -> string, t: string) returns (i: nat)
    requires RuleApplies(ms, t)
    ensures i < |ms| && IsSuffix(ms[i], t) && (forall k | 0 <= k < i :: !IsSuffix(ms[k], t))
    ensures FirstSuffixRule(ms, f, t) == t[..|t| - |ms[i]|] + f(ms[i])
    decreases |ms|
  {
    if IsSuffix(ms[0], t) {
      i := 0;
    } else {
      var k :| 0 <= k < |ms| && IsSuffix(ms[k], t);
      assert ms[1..][k - 1] == ms[k];
      i := RuleIsFirst(ms[1..], f, t);
      i := i + 1;
      forall k | 0 <= k < i ensures !IsSuffix(ms[k], t) {
        assert k > 0 ==> ms[k] == ms[1..][k - 1];
      }
    }
  }

  lemma TokenRewrittenWhole(ms: seq<string>, f: string -> string, j: nat)
    requires j < |ms| && Distinguishes(ms, f)
    ensures FirstSuffixRule(ms, f, ms[j]) == f(ms[j]) || Apart(FirstSuffixRule(ms, f, ms[j]), f(ms[j]))
    ensures FirstSuffixRule(ms, f, ms[j]) == f(ms[j]) <==> forall i: nat | i < j :: !Captures(ms, i, j)
  {
    hide *;
    SuffixOfItself(ms[j]);
    RuleExists(ms, j);
    var i := RuleIsFirst(ms, f, ms[j]);
    if ms[i] == ms[j] {
      assert ms[j][..0] + f(ms[j]) == f(ms[j]);
      WholeFirst(ms, i, j);
    } else {
      EndFirst(ms, i, j);
      DistinguishesAt(ms, f, i, j);
    }
  }

  lemma RuleExists(ms: seq<string>, j: nat)
    requires j < |ms| && IsSuffix(ms[j], ms[j])
    ensures RuleApplies(ms, ms[j])
  {
  }

  lemma WholeFirst(ms: seq<string>, i: nat, j: nat)
    requires i < |ms| && j < |ms| && ms[i] == ms[j]
    requires forall k | 0 <= k < i :: !IsSuffix(ms[k], ms[j])
    ensures forall k: nat | k < j :: !Captures(ms, k, j)
  {
    hide IsSuffix;
  }

  lemma EndFirst(ms: seq<string>, i: nat, j: nat)
    requires i < |ms| && j < |ms| && ms[i] != ms[j] && IsSuffix(ms[i], ms[j]) && IsSuffix(ms[j], ms[j])
    requires forall k | 0 <= k < i :: !IsSuffix(ms[k], ms[j])
    ensures i < j && Captures(ms, i, j)
  {
    hide IsSuffix;
  }

  lemma SuffixOfItself(t: string)
    ensures IsSuffix(t, t)
  {
  }

  lemma DistinguishesAt(ms: seq<string>, f: string -> string, i: nat, j: nat)
    requires i < |ms| && j < |ms| && Distinguishes(ms, f) && IsSuffix(ms[i], ms[j]) && ms[i] != ms[j]
    ensures var whole := ms[j][..|ms[j]| - |ms[i]|] + f(ms[i]);
      Apart(whole, f(ms[j])) && whole != f(ms[j])
  {
    ApartDiffers(ms[j][..|ms[j]| - |ms[i]|] + f(ms[i]), f(ms[j]));
  }

  lemma ApartDiffers(x: string, y: string)
    ensures Apart(x, y) ==> x != y
  {
  }

  /** Replacing the tokens of s one after the other is the same as replacing them all at once exactly when no
      token is taken apart by an earlier one. */
  lemma SequentialIsSimultaneous(s: string, u: char, f: string -> string)
    requires !IsDigit(u)
    requires AreRules(Tokens(s, u), u, f) && Distinguishes(Tokens(s, u), f)
    ensures ReplaceEach(s, Tokens(s, u), f) == Rewrite(s, u, f) <==> NoCapture(Tokens(s, u))
  {
    var ms := Tokens(s, u);
    var g := ByFirstSuffix(ms, f);
    SequentialMeaning(s, u, ms, f);
    hide FirstSuffixRule, Apart, Tokens, Rewrite, ReplaceEach, Captures, Distinguishes, AreRules;
    forall t | t in ms ensures g(t) == f(t) || Apart(g(t), f(t)) {
      var j :| 0 <= j < |ms| && ms[j] == t;
      TokenRewrittenWhole(ms, f, j);
    }
    RewritesAgree(s, u, g, f);
    if NoCapture(ms) {
      forall t | t in ms ensures g(t) == f(t) {
        var j :| 0 <= j < |ms| && ms[j] == t;
        TokenRewrittenWhole(ms, f, j);
      }
    } else {
      var i: nat, j: nat :| i < j < |ms| && Captures(ms, i, j);
      TokenRewrittenWhole(ms, f, j);
      assert ms[j] in ms && g(ms[j]) != f(ms[j]);
    }
  }
}
