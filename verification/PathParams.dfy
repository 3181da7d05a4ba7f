/** Rewriting echo path parameters ":name" to OpenAPI's "{name}". */
module PathParams {
  import opened Text
  import Sequences

  /** The characters of the class [A-Za-z0-9-_]. */
  predicate IsParamChar(c: char) {
    'A' <= c <= 'Z' || 'a' <= c <= 'z' || '0' <= c <= '9' || c == '-' || c == '_'
  }

  function NameRun(s: string): (n: nat)
    ensures n <= |s| && (forall i | 0 <= i < n :: IsParamChar(s[i]))
    ensures n < |s| ==> !IsParamChar(s[n])
  {
    if s == [] || !IsParamChar(s[0]) then 0 else 1 + NameRun(s[1..])
  }

  /** A colon and a nonempty name. */
  predicate IsParam(t: string) {
    |t| > 1 && t[0] == ':' && forall i | 1 <= i < |t| :: IsParamChar(t[i])
  }

  /** The length of the parameter at the front of s, or 0 if there is none. */
  function ParamLength(s: string): (n: nat)
    ensures n <= |s|
    ensures n > 0 ==> IsParam(s[..n]) && (n < |s| ==> !IsParamChar(s[n]))
    ensures n == 0 <==> !(|s| > 1 && s[0] == ':' && IsParamChar(s[1]))
  {
    if |s| > 1 && s[0] == ':' && IsParamChar(s[1]) then 1 + NameRun(s[1..]) else 0
  }

  /** What FindAllString returns: every longest parameter, from left to right. */
  function Params(s: string): (ts: seq<string>)
    ensures forall i | 0 <= i < |ts| :: IsParam(ts[i])
    decreases |s|
  {
    if s == [] then []
    else if ParamLength(s) > 0 then [s[..ParamLength(s)]] + Params(s[ParamLength(s)..])
    else Params(s[1..])
  }

  /** Replaces every parameter t of s, all at once, by out(t). */
  function RewriteParams(s: string, out: string -> string): string
    decreases |s|
  {
    if s == [] then []
    else if ParamLength(s) > 0 then out(s[..ParamLength(s)]) + RewriteParams(s[ParamLength(s)..], out)
    else [s[0]] + RewriteParams(s[1..], out)
  }

  function Braced(m: string): string {
    if IsParam(m) then "{" + m[1..] + "}" else m
  }

  /** What the source computes: one ReplaceAll per parameter, in the order found. */
  function ReplaceParamsSpec(path: string): string {
    ReplaceEach(path, Params(path), Braced)
  }

  lemma NoColonLeft(name: string)
    requires ':' !in name
    ensures ReplaceAll(name, ":", "") == name
  {
    forall i | 0 <= i < |name| ensures !(":" <= name[i..] + "") {
      assert (name[i..] + "")[0] == name[i];
    }
    assert name + "" == name;
    ReplaceSkips(name, "", ":", "");
  }

  lemma DropColon(m: string)
    requires IsParam(m)
    ensures ReplaceAll(m, ":", "") == m[1..]
  {
    assert m == ":" + m[1..];
    ReplaceHits(m[1..], ":", "");
    NoColonLeft(m[1..]);
  }

  method ReplaceParams(path: string) returns (out: string)
    ensures out == ReplaceParamsSpec(path)
  {
    hide ReplaceAll, Params, ReplaceEach;
    out := path;
    var matches := Params(out);
    assert matches[0..] == matches;
    for i := 0 to |matches|
      invariant forall k | 0 <= k < |matches| :: IsParam(matches[k])
      invariant ReplaceEach(out, matches[i..], Braced) == ReplaceParamsSpec(path)
    {
      var match_ := matches[i];
      DropColon(match_);
      LoopStep(out, matches, i, Braced);
      out := ReplaceAll(out, match_, "{" + ReplaceAll(match_, ":", "") + "}");
    }
    NothingLeft(out, matches, Braced);
  }

  // ----- What the loop does, for every path

  /** What becomes of parameter t: the first member of ms that is a prefix of it is put in braces, and the rest follows. */
  function FirstPrefixRule(ms: seq<string>, t: string): string {
    if ms == [] then t
    else if ms[0] <= t then Braced(ms[0]) + t[|ms[0]|..]
    else FirstPrefixRule(ms[1..], t)
  }

  function ByFirstPrefix(ms: seq<string>): string -> string {
    t => FirstPrefixRule(ms, t)
  }

  predicate RuleApplies(ms: seq<string>, t: string) {
    exists i | 0 <= i < |ms| :: ms[i] <= t
  }

  ghost predicate AreParams(ms: seq<string>) {
    forall i | 0 <= i < |ms| :: IsParam(ms[i])
  }

  lemma {:induction false} RuleSnoc(ms: seq<string>, m: string, t: string)
    ensures FirstPrefixRule(ms + [m], t) ==
      if RuleApplies(ms, t) || !(m <= t) then FirstPrefixRule(ms, t) else Braced(m) + t[|m|..]
    ensures !RuleApplies(ms, t) ==> FirstPrefixRule(ms, t) == t
    decreases |ms|
  {
    if ms == [] {
      assert (ms + [m])[1..] == [];
    } else {
      assert (ms + [m])[1..] == ms[1..] + [m];
      RuleSnoc(ms[1..], m, t);
      RuleAppliesCons(ms, t);
    }
  }

  lemma RuleAppliesCons(ms: seq<string>, t: string)
    requires ms != []
    ensures RuleApplies(ms, t) <==> ms[0] <= t || RuleApplies(ms[1..], t)
  {
    if RuleApplies(ms[1..], t) {
      var i :| 0 <= i < |ms[1..]| && ms[1..][i] <= t;
      assert ms[i + 1] <= t;
    }
    if RuleApplies(ms, t) && !(ms[0] <= t) {
      var i :| 0 <= i < |ms| && ms[i] <= t;
      assert ms[1..][i - 1] <= t;
    }
  }

  /** The rule that is applied is the first that is a prefix. */
  lemma {:induction false} RuleIsFirst(ms: seq<string>, t: string) returns (i: nat)
    requires RuleApplies(ms, t)
    ensures i < |ms| && ms[i] <= t && (forall k | 0 <= k < i :: !(ms[k] <= t))
    ensures FirstPrefixRule(ms, t) == Braced(ms[i]) + t[|ms[i]|..]
    decreases |ms|
  {
    if ms[0] <= t {
      i := 0;
    } else {
      RuleAppliesCons(ms, t);
      i := RuleIsFirst(ms[1..], t);
      i := i + 1;
      forall k | 0 <= k < i ensures !(ms[k] <= t) {
        assert k > 0 ==> ms[k] == ms[1..][k - 1];
      }
    }
  }

  lemma RuleLeavesNoColon(ms: seq<string>, t: string)
    requires AreParams(ms) && IsParam(t) && RuleApplies(ms, t)
    ensures ':' !in FirstPrefixRule(ms, t) && FirstPrefixRule(ms, t) != [] && FirstPrefixRule(ms, t)[0] == '{'
  {
    var i := RuleIsFirst(ms, t);
    assert forall k | |ms[i]| <= k < |t| :: t[k] != ':';
    assert forall k | 1 <= k < |ms[i]| :: ms[i][k] != ':';
  }

  lemma ColonFreeIsCopied(x: string, y: string, m: string, new_: string)
    requires ':' !in x && IsParam(m)
    ensures ReplaceAll(x + y, m, new_) == x + ReplaceAll(y, m, new_)
  {
    forall i | 0 <= i < |x| ensures !(m <= x[i..] + y) {
      assert (x[i..] + y)[0] == x[i];
    }
    ReplaceSkips(x, y, m, new_);
  }

  ghost predicate NoNameAtFront(y: string) {
    y == [] || !IsParamChar(y[0])
  }

  /** Rewriting never turns the character after a token into one that would continue it. */
  lemma FrontKeepsKind(s: string, ms: seq<string>)
    requires AreParams(ms) && NoNameAtFront(s)
    ensures NoNameAtFront(RewriteParams(s, ByFirstPrefix(ms)))
  {
    if s != [] && ParamLength(s) > 0 {
      var t := s[..ParamLength(s)];
      if RuleApplies(ms, t) {
        RuleLeavesNoColon(ms, t);
      } else {
        RuleSnoc(ms, t, t);
      }
    }
  }

  lemma UntouchedPass(t: string, y: string, m: string)
    requires IsParam(t) && IsParam(m) && NoNameAtFront(y)
    ensures ReplaceAll(t + y, m, Braced(m)) == (if m <= t then Braced(m) + t[|m|..] else t) + ReplaceAll(y, m, Braced(m))
  {
    if m <= t {
      var tail := t[|m|..];
      assert t + y == m + (tail + y);
      ReplaceHits(tail + y, m, Braced(m));
      assert forall k | 0 <= k < |tail| :: tail[k] == t[|m| + k];
      ColonFreeIsCopied(tail, y, m, Braced(m));
    } else {
      forall i | 0 <= i < |t| ensures !(m <= t[i..] + y) {
        if i > 0 {
          assert (t[i..] + y)[0] == t[i];
        } else {
          assert t[0..] + y == t + y;
          NotAcross(t, y, m);
        }
      }
      ReplaceSkips(t, y, m, Braced(m));
    }
  }

  lemma NotAcross(t: string, y: string, m: string)
    requires IsParam(t) && IsParam(m) && NoNameAtFront(y) && !(m <= t)
    ensures !(m <= t + y)
  {
    if |m| <= |t| {
      assert (t + y)[..|m|] == t[..|m|];
    } else if y != [] {
      assert (t + y)[|t|] == y[0] && IsParamChar(m[|t|]);
    }
  }

  lemma TokenPass(t: string, y: string, ms: seq<string>, m: string)
    requires IsParam(t) && IsParam(m) && AreParams(ms) && NoNameAtFront(y)
    ensures ReplaceAll(FirstPrefixRule(ms, t) + y, m, Braced(m)) ==
      FirstPrefixRule(ms + [m], t) + ReplaceAll(y, m, Braced(m))
  {
    hide FirstPrefixRule, ReplaceAll, RuleApplies;
    RuleSnoc(ms, m, t);
    if RuleApplies(ms, t) {
      RuleLeavesNoColon(ms, t);
      ColonFreeIsCopied(FirstPrefixRule(ms, t), y, m, Braced(m));
    } else {
      UntouchedPass(t, y, m);
    }
  }

  /** One more pass of the loop is one more rule. */
  lemma {:induction false} PassIsRule(s: string, ms: seq<string>, m: string)
    requires IsParam(m) && AreParams(ms)
    ensures ReplaceAll(RewriteParams(s, ByFirstPrefix(ms)), m, Braced(m)) == RewriteParams(s, ByFirstPrefix(ms + [m]))
    decreases |s|
  {
    if s != [] {
      var n := ParamLength(s);
      if n > 0 {
        var rest := s[n..];
        PassIsRule(rest, ms, m);
        FrontKeepsKind(rest, ms);
        TokenPass(s[..n], RewriteParams(rest, ByFirstPrefix(ms)), ms, m);
      } else {
        var rest := s[1..];
        var y := RewriteParams(rest, ByFirstPrefix(ms));
        PassIsRule(rest, ms, m);
        if s[0] == ':' {
          FrontKeepsKind(rest, ms);
        }
        assert !(m <= [s[0]] + y) by {
          assert ([s[0]] + y)[0] == s[0];
          assert y != [] ==> ([s[0]] + y)[1] == y[0];
        }
        assert ([s[0]] + y)[1..] == y;
      }
    }
  }

  lemma NoRule(t: string)
    ensures ByFirstPrefix([])(t) == t
  {
  }

  lemma RewriteStep(s: string, out: string -> string) returns (n: nat)
    requires s != []
    ensures 0 < n <= |s|
    ensures RewriteParams(s, out) == (if ParamLength(s) > 0 then out(s[..n]) else s[..n]) + RewriteParams(s[n..], out)
  {
    hide ParamLength;
    n := if ParamLength(s) > 0 then ParamLength(s) else 1;
  }

  lemma {:induction false} RewriteNothing(s: string)
    ensures RewriteParams(s, ByFirstPrefix([])) == s
    decreases |s|
  {
    if s == [] {
      RewriteEmpty(ByFirstPrefix([]));
    } else {
      hide *;
      var n := RewriteStep(s, ByFirstPrefix([]));
      NoRule(s[..n]);
      RewriteNothing(s[n..]);
      Sequences.TakeDrop(s, n);
    }
  }

  lemma RewriteEmpty(out: string -> string)
    ensures RewriteParams("", out) == ""
  {
  }

  lemma {:induction false} LoopIsRules(s: string, done: seq<string>, ms: seq<string>)
    requires AreParams(done) && AreParams(ms)
    ensures ReplaceEach(RewriteParams(s, ByFirstPrefix(done)), ms, Braced) == RewriteParams(s, ByFirstPrefix(done + ms))
    decreases |ms|
  {
    if ms == [] {
      assert done + ms == done;
    } else {
      assert done + [ms[0]] + ms[1..] == done + ms;
      PassIsRule(s, done, ms[0]);
      LoopIsRules(s, done + [ms[0]], ms[1..]);
    }
  }

  /** For every path, and whatever the parameter names: the loop rewrites each parameter by the first listed one
      that is a prefix of it. */
  lemma SequentialMeaning(path: string)
    ensures ReplaceParamsSpec(path) == RewriteParams(path, ByFirstPrefix(Params(path)))
  {
    RewriteNothing(path);
    assert [] + Params(path) == Params(path);
    LoopIsRules(path, [], Params(path));
  }

  // ----- The output has no parameter left

  ghost predicate HasNoParam(s: string) {
    forall i | 0 <= i < |s| - 1 :: s[i] == ':' ==> !IsParamChar(s[i + 1])
  }

  lemma ConcatHasNoParam(x: string, y: string)
    requires ':' !in x && HasNoParam(y)
    ensures HasNoParam(x + y)
  {
    forall i | 0 <= i < |x + y| - 1 && (x + y)[i] == ':' ensures !IsParamChar((x + y)[i + 1]) {
      assert i >= |x|;
      assert y[i - |x|] == ':';
    }
  }

  lemma {:induction false} RulesLeaveNoParam(s: string, ms: seq<string>)
    requires AreParams(ms) && forall t | t in Params(s) :: RuleApplies(ms, t)
    ensures HasNoParam(RewriteParams(s, ByFirstPrefix(ms)))
    decreases |s|
  {
    if s != [] {
      var n := ParamLength(s);
      if n > 0 {
        assert Params(s)[0] == s[..n];
        assert forall t | t in Params(s[n..]) :: t in Params(s);
        RulesLeaveNoParam(s[n..], ms);
        RuleLeavesNoColon(ms, s[..n]);
        ConcatHasNoParam(FirstPrefixRule(ms, s[..n]), RewriteParams(s[n..], ByFirstPrefix(ms)));
      } else {
        RulesLeaveNoParam(s[1..], ms);
        var y := RewriteParams(s[1..], ByFirstPrefix(ms));
        if s[0] == ':' {
          FrontKeepsKind(s[1..], ms);
        } else {
          ConcatHasNoParam([s[0]], y);
        }
      }
    }
  }

  lemma {:induction false} NoParamsFound(s: string)
    requires HasNoParam(s)
    ensures Params(s) == []
    decreases |s|
  {
    if s != [] {
      forall i | 0 <= i < |s[1..]| - 1 && s[1..][i] == ':' ensures !IsParamChar(s[1..][i + 1]) {
        assert s[i + 1] == ':';
      }
      NoParamsFound(s[1..]);
    }
  }

  /** For every path, no colon before a parameter character is left. */
  lemma OutputHasNoParam(path: string)
    ensures HasNoParam(ReplaceParamsSpec(path))
  {
    var ms := Params(path);
    SequentialMeaning(path);
    forall t | t in ms ensures RuleApplies(ms, t) {
      var i :| 0 <= i < |ms| && ms[i] == t;
      assert ms[i] <= t;
    }
    RulesLeaveNoParam(path, ms);
  }

  /** Rewriting a rewritten path changes nothing. */
  lemma Idempotent(path: string)
    ensures ReplaceParamsSpec(ReplaceParamsSpec(path)) == ReplaceParamsSpec(path)
  {
    OutputHasNoParam(path);
    NoParamsFound(ReplaceParamsSpec(path));
  }

  // ----- When the output is the one-pass rewrite

  /** By the time parameter i is replaced, parameter j begins with it and was not replaced as a whole. */
  ghost predicate Captures(ms: seq<string>, i: nat, j: nat)
    requires i < |ms| && j < |ms|
  {
    ms[i] <= ms[j] && forall k | 0 <= k <= i :: ms[k] != ms[j]
  }

  ghost predicate NoCapture(ms: seq<string>) {
    forall i: nat, j: nat | i < j < |ms| :: !Captures(ms, i, j)
  }

  /** A parameter is either put in braces as a whole, or the closing brace comes too early. */
  lemma ParamRewrittenWhole(ms: seq<string>, j: nat)
    requires j < |ms| && AreParams(ms)
    ensures FirstPrefixRule(ms, ms[j]) == Braced(ms[j]) || Apart(FirstPrefixRule(ms, ms[j]), Braced(ms[j]))
    ensures FirstPrefixRule(ms, ms[j]) == Braced(ms[j]) <==> forall i: nat | i < j :: !Captures(ms, i, j)
  {
    hide *;
    RuleExists(ms, j);
    var i := RuleIsFirst(ms, ms[j]);
    if ms[i] == ms[j] {
      assert Braced(ms[j]) + ms[j][|ms[j]|..] == Braced(ms[j]);
      WholeFirst(ms, i, j);
    } else {
      FrontFirst(ms, i, j);
      EarlyBrace(ms[i], ms[j]);
    }
  }

  lemma RuleExists(ms: seq<string>, j: nat)
    requires j < |ms| && AreParams(ms)
    ensures RuleApplies(ms, ms[j]) && forall i | 0 <= i < |ms| :: IsParam(ms[i])
  {
    assert ms[j] <= ms[j];
  }

  lemma WholeFirst(ms: seq<string>, i: nat, j: nat)
    requires i < |ms| && j < |ms| && ms[i] == ms[j]
    requires forall k | 0 <= k < i :: !(ms[k] <= ms[j])
    ensures forall k: nat | k < j :: !Captures(ms, k, j)
  {
  }

  lemma FrontFirst(ms: seq<string>, i: nat, j: nat)
    requires i < |ms| && j < |ms| && ms[i] != ms[j] && ms[i] <= ms[j]
    requires forall k | 0 <= k < i :: !(ms[k] <= ms[j])
    ensures i < j && Captures(ms, i, j)
  {
    assert ms[j] <= ms[j];
  }

  lemma EarlyBrace(m: string, t: string)
    requires IsParam(m) && IsParam(t) && m <= t && m != t
    ensures Apart(Braced(m) + t[|m|..], Braced(t)) && Braced(m) + t[|m|..] != Braced(t)
  {
    var x, y := Braced(m) + t[|m|..], Braced(t);
    assert x[|m|] == '}' && y[|m|] == t[|m|];
  }

  lemma {:induction false} RewritesAgree(s: string, f: string -> string, g: string -> string)
    requires forall t | t in Params(s) :: f(t) == g(t) || Apart(f(t), g(t))
    ensures RewriteParams(s, f) == RewriteParams(s, g) <==> forall t | t in Params(s) :: f(t) == g(t)
    decreases |s|
  {
    if s != [] {
      var n := ParamLength(s);
      if n > 0 {
        var unit, rest := s[..n], s[n..];
        var a, b := RewriteParams(rest, f), RewriteParams(rest, g);
        assert Params(s)[0] == unit && forall t | t in Params(rest) :: t in Params(s);
        RewritesAgree(rest, f, g);
        if f(unit) == g(unit) {
          assert (f(unit) + a)[|f(unit)|..] == a && (g(unit) + b)[|f(unit)|..] == b;
        } else {
          var k :| 0 <= k < |f(unit)| && k < |g(unit)| && f(unit)[k] != g(unit)[k];
          assert (f(unit) + a)[k] != (g(unit) + b)[k];
        }
      } else {
        RewritesAgree(s[1..], f, g);
        assert ([s[0]] + RewriteParams(s[1..], f))[1..] == RewriteParams(s[1..], f);
        assert ([s[0]] + RewriteParams(s[1..], g))[1..] == RewriteParams(s[1..], g);
      }
    }
  }

  /** The result is the one-pass rewrite of each ":name" to "{name}", all else unchanged, exactly when no
      parameter begins with an earlier one that is shorter, short of having been replaced before. */
  lemma OnePassExactly(path: string)
    ensures ReplaceParamsSpec(path) == RewriteParams(path, Braced) <==> NoCapture(Params(path))
  {
    var ms := Params(path);
    var g := ByFirstPrefix(ms);
    SequentialMeaning(path);
    hide FirstPrefixRule, Params, RewriteParams, ReplaceEach, Captures, Braced;
    forall t | t in ms ensures g(t) == Braced(t) || Apart(g(t), Braced(t)) {
      var j :| 0 <= j < |ms| && ms[j] == t;
      ParamRewrittenWhole(ms, j);
    }
    RewritesAgree(path, g, Braced);
    if NoCapture(ms) {
      forall t | t in ms ensures g(t) == Braced(t) {
        var j :| 0 <= j < |ms| && ms[j] == t;
        ParamRewrittenWhole(ms, j);
      }
    } else {
      var i: nat, j: nat :| i < j < |ms| && Captures(ms, i, j);
      ParamRewrittenWhole(ms, j);
      assert ms[j] in ms && g(ms[j]) != Braced(ms[j]);
    }
  }

  // ----- Which characters make up a name, and one parameter from beginning to end

  /** The characters of a parameter's name, one by one. */
  predicate IsListed(c: char) {
    || c in {
      'A', 'B', 'C', 'D', 'E', 'F', 'G', 'H', 'I', 'J', 'K', 'L', 'M', 'N', 'O', 'P', 'Q', 'R', 'S', 'T',
      'U', 'V', 'W', 'X', 'Y', 'Z'}
    || c in {
      'a', 'b', 'c', 'd', 'e', 'f', 'g', 'h', 'i', 'j', 'k', 'l', 'm', 'n', 'o', 'p', 'q', 'r', 's', 't',
      'u', 'v', 'w', 'x', 'y', 'z'}
    || c in {'0', '1', '2', '3', '4', '5', '6', '7', '8', '9'}
    || c in {'-', '_'}
  }

  lemma NameCharacters(c: char)
    ensures IsParamChar(c) <==> IsListed(c)
  {
    CapitalsListed(c);
    SmallLettersListed(c);
    DigitsListed(c);
  }

  lemma CapitalsListed(c: char)
    ensures 'A' <= c <= 'Z' <==> c in {
      'A', 'B', 'C', 'D', 'E', 'F', 'G', 'H', 'I', 'J', 'K', 'L', 'M', 'N', 'O', 'P', 'Q', 'R', 'S', 'T',
      'U', 'V', 'W', 'X', 'Y', 'Z'}
  {
  }

  lemma SmallLettersListed(c: char)
    ensures 'a' <= c <= 'z' <==> c in {
      'a', 'b', 'c', 'd', 'e', 'f', 'g', 'h', 'i', 'j', 'k', 'l', 'm', 'n', 'o', 'p', 'q', 'r', 's', 't',
      'u', 'v', 'w', 'x', 'y', 'z'}
  {
  }

  lemma DigitsListed(c: char)
    ensures '0' <= c <= '9' <==> c in {'0', '1', '2', '3', '4', '5', '6', '7', '8', '9'}
  {
  }

  lemma {:induction false} FrontIsCopied(front: string, s: string)
    requires ':' !in front
    ensures RewriteParams(front + s, Braced) == front + RewriteParams(s, Braced)
    ensures Params(front + s) == Params(s)
    decreases |front|
  {
    hide RewriteParams, Params;
    if front == "" {
      assert front + s == s;
    } else {
      Sequences.HeadAndTail(front);
      Sequences.Associates([front[0]], front[1..], s);
      FrontIsCopied(front[1..], s);
      PlainCharacter(front[0], front[1..] + s);
      Sequences.Associates([front[0]], front[1..], RewriteParams(s, Braced));
    }
  }

  lemma PlainCharacter(c: char, s: string)
    requires c != ':'
    ensures RewriteParams([c] + s, Braced) == [c] + RewriteParams(s, Braced)
    ensures Params([c] + s) == Params(s)
  {
    Sequences.Cons(c, s);
  }

  lemma {:induction false} NameRunOf(name: string, rest: string)
    requires (forall i | 0 <= i < |name| :: IsParamChar(name[i])) && (rest == "" || !IsParamChar(rest[0]))
    ensures NameRun(name + rest) == |name|
    decreases |name|
  {
    if name == "" {
      assert name + rest == rest;
    } else {
      assert (name + rest)[1..] == name[1..] + rest;
      NameRunOf(name[1..], rest);
    }
  }

  lemma ParamAtFront(name: string, rest: string)
    requires name != "" && (forall i | 0 <= i < |name| :: IsParamChar(name[i])) && (rest == "" || !IsParamChar(rest[0]))
    ensures var s := ":" + name + rest;
      && RewriteParams(s, Braced) == "{" + name + "}" + RewriteParams(rest, Braced)
      && Params(s) == [":" + name] + Params(rest)
  {
    hide NameRun, ParamLength, IsParamChar;
    ParamSplits(name, rest);
    assert (":" + name)[1..] == name;
  }

  lemma ParamSplits(name: string, rest: string)
    requires name != "" && (forall i | 0 <= i < |name| :: IsParamChar(name[i])) && (rest == "" || !IsParamChar(rest[0]))
    ensures var s := ":" + name + rest;
      ParamLength(s) == 1 + |name| && s[..1 + |name|] == ":" + name && s[1 + |name|..] == rest
  {
    hide NameRun, IsParamChar;
    var s := ":" + name + rest;
    assert s[1..] == name + rest && s[1] == name[0];
    NameRunOf(name, rest);
  }

  /** A path with one parameter: the name, made up of the listed characters and ended by any other, comes out in
      braces and without its colon; nothing else changes. */
  lemma {:induction false} OneParameter(front: string, name: string, rest: string)
    requires ':' !in front && ':' !in rest && name != ""
    requires forall c | c in name :: IsListed(c)
    requires rest == "" || !IsListed(rest[0])
    ensures ReplaceParamsSpec(front + (":" + name + rest)) == front + ("{" + name + "}" + rest)
  {
    forall i | 0 <= i < |name| ensures IsParamChar(name[i]) {
      NameCharacters(name[i]);
    }
    if rest != "" {
      NameCharacters(rest[0]);
    }
    OneParameterByKind(front, name, rest);
  }

  lemma OneParameterByKind(front: string, name: string, rest: string)
    requires ':' !in front && ':' !in rest && name != ""
    requires (forall i | 0 <= i < |name| :: IsParamChar(name[i])) && (rest == "" || !IsParamChar(rest[0]))
    ensures ReplaceParamsSpec(front + (":" + name + rest)) == front + ("{" + name + "}" + rest)
  {
    var path := front + (":" + name + rest);
    FrontIsCopied(front, ":" + name + rest);
    ParamAtFront(name, rest);
    FrontIsCopied(rest, "");
    assert rest + "" == rest;
    NothingToRewrite();
    hide RewriteParams, Params, ReplaceParamsSpec;
    assert [":" + name] + [] == [":" + name];
    assert NoCapture(Params(path));
    OnePassExactly(path);
  }

  lemma NothingToRewrite()
    ensures RewriteParams("", Braced) == "" && Params("") == []
  {
  }

  /** A path in which no colon stands before one of these characters does not change. */
  lemma {:induction false} NothingElseChanges(path: string)
    requires forall i | 0 <= i < |path| - 1 && path[i] == ':' :: !IsListed(path[i + 1])
    ensures ReplaceParamsSpec(path) == path
  {
    forall i | 0 <= i < |path| - 1 && path[i] == ':' ensures !IsParamChar(path[i + 1]) {
      NameCharacters(path[i + 1]);
    }
    NoParamsFound(path);
  }
}
