/** Facts about concatenation that proofs elsewhere name instead of finding them again. */
module Sequences {
  lemma Snoc<T>(s: seq<T>, x: T)
    ensures (s + [x])[..|s + [x]| - 1] == s && (s + [x])[|s + [x]| - 1] == x
  {
  }

  lemma Cons<T>(x: T, s: seq<T>)
    ensures ([x] + s)[1..] == s && ([x] + s)[0] == x
  {
  }

  lemma One<T>(x: T)
    ensures [] + [x] == [x] && [x] + [] == [x] && [x][1..] == [] && [x][..0] == []
  {
  }

  lemma Associates<T>(a: seq<T>, b: seq<T>, c: seq<T>)
    ensures a + b + c == a + (b + c)
  {
  }

  /** The sequence without its element j, element by element. */
  lemma Without<T>(s: seq<T>, j: nat, rest: seq<T>)
    requires j < |s| && rest == s[..j] + s[j + 1..]
    ensures |rest| == |s| - 1 && forall l | 0 <= l < |rest| :: rest[l] == s[if l < j then l else l + 1]
  {
  }

  lemma WithoutSnoc<T>(s: seq<T>, x: T, j: nat)
    requires j < |s|
    ensures (s + [x])[..j] + (s + [x])[j + 1..] == s[..j] + s[j + 1..] + [x]
  {
  }

  lemma WithoutLast<T>(s: seq<T>, x: T)
    ensures (s + [x])[..|s|] + (s + [x])[|s| + 1..] == s
  {
  }

  lemma SameFrom<T>(s: seq<T>, i: nat, t: seq<T>)
    requires i <= |s| && |t| == |s| - i && forall k: nat | k < |t| :: t[k] == s[i + k]
    ensures s[i..] == t
  {
  }

  lemma SameUpTo<T>(s: seq<T>, i: nat, t: seq<T>)
    requires i <= |s| && |t| == i && forall k: nat | k < |t| :: t[k] == s[k]
    ensures s[..i] == t
  {
  }

  lemma TakeDrop<T>(s: seq<T>, i: nat)
    requires i <= |s|
    ensures s == s[..i] + s[i..]
  {
  }

  lemma TakeTake<T>(s: seq<T>, i: nat, j: nat)
    requires i <= j <= |s|
    ensures s[..j][..i] == s[..i] && forall k | 0 <= k < j :: s[..j][k] == s[k]
  {
  }

  lemma TakeOneMore<T>(s: seq<T>, j: nat)
    requires j < |s|
    ensures s[..j + 1] == s[..j] + [s[j]]
  {
  }

  lemma PrefixKept<T>(s: seq<T>, t: seq<T>, k: nat)
    requires s <= t && k < |s|
    ensures k < |t| && t[..k] == s[..k] && t[k] == s[k]
  {
  }

  lemma FrontAndLast<T>(s: seq<T>)
    requires s != []
    ensures s == s[..|s| - 1] + [s[|s| - 1]]
  {
  }

  lemma HeadAndTail<T>(s: seq<T>)
    requires s != []
    ensures s == [s[0]] + s[1..]
  {
  }
}
