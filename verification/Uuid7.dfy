/** Version 7 UUIDs for a given time: section 5.7 of RFC 9562, with a sub-millisecond counter in the 12 bits
    after the version (section 6.2) and hidden state that keeps two calls in a row apart. */
module Uuid7 {
  import opened Int64

  newtype Byte = x: int | 0 <= x < 256

  const NANOS_PER_MILLI: int := 1_000_000

  /** The conversion byte(x): the low eight bits in two's complement. */
  function Low8(x: int): Byte {
    (x % 256) as Byte
  }

  /** A time in nanoseconds since the epoch as whole milliseconds and the rest in units of 256 nanoseconds. An
      arithmetic shift to the right by k bits is a division by 2^k that rounds down. */
  function Millis(nano: int): int {
    Quotient(nano, NANOS_PER_MILLI)
  }

  function Fraction(nano: int): int {
    (nano - Millis(nano) * NANOS_PER_MILLI) / 256
  }

  /** The combined 60-bit clock value, as a 64-bit machine computes it. */
  function Tick(nano: int): int {
    Wrap64(Millis(nano) * 4096 + Fraction(nano))
  }

  /** The clock value a call settles on: one more than its tick if that is what the last call settled on. */
  function Settled(last: int, nano: int): int {
    if Tick(nano) == last then Wrap64(last + 1) else Tick(nano)
  }

  function SettledMillis(last: int, nano: int): int {
    if Tick(nano) == last then Settled(last, nano) / 4096 else Millis(nano)
  }

  function SettledSeq(last: int, nano: int): int {
    if Tick(nano) == last then Settled(last, nano) % 4096 else Fraction(nano)
  }

  /** Byte 6: the version nibble over the top four bits of the counter. Masking a byte with 0x0F is taking it
      modulo 16, and joining 0x70 to the result is adding it. */
  function VersionByte(s: int): Byte {
    0x70 + Low8(s / 256) % 16
  }

  /** The eight bytes makeV7 writes. */
  function Prefix(t: int, s: int): (r: seq<Byte>)
    ensures |r| == 8
  {
    [Low8(t / 0x100_0000_0000), Low8(t / 0x1_0000_0000), Low8(t / 0x100_0000), Low8(t / 0x1_0000), Low8(t / 0x100), Low8(t),
     VersionByte(s), Low8(s)]
  }

  function PrefixAt(last: int, nano: int): seq<Byte> {
    Prefix(SettledMillis(last, nano), SettledSeq(last, nano))
  }

  /** The generator's hidden state and the code that writes a UUID in place. */
  class Generator {
    var lastV7time: int

    constructor ()
      ensures lastV7time == 0
    {
      lastV7time := 0;
    }

    method GetV7Time(nano: int) returns (milli: int, seq_: int)
      requires IsInt64(nano)
      modifies this
      ensures milli == SettledMillis(old(lastV7time), nano) && seq_ == SettledSeq(old(lastV7time), nano)
      ensures lastV7time == Settled(old(lastV7time), nano)
    {
      milli := Quotient(nano, NANOS_PER_MILLI);
      seq_ := (nano - milli * NANOS_PER_MILLI) / 256;
      var now := Wrap64(milli * 4096 + seq_);
      if now == lastV7time {
        now := Wrap64(lastV7time + 1);
        milli := now / 4096;
        seq_ := now % 4096;
      }
      lastV7time := now;
    }

    method MakeV7(nano: int, uuid: array<Byte>)
      requires IsInt64(nano) && uuid.Length == 16
      modifies this, uuid
      ensures uuid[..] == PrefixAt(old(lastV7time), nano) + old(uuid[8..])
      ensures lastV7time == Settled(old(lastV7time), nano)
    {
      var t, s := GetV7Time(nano);
      uuid[0] := Low8(t / 0x100_0000_0000);
      uuid[1] := Low8(t / 0x1_0000_0000);
      uuid[2] := Low8(t / 0x100_0000);
      uuid[3] := Low8(t / 0x1_0000);
      uuid[4] := Low8(t / 0x100);
      uuid[5] := Low8(t);
      uuid[6] := 0x70 + Low8(s / 256) % 16;
      uuid[7] := Low8(s);
      assert uuid[..8] == Prefix(t, s);
      assert uuid[..] == uuid[..8] + uuid[8..];
    }

    /** A random version 4 UUID supplies the remaining bytes, and with them the variant bits. */
    method OrderedAt(nano: int, random: seq<Byte>) returns (id: seq<Byte>)
      requires IsInt64(nano) && |random| == 16
      modifies this
      ensures id == PrefixAt(old(lastV7time), nano) + random[8..]
      ensures lastV7time == Settled(old(lastV7time), nano)
    {
      var uuid := new Byte[16](i requires 0 <= i < 16 => random[i]);
      assert uuid[8..] == random[8..];
      MakeV7(nano, uuid);
      id := uuid[..];
    }
  }

  // ----- Encoding

  /** For times from the epoch on, nothing overflows, and a tick is its milliseconds and its counter side by side. */
  lemma TickBounds(nano: int)
    requires 0 <= nano < LIMIT
    ensures Millis(nano) == nano / 1_000_000
    ensures 0 <= Millis(nano) < 0x1000_0000_0000
    ensures 0 <= Fraction(nano) <= 3906
    ensures Tick(nano) == Millis(nano) * 4096 + Fraction(nano)
    ensures Tick(nano) / 4096 == Millis(nano) && Tick(nano) % 4096 == Fraction(nano)
  {
    assert nano == NANOS_PER_MILLI * Millis(nano) + nano % NANOS_PER_MILLI;
  }

  /** Whatever was generated before: the counter has room for the extra one, so the milliseconds are those of
      the requested time. */
  lemma SettledBounds(last: int, nano: int)
    requires 0 <= nano < LIMIT
    ensures SettledMillis(last, nano) == nano / 1_000_000
    ensures 0 <= SettledSeq(last, nano) <= 3907
    ensures Settled(last, nano) == SettledMillis(last, nano) * 4096 + SettledSeq(last, nano)
    ensures Tick(nano) <= Settled(last, nano) <= Tick(nano) + 1
  {
    TickBounds(nano);
  }

  function BigEndian(s: seq<Byte>): nat {
    if s == [] then 0 else 256 * BigEndian(s[..|s| - 1]) + s[|s| - 1] as int
  }

  /** Reading the fields back out of the first eight bytes. */
  function ReadMillis(id: seq<Byte>): nat
    requires |id| >= 8
  {
    BigEndian(id[..6])
  }

  function ReadSeq(id: seq<Byte>): nat
    requires |id| >= 8
  {
    256 * (id[6] as int % 16) + id[7] as int
  }

  function ReadVersion(id: seq<Byte>): nat
    requires |id| >= 8
  {
    id[6] as int / 16
  }

  lemma BigEndianOf6(a: Byte, b: Byte, c: Byte, d: Byte, e: Byte, f: Byte)
    ensures BigEndian([a, b, c, d, e, f]) ==
      0x100_0000_0000 * a as int + 0x1_0000_0000 * b as int + 0x100_0000 * c as int + 0x1_0000 * d as int
      + 0x100 * e as int + f as int
  {
    assert [a][..0] == [] && BigEndian([a]) == a as int;
    assert [a, b][..1] == [a] && BigEndian([a, b]) == 0x100 * a as int + b as int;
    assert [a, b, c][..2] == [a, b];
    assert BigEndian([a, b, c]) == 0x1_0000 * a as int + 0x100 * b as int + c as int;
    assert [a, b, c, d][..3] == [a, b, c];
    assert BigEndian([a, b, c, d]) == 0x100_0000 * a as int + 0x1_0000 * b as int + 0x100 * c as int + d as int;
    assert [a, b, c, d, e][..4] == [a, b, c, d];
    assert [a, b, c, d, e, f][..5] == [a, b, c, d, e];
  }

  lemma SixBytes(t: int)
    requires 0 <= t < 0x1_0000_0000_0000
    ensures t == 0x100_0000_0000 * (t / 0x100_0000_0000 % 256) + 0x1_0000_0000 * (t / 0x1_0000_0000 % 256)
               + 0x100_0000 * (t / 0x100_0000 % 256) + 0x1_0000 * (t / 0x1_0000 % 256) + 0x100 * (t / 0x100 % 256) + t % 256
  {
    assert t / 0x100 / 0x100 == t / 0x1_0000;
    assert t / 0x1_0000 / 0x100 == t / 0x100_0000;
    assert t / 0x100_0000 / 0x100 == t / 0x1_0000_0000;
    assert t / 0x1_0000_0000 / 0x100 == t / 0x100_0000_0000;
  }

  lemma FirstSix(t: int, s: int)
    requires 0 <= t < 0x1_0000_0000_0000
    ensures BigEndian(Prefix(t, s)[..6]) == t
  {
    var p := Prefix(t, s);
    SixBytes(t);
    BigEndianOf6(p[0], p[1], p[2], p[3], p[4], p[5]);
    hide BigEndian;
    assert p[..6] == [p[0], p[1], p[2], p[3], p[4], p[5]];
  }

  lemma BigEndianSnoc(s: seq<Byte>, b: Byte)
    ensures BigEndian(s + [b]) == 256 * BigEndian(s) + b as int
  {
    assert (s + [b])[..|s|] == s;
  }

  lemma CounterBytes(s: int)
    requires 0 <= s < 4096
    ensures VersionByte(s) as int / 16 == 7
    ensures 256 * (VersionByte(s) as int % 16) + Low8(s) as int == s
  {
    var q := s / 256;
    assert 0 <= q < 16 && q % 256 == q && q % 16 == q;
    assert VersionByte(s) as int == 0x70 + q;
  }

  /** The bytes decode to exactly the fields written, for every 48-bit time and 12-bit counter. */
  lemma PrefixDecodes(t: int, s: int)
    requires 0 <= t < 0x1_0000_0000_0000 && 0 <= s < 4096
    ensures var p := Prefix(t, s);
      ReadMillis(p) == t && ReadSeq(p) == s && ReadVersion(p) == 7
  {
    hide BigEndian, VersionByte, Low8;
    FirstSix(t, s);
    CounterBytes(s);
  }

  /** Every UUID made for a time from the epoch on carries that time in whole milliseconds, then the rest of it in
      units of 256 nanoseconds, one more if that is what the last call settled on, and version 7; the other bytes are
      those it was given. */
  lemma EncodesItsTime(last: int, nano: int, random: seq<Byte>)
    requires 0 <= nano < LIMIT && |random| == 16
    ensures var id := PrefixAt(last, nano) + random[8..];
      && |id| == 16
      && ReadMillis(id) == nano / 1_000_000
      && 4096 * ReadMillis(id) + ReadSeq(id) == Settled(last, nano)
      && ReadSeq(id) == nano % 1_000_000 / 256 +
           (if last == 4096 * (nano / 1_000_000) + nano % 1_000_000 / 256 then 1 else 0)
      && ReadVersion(id) == 7
      && id[8..] == random[8..]
  {
    SettledBounds(last, nano);
    UnitsOfTime(last, nano);
    var p := PrefixAt(last, nano);
    PrefixDecodes(SettledMillis(last, nano), SettledSeq(last, nano));
    hide Prefix, BigEndian, Settled, SettledMillis, SettledSeq, Tick;
    assert (p + random[8..])[..6] == p[..6];
  }

  lemma UnitsOfTime(last: int, nano: int)
    requires 0 <= nano < LIMIT
    ensures var units := nano % 1_000_000 / 256;
      SettledSeq(last, nano) == units + if last == 4096 * (nano / 1_000_000) + units then 1 else 0
  {
    TickBounds(nano);
    assert nano - nano / 1_000_000 * 1_000_000 == nano % 1_000_000;
  }

  // ----- Byte order is time order

  /** Lexicographic order of byte strings of the same length. */
  ghost predicate LexLess(a: seq<Byte>, b: seq<Byte>)
    requires |a| == |b|
  {
    exists k | 0 <= k < |a| :: a[..k] == b[..k] && a[k] < b[k]
  }

  /** Comparing byte strings is comparing all but the last bytes, then the last ones. */
  lemma LexByFront(a: seq<Byte>, b: seq<Byte>)
    requires |a| == |b| && a != []
    ensures var n := |a| - 1;
      LexLess(a, b) <==> LexLess(a[..n], b[..n]) || (a[..n] == b[..n] && a[n] < b[n])
  {
    var n := |a| - 1;
    if LexLess(a, b) {
      var k :| 0 <= k <= n && a[..k] == b[..k] && a[k] < b[k];
      if k < n {
        assert a[..n][..k] == a[..k] && b[..n][..k] == b[..k] && a[..n][k] < b[..n][k];
        assert LexLess(a[..n], b[..n]);
      }
    }
    if LexLess(a[..n], b[..n]) {
      var k :| 0 <= k < n && a[..n][..k] == b[..n][..k] && a[..n][k] < b[..n][k];
      assert a[..k] == a[..n][..k] && b[..k] == b[..n][..k] && a[k] < b[k];
    }
  }

  /** Lexicographic order is the order of the numbers the bytes spell. */
  lemma {:induction false} LexIsNumeric(a: seq<Byte>, b: seq<Byte>)
    requires |a| == |b|
    ensures LexLess(a, b) <==> BigEndian(a) < BigEndian(b)
    ensures a == b <==> BigEndian(a) == BigEndian(b)
    decreases |a|
  {
    if a != [] {
      var n := |a| - 1;
      LexIsNumeric(a[..n], b[..n]);
      LexByFront(a, b);
      hide LexLess;
      assert a == a[..n] + [a[n]] && b == b[..n] + [b[n]];
    }
  }

  lemma PrefixNumber(t: int, s: int)
    requires 0 <= t < 0x1_0000_0000_0000 && 0 <= s < 4096
    ensures BigEndian(Prefix(t, s)) == 0x1_0000 * t + 0x7000 + s
  {
    var p := Prefix(t, s);
    FirstSix(t, s);
    BigEndianSnoc(p[..6], p[6]);
    BigEndianSnoc(p[..7], p[7]);
    assert p[..7] == p[..6] + [p[6]] && p == p[..7] + [p[7]];
  }

  /** Despite the version nibble in between, the eight bytes sort as the 60-bit clock value they carry. */
  lemma {:induction false} PrefixOrder(t: int, s: int, t': int, s': int)
    requires 0 <= t < 0x1_0000_0000_0000 && 0 <= s < 4096
    requires 0 <= t' < 0x1_0000_0000_0000 && 0 <= s' < 4096
    ensures LexLess(Prefix(t, s), Prefix(t', s')) <==> 4096 * t + s < 4096 * t' + s'
    ensures Prefix(t, s) == Prefix(t', s') <==> 4096 * t + s == 4096 * t' + s'
  {
    PrefixNumber(t, s);
    PrefixNumber(t', s');
    hide *;
    LexIsNumeric(Prefix(t, s), Prefix(t', s'));
    SameOrder(t, s, t', s');
  }

  /** Four more bits between the fields do not change the order. */
  lemma SameOrder(t: int, s: int, t': int, s': int)
    requires 0 <= s < 4096 && 0 <= s' < 4096
    ensures 0x1_0000 * t + 0x7000 + s < 0x1_0000 * t' + 0x7000 + s' <==> 4096 * t + s < 4096 * t' + s'
    ensures 0x1_0000 * t + 0x7000 + s == 0x1_0000 * t' + 0x7000 + s' <==> 4096 * t + s == 4096 * t' + s'
  {
  }

  lemma SettledOrder(last: int, nano: int, last': int, nano': int)
    requires 0 <= nano < LIMIT && 0 <= nano' < LIMIT
    ensures LexLess(PrefixAt(last, nano), PrefixAt(last', nano')) <==> Settled(last, nano) < Settled(last', nano')
    ensures PrefixAt(last, nano) == PrefixAt(last', nano') <==> Settled(last, nano) == Settled(last', nano')
  {
    SettledBounds(last, nano);
    SettledBounds(last', nano');
    PrefixOrder(SettledMillis(last, nano), SettledSeq(last, nano), SettledMillis(last', nano'), SettledSeq(last', nano'));
  }

  // ----- Runs

  /** The hidden state before call k of a run of calls for the given times. */
  function StateBefore(start: int, times: seq<int>, k: nat): int
    requires k <= |times|
  {
    if k == 0 then start else Settled(StateBefore(start, times, k - 1), times[k - 1])
  }

  /** The first eight bytes that call k returns. */
  function Call(start: int, times: seq<int>, k: nat): seq<Byte>
    requires k < |times|
  {
    PrefixAt(StateBefore(start, times, k), times[k])
  }

  ghost predicate FromEpoch(times: seq<int>) {
    forall k | 0 <= k < |times| :: 0 <= times[k] < LIMIT
  }

  /** In any run, whatever comes before, between and after: a call for a later tick never sorts before a call
      for an earlier one, and sorts strictly after it from two ticks on. */
  lemma {:induction false} RunOrder(start: int, times: seq<int>, i: nat, j: nat)
    requires FromEpoch(times) && i < |times| && j < |times| && Tick(times[i]) < Tick(times[j])
    ensures LexLess(Call(start, times, i), Call(start, times, j)) || Call(start, times, i) == Call(start, times, j)
    ensures Tick(times[i]) + 2 <= Tick(times[j]) ==> LexLess(Call(start, times, i), Call(start, times, j))
  {
    var s, s' := StateBefore(start, times, i), StateBefore(start, times, j);
    SettledBounds(s, times[i]);
    SettledBounds(s', times[j]);
    SettledOrder(s, times[i], s', times[j]);
  }

  /** In nanoseconds, whatever was generated before either: of two times that are 512 nanoseconds or more apart, the
      later one gets the prefix that sorts later. */
  lemma {:induction false} LaterSortsLater(last: int, nano: int, last': int, nano': int)
    requires 0 <= nano && nano + 512 <= nano' < 0x8000_0000_0000_0000
    ensures LexLess(PrefixAt(last, nano), PrefixAt(last', nano'))
  {
    SettledBounds(last, nano);
    SettledBounds(last', nano');
    SettledOrder(last, nano, last', nano');
    TicksApart(nano, nano');
    hide Settled, Tick, PrefixAt, LexLess;
  }

  lemma TicksApart(nano: int, nano': int)
    requires 0 <= nano && nano + 512 <= nano' < LIMIT
    ensures Tick(nano) + 2 <= Tick(nano')
  {
    hide *;
    TickParts(nano);
    TickParts(nano');
    PartsApart(nano / 1_000_000, nano % 1_000_000, nano' / 1_000_000, nano' % 1_000_000);
  }

  lemma TickParts(nano: int)
    requires 0 <= nano < LIMIT
    ensures Tick(nano) == 4096 * (nano / 1_000_000) + nano % 1_000_000 / 256
  {
    TickBounds(nano);
    hide Tick, Millis;
    assert nano - nano / 1_000_000 * 1_000_000 == nano % 1_000_000;
  }

  lemma PartsApart(m: int, r: int, m': int, r': int)
    requires 0 <= r < 1_000_000 && 0 <= r' < 1_000_000
    requires 1_000_000 * m + r + 512 <= 1_000_000 * m' + r'
    ensures 4096 * m + r / 256 + 2 <= 4096 * m' + r' / 256
  {
    assert m <= m';
  }

  /** Two calls in a row never return the same bytes, and the second sorts after the first exactly when its tick
      is not before the value the first settled on. */
  lemma {:induction false} NeighboursDiffer(start: int, times: seq<int>, k: nat)
    requires FromEpoch(times) && k + 1 < |times|
    ensures Call(start, times, k) != Call(start, times, k + 1)
    ensures LexLess(Call(start, times, k), Call(start, times, k + 1)) <==>
      StateBefore(start, times, k + 1) <= Tick(times[k + 1])
  {
    var s, s' := StateBefore(start, times, k), StateBefore(start, times, k + 1);
    SettledBounds(s, times[k]);
    SettledBounds(s', times[k + 1]);
    SettledOrder(s, times[k], s', times[k + 1]);
  }

  /** The test is for equality with the last value only: of three calls for one tick, the third repeats the first. */
  lemma {:induction false} ThirdCallRepeats(start: int, nano: int)
    requires 0 <= nano < LIMIT && start != Tick(nano)
    ensures var times := [nano, nano, nano];
      Call(start, times, 0) == Call(start, times, 2) && LexLess(Call(start, times, 0), Call(start, times, 1))
  {
    var times := [nano, nano, nano];
    SettledBounds(start, nano);
    var s1 := StateBefore(start, times, 1);
    assert s1 == Settled(StateBefore(start, times, 0), times[0]) == Tick(nano);
    var s2 := StateBefore(start, times, 2);
    assert s2 == Settled(s1, times[1]) == Tick(nano) + 1 by {
      SettledBounds(s1, nano);
    }
    SettledOrder(start, nano, s2, nano);
    SettledOrder(start, nano, s1, nano);
    assert Settled(s2, nano) == Tick(nano);
  }

  /** No tick is before the value that the call before it settled on. */
  ghost predicate NeverBehind(start: int, times: seq<int>) {
    forall k: nat | 0 < k < |times| :: StateBefore(start, times, k) <= Tick(times[k])
  }

  lemma CallOrder(start: int, times: seq<int>, i: nat, j: nat)
    requires FromEpoch(times) && i < |times| && j < |times|
    ensures LexLess(Call(start, times, i), Call(start, times, j)) <==>
      StateBefore(start, times, i + 1) < StateBefore(start, times, j + 1)
    ensures Call(start, times, i) == Call(start, times, j) <==>
      StateBefore(start, times, i + 1) == StateBefore(start, times, j + 1)
  {
    SettledOrder(StateBefore(start, times, i), times[i], StateBefore(start, times, j), times[j]);
  }

  lemma {:induction false} StatesIncrease(start: int, times: seq<int>, i: nat, j: nat)
    requires FromEpoch(times) && NeverBehind(start, times) && i < j < |times|
    ensures StateBefore(start, times, i + 1) < StateBefore(start, times, j + 1)
    decreases j
  {
    var s, t := StateBefore(start, times, j), times[j];
    assert StateBefore(start, times, j + 1) == Settled(s, t);
    SettledBounds(s, t);
    assert s <= Tick(t) < Settled(s, t) || s < Tick(t);
    hide Settled, Tick, StateBefore;
    if i + 1 < j {
      StatesIncrease(start, times, i, j - 1);
    }
  }

  /** Over every run: the prefixes sort strictly in the order of the calls exactly if no tick is before the value
      that the call before it settled on. */
  lemma {:induction false} RunIncreasesExactly(start: int, times: seq<int>)
    requires FromEpoch(times)
    ensures (forall i: nat, j: nat | i < j < |times| :: LexLess(Call(start, times, i), Call(start, times, j))) <==>
      NeverBehind(start, times)
  {
    if NeverBehind(start, times) {
      forall i: nat, j: nat | i < j < |times| ensures LexLess(Call(start, times, i), Call(start, times, j)) {
        StatesIncrease(start, times, i, j);
        CallOrder(start, times, i, j);
      }
    } else {
      var k: nat :| 0 < k < |times| && !(StateBefore(start, times, k) <= Tick(times[k]));
      NeighboursDiffer(start, times, k - 1);
      assert !LexLess(Call(start, times, k - 1), Call(start, times, k));
    }
  }

  /** Times that never go back are not enough: of two calls for one tick and two for the next, the fourth repeats
      the second. */
  lemma {:induction false} FourthCallRepeats(start: int, nano: int, next: int)
    requires 0 <= nano < LIMIT && 0 <= next < LIMIT && Tick(next) == Tick(nano) + 1 && start != Tick(nano)
    ensures var times := [nano, nano, next, next];
      Call(start, times, 1) == Call(start, times, 3)
  {
    var times := [nano, nano, next, next];
    var t := Tick(nano);
    SettledBounds(start, nano);
    SettledBounds(t, nano);
    SettledBounds(t + 1, next);
    hide Settled, Tick;
    FourStates(start, times);
    CallOrder(start, times, 1, 3);
    SettledTwice(start, nano, next);
  }

  lemma FourStates(start: int, times: seq<int>)
    requires |times| == 4
    ensures StateBefore(start, times, 2) == Settled(Settled(start, times[0]), times[1])
    ensures StateBefore(start, times, 4) == Settled(Settled(StateBefore(start, times, 2), times[2]), times[3])
  {
    hide Settled;
    assert StateBefore(start, times, 1) == Settled(StateBefore(start, times, 0), times[0]);
    assert StateBefore(start, times, 3) == Settled(StateBefore(start, times, 2), times[2]);
  }

  lemma SettledTwice(start: int, nano: int, next: int)
    requires 0 <= nano < LIMIT && 0 <= next < LIMIT && Tick(next) == Tick(nano) + 1 && start != Tick(nano)
    ensures Settled(Settled(start, nano), nano) == Tick(next)
    ensures Settled(Settled(Tick(next), next), next) == Tick(next)
  {
    SettledBounds(Tick(nano), nano);
    SettledBounds(Tick(next), next);
    TickBounds(nano);
    TickBounds(next);
    hide Tick, Fraction, Millis;
  }
}
