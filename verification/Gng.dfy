/**
  The Gaussian noise generator's word-parallel Tausworthe registers and its leading-zero detector.
  Bit i of a word is its element i.
 */
module Gng {
  import opened PrefixCounter

  // ---------------------------------------------------------- one component

  /** A component: k effective bits at the top of 64, tap q, and s serial steps for each clock. */
  datatype Component = Component(k: nat, q: nat, s: nat)

  const C1 := Component(63, 5, 24)
  const C2 := Component(58, 19, 13)
  const C3 := Component(55, 24, 7)

  predicate Ok(c: Component) {
    0 < c.q && 0 < c.s && c.q + c.s <= c.k < 64
  }

  /** One clock: the effective bits move up by s, the freed low bits are xors of two stretches. */
  function WordStep(c: Component, z: Word): (r: Word)
    requires Ok(c) && |z| == 64
    ensures |r| == 64
  {
    seq(64, i requires 0 <= i < 64 && Ok(c) && |z| == 64 =>
      if i < 64 - c.k + c.s then z[i + c.k - c.s - c.q] != z[i + c.k - c.s] else z[i - c.s])
  }

  /** The effective bits, oldest first. */
  function Effective(c: Component, z: Word): (e: Word)
    requires Ok(c) && |z| == 64
    ensures |e| == c.k
  {
    seq(c.k, i requires 0 <= i < c.k && Ok(c) && |z| == 64 => z[63 - i])
  }

  // ------------------------------------------------------- the serial register

  /** The feedback shift register: the oldest bit leaves, its xor with the tap enters. */
  function SerialStep(q: nat, e: Word): (r: Word)
    requires 0 < q < |e|
    ensures |r| == |e|
  {
    e[1..] + [e[0] != e[q]]
  }

  function SerialSteps(q: nat, e: Word, n: nat): (r: Word)
    requires 0 < q < |e|
    ensures |r| == |e|
  {
    if n == 0 then e else SerialStep(q, SerialSteps(q, e, n - 1))
  }

  /** Bit n of the endless sequence that starts with e. */
  predicate SequenceBit(q: nat, e: Word, n: nat)
    requires 0 < q < |e|
  {
    if n < |e| then e[n] else SequenceBit(q, e, n - |e|) != SequenceBit(q, e, n - |e| + q)
  }

  lemma {:induction false} SerialIsWindow(q: nat, e: Word, n: nat, i: nat)
    requires 0 < q < |e| && i < |e|
    ensures SerialSteps(q, e, n)[i] == SequenceBit(q, e, n + i)
  {
    if n > 0 {
      if i + 1 < |e| {
        SerialIsWindow(q, e, n - 1, i + 1);
      } else {
        SerialIsWindow(q, e, n - 1, 0);
        SerialIsWindow(q, e, n - 1, q);
      }
    }
  }

  lemma {:induction false} SerialAdds(q: nat, e: Word, m: nat, n: nat)
    requires 0 < q < |e|
    ensures SerialSteps(q, e, m + n) == SerialSteps(q, SerialSteps(q, e, m), n)
  {
    if n > 0 { SerialAdds(q, e, m, n - 1); }
  }

  /** One clock makes s serial steps on the effective bits. */
  lemma WordStepIsSerial(c: Component, z: Word)
    requires Ok(c) && |z| == 64
    ensures Effective(c, WordStep(c, z)) == SerialSteps(c.q, Effective(c, z), c.s)
  {
    var e := Effective(c, z);
    forall i | 0 <= i < c.k ensures Effective(c, WordStep(c, z))[i] == SerialSteps(c.q, e, c.s)[i] {
      SerialIsWindow(c.q, e, c.s, i);
    }
  }

  function Clocked(c: Component, z: Word, n: nat): (r: Word)
    requires Ok(c) && |z| == 64
    ensures |r| == 64
    decreases n
  {
    if n == 0 then z else WordStep(c, Clocked(c, z, n - 1))
  }

  /** Serial steps in n clocks. */
  function StepsIn(c: Component, n: nat): (m: nat)
    ensures m == n * c.s
    decreases n
  {
    if n == 0 then 0 else StepsIn(c, n - 1) + c.s
  }

  /** After n clocks the effective bits are those of the serial register after n * s steps. */
  lemma {:induction false} ClocksAreSerial(c: Component, z: Word, n: nat)
    requires Ok(c) && |z| == 64
    ensures Effective(c, Clocked(c, z, n)) == SerialSteps(c.q, Effective(c, z), StepsIn(c, n))
    decreases n
  {
    hide WordStep, Effective, SerialSteps;
    if n == 0 {
      NoSteps(c.q, Effective(c, z));
    } else {
      ClocksAreSerial(c, z, n - 1);
      WordStepIsSerial(c, Clocked(c, z, n - 1));
      SerialAdds(c.q, Effective(c, z), StepsIn(c, n - 1), c.s);
    }
  }

  lemma NoSteps(q: nat, e: Word)
    requires 0 < q < |e|
    ensures SerialSteps(q, e, 0) == e
  {
  }

  lemma SerialStepInjective(q: nat, e: Word, f: Word)
    requires 0 < q < |e| == |f| && SerialStep(q, e) == SerialStep(q, f)
    ensures e == f
  {
    var r, t := SerialStep(q, e), SerialStep(q, f);
    forall i | 1 <= i < |e| ensures e[i] == f[i] {
      assert e[i] == r[i - 1] && f[i] == t[i - 1];
    }
    assert r[|e| - 1] == (e[0] != e[q]) && t[|e| - 1] == (f[0] != f[q]);
  }

  lemma {:induction false} SerialInjective(q: nat, e: Word, f: Word, n: nat)
    requires 0 < q < |e| == |f| && SerialSteps(q, e, n) == SerialSteps(q, f, n)
    ensures e == f
  {
    if n > 0 {
      SerialStepInjective(q, SerialSteps(q, e, n - 1), SerialSteps(q, f, n - 1));
      SerialInjective(q, e, f, n - 1);
    }
  }

  predicate IsZero(e: Word) {
    forall i :: 0 <= i < |e| ==> !e[i]
  }

  lemma {:induction false} ZeroStaysZero(q: nat, e: Word, n: nat)
    requires 0 < q < |e| && IsZero(e)
    ensures IsZero(SerialSteps(q, e, n))
  {
    if n > 0 { ZeroStaysZero(q, e, n - 1); }
  }

  lemma ZeroExactly(q: nat, e: Word, n: nat)
    requires 0 < q < |e|
    ensures IsZero(SerialSteps(q, e, n)) <==> IsZero(e)
  {
    hide SerialSteps;
    var zero: Word := seq(|e|, i => false);
    ZeroStaysZero(q, zero, n);
    if IsZero(SerialSteps(q, e, n)) {
      assert SerialSteps(q, e, n) == SerialSteps(q, zero, n);
      SerialInjective(q, e, zero, n);
    }
    if IsZero(e) { ZeroStaysZero(q, e, n); }
  }

  /** Two effective states that differ never meet. */
  lemma {:induction false} StatesNeverMeet(c: Component, z: Word, y: Word, n: nat)
    requires Ok(c) && |z| == |y| == 64 && Effective(c, Clocked(c, z, n)) == Effective(c, Clocked(c, y, n))
    ensures Effective(c, z) == Effective(c, y)
  {
    hide Clocked, Effective, SerialSteps;
    ClocksAreSerial(c, z, n);
    ClocksAreSerial(c, y, n);
    SerialInjective(c.q, Effective(c, z), Effective(c, y), StepsIn(c, n));
  }

  /** A state is zero after n clocks if and only if it was zero before. */
  lemma NeverReachesZero(c: Component, z: Word, n: nat)
    requires Ok(c) && |z| == 64
    ensures IsZero(Effective(c, Clocked(c, z, n))) <==> IsZero(Effective(c, z))
  {
    hide Clocked, Effective, SerialSteps, IsZero;
    ClocksAreSerial(c, z, n);
    ZeroExactly(c.q, Effective(c, z), StepsIn(c, n));
  }

  lemma OneMoreClock(c: Component, z: Word, n: nat)
    requires Ok(c) && |z| == 64
    ensures Clocked(c, z, n + 1) == WordStep(c, Clocked(c, z, n)) && Clocked(c, z, 0) == z
  {
    hide WordStep;
  }

  // ---------------------------------------------------------------- generator

  function Bits(value: nat): (r: Word)
    ensures |r| == 64
  {
    seq(64, i requires 0 <= i < 64 => value / Pow2(i) % 2 == 1)
  }

  const INIT_Z1: Word := Bits(5030521883283424767)
  const INIT_Z2: Word := Bits(18445829279364155008)
  const INIT_Z3: Word := Bits(18436106298727503359)

  function Xor3(a: Word, b: Word, c: Word): (r: Word)
    requires |a| == |b| == |c| == 64
    ensures |r| == 64
  {
    seq(64, i requires 0 <= i < 64 && |a| == |b| == |c| == 64 => (a[i] != b[i]) != c[i])
  }

  class GngCtg {
    var z1: Word
    var z2: Word
    var z3: Word
    var validOut: bool
    var dataOut: Word
    /** Enabled clocks since the last reset. */
    ghost var clocks: nat

    ghost predicate Valid()
      reads this
    {
      z1 == Clocked(C1, INIT_Z1, clocks) && z2 == Clocked(C2, INIT_Z2, clocks) && z3 == Clocked(C3, INIT_Z3, clocks)
    }

    constructor ()
      ensures Valid() && clocks == 0
    {
      z1, z2, z3, clocks := INIT_Z1, INIT_Z2, INIT_Z3, 0;
      validOut, dataOut := false, seq(64, i => false);
    }

    /** The components of the next state as the concatenations of the hardware: high part, then low part. */
    method NextState() returns (n1: Word, n2: Word, n3: Word)
      requires |z1| == |z2| == |z3| == 64
      ensures n1 == WordStep(C1, z1) && n2 == WordStep(C2, z2) && n3 == WordStep(C3, z3)
    {
      n1 := XorParts(z1, 34, 39, 25) + z1[1..40];
      n2 := XorParts(z2, 26, 45, 19) + z2[6..51];
      n3 := XorParts(z3, 24, 48, 16) + z3[9..57];
    }

    method Clock(rstn: bool, ce: bool)
      requires Valid()
      modifies this
      ensures Valid() && clocks == if !rstn then 0 else if ce then old(clocks) + 1 else old(clocks)
      ensures validOut == (rstn && ce)
      ensures rstn ==> dataOut == Xor3(WordStep(C1, old(z1)), WordStep(C2, old(z2)), WordStep(C3, old(z3)))
      ensures !rstn ==> dataOut == seq(64, i => false)
      ensures rstn && ce ==> |z1| == |z2| == |z3| == |dataOut| == 64 &&
                             forall i :: 0 <= i < 64 ==> dataOut[i] == ((z1[i] != z2[i]) != z3[i])
    {
      hide WordStep, Bits, Clocked;
      OneMoreClock(C1, INIT_Z1, clocks);
      OneMoreClock(C2, INIT_Z2, clocks);
      OneMoreClock(C3, INIT_Z3, clocks);
      var n1, n2, n3 := NextState();
      if !rstn {
        z1, z2, z3, clocks := INIT_Z1, INIT_Z2, INIT_Z3, 0;
      } else if ce {
        z1, z2, z3, clocks := n1, n2, n3, clocks + 1;
      }
      validOut := if !rstn then false else ce;
      dataOut := if !rstn then seq(64, i => false) else Xor3(n1, n2, n3);
    }
  }

  /** Xor of two stretches of n bits. */
  function XorParts(z: Word, lo: nat, hi: nat, n: nat): (r: Word)
    requires lo + n <= |z| && hi + n <= |z|
    ensures |r| == n
  {
    seq(n, i requires 0 <= i < n && lo + n <= |z| && hi + n <= |z| => z[lo + i] != z[hi + i])
  }

  lemma InitNotZero()
    ensures !IsZero(Effective(C1, INIT_Z1)) && !IsZero(Effective(C2, INIT_Z2)) && !IsZero(Effective(C3, INIT_Z3))
  {
    TopPowers();
    assert INIT_Z1[62] && INIT_Z2[63] && INIT_Z3[63];
    assert Effective(C1, INIT_Z1)[1] == INIT_Z1[62];
    assert Effective(C2, INIT_Z2)[0] == INIT_Z2[63];
    assert Effective(C3, INIT_Z3)[0] == INIT_Z3[63];
  }

  lemma TopPowers()
    ensures Pow2(62) == 4611686018427387904 && Pow2(63) == 9223372036854775808
  {
    assert Pow2(8) == 256;
    assert Pow2(16) == 65536;
    assert Pow2(24) == 16777216;
    assert Pow2(32) == 4294967296;
    assert Pow2(40) == 1099511627776;
    assert Pow2(48) == 281474976710656;
    assert Pow2(56) == 72057594037927936;
    assert Pow2(60) == 1152921504606846976;
  }

  /** However long the generator runs, none of its three components is ever stuck at zero. */
  lemma NeverStuck(n: nat)
    ensures !IsZero(Effective(C1, Clocked(C1, INIT_Z1, n))) && !IsZero(Effective(C2, Clocked(C2, INIT_Z2, n)))
            && !IsZero(Effective(C3, Clocked(C3, INIT_Z3, n)))
  {
    hide Bits, IsZero, Effective, Clocked;
    InitNotZero();
    NeverReachesZero(C1, INIT_Z1, n);
    NeverReachesZero(C2, INIT_Z2, n);
    NeverReachesZero(C3, INIT_Z3, n);
  }

  // ------------------------------------------------- leading-zero detector

  function LeadingZeros(d: Word): (n: nat)
    ensures n <= |d|
  {
    if d == [] then 0 else if d[|d| - 1] then 0 else 1 + LeadingZeros(d[..|d| - 1])
  }

  predicate AnySet(d: Word) {
    exists i :: 0 <= i < |d| && d[i]
  }

  lemma {:induction false} LeadingZerosOfPair(low: Word, high: Word)
    ensures LeadingZeros(low + high) == if AnySet(high) then LeadingZeros(high) else |high| + LeadingZeros(low)
  {
    if high == [] {
      assert low + high == low;
    } else {
      var rest := high[..|high| - 1];
      assert (low + high)[..|low + high| - 1] == low + rest;
      LeadingZerosOfPair(low, rest);
      if AnySet(rest) { assert AnySet(high) by { var i :| 0 <= i < |rest| && rest[i]; assert high[i]; } }
    }
  }

  /** Stretch i of 2^l bits. */
  function Stretch(d: Word, l: nat, i: nat): Word
    requires (i + 1) * Pow2(l) <= |d|
  {
    d[i * Pow2(l)..(i + 1) * Pow2(l)]
  }

  /** The tree: at each level a node tells whether any bit below it is set and where the first one is. */
  method Lzd(d: Word, k: nat) returns (p: nat)
    requires |d| == Pow2(k) && AnySet(d)
    ensures p == LeadingZeros(d)
  {
    hide NodeOk, LeadingZeros, AnySet;
    var ps: seq<nat>, vs: seq<bool> := seq(|d|, i => 0), d;
    var l := 0;
    Leaves(d);
    while l < k
      invariant 0 <= l <= k && |ps| == |vs| == Pow2(k - l)
      invariant Level(d, l, ps, vs)
    {
      var half := Pow2(k - l - 1);
      LevelUp(d, k, l, ps, vs);
      ps, vs := NextLevel(ps, vs, half, Pow2(l));
      l := l + 1;
    }
    p := ps[0];
    RootNode(d, k, ps[0], vs[0]);
  }

  lemma RootNode(d: Word, k: nat, p: nat, v: bool)
    requires |d| == Pow2(k) && AnySet(d) && NodeOk(d, k, 0, p, v)
    ensures p == LeadingZeros(d)
  {
    assert Stretch(d, k, 0) == d;
  }

  method NextLevel(ps: seq<nat>, vs: seq<bool>, half: nat, weight: nat) returns (ps': seq<nat>, vs': seq<bool>)
    requires |ps| == |vs| == 2 * half
    ensures |ps'| == |vs'| == half
    ensures forall i :: 0 <= i < half ==> ps'[i] == if vs[2 * i + 1] then ps[2 * i + 1] else weight + ps[2 * i]
    ensures forall i :: 0 <= i < half ==> vs'[i] == (vs[2 * i + 1] || vs[2 * i])
  {
    ps' := seq(half, i requires 0 <= i < half && |ps| == |vs| == 2 * half =>
      if vs[2 * i + 1] then ps[2 * i + 1] else weight + ps[2 * i]);
    vs' := seq(half, i requires 0 <= i < half && |vs| == 2 * half => vs[2 * i + 1] || vs[2 * i]);
  }

  predicate NodeOk(d: Word, l: nat, i: nat, p: nat, v: bool) {
    (i + 1) * Pow2(l) <= |d| && v == AnySet(Stretch(d, l, i)) && (v ==> p == LeadingZeros(Stretch(d, l, i)))
  }

  predicate Level(d: Word, l: nat, ps: seq<nat>, vs: seq<bool>) {
    |ps| == |vs| && forall i :: 0 <= i < |ps| ==> NodeOk(d, l, i, ps[i], vs[i])
  }

  lemma Leaves(d: Word)
    ensures Level(d, 0, seq(|d|, i => 0), d)
  {
    forall i | 0 <= i < |d| ensures NodeOk(d, 0, i, 0, d[i]) {
      assert Pow2(0) == 1 && Stretch(d, 0, i) == [d[i]];
      assert [d[i]][0] == d[i];
    }
  }

  lemma LevelUp(d: Word, k: nat, l: nat, ps: seq<nat>, vs: seq<bool>)
    requires l < k && |ps| == |vs| == Pow2(k - l) && Level(d, l, ps, vs)
    ensures |ps| == 2 * Pow2(k - l - 1)
    ensures forall i :: 0 <= i < Pow2(k - l - 1) ==>
              NodeOk(d, l + 1, i, if vs[2 * i + 1] then ps[2 * i + 1] else Pow2(l) + ps[2 * i],
                     vs[2 * i + 1] || vs[2 * i])
  {
    forall i | 0 <= i < Pow2(k - l - 1)
      ensures NodeOk(d, l + 1, i, if vs[2 * i + 1] then ps[2 * i + 1] else Pow2(l) + ps[2 * i],
                     vs[2 * i + 1] || vs[2 * i])
    {
      assert NodeOk(d, l, 2 * i, ps[2 * i], vs[2 * i]) && NodeOk(d, l, 2 * i + 1, ps[2 * i + 1], vs[2 * i + 1]);
      NodeUp(d, l, i, ps[2 * i], ps[2 * i + 1], vs[2 * i], vs[2 * i + 1]);
    }
  }

  lemma NodeUp(d: Word, l: nat, i: nat, p0: nat, p1: nat, v0: bool, v1: bool)
    requires NodeOk(d, l, 2 * i, p0, v0) && NodeOk(d, l, 2 * i + 1, p1, v1)
    ensures NodeOk(d, l + 1, i, if v1 then p1 else Pow2(l) + p0, v1 || v0)
  {
    Halves(d, l, i);
    HalfBounds(l, i);
    var low, high := Stretch(d, l, 2 * i), Stretch(d, l, 2 * i + 1);
    LeadingZerosOfPair(low, high);
    AnyInPair(low, high);
  }

  /** Where the halves of a stretch begin and end. */
  lemma HalfBounds(l: nat, i: nat)
    ensures Pow2(l + 1) == 2 * Pow2(l)
    ensures i * Pow2(l + 1) == (2 * i) * Pow2(l) && (i + 1) * Pow2(l + 1) == (2 * i + 2) * Pow2(l)
    ensures (2 * i) * Pow2(l) + Pow2(l) == (2 * i + 1) * Pow2(l)
    ensures (2 * i + 1) * Pow2(l) + Pow2(l) == (2 * i + 2) * Pow2(l)
  {
  }

  lemma Halves(d: Word, l: nat, i: nat)
    requires (2 * i + 2) * Pow2(l) <= |d|
    ensures (2 * i + 1) * Pow2(l) <= |d| && (i + 1) * Pow2(l + 1) <= |d|
    ensures Stretch(d, l + 1, i) == Stretch(d, l, 2 * i) + Stretch(d, l, 2 * i + 1)
  {
    HalfBounds(l, i);
  }

  lemma AnyInPair(low: Word, high: Word)
    ensures AnySet(low + high) <==> AnySet(low) || AnySet(high)
  {
    if AnySet(low) { var j :| 0 <= j < |low| && low[j]; assert (low + high)[j]; }
    if AnySet(high) { var j :| 0 <= j < |high| && high[j]; assert (low + high)[|low| + j]; }
  }

  /** The 61-bit detector: the input above three ones. */
  method GngLzd(data: Word) returns (n: nat)
    requires |data| == 61
    ensures n == LeadingZeros(data)
  {
    var d := [true, true, true] + data;
    assert d[0];
    assert Pow2(6) == 64;
    n := Lzd(d, 6);
    LeadingZerosOfPair([true, true, true], data);
    NoneSet(data);
  }

  lemma {:induction false} NoneSet(d: Word)
    ensures !AnySet(d) ==> LeadingZeros(d) == |d|
  {
    if d != [] && !AnySet(d) {
      assert !d[|d| - 1];
      NoneSet(d[..|d| - 1]);
    }
  }
}
