/**
  The parallel-prefix bit counter of the ALU: a Brent-Kung tree over a word of 2^k bits that leaves
  in every position the number of ones up to and including that position.
 */
module PrefixCounter {

  /** A word of bits, least significant first. */
  type Word = seq<bool>

  function Pow2(k: nat): (p: nat)
    ensures p >= 1
  {
    if k == 0 then 1 else 2 * Pow2(k - 1)
  }

  lemma {:induction false} Pow2Monotone(i: nat, j: nat)
    requires i <= j
    ensures Pow2(i) <= Pow2(j)
    decreases j
  {
    if i < j { Pow2Monotone(i, j - 1); }
  }

  function Bit(b: bool): nat {
    if b then 1 else 0
  }

  /** Number of ones among the lowest i bits. */
  function Ones(w: Word, i: nat): (c: nat)
    requires i <= |w|
    ensures c <= i
  {
    if i == 0 then 0 else Ones(w, i - 1) + Bit(w[i - 1])
  }

  lemma {:induction false} OnesSpread(w: Word, i: nat, j: nat)
    requires i <= j <= |w|
    ensures Ones(w, i) <= Ones(w, j) <= Ones(w, i) + (j - i)
    decreases j
  {
    if i < j { OnesSpread(w, i, j - 1); }
  }

  /** The largest power of two, up to 2^s, that divides x. */
  function Low(x: nat, s: nat): (l: nat)
    requires x > 0
    ensures 1 <= l <= x
  {
    if s == 0 then 1
    else if x % Pow2(s) == 0 then
      assert x / Pow2(s) >= 1 && x == x / Pow2(s) * Pow2(s);
      MulLeast(x / Pow2(s), Pow2(s));
      Pow2(s)
    else Low(x, s - 1)
  }

  lemma MulLeast(q: nat, d: nat)
    requires q >= 1
    ensures d <= q * d
  {
  }

  /** The contents of position i after s stages of the primary tree: the ones in the window of Low
      bits ending there; positions the tree does not write yet hold 0. */
  function UpSum(w: Word, s: nat, i: nat): nat
    requires i < |w|
  {
    var x := i + 1;
    OnesSpread(w, x - Low(x, s), x);
    if x % 2 != 0 then 0 else Ones(w, x) - Ones(w, x - Low(x, s))
  }

  lemma ModHalf(x: nat, d: nat)
    requires d > 0 && x % (2 * d) == 0
    ensures x % d == 0
    ensures x > 0 ==> x >= 2 * d && (x - d) % d == 0 && (x - d) % (2 * d) == d
  {
    var q := x / (2 * d);
    assert x == (2 * q) * d;
    ModMultiple(2 * q, d, 0);
    if x > 0 {
      assert q >= 1;
      assert x - d == (2 * q - 1) * d;
      ModMultiple(2 * q - 1, d, 0);
      assert x - d == (q - 1) * (2 * d) + d;
      ModMultiple(q - 1, 2 * d, d);
    }
  }

  lemma UniqueDivision(q: int, d: nat, r: nat, q': int, r': nat)
    requires q * d + r == q' * d + r' && r < d && r' < d
    ensures q == q' && r == r'
  {
    if q < q' {
      Distribute(q', q, d);
      MulLeast(q' - q, d);
    } else if q > q' {
      Distribute(q, q', d);
      MulLeast(q - q', d);
    }
  }

  lemma Distribute(a: int, b: int, d: int)
    ensures (a - b) * d == a * d - b * d
  {
  }

  lemma ModMultiple(q: nat, d: nat, r: nat)
    requires r < d
    ensures (q * d + r) % d == r
    ensures (q * d + r) / d == q
  {
    var x := q * d + r;
    UniqueDivision(q, d, r, x / d, x % d);
  }

  /** The remainder, by repeated subtraction. */
  function Mod(x: nat, d: nat): (r: nat)
    requires d > 0
    ensures r < d && r <= x
  {
    if x < d then x else Mod(x - d, d)
  }

  lemma {:induction false} ModIsRemainder(x: nat, d: nat)
    requires d > 0
    ensures Mod(x, d) == x % d
  {
    if x < d {
      ModMultiple(0, d, x);
    } else {
      ModIsRemainder(x - d, d);
      NextMultiple(x - d, d);
    }
  }

  lemma {:induction false} ModQuotient(x: nat, d: nat) returns (q: nat)
    requires d > 0
    ensures x == q * d + Mod(x, d)
  {
    if x < d {
      q := 0;
    } else {
      q := ModQuotient(x - d, d);
      Distribute(q + 1, q, d);
      q := q + 1;
    }
  }

  // ------------------------------------------------------- the primary tree

  lemma LowStep(x: nat, s: nat)
    requires s >= 1 && x > 0 && x % Pow2(s) == 0
    ensures Low(x, s) == Pow2(s) && Low(x, s - 1) == Pow2(s - 1)
    ensures x >= Pow2(s) && (x - Pow2(s - 1)) % Pow2(s) == Pow2(s - 1) && (x - Pow2(s - 1)) % Pow2(s - 1) == 0
    ensures Low(x - Pow2(s - 1), s) == Pow2(s - 1) == Low(x - Pow2(s - 1), s - 1)
  {
    ModHalf(x, Pow2(s - 1));
  }

  /** Stage s >= 2 of the primary tree updates every position i with i + 1 divisible by 2^s. */
  lemma UpStep(w: Word, s: nat, i: nat)
    requires s >= 2 && i < |w| && (i + 1) % Pow2(s) == 0
    ensures i >= Pow2(s - 1) && (i + 1 - Pow2(s - 1)) % Pow2(s) != 0
    ensures UpSum(w, s, i) == UpSum(w, s - 1, i - Pow2(s - 1)) + UpSum(w, s - 1, i)
  {
    var x, p := i + 1, Pow2(s - 1);
    LowStep(x, s);
    EvenMultiple(x, s);
    EvenMultiple(x - p, s - 1);
    UpSumIs(w, s, i, 2 * p);
    UpSumIs(w, s - 1, i, p);
    UpSumIs(w, s - 1, i - p, p);
  }

  lemma UpSumIs(w: Word, s: nat, i: nat, l: nat)
    requires i < |w| && (i + 1) % 2 == 0 && Low(i + 1, s) == l
    ensures l <= i + 1 && UpSum(w, s, i) == Ones(w, i + 1) - Ones(w, i + 1 - l)
  {
  }

  lemma EvenMultiple(x: nat, s: nat)
    requires s >= 1 && x % Pow2(s) == 0
    ensures x % 2 == 0
  {
    assert x == x / Pow2(s) * Pow2(s);
    assert x == 2 * (x / Pow2(s) * Pow2(s - 1));
  }

  // -------------------------------------------- the intermediate value tree

  /** The contents of position i once every multiple of 2^t holds its full count. */
  function DownSum(w: Word, k: nat, t: nat, i: nat): nat
    requires i < |w|
  {
    if (i + 1) % Pow2(t) == 0 then Ones(w, i + 1) else UpSum(w, k, i)
  }

  lemma {:induction false} LowExact(x: nat, s: nat, t: nat)
    requires x > 0 && s <= t && x % Pow2(s) == 0 && x % Pow2(s + 1) != 0
    ensures Low(x, t) == Pow2(s)
    decreases t
  {
    if t > s {
      if x % Pow2(t) == 0 { DividesDown(x, s + 1, t); }
      LowExact(x, s, t - 1);
    }
  }

  lemma {:induction false} DividesDown(x: nat, s: nat, t: nat)
    requires s <= t && x % Pow2(t) == 0
    ensures x % Pow2(s) == 0
    decreases t
  {
    if s < t {
      ModHalf(x, Pow2(t - 1));
      DividesDown(x, s, t - 1);
    }
  }

  lemma Regroup(q: int, d: int)
    ensures q * (2 * d) == (2 * q) * d
    ensures q * (2 * d) + d == (2 * q + 1) * d
  {
  }

  lemma HalfOrWhole(x: nat, d: nat)
    requires d > 0 && x % d == 0
    ensures x % (2 * d) == 0 || x % (2 * d) == d
  {
    RemainderOfHalf(d, x / (2 * d), x % (2 * d), x / d);
  }

  lemma RemainderOfHalf(d: nat, q: nat, r: nat, a: nat)
    requires q * (2 * d) + r == a * d && r < 2 * d
    ensures r == 0 || r == d
  {
    Regroup(q, d);
    if r >= d {
      UniqueDivision(a, d, 0, 2 * q + 1, r - d);
    } else {
      UniqueDivision(a, d, 0, 2 * q, r);
    }
  }

  lemma SmallMultiple(x: nat, d: nat)
    requires 0 < x < 2 * d && x % d == 0
    ensures x == d
  {
    UniqueDivision(x / d, d, 0, if x < d then 0 else 1, if x < d then x else x - d);
  }

  /** The primary tree already completes the two highest powers of two. */
  lemma {:induction false} DownStart(w: Word, k: nat, i: nat)
    requires k >= 2 && |w| == Pow2(k) && i < |w|
    ensures UpSum(w, k, i) == DownSum(w, k, k - 1, i)
  {
    var x, p := i + 1, Pow2(k - 1);
    if x % p == 0 {
      EvenMultiple(x, k - 1);
      if x == 2 * p {
        ModMultiple(1, 2 * p, 0);
      } else {
        SmallMultiple(x, p);
        ModMultiple(0, 2 * p, p);
        LowExact(x, k - 1, k);
      }
      UpSumIs(w, k, i, x);
    }
  }

  /** Stage s of the intermediate tree completes the odd multiples of 2^(s-1) above 2^s. */
  lemma DownStep(w: Word, k: nat, s: nat, i: nat)
    requires 2 <= s <= k && i < |w| && (i + 1) % Pow2(s) == Pow2(s - 1) && i >= Pow2(s)
    ensures DownSum(w, k, s - 1, i) == DownSum(w, k, s, i - Pow2(s - 1)) + DownSum(w, k, s, i)
  {
    var x, p := i + 1, Pow2(s - 1);
    var q := x / Pow2(s);
    assert x == q * (2 * p) + p;
    assert x == (2 * q + 1) * p;
    ModMultiple(2 * q + 1, p, 0);
    assert x - p == q * (2 * p);
    ModMultiple(q, 2 * p, 0);
    LowExact(x, s - 1, k);
    EvenMultiple(x, s - 1);
    UpSumIs(w, k, i, p);
  }

  /** It leaves all other positions as they should be. */
  lemma DownSame(w: Word, k: nat, s: nat, i: nat)
    requires 2 <= s <= k && i < |w| && ((i + 1) % Pow2(s) != Pow2(s - 1) || i < Pow2(s))
    ensures DownSum(w, k, s - 1, i) == DownSum(w, k, s, i)
  {
    var x := i + 1;
    var p := Pow2(s - 1);
    if x % (2 * p) == 0 {
      DividesDown(x, s - 1, s);
    } else if x % p == 0 {
      HalfOrWhole(x, p);
      if x == 2 * p { ModMultiple(1, 2 * p, 0); }
      SmallMultiple(x, p);
      LowExact(x, s - 1, k);
      EvenMultiple(x, s - 1);
      UpSumIs(w, k, i, x);
    }
  }

  lemma BetweenMultiples(x: nat, y: nat, d: nat)
    requires d > 0 && x < y < x + d
    ensures y % d != x % d
  {
    if y % d == x % d {
      var a, b := y / d, x / d;
      assert y == a * d + x % d && x == b * d + x % d;
      Distribute(a, b, d);
      if a > b { MulLeast(a - b, d); }
      else { MulNonPositive(a - b, d); }
    }
  }

  lemma MulNonPositive(q: int, d: nat)
    requires q <= 0
    ensures q * d <= 0
  {
  }

  // --------------------------------------------------------------- the loops

  ghost predicate IsUp(w: Word, s: nat, p: seq<nat>) {
    |p| == |w| && forall j :: 0 <= j < |w| ==> p[j] == UpSum(w, s, j)
  }

  ghost predicate IsDown(w: Word, k: nat, t: nat, p: seq<nat>) {
    |p| == |w| && forall j :: 0 <= j < |w| ==> p[j] == DownSum(w, k, t, j)
  }

  lemma NextMultiple(x: nat, d: nat)
    requires d > 0
    ensures (x + d) % d == x % d
  {
    var q := x / d;
    Distribute(q + 1, q, d);
    ModMultiple(q + 1, d, x % d);
  }

  /** The first stage adds neighbouring bits. */
  method FirstStage(w: Word) returns (p: seq<nat>)
    requires |w| % 2 == 0
    ensures IsUp(w, 1, p)
  {
    p := seq(|w|, j => 0);
    var i := 1;
    while i < |w|
      invariant |p| == |w| && i % 2 == 1
      invariant forall j :: 0 <= j < |w| ==> p[j] == if j < i then UpSum(w, 1, j) else 0
    {
      assert Pow2(1) == 2;
      UpSumIs(w, 1, i, 2);
      p := p[i := Bit(w[i]) + Bit(w[i - 1])];
      i := i + 2;
    }
  }

  /** One further stage of the primary tree. */
  method UpStage(w: Word, s: nat, p: seq<nat>) returns (p': seq<nat>)
    requires s >= 2 && IsUp(w, s - 1, p)
    ensures IsUp(w, s, p')
  {
    p' := p;
    var i := Pow2(s) - 1;
    ModMultiple(1, Pow2(s), 0);
    forall j | 0 <= j < i && j < |w| ensures UpSum(w, s, j) == p[j] { BetweenMultiples(0, j + 1, Pow2(s)); }
    while i < |w|
      invariant |p'| == |w| && (i + 1) % Pow2(s) == 0
      invariant forall j :: 0 <= j < |w| ==> p'[j] == if j < i then UpSum(w, s, j) else UpSum(w, s - 1, j)
    {
      UpStep(w, s, i);
      p' := p'[i := p'[i - Pow2(s - 1)] + p'[i]];
      forall j | i < j < i + Pow2(s) && j < |w| ensures UpSum(w, s, j) == UpSum(w, s - 1, j) {
        BetweenMultiples(i + 1, j + 1, Pow2(s));
      }
      NextMultiple(i + 1, Pow2(s));
      i := i + Pow2(s);
    }
  }

  /** One stage of the intermediate value tree. */
  method DownStage(w: Word, k: nat, s: nat, p: seq<nat>) returns (p': seq<nat>)
    requires 2 <= s <= k && IsDown(w, k, s, p)
    ensures IsDown(w, k, s - 1, p')
  {
    p' := p;
    var i := Pow2(s) + Pow2(s - 1) - 1;
    ModMultiple(1, Pow2(s), Pow2(s - 1));
    forall j | 0 <= j < i && j < |w| ensures DownSum(w, k, s - 1, j) == p[j] {
      if j >= Pow2(s) { BetweenMultiples(j + 1, i + 1, Pow2(s)); }
      DownSame(w, k, s, j);
    }
    while i < |w|
      invariant |p'| == |w| && (i + 1) % Pow2(s) == Pow2(s - 1) && i >= Pow2(s)
      invariant forall j :: 0 <= j < |w| ==> p'[j] == if j < i then DownSum(w, k, s - 1, j) else DownSum(w, k, s, j)
    {
      DownStep(w, k, s, i);
      DownSourceDone(w, k, s, i);
      p' := p'[i := p'[i - Pow2(s - 1)] + p'[i]];
      forall j | i < j < i + Pow2(s) && j < |w| ensures DownSum(w, k, s - 1, j) == DownSum(w, k, s, j) {
        BetweenMultiples(i + 1, j + 1, Pow2(s));
        DownSame(w, k, s, j);
      }
      NextMultiple(i + 1, Pow2(s));
      i := i + Pow2(s);
    }
  }

  lemma DownSourceDone(w: Word, k: nat, s: nat, i: nat)
    requires 2 <= s <= k && i < |w| && (i + 1) % Pow2(s) == Pow2(s - 1) && i >= Pow2(s)
    ensures DownSum(w, k, s - 1, i - Pow2(s - 1)) == DownSum(w, k, s, i - Pow2(s - 1))
  {
    var p, q := Pow2(s - 1), (i + 1) / Pow2(s);
    assert i + 1 - p == q * Pow2(s);
    ModMultiple(q, Pow2(s), 0);
    assert (i - p + 1) % Pow2(s) == 0;
    DownSame(w, k, s, i - p);
  }

  /** The last stage completes the even positions. */
  method LastStage(w: Word, k: nat, p: seq<nat>) returns (p': seq<nat>)
    requires |w| > 0 && IsDown(w, k, 1, p)
    ensures |p'| == |w| && forall j :: 0 <= j < |w| ==> p'[j] == Ones(w, j + 1)
  {
    assert Pow2(1) == 2;
    p' := p[0 := Bit(w[0])];
    var i := 2;
    while i < |w|
      invariant |p'| == |w| && i % 2 == 0 && i >= 2
      invariant forall j :: 0 <= j < |w| && j < i ==> p'[j] == Ones(w, j + 1)
      invariant forall j :: i <= j < |w| ==> p'[j] == DownSum(w, k, 1, j)
    {
      p' := p'[i := p'[i - 1] + Bit(w[i])];
      i := i + 2;
    }
  }

  /** The whole counter: every position ends up with the number of ones up to and including it. */
  method BitCounts(w: Word, k: nat) returns (p: seq<nat>)
    requires k >= 2 && |w| == Pow2(k)
    ensures |p| == |w| && forall j :: 0 <= j < |w| ==> p[j] == Ones(w, j + 1)
  {
    p := FirstStage(w);
    var s := 2;
    while s <= k
      invariant 2 <= s <= k + 1 && IsUp(w, s - 1, p)
    {
      p := UpStage(w, s, p);
      s := s + 1;
    }
    forall j | 0 <= j < |w| ensures p[j] == DownSum(w, k, k - 1, j) {
      DownStart(w, k, j);
    }
    s := k - 1;
    while s >= 2
      invariant 1 <= s < k && IsDown(w, k, s, p)
    {
      p := DownStage(w, k, s, p);
      s := s - 1;
    }
    p := LastStage(w, k, p);
  }
}
