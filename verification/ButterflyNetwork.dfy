/**
  Routing through all stages of the butterfly network: the two-cycle bit scatter and gather
  instructions, and why each undoes the other.
 */
module ButterflyNetwork {
  import opened PrefixCounter
  import opened Butterfly

  /** The start of the segment of 2^n bits that position t lies in. */
  function Start(n: nat, t: nat): (lo: nat)
    ensures lo <= t < lo + Pow2(n)
  {
    if t < Pow2(n) then 0 else Start(n, t - Pow2(n)) + Pow2(n)
  }

  lemma {:induction false} StartsNest(n: nat, t: nat)
    ensures Start(n + 1, t) == Segment(n, t)
    ensures Start(n, t) == if t - Segment(n, t) < Pow2(n) then Segment(n, t) else Segment(n, t) + Pow2(n)
    decreases t
  {
    var d := 2 * Pow2(n);
    if t >= d {
      StartsNest(n, t - d);
      assert Start(n, t) == Start(n, t - Pow2(n)) + Pow2(n) == Start(n, t - d) + d;
    }
  }

  /** Element r sits at offset r mod 2h of a segment whose lower half ends before element c. The swap
      control for its offset mod h moves it exactly when it sits in the wrong half. */
  lemma SwapRoutes(h: nat, c: nat, r: nat, a: nat, x: nat, j: nat)
    requires h > 0 && a == Mod(c, 2 * h) && x == Mod(r, 2 * h) && j == Mod(r, h)
    ensures x == j || x == j + h
    ensures r < c <= r + h ==> (!(a <= j + h < a + h) <==> x >= h)
    ensures c <= r < c + h ==> (!(a <= j + h < a + h) <==> x < h)
  {
    var u := ModQuotient(c, 2 * h);
    var w := ModQuotient(r, 2 * h);
    var v := ModQuotient(r, h);
    HalfRemainder(h, w, x, v, j);
    SwapNumbers(h, c, r, u, a, w, x, j);
  }

  lemma HalfRemainder(h: nat, w: nat, x: nat, v: nat, j: nat)
    requires w * (2 * h) + x == v * h + j && x < 2 * h && j < h
    ensures x == j || x == j + h
  {
    Regroup(w, h);
    if x >= h {
      UniqueDivision(2 * w + 1, h, x - h, v, j);
    } else {
      UniqueDivision(2 * w, h, x, v, j);
    }
  }

  lemma SwapNumbers(h: int, c: int, r: int, u: int, a: int, w: int, x: int, j: int)
    requires c == u * (2 * h) + a && 0 <= a < 2 * h && r == w * (2 * h) + x && 0 <= x < 2 * h
    requires 0 <= j < h && (x == j || x == j + h)
    ensures r < c <= r + h ==> (!(a <= j + h < a + h) <==> x >= h)
    ensures c <= r < c + h ==> (!(a <= j + h < a + h) <==> x < h)
  {
    QuotientGap(2 * h, u, a, w, x);
  }

  /** Numbers less than d apart have quotients at most one apart. */
  lemma QuotientGap(d: int, u: int, a: int, w: int, x: int)
    requires 0 <= a < d && 0 <= x < d
    ensures -d < (u * d + a) - (w * d + x) < d ==>
              (u * d + a) - (w * d + x) in {a - x, a - x + d, a - x - d}
  {
    Distribute(u, w, d);
    var g := u - w;
    if g >= 2 { MulLeast(g - 1, d); Distribute(g, 1, d); }
    if g <= -2 { MulLeast(-g - 1, d); Distribute(-g, 1, d); MulNegated(g, d); }
  }

  lemma MulNegated(g: int, d: int)
    ensures (-g) * d == -(g * d)
  {
  }

  /** Where the element for mask position t sits before the stages below n. */
  function Place(m: Word, n: nat, t: nat): nat
    requires t < |m|
  {
    Start(n, t) + Mod(Ones(m, t), Pow2(n))
  }

  /** Source in terms of the half and offset of position i. */
  lemma SourceOfHalf(m: Word, k: nat, n: nat, i: nat, lo: nat, j: nat)
    requires |m| == Pow2(k) && n < k && i < Pow2(k) && j < Pow2(n)
    requires Segment(n, i) == lo && (i == lo + j || i == lo + Pow2(n) + j) && lo + 2 * Pow2(n) <= Pow2(k)
    ensures i == lo + j ==> Source(m, k, n, i) == if Swap(m, n, lo, j) then i + Pow2(n) else i
    ensures i != lo + j ==> Source(m, k, n, i) == if Swap(m, n, lo, j) then i - Pow2(n) else i
  {
    var r := i - Segment(n, i);
    if i == lo + j { assert r == j; } else { assert r - Pow2(n) == j; }
  }

  /** An element is swapped exactly when it sits in the half its mask position is not in. */
  lemma ElementSwaps(m: Word, n: nat, t: nat, lo: nat, r: nat, x: nat, j: nat)
    requires t < |m| && m[t] && lo <= t < lo + 2 * Pow2(n) <= |m|
    requires r == Ones(m, t) && x == Mod(r, 2 * Pow2(n)) && j == Mod(r, Pow2(n))
    ensures Swap(m, n, lo, j) <==> (t - lo < Pow2(n) <==> x >= Pow2(n))
  {
    var h := Pow2(n);
    var c := Ones(m, lo + h);
    ElementHalf(m, h, t, lo);
    SwapRoutes(h, c, r, Mod(c, 2 * h), x, j);
  }

  lemma ElementHalf(m: Word, h: nat, t: nat, lo: nat)
    requires t < |m| && m[t] && lo <= t < lo + 2 * h <= |m|
    ensures t - lo < h ==> Ones(m, t) < Ones(m, lo + h) <= Ones(m, t) + h
    ensures t - lo >= h ==> Ones(m, lo + h) <= Ones(m, t) < Ones(m, lo + h) + h
  {
    if t - lo < h {
      OnesSpread(m, lo, t);
      OnesSpread(m, t + 1, lo + h);
      OnesSpread(m, lo, lo + h);
    } else {
      OnesSpread(m, lo + h, t);
    }
  }

  /** Stage n takes every element from its place at the level above. */
  lemma StageRoutes(m: Word, k: nat, n: nat, t: nat)
    requires |m| == Pow2(k) && n < k && t < |m| && m[t]
    ensures Place(m, n, t) < Pow2(k)
    ensures Source(m, k, n, Place(m, n, t)) == Place(m, n + 1, t)
  {
    var h, lo, r, i := Pow2(n), Segment(n, t), Ones(m, t), Place(m, n, t);
    var x, j := Mod(r, 2 * h), Mod(r, h);
    SegmentFits(k, n, t);
    StartsNest(n, t);
    InSegment(n, t, i - lo);
    assert Segment(n, i) == lo;
    SourceOfHalf(m, k, n, i, lo, j);
    ElementSwaps(m, n, t, lo, r, x, j);
    SwapRoutes(h, 0, r, 0, x, j);
  }

  /** The input position whose bit reaches position i of the word before the stages below n. */
  function Forward(m: Word, k: nat, n: nat, i: nat): (q: nat)
    requires |m| == Pow2(k) && n <= k && i < Pow2(k)
    ensures q < Pow2(k)
    decreases k - n
  {
    if n == k then i else Forward(m, k, n + 1, Source(m, k, n, i))
  }

  /** The same for the inverse network after the stages below n. */
  function Backward(m: Word, k: nat, n: nat, q: nat): (i: nat)
    requires |m| == Pow2(k) && n <= k && q < Pow2(k)
    ensures i < Pow2(k)
  {
    if n == 0 then q else Backward(m, k, n - 1, Source(m, k, n - 1, q))
  }

  lemma {:induction false} ForwardRoutes(m: Word, k: nat, n: nat, t: nat)
    requires |m| == Pow2(k) && n <= k && t < |m| && m[t] && Place(m, n, t) < Pow2(k)
    ensures Forward(m, k, n, Place(m, n, t)) == Ones(m, t)
    decreases k - n
  {
    if n == k {
      assert Mod(Ones(m, t), Pow2(k)) == Ones(m, t);
    } else {
      StageRoutes(m, k, n, t);
      ForwardRoutes(m, k, n + 1, t);
    }
  }

  /** The whole network brings source bit number Ones(m, t) to every mask position t. */
  lemma NetworkRoutes(m: Word, k: nat, t: nat)
    requires |m| == Pow2(k) && t < |m| && m[t]
    ensures Forward(m, k, 0, t) == Ones(m, t)
  {
    StartZero(t);
    ForwardRoutes(m, k, 0, t);
  }

  lemma {:induction false} StartZero(t: nat)
    ensures Start(0, t) == t
  {
    if t > 0 { StartZero(t - 1); }
  }

  lemma {:induction false} ForwardOfBackward(m: Word, k: nat, n: nat, q: nat)
    requires |m| == Pow2(k) && n <= k && q < Pow2(k)
    ensures Forward(m, k, 0, Backward(m, k, n, q)) == Forward(m, k, n, q)
  {
    hide Source;
    if n > 0 {
      var s := Source(m, k, n - 1, q);
      SourceTwice(m, k, n - 1, q);
      ForwardOfBackward(m, k, n - 1, s);
      assert Forward(m, k, n - 1, s) == Forward(m, k, n, q);
    }
  }

  lemma {:induction false} BackwardOfForward(m: Word, k: nat, n: nat, i: nat)
    requires |m| == Pow2(k) && n <= k && i < Pow2(k)
    ensures Backward(m, k, k, Forward(m, k, n, i)) == Backward(m, k, n, i)
    decreases k - n
  {
    hide Source;
    if n < k {
      BackwardOfForward(m, k, n + 1, Source(m, k, n, i));
      SourceTwice(m, k, n, i);
    }
  }

  // ------------------------------------------------- scatter and gather

  /** Bit scatter: mask position t receives the source bit numbered by the ones below t. */
  function Scatter(a: Word, m: Word): (r: Word)
    requires |a| == |m|
    ensures |r| == |a|
  {
    seq(|a|, t requires 0 <= t < |a| => m[t] && a[Ones(m, t)])
  }

  /** Bit gather: the bits at mask positions, packed at the low end; the rest is zero. */
  ghost predicate IsGather(a: Word, m: Word, r: Word)
    requires |a| == |m|
  {
    && |r| == |a|
    && (forall t :: 0 <= t < |a| && m[t] ==> r[Ones(m, t)] == a[t])
    && (forall q :: Ones(m, |m|) <= q < |r| ==> !r[q])
  }

  function And(a: Word, b: Word): (r: Word)
    requires |a| == |b|
    ensures |r| == |a|
  {
    seq(|a|, i requires 0 <= i < |a| => a[i] && b[i])
  }

  /** First cycle of both instructions: count the ones of the mask and save the count bits. */
  method FirstCycle(m: Word, k: nat) returns (lsb: Word, msb: Word)
    requires k >= 2 && |m| == Pow2(k)
    ensures |lsb| == |msb| == Pow2(k) && Holds(lsb, msb, m, k)
  {
    var p := BitCounts(m, k);
    lsb, msb := LsbRegister(p), MsbRegister(p, k, 1);
    assert CountsOf(p, m);
  }

  /** Second cycle of bdecompress: the butterfly network, widest stage first. */
  method Bdecompress(a: Word, m: Word, lsb: Word, msb: Word, k: nat) returns (r: Word)
    requires |a| == |m| == |lsb| == |msb| == Pow2(k) && Holds(lsb, msb, m, k)
    ensures r == Scatter(a, m)
  {
    r := a;
    var n := k;
    while n > 0
      invariant 0 <= n <= k && |r| == |a|
      invariant forall i :: 0 <= i < |a| ==> r[i] == a[Forward(m, k, n, i)]
    {
      n := n - 1;
      forall i | 0 <= i < |a| ensures StageBit(r, lsb, msb, k, n, i) == a[Forward(m, k, n, i)] {
        StagePermutes(r, lsb, msb, m, k, n, i);
      }
      r := Stage(r, lsb, msb, k, n);
    }
    r := And(r, m);
    forall t | 0 <= t < |a| ensures r[t] == Scatter(a, m)[t] {
      if m[t] { NetworkRoutes(m, k, t); }
    }
  }

  /** Second cycle of bcompress: the inverse network, narrowest stage first. */
  method Bcompress(a: Word, m: Word, lsb: Word, msb: Word, k: nat) returns (r: Word)
    requires |a| == |m| == |lsb| == |msb| == Pow2(k) && Holds(lsb, msb, m, k)
    ensures IsGather(a, m, r)
  {
    var masked := And(a, m);
    r := masked;
    var n := 0;
    while n < k
      invariant 0 <= n <= k && |r| == |a|
      invariant forall i :: 0 <= i < |a| ==> r[i] == masked[Backward(m, k, n, i)]
    {
      forall i | 0 <= i < |a| ensures StageBit(r, lsb, msb, k, n, i) == masked[Backward(m, k, n + 1, i)] {
        StagePermutes(r, lsb, msb, m, k, n, i);
      }
      r := Stage(r, lsb, msb, k, n);
      n := n + 1;
    }
    InverseNetworkGathers(a, m, k, r);
  }

  lemma InverseNetworkGathers(a: Word, m: Word, k: nat, r: Word)
    requires |a| == |m| == |r| == Pow2(k)
    requires forall i :: 0 <= i < |a| ==> r[i] == And(a, m)[Backward(m, k, k, i)]
    ensures IsGather(a, m, r)
  {
    forall t | 0 <= t < |a| && m[t] ensures r[Ones(m, t)] == a[t] {
      NetworkRoutes(m, k, t);
      BackwardOfForward(m, k, 0, t);
    }
    forall q | Ones(m, |m|) <= q < |r| ensures !r[q] {
      var t := Backward(m, k, k, q);
      ForwardOfBackward(m, k, k, q);
      if m[t] {
        NetworkRoutes(m, k, t);
        OnesSpread(m, t + 1, |m|);
      }
    }
  }

  /** Every number below the count of ones is the number of some mask position. */
  lemma {:induction false} OnesHit(m: Word, i: nat, q: nat) returns (t: nat)
    requires i <= |m| && q < Ones(m, i)
    ensures t < i && m[t] && Ones(m, t) == q
  {
    if m[i - 1] && Ones(m, i - 1) == q {
      t := i - 1;
    } else {
      t := OnesHit(m, i - 1, q);
    }
  }

  /** Gathering what was scattered gives back the low bits, as many as the mask has ones. */
  lemma {:induction false} GatherOfScatter(a: Word, m: Word, r: Word)
    requires |a| == |m| && IsGather(Scatter(a, m), m, r)
    ensures forall q :: 0 <= q < |a| ==> r[q] == (q < Ones(m, |m|) && a[q])
  {
    forall q | 0 <= q < |a| ensures r[q] == (q < Ones(m, |m|) && a[q]) {
      if q < Ones(m, |m|) {
        var t := OnesHit(m, |m|, q);
        assert r[Ones(m, t)] == Scatter(a, m)[t];
      }
    }
  }

  /** Scattering what was gathered gives back the masked word. */
  lemma ScatterOfGather(a: Word, m: Word, r: Word)
    requires |a| == |m| && IsGather(a, m, r)
    ensures Scatter(r, m) == And(a, m)
  {
  }

  /** Gather is determined by its two clauses. */
  lemma GatherIsUnique(a: Word, m: Word, r: Word, r': Word)
    requires |a| == |m| && IsGather(a, m, r) && IsGather(a, m, r')
    ensures r == r'
  {
    forall q | 0 <= q < |r| ensures r[q] == r'[q] {
      if q < Ones(m, |m|) {
        var t := OnesHit(m, |m|, q);
        assert r[Ones(m, t)] == a[t] == r'[Ones(m, t)];
      }
    }
  }
}
