/**
  Bit scatter and gather (bdecompress and bcompress) on the butterfly network of the ALU, for words
  of 2^k bits. The first cycle counts ones and saves some of the count bits in two registers; the
  second cycle derives the swap masks from them and runs the network.
 */
module Butterfly {
  import opened PrefixCounter

  // ------------------------------------------------------ the saved count bits

  function BitOf(x: nat, j: nat): bool {
    x / Pow2(j) % 2 == 1
  }

  lemma {:induction false} PowSplit(k: nat, j: nat)
    requires j <= k
    ensures Pow2(j) * Pow2(k - j) == Pow2(k)
    decreases j
  {
    if j > 0 {
      PowSplit(k, j - 1);
      assert Pow2(j) * Pow2(k - j) == Pow2(j - 1) * (2 * Pow2(k - j));
    }
  }

  /** Bit j of the counts at positions 2^j - 1, 2 * 2^j - 1, ... */
  function Block(p: seq<nat>, k: nat, j: nat): (s: Word)
    requires |p| == Pow2(k) && j <= k
    ensures |s| == Pow2(k - j)
  {
    seq(Pow2(k - j), i requires 0 <= i < Pow2(k - j) => BlockIndex(k, j, i); BitOf(p[Pow2(j) * (i + 1) - 1], j))
  }

  lemma BlockIndex(k: nat, j: nat, i: nat)
    requires j <= k && i < Pow2(k - j)
    ensures 1 <= Pow2(j) * (i + 1) <= Pow2(k)
  {
    PowSplit(k, j);
    MulAtMost(Pow2(j), i + 1, Pow2(k - j));
  }

  lemma MulAtMost(d: nat, a: nat, b: nat)
    requires 1 <= a <= b
    ensures d <= d * a <= d * b
  {
  }

  /** The register for the low count bits: one per position. */
  function LsbRegister(p: seq<nat>): (s: Word)
    ensures |s| == |p|
  {
    seq(|p|, i requires 0 <= i < |p| => BitOf(p[i], 0))
  }

  /** The register for the higher count bits: the blocks for j, j + 1, ..., k and one unused bit. */
  function MsbRegister(p: seq<nat>, k: nat, j: nat): (s: Word)
    requires |p| == Pow2(k) && 1 <= j <= k + 1
    ensures |s| == Pow2(k + 1 - j)
    decreases k + 1 - j
  {
    if j == k + 1 then [false] else Block(p, k, j) + MsbRegister(p, k, j + 1)
  }

  /** Where the block for bit j starts. */
  function Offset(k: nat, j: nat): int
    requires 1 <= j <= k + 1
  {
    Pow2(k) - Pow2(k + 1 - j)
  }

  lemma {:induction false} RegisterHoldsBlocks(p: seq<nat>, k: nat, j: nat, b: nat, i: nat)
    requires |p| == Pow2(k) && 1 <= j <= b <= k && i < Pow2(k - b)
    ensures 0 <= Offset(k, b) - Offset(k, j) + i < |MsbRegister(p, k, j)|
    ensures MsbRegister(p, k, j)[Offset(k, b) - Offset(k, j) + i] == Block(p, k, b)[i]
    decreases b - j
  {
    hide Block;
    Pow2Monotone(k + 1 - b, k + 1 - j);
    var at := Offset(k, b) - Offset(k, j) + i;
    assert Pow2(k + 1 - j) == 2 * Pow2(k - j);
    if j < b {
      Pow2Monotone(k + 1 - b, k - j);
      assert MsbRegister(p, k, j)[at] == MsbRegister(p, k, j + 1)[at - Pow2(k - j)];
      RegisterHoldsBlocks(p, k, j + 1, b, i);
    } else {
      assert at == i;
    }
  }

  // ------------------------------------------------------------- loading them

  /** The number formed by the saved count bits 0..n of a position whose successor is a multiple of 2^n. */
  function LoadedCount(lsb: Word, msb: Word, k: nat, pos: nat, n: nat): nat
    requires |lsb| == |msb| == Pow2(k) && pos < Pow2(k) && n <= k && (pos + 1) % Pow2(n) == 0
  {
    if n == 0 then Bit(lsb[pos])
    else
      DividesDown(pos + 1, n - 1, n);
      LoadIndex(k, n, pos);
      LoadedCount(lsb, msb, k, pos, n - 1) + Pow2(n) * Bit(msb[Offset(k, n) + (pos + 1) / Pow2(n) - 1])
  }

  lemma LoadIndex(k: nat, n: nat, pos: nat)
    requires 1 <= n <= k && pos < Pow2(k) && (pos + 1) % Pow2(n) == 0
    ensures 1 <= (pos + 1) / Pow2(n) <= Pow2(k - n)
    ensures Pow2(n) * ((pos + 1) / Pow2(n)) == pos + 1
    ensures 0 <= Offset(k, n) && Offset(k, n) + Pow2(k - n) <= Pow2(k)
  {
    var q := (pos + 1) / Pow2(n);
    assert pos + 1 == q * Pow2(n);
    PowSplit(k, n);
    if q > Pow2(k - n) {
      Distribute(q, Pow2(k - n), Pow2(n));
      MulLeast(q - Pow2(k - n), Pow2(n));
    }
    Pow2Monotone(k + 1 - n, k);
  }

  lemma {:induction false} SplitBit(x: nat, n: nat)
    ensures x % Pow2(n + 1) == x % Pow2(n) + Pow2(n) * Bit(BitOf(x, n))
  {
    var d, q := Pow2(n), x / Pow2(n);
    Division(x, d);
    assert Pow2(n + 1) == 2 * d;
    SplitQuotient(x, d, q, x % d, q / 2, q % 2);
  }

  lemma Division(x: nat, d: nat)
    requires d > 0
    ensures x == x / d * d + x % d && x % d < d
  {
  }

  lemma SplitQuotient(x: nat, d: nat, q: nat, t: nat, h: nat, b: nat)
    requires x == q * d + t && t < d && q == 2 * h + b && b < 2
    ensures x % (2 * d) == t + d * b
  {
    Regroup(h, d);
    assert q * d == h * (2 * d) + d * b;
    ModMultiple(h, 2 * d, d * b + t);
  }

  /** The saved bits are enough: the loaded count is the full count modulo 2^(n+1). */
  lemma {:induction false} LoadedIsCountMod(p: seq<nat>, k: nat, pos: nat, n: nat)
    requires |p| == Pow2(k) && pos < Pow2(k) && n <= k && (pos + 1) % Pow2(n) == 0
    ensures LoadedCount(LsbRegister(p), MsbRegister(p, k, 1), k, pos, n) == p[pos] % Pow2(n + 1)
  {
    SplitBit(p[pos], n);
    if n > 0 {
      DividesDown(pos + 1, n - 1, n);
      LoadedIsCountMod(p, k, pos, n - 1);
      LoadIndex(k, n, pos);
      RegisterHoldsBlocks(p, k, 1, n, (pos + 1) / Pow2(n) - 1);
    }
  }

  // ------------------------------------------------------------- swap masks

  /** Bit t of the 2N-bit word with N ones in its low half, shifted left by a. */
  predicate Shifted(n: nat, a: nat, t: nat) {
    a <= t < a + Pow2(n)
  }

  /** The start of the 2N-bit segment that position i lies in at stage n, N = 2^n. */
  function Segment(n: nat, i: nat): (lo: nat)
    ensures lo <= i < lo + 2 * Pow2(n)
  {
    if i < 2 * Pow2(n) then 0 else Segment(n, i - 2 * Pow2(n)) + 2 * Pow2(n)
  }

  lemma {:induction false} SegmentBelow(n: nat, i: nat, e: nat)
    requires i < e * (2 * Pow2(n))
    ensures Segment(n, i) + 2 * Pow2(n) <= e * (2 * Pow2(n))
    decreases i
  {
    var d := 2 * Pow2(n);
    if i < d {
      if e == 0 { assert false; }
      MulLeast(e, d);
    } else {
      Distribute(e, 1, d);
      if e == 0 { assert false; }
      SegmentBelow(n, i - d, e - 1);
    }
  }

  lemma SegmentFits(k: nat, n: nat, i: nat)
    requires n < k && i < Pow2(k)
    ensures Segment(n, i) + 2 * Pow2(n) <= Pow2(k)
  {
    hide Segment;
    PowSplit(k, n + 1);
    assert Pow2(n + 1) == 2 * Pow2(n);
    SegmentBelow(n, i, Pow2(k - n - 1));
  }

  lemma {:induction false} MiddleIsMultiple(n: nat, i: nat)
    ensures (Segment(n, i) + Pow2(n)) % Pow2(n) == 0
    decreases i
  {
    var d := 2 * Pow2(n);
    if i < d {
      ModMultiple(1, Pow2(n), 0);
    } else {
      MiddleIsMultiple(n, i - d);
      NextMultiple(Segment(n, i - d) + Pow2(n), Pow2(n));
      NextMultiple(Segment(n, i - d) + 2 * Pow2(n), Pow2(n));
    }
  }

  lemma {:induction false} InSegment(n: nat, i: nat, r: nat)
    requires r < 2 * Pow2(n)
    ensures Segment(n, Segment(n, i) + r) == Segment(n, i)
    decreases i
  {
    if i >= 2 * Pow2(n) { InSegment(n, i - 2 * Pow2(n), r); }
  }

  lemma {:induction false} NextSegment(n: nat, i: nat)
    ensures Segment(n, i + 2 * Pow2(n)) == Segment(n, i) + 2 * Pow2(n)
  {
  }

  /** The shift amount for the segment of position i, from the two registers. */
  function Amount(lsb: Word, msb: Word, k: nat, n: nat, i: nat): nat
    requires |lsb| == |msb| == Pow2(k) && n < k && i < Pow2(k)
  {
    SegmentFits(k, n, i);
    MiddleIsMultiple(n, i);
    LoadedCount(lsb, msb, k, Segment(n, i) + Pow2(n) - 1, n)
  }

  predicate MaskL(lsb: Word, msb: Word, k: nat, n: nat, i: nat)
    requires |lsb| == |msb| == Pow2(k) && n < k && i < Pow2(k)
  {
    var r := i - Segment(n, i);
    r >= Pow2(n) && !Shifted(n, Amount(lsb, msb, k, n, i), r)
  }

  predicate MaskR(lsb: Word, msb: Word, k: nat, n: nat, i: nat)
    requires |lsb| == |msb| == Pow2(k) && n < k && i < Pow2(k)
  {
    var r := i - Segment(n, i);
    r < Pow2(n) && !Shifted(n, Amount(lsb, msb, k, n, i), r + Pow2(n))
  }

  /** One stage: bits outside both masks stay, left ones move N down, right ones N up. */
  function StageBit(x: Word, lsb: Word, msb: Word, k: nat, n: nat, i: nat): bool
    requires |x| == |lsb| == |msb| == Pow2(k) && n < k && i < Pow2(k)
  {
    || (x[i] && !(MaskL(lsb, msb, k, n, i) || MaskR(lsb, msb, k, n, i)))
    || (i + Pow2(n) < |x| && x[i + Pow2(n)] && MaskL(lsb, msb, k, n, i + Pow2(n)))
    || (i >= Pow2(n) && x[i - Pow2(n)] && MaskR(lsb, msb, k, n, i - Pow2(n)))
  }

  function Stage(x: Word, lsb: Word, msb: Word, k: nat, n: nat): (y: Word)
    requires |x| == |lsb| == |msb| == Pow2(k) && n < k
    ensures |y| == |x|
  {
    seq(|x|, i requires 0 <= i < |x| => StageBit(x, lsb, msb, k, n, i))
  }

  /** The registers hold the counts of mask m. */
  ghost predicate Holds(lsb: Word, msb: Word, m: Word, k: nat) {
    && |m| == Pow2(k)
    && exists p: seq<nat> :: CountsOf(p, m) && lsb == LsbRegister(p) && msb == MsbRegister(p, k, 1)
  }

  predicate CountsOf(p: seq<nat>, m: Word) {
    |p| == |m| && forall i :: 0 <= i < |m| ==> p[i] == Ones(m, i + 1)
  }

  // -------------------------------------------- a stage as a permutation

  /** Do the two halves of the segment starting at lo exchange their bits number j? */
  predicate Swap(m: Word, n: nat, lo: nat, j: nat)
    requires lo + Pow2(n) <= |m|
  {
    !Shifted(n, Mod(Ones(m, lo + Pow2(n)), 2 * Pow2(n)), j + Pow2(n))
  }

  /** The position stage n fetches the bit of position i from. */
  function Source(m: Word, k: nat, n: nat, i: nat): (q: nat)
    requires |m| == Pow2(k) && n < k && i < Pow2(k)
    ensures q < Pow2(k)
  {
    SegmentFits(k, n, i);
    var lo := Segment(n, i);
    var r := i - lo;
    if r < Pow2(n) then (if Swap(m, n, lo, r) then i + Pow2(n) else i)
    else (if Swap(m, n, lo, r - Pow2(n)) then i - Pow2(n) else i)
  }

  lemma SourceTwice(m: Word, k: nat, n: nat, i: nat)
    requires |m| == Pow2(k) && n < k && i < Pow2(k)
    ensures Source(m, k, n, Source(m, k, n, i)) == i
  {
    SegmentFits(k, n, i);
    InSegment(n, i, Source(m, k, n, i) - Segment(n, i));
  }

  lemma {:induction false} AmountIsCount(lsb: Word, msb: Word, m: Word, k: nat, n: nat, i: nat)
    requires Holds(lsb, msb, m, k) && |lsb| == |msb| == Pow2(k) && n < k && i < Pow2(k)
    ensures Segment(n, i) + Pow2(n) <= |m|
    ensures Amount(lsb, msb, k, n, i) == Mod(Ones(m, Segment(n, i) + Pow2(n)), 2 * Pow2(n))
  {
    hide LoadedCount, LsbRegister, MsbRegister, Ones, Mod, Segment;
    SegmentFits(k, n, i);
    ModIsRemainder(Ones(m, Segment(n, i) + Pow2(n)), 2 * Pow2(n));
    assert Pow2(n + 1) == 2 * Pow2(n);
    var p :| CountsOf(p, m) && lsb == LsbRegister(p) && msb == MsbRegister(p, k, 1);
    MiddleIsMultiple(n, i);
    LoadedIsCountMod(p, k, Segment(n, i) + Pow2(n) - 1, n);
  }

  /** The masks taken from the registers say which positions swap. */
  lemma {:induction false} MasksAreSwaps(lsb: Word, msb: Word, m: Word, k: nat, n: nat, i: nat)
    requires Holds(lsb, msb, m, k) && |lsb| == |msb| == Pow2(k) && n < k && i < Pow2(k)
    ensures Segment(n, i) + Pow2(n) <= |m|
    ensures MaskR(lsb, msb, k, n, i) <==> i - Segment(n, i) < Pow2(n) && Source(m, k, n, i) == i + Pow2(n)
    ensures MaskL(lsb, msb, k, n, i) <==> i - Segment(n, i) >= Pow2(n) && Source(m, k, n, i) == i - Pow2(n)
  {
    SegmentFits(k, n, i);
    AmountIsCount(lsb, msb, m, k, n, i);
  }

  lemma SourceMirror(m: Word, k: nat, n: nat, i: nat, j: nat)
    requires |m| == Pow2(k) && n < k && i < Pow2(k) && j < Pow2(k)
    ensures Source(m, k, n, i) == j <==> Source(m, k, n, j) == i
  {
    SourceTwice(m, k, n, i);
    SourceTwice(m, k, n, j);
  }

  /** A left bit moves down onto position i exactly when i takes its bit from there. */
  lemma {:induction false} FromLeft(lsb: Word, msb: Word, m: Word, k: nat, n: nat, i: nat)
    requires Holds(lsb, msb, m, k) && |lsb| == |msb| == Pow2(k) && n < k && i + Pow2(n) < Pow2(k)
    ensures MaskL(lsb, msb, k, n, i + Pow2(n)) <==> Source(m, k, n, i) == i + Pow2(n)
  {
    hide Source, MaskL, MaskR, Segment;
    var j := i + Pow2(n);
    SourceChoices(m, k, n, i);
    NeighbourSegment(n, i);
    MasksAreSwaps(lsb, msb, m, k, n, j);
    SourceMirror(m, k, n, i, j);
  }

  lemma FromRight(lsb: Word, msb: Word, m: Word, k: nat, n: nat, i: nat)
    requires Holds(lsb, msb, m, k) && |lsb| == |msb| == Pow2(k) && n < k && Pow2(n) <= i < Pow2(k)
    ensures MaskR(lsb, msb, k, n, i - Pow2(n)) <==> Source(m, k, n, i) == i - Pow2(n)
  {
    hide Source, MaskL, MaskR, Segment;
    var j := i - Pow2(n);
    SourceChoices(m, k, n, i);
    NeighbourSegment(n, j);
    MasksAreSwaps(lsb, msb, m, k, n, j);
    SourceMirror(m, k, n, i, j);
  }

  /** With the counts of m in the registers, a stage fetches every bit from its source. */
  lemma StagePermutes(x: Word, lsb: Word, msb: Word, m: Word, k: nat, n: nat, i: nat)
    requires |x| == |lsb| == |msb| == Pow2(k) && n < k && i < Pow2(k) && Holds(lsb, msb, m, k)
    ensures StageBit(x, lsb, msb, k, n, i) == x[Source(m, k, n, i)]
  {
    MasksAreSwaps(lsb, msb, m, k, n, i);
    SourceChoices(m, k, n, i);
    if i + Pow2(n) < Pow2(k) { FromLeft(lsb, msb, m, k, n, i); }
    if i >= Pow2(n) { FromRight(lsb, msb, m, k, n, i); }
  }

  lemma SourceChoices(m: Word, k: nat, n: nat, i: nat)
    requires |m| == Pow2(k) && n < k && i < Pow2(k)
    ensures i - Segment(n, i) < Pow2(n) ==> Source(m, k, n, i) in {i, i + Pow2(n)}
    ensures i - Segment(n, i) >= Pow2(n) ==> Source(m, k, n, i) in {i, i - Pow2(n)}
  {
  }

  /** N positions up from the lower half of a segment is its upper half, from the upper half the
      lower half of the next segment. */
  lemma NeighbourSegment(n: nat, i: nat)
    ensures i - Segment(n, i) < Pow2(n) ==> Segment(n, i + Pow2(n)) == Segment(n, i)
    ensures i - Segment(n, i) >= Pow2(n) ==> Segment(n, i + Pow2(n)) == Segment(n, i) + 2 * Pow2(n)
  {
    var h, lo := Pow2(n), Segment(n, i);
    if i - lo < h {
      InSegment(n, i, i - lo + h);
    } else {
      InSegment(n, i, i - lo - h);
      NextSegment(n, i - h);
    }
  }
}
