/**
  The two-cycle CRC datapath of the ALU over words of any width: two truncated carry-less products
  with reversals (Barrett reduction) compute the bit-serial reflected CRC. Bit i of a word is its
  element i.
 */
module Crc {
  import opened PrefixCounter

  function Zeros(n: nat): (w: Word)
    ensures |w| == n
  {
    seq(n, i => false)
  }

  function Xor(a: Word, b: Word): (r: Word)
    requires |a| == |b|
    ensures |r| == |a|
  {
    seq(|a|, i requires 0 <= i < |a| => a[i] != b[i])
  }

  function Times(c: bool, a: Word): (r: Word)
    ensures |r| == |a|
  {
    if c then a else Zeros(|a|)
  }

  function ShiftLeft(a: Word, k: nat): (r: Word)
    ensures |r| == |a|
  {
    seq(|a|, i requires 0 <= i < |a| => i >= k && a[i - k])
  }

  function ShiftRight(a: Word, k: nat): (r: Word)
    ensures |r| == |a|
  {
    seq(|a|, i requires 0 <= i < |a| => i + k < |a| && a[i + k])
  }

  function Rev(a: Word): (r: Word)
    ensures |r| == |a|
  {
    seq(|a|, i requires 0 <= i < |a| => a[|a| - 1 - i])
  }

  // ---------------------------------------------------- the xor tree

  /** One level of the tree: neighbours are combined. */
  function PairUp(rows: seq<Word>): (r: seq<Word>)
    requires |rows| % 2 == 0 && SameWidth(rows)
    ensures |r| == |rows| / 2
  {
    seq(|rows| / 2, i requires 0 <= i < |rows| / 2 => Xor(rows[2 * i], rows[2 * i + 1]))
  }

  predicate SameWidth(rows: seq<Word>) {
    forall i :: 0 <= i < |rows| ==> |rows[i]| == |rows[0]|
  }

  function XorAll(rows: seq<Word>, n: nat, w: nat): (r: Word)
    requires n <= |rows| && forall i :: 0 <= i < |rows| ==> |rows[i]| == w
    ensures |r| == w
  {
    if n == 0 then Zeros(w) else Xor(XorAll(rows, n - 1, w), rows[n - 1])
  }

  lemma {:induction false} PairUpKeepsXor(rows: seq<Word>, n: nat, w: nat)
    requires |rows| % 2 == 0 && 2 * n <= |rows| && forall i :: 0 <= i < |rows| ==> |rows[i]| == w
    ensures XorAll(PairUp(rows), n, w) == XorAll(rows, 2 * n, w)
    decreases n
  {
    if n > 0 {
      hide Xor;
      PairUpKeepsXor(rows, n - 1, w);
      XorAssociates(XorAll(rows, 2 * n - 2, w), rows[2 * n - 2], rows[2 * n - 1]);
      assert PairUp(rows)[n - 1] == Xor(rows[2 * n - 2], rows[2 * n - 1]);
      assert XorAll(rows, 2 * n - 1, w) == Xor(XorAll(rows, 2 * n - 2, w), rows[2 * n - 2]);
    }
  }

  lemma XorAssociates(a: Word, b: Word, c: Word)
    requires |a| == |b| == |c|
    ensures Xor(Xor(a, b), c) == Xor(a, Xor(b, c))
  {
  }

  lemma PairUpWidth(rows: seq<Word>, w: nat)
    requires |rows| % 2 == 0 && forall i :: 0 <= i < |rows| ==> |rows[i]| == w
    ensures SameWidth(rows) && |PairUp(rows)| == |rows| / 2
    ensures forall i :: 0 <= i < |PairUp(rows)| ==> |PairUp(rows)[i]| == w
  {
  }

  /** Truncated carry-less product, row by row: the xor of a shifted by every set bit of b. */
  function ProductRows(a: Word, b: Word, n: nat): (r: Word)
    requires n <= |b| == |a|
    ensures |r| == |a|
  {
    if n == 0 then Zeros(|a|) else Xor(ProductRows(a, b, n - 1), Times(b[n - 1], ShiftLeft(a, n - 1)))
  }

  function Product(a: Word, b: Word): (r: Word)
    requires |a| == |b|
    ensures |r| == |a|
  {
    ProductRows(a, b, |b|)
  }

  lemma {:induction false} RowsAreProduct(a: Word, b: Word, rows: seq<Word>, n: nat)
    requires n <= |b| == |a| == |rows| && forall i :: 0 <= i < |rows| ==> |rows[i]| == |a|
    requires forall i :: 0 <= i < |rows| ==> rows[i] == Times(b[i], ShiftLeft(a, i))
    ensures XorAll(rows, n, |a|) == ProductRows(a, b, n)
    decreases n
  {
    if n > 0 { RowsAreProduct(a, b, rows, n - 1); }
  }

  /** The carry-less multiplier: 2^k rows, combined pairwise in k levels. */
  method Clmul(a: Word, b: Word, k: nat) returns (r: Word)
    requires |a| == |b| == Pow2(k)
    ensures r == Product(a, b)
  {
    hide Times, ShiftLeft, XorAll, PairUp, ProductRows, SameWidth;
    var w := |a|;
    var rows := seq(w, i requires 0 <= i < w && w == |a| == |b| => Times(b[i], ShiftLeft(a, i)));
    RowsAreProduct(a, b, rows, w);
    var level := k;
    while level > 0
      invariant 0 <= level <= k && |rows| == Pow2(level)
      invariant forall i :: 0 <= i < |rows| ==> |rows[i]| == w
      invariant XorAll(rows, |rows|, w) == Product(a, b)
    {
      PairUpKeepsXor(rows, |rows| / 2, w);
      PairUpWidth(rows, w);
      rows := PairUp(rows);
      level := level - 1;
    }
    r := rows[0];
    OneRow(rows, w);
  }

  lemma OneRow(rows: seq<Word>, w: nat)
    requires |rows| == 1 && |rows[0]| == w
    ensures XorAll(rows, 1, w) == rows[0]
  {
    assert XorAll(rows, 0, w) == Zeros(w);
  }

  // ------------------------------------------------- the reference meaning

  /** One step of the bit-serial reflected CRC with reflected polynomial q. */
  function Step(x: Word, q: Word): (r: Word)
    requires |x| == |q| > 0
    ensures |r| == |x|
  {
    Xor(ShiftRight(x, 1), Times(x[0], q))
  }

  function Serial(x: Word, q: Word, n: nat): (r: Word)
    requires |x| == |q| > 0
    ensures |r| == |x|
    decreases n
  {
    if n == 0 then x else Step(Serial(x, q, n - 1), q)
  }

  /** Bit i of Serial(x, q, n). */
  predicate SerialBit(x: Word, q: Word, n: nat, i: nat)
    requires |x| == |q| > 0 && i < |x|
    decreases n
  {
    if n == 0 then x[i]
    else (i + 1 < |x| && SerialBit(x, q, n - 1, i + 1)) != (SerialBit(x, q, n - 1, 0) && q[i])
  }

  lemma {:induction false} SerialHasBits(x: Word, q: Word, n: nat, i: nat)
    requires |x| == |q| > 0 && i < |x|
    ensures Serial(x, q, n)[i] == SerialBit(x, q, n, i)
    decreases n
  {
    if n > 0 {
      SerialHasBits(x, q, n - 1, 0);
      if i + 1 < |x| { SerialHasBits(x, q, n - 1, i + 1); }
    }
  }

  /** Bit i of the first n rows of the product of a and b. */
  predicate ProductBit(a: Word, b: Word, n: nat, i: nat)
    requires |a| == |b| && n <= |b| && i < |a|
  {
    if n == 0 then false
    else ProductBit(a, b, n - 1, i) != (b[n - 1] && i >= n - 1 && a[i - (n - 1)])
  }

  lemma {:induction false} ProductHasBits(a: Word, b: Word, n: nat, i: nat)
    requires |a| == |b| && n <= |b| && i < |a|
    ensures ProductRows(a, b, n)[i] == ProductBit(a, b, n, i)
    decreases n
  {
    if n > 0 { ProductHasBits(a, b, n - 1, i); }
  }

  // ------------------------------------------------------------- linearity

  predicate IsXor(z: Word, a: Word, b: Word) {
    |z| == |a| == |b| && forall i :: 0 <= i < |z| ==> z[i] == (a[i] != b[i])
  }

  lemma {:induction false} SerialLinear(z: Word, a: Word, b: Word, q: Word, n: nat, i: nat)
    requires IsXor(z, a, b) && |z| == |q| > 0 && i < |z|
    ensures SerialBit(z, q, n, i) == (SerialBit(a, q, n, i) != SerialBit(b, q, n, i))
    decreases n
  {
    if n > 0 {
      SerialLinear(z, a, b, q, n - 1, 0);
      if i + 1 < |z| { SerialLinear(z, a, b, q, n - 1, i + 1); }
    }
  }

  /** The first of n + 1 steps can be taken apart. */
  lemma {:induction false} SerialFirst(x: Word, q: Word, n: nat, i: nat)
    requires |x| == |q| > 0 && i < |x|
    ensures SerialBit(x, q, n + 1, i) == SerialBit(Step(x, q), q, n, i)
    decreases n
  {
    if n > 0 {
      SerialFirst(x, q, n - 1, 0);
      if i + 1 < |x| { SerialFirst(x, q, n - 1, i + 1); }
    }
  }

  /** As long as only zeros are shifted out, the serial CRC is a plain shift. */
  lemma {:induction false} SerialShifts(x: Word, q: Word, n: nat, i: nat)
    requires |x| == |q| > 0 && i < |x| && forall j :: 0 <= j < n && j < |x| ==> !x[j]
    ensures SerialBit(x, q, n, i) == (i + n < |x| && x[i + n])
    decreases n
  {
    if n > 0 {
      SerialShifts(x, q, n - 1, 0);
      if i + 1 < |x| { SerialShifts(x, q, n - 1, i + 1); }
    }
  }

  // -------------------------------------------------- the Barrett constant

  function Unit(n: nat): (r: Word)
    requires n > 0
    ensures |r| == n
  {
    seq(n, i => i == 0)
  }

  /** The constant for reflected polynomial q: the bits shifted out by the serial CRC started at 1. */
  predicate IsMuRev(mu: Word, q: Word)
    requires |mu| == |q| > 0
  {
    forall i :: 0 <= i < |mu| ==> mu[i] == SerialBit(Unit(|q|), q, i, 0)
  }

  lemma {:induction false} ProductOfShifted(x: Word, x': Word, mu: Word, s: nat, n: nat)
    requires |x| == |x'| == |mu| && s + 1 < |x| && n <= s + 1
    requires forall i :: 0 <= i < |x| - 1 ==> x'[i] == x[i + 1]
    ensures ProductBit(x', mu, n, s) == ProductBit(x, mu, n, s + 1)
    decreases n
  {
    if n > 0 { ProductOfShifted(x, x', mu, s, n - 1); }
  }

  lemma {:induction false} HighRowsVanish(x: Word, mu: Word, s: nat, n: nat)
    requires |x| == |mu| && s < |x| && s + 1 <= n <= |x|
    ensures ProductBit(x, mu, n, s) == ProductBit(x, mu, s + 1, s)
    decreases n
  {
    if n > s + 1 { HighRowsVanish(x, mu, s, n - 1); }
  }

  /** Bit s of the product with the constant is the bit shifted out by step s of the serial CRC. */
  lemma {:induction false} ShiftedOutBit(x: Word, mu: Word, q: Word, s: nat)
    requires |mu| == |x| == |q| > 0 && s < |x| && IsMuRev(mu, q)
    ensures SerialBit(x, q, s, 0) == ProductBit(x, mu, s + 1, s)
    decreases s
  {
    if s == 0 {
      assert mu[0] == SerialBit(Unit(|q|), q, 0, 0);
      assert ProductBit(x, mu, 0, 0) == false;
    } else {
      hide SerialBit;
      var x', c := ShiftRight(x, 1), Times(x[0], q);
      SerialFirst(x, q, s - 1, 0);
      assert IsXor(Step(x, q), x', c);
      SerialLinear(Step(x, q), x', c, q, s - 1, 0);
      ShiftedOutBit(x', mu, q, s - 1);
      ProductOfShifted(x, x', mu, s - 1, s);
      ShiftedOutByPoly(q, x[0], s);
      assert mu[s] == SerialBit(Unit(|q|), q, s, 0);
    }
  }

  lemma ShiftedOutByPoly(q: Word, c: bool, s: nat)
    requires |q| > 0 && s > 0
    ensures SerialBit(Times(c, q), q, s - 1, 0) == (c && SerialBit(Unit(|q|), q, s, 0))
  {
    if c {
      SerialFirst(Unit(|q|), q, s - 1, 0);
      SameSerial(Step(Unit(|q|), q), q, q, s - 1, 0);
    } else {
      var z := Zeros(|q|);
      SerialLinear(z, z, z, q, s - 1, 0);
    }
  }

  lemma {:induction false} SameSerial(x: Word, x': Word, q: Word, n: nat, i: nat)
    requires |x| == |x'| == |q| > 0 && i < |x| && forall j :: 0 <= j < |x| ==> x[j] == x'[j]
    ensures SerialBit(x, q, n, i) == SerialBit(x', q, n, i)
    decreases n
  {
    if n > 0 {
      SameSerial(x, x', q, n - 1, 0);
      if i + 1 < |x| { SameSerial(x, x', q, n - 1, i + 1); }
    }
  }

  /** Sum over j < k of tap i + j of q with the bit shifted out j steps before step n. */
  predicate Feedback(q: Word, n: nat, i: nat, k: nat)
    requires |q| > 0 && k <= n
  {
    if k == 0 then false
    else Feedback(q, n, i, k - 1)
         != (i + k - 1 < |q| && q[i + k - 1] && SerialBit(Unit(|q|), q, n - k, 0))
  }

  lemma {:induction false} FeedbackFirst(q: Word, n: nat, i: nat, k: nat)
    requires |q| > 0 && k < n
    ensures Feedback(q, n, i, k + 1)
         == ((i < |q| && q[i] && SerialBit(Unit(|q|), q, n - 1, 0)) != Feedback(q, n - 1, i + 1, k))
    decreases k
  {
    if k > 0 { FeedbackFirst(q, n, i, k - 1); }
    assert Feedback(q, n, i, 0) == false;
  }

  lemma {:induction false} NoFeedback(q: Word, n: nat, i: nat, k: nat)
    requires |q| > 0 && k <= n && i >= |q|
    ensures !Feedback(q, n, i, k)
    decreases k
  {
    if k > 0 { NoFeedback(q, n, i, k - 1); }
  }

  /** The serial CRC of 1 holds what the polynomial feeds back of the bits shifted out so far. */
  lemma {:induction false} SerialOfUnit(q: Word, n: nat, i: nat)
    requires |q| > 0 && i < |q| && n > 0
    ensures SerialBit(Unit(|q|), q, n, i) == Feedback(q, n, i, n)
    decreases n
  {
    FeedbackFirst(q, n, i, n - 1);
    if i + 1 == |q| {
      NoFeedback(q, n - 1, i + 1, n - 1);
    } else if n > 1 {
      SerialOfUnit(q, n - 1, i + 1);
    }
  }

  lemma {:induction false} ProductIsFeedback(mu: Word, q: Word, s: nat, k: nat)
    requires |mu| == |q| && 0 < s < |q| && k <= s
    requires forall j :: 0 <= j < s ==> mu[j] == SerialBit(Unit(|q|), q, j, 0)
    ensures ProductBit(mu, q, k, s - 1) == Feedback(q, s, 0, k)
    decreases k
  {
    if k > 0 { ProductIsFeedback(mu, q, s, k - 1); }
  }

  /** A word that satisfies the feedback recurrence is the Barrett constant. */
  lemma RecurrenceIsMuRev(mu: Word, q: Word)
    requires |mu| == |q| > 0 && mu[0]
    requires forall s :: 1 <= s < |mu| ==> mu[s] == ProductBit(mu, q, s, s - 1)
    ensures IsMuRev(mu, q)
  {
    var n := 0;
    while n < |mu|
      invariant n <= |mu| && forall j :: 0 <= j < n ==> mu[j] == SerialBit(Unit(|q|), q, j, 0)
    {
      if n > 0 {
        ProductIsFeedback(mu, q, n, n);
        SerialOfUnit(q, n, 0);
      }
      n := n + 1;
    }
  }

  // -------------------------------------------------- division with remainder

  /** Bit k of (the quotient after s steps) times (the first n rows of p). */
  predicate QuotientProductBit(x: Word, q: Word, p: Word, s: nat, n: nat, k: nat)
    requires |x| == |q| == |p| > 0 && n <= |p| && k < |p|
  {
    if n == 0 then false
    else
      var j := n - 1;
      QuotientProductBit(x, q, p, s, j, k)
      != (p[j] && j <= k && k - j < s && SerialBit(x, q, s - 1 - (k - j), 0))
  }

  lemma {:induction false} QuotientProductStep(x: Word, q: Word, p: Word, s: nat, n: nat, k: nat)
    requires |x| == |q| == |p| > 0 && n <= |p| && k < |p|
    ensures QuotientProductBit(x, q, p, s + 1, n, k)
         == ((k > 0 && QuotientProductBit(x, q, p, s, n, k - 1)) != (k < n && p[k] && SerialBit(x, q, s, 0)))
    decreases n
  {
    if n > 0 { QuotientProductStep(x, q, p, s, n - 1, k); }
  }

  predicate IsReverse(q: Word, p: Word) {
    |q| == |p| && forall i :: 0 <= i < |p| ==> q[|p| - 1 - i] == p[i]
  }

  /** Quotient times polynomial plus remainder is the shifted dividend, on the low bits. */
  lemma {:induction false} DivisionInvariant(x: Word, q: Word, p: Word, s: nat, k: nat)
    requires |x| == |q| == |p| > 0 && k < |p| && IsReverse(q, p)
    ensures (QuotientProductBit(x, q, p, s, |p|, k) != SerialBit(x, q, s, |p| - 1 - k))
         == (k >= s && x[|p| - 1 - k + s])
    decreases s
  {
    if s == 0 {
      NoQuotientYet(x, q, p, |p|, k);
    } else {
      QuotientProductStep(x, q, p, s - 1, |p|, k);
      assert q[|p| - 1 - k] == p[k];
      if k > 0 { DivisionInvariant(x, q, p, s - 1, k - 1); }
    }
  }

  lemma {:induction false} NoQuotientYet(x: Word, q: Word, p: Word, n: nat, k: nat)
    requires |x| == |q| == |p| > 0 && n <= |p| && k < |p|
    ensures !QuotientProductBit(x, q, p, 0, n, k)
    decreases n
  {
    if n > 0 { NoQuotientYet(x, q, p, n - 1, k); }
  }

  lemma {:induction false} ProductWithQuotient(x: Word, q: Word, p: Word, t: Word, n: nat, k: nat)
    requires |x| == |q| == |p| == |t| > 0 && n <= |p| && k < |p|
    requires forall i :: 0 <= i < |t| ==> t[i] == SerialBit(x, q, |t| - 1 - i, 0)
    ensures ProductBit(t, p, n, k) == QuotientProductBit(x, q, p, |t|, n, k)
    decreases n
  {
    if n > 0 { ProductWithQuotient(x, q, p, t, n - 1, k); }
  }

  /** Barrett reduction: the two truncated products give the serial CRC of a whole word. */
  lemma {:induction false} BarrettIsSerial(x: Word, mu: Word, q: Word, p: Word)
    requires |x| == |mu| == |q| == |p| > 0 && IsReverse(q, p) && IsMuRev(mu, q)
    ensures Rev(Product(Rev(Product(x, mu)), p)) == Serial(x, q, |x|)
  {
    var w := |x|;
    var t := Rev(Product(x, mu));
    forall i | 0 <= i < w ensures t[i] == SerialBit(x, q, w - 1 - i, 0) {
      ProductHasBits(x, mu, w, w - 1 - i);
      HighRowsVanish(x, mu, w - 1 - i, w);
      ShiftedOutBit(x, mu, q, w - 1 - i);
    }
    forall i | 0 <= i < w ensures Rev(Product(t, p))[i] == Serial(x, q, w)[i] {
      var k := w - 1 - i;
      ProductHasBits(t, p, w, k);
      ProductWithQuotient(x, q, p, t, w, k);
      DivisionInvariant(x, q, p, w, k);
      SerialHasBits(x, q, w, i);
    }
  }

  // -------------------------------------------------- the b, h and w variants

  lemma {:induction false} SerialCompose(x: Word, z: Word, q: Word, m: nat, n: nat, i: nat)
    requires |x| == |z| == |q| > 0 && i < |x|
    requires forall j :: 0 <= j < |x| ==> z[j] == SerialBit(x, q, m, j)
    ensures SerialBit(x, q, m + n, i) == SerialBit(z, q, n, i)
    decreases n
  {
    if n > 0 {
      SerialCompose(x, z, q, m, n - 1, 0);
      if i + 1 < |x| { SerialCompose(x, z, q, m, n - 1, i + 1); }
    }
  }

  /** Bit i after a whole-word CRC of y, the low n bits of a moved to the top, and after n steps from a. */
  lemma ShortCrcBit(a: Word, y: Word, q: Word, n: nat, i: nat)
    requires |a| == |y| == |q| && n <= |a| && i < |a|
    requires forall j :: 0 <= j < |a| ==> y[j] == (j >= |a| - n && a[j - (|a| - n)])
    ensures SerialBit(a, q, n, i) == (SerialBit(y, q, |a|, i) != (i + n < |a| && a[i + n]))
  {
    hide SerialBit;
    var w := |a|;
    var low := seq(w, j requires 0 <= j < w => j < n && a[j]);
    var high := seq(w, j requires 0 <= j < w => j >= n && a[j]);
    forall j | 0 <= j < w ensures low[j] == SerialBit(y, q, w - n, j) {
      SerialShifts(y, q, w - n, j);
    }
    SerialCompose(y, low, q, w - n, n, i);
    assert IsXor(a, low, high);
    SerialLinear(a, low, high, q, n, i);
    SerialShifts(high, q, n, i);
  }

  /** A whole-word CRC of the low n bits moved to the top, and the rest shifted down, make n steps. */
  lemma ShortCrc(a: Word, q: Word, n: nat)
    requires |a| == |q| > 0 && n <= |a|
    ensures Xor(Serial(ShiftLeft(a, |a| - n), q, |a|), ShiftRight(a, n)) == Serial(a, q, n)
  {
    hide Serial, SerialBit;
    var y := ShiftLeft(a, |a| - n);
    forall i | 0 <= i < |a| ensures Xor(Serial(y, q, |a|), ShiftRight(a, n))[i] == Serial(a, q, n)[i] {
      SerialHasBits(y, q, |a|, i);
      SerialHasBits(a, q, n, i);
      ShortCrcBit(a, y, q, n, i);
    }
  }

  /** The CRC instruction on n bits of operand a: the first cycle multiplies by the constant and saves
      the reversed product, the second multiplies that by the polynomial. */
  method CrcInstruction(a: Word, n: nat, mu: Word, ghost q: Word, p: Word, k: nat) returns (r: Word)
    requires |a| == |mu| == |q| == |p| == Pow2(k) && n <= |a| && IsReverse(q, p) && IsMuRev(mu, q)
    ensures r == Serial(a, q, n)
  {
    var operand := if n == |a| then a else ShiftLeft(a, |a| - n);
    var product := Clmul(operand, mu, k);
    var imd := Rev(product);
    product := Clmul(imd, p, k);
    r := if n == |a| then Rev(product) else Xor(Rev(product), ShiftRight(a, n));
    BarrettIsSerial(operand, mu, q, p);
    if n < |a| { ShortCrc(a, q, n); }
  }
}
