/**
  The constants of CRC-32 and CRC-32C: the polynomials, their reflections and the Barrett constants
  of the ALU, and what the CRC instructions compute with them.
 */
module CrcConstants {
  import opened PrefixCounter
  import opened Crc

  const CRC32_POLYNOMIAL: Word := Hex("04c11db7")
  const CRC32_MU_REV: Word := Hex("f7011641")
  const CRC32C_POLYNOMIAL: Word := Hex("1edc6f41")
  const CRC32C_MU_REV: Word := Hex("dea713f1")

  // the reflected polynomials of the bit-serial definitions of crc32 and crc32c
  const CRC32_REFLECTED: Word := Hex("edb88320")
  const CRC32C_REFLECTED: Word := Hex("82f63b78")

  function Digit(c: char): nat {
    if '0' <= c <= '9' then c as nat - '0' as nat
    else if 'a' <= c <= 'f' then c as nat - 'a' as nat + 10
    else 0
  }

  predicate NibbleBit(d: nat, k: nat) {
    if k == 0 then d % 2 == 1
    else if k == 1 then d / 2 % 2 == 1
    else if k == 2 then d / 4 % 2 == 1
    else d / 8 % 2 == 1
  }

  predicate HexBit(s: string, i: nat)
    requires i < 4 * |s|
  {
    NibbleBit(Digit(s[|s| - 1 - i / 4]), i % 4)
  }

  /** The word written in hexadecimal, most significant digit first. */
  function Hex(s: string): (w: Word)
    ensures |w| == 4 * |s|
  {
    seq(4 * |s|, i requires 0 <= i < 4 * |s| => HexBit(s, i))
  }

  lemma Crc32PolynomialBits(i: nat)
    requires i < 32
    ensures CRC32_POLYNOMIAL[i] == (i in {0, 1, 2, 4, 5, 7, 8, 10, 11, 12, 16, 22, 23, 26})
  {
    assert CRC32_POLYNOMIAL[i] == HexBit("04c11db7", i);
  }

  lemma Crc32MuBits(i: nat)
    requires i < 32
    ensures CRC32_MU_REV[i] == (i in {0, 6, 9, 10, 12, 16, 24, 25, 26, 28, 29, 30, 31})
  {
    assert CRC32_MU_REV[i] == HexBit("f7011641", i);
  }

  lemma Crc32ReflectedBits(i: nat)
    requires i < 32
    ensures CRC32_REFLECTED[i] == (i in {5, 8, 9, 15, 19, 20, 21, 23, 24, 26, 27, 29, 30, 31})
  {
    assert CRC32_REFLECTED[i] == HexBit("edb88320", i);
  }

  lemma Crc32cPolynomialBits(i: nat)
    requires i < 32
    ensures CRC32C_POLYNOMIAL[i] == (i in {0, 6, 8, 9, 10, 11, 13, 14, 18, 19, 20, 22, 23, 25, 26, 27, 28})
  {
    assert CRC32C_POLYNOMIAL[i] == HexBit("1edc6f41", i);
  }

  lemma Crc32cMuBits(i: nat)
    requires i < 32
    ensures CRC32C_MU_REV[i] == (i in {0, 4, 5, 6, 7, 8, 9, 12, 16, 17, 18, 21, 23, 25, 26, 27, 28, 30, 31})
  {
    assert CRC32C_MU_REV[i] == HexBit("dea713f1", i);
  }

  lemma Crc32cReflectedBits(i: nat)
    requires i < 32
    ensures CRC32C_REFLECTED[i] == (i in {3, 4, 5, 6, 8, 9, 11, 12, 13, 17, 18, 20, 21, 22, 23, 25, 31})
  {
    assert CRC32C_REFLECTED[i] == HexBit("82f63b78", i);
  }

  /** The term of tap t in bit i of a product. */
  predicate Tap(mu: Word, i: nat, t: nat)
    requires i < |mu|
  {
    i >= t && mu[i - t]
  }

  function WordBits(w: Word): int -> bool {
    (j: int) => 0 <= j < |w| && w[j]
  }

  /** The sum of the terms of eight consecutive taps. */
  predicate EightTaps(mu: Word, q: Word, n: nat, i: nat)
    requires |mu| == |q| && i < |mu| && n + 8 <= |q|
  {
    (((q[n] && Tap(mu, i, n)) != (q[n + 1] && Tap(mu, i, n + 1)))
     != ((q[n + 2] && Tap(mu, i, n + 2)) != (q[n + 3] && Tap(mu, i, n + 3))))
    != (((q[n + 4] && Tap(mu, i, n + 4)) != (q[n + 5] && Tap(mu, i, n + 5)))
        != ((q[n + 6] && Tap(mu, i, n + 6)) != (q[n + 7] && Tap(mu, i, n + 7))))
  }

  lemma OneTap(mu: Word, q: Word, n: nat, i: nat)
    requires |mu| == |q| && i < |mu| && n < |q|
    ensures ProductBit(mu, q, n + 1, i) == (ProductBit(mu, q, n, i) != (q[n] && Tap(mu, i, n)))
  {
  }

  lemma EightRows(mu: Word, q: Word, n: nat, i: nat)
    requires |mu| == |q| && i < |mu| && n + 8 <= |q|
    ensures ProductBit(mu, q, n + 8, i) == (ProductBit(mu, q, n, i) != EightTaps(mu, q, n, i))
  {
    OneTap(mu, q, n, i);
    OneTap(mu, q, n + 1, i);
    OneTap(mu, q, n + 2, i);
    OneTap(mu, q, n + 3, i);
    OneTap(mu, q, n + 4, i);
    OneTap(mu, q, n + 5, i);
    OneTap(mu, q, n + 6, i);
    OneTap(mu, q, n + 7, i);
  }

  lemma ThirtyTwoRows(mu: Word, q: Word, i: nat)
    requires |mu| == |q| == 32 && i < 32
    ensures ProductBit(mu, q, 32, i)
         == ((EightTaps(mu, q, 0, i) != EightTaps(mu, q, 8, i)) != (EightTaps(mu, q, 16, i) != EightTaps(mu, q, 24, i)))
  {
    EightRows(mu, q, 0, i);
    EightRows(mu, q, 8, i);
    EightRows(mu, q, 16, i);
    EightRows(mu, q, 24, i);
  }

  predicate Crc32Mu(i: int) {
    i in {0, 6, 9, 10, 12, 16, 24, 25, 26, 28, 29, 30, 31}
  }

  /** The sum of the bits that the taps of CRC-32 reach from i. */
  predicate Crc32Sum(m: int -> bool, i: int) {
    (m(i - 5)
     != (m(i - 8) != (m(i - 9) != (m(i - 15)))))
    != ((m(i - 19) != (m(i - 20) != (m(i - 21) != (m(i - 23)))))
        != (m(i - 24) != (m(i - 26) != (m(i - 27) != (m(i - 29) != (m(i - 30) != (m(i - 31))))))))
  }

  lemma Crc32MuSum(s: int)
    requires 1 <= s < 32
    ensures Crc32Sum(j => Crc32Mu(j), s - 1) == Crc32Mu(s)
  {
  }

  lemma Crc32SameSum(m: int -> bool, m': int -> bool, i: int)
    requires forall j :: j <= i ==> m(j) == m'(j)
    ensures Crc32Sum(m, i) == Crc32Sum(m', i)
  {
  }

  lemma Crc32Recurrence(mu: Word, s: int)
    requires |mu| == 32 && 1 <= s < 32 && forall i :: 0 <= i < 32 ==> mu[i] == Crc32Mu(i)
    ensures mu[s] == Crc32Sum(WordBits(mu), s - 1)
  {
    hide Crc32Sum, Crc32Mu;
    Crc32MuSum(s);
    forall j | j <= s - 1 ensures WordBits(mu)(j) == Crc32Mu(j) {
      if j < 0 { Crc32NoNegative(j); }
    }
    Crc32SameSum(WordBits(mu), j => Crc32Mu(j), s - 1);
  }

  lemma Crc32NoNegative(j: int)
    requires j < 0
    ensures !Crc32Mu(j)
  {
  }

  lemma Crc32Product(mu: Word, i: nat)
    requires |mu| == 32 && i < 32
    ensures ProductBit(mu, CRC32_REFLECTED, 32, i) == Crc32Sum(WordBits(mu), i)
  {
    ThirtyTwoRows(mu, CRC32_REFLECTED, i);
    forall j | 0 <= j < 32
      ensures CRC32_REFLECTED[j] == (j in {5, 8, 9, 15, 19, 20, 21, 23, 24, 26, 27, 29, 30, 31})
    {
      Crc32ReflectedBits(j);
    }
  }

  /** The ALU's constant for CRC-32 is the Barrett constant of its polynomial. */
  lemma Crc32ConstantsFit()
    ensures IsMuRev(CRC32_MU_REV, CRC32_REFLECTED) && IsReverse(CRC32_REFLECTED, CRC32_POLYNOMIAL)
  {
    hide Tap, EightTaps, Crc32Sum;
    forall i | 0 <= i < 32 ensures CRC32_MU_REV[i] == Crc32Mu(i) { Crc32MuBits(i); }
    forall s | 1 <= s < 32 ensures CRC32_MU_REV[s] == ProductBit(CRC32_MU_REV, CRC32_REFLECTED, s, s - 1) {
      HighRowsVanish(CRC32_MU_REV, CRC32_REFLECTED, s - 1, 32);
      Crc32Product(CRC32_MU_REV, s - 1);
      Crc32Recurrence(CRC32_MU_REV, s);
    }
    RecurrenceIsMuRev(CRC32_MU_REV, CRC32_REFLECTED);
    Crc32Reversed();
  }

  lemma Crc32Reversed()
    ensures IsReverse(CRC32_REFLECTED, CRC32_POLYNOMIAL)
  {
    forall i | 0 <= i < 32 ensures CRC32_REFLECTED[31 - i] == CRC32_POLYNOMIAL[i] {
      Crc32ReflectedBits(31 - i);
      Crc32PolynomialBits(i);
    }
  }

  predicate Crc32cMu(i: int) {
    i in {0, 4, 5, 6, 7, 8, 9, 12, 16, 17, 18, 21, 23, 25, 26, 27, 28, 30, 31}
  }

  /** The sum of the bits that the taps of CRC-32C reach from i. */
  predicate Crc32cSum(m: int -> bool, i: int) {
    ((m(i - 3) != (m(i - 4) != (m(i - 5) != (m(i - 6)))))
     != (m(i - 8) != (m(i - 9) != (m(i - 11) != (m(i - 12) != (m(i - 13)))))))
    != ((m(i - 17) != (m(i - 18) != (m(i - 20) != (m(i - 21) != (m(i - 22) != (m(i - 23)))))))
        != (m(i - 25) != (m(i - 31))))
  }

  lemma Crc32cMuSum(s: int)
    requires 1 <= s < 32
    ensures Crc32cSum(j => Crc32cMu(j), s - 1) == Crc32cMu(s)
  {
  }

  lemma Crc32cSameSum(m: int -> bool, m': int -> bool, i: int)
    requires forall j :: j <= i ==> m(j) == m'(j)
    ensures Crc32cSum(m, i) == Crc32cSum(m', i)
  {
  }

  lemma Crc32cRecurrence(mu: Word, s: int)
    requires |mu| == 32 && 1 <= s < 32 && forall i :: 0 <= i < 32 ==> mu[i] == Crc32cMu(i)
    ensures mu[s] == Crc32cSum(WordBits(mu), s - 1)
  {
    hide Crc32cSum, Crc32cMu;
    Crc32cMuSum(s);
    forall j | j <= s - 1 ensures WordBits(mu)(j) == Crc32cMu(j) {
      if j < 0 { Crc32cNoNegative(j); }
    }
    Crc32cSameSum(WordBits(mu), j => Crc32cMu(j), s - 1);
  }

  lemma Crc32cNoNegative(j: int)
    requires j < 0
    ensures !Crc32cMu(j)
  {
  }

  lemma Crc32cProduct(mu: Word, i: nat)
    requires |mu| == 32 && i < 32
    ensures ProductBit(mu, CRC32C_REFLECTED, 32, i) == Crc32cSum(WordBits(mu), i)
  {
    ThirtyTwoRows(mu, CRC32C_REFLECTED, i);
    forall j | 0 <= j < 32
      ensures CRC32C_REFLECTED[j] == (j in {3, 4, 5, 6, 8, 9, 11, 12, 13, 17, 18, 20, 21, 22, 23, 25, 31})
    {
      Crc32cReflectedBits(j);
    }
  }

  /** The ALU's constant for CRC-32C is the Barrett constant of its polynomial. */
  lemma Crc32cConstantsFit()
    ensures IsMuRev(CRC32C_MU_REV, CRC32C_REFLECTED) && IsReverse(CRC32C_REFLECTED, CRC32C_POLYNOMIAL)
  {
    hide Tap, EightTaps, Crc32cSum;
    forall i | 0 <= i < 32 ensures CRC32C_MU_REV[i] == Crc32cMu(i) { Crc32cMuBits(i); }
    forall s | 1 <= s < 32 ensures CRC32C_MU_REV[s] == ProductBit(CRC32C_MU_REV, CRC32C_REFLECTED, s, s - 1) {
      HighRowsVanish(CRC32C_MU_REV, CRC32C_REFLECTED, s - 1, 32);
      Crc32cProduct(CRC32C_MU_REV, s - 1);
      Crc32cRecurrence(CRC32C_MU_REV, s);
    }
    RecurrenceIsMuRev(CRC32C_MU_REV, CRC32C_REFLECTED);
    Crc32cReversed();
  }

  lemma Crc32cReversed()
    ensures IsReverse(CRC32C_REFLECTED, CRC32C_POLYNOMIAL)
  {
    forall i | 0 <= i < 32 ensures CRC32C_REFLECTED[31 - i] == CRC32C_POLYNOMIAL[i] {
      Crc32cReflectedBits(31 - i);
      Crc32cPolynomialBits(i);
    }
  }

  /** The operator of a CRC instruction: polynomial and number of operand bits. */
  datatype CrcOp = CrcOp(castagnoli: bool, width: CrcWidth)
  datatype CrcWidth = B | H | W

  function BitsOf(width: CrcWidth): nat {
    match width case B => 8 case H => 16 case W => 32
  }

  /** crc32.{b,h,w} and crc32c.{b,h,w} on any operand make 8, 16 or 32 steps of the bit-serial CRC. */
  method CrcAlu(op: CrcOp, a: Word) returns (r: Word)
    requires |a| == 32
    ensures r == Serial(a, if op.castagnoli then CRC32C_REFLECTED else CRC32_REFLECTED, BitsOf(op.width))
  {
    Crc32ConstantsFit();
    Crc32cConstantsFit();
    assert Pow2(5) == 32;
    if op.castagnoli {
      r := CrcInstruction(a, BitsOf(op.width), CRC32C_MU_REV, CRC32C_REFLECTED, CRC32C_POLYNOMIAL, 5);
    } else {
      r := CrcInstruction(a, BitsOf(op.width), CRC32_MU_REV, CRC32_REFLECTED, CRC32_POLYNOMIAL, 5);
    }
  }
}
