/**
  What the PMP lock bits guarantee over whole sequences of CSR transactions.
 */
module PmpLocking {
  import opened CsrRegisters

  predicate Rlb(regs: seq<Register>)
    requires |regs| >= 22
  {
    regs[0].value[RLB]
  }

  predicate Mml(regs: seq<Register>)
    requires |regs| >= 22
  {
    regs[0].value[MML]
  }

  predicate Mmwp(regs: seq<Register>)
    requires |regs| >= 22
  {
    regs[0].value[MMWP]
  }

  /** The configuration register of a region and the bit of its byte. */
  predicate CfgBit(regs: seq<Register>, region: nat, b: nat)
    requires |regs| >= 22 && region < 16 && b < 8
  {
    ReadReg(regs[2 + region / 4])[region % 4 * 8 + b]
  }

  function AddrValue(regs: seq<Register>, region: nat): Word
    requires |regs| >= 22 && region < 16
  {
    ReadReg(regs[6 + region])
  }

  /** The region is locked and locking cannot be bypassed. */
  predicate Locked(regs: seq<Register>, region: nat)
    requires |regs| >= 22 && region < 16
  {
    !Rlb(regs) && CfgBit(regs, region, 7)
  }

  /** No reserved configuration: the two zero bits of each byte, and without MML no writable-only region. */
  predicate IsLegal(v: Word, mml: bool) {
    forall j :: 0 <= j < 32 ==> LegalBit(v, mml, j) == v[j]
  }

  predicate Inv(p: Params, regs: seq<Register>) {
    Layout(p, regs) && forall i :: 0 <= i < 4 ==> CfgLegal(regs, i)
  }

  predicate CfgLegal(regs: seq<Register>, i: nat)
    requires |regs| >= 22 && i < 4
  {
    IsLegal(ReadReg(regs[2 + i]), Mml(regs))
  }

  // ------------------------------------------------------------ one register

  lemma SeccfgRead(p: Params, regs: seq<Register>)
    requires Layout(p, regs)
    ensures ReadAt(regs, MSECCFG) == regs[0].value
  {
    ReadAtIs(regs, 0);
  }

  lemma CfgRead(p: Params, regs: seq<Register>, i: nat)
    requires Layout(p, regs) && i < 4
    ensures ReadAt(regs, PMPCFG0 + i) == ReadReg(regs[2 + i])
  {
    assert CfgPlaced(p, regs, i);
    ReadAtIs(regs, 2 + i);
  }

  /** MML and MMWP never fall. */
  lemma ModesStay(p: Params, regs: seq<Register>, op: Op, addr: nat, data: Word)
    requires Layout(p, regs)
    ensures Mml(regs) ==> Mml(Applied(regs, op, addr, data))
    ensures Mmwp(regs) ==> Mmwp(Applied(regs, op, addr, data))
  {
  }

  lemma CfgWithLock(regs: seq<Register>, k: nat, op: Op, data: Word, mml: bool, byte: nat, b: nat)
    requires k < |regs| && regs[k].kind.PmpCfg? && byte < 4 && b < 8
    requires !ReadAt(regs, MSECCFG)[RLB] && regs[k].value[byte * 8 + 7] && IsLegal(regs[k].value, mml)
    requires mml == ReadAt(regs, MSECCFG)[MML]
    ensures After(regs, regs[k], op, data)[byte * 8 + b] == regs[k].value[byte * 8 + b]
  {
    hide ReadAt, LockBit, OpBit, LegalBit, CfgLock;
    var j := byte * 8 + b;
    var m := Masked(regs, regs[k], op, data);
    BytePosition(byte, b);
    LockedBitKept(regs, k, op, data, byte, b);
    assert LegalBit(regs[k].value, mml, j) == regs[k].value[j];
    if b == 1 {
      BytePosition(byte, 0);
      LockedBitKept(regs, k, op, data, byte, 0);
      SameLegal(m, regs[k].value, mml, j);
    } else {
      SameLegal(m, regs[k].value, mml, j);
    }
  }

  lemma BytePosition(byte: nat, b: nat)
    requires byte < 4 && b < 8
    ensures (byte * 8 + b) / 8 == byte && (byte * 8 + b) % 8 == b
  {
  }

  lemma LockedBitKept(regs: seq<Register>, k: nat, op: Op, data: Word, byte: nat, b: nat)
    requires k < |regs| && regs[k].kind.PmpCfg? && byte < 4 && b < 8
    requires !ReadAt(regs, MSECCFG)[RLB] && regs[k].value[byte * 8 + 7]
    ensures Masked(regs, regs[k], op, data)[byte * 8 + b] == regs[k].value[byte * 8 + b]
  {
    hide ReadAt;
    BytePosition(byte, b);
    assert LockBit(regs, regs[k], byte * 8 + b);
  }

  lemma SameLegal(v: Word, w: Word, mml: bool, j: nat)
    requires j < 32 && v[j] == w[j] && (j % 8 == 1 ==> v[j - 1] == w[j - 1])
    ensures LegalBit(v, mml, j) == LegalBit(w, mml, j)
  {
  }

  /** While a region is locked, no transaction changes its configuration byte. */
  lemma CfgByteStays(p: Params, regs: seq<Register>, op: Op, addr: nat, data: Word, region: nat, b: nat)
    requires Inv(p, regs) && region < 16 && b < 8 && Locked(regs, region)
    ensures CfgBit(Applied(regs, op, addr, data), region, b) == CfgBit(regs, region, b)
  {
    hide Distinct, CfgPlaced, AddrPlaced, KindPlaced, IsLegal, LegalBit, OpBit, LockBit;
    var i := region / 4;
    CfgKinds(p, regs, i);
    assert CfgLegal(regs, i);
    SeccfgRead(p, regs);
    if regs[2 + i].kind.PmpCfg? && regs[2 + i].addr == addr && !op.Read? {
      CfgWithLock(regs, 2 + i, op, data, Mml(regs), region % 4, b);
    }
  }

  lemma CfgKinds(p: Params, regs: seq<Register>, i: nat)
    requires Layout(p, regs) && i < 4
    ensures regs[2 + i].kind.PmpCfg? || regs[2 + i].kind.NonImp?
  {
    assert CfgPlaced(p, regs, i);
  }

  /** While a region is locked, RLB stays clear. */
  lemma RlbStaysClear(p: Params, regs: seq<Register>, op: Op, addr: nat, data: Word, region: nat)
    requires Inv(p, regs) && region < 16 && Locked(regs, region)
    ensures !Rlb(Applied(regs, op, addr, data))
  {
    var i := region / 4;
    assert CfgPlaced(p, regs, i);
    assert LockBitSet(ReadReg(regs[2 + i])) by {
      assert region % 4 == 0 || region % 4 == 1 || region % 4 == 2 || region % 4 == 3;
    }
    assert IsLockedCfg(regs[2 + i]);
    assert AnyLocked(regs);
  }

  /** While a region is locked, its address stays. */
  lemma AddrStays(p: Params, regs: seq<Register>, op: Op, addr: nat, data: Word, region: nat)
    requires Inv(p, regs) && region < 16 && Locked(regs, region)
    ensures AddrValue(Applied(regs, op, addr, data), region) == AddrValue(regs, region)
  {
    hide Distinct, CfgPlaced, AddrPlaced, KindPlaced, IsLegal, LegalBit, CfgLegal;
    var r := regs[6 + region];
    AddrPlacedAt(p, regs, region);
    CfgRead(p, regs, region / 4);
    if r.addr == addr && r.kind.PmpAddr? && !op.Read? {
      assert AddrLock(regs, region);
      forall j | 0 <= j < 32 ensures After(regs, r, op, data)[j] == r.value[j] {
        assert LockBit(regs, r, j);
      }
      assert After(regs, r, op, data) == r.value;
    }
  }

  lemma AddrPlacedAt(p: Params, regs: seq<Register>, region: nat)
    requires Layout(p, regs) && region < 16
    ensures regs[6 + region].addr == PMPADDR0 + region && regs[6 + region].addr % 16 == region
    ensures regs[6 + region].kind.PmpAddr? || regs[6 + region].kind.NonImp?
  {
    assert AddrPlaced(p, regs, region);
  }

  // -------------------------------------------------------------- invariant

  lemma LegalIsLegal(v: Word, mml: bool)
    ensures IsLegal(Legal(v, mml), mml)
  {
    forall j | 0 <= j < 32 ensures LegalBit(Legal(v, mml), mml, j) == Legal(v, mml)[j] {
      if j % 8 == 1 { assert (j - 1) % 8 == 0; }
    }
  }

  lemma LegalWithMml(v: Word)
    requires IsLegal(v, false)
    ensures IsLegal(v, true)
  {
    forall j | 0 <= j < 32 ensures LegalBit(v, true, j) == v[j] {
      assert LegalBit(v, false, j) == v[j];
    }
  }

  lemma AppliedKeepsCfg(p: Params, regs: seq<Register>, op: Op, addr: nat, data: Word, i: nat)
    requires Inv(p, regs) && i < 4
    ensures CfgLegal(Applied(regs, op, addr, data), i)
  {
    hide Distinct, CfgPlaced, AddrPlaced, KindPlaced, IsLegal, LegalBit, OpBit, LockBit;
    var regs' := Applied(regs, op, addr, data);
    CfgKinds(p, regs, i);
    assert CfgLegal(regs, i);
    SeccfgRead(p, regs);
    CfgAddress(p, regs, i);
    if regs[2 + i].addr == addr && regs[2 + i].kind.PmpCfg? && !op.Read? {
      LegalIsLegal(Masked(regs, regs[2 + i], op, data), Mml(regs));
    } else if !Mml(regs) && Mml(regs') {
      LegalWithMml(ReadReg(regs[2 + i]));
    }
    ModesStay(p, regs, op, addr, data);
  }

  lemma CfgAddress(p: Params, regs: seq<Register>, i: nat)
    requires Layout(p, regs) && i < 4
    ensures regs[2 + i].addr == PMPCFG0 + i && regs[0].addr == MSECCFG
  {
    assert CfgPlaced(p, regs, i);
  }

  /** Every transaction keeps the invariant. */
  lemma AppliedKeepsInv(p: Params, regs: seq<Register>, op: Op, addr: nat, data: Word)
    requires Inv(p, regs)
    ensures Inv(p, Applied(regs, op, addr, data))
  {
    hide CfgLegal, CfgPlaced, AddrPlaced, KindPlaced, Distinct;
    LayoutKept(p, regs, Applied(regs, op, addr, data));
    forall i | 0 <= i < 4 ensures CfgLegal(Applied(regs, op, addr, data), i) {
      AppliedKeepsCfg(p, regs, op, addr, data, i);
    }
  }

  lemma ZeroIsLegal(mml: bool)
    ensures IsLegal(ZERO, mml)
  {
  }

  lemma ResetGivesInv(p: Params, regs: seq<Register>)
    requires Layout(p, regs)
    ensures Inv(p, Reset(regs))
  {
    hide KindPlaced, Distinct, IsLegal;
    LayoutKept(p, regs, Reset(regs));
    forall i | 0 <= i < 4 ensures CfgLegal(Reset(regs), i) {
      assert CfgPlaced(p, regs, i);
      ZeroIsLegal(Mml(Reset(regs)));
    }
  }

  // ---------------------------------------------------------- whole histories

  datatype Transaction = Transaction(op: Op, addr: nat, data: Word)

  function Run(regs: seq<Register>, history: seq<Transaction>): (r: seq<Register>)
    ensures |r| == |regs|
    decreases |history|
  {
    if history == [] then regs
    else
      var t := history[|history| - 1];
      Applied(Run(regs, history[..|history| - 1]), t.op, t.addr, t.data)
  }

  lemma {:induction false} RunKeepsInv(p: Params, regs: seq<Register>, history: seq<Transaction>)
    requires Inv(p, regs)
    ensures Inv(p, Run(regs, history))
    decreases |history|
  {
    hide Distinct, CfgPlaced, AddrPlaced, KindPlaced, CfgLegal, Applied;
    if history != [] {
      var t := history[|history| - 1];
      RunKeepsInv(p, regs, history[..|history| - 1]);
      AppliedKeepsInv(p, Run(regs, history[..|history| - 1]), t.op, t.addr, t.data);
    }
  }

  /** Once locked while RLB is clear, a region stays as it is through every sequence of transactions on any
      registers: RLB stays clear, its configuration byte and its address keep their values. */
  lemma {:induction false} LockedForever(p: Params, regs: seq<Register>, history: seq<Transaction>, region: nat)
    requires Inv(p, regs) && region < 16 && Locked(regs, region)
    ensures Locked(Run(regs, history), region)
    ensures forall b :: 0 <= b < 8 ==> CfgBit(Run(regs, history), region, b) == CfgBit(regs, region, b)
    ensures AddrValue(Run(regs, history), region) == AddrValue(regs, region)
    decreases |history|
  {
    hide Distinct, CfgPlaced, AddrPlaced, KindPlaced, CfgLegal, Applied, CfgBit, AddrValue, Rlb;
    if history != [] {
      var t, before := history[|history| - 1], Run(regs, history[..|history| - 1]);
      LockedForever(p, regs, history[..|history| - 1], region);
      RunKeepsInv(p, regs, history[..|history| - 1]);
      RlbStaysClear(p, before, t.op, t.addr, t.data, region);
      AddrStays(p, before, t.op, t.addr, t.data, region);
      forall b | 0 <= b < 8 ensures CfgBit(Run(regs, history), region, b) == CfgBit(regs, region, b) {
        CfgByteStays(p, before, t.op, t.addr, t.data, region, b);
      }
    }
  }

  /** MML and MMWP never fall until reset. */
  lemma {:induction false} ModesForever(p: Params, regs: seq<Register>, history: seq<Transaction>)
    requires Inv(p, regs)
    ensures Mml(regs) ==> Mml(Run(regs, history))
    ensures Mmwp(regs) ==> Mmwp(Run(regs, history))
    decreases |history|
  {
    hide Applied, Mml, Mmwp, CfgLegal, Distinct, CfgPlaced, AddrPlaced, KindPlaced;
    if history != [] {
      var t := history[|history| - 1];
      ModesForever(p, regs, history[..|history| - 1]);
      RunKeepsInv(p, regs, history[..|history| - 1]);
      ModesStay(p, Run(regs, history[..|history| - 1]), t.op, t.addr, t.data);
    }
  }

  // ------------------------------------------------- when an address is frozen

  /** No transaction on the address register of an implemented region changes it. */
  ghost predicate Frozen(regs: seq<Register>, region: nat)
    requires |regs| >= 22 && region < 16
  {
    forall op: Op, data: Word :: AddrKept(regs, region, op, data)
  }

  predicate AddrKept(regs: seq<Register>, region: nat, op: Op, data: Word)
    requires |regs| >= 22 && region < 16
  {
    AddrValue(Applied(regs, op, PMPADDR0 + region, data), region) == AddrValue(regs, region)
  }

  /** The address of an implemented region is frozen if and only if the region is locked or the next region
      is of type top-of-range; unlike section 3.7.1 of the RISC-V Privileged Architecture, the next region
      need not be locked for that, and RLB does not matter. */
  lemma FrozenExactly(p: Params, regs: seq<Register>, region: nat)
    requires Layout(p, regs) && region < 16 && p.pmpEnable && region < p.pmpNumRegions
    ensures Frozen(regs, region) <==> AddrLock(regs, region)
  {
    hide Distinct, CfgPlaced, AddrPlaced, KindPlaced, AddrLock;
    var r := regs[6 + region];
    AddrPlacedAt(p, regs, region);
    Implemented(p, regs, region);
    if AddrLock(regs, region) {
      forall op: Op, data: Word ensures AddrKept(regs, region, op, data) {
        forall j | 0 <= j < 32 ensures After(regs, r, op, data)[j] == r.value[j] {
          assert LockBit(regs, r, j);
        }
        assert After(regs, r, op, data) == r.value;
      }
    } else {
      var data := Not(r.value);
      assert !LockBit(regs, r, 0);
      assert After(regs, r, Write, data)[0] == data[0];
      assert AddrValue(Applied(regs, Write, PMPADDR0 + region, data), region)[0] != AddrValue(regs, region)[0];
      assert !AddrKept(regs, region, Write, data);
    }
  }

  lemma Implemented(p: Params, regs: seq<Register>, region: nat)
    requires Layout(p, regs) && region < 16 && p.pmpEnable && region < p.pmpNumRegions
    ensures regs[6 + region].kind == PmpAddr
  {
    assert AddrPlaced(p, regs, region);
  }
}
