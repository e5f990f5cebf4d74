/**
  When the reference model and section 3.7.1 of the RISC-V Privileged Architecture (with the rule locking
  bypass of its Smepmp extension) agree on whether the address of a PMP region may be changed.
 */
module PmpStandard {
  import opened CsrRegisters
  import opened PmpLocking
  import opened CsrModel

  // The next region of the last one is read as zero.

  predicate RegionLocked(regs: seq<Register>, region: nat)
    requires region <= 16
  {
    ReadAt(regs, PMPCFG0 + region / 4)[region % 4 * 8 + 7]
  }

  /** The region is of type top-of-range: its lower bound is the address of the region before. */
  predicate TopOfRange(regs: seq<Register>, region: nat)
    requires region <= 16
  {
    var cfg := ReadAt(regs, PMPCFG0 + region / 4);
    cfg[region % 4 * 8 + 3] && !cfg[region % 4 * 8 + 4]
  }

  predicate Bypass(regs: seq<Register>) {
    ReadAt(regs, MSECCFG)[RLB]
  }

  /** The standard: locks can be bypassed while RLB is set; otherwise an address is frozen by the lock of its
      region, or by the next region if that is locked and bounded by this address. */
  predicate StandardFrozen(regs: seq<Register>, region: nat)
    requires region < 16
  {
    !Bypass(regs) && (RegionLocked(regs, region) || (RegionLocked(regs, region + 1) && TopOfRange(regs, region + 1)))
  }

  /** The configuration bits for which the model does what the standard says. */
  predicate ConfigurationAgrees(regs: seq<Register>, region: nat)
    requires region < 16
  {
    if Bypass(regs) then !RegionLocked(regs, region) && !TopOfRange(regs, region + 1)
    else RegionLocked(regs, region) || RegionLocked(regs, region + 1) || !TopOfRange(regs, region + 1)
  }

  /** Model and standard agree on a region exactly for these configuration bits. */
  lemma StandardExactly(p: Params, regs: seq<Register>, region: nat)
    requires Layout(p, regs) && region < 16 && p.pmpEnable && region < p.pmpNumRegions
    ensures (Frozen(regs, region) <==> StandardFrozen(regs, region)) <==> ConfigurationAgrees(regs, region)
  {
    hide Distinct, CfgPlaced, AddrPlaced, KindPlaced, Frozen, ReadAt;
    FrozenExactly(p, regs, region);
  }

  /** What the standard freezes without bypass, the model freezes. */
  lemma ModelIsStricter(p: Params, regs: seq<Register>, region: nat)
    requires Layout(p, regs) && region < 16 && p.pmpEnable && region < p.pmpNumRegions
    ensures StandardFrozen(regs, region) ==> Frozen(regs, region)
  {
    hide Distinct, CfgPlaced, AddrPlaced, KindPlaced, Frozen, ReadAt;
    FrozenExactly(p, regs, region);
  }

  // ---------------------------------------------------------- where they differ

  function Bit(i: nat): (w: Word) {
    Mask((j: nat) => j == i)
  }

  const REGION_1_TOP_OF_RANGE: Transaction := Transaction(Write, PMPCFG0, Bit(11))
  const SET_BYPASS: Transaction := Transaction(Write, MSECCFG, Bit(RLB))
  const LOCK_REGION_0: Transaction := Transaction(Write, PMPCFG0, Bit(7))

  /** Writing one lock or mode bit into the first configuration register while nothing is locked. */
  lemma CfgWritten(p: Params, regs: seq<Register>, i: nat)
    requires Inv(p, regs) && p.pmpEnable && p.pmpNumRegions >= 4 && regs[2].value == ZERO
    requires i == 7 || i == 11
    ensures var regs' := Applied(regs, Write, PMPCFG0, Bit(i));
            Inv(p, regs') && ReadAt(regs', PMPCFG0) == Bit(i) && ReadAt(regs', MSECCFG) == regs[0].value
  {
    hide Distinct, AddrPlaced, KindPlaced, CfgLegal, LockBit, ReadAt;
    var regs' := Applied(regs, Write, PMPCFG0, Bit(i));
    AppliedKeepsInv(p, regs, Write, PMPCFG0, Bit(i));
    assert CfgPlaced(p, regs, 0) && CfgPlaced(p, regs', 0);
    CfgRead(p, regs', 0);
    SeccfgRead(p, regs');
    NothingLocked(regs);
    assert regs'[2].value == Bit(i);
  }

  lemma NothingLocked(regs: seq<Register>)
    requires |regs| >= 22 && regs[2].kind == PmpCfg && regs[2].value == ZERO
    ensures forall j :: 0 <= j < 32 ==> !LockBit(regs, regs[2], j)
  {
    hide ReadAt;
  }

  lemma BypassSet(p: Params, regs: seq<Register>)
    requires BuiltUpTo(p, regs, REGISTERS)
    ensures var regs' := Applied(regs, Write, MSECCFG, Bit(RLB));
            Inv(p, regs') && regs'[0].value[RLB] && regs'[2].value == ZERO
  {
    hide Inv, IsLockedCfg;
    var regs' := Applied(regs, Write, MSECCFG, Bit(RLB));
    BuiltInv(p, regs);
    AppliedKeepsInv(p, regs, Write, MSECCFG, Bit(RLB));
    NoneLocked(p, regs);
    assert !LockBit(regs, regs[0], RLB);
  }

  lemma NoneLocked(p: Params, regs: seq<Register>)
    requires BuiltUpTo(p, regs, REGISTERS)
    ensures !AnyLocked(regs)
  {
    forall k | 0 <= k < |regs| ensures !IsLockedCfg(regs[k]) {
      assert regs[k] == BuiltAt(p, k);
    }
  }

  /** From the start, one write that makes region 1 top-of-range and leaves it unlocked freezes the address of
      region 0, which the standard lets be written. */
  lemma UnlockedNeighbourFreezes(p: Params, regs: seq<Register>)
    requires BuiltUpTo(p, regs, REGISTERS) && p.pmpEnable && p.pmpNumRegions >= 4
    ensures Frozen(Run(regs, [REGION_1_TOP_OF_RANGE]), 0) && !StandardFrozen(Run(regs, [REGION_1_TOP_OF_RANGE]), 0)
  {
    hide Inv, Frozen, ReadAt, Applied;
    var t := REGION_1_TOP_OF_RANGE;
    var regs' := Applied(regs, Write, PMPCFG0, Bit(11));
    assert Run(regs, []) == regs && [t][..0] == [] && Run(regs, [t]) == regs';
    BuiltInv(p, regs);
    CfgWritten(p, regs, 11);
    InvLayout(p, regs');
    FrozenExactly(p, regs', 0);
  }

  /** From the start, locking region 0 while RLB is set freezes its address, although the standard lets locked
      regions be changed then. */
  lemma BypassDoesNotReach(p: Params, regs: seq<Register>)
    requires BuiltUpTo(p, regs, REGISTERS) && p.pmpEnable && p.pmpNumRegions >= 4
    ensures Frozen(Run(regs, [SET_BYPASS, LOCK_REGION_0]), 0)
    ensures !StandardFrozen(Run(regs, [SET_BYPASS, LOCK_REGION_0]), 0)
  {
    hide Inv, Frozen, ReadAt, Applied;
    var h := [SET_BYPASS, LOCK_REGION_0];
    var regs1 := Applied(regs, Write, MSECCFG, Bit(RLB));
    var regs2 := Applied(regs1, Write, PMPCFG0, Bit(7));
    assert h[..1] == [SET_BYPASS] && [SET_BYPASS][..0] == [] && Run(regs, []) == regs;
    assert Run(regs, [SET_BYPASS]) == regs1 && Run(regs, h) == regs2;
    BypassSet(p, regs);
    CfgWritten(p, regs1, 7);
    InvLayout(p, regs2);
    FrozenExactly(p, regs2, 0);
  }

  lemma InvLayout(p: Params, regs: seq<Register>)
    requires Inv(p, regs)
    ensures Layout(p, regs)
  {
  }
}
