/**
  What a transaction does to the bits of the registers, said about the registers before and after it.
 */
module CsrLaws {
  import opened CsrRegisters
  import opened PmpLocking

  /** A bit before and after an operation, the bit of the data, and whether the bit is locked. */
  predicate BitLaw(op: Op, was: bool, data: bool, locked: bool, now: bool) {
    && (locked || op == Read ==> now == was)
    && (!locked && op == Write ==> now == data)
    && (!locked && op == Set ==> (data ==> now) && (!data ==> now == was))
    && (!locked && op == Clear ==> (data ==> !now) && (!data ==> now == was))
  }

  /** What a configuration register holds after the operation asked for raw: in each byte bits 5 and 6 are 0, and
      without MML a byte that is not readable is not writable. */
  predicate MadeLegal(raw: Word, now: Word, mml: bool) {
    forall byte, b :: 0 <= byte < 4 && 0 <= b < 8 ==> MadeLegalBit(raw, now, mml, byte, b)
  }

  predicate MadeLegalBit(raw: Word, now: Word, mml: bool, byte: nat, b: nat)
    requires byte < 4 && b < 8
  {
    now[byte * 8 + b] ==
      if b == 5 || b == 6 then false
      else if b == 1 && !mml then raw[byte * 8 + 1] && raw[byte * 8]
      else raw[byte * 8 + b]
  }

  predicate WordLaw(regs: seq<Register>, r: Register, op: Op, data: Word, now: Word) {
    forall j :: 0 <= j < 32 ==> BitLaw(op, r.value[j], data[j], LockBit(regs, r, j), now[j])
  }

  ghost predicate RegisterLaw(regs: seq<Register>, r: Register, op: Op, data: Word, now: Word) {
    match r.kind
    case NonImp => now == r.value
    case PmpCfg =>
      if op == Read then now == r.value
      else exists raw: Word :: WordLaw(regs, r, op, data, raw) && MadeLegal(raw, now, ReadAt(regs, MSECCFG)[MML])
    case _ => WordLaw(regs, r, op, data, now)
  }

  /** The one register at the address obeys its law; everything else stays. */
  ghost predicate Transacted(regs: seq<Register>, regs': seq<Register>, op: Op, addr: nat, data: Word) {
    && |regs'| == |regs|
    && forall k :: 0 <= k < |regs| ==>
         && regs'[k].addr == regs[k].addr && regs'[k].kind == regs[k].kind
         && if regs[k].addr == addr then RegisterLaw(regs, regs[k], op, data, regs'[k].value) else regs'[k] == regs[k]
  }

  lemma MaskedLaw(regs: seq<Register>, r: Register, op: Op, data: Word)
    ensures WordLaw(regs, r, op, data, Masked(regs, r, op, data))
  {
    hide LockBit;
  }

  lemma LegalLaw(raw: Word, mml: bool)
    ensures MadeLegal(raw, Legal(raw, mml), mml)
  {
    forall byte, b | 0 <= byte < 4 && 0 <= b < 8 ensures MadeLegalBit(raw, Legal(raw, mml), mml, byte, b) {
      BytePosition(byte, b);
    }
  }

  lemma AfterLaw(regs: seq<Register>, r: Register, op: Op, data: Word)
    ensures RegisterLaw(regs, r, op, data, After(regs, r, op, data))
  {
    hide LockBit, ReadAt, Masked, WordLaw, MadeLegal, Legal;
    MaskedLaw(regs, r, op, data);
    if op == Read && !r.kind.NonImp? && !r.kind.PmpCfg? { ReadLaw(regs, r, data); }
    LegalLaw(Masked(regs, r, op, data), ReadAt(regs, MSECCFG)[MML]);
  }

  lemma ReadLaw(regs: seq<Register>, r: Register, data: Word)
    ensures WordLaw(regs, r, Read, data, r.value)
  {
    hide LockBit;
  }

  lemma TransactionLaw(regs: seq<Register>, op: Op, addr: nat, data: Word)
    ensures Transacted(regs, Applied(regs, op, addr, data), op, addr, data)
  {
    hide After, RegisterLaw;
    forall k | 0 <= k < |regs| ensures RegisterLaw(regs, regs[k], op, data, After(regs, regs[k], op, data)) {
      AfterLaw(regs, regs[k], op, data);
    }
  }

  // ------------------------------------------------------ which bits are open

  /** Plain counters take what is written; a register with fixed bits takes the others. */
  lemma CounterWritten(regs: seq<Register>, k: nat, data: Word)
    requires k < |regs| && (regs[k].kind.Plain? || regs[k].kind.Warl?)
    ensures forall j :: 0 <= j < 32 ==>
              Applied(regs, Write, regs[k].addr, data)[k].value[j]
              == if regs[k].kind.Warl? && regs[k].kind.mask[j] then regs[k].value[j] else data[j]
  {
    hide ReadAt;
  }

  /** A write to mseccfg: MML and MMWP only rise, RLB can be set unless it is clear while some region is locked, and
      no other bit changes. */
  lemma SeccfgWritten(p: Params, regs: seq<Register>, data: Word)
    requires Layout(p, regs)
    ensures var regs' := Applied(regs, Write, MSECCFG, data);
            && Mml(regs') == (Mml(regs) || data[0]) && Mmwp(regs') == (Mmwp(regs) || data[1])
            && Rlb(regs') == (data[2] && (Rlb(regs) || !exists region :: 0 <= region < 16 && CfgBit(regs, region, 7)))
            && forall j :: 3 <= j < 32 ==> regs'[0].value[j] == regs[0].value[j]
  {
    hide IsLockedCfg, CfgPlaced, AddrPlaced, KindPlaced, Distinct, CfgBit, AnyLocked;
    LockedSomewhere(p, regs);
  }

  lemma LockedSomewhere(p: Params, regs: seq<Register>)
    requires Layout(p, regs)
    ensures AnyLocked(regs) <==> exists region :: 0 <= region < 16 && CfgBit(regs, region, 7)
  {
    hide Distinct, AddrPlaced;
    if AnyLocked(regs) {
      var k :| 0 <= k < |regs| && IsLockedCfg(regs[k]);
      assert KindPlaced(regs[k], k);
      var v := ReadReg(regs[k]);
      var byte := if v[7] then 0 else if v[15] then 1 else if v[23] then 2 else 3;
      var region := (k - 2) * 4 + byte;
      assert region / 4 == k - 2 && region % 4 == byte;
      assert CfgBit(regs, region, 7);
    }
    if region :| 0 <= region < 16 && CfgBit(regs, region, 7) {
      assert CfgPlaced(p, regs, region / 4);
      var byte := region % 4;
      assert byte == 0 || byte == 1 || byte == 2 || byte == 3;
      assert IsLockedCfg(regs[2 + region / 4]);
    }
  }

  /** The configuration of an implemented region can be changed by some write if and only if the region is not
      locked, or RLB is set. */
  lemma CfgOpenExactly(p: Params, regs: seq<Register>, region: nat)
    requires Inv(p, regs) && region < 16 && p.pmpEnable && region / 4 < p.pmpNumRegions / 4
    ensures (exists op: Op, data: Word, b :: 0 <= b < 8 && CfgChanged(regs, region, op, data, b))
            <==> !Locked(regs, region)
  {
    hide Distinct, AddrPlaced, KindPlaced, CfgLegal, LegalBit, Rlb;
    if Locked(regs, region) {
      forall op: Op, data: Word, b | 0 <= b < 8 ensures !CfgChanged(regs, region, op, data, b) {
        CfgByteStays(p, regs, op, PMPCFG0 + region / 4, data, region, b);
      }
    } else {
      var data := Not(ReadReg(regs[2 + region / 4]));
      OpenByte(p, regs, region, data);
      assert CfgChanged(regs, region, Write, data, 0);
    }
  }

  predicate CfgChanged(regs: seq<Register>, region: nat, op: Op, data: Word, b: nat)
    requires |regs| >= 22 && region < 16 && b < 8
  {
    CfgBit(Applied(regs, op, PMPCFG0 + region / 4, data), region, b) != CfgBit(regs, region, b)
  }

  lemma OpenByte(p: Params, regs: seq<Register>, region: nat, data: Word)
    requires Layout(p, regs) && region < 16 && p.pmpEnable && region / 4 < p.pmpNumRegions / 4
    requires !Locked(regs, region)
    ensures CfgBit(Applied(regs, Write, PMPCFG0 + region / 4, data), region, 0) == data[region % 4 * 8]
  {
    hide Distinct, AddrPlaced, KindPlaced;
    SeccfgRead(p, regs);
    var k := 2 + region / 4;
    assert CfgPlaced(p, regs, region / 4);
    BytePosition(region % 4, 0);
    hide ReadAt;
    assert !LockBit(regs, regs[k], region % 4 * 8);
  }
}
