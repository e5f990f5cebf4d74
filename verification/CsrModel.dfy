/**
  The register model as it runs: the list of registers is built once, and every transaction is offered to
  each register in turn.
 */
module CsrModel {
  import opened CsrRegisters
  import opened PmpLocking
  import opened CsrLaws

  // ------------------------------------------------------------ construction

  const REGISTERS := 114

  function CfgOrAddr(p: Params, implemented: bool, addr: nat, kind: Kind): Register {
    Register(addr, if p.pmpEnable && implemented then kind else NonImp, ZERO)
  }

  function CounterReg(p: Params, i: nat, addr: nat, mask: nat -> bool, reset: nat -> bool): Register {
    Register(addr, if i < p.counters + 3 then Warl(Mask(mask), Mask(reset)) else NonImp, ZERO)
  }

  /** Register number k of the list. */
  function BuiltAt(p: Params, k: nat): Register {
    if k == 0 then Register(MSECCFG, Seccfg, ZERO)
    else if k == 1 then Register(MSECCFGH, NonImp, ZERO)
    else if k < 6 then CfgOrAddr(p, k - 2 < p.pmpNumRegions / 4, PMPCFG0 + k - 2, PmpCfg)
    else if k < 22 then CfgOrAddr(p, k - 6 < p.pmpNumRegions, PMPADDR0 + k - 6, PmpAddr)
    else if k == 22 then Register(0x320, Warl(Mask((j: nat) => j == 1 || j >= 3 + p.counters), ZERO), ZERO)
    else if k < 52 then CounterReg(p, k - 20, 0x320 + k - 20, (j: nat) => true, (j: nat) => j + 3 == k - 20)
    else if k == 52 then Register(MCYCLE, Plain, ZERO)
    else if k == 53 then Register(0xB02, Plain, ZERO)
    else if k < 83 then CounterReg(p, k - 51, 0xB00 + k - 51, (j: nat) => j >= p.counterWidth, (j: nat) => false)
    else if k == 83 then Register(MCYCLEH, Plain, ZERO)
    else if k == 84 then Register(0xB82, Plain, ZERO)
    else CounterReg(p, k - 82, 0xB80 + k - 82, (j: nat) => j + 32 >= p.counterWidth, (j: nat) => false)
  }

  predicate BuiltUpTo(p: Params, regs: seq<Register>, n: nat) {
    |regs| == n && forall k :: 0 <= k < n ==> regs[k] == BuiltAt(p, k)
  }

  lemma BuiltDistinct(p: Params, i: nat, j: nat)
    requires i < j < REGISTERS
    ensures BuiltAt(p, i).addr != BuiltAt(p, j).addr
  {
  }

  /** The list as it is built has the layout that protection relies on, and meets its invariant. */
  lemma BuiltInv(p: Params, regs: seq<Register>)
    requires BuiltUpTo(p, regs, REGISTERS)
    ensures Inv(p, regs)
  {
    forall i, j | 0 <= i < j < |regs| ensures regs[i].addr != regs[j].addr { BuiltDistinct(p, i, j); }
    forall i | 0 <= i < 4 ensures CfgPlaced(p, regs, i) {}
    forall i | 0 <= i < 16 ensures AddrPlaced(p, regs, i) {}
    forall k | 0 <= k < |regs| ensures KindPlaced(regs[k], k) {}
    forall i | 0 <= i < 4 ensures CfgLegal(regs, i) { ZeroIsLegal(Mml(regs)); }
  }

  class RegisterModel {
    var regs: seq<Register>

    /** Builds all registers. */
    constructor (p: Params)
      ensures BuiltUpTo(p, regs, REGISTERS) && Inv(p, regs)
    {
      var rs: seq<Register> := [];
      rs := rs + [Register(MSECCFG, Seccfg, ZERO)];
      rs := rs + [Register(MSECCFGH, NonImp, ZERO)];
      for i := 0 to 4
        invariant BuiltUpTo(p, rs, 2 + i)
      {
        rs := rs + [Register(PMPCFG0 + i, if p.pmpEnable && i < p.pmpNumRegions / 4 then PmpCfg else NonImp, ZERO)];
      }
      for i := 0 to 16
        invariant BuiltUpTo(p, rs, 6 + i)
      {
        rs := rs + [Register(PMPADDR0 + i, if p.pmpEnable && i < p.pmpNumRegions then PmpAddr else NonImp, ZERO)];
      }
      rs := rs + [BuiltAt(p, 22)];
      for i := 3 to 32
        invariant BuiltUpTo(p, rs, 20 + i)
      {
        rs := rs + [CounterReg(p, i, 0x320 + i, (j: nat) => true, (j: nat) => j + 3 == i)];
        assert rs[20 + i] == BuiltAt(p, 20 + i);
      }
      rs := rs + [Register(MCYCLE, Plain, ZERO)];
      rs := rs + [Register(0xB02, Plain, ZERO)];
      for i := 3 to 32
        invariant BuiltUpTo(p, rs, 51 + i)
      {
        rs := rs + [CounterReg(p, i, 0xB00 + i, (j: nat) => j >= p.counterWidth, (j: nat) => false)];
      }
      rs := rs + [Register(MCYCLEH, Plain, ZERO)];
      rs := rs + [Register(0xB82, Plain, ZERO)];
      for i := 3 to 32
        invariant BuiltUpTo(p, rs, 82 + i)
      {
        rs := rs + [CounterReg(p, i, 0xB80 + i, (j: nat) => j + 32 >= p.counterWidth, (j: nat) => false)];
      }
      regs := rs;
      BuiltInv(p, rs);
    }

    // ---------------------------------------------------------- lock masks

    method AnyPmpCfgsLocked() returns (r: bool)
      ensures r == AnyLocked(regs)
    {
      for k := 0 to |regs|
        invariant forall i :: 0 <= i < k ==> !IsLockedCfg(regs[i])
      {
        if PMPCFG0 <= regs[k].addr < PMPCFG0 + 4 && LockBitSet(ReadReg(regs[k])) { return true; }
      }
      r := false;
    }

    method ReadFromMap(addr: nat) returns (v: Word)
      ensures v == ReadAt(regs, addr)
    {
      v := ZERO;
      for k := 0 to |regs|
        invariant v == ReadAt(regs[..k], addr)
      {
        assert regs[..k + 1][..k] == regs[..k];
        if regs[k].addr == addr { v := ReadReg(regs[k]); }
      }
      assert regs[..|regs|] == regs;
    }

    /** The lock mask of a register. */
    method GetLockMask(r: Register) returns (mask: Word)
      ensures forall j :: 0 <= j < 32 ==> mask[j] == LockBit(regs, r, j)
    {
      match r.kind
      case Plain => mask := ZERO;
      case NonImp => mask := ZERO;
      case Warl(m, _) => mask := m;
      case Seccfg =>
        var locked := AnyPmpCfgsLocked();
        mask := Mask((j: nat) => j > 2);
        if locked && !r.value[RLB] { mask := Or(mask, Mask((j: nat) => j == RLB)); }
        if r.value[MMWP] { mask := Or(mask, Mask((j: nat) => j == MMWP)); }
        if r.value[MML] { mask := Or(mask, Mask((j: nat) => j == MML)); }
      case PmpCfg =>
        var seccfg := ReadFromMap(MSECCFG);
        mask := ZERO;
        if !seccfg[RLB] {
          if r.value[7] { mask := Or(mask, Mask((j: nat) => j / 8 == 0)); }
          if r.value[15] { mask := Or(mask, Mask((j: nat) => j / 8 == 1)); }
          if r.value[23] { mask := Or(mask, Mask((j: nat) => j / 8 == 2)); }
          if r.value[31] { mask := Or(mask, Mask((j: nat) => j / 8 == 3)); }
        }
      case PmpAddr =>
        var region := r.addr % 16;
        var cfg := ReadFromMap(PMPCFG0 + region / 4);
        var next := ReadFromMap(PMPCFG0 + (region + 1) / 4);
        if cfg[region % 4 * 8 + 7] || (next[(region + 1) % 4 * 8 + 3] && !next[(region + 1) % 4 * 8 + 4]) {
          mask := Not(ZERO);
        } else {
          mask := ZERO;
        }
    }

    /** Makes a configuration word legal. */
    method HandleReservedVals(cfg: Word) returns (v: Word)
      ensures v == Legal(cfg, ReadAt(regs, MSECCFG)[MML])
    {
      var seccfg := ReadFromMap(MSECCFG);
      v := And(cfg, Mask((j: nat) => j % 8 != 5 && j % 8 != 6));
      if seccfg[MML] {
        assert v == Legal(cfg, true);
        return;
      }
      for i := 0 to 4
        invariant forall j :: 0 <= j < 32 ==>
          v[j] == if j / 8 < i then LegalBit(cfg, false, j) else LegalBit(cfg, true, j)
      {
        BytePosition(i, 0);
        BytePosition(i, 1);
        if v[8 * i + 1] && !v[8 * i] {
          v := And(v, Not(Mask((j: nat) => j == 8 * i || j == 8 * i + 1)));
        }
      }
      assert v == Legal(cfg, false);
    }

    /** The value of register r after an operation, and what a read of it returns. */
    method Operate(r: Register, op: Op, data: Word) returns (value: Word, read: Word)
      ensures value == After(regs, r, op, data) && read == ReadReg(r)
      ensures RegisterLaw(regs, r, op, data, value)
    {
      hide RegisterLaw;
      AfterLaw(regs, r, op, data);
      value, read := r.value, ReadReg(r);
      if op.Read? || r.kind.NonImp? { return; }
      var mask := GetLockMask(r);
      match op {
        case Write => value := Or(And(r.value, mask), And(data, Not(mask)));
        case Set => value := Or(r.value, And(data, Not(mask)));
        case Clear => value := And(r.value, Or(Not(data), mask));
      }
      assert value == Masked(regs, r, op, data);
      if r.kind.PmpCfg? { value := HandleReservedVals(value); }
    }

    // ------------------------------------------------------- transactions

    /** Whether the testbench must stop: the value read is not the one expected (the cycle counter may run
        ahead), or nothing is at the address and no error was signalled. */
    predicate MustStop(rs: seq<Register>, addr: nat, rdata: Word, illegalCsr: bool) {
      if exists k :: 0 <= k < |rs| && rs[k].addr == addr
      then addr != MCYCLE && addr != MCYCLEH && ReadAt(rs, addr) != rdata
      else !illegalCsr
    }

    method NewTransaction(op: Op, addr: nat, rdata: Word, wdata: Word, illegalCsr: bool) returns (stop: bool)
      requires Distinct(regs)
      modifies this
      ensures regs == Applied(old(regs), op, addr, wdata)
      ensures Transacted(old(regs), regs, op, addr, wdata)
      ensures stop == MustStop(old(regs), addr, rdata, illegalCsr)
    {
      hide RegisterLaw;
      TransactionLaw(regs, op, addr, wdata);
      var matched := false;
      stop := false;
      var k := 0;
      while k < |regs|
        invariant 0 <= k <= |regs| == |old(regs)|
        invariant matched <==> exists i :: 0 <= i < k && old(regs)[i].addr == addr
        invariant !matched ==> regs == old(regs) && !stop
        invariant matched ==> regs == Applied(old(regs), op, addr, wdata)
        invariant matched ==> stop == (addr != MCYCLE && addr != MCYCLEH && ReadAt(old(regs), addr) != rdata)
      {
        if regs[k].addr == addr {
          FirstMatch(old(regs), k, addr);
          ReadAtIs(old(regs), k);
          var value, read := Operate(regs[k], op, wdata);
          regs := regs[k := Register(addr, regs[k].kind, value)];
          matched := true;
          stop := addr != MCYCLE && addr != MCYCLEH && read != rdata;
          assert regs == Applied(old(regs), op, addr, wdata);
        }
        k := k + 1;
      }
      if !matched {
        stop := !illegalCsr;
        assert regs == Applied(old(regs), op, addr, wdata);
      }
    }

    lemma FirstMatch(rs: seq<Register>, k: nat, addr: nat)
      requires Distinct(rs) && k < |rs| && rs[k].addr == addr
      ensures forall i :: 0 <= i < |rs| && i != k ==> rs[i].addr != addr
    {
    }

    method RegisterReset()
      modifies this
      ensures regs == Reset(old(regs))
    {
      hide ResetReg;
      var k := 0;
      while k < |regs|
        invariant 0 <= k <= |regs| == |old(regs)|
        invariant forall i :: 0 <= i < k ==> regs[i] == ResetReg(old(regs)[i])
        invariant forall i :: k <= i < |regs| ==> regs[i] == old(regs)[i]
      {
        regs := regs[k := ResetReg(regs[k])];
        k := k + 1;
      }
    }
  }
}
