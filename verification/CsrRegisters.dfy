/**
  The reference model of the CSRs: registers in one list, whose lock masks depend on each other.
  Bit j of a word is its element j.
 */
module CsrRegisters {
  function ZeroWord(): seq<bool> {
    seq(32, j => false)
  }

  type Word = w: seq<bool> | |w| == 32 witness ZeroWord()

  const ZERO: Word := ZeroWord()

  // mseccfg
  const MML := 0
  const MMWP := 1
  const RLB := 2

  const MSECCFG := 0x747
  const MSECCFGH := 0x757
  const PMPCFG0 := 0x3A0
  const PMPADDR0 := 0x3B0
  const MCYCLE := 0xB00
  const MCYCLEH := 0xB80

  datatype Kind = Plain | Seccfg | PmpCfg | PmpAddr | NonImp | Warl(mask: Word, reset: Word)

  datatype Register = Register(addr: nat, kind: Kind, value: Word)

  datatype Op = Read | Write | Set | Clear

  function Or(a: Word, b: Word): (r: Word) { seq(32, j requires 0 <= j < 32 => a[j] || b[j]) }

  function And(a: Word, b: Word): (r: Word) { seq(32, j requires 0 <= j < 32 => a[j] && b[j]) }

  function Not(a: Word): (r: Word) { seq(32, j requires 0 <= j < 32 => !a[j]) }

  /** The word whose bit j is f(j). */
  function Mask(f: nat -> bool): (r: Word) { seq(32, j requires 0 <= j < 32 => f(j)) }

  // ------------------------------------------------------------ the registers

  predicate Distinct(regs: seq<Register>) {
    forall i, j :: 0 <= i < j < |regs| ==> regs[i].addr != regs[j].addr
  }

  function ReadReg(r: Register): Word {
    if r.kind.NonImp? then ZERO else r.value
  }

  /** What is read at an address; zero if there is nothing. */
  function ReadAt(regs: seq<Register>, addr: nat): Word {
    if regs == [] then ZERO
    else if regs[|regs| - 1].addr == addr then ReadReg(regs[|regs| - 1])
    else ReadAt(regs[..|regs| - 1], addr)
  }

  lemma {:induction false} ReadAtIs(regs: seq<Register>, k: nat)
    requires k < |regs| && Distinct(regs)
    ensures ReadAt(regs, regs[k].addr) == ReadReg(regs[k])
  {
    if k < |regs| - 1 {
      assert regs[k].addr != regs[|regs| - 1].addr;
      ReadAtIs(regs[..|regs| - 1], k);
    }
  }

  predicate LockBitSet(v: Word) {
    v[7] || v[15] || v[23] || v[31]
  }

  /** Some implemented PMP configuration register has a lock bit set. */
  predicate AnyLocked(regs: seq<Register>) {
    exists k :: 0 <= k < |regs| && IsLockedCfg(regs[k])
  }

  predicate IsLockedCfg(r: Register) {
    PMPCFG0 <= r.addr < PMPCFG0 + 4 && LockBitSet(ReadReg(r))
  }

  predicate SeccfgLock(regs: seq<Register>, v: Word, j: nat)
    requires j < 32
  {
    j > 2 || (j == RLB && AnyLocked(regs) && !v[RLB]) || (j == MMWP && v[MMWP]) || (j == MML && v[MML])
  }

  predicate CfgLock(regs: seq<Register>, v: Word, j: nat)
    requires j < 32
  {
    !ReadAt(regs, MSECCFG)[RLB] && v[j / 8 * 8 + 7]
  }

  /** The address of a region is frozen by the lock bit of the region, or by the next region being of type
      top-of-range, locked or not. */
  predicate AddrLock(regs: seq<Register>, region: nat)
    requires region < 16
  {
    var cfg, next := ReadAt(regs, PMPCFG0 + region / 4), ReadAt(regs, PMPCFG0 + (region + 1) / 4);
    cfg[region % 4 * 8 + 7] || (next[(region + 1) % 4 * 8 + 3] && !next[(region + 1) % 4 * 8 + 4])
  }

  /** The bits of register r that keep their value. */
  predicate LockBit(regs: seq<Register>, r: Register, j: nat)
    requires j < 32
  {
    match r.kind
    case Plain => false
    case Seccfg => SeccfgLock(regs, r.value, j)
    case PmpCfg => CfgLock(regs, r.value, j)
    case PmpAddr => AddrLock(regs, r.addr % 16)
    case NonImp => false
    case Warl(mask, _) => mask[j]
  }

  /** Bit j after an operation on a register with the given lock. */
  predicate OpBit(op: Op, old_: bool, data: bool, lock: bool) {
    match op
    case Read => old_
    case Write => if lock then old_ else data
    case Set => old_ || (data && !lock)
    case Clear => old_ && (!data || lock)
  }

  /** Bit j of a configuration word made legal: two bits of each byte read as zero, and unless MML is set
      writable without readable becomes neither. */
  predicate LegalBit(v: Word, mml: bool, j: nat)
    requires j < 32
  {
    v[j] && j % 8 != 5 && j % 8 != 6 && (mml || j % 8 != 1 || v[j - 1])
  }

  function Legal(v: Word, mml: bool): (r: Word) {
    seq(32, j requires 0 <= j < 32 => LegalBit(v, mml, j))
  }

  function Masked(regs: seq<Register>, r: Register, op: Op, data: Word): (v: Word) {
    seq(32, j requires 0 <= j < 32 => OpBit(op, r.value[j], data[j], LockBit(regs, r, j)))
  }

  /** The value of register r after an operation. */
  function After(regs: seq<Register>, r: Register, op: Op, data: Word): (v: Word) {
    if op.Read? || r.kind.NonImp? then r.value
    else if r.kind.PmpCfg? then Legal(Masked(regs, r, op, data), ReadAt(regs, MSECCFG)[MML])
    else Masked(regs, r, op, data)
  }

  /** The registers after a transaction. */
  function Applied(regs: seq<Register>, op: Op, addr: nat, data: Word): (r: seq<Register>)
    ensures |r| == |regs|
  {
    seq(|regs|, k requires 0 <= k < |regs| =>
      if regs[k].addr == addr then Register(addr, regs[k].kind, After(regs, regs[k], op, data)) else regs[k])
  }

  function ResetReg(r: Register): Register {
    Register(r.addr, r.kind, if r.kind.Warl? then r.kind.reset else ZERO)
  }

  function Reset(regs: seq<Register>): (r: seq<Register>)
    ensures |r| == |regs|
  {
    seq(|regs|, k requires 0 <= k < |regs| => ResetReg(regs[k]))
  }

  // -------------------------------------------------------------- the layout

  datatype Params = Params(pmpEnable: bool, pmpNumRegions: nat, counters: nat, counterWidth: nat)

  /** Where the registers that matter for protection are. */
  predicate Layout(p: Params, regs: seq<Register>) {
    && |regs| >= 22 && Distinct(regs)
    && regs[0].addr == MSECCFG && regs[0].kind == Seccfg
    && regs[1].addr == MSECCFGH && regs[1].kind == NonImp
    && (forall i :: 0 <= i < 4 ==> CfgPlaced(p, regs, i))
    && (forall i :: 0 <= i < 16 ==> AddrPlaced(p, regs, i))
    && (forall k :: 0 <= k < |regs| ==> KindPlaced(regs[k], k))
  }

  predicate CfgPlaced(p: Params, regs: seq<Register>, i: nat)
    requires i < 4 && |regs| >= 22
  {
    regs[2 + i].addr == PMPCFG0 + i
    && regs[2 + i].kind == if p.pmpEnable && i < p.pmpNumRegions / 4 then PmpCfg else NonImp
  }

  predicate AddrPlaced(p: Params, regs: seq<Register>, i: nat)
    requires i < 16 && |regs| >= 22
  {
    regs[6 + i].addr == PMPADDR0 + i
    && regs[6 + i].kind == if p.pmpEnable && i < p.pmpNumRegions then PmpAddr else NonImp
  }

  predicate KindPlaced(r: Register, k: nat) {
    && (r.kind.Seccfg? ==> k == 0)
    && (r.kind.PmpCfg? ==> 2 <= k < 6)
    && (r.kind.PmpAddr? ==> 6 <= k < 22)
    && (PMPCFG0 <= r.addr < PMPCFG0 + 4 ==> 2 <= k < 6)
  }

  lemma LayoutKept(p: Params, regs: seq<Register>, regs': seq<Register>)
    requires Layout(p, regs) && |regs'| == |regs|
    requires forall k :: 0 <= k < |regs| ==> regs'[k].addr == regs[k].addr && regs'[k].kind == regs[k].kind
    ensures Layout(p, regs')
  {
    forall i | 0 <= i < 4 ensures CfgPlaced(p, regs', i) { assert CfgPlaced(p, regs, i); }
    forall i | 0 <= i < 16 ensures AddrPlaced(p, regs', i) { assert AddrPlaced(p, regs, i); }
    forall k | 0 <= k < |regs'| ensures KindPlaced(regs'[k], k) { assert KindPlaced(regs[k], k); }
  }
}
