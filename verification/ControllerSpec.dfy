/**
  The core's main state machine, signal by signal, and the register that holds the instruction it
  controls.
 */
module ControllerSpec {
  datatype Fsm =
    | RESET | BOOT_SET | WAIT_SLEEP | SLEEP | FIRST_FETCH | DECODE | FLUSH | IRQ_TAKEN | DBG_TAKEN_IF | DBG_TAKEN_ID

  datatype Config = Config(writebackStage: bool, branchPredictor: bool)

  /** The flip-flops of the controller. */
  datatype Regs = Regs(
    fsm: Fsm, nmiMode: bool, doSingleStep: bool, debugMode: bool, enterDebugModePrio: bool,
    loadErr: bool, storeErr: bool, excReq: bool, illegalInsn: bool)

  /** What the decoder says about an instruction. */
  datatype Instr = Instr(ecall: bool, mret: bool, dret: bool, wfi: bool, ebrk: bool, csrFlush: bool, fetchErr: bool,
      illegal: bool)

  /** The pipeline register between fetch and decode. */
  datatype IdStage = IdStage(valid: bool, instr: Instr)

  datatype Privilege = Machine | User | OtherLevel

  datatype Irqs = Irqs(fast: seq<bool>, external: bool, software: bool, timer: bool)

  datatype Inputs = Inputs(
    readyWb: bool, loadErr: bool, storeErr: bool, stallId: bool, stallWb: bool, instrExec: bool,
    debugReq: bool, debugSingleStep: bool, debugEbreakm: bool, debugEbreaku: bool, triggerMatch: bool,
    irqNmExt: bool, irqNmInt: bool, irqPending: bool, irqs: Irqs, mie: bool, priv: Privilege,
    branchSet: bool, jumpSet: bool, bpTaken: bool, fetchValid: bool, fetched: Instr)

  datatype Cause =
    | NoCause | IrqNm | IrqInternal | IrqFast(id: nat) | IrqExternal | IrqSoftware | IrqTimer
    | InstrAccessFault | IllegalInsn | EcallMMode | EcallUMode | Breakpoint | StoreAccessFault | LoadAccessFault

  /** The controller's outputs that the rest of this model looks at. */
  datatype Outputs = Outputs(
    pcSet: bool, haltIf: bool, retainId: bool, flushId: bool, idInReady: bool, instrValidClear: bool,
    csrSaveIf: bool, csrSaveId: bool, csrSaveWb: bool, csrSaveCause: bool, debugCsrSave: bool,
    csrRestoreMret: bool, csrRestoreDret: bool, excCause: Cause)

  /** Which exception has priority; one wire for each. */
  datatype Prios = Prios(fetchErr: bool, illegal: bool, ecall: bool, ebrk: bool, store: bool, load: bool)

  function Count(p: Prios): nat {
    (if p.fetchErr then 1 else 0) + (if p.illegal then 1 else 0) + (if p.ecall then 1 else 0)
    + (if p.ebrk then 1 else 0) + (if p.store then 1 else 0) + (if p.load then 1 else 0)
  }

  const NO_PRIOS := Prios(false, false, false, false, false, false)

  // ------------------------------------------------------------- requests

  predicate IdException(id: IdStage) {
    id.valid && (id.instr.ecall || id.instr.ebrk || id.instr.illegal || id.instr.fetchErr)
  }

  predicate IllegalNow(r: Regs, id: IdStage) {
    id.valid && id.instr.illegal && r.fsm != FLUSH
  }

  predicate ExcReqNow(r: Regs, id: IdStage) {
    IdException(id) && r.fsm != FLUSH
  }

  predicate SpecialReq(r: Regs, id: IdStage, i: Inputs) {
    || (id.valid && (id.instr.mret || id.instr.dret || id.instr.wfi || id.instr.csrFlush))
    || ExcReqNow(r, id) || i.storeErr || i.loadErr
  }

  predicate WbException(c: Config, r: Regs, i: Inputs) {
    c.writebackStage && (r.loadErr || r.storeErr || i.loadErr || i.storeErr)
  }

  predicate SingleStepNow(r: Regs, id: IdStage, i: Inputs) {
    if id.valid then !r.debugMode && i.debugSingleStep else r.doSingleStep
  }

  predicate EnterDebugPrioNow(r: Regs, id: IdStage, i: Inputs) {
    (i.debugReq || SingleStepNow(r, id, i)) && !r.debugMode
  }

  predicate EnterDebugMode(r: Regs, id: IdStage, i: Inputs) {
    EnterDebugPrioNow(r, id, i) || (i.triggerMatch && !r.debugMode)
  }

  predicate EbreakIntoDebug(i: Inputs) {
    match i.priv case Machine => i.debugEbreakm case User => i.debugEbreaku case OtherLevel => false
  }

  predicate IrqNmNow(i: Inputs) {
    i.irqNmExt || i.irqNmInt
  }

  predicate HandleIrq(r: Regs, i: Inputs) {
    && !r.debugMode && !i.debugSingleStep && !r.nmiMode
    && (IrqNmNow(i) || (i.irqPending && (i.mie || i.priv == User)))
  }

  predicate Stall(i: Inputs) {
    i.stallId || i.stallWb
  }

  /** An instruction in decode or writeback has yet to complete. */
  predicate Pending(id: IdStage, i: Inputs) {
    id.valid || !i.readyWb
  }

  /** An exception or error is being handled in FLUSH. */
  predicate Excepting(r: Regs) {
    r.excReq || r.storeErr || r.loadErr
  }

  // ------------------------------------------------------------- priorities

  /** With a writeback stage its errors come first, as they belong to an older instruction. */
  function Priorities(c: Config, r: Regs, id: IdStage): Prios {
    var f, e, b := id.valid && id.instr.fetchErr, id.valid && id.instr.ecall, id.valid && id.instr.ebrk;
    if c.writebackStage && r.storeErr then NO_PRIOS.(store := true)
    else if c.writebackStage && r.loadErr then NO_PRIOS.(load := true)
    else if f then NO_PRIOS.(fetchErr := true)
    else if r.illegalInsn then NO_PRIOS.(illegal := true)
    else if e then NO_PRIOS.(ecall := true)
    else if b then NO_PRIOS.(ebrk := true)
    else if r.storeErr then NO_PRIOS.(store := true)
    else if r.loadErr then NO_PRIOS.(load := true)
    else NO_PRIOS
  }

  predicate EbreakToDebug(c: Config, r: Regs, id: IdStage, i: Inputs) {
    Excepting(r) && Priorities(c, r, id).ebrk && (r.debugMode || EbreakIntoDebug(i))
  }

  // ----------------------------------------------------------- next states

  predicate DecodeIdle(r: Regs, id: IdStage, i: Inputs) {
    !Stall(i) && !SpecialReq(r, id, i) && !Pending(id, i)
  }

  function NextFsm(c: Config, r: Regs, id: IdStage, i: Inputs): Fsm {
    match r.fsm
    case RESET => BOOT_SET
    case BOOT_SET => FIRST_FETCH
    case WAIT_SLEEP => SLEEP
    case SLEEP =>
      if IrqNmNow(i) || i.irqPending || i.debugReq || r.debugMode || i.debugSingleStep then FIRST_FETCH else SLEEP
    case FIRST_FETCH =>
      if EnterDebugMode(r, id, i) then DBG_TAKEN_IF
      else if HandleIrq(r, i) then IRQ_TAKEN
      else if !Stall(i) && i.instrExec then DECODE
      else FIRST_FETCH
    case DECODE =>
      if SpecialReq(r, id, i) then (if i.readyWb || WbException(c, r, i) then FLUSH else DECODE)
      else if DecodeIdle(r, id, i) && EnterDebugMode(r, id, i) then DBG_TAKEN_IF
      else if DecodeIdle(r, id, i) && HandleIrq(r, i) then IRQ_TAKEN
      else DECODE
    case FLUSH =>
      if r.enterDebugModePrio && !(Priorities(c, r, id).ebrk && EbreakIntoDebug(i)) then DBG_TAKEN_IF
      else if EbreakToDebug(c, r, id, i) then DBG_TAKEN_ID
      else if !Excepting(r) && id.valid && !id.instr.mret && !id.instr.dret && id.instr.wfi then WAIT_SLEEP
      else DECODE
    case IRQ_TAKEN => DECODE
    case DBG_TAKEN_IF => DECODE
    case DBG_TAKEN_ID => DECODE
  }

  /** FLUSH executes the instruction that was held for it. */
  predicate Mret(r: Regs, id: IdStage) {
    r.fsm == FLUSH && !Excepting(r) && id.valid && id.instr.mret
  }

  predicate Dret(r: Regs, id: IdStage) {
    r.fsm == FLUSH && !Excepting(r) && id.valid && !id.instr.mret && id.instr.dret
  }

  predicate NextDebugMode(r: Regs, id: IdStage) {
    if r.fsm == DBG_TAKEN_IF || r.fsm == DBG_TAKEN_ID then true
    else if Dret(r, id) then false
    else r.debugMode
  }

  predicate NextNmiMode(r: Regs, id: IdStage, i: Inputs) {
    if r.fsm == IRQ_TAKEN && HandleIrq(r, i) && IrqNmNow(i) then true
    else if Mret(r, id) then false
    else r.nmiMode
  }

  function NextRegs(c: Config, r: Regs, id: IdStage, i: Inputs): Regs {
    Regs(NextFsm(c, r, id, i), NextNmiMode(r, id, i), SingleStepNow(r, id, i), NextDebugMode(r, id),
         EnterDebugPrioNow(r, id, i), i.loadErr, i.storeErr, ExcReqNow(r, id), IllegalNow(r, id))
  }

  // ----------------------------------------------------------------- outputs

  predicate HaltIf(r: Regs, id: IdStage, i: Inputs) {
    || !i.instrExec || r.fsm == WAIT_SLEEP || r.fsm == SLEEP || r.fsm == FLUSH
    || ((r.fsm == FIRST_FETCH || r.fsm == DECODE) && (EnterDebugMode(r, id, i) || HandleIrq(r, i))
        && (r.fsm == FIRST_FETCH || Stall(i) || Pending(id, i) || DecodeIdle(r, id, i)))
  }

  predicate RetainId(r: Regs, id: IdStage, i: Inputs) {
    r.fsm == DECODE && SpecialReq(r, id, i)
  }

  predicate FlushId(c: Config, r: Regs, id: IdStage, i: Inputs) {
    || r.fsm == WAIT_SLEEP || r.fsm == SLEEP || r.fsm == DBG_TAKEN_IF || r.fsm == DBG_TAKEN_ID
    || (r.fsm == FLUSH && !EbreakToDebug(c, r, id, i))
  }

  predicate PcSet(c: Config, r: Regs, id: IdStage, i: Inputs) {
    match r.fsm
    case RESET => true
    case BOOT_SET => true
    case DECODE => (i.branchSet || i.jumpSet) && !(c.branchPredictor && i.bpTaken)
    case IRQ_TAKEN => HandleIrq(r, i)
    case DBG_TAKEN_IF => true
    case DBG_TAKEN_ID => true
    case FLUSH => if Excepting(r) then !EbreakToDebug(c, r, id, i) else Mret(r, id) || Dret(r, id)
    case _ => false
  }

  predicate IdInReady(r: Regs, id: IdStage, i: Inputs) {
    !Stall(i) && !HaltIf(r, id, i) && !RetainId(r, id, i)
  }

  predicate InstrValidClear(c: Config, r: Regs, id: IdStage, i: Inputs) {
    !(Stall(i) || RetainId(r, id, i)) || FlushId(c, r, id, i)
  }

  /** The debug CSRs are written. */
  predicate DebugCsrSave(r: Regs, i: Inputs) {
    r.fsm == DBG_TAKEN_IF || (r.fsm == DBG_TAKEN_ID && EbreakIntoDebug(i) && !r.debugMode)
  }

  /** A trap is taken in FLUSH. */
  predicate Traps(c: Config, r: Regs, id: IdStage, i: Inputs) {
    r.fsm == FLUSH && Excepting(r) && !EbreakToDebug(c, r, id, i)
  }

  predicate IsLowest(fast: seq<bool>, k: nat) {
    k < |fast| && k < 15 && fast[k] && forall j :: 0 <= j < k ==> !fast[j]
  }

  predicate NoFast(fast: seq<bool>) {
    forall j :: 0 <= j < |fast| && j < 15 ==> !fast[j]
  }

  /** The cause reported with a trap. */
  predicate RightCause(c: Config, r: Regs, id: IdStage, i: Inputs, cause: Cause) {
    var p := Priorities(c, r, id);
    match cause
    case NoCause =>
      (r.fsm != IRQ_TAKEN || !HandleIrq(r, i)) && (!Traps(c, r, id, i) || p == NO_PRIOS)
    case IrqNm => r.fsm == IRQ_TAKEN && HandleIrq(r, i) && i.irqNmExt
    case IrqInternal => r.fsm == IRQ_TAKEN && HandleIrq(r, i) && i.irqNmInt && !i.irqNmExt
    case IrqFast(k) => r.fsm == IRQ_TAKEN && HandleIrq(r, i) && !IrqNmNow(i) && IsLowest(i.irqs.fast, k)
    case IrqExternal => r.fsm == IRQ_TAKEN && HandleIrq(r, i) && !IrqNmNow(i) && NoFast(i.irqs.fast) && i.irqs.external
    case IrqSoftware =>
      r.fsm == IRQ_TAKEN && HandleIrq(r, i) && !IrqNmNow(i) && NoFast(i.irqs.fast) && !i.irqs.external
          && i.irqs.software
    case IrqTimer =>
      r.fsm == IRQ_TAKEN && HandleIrq(r, i) && !IrqNmNow(i) && NoFast(i.irqs.fast) && !i.irqs.external
          && !i.irqs.software
    case InstrAccessFault => Traps(c, r, id, i) && p.fetchErr
    case IllegalInsn => Traps(c, r, id, i) && p.illegal
    case EcallMMode => Traps(c, r, id, i) && p.ecall && i.priv == Machine
    case EcallUMode => Traps(c, r, id, i) && p.ecall && i.priv != Machine
    case Breakpoint => Traps(c, r, id, i) && p.ebrk
    case StoreAccessFault => Traps(c, r, id, i) && p.store
    case LoadAccessFault => Traps(c, r, id, i) && p.load
  }

  predicate CsrsDriven(c: Config, r: Regs, id: IdStage, i: Inputs, saveIf: bool, saveId: bool, saveWb: bool,
                       saveCause: bool, debugSave: bool) {
    && debugSave == DebugCsrSave(r, i)
    && saveIf == (r.fsm == DBG_TAKEN_IF || (r.fsm == IRQ_TAKEN && HandleIrq(r, i)))
    && saveId == ((r.fsm == DBG_TAKEN_ID && DebugCsrSave(r, i))
                  || (Traps(c, r, id, i) && c.writebackStage && !r.storeErr && !r.loadErr))
    && saveWb == (r.fsm == FLUSH && Excepting(r) && c.writebackStage && (r.storeErr || r.loadErr))
    && saveCause == (DebugCsrSave(r, i) || (r.fsm == IRQ_TAKEN && HandleIrq(r, i)) || Traps(c, r, id, i))
  }

  /** What the controller drives in a cycle. */
  predicate Drives(c: Config, r: Regs, id: IdStage, i: Inputs, o: Outputs) {
    && o.pcSet == PcSet(c, r, id, i) && o.haltIf == HaltIf(r, id, i) && o.retainId == RetainId(r, id, i)
    && o.flushId == FlushId(c, r, id, i) && o.idInReady == IdInReady(r, id, i)
    && o.instrValidClear == InstrValidClear(c, r, id, i)
    && CsrsDriven(c, r, id, i, o.csrSaveIf, o.csrSaveId, o.csrSaveWb, o.csrSaveCause, o.debugCsrSave)
    && o.csrRestoreMret == Mret(r, id) && o.csrRestoreDret == Dret(r, id)
    && RightCause(c, r, id, i, o.excCause)
  }

  // ------------------------------------------------------------- environment

  /** The fetch stage delivers into the register when it is ready and the PC is not redirected; otherwise
      the register keeps its instruction until it is cleared. */
  function NextId(c: Config, r: Regs, id: IdStage, i: Inputs): IdStage {
    if i.fetchValid && IdInReady(r, id, i) && !PcSet(c, r, id, i) then IdStage(true, i.fetched)
    else IdStage(id.valid && !InstrValidClear(c, r, id, i), id.instr)
  }
}
