/**
  The controller as it is clocked: defaults, then overrides by state.
 */
module Controller {
  import opened ControllerSpec

  /** The combinational results of one state. */
  datatype Comb = Comb(
    next: Fsm, pcSet: bool, haltIf: bool, retainId: bool, flushId: bool, csrSaveIf: bool, csrSaveId: bool,
        csrSaveWb: bool,
    csrSaveCause: bool, debugCsrSave: bool, restoreMret: bool, restoreDret: bool, debugModeD: bool, nmiModeD: bool,
    cause: Cause)

  /** The requests that the state machine looks at. */
  datatype Requests = Requests(specialReq: bool, idWbPending: bool, enterDebugMode: bool, handleIrq: bool, stall: bool)

  lemma RequestsMean(r: Regs, id: IdStage, i: Inputs)
    ensures var d := RequestsOf(r, id, i);
            && d.specialReq == SpecialReq(r, id, i) && d.idWbPending == Pending(id, i)
            && d.enterDebugMode == EnterDebugMode(r, id, i) && d.handleIrq == HandleIrq(r, i) && d.stall == Stall(i)
  {
  }

  /** The states that fetch or decode save nothing and change no mode. */
  lemma QuietState(c: Config, r: Regs, id: IdStage, i: Inputs)
    requires r.fsm == FIRST_FETCH || r.fsm == DECODE
    ensures RightCause(c, r, id, i, NoCause) && CsrsDriven(c, r, id, i, false, false, false, false, false)
    ensures !Mret(r, id) && !Dret(r, id) && NextDebugMode(r, id) == r.debugMode && NextNmiMode(r, id, i) == r.nmiMode
    ensures !FlushId(c, r, id, i)
  {
    hide Priorities, HandleIrq, EbreakIntoDebug, IrqNmNow;
  }

  lemma FlushFacts(c: Config, r: Regs, id: IdStage, i: Inputs)
    requires r.fsm == FLUSH
    ensures !Excepting(r) ==> RightCause(c, r, id, i, NoCause)
    ensures HaltIf(r, id, i) && !RetainId(r, id, i)
  {
    hide Priorities, HandleIrq, EbreakIntoDebug, IrqNmNow;
  }

  lemma ExceptionComb(c: Config, r: Regs, id: IdStage, i: Inputs, k: Comb, debugEntry: bool, toDebugIf: bool)
    requires r.fsm == FLUSH && Excepting(r) && debugEntry == EbreakToDebug(c, r, id, i)
    requires toDebugIf == (r.enterDebugModePrio && !(Priorities(c, r, id).ebrk && EbreakIntoDebug(i)))
    requires k == Comb(if toDebugIf then DBG_TAKEN_IF else if debugEntry then DBG_TAKEN_ID else DECODE,
                       !debugEntry, true, false, !debugEntry, false,
                       c.writebackStage && !(r.storeErr || r.loadErr) && !debugEntry,
                       c.writebackStage && (r.storeErr || r.loadErr), !debugEntry, false, false, false,
                       r.debugMode, r.nmiMode, k.cause)
    requires RightCause(c, r, id, i, k.cause)
    ensures CombOk(c, r, id, i, k)
  {
    hide Priorities, EbreakIntoDebug, RightCause, HandleIrq, SpecialReq, Pending, EnterDebugMode, DecodeIdle, Stall;
  }

  lemma SpecialComb(c: Config, r: Regs, id: IdStage, i: Inputs, k: Comb, sleep: bool, toDebugIf: bool)
    requires r.fsm == FLUSH && !Excepting(r)
    requires toDebugIf == (r.enterDebugModePrio && !(Priorities(c, r, id).ebrk && EbreakIntoDebug(i)))
    requires sleep == (id.valid && !id.instr.mret && !id.instr.dret && id.instr.wfi)
    requires k == Comb(if toDebugIf then DBG_TAKEN_IF else if sleep then WAIT_SLEEP else DECODE,
                       Mret(r, id) || Dret(r, id), true, false, true, false, false, false, false, false,
                       Mret(r, id), Dret(r, id), NextDebugMode(r, id), NextNmiMode(r, id, i), NoCause)
    ensures CombOk(c, r, id, i, k)
  {
    hide Priorities, EbreakIntoDebug, HandleIrq, SpecialReq, Pending, EnterDebugMode, DecodeIdle, Stall, NextDebugMode,
         NextNmiMode;
    FlushFacts(c, r, id, i);
  }

  lemma PrioritiesExclusive(c: Config, r: Regs, id: IdStage)
    ensures Count(Priorities(c, r, id)) <= 1
    ensures Priorities(c, r, id) == NO_PRIOS <==> Count(Priorities(c, r, id)) == 0
  {
  }

  function RequestsOf(r: Regs, id: IdStage, i: Inputs): Requests {
    Requests(SpecialReq(r, id, i), Pending(id, i), EnterDebugMode(r, id, i), HandleIrq(r, i), Stall(i))
  }

  /** All results of the state are as specified. */
  predicate CombOk(c: Config, r: Regs, id: IdStage, i: Inputs, k: Comb) {
    && k.next == NextFsm(c, r, id, i) && k.debugModeD == NextDebugMode(r, id) && k.nmiModeD == NextNmiMode(r, id, i)
    && k.pcSet == PcSet(c, r, id, i) && (k.haltIf || !i.instrExec) == HaltIf(r, id, i)
    && k.retainId == RetainId(r, id, i) && k.flushId == FlushId(c, r, id, i)
    && CsrsDriven(c, r, id, i, k.csrSaveIf, k.csrSaveId, k.csrSaveWb, k.csrSaveCause, k.debugCsrSave)
    && k.restoreMret == Mret(r, id) && k.restoreDret == Dret(r, id)
    && RightCause(c, r, id, i, k.cause)
  }

  lemma CombNext(c: Config, r: Regs, id: IdStage, i: Inputs, k: Comb)
    requires CombOk(c, r, id, i, k)
    ensures k.next == NextFsm(c, r, id, i) && k.debugModeD == NextDebugMode(r, id)
    ensures k.nmiModeD == NextNmiMode(r, id, i)
  {
    hide NextFsm, NextDebugMode, NextNmiMode, PcSet, HaltIf, RetainId, FlushId, CsrsDriven, Mret, Dret, RightCause;
  }

  lemma CombDrives(c: Config, r: Regs, id: IdStage, i: Inputs, k: Comb)
    requires CombOk(c, r, id, i, k)
    ensures var haltIf := k.haltIf || !i.instrExec;
            Drives(c, r, id, i, Outputs(
              k.pcSet, haltIf, k.retainId, k.flushId, !Stall(i) && !haltIf && !k.retainId,
              !(Stall(i) || k.retainId) || k.flushId, k.csrSaveIf, k.csrSaveId, k.csrSaveWb, k.csrSaveCause,
              k.debugCsrSave, k.restoreMret, k.restoreDret, k.cause))
  {
    hide NextFsm, NextDebugMode, NextNmiMode, PcSet, HaltIf, RetainId, FlushId, CsrsDriven, Mret, Dret, RightCause,
        Stall;
  }

  class Controller {
    const config: Config
    var ctrlFsm: Fsm
    var nmiMode: bool
    var doSingleStep: bool
    var debugMode: bool
    var enterDebugModePrio: bool
    var loadErr: bool
    var storeErr: bool
    var excReq: bool
    var illegalInsn: bool

    function State(): Regs
      reads this
    {
      Regs(ctrlFsm, nmiMode, doSingleStep, debugMode, enterDebugModePrio, loadErr, storeErr, excReq, illegalInsn)
    }

    constructor (config: Config)
      ensures this.config == config
      ensures State() == Regs(RESET, false, false, false, false, false, false, false, false)
    {
      this.config := config;
      ctrlFsm, nmiMode, doSingleStep, debugMode, enterDebugModePrio := RESET, false, false, false, false;
      loadErr, storeErr, excReq, illegalInsn := false, false, false, false;
    }

    /** The number of the fast interrupt to serve, found from the highest down. */
    method FastIrqId(fast: seq<bool>) returns (any: bool, id: nat)
      ensures any <==> !NoFast(fast)
      ensures any ==> IsLowest(fast, id)
    {
      any, id := false, 0;
      var i := if |fast| < 15 then |fast| else 15;
      while i > 0
        invariant 0 <= i <= |fast| && i <= 15
        invariant !any ==> forall j :: i <= j < |fast| && j < 15 ==> !fast[j]
        invariant any ==> i <= id < |fast| && id < 15 && fast[id] && forall j :: i <= j < id ==> !fast[j]
      {
        i := i - 1;
        if fast[i] { any, id := true, i; }
      }
    }

    /** Which exception has priority. */
    method PriorityLogic(r: Regs, id: IdStage) returns (p: Prios)
      ensures p == Priorities(config, r, id)
    {
      var instrFetchErr, ecall, ebrk := id.instr.fetchErr && id.valid, id.instr.ecall && id.valid,
          id.instr.ebrk && id.valid;
      p := NO_PRIOS;
      if config.writebackStage {
        if r.storeErr { p := p.(store := true); }
        else if r.loadErr { p := p.(load := true); }
        else if instrFetchErr { p := p.(fetchErr := true); }
        else if r.illegalInsn { p := p.(illegal := true); }
        else if ecall { p := p.(ecall := true); }
        else if ebrk { p := p.(ebrk := true); }
      } else {
        if instrFetchErr { p := p.(fetchErr := true); }
        else if r.illegalInsn { p := p.(illegal := true); }
        else if ecall { p := p.(ecall := true); }
        else if ebrk { p := p.(ebrk := true); }
        else if r.storeErr { p := p.(store := true); }
        else if r.loadErr { p := p.(load := true); }
      }
    }

    /** The cause of an interrupt that is taken. */
    method IrqCause(r: Regs, i: Inputs) returns (cause: Cause, enterNmi: bool)
      requires r.fsm == IRQ_TAKEN && HandleIrq(r, i)
      ensures forall id :: RightCause(config, r, id, i, cause)
      ensures enterNmi == IrqNmNow(i)
    {
      enterNmi := false;
      var anyFast, mfipId := FastIrqId(i.irqs.fast);
      if IrqNmNow(i) && !r.nmiMode {
        cause := if i.irqNmExt then IrqNm else IrqInternal;
        enterNmi := true;
      } else if anyFast {
        cause := IrqFast(mfipId);
      } else if i.irqs.external {
        cause := IrqExternal;
      } else if i.irqs.software {
        cause := IrqSoftware;
      } else {
        cause := IrqTimer;
      }
    }

    /** The state machine in FIRST_FETCH. */
    method FirstFetch(r: Regs, id: IdStage, i: Inputs, d: Requests) returns (k: Comb)
      requires r.fsm == FIRST_FETCH && d == RequestsOf(r, id, i)
      ensures CombOk(config, r, id, i, k)
    {
      hide RequestsOf, SpecialReq, Pending, EnterDebugMode, HandleIrq, Stall, Priorities, RightCause, CsrsDriven, Mret,
           Dret, NextDebugMode, NextNmiMode, FlushId, WbException;
      RequestsMean(r, id, i);
      QuietState(config, r, id, i);
      var next, haltIf := FIRST_FETCH, false;
      if d.handleIrq || d.enterDebugMode { haltIf := true; }
      if !d.stall && !(haltIf || !i.instrExec) { next := DECODE; }
      if d.handleIrq { next := IRQ_TAKEN; }
      if d.enterDebugMode { next := DBG_TAKEN_IF; }
      k := Comb(next, false, haltIf, false, false, false, false, false, false, false, false, false, r.debugMode,
          r.nmiMode, NoCause);
    }

    /** Jumps and branches set the PC unless the branch predictor has already done so. */
    method BranchPc(r: Regs, id: IdStage, i: Inputs) returns (pcSet: bool)
      requires r.fsm == DECODE
      ensures pcSet == PcSet(config, r, id, i)
    {
      pcSet := false;
      if i.branchSet || i.jumpSet {
        pcSet := if config.branchPredictor then !i.bpTaken else true;
      }
    }

    /** The state machine in DECODE. */
    method Decode(r: Regs, id: IdStage, i: Inputs, d: Requests) returns (k: Comb)
      requires r.fsm == DECODE && d == RequestsOf(r, id, i)
      ensures CombOk(config, r, id, i, k)
    {
      hide RequestsOf, SpecialReq, Pending, EnterDebugMode, HandleIrq, Stall, Priorities, RightCause, CsrsDriven, Mret,
           Dret, NextDebugMode, NextNmiMode, FlushId, WbException, PcSet;
      RequestsMean(r, id, i);
      QuietState(config, r, id, i);
      var next, haltIf, retainId := DECODE, false, false;
      var pcSet := BranchPc(r, id, i);
      if d.specialReq {
        retainId := true;
        if i.readyWb || WbException(config, r, i) { next := FLUSH; }
      }
      if (d.enterDebugMode || d.handleIrq) && (d.stall || d.idWbPending) { haltIf := true; }
      if !d.stall && !d.specialReq && !d.idWbPending {
        if d.enterDebugMode {
          next := DBG_TAKEN_IF;
          haltIf := true;
        } else if d.handleIrq {
          next := IRQ_TAKEN;
          haltIf := true;
        }
      }
      k := Comb(next, pcSet, haltIf, retainId, false, false, false, false, false, false, false, false, r.debugMode,
          r.nmiMode, NoCause);
    }

    /** What FLUSH does about an exception; debugEntry tells that an ebreak enters debug mode instead. */
    method FlushException(r: Regs, id: IdStage, i: Inputs) returns (debugEntry: bool, cause: Cause)
      requires r.fsm == FLUSH && Excepting(r)
      ensures debugEntry == EbreakToDebug(config, r, id, i)
      ensures RightCause(config, r, id, i, cause)
    {
      hide Priorities, EbreakIntoDebug, HandleIrq, NoFast, IsLowest;
      var prios := PriorityLogic(r, id);
      PrioritiesExclusive(config, r, id);
      debugEntry, cause := false, NoCause;
      if prios.fetchErr {
        cause := InstrAccessFault;
      } else if prios.illegal {
        cause := IllegalInsn;
      } else if prios.ecall {
        cause := if i.priv == Machine then EcallMMode else EcallUMode;
      } else if prios.ebrk {
        if r.debugMode || EbreakIntoDebug(i) { debugEntry := true; } else { cause := Breakpoint; }
      } else if prios.store {
        cause := StoreAccessFault;
      } else if prios.load {
        cause := LoadAccessFault;
      }
    }

    /** What FLUSH does for a special instruction. */
    method FlushSpecial(r: Regs, id: IdStage, i: Inputs)
      returns (sleep: bool, restoreMret: bool, restoreDret: bool, debugModeD: bool, nmiModeD: bool)
      requires r.fsm == FLUSH && !Excepting(r)
      ensures restoreMret == Mret(r, id) && restoreDret == Dret(r, id)
      ensures debugModeD == NextDebugMode(r, id) && nmiModeD == NextNmiMode(r, id, i)
      ensures sleep == (id.valid && !id.instr.mret && !id.instr.dret && id.instr.wfi)
    {
      hide HandleIrq, IrqNmNow;
      sleep, restoreMret, restoreDret, debugModeD, nmiModeD := false, false, false, r.debugMode, r.nmiMode;
      if id.instr.mret && id.valid {
        restoreMret := true;
        if r.nmiMode { nmiModeD := false; }
      } else if id.instr.dret && id.valid {
        debugModeD, restoreDret := false, true;
      } else if id.instr.wfi && id.valid {
        sleep := true;
      }
    }

    /** The state machine in FLUSH. */
    method Flush(r: Regs, id: IdStage, i: Inputs) returns (k: Comb)
      requires r.fsm == FLUSH
      ensures CombOk(config, r, id, i, k)
    {
      hide CombOk, Priorities, RightCause, EbreakIntoDebug, EbreakToDebug, Mret, Dret, NextDebugMode, NextNmiMode;
      var prios := PriorityLogic(r, id);
      var toDebugIf := r.enterDebugModePrio && !(prios.ebrk && EbreakIntoDebug(i));
      if r.excReq || r.storeErr || r.loadErr {
        var debugEntry, cause := FlushException(r, id, i);
        k := Comb(if toDebugIf then DBG_TAKEN_IF else if debugEntry then DBG_TAKEN_ID else DECODE,
                  !debugEntry, true, false, !debugEntry, false,
                  config.writebackStage && !(r.storeErr || r.loadErr) && !debugEntry,
                  config.writebackStage && (r.storeErr || r.loadErr), !debugEntry, false, false, false,
                  r.debugMode, r.nmiMode, cause);
        ExceptionComb(config, r, id, i, k, debugEntry, toDebugIf);
      } else {
        var sleep, restoreMret, restoreDret, debugModeD, nmiModeD := FlushSpecial(r, id, i);
        k := Comb(if toDebugIf then DBG_TAKEN_IF else if sleep then WAIT_SLEEP else DECODE,
                  restoreMret || restoreDret, true, false, true, false, false, false, false, false,
                  restoreMret, restoreDret, debugModeD, nmiModeD, NoCause);
        SpecialComb(config, r, id, i, k, sleep, toDebugIf);
      }
    }

    /** The state machine in IRQ_TAKEN. */
    method IrqTaken(r: Regs, id: IdStage, i: Inputs, d: Requests) returns (k: Comb)
      requires r.fsm == IRQ_TAKEN && d == RequestsOf(r, id, i)
      ensures CombOk(config, r, id, i, k)
    {
      hide RequestsOf, SpecialReq, Pending, EnterDebugMode, Stall, Priorities, NoFast, IsLowest;
      RequestsMean(r, id, i);
      var pcSet, csrSave, nmiModeD, cause := false, false, r.nmiMode, NoCause;
      if d.handleIrq {
        pcSet, csrSave := true, true;
        var enterNmi;
        cause, enterNmi := IrqCause(r, i);
        if enterNmi { nmiModeD := true; }
      }
      k := Comb(DECODE, pcSet, false, false, false, csrSave, false, false, csrSave, false, false, false, r.debugMode,
          nmiModeD, cause);
    }

    /** The states that do one thing. */
    method OneAction(r: Regs, id: IdStage, i: Inputs) returns (k: Comb)
      requires r.fsm !in {FIRST_FETCH, DECODE, FLUSH, IRQ_TAKEN}
      ensures CombOk(config, r, id, i, k)
    {
      hide RequestsOf, SpecialReq, Pending, EnterDebugMode, HandleIrq, Stall, Priorities, NoFast, IsLowest;
      var next, pcSet, haltIf, flushId := r.fsm, false, false, false;
      var csrSaveIf, csrSaveId, csrSaveCause, debugCsrSave, debugModeD := false, false, false, false, r.debugMode;
      match r.fsm {
        case RESET => pcSet, next := true, BOOT_SET;
        case BOOT_SET => pcSet, next := true, FIRST_FETCH;
        case WAIT_SLEEP => haltIf, flushId, next := true, true, SLEEP;
        case SLEEP =>
          haltIf, flushId := true, true;
          if IrqNmNow(i) || i.irqPending || i.debugReq || r.debugMode || i.debugSingleStep { next := FIRST_FETCH; }
        case DBG_TAKEN_IF =>
          flushId, pcSet, csrSaveIf, debugCsrSave, csrSaveCause := true, true, true, true, true;
          debugModeD, next := true, DECODE;
        case DBG_TAKEN_ID =>
          flushId, pcSet, debugModeD, next := true, true, true, DECODE;
          if EbreakIntoDebug(i) && !r.debugMode { csrSaveCause, csrSaveId, debugCsrSave := true, true, true; }
      }
      k := Comb(next, pcSet, haltIf, false, flushId, csrSaveIf, csrSaveId, false, csrSaveCause, debugCsrSave, false,
                false, debugModeD, r.nmiMode, NoCause);
    }

    /** Requests from the instruction, the debugger and the interrupts. */
    method RequestLogic(r: Regs, id: IdStage, i: Inputs) returns (d: Requests)
      ensures d == RequestsOf(r, id, i)
    {
      var mretInsn, dretInsn, wfiInsn := id.instr.mret && id.valid, id.instr.dret && id.valid, id.instr.wfi && id.valid;
      var specialReqPcChange := mretInsn || dretInsn || ExcReqNow(r, id) || i.storeErr || i.loadErr;
      var specialReqFlushOnly := wfiInsn || (id.instr.csrFlush && id.valid);
      var enterDebugMode := EnterDebugPrioNow(r, id, i) || (i.triggerMatch && !r.debugMode);
      var irqEnabled := i.mie || i.priv == User;
      var irqNm := i.irqNmExt || i.irqNmInt;
      var handleIrq := !r.debugMode && !i.debugSingleStep && !r.nmiMode && (irqNm || (i.irqPending && irqEnabled));
      d := Requests(specialReqPcChange || specialReqFlushOnly, id.valid || !i.readyWb, enterDebugMode, handleIrq,
                    i.stallId || i.stallWb);
    }

    /** The combinational logic: requests, state machine, stall control. */
    method Combinational(r: Regs, id: IdStage, i: Inputs) returns (k: Comb, o: Outputs)
      ensures CombOk(config, r, id, i, k) && Drives(config, r, id, i, o)
    {
      hide NextFsm, NextDebugMode, NextNmiMode, CombOk, Drives, Priorities, EbreakIntoDebug, RequestsOf, Stall,
           SpecialReq, Pending, EnterDebugMode, HandleIrq;
      var d := RequestLogic(r, id, i);
      RequestsMean(r, id, i);
      match r.fsm {
        case FIRST_FETCH => k := FirstFetch(r, id, i, d);
        case DECODE => k := Decode(r, id, i, d);
        case IRQ_TAKEN => k := IrqTaken(r, id, i, d);
        case FLUSH => k := Flush(r, id, i);
        case _ => k := OneAction(r, id, i);
      }
      var haltIf := k.haltIf || !i.instrExec;
      o := Outputs(k.pcSet, haltIf, k.retainId, k.flushId, !d.stall && !haltIf && !k.retainId,
                   !(d.stall || k.retainId) || k.flushId, k.csrSaveIf, k.csrSaveId, k.csrSaveWb, k.csrSaveCause,
                   k.debugCsrSave, k.restoreMret, k.restoreDret, k.cause);
      CombDrives(config, r, id, i, k);
    }

    /** One clock cycle. */
    method Clock(id: IdStage, i: Inputs) returns (o: Outputs)
      modifies this
      ensures Drives(config, old(State()), id, i, o)
      ensures State() == NextRegs(config, old(State()), id, i)
    {
      hide NextFsm, NextDebugMode, NextNmiMode, Drives, SingleStepNow, EnterDebugPrioNow, ExcReqNow, IllegalNow, CombOk;
      var r := State();
      var k;
      k, o := Combinational(r, id, i);
      CombNext(config, r, id, i, k);
      ctrlFsm, nmiMode, doSingleStep, debugMode := k.next, k.nmiModeD, SingleStepNow(r, id, i), k.debugModeD;
      enterDebugModePrio, loadErr, storeErr := EnterDebugPrioNow(r, id, i), i.loadErr, i.storeErr;
      excReq, illegalInsn := ExcReqNow(r, id), IllegalNow(r, id);
    }
  }
}
