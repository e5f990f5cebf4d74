/**
  Where the controller goes and what it reports, over runs and in terms of its registers and inputs.
 */
module ControllerLaws {
  import opened ControllerSpec
  import opened ControllerRuns

  // -------------------------------------------------------- what is asked for

  /** A debug request, a single step, or a trigger, outside debug mode. */
  predicate DebugWanted(r: Regs, id: IdStage, i: Inputs) {
    && !r.debugMode
    && (i.debugReq || i.triggerMatch || (if id.valid then i.debugSingleStep else r.doSingleStep))
  }

  /** An NMI, or an interrupt that is enabled or met in user mode; never in debug mode, in single step or during an
      NMI. */
  predicate InterruptWanted(r: Regs, i: Inputs) {
    && !r.debugMode && !i.debugSingleStep && !r.nmiMode
    && (i.irqNmExt || i.irqNmInt || (i.irqPending && (i.mie || i.priv == User)))
  }

  predicate Raises(instr: Instr) {
    instr.ecall || instr.ebrk || instr.illegal || instr.fetchErr
  }

  /** The instruction in decode has to go through FLUSH, or a memory error was reported. */
  predicate FlushWanted(id: IdStage, i: Inputs) {
    || i.storeErr || i.loadErr
    || (id.valid && (Raises(id.instr) || id.instr.mret || id.instr.dret || id.instr.wfi || id.instr.csrFlush))
  }

  predicate MemoryError(r: Regs, i: Inputs) {
    r.loadErr || r.storeErr || i.loadErr || i.storeErr
  }

  /** What wakes the core up. */
  predicate WakeUp(r: Regs, i: Inputs) {
    i.irqNmExt || i.irqNmInt || i.irqPending || i.debugReq || r.debugMode || i.debugSingleStep
  }

  // -------------------------------------------------------------- the states

  /** From reset the core boots and then fetches. */
  lemma Boots(c: Config, i: Stimuli, first: Instr)
    ensures At(c, i, first, 0).r.fsm == RESET && At(c, i, first, 1).r.fsm == BOOT_SET
    ensures At(c, i, first, 2).r.fsm == FIRST_FETCH
  {
    assert At(c, i, first, 1) == Step(c, At(c, i, first, 0), i(0));
    assert At(c, i, first, 2) == Step(c, At(c, i, first, 1), i(1));
  }

  lemma FirstFetchLeads(c: Config, i: Stimuli, first: Instr, t: nat)
    requires At(c, i, first, t).r.fsm == FIRST_FETCH
    ensures var s := At(c, i, first, t);
            At(c, i, first, t + 1).r.fsm ==
              if DebugWanted(s.r, s.id, i(t)) then DBG_TAKEN_IF
              else if InterruptWanted(s.r, i(t)) then IRQ_TAKEN
              else if i(t).instrExec && !i(t).stallId && !i(t).stallWb then DECODE
              else FIRST_FETCH
  {
  }

  lemma DecodeLeads(c: Config, i: Stimuli, first: Instr, t: nat)
    requires At(c, i, first, t).r.fsm == DECODE
    ensures var s := At(c, i, first, t);
            var busy := i(t).stallId || i(t).stallWb || s.id.valid || !i(t).readyWb;
            At(c, i, first, t + 1).r.fsm ==
              if FlushWanted(s.id, i(t)) then
                (if i(t).readyWb || (c.writebackStage && MemoryError(s.r, i(t))) then FLUSH else DECODE)
              else if busy then DECODE
              else if DebugWanted(s.r, s.id, i(t)) then DBG_TAKEN_IF
              else if InterruptWanted(s.r, i(t)) then IRQ_TAKEN
              else DECODE
  {
  }

  /** The states that last one cycle. */
  lemma ShortStates(c: Config, i: Stimuli, first: Instr, t: nat)
    ensures At(c, i, first, t).r.fsm in {IRQ_TAKEN, DBG_TAKEN_IF, DBG_TAKEN_ID} ==>
              At(c, i, first, t + 1).r.fsm == DECODE
    ensures At(c, i, first, t).r.fsm == WAIT_SLEEP ==> At(c, i, first, t + 1).r.fsm == SLEEP
  {
  }

  /** The core in SLEEP wakes up exactly if something wakes it. */
  lemma WakesExactly(c: Config, i: Stimuli, first: Instr, t: nat)
    requires At(c, i, first, t).r.fsm == SLEEP
    ensures At(c, i, first, t + 1).r.fsm == if WakeUp(At(c, i, first, t).r, i(t)) then FIRST_FETCH else SLEEP
  {
  }

  /** FLUSH has nothing to handle but the instruction. */
  predicate Undisturbed(r: Regs) {
    !r.excReq && !r.storeErr && !r.loadErr && !r.enterDebugModePrio
  }

  lemma {:induction false} StaysAsleep(c: Config, i: Stimuli, first: Instr, t: nat, u: nat)
    requires t <= u && At(c, i, first, t).r.fsm == SLEEP
    requires forall m :: t <= m < u ==> !WakeUp(At(c, i, first, m).r, i(m))
    ensures At(c, i, first, u).r.fsm == SLEEP
    decreases u
  {
    hide At, WakeUp;
    if t < u {
      StaysAsleep(c, i, first, t, u - 1);
      WakesExactly(c, i, first, u - 1);
    }
  }

  lemma WfiWaits(c: Config, i: Stimuli, first: Instr, t: nat)
    requires At(c, i, first, t).r.fsm == FLUSH && Undisturbed(At(c, i, first, t).r)
    requires At(c, i, first, t).id.valid && At(c, i, first, t).id.instr.wfi
    requires !At(c, i, first, t).id.instr.mret && !At(c, i, first, t).id.instr.dret
    ensures At(c, i, first, t + 1).r.fsm == WAIT_SLEEP
  {
    hide At;
    FlushLeads(c, i, first, t);
  }

  /** A wfi that FLUSH executes puts the core to sleep, and it sleeps until the first cycle with a wake-up. */
  lemma WfiSleeps(c: Config, i: Stimuli, first: Instr, t: nat, u: nat)
    requires At(c, i, first, t).r.fsm == FLUSH && Undisturbed(At(c, i, first, t).r) && t + 2 <= u
    requires At(c, i, first, t).id.valid && At(c, i, first, t).id.instr.wfi
    requires !At(c, i, first, t).id.instr.mret && !At(c, i, first, t).id.instr.dret
    requires forall m :: t + 2 <= m < u ==> !WakeUp(At(c, i, first, m).r, i(m))
    ensures At(c, i, first, t + 1).r.fsm == WAIT_SLEEP && At(c, i, first, u).r.fsm == SLEEP
    ensures WakeUp(At(c, i, first, u).r, i(u)) ==> At(c, i, first, u + 1).r.fsm == FIRST_FETCH
  {
    WfiWaits(c, i, first, t);
    hide At, WakeUp, Undisturbed;
    ShortStates(c, i, first, t + 1);
    StaysAsleep(c, i, first, t + 2, u);
    WakesExactly(c, i, first, u);
  }

  /** Ebreak is set up to enter debug mode at this privilege level. */
  predicate EbreakDebugs(i: Inputs) {
    (i.priv == Machine && i.debugEbreakm) || (i.priv == User && i.debugEbreaku)
  }

  /** The exception handled in FLUSH is an ebreak: no other comes before it. */
  predicate EbreakHandled(c: Config, r: Regs, id: IdStage) {
    && id.valid && id.instr.ebrk && !id.instr.fetchErr && !r.illegalInsn && !id.instr.ecall
    && (c.writebackStage ==> !r.storeErr && !r.loadErr)
  }

  /** A pending debug request wins over everything but an ebreak that enters debug mode by itself. */
  lemma FlushLeads(c: Config, i: Stimuli, first: Instr, t: nat)
    requires At(c, i, first, t).r.fsm == FLUSH
    ensures var s := At(c, i, first, t); var ebreak := EbreakHandled(c, s.r, s.id);
            At(c, i, first, t + 1).r.fsm ==
              if s.r.enterDebugModePrio && !(ebreak && EbreakDebugs(i(t))) then DBG_TAKEN_IF
              else if s.r.excReq || s.r.storeErr || s.r.loadErr then
                (if ebreak && (s.r.debugMode || EbreakDebugs(i(t))) then DBG_TAKEN_ID else DECODE)
              else if s.id.valid && s.id.instr.wfi && !s.id.instr.mret && !s.id.instr.dret then WAIT_SLEEP
              else DECODE
  {
  }

  /** What is remembered from one cycle to the next. */
  lemma Remembered(c: Config, i: Stimuli, first: Instr, t: nat)
    ensures var s := At(c, i, first, t); var r' := At(c, i, first, t + 1).r;
            && r'.loadErr == i(t).loadErr && r'.storeErr == i(t).storeErr
            && r'.excReq == (s.r.fsm != FLUSH && s.id.valid && Raises(s.id.instr))
            && r'.illegalInsn == (s.r.fsm != FLUSH && s.id.valid && s.id.instr.illegal)
            && r'.doSingleStep == (if s.id.valid then !s.r.debugMode && i(t).debugSingleStep else s.r.doSingleStep)
            && r'.enterDebugModePrio == (!s.r.debugMode && (i(t).debugReq || r'.doSingleStep))
  {
    hide NextFsm, NextNmiMode, NextDebugMode, NextId;
  }

  /** Debug mode is entered from the two states for it and left by a dret that FLUSH executes. */
  lemma DebugModeChanges(c: Config, i: Stimuli, first: Instr, t: nat)
    ensures var s := At(c, i, first, t);
            At(c, i, first, t + 1).r.debugMode ==
              (s.r.fsm == DBG_TAKEN_IF || s.r.fsm == DBG_TAKEN_ID
              || (s.r.debugMode && !(s.r.fsm == FLUSH && !s.r.excReq && !s.r.storeErr && !s.r.loadErr
                                     && s.id.valid && s.id.instr.dret && !s.id.instr.mret)))
    ensures var s := At(c, i, first, t);
            At(c, i, first, t + 1).r.nmiMode ==
              ((s.r.fsm == IRQ_TAKEN && InterruptWanted(s.r, i(t)) && (i(t).irqNmExt || i(t).irqNmInt))
              || (s.r.nmiMode && !(s.r.fsm == FLUSH && !s.r.excReq && !s.r.storeErr && !s.r.loadErr
                                   && s.id.valid && s.id.instr.mret)))
  {
    ModesAtNext(c, i, first, t);
  }

  // ------------------------------------------------------------ what is reported

  /** The order of exceptions. With a writeback stage its errors belong to an older instruction and come first;
      without one they come last. */
  lemma ExceptionOrder(c: Config, r: Regs, id: IdStage)
    ensures var p := Priorities(c, r, id);
            var fetch, ecall := id.valid && id.instr.fetchErr, id.valid && id.instr.ecall;
            var ebrk := id.valid && id.instr.ebrk;
            var older := c.writebackStage && (r.storeErr || r.loadErr);
            && (p.fetchErr <==> fetch && !older)
            && (p.illegal <==> r.illegalInsn && !fetch && !older)
            && (p.ecall <==> ecall && !r.illegalInsn && !fetch && !older)
            && (p.ebrk <==> ebrk && !ecall && !r.illegalInsn && !fetch && !older)
            && (p.store <==> r.storeErr && (c.writebackStage || !(fetch || r.illegalInsn || ecall || ebrk)))
            && (p.load <==> r.loadErr && !r.storeErr
                            && (c.writebackStage || !(fetch || r.illegalInsn || ecall || ebrk)))
  {
  }

  predicate FirstRaised(fast: seq<bool>, k: nat) {
    k < |fast| && k < 15 && fast[k] && forall j :: 0 <= j < k ==> !fast[j]
  }

  /** An interrupt that is taken is reported with the first raised of: external NMI, internal NMI, fast interrupts
      from the lowest, external, software, timer. */
  lemma InterruptOrder(c: Config, r: Regs, id: IdStage, i: Inputs, o: Outputs)
    requires Drives(c, r, id, i, o) && r.fsm == IRQ_TAKEN && InterruptWanted(r, i)
    ensures i.irqNmExt ==> o.excCause == IrqNm
    ensures !i.irqNmExt && i.irqNmInt ==> o.excCause == IrqInternal
    ensures !i.irqNmExt && !i.irqNmInt ==>
              && (forall k: nat :: FirstRaised(i.irqs.fast, k) ==> o.excCause == IrqFast(k))
              && ((forall k :: 0 <= k < |i.irqs.fast| && k < 15 ==> !i.irqs.fast[k]) ==>
                    o.excCause ==
                      if i.irqs.external then IrqExternal else if i.irqs.software then IrqSoftware else IrqTimer)
  {
    hide CsrsDriven, Priorities, EbreakToDebug;
    assert RightCause(c, r, id, i, o.excCause);
  }

  /** A trap is reported with the exception that is handled. */
  lemma TrapCause(c: Config, r: Regs, id: IdStage, i: Inputs, o: Outputs)
    requires Drives(c, r, id, i, o) && r.fsm == FLUSH && (r.excReq || r.storeErr || r.loadErr)
    requires !(EbreakHandled(c, r, id) && (r.debugMode || EbreakDebugs(i)))
    ensures var p := Priorities(c, r, id);
            && (p.fetchErr ==> o.excCause == InstrAccessFault) && (p.illegal ==> o.excCause == IllegalInsn)
            && (p.ecall ==> o.excCause == if i.priv == Machine then EcallMMode else EcallUMode)
            && (p.ebrk ==> o.excCause == Breakpoint)
            && (p.store ==> o.excCause == StoreAccessFault) && (p.load ==> o.excCause == LoadAccessFault)
    ensures o.pcSet && o.csrSaveCause
  {
    ExceptionOrder(c, r, id);
  }

  /** A cause is saved only together with a jump to a handler, and a PC only together with a cause, one at most. */
  lemma TrapsAreWhole(c: Config, r: Regs, id: IdStage, i: Inputs, o: Outputs)
    requires Drives(c, r, id, i, o)
    ensures o.csrSaveCause ==> o.pcSet
    ensures o.csrSaveIf || o.csrSaveId || o.csrSaveWb ==> o.csrSaveCause
    ensures !(o.csrSaveIf && o.csrSaveId) && !(o.csrSaveIf && o.csrSaveWb) && !(o.csrSaveId && o.csrSaveWb)
    ensures o.debugCsrSave ==> o.csrSaveCause
  {
  }

  /** The fetch is redirected out of reset, by jumps and branches that were not predicted, to handlers, and by mret
      and dret. */
  lemma RedirectsExactly(c: Config, r: Regs, id: IdStage, i: Inputs, o: Outputs)
    requires Drives(c, r, id, i, o)
    ensures o.pcSet <==>
              || r.fsm in {RESET, BOOT_SET, DBG_TAKEN_IF, DBG_TAKEN_ID}
              || (r.fsm == DECODE && (i.branchSet || i.jumpSet) && !(c.branchPredictor && i.bpTaken))
              || (r.fsm == IRQ_TAKEN && InterruptWanted(r, i))
              || (r.fsm == FLUSH && (r.excReq || r.storeErr || r.loadErr)
                  && !(EbreakHandled(c, r, id) && (r.debugMode || EbreakDebugs(i))))
              || (r.fsm == FLUSH && !(r.excReq || r.storeErr || r.loadErr)
                  && id.valid && (id.instr.mret || id.instr.dret))
  {
  }

  /** Decode takes a new instruction only in cycles without stall in which execution is enabled, nothing is kept for
      FLUSH, and no debug request or interrupt waits for it to drain. */
  lemma ReadyExactly(c: Config, r: Regs, id: IdStage, i: Inputs, o: Outputs)
    requires Drives(c, r, id, i, o)
    ensures o.idInReady <==>
              && i.instrExec && !i.stallId && !i.stallWb && r.fsm !in {WAIT_SLEEP, SLEEP, FLUSH}
              && (r.fsm == FIRST_FETCH ==> !DebugWanted(r, id, i) && !InterruptWanted(r, i))
              && (r.fsm == DECODE ==> !FlushWanted(id, i) && !DebugWanted(r, id, i) && !InterruptWanted(r, i))
    ensures o.flushId <==>
              || r.fsm in {WAIT_SLEEP, SLEEP, DBG_TAKEN_IF, DBG_TAKEN_ID}
              || (r.fsm == FLUSH && !((r.excReq || r.storeErr || r.loadErr) && EbreakHandled(c, r, id)
                                      && (r.debugMode || EbreakDebugs(i))))
    ensures o.instrValidClear <==> o.flushId || (!i.stallId && !i.stallWb && !(r.fsm == DECODE && FlushWanted(id, i)))
  {
  }
}
