/**
  What holds in every run of the controller from reset, for any inputs and with the fetch stage feeding
  its instruction register.
 */
module ControllerRuns {
  import opened ControllerSpec

  datatype System = System(r: Regs, id: IdStage)

  type Stimuli = nat -> Inputs

  function Step(c: Config, s: System, i: Inputs): System {
    System(NextRegs(c, s.r, s.id, i), NextId(c, s.r, s.id, i))
  }

  /** The system at cycle t after reset; nothing has been fetched yet. */
  function At(c: Config, i: Stimuli, first: Instr, t: nat): System {
    if t == 0 then System(Regs(RESET, false, false, false, false, false, false, false, false), IdStage(false, first))
    else Step(c, At(c, i, first, t - 1), i(t - 1))
  }

  // --------------------------------------------------------------- invariant

  /** States in which no instruction is in decode. */
  predicate Empty(f: Fsm) {
    f in {RESET, BOOT_SET, WAIT_SLEEP, SLEEP, FIRST_FETCH, IRQ_TAKEN, DBG_TAKEN_IF}
  }

  /** In FLUSH the saved requests still describe the instruction in decode. */
  predicate FlushConsistent(s: System) {
    && (s.r.excReq <==> IdException(s.id))
    && (s.r.illegalInsn <==> s.id.valid && s.id.instr.illegal)
    && (Excepting(s.r) || (s.id.valid && (s.id.instr.mret || s.id.instr.dret || s.id.instr.wfi || s.id.instr.csrFlush)))
    && (s.r.enterDebugModePrio ==> !s.r.debugMode)
  }

  predicate Inv(s: System) {
    && (Empty(s.r.fsm) ==> !s.id.valid)
    && (s.r.fsm == FLUSH ==> FlushConsistent(s))
    && (s.r.fsm == IRQ_TAKEN ==> !s.r.nmiMode && !s.r.debugMode)
    && (s.r.fsm == DBG_TAKEN_IF ==> !s.r.debugMode)
  }

  /** FLUSH comes only from DECODE, which has held the instruction. */
  lemma IntoFlush(c: Config, s: System, i: Inputs)
    requires NextFsm(c, s.r, s.id, i) == FLUSH
    ensures s.r.fsm == DECODE && SpecialReq(s.r, s.id, i) && Step(c, s, i).id == s.id
    ensures FlushConsistent(Step(c, s, i))
  {
    hide Priorities, HandleIrq, EbreakIntoDebug;
  }

  lemma IntoDebug(c: Config, s: System, i: Inputs)
    requires Inv(s) && NextFsm(c, s.r, s.id, i) == DBG_TAKEN_IF
    ensures !s.r.debugMode && !Step(c, s, i).r.debugMode && !Step(c, s, i).id.valid
  {
  }

  lemma IntoIrq(c: Config, s: System, i: Inputs)
    requires Inv(s) && NextFsm(c, s.r, s.id, i) == IRQ_TAKEN
    ensures !s.id.valid && !Step(c, s, i).id.valid && HandleIrq(s.r, i)
    ensures !Step(c, s, i).r.nmiMode && !Step(c, s, i).r.debugMode
    ensures s.r.fsm == DECODE ==> i.readyWb
  {
  }

  lemma IntoEmpty(c: Config, s: System, i: Inputs)
    requires Inv(s) && NextFsm(c, s.r, s.id, i) in {RESET, BOOT_SET, WAIT_SLEEP, SLEEP, FIRST_FETCH}
    ensures !Step(c, s, i).id.valid
  {
  }

  lemma StepKeepsInv(c: Config, s: System, i: Inputs)
    requires Inv(s)
    ensures Inv(Step(c, s, i))
  {
    hide NextFsm, NextId, NextNmiMode, NextDebugMode, FlushConsistent;
    var f := NextFsm(c, s.r, s.id, i);
    if f == FLUSH { IntoFlush(c, s, i); }
    if f == DBG_TAKEN_IF { IntoDebug(c, s, i); }
    if f == IRQ_TAKEN { IntoIrq(c, s, i); }
    if f in {RESET, BOOT_SET, WAIT_SLEEP, SLEEP, FIRST_FETCH} { IntoEmpty(c, s, i); }
  }

  lemma {:induction false} AlwaysInv(c: Config, i: Stimuli, first: Instr, t: nat)
    ensures Inv(At(c, i, first, t))
  {
    hide NextRegs, NextId;
    if t > 0 {
      AlwaysInv(c, i, first, t - 1);
      StepKeepsInv(c, At(c, i, first, t - 1), i(t - 1));
    }
  }

  // ---------------------------------------------------------------- theorems

  /** FLUSH is entered only from DECODE with the same instruction held, and in FLUSH exactly one exception
      has priority if one is pending and none otherwise. */
  lemma FlushHandlesOneThing(c: Config, i: Stimuli, first: Instr, t: nat)
    requires At(c, i, first, t).r.fsm == FLUSH
    ensures t > 0 && At(c, i, first, t - 1).r.fsm == DECODE && At(c, i, first, t - 1).id == At(c, i, first, t).id
    ensures var s := At(c, i, first, t); Count(Priorities(c, s.r, s.id)) == if Excepting(s.r) then 1 else 0
  {
    AlwaysInv(c, i, first, t);
    AlwaysInv(c, i, first, t - 1);
    IntoFlush(c, At(c, i, first, t - 1), i(t - 1));
    OnePriority(c, At(c, i, first, t));
  }

  lemma OnePriority(c: Config, s: System)
    requires FlushConsistent(s)
    ensures Count(Priorities(c, s.r, s.id)) == if Excepting(s.r) then 1 else 0
  {
  }

  /** The debug CSRs are never written while the core is in debug mode. */
  lemma DebugCsrsNotResaved(c: Config, i: Stimuli, first: Instr, t: nat)
    requires DebugCsrSave(At(c, i, first, t).r, i(t))
    ensures !At(c, i, first, t).r.debugMode && At(c, i, first, t + 1).r.debugMode
  {
    AlwaysInv(c, i, first, t);
  }

  /** An interrupt is taken only with no instruction in decode, never in NMI or debug mode; from normal
      operation also the writeback stage is done. */
  lemma IrqFindsPipelineEmpty(c: Config, i: Stimuli, first: Instr, t: nat)
    requires At(c, i, first, t + 1).r.fsm == IRQ_TAKEN
    ensures !At(c, i, first, t).id.valid && !At(c, i, first, t + 1).id.valid
    ensures !At(c, i, first, t + 1).r.nmiMode && !At(c, i, first, t + 1).r.debugMode
    ensures At(c, i, first, t).r.fsm == DECODE ==> i(t).readyWb
  {
    AlwaysInv(c, i, first, t);
    IntoIrq(c, At(c, i, first, t), i(t));
  }

  /** A change of debug mode always flushes decode and redirects the fetch. */
  lemma ModeChangeFlushes(c: Config, i: Stimuli, first: Instr, t: nat)
    requires At(c, i, first, t + 1).r.debugMode != At(c, i, first, t).r.debugMode
    ensures FlushId(c, At(c, i, first, t).r, At(c, i, first, t).id, i(t))
    ensures PcSet(c, At(c, i, first, t).r, At(c, i, first, t).id, i(t))
    ensures !At(c, i, first, t + 1).id.valid
  {
    AlwaysInv(c, i, first, t);
  }

  // ------------------------------------------------ what requests lead to

  predicate Wanted(s: System, i: Inputs) {
    EnterDebugMode(s.r, s.id, i) || HandleIrq(s.r, i)
  }

  predicate Special(s: System, i: Inputs) {
    SpecialReq(s.r, s.id, i)
  }

  /** The two cases of one clock in which no request of the instruction is in the way. */
  predicate Drained(s: System, i: Inputs) {
    !Stall(i) && !s.id.valid && i.readyWb
  }

  /** One clock in DECODE. A special request keeps the instruction and leads to FLUSH once writeback is ready or
      failing. A debug or interrupt request stops new instructions, and is taken, debug first, when nothing is
      left to complete. Without requests the state stays and a fetched instruction is accepted. */
  lemma RequestsDecide(c: Config, s: System, i: Inputs)
    requires s.r.fsm == DECODE
    ensures Special(s, i) ==> Step(c, s, i).id == s.id
    ensures Special(s, i) ==> Step(c, s, i).r.fsm == if i.readyWb || WbException(c, s.r, i) then FLUSH else DECODE
    ensures !Special(s, i) && Wanted(s, i) && !Drained(s, i) ==>
              Step(c, s, i).r.fsm == DECODE && (Step(c, s, i).id == s.id || !Step(c, s, i).id.valid)
    ensures !Special(s, i) && Wanted(s, i) && Drained(s, i) ==>
              && Step(c, s, i).r.fsm == (if EnterDebugMode(s.r, s.id, i) then DBG_TAKEN_IF else IRQ_TAKEN)
              && !Step(c, s, i).id.valid
    ensures !Special(s, i) && !Wanted(s, i) ==> Step(c, s, i).r.fsm == DECODE
    ensures !Special(s, i) && !Wanted(s, i) && !Stall(i) && i.instrExec && i.fetchValid && !PcSet(c, s.r, s.id, i) ==>
              Step(c, s, i).id == IdStage(true, i.fetched)
  {
    hide SpecialReq, EnterDebugMode, HandleIrq, WbException, NextNmiMode, NextDebugMode, Priorities, PcSet;
  }

  /** The instruction in decode itself makes a special request. */
  predicate AsksForFlush(id: IdStage) {
    IdException(id) || (id.valid && (id.instr.mret || id.instr.dret || id.instr.wfi || id.instr.csrFlush))
  }

  lemma AskingIsSpecial(s: System, i: Inputs)
    requires s.r.fsm == DECODE && AsksForFlush(s.id)
    ensures Special(s, i)
  {
  }

  predicate Holding(c: Config, s: System, i: Inputs) {
    !i.readyWb && !WbException(c, s.r, i)
  }

  /** An instruction that asks for FLUSH stays in decode for as long as writeback takes, and FLUSH gets it. */
  lemma {:induction false} SpecialIsServed(c: Config, i: Stimuli, first: Instr, t: nat, u: nat)
    requires t <= u && At(c, i, first, t).r.fsm == DECODE && AsksForFlush(At(c, i, first, t).id)
    requires forall m :: t <= m < u ==> Holding(c, At(c, i, first, m), i(m))
    ensures At(c, i, first, u).r.fsm == DECODE && At(c, i, first, u).id == At(c, i, first, t).id
    ensures !Holding(c, At(c, i, first, u), i(u)) ==>
              At(c, i, first, u + 1).r.fsm == FLUSH && At(c, i, first, u + 1).id == At(c, i, first, t).id
    decreases u
  {
    hide Step, WbException, Special, Wanted, Drained, AsksForFlush, PcSet;
    AskingIsSpecial(At(c, i, first, t), i(t));
    if u > t {
      SpecialIsServed(c, i, first, t, u - 1);
      AskingIsSpecial(At(c, i, first, u - 1), i(u - 1));
      RequestsDecide(c, At(c, i, first, u - 1), i(u - 1));
    }
    AskingIsSpecial(At(c, i, first, u), i(u));
    RequestsDecide(c, At(c, i, first, u), i(u));
  }

  /** While a debug or interrupt request stands and no special request comes, no instruction is started: decode
      holds the one it held or none, until everything has completed; then the request is taken. */
  lemma {:induction false} NothingStartsBeforeEntry(c: Config, i: Stimuli, first: Instr, t: nat, u: nat)
    requires t <= u && At(c, i, first, t).r.fsm == DECODE
    requires forall m :: t <= m <= u ==> Wanted(At(c, i, first, m), i(m)) && !Special(At(c, i, first, m), i(m))
    requires forall m :: t <= m < u ==> !Drained(At(c, i, first, m), i(m))
    ensures At(c, i, first, u).r.fsm == DECODE
    ensures At(c, i, first, u).id == At(c, i, first, t).id || !At(c, i, first, u).id.valid
    ensures Drained(At(c, i, first, u), i(u)) ==> At(c, i, first, u + 1).r.fsm in {DBG_TAKEN_IF, IRQ_TAKEN}
    decreases u
  {
    hide Step, Wanted, Special, Drained;
    if u > t {
      NothingStartsBeforeEntry(c, i, first, t, u - 1);
      RequestsDecide(c, At(c, i, first, u - 1), i(u - 1));
    }
    RequestsDecide(c, At(c, i, first, u), i(u));
  }

  // ---------------------------------------------- nothing twice in a row

  predicate EntersNmi(c: Config, i: Stimuli, first: Instr, t: nat) {
    !At(c, i, first, t).r.nmiMode && At(c, i, first, t + 1).r.nmiMode
  }

  /** An mret is carried out. */
  predicate Returns(c: Config, i: Stimuli, first: Instr, t: nat) {
    Mret(At(c, i, first, t).r, At(c, i, first, t).id)
  }

  predicate SavesDebug(c: Config, i: Stimuli, first: Instr, t: nat) {
    DebugCsrSave(At(c, i, first, t).r, i(t))
  }

  /** A dret is carried out. */
  predicate LeavesDebug(c: Config, i: Stimuli, first: Instr, t: nat) {
    Dret(At(c, i, first, t).r, At(c, i, first, t).id)
  }

  lemma ModesAtNext(c: Config, i: Stimuli, first: Instr, t: nat)
    ensures At(c, i, first, t + 1).r.nmiMode == NextNmiMode(At(c, i, first, t).r, At(c, i, first, t).id, i(t))
    ensures At(c, i, first, t + 1).r.debugMode == NextDebugMode(At(c, i, first, t).r, At(c, i, first, t).id)
  {
    hide NextFsm, NextId, NextNmiMode, NextDebugMode, SingleStepNow, EnterDebugPrioNow, ExcReqNow, IllegalNow;
  }

  lemma {:induction false} NmiLeftByMret(c: Config, i: Stimuli, first: Instr, t: nat, u: nat) returns (m: nat)
    requires t < u && At(c, i, first, t).r.nmiMode && !At(c, i, first, u).r.nmiMode
    ensures t <= m < u && Returns(c, i, first, m)
  {
    hide At, Mret, HandleIrq, IrqNmNow;
    ModesAtNext(c, i, first, u - 1);
    if At(c, i, first, u - 1).r.nmiMode {
      m := u - 1;
    } else {
      m := NmiLeftByMret(c, i, first, t, u - 1);
    }
  }

  /** Two entries into NMI mode are always separated by an mret. */
  lemma MretBetweenNmis(c: Config, i: Stimuli, first: Instr, t: nat, u: nat)
    requires t < u && EntersNmi(c, i, first, t) && EntersNmi(c, i, first, u)
    ensures exists m: nat :: t < m < u && Returns(c, i, first, m)
  {
    hide At, Returns;
    var m := NmiLeftByMret(c, i, first, t + 1, u);
  }

  lemma {:induction false} DebugLeftByDret(c: Config, i: Stimuli, first: Instr, t: nat, u: nat) returns (m: nat)
    requires t < u && At(c, i, first, t).r.debugMode && !At(c, i, first, u).r.debugMode
    ensures t <= m < u && LeavesDebug(c, i, first, m)
  {
    hide At, Dret;
    ModesAtNext(c, i, first, u - 1);
    if At(c, i, first, u - 1).r.debugMode {
      m := u - 1;
    } else {
      m := DebugLeftByDret(c, i, first, t, u - 1);
    }
  }

  /** Two writes of the debug CSRs by the controller are always separated by a dret. */
  lemma DretBetweenDebugSaves(c: Config, i: Stimuli, first: Instr, t: nat, u: nat)
    requires t < u && SavesDebug(c, i, first, t) && SavesDebug(c, i, first, u)
    ensures exists m: nat :: t < m < u && LeavesDebug(c, i, first, m)
  {
    hide At, LeavesDebug, DebugCsrSave;
    DebugCsrsNotResaved(c, i, first, t);
    DebugCsrsNotResaved(c, i, first, u);
    var m := DebugLeftByDret(c, i, first, t + 1, u);
  }

  /** An NMI is entered exactly by taking one: from IRQ_TAKEN, with the interrupt still there. */
  lemma NmiEntry(c: Config, i: Stimuli, first: Instr, t: nat)
    ensures EntersNmi(c, i, first, t)
            <==> At(c, i, first, t).r.fsm == IRQ_TAKEN && HandleIrq(At(c, i, first, t).r, i(t)) && IrqNmNow(i(t))
  {
    AlwaysInv(c, i, first, t);
  }
}
