/**
  And-inverter graphs: variables are numbered from 1, inputs first, then latches, then gates;
  literal 2v is variable v and literal 2v + 1 its negation; variable 0 is false.
 */
module Aig {
  datatype Gate = Gate(rhs0: nat, rhs1: nat)

  datatype Reset = ToZero | ToOne | Free

  datatype Latch = Latch(next: nat, reset: Reset)

  datatype Aig = Aig(
    inputs: nat, latches: seq<Latch>, gates: seq<Gate>,
    outputs: seq<nat>, bads: seq<nat>, constraints: seq<nat>, justice: seq<nat>, fairness: seq<nat>)

  type Assignment = nat -> bool

  /** The other literal of the same variable. */
  function Flip(l: nat): (r: nat)
    ensures r / 2 == l / 2 && r % 2 != l % 2
  {
    if l % 2 == 0 then l + 1 else l - 1
  }

  predicate Lit(v: Assignment, l: nat) {
    v(l / 2) != (l % 2 == 1)
  }

  /** Every gate reads only smaller variables, the larger literal first. */
  predicate Topological(base: nat, gates: seq<Gate>) {
    forall k :: 0 <= k < |gates| ==> gates[k].rhs1 <= gates[k].rhs0 < 2 * (base + k + 1)
  }

  ghost predicate GatesHold(base: nat, gates: seq<Gate>, v: Assignment) {
    forall k :: 0 <= k < |gates| ==> v(base + k + 1) == (Lit(v, gates[k].rhs0) && Lit(v, gates[k].rhs1))
  }

  /** The value of variable m, given the inputs and latches. */
  predicate EvalVar(base: nat, gates: seq<Gate>, src: Assignment, m: nat)
    requires Topological(base, gates)
    decreases m
  {
    if base < m <= base + |gates| then
      var g := gates[m - base - 1];
      (EvalVar(base, gates, src, g.rhs0 / 2) != (g.rhs0 % 2 == 1))
      && (EvalVar(base, gates, src, g.rhs1 / 2) != (g.rhs1 % 2 == 1))
    else
      m != 0 && src(m)
  }

  lemma EvalVarHolds(base: nat, gates: seq<Gate>, src: Assignment)
    requires Topological(base, gates)
    ensures GatesHold(base, gates, (m: nat) => EvalVar(base, gates, src, m))
  {
    var v: Assignment := (m: nat) => EvalVar(base, gates, src, m);
    forall k | 0 <= k < |gates| ensures v(base + k + 1) == (Lit(v, gates[k].rhs0) && Lit(v, gates[k].rhs1)) {
      assert v(gates[k].rhs0 / 2) == EvalVar(base, gates, src, gates[k].rhs0 / 2);
      assert v(gates[k].rhs1 / 2) == EvalVar(base, gates, src, gates[k].rhs1 / 2);
    }
  }

  function Base(a: Aig): nat {
    a.inputs + |a.latches|
  }

  predicate ResetOk(r: Reset, value: bool) {
    match r case ToZero => !value case ToOne => value case Free => true
  }

  predicate LatchesReset(a: Aig, v: Assignment) {
    forall l :: 0 <= l < |a.latches| ==> ResetOk(a.latches[l].reset, v(a.inputs + l + 1))
  }

  predicate LatchesClocked(a: Aig, before: Assignment, after: Assignment) {
    forall l :: 0 <= l < |a.latches| ==> after(a.inputs + l + 1) == Lit(before, a.latches[l].next)
  }

  ghost predicate GraphSettled(a: Aig, v: Assignment) {
    !v(0) && GatesHold(Base(a), a.gates, v)
  }

  /** An infinite run of the graph. */
  ghost predicate GraphRun(a: Aig, run: nat -> Assignment) {
    && (forall t: nat :: GraphSettled(a, run(t)))
    && LatchesReset(a, run(0))
    && (forall t: nat :: LatchesClocked(a, run(t), run(t + 1)))
  }
}
