/**
  The gate/flop netlist that the AIGER writer reads: wires driven by inverters, and-gates, aliases and
  the first-cycle indicator; flops with an optional initial value; checks with an enable.
 */
module GateNetlist {
  datatype Bit = Zero | One | Undef | Wire(id: nat)

  datatype Driver = Not(a: Bit) | And(a: Bit, b: Bit) | Alias(a: Bit) | InitState

  datatype Ff = Ff(q: Bit, d: Bit)

  /** An assert, assume, live or fair cell: a is looked at when en is high. */
  datatype Check = Check(a: Bit, en: Bit)

  datatype Netlist = Netlist(
    inputs: seq<Bit>, ffs: seq<Ff>, init: map<Bit, bool>, drivers: map<Bit, Driver>,
    outputs: seq<Bit>, asserts: seq<Check>, assumes: seq<Check>, live: seq<Check>, fair: seq<Check>)

  type Valuation = Bit -> bool

  /** Every wire is driven at most once: by an input, by a flop or by a gate. */
  predicate WellFormed(n: Netlist) {
    && (forall i :: 0 <= i < |n.inputs| ==> n.inputs[i].Wire? && n.inputs[i] !in n.drivers)
    && (forall j :: 0 <= j < |n.ffs| ==> n.ffs[j].q.Wire? && n.ffs[j].q !in n.drivers)
    && (forall i, j :: 0 <= i < j < |n.inputs| ==> n.inputs[i] != n.inputs[j])
    && (forall i, j :: 0 <= i < j < |n.ffs| ==> n.ffs[i].q != n.ffs[j].q)
    && (forall i, j :: 0 <= i < |n.inputs| && 0 <= j < |n.ffs| ==> n.inputs[i] != n.ffs[j].q)
    && (forall b :: b in n.drivers ==> b.Wire?)
  }

  predicate IsFf(n: Netlist, b: Bit) {
    exists j :: 0 <= j < |n.ffs| && n.ffs[j].q == b
  }

  /** A bit that has a value without looking at any gate. */
  predicate IsSource(n: Netlist, b: Bit) {
    b == Zero || b == One || b in n.inputs || IsFf(n, b)
  }

  predicate HasInitState(n: Netlist) {
    exists b :: b in n.drivers && n.drivers[b].InitState?
  }

  // ---------------------------------------------------------------- meaning

  predicate DriverValue(d: Driver, val: Valuation, first: bool) {
    match d
    case Not(a) => !val(a)
    case And(a, b) => val(a) && val(b)
    case Alias(a) => val(a)
    case InitState => first
  }

  /** All gates have settled; first tells whether this is the first cycle. */
  ghost predicate Settled(n: Netlist, val: Valuation, first: bool) {
    !val(Zero) && val(One) && forall b :: b in n.drivers ==> val(b) == DriverValue(n.drivers[b], val, first)
  }

  predicate Initially(n: Netlist, val: Valuation) {
    forall j :: 0 <= j < |n.ffs| && n.ffs[j].q in n.init ==> val(n.ffs[j].q) == n.init[n.ffs[j].q]
  }

  predicate Clocked(n: Netlist, before: Valuation, after: Valuation) {
    forall j :: 0 <= j < |n.ffs| ==> after(n.ffs[j].q) == before(n.ffs[j].d)
  }

  /** An infinite run of the netlist. */
  ghost predicate NetRun(n: Netlist, run: nat -> Valuation) {
    && (forall t: nat :: Settled(n, run(t), t == 0))
    && Initially(n, run(0))
    && (forall t: nat :: Clocked(n, run(t), run(t + 1)))
  }

  // ------------------------------------------------------------- evaluation

  predicate FaninsBelow(d: Driver, rank: Bit -> nat, bound: nat) {
    match d
    case Not(a) => rank(a) < bound
    case And(a, b) => rank(a) < bound && rank(b) < bound
    case Alias(a) => rank(a) < bound
    case InitState => true
  }

  predicate Acyclic(n: Netlist, rank: Bit -> nat) {
    forall b :: b in n.drivers ==> FaninsBelow(n.drivers[b], rank, rank(b))
  }

  /** The value of a bit, given the values of inputs and flops. */
  predicate Eval(n: Netlist, rank: Bit -> nat, src: Valuation, first: bool, b: Bit)
    requires Acyclic(n, rank)
    decreases rank(b)
  {
    if b == Zero then false
    else if b == One then true
    else if b !in n.drivers then src(b)
    else
      match n.drivers[b]
      case Not(a) => !Eval(n, rank, src, first, a)
      case And(x, y) => Eval(n, rank, src, first, x) && Eval(n, rank, src, first, y)
      case Alias(a) => Eval(n, rank, src, first, a)
      case InitState => first
  }

  lemma EvalSettles(n: Netlist, rank: Bit -> nat, src: Valuation, first: bool)
    requires Acyclic(n, rank) && WellFormed(n)
    ensures Settled(n, b => Eval(n, rank, src, first, b), first)
  {
    var val: Valuation := b => Eval(n, rank, src, first, b);
    forall b | b in n.drivers ensures val(b) == DriverValue(n.drivers[b], val, first) {
      assert b.Wire?;
      match n.drivers[b]
      case Not(a) => assert val(a) == Eval(n, rank, src, first, a);
      case And(x, y) => assert val(x) == Eval(n, rank, src, first, x) && val(y) == Eval(n, rank, src, first, y);
      case Alias(a) => assert val(a) == Eval(n, rank, src, first, a);
      case InitState =>
    }
  }

  /** No undefined constant and no undriven wire in the cone of b. */
  predicate Clean(n: Netlist, rank: Bit -> nat, b: Bit)
    requires Acyclic(n, rank)
    decreases rank(b)
  {
    if IsSource(n, b) then true
    else if b !in n.drivers then false
    else
      match n.drivers[b]
      case Not(a) => Clean(n, rank, a)
      case And(x, y) => Clean(n, rank, x) && Clean(n, rank, y)
      case Alias(a) => Clean(n, rank, a)
      case InitState => true
  }
}
