/**
  Two-share masking: every gate and flop of a netlist is replaced by a small circuit over two shares of
  each signal, the inputs are split with random bits and the outputs recombined.
 */
module Masking {
  datatype Option<T> = None | Some(value: T)

  /** The plain library cells. */
  datatype Gate<W> = Xor(a: W, b: W) | Inv(a: W) | Buf(a: W) | And(a: W, b: W) | Or(a: W, b: W)

  /** A clocked netlist: what drives each wire, and the data wire of each flop output. */
  datatype Netlist<!W> = Netlist(gate: W -> Option<Gate<W>>, flop: W -> Option<W>)

  type Values<!W> = W -> bool

  predicate GateValue<W>(g: Gate<W>, v: Values<W>) {
    match g
    case Xor(a, b) => v(a) != v(b)
    case Inv(a) => !v(a)
    case Buf(a) => v(a)
    case And(a, b) => v(a) && v(b)
    case Or(a, b) => v(a) || v(b)
  }

  ghost predicate Settled<W(!new)>(n: Netlist<W>, v: Values<W>) {
    forall w :: n.gate(w).Some? ==> v(w) == GateValue(n.gate(w).value, v)
  }

  /** Flops are zero while reset is low and otherwise hold what their data wire had before. */
  ghost predicate FlopsHold<W(!new)>(n: Netlist<W>, run: nat -> Values<W>, resetn: nat -> bool, t: nat) {
    forall q :: n.flop(q).Some? ==> run(t)(q) == (t > 0 && resetn(t) && run(t - 1)(n.flop(q).value))
  }

  /** A run from power-on reset, with any further resets. */
  ghost predicate IsRun<W(!new)>(n: Netlist<W>, run: nat -> Values<W>, resetn: nat -> bool) {
    forall t: nat :: Settled(n, run(t)) && FlopsHold(n, run, resetn, t)
  }

  /** Every wire that a gate reads has a smaller rank. */
  predicate ReadsBelow<W>(g: Gate<W>, rank: W -> nat, bound: nat) {
    match g
    case Xor(a, b) => rank(a) < bound && rank(b) < bound
    case Inv(a) => rank(a) < bound
    case Buf(a) => rank(a) < bound
    case And(a, b) => rank(a) < bound && rank(b) < bound
    case Or(a, b) => rank(a) < bound && rank(b) < bound
  }

  ghost predicate Acyclic<W(!new)>(n: Netlist<W>, rank: W -> nat) {
    forall w :: n.gate(w).Some? ==> ReadsBelow(n.gate(w).value, rank, rank(w))
  }

  // ---------------------------------------------------------- masked cells

  /** A wire of the masked netlist: one of two shares of wire w, a wire inside the cell that drives w, or
      the random bit of the flop that drives w. */
  datatype Masked = Share(w: nat, k: nat) | Inner(w: nat, k: nat) | Random(w: nat)

  /** The gate that drives share k, or inner wire k, of the masked cell for g. */
  function ShareGate(g: Gate<nat>, w: nat, k: nat): Gate<Masked> {
    match g
    case Xor(a, b) => Gate.Xor(Share(a, k), Share(b, k))
    case Inv(a) => if k == 0 then Gate.Inv(Share(a, 0)) else Gate.Buf(Share(a, k))
    case Buf(a) => Gate.Buf(Share(a, k))
    case And(a, b) => if k == 0 then Gate.Xor(Inner(w, 1), Inner(w, 2)) else Gate.Xor(Inner(w, 3), Inner(w, 4))
    case Or(a, b) => if k == 0 then Gate.Xor(Inner(w, 1), Inner(w, 2)) else Gate.Xor(Inner(w, 3), Inner(w, 4))
  }

  function InnerGate(g: Gate<nat>, w: nat, k: nat): Option<Gate<Masked>> {
    match g
    case And(a, b) =>
      if k == 0 then Some(Gate.Inv(Share(b, 1)))
      else if k == 1 then Some(Gate.And(Share(a, 0), Share(b, 0)))
      else if k == 2 then Some(Gate.Or(Share(a, 0), Inner(w, 0)))
      else if k == 3 then Some(Gate.And(Share(a, 1), Share(b, 0)))
      else if k == 4 then Some(Gate.Or(Share(a, 1), Inner(w, 0)))
      else None
    case Or(a, b) =>
      if k == 1 then Some(Gate.And(Share(a, 0), Share(b, 0)))
      else if k == 2 then Some(Gate.Or(Share(a, 0), Share(b, 1)))
      else if k == 3 then Some(Gate.Or(Share(a, 1), Share(b, 0)))
      else if k == 4 then Some(Gate.And(Share(a, 1), Share(b, 1)))
      else None
    case Xor(_, _) => None
    case Inv(_) => None
    case Buf(_) => None
  }

  /** Gate by gate: cells over shares; a flop refreshes both shares of its data with the same bit. */
  function Mask(n: Netlist<nat>): Netlist<Masked> {
    Netlist(
      (m: Masked) =>
        match m
        case Share(w, k) => if k < 2 && n.gate(w).Some? then Some(ShareGate(n.gate(w).value, w, k)) else None
        case Inner(w, k) =>
          if n.gate(w).Some? then InnerGate(n.gate(w).value, w, k)
          else if n.flop(w).Some? && k < 2 then Some(Gate.Xor(Share(n.flop(w).value, k), Random(w)))
          else None
        case Random(w) => None,
      (m: Masked) =>
        match m
        case Share(w, k) => if k < 2 && n.gate(w).None? && n.flop(w).Some? then Some(Inner(w, k)) else None
        case Inner(w, k) => None
        case Random(w) => None)
  }

  predicate Recombined(v: Values<Masked>, w: nat) {
    v(Share(w, 0)) != v(Share(w, 1))
  }

  /** A wire is driven by a gate or by a flop, not both. */
  ghost predicate OneDriver(n: Netlist<nat>) {
    forall w :: n.gate(w).None? || n.flop(w).None?
  }

  predicate IsInput(n: Netlist<nat>, w: nat) {
    n.gate(w).None? && n.flop(w).None?
  }

  /** The masked netlist has no combinational loop either. */
  lemma MaskIsAcyclic(n: Netlist<nat>, rank: nat -> nat)
    requires Acyclic(n, rank)
    ensures Acyclic(Mask(n), MaskedRank(n, rank))
  {
    forall m: Masked | Mask(n).gate(m).Some?
      ensures ReadsBelow(Mask(n).gate(m).value, MaskedRank(n, rank), MaskedRank(n, rank)(m))
    {
      var w := m.w;
      if n.gate(w).Some? { assert ReadsBelow(n.gate(w).value, rank, rank(w)); }
    }
  }

  function MaskedRank(n: Netlist<nat>, rank: nat -> nat): Masked -> nat {
    (m: Masked) => WireRank(n, rank, m)
  }

  function WireRank(n: Netlist<nat>, rank: nat -> nat, m: Masked): nat {
    match m
    case Share(w, _) => if n.gate(w).Some? then 3 * rank(w) + 2 else 0
    case Inner(w, k) =>
      if n.gate(w).Some? then (if k == 0 then 3 * rank(w) else 3 * rank(w) + 1)
      else if n.flop(w).Some? then 3 * rank(n.flop(w).value) + 3
      else 0
    case Random(_) => 0
  }

  // ------------------------------------------------------------- meaning

  /** The cell of one gate recombines to the gate. */
  lemma CellRecombines(n: Netlist<nat>, v: Values<Masked>, w: nat)
    requires Settled(Mask(n), v) && n.gate(w).Some?
    ensures Recombined(v, w) == GateValue(n.gate(w).value, (x: nat) => Recombined(v, x))
  {
    var m := Mask(n);
    assert m.gate(Share(w, 0)).Some? && m.gate(Share(w, 1)).Some?;
    match n.gate(w).value
    case Xor(_, _) =>
    case Inv(_) =>
    case Buf(_) =>
    case And(a, b) =>
      assert m.gate(Inner(w, 0)).Some? && m.gate(Inner(w, 1)).Some? && m.gate(Inner(w, 2)).Some?;
      assert m.gate(Inner(w, 3)).Some? && m.gate(Inner(w, 4)).Some?;
    case Or(a, b) =>
      assert m.gate(Inner(w, 1)).Some? && m.gate(Inner(w, 2)).Some?;
      assert m.gate(Inner(w, 3)).Some? && m.gate(Inner(w, 4)).Some?;
  }

  /** In every run, whatever the random bits, the shares of every wire recombine to its plain value. */
  lemma {:induction false} MaskingKeepsMeaning(
      n: Netlist<nat>, rank: nat -> nat, plain: nat -> Values<nat>, masked: nat -> Values<Masked>, resetn: nat -> bool,
      t: nat, w: nat)
    requires Acyclic(n, rank) && OneDriver(n) && IsRun(n, plain, resetn) && IsRun(Mask(n), masked, resetn)
    requires forall u: nat, x: nat :: IsInput(n, x) ==> Recombined(masked(u), x) == plain(u)(x)
    ensures Recombined(masked(t), w) == plain(t)(w)
    decreases t, rank(w)
  {
    assert Settled(n, plain(t)) && Settled(Mask(n), masked(t));
    if n.gate(w).Some? {
      CellRecombines(n, masked(t), w);
      assert ReadsBelow(n.gate(w).value, rank, rank(w));
      forall x: nat | rank(x) < rank(w) ensures Recombined(masked(t), x) == plain(t)(x) {
        MaskingKeepsMeaning(n, rank, plain, masked, resetn, t, x);
      }
    } else if n.flop(w).Some? {
      FlopHolds(n, plain, resetn, t, w);
      FlopHolds(Mask(n), masked, resetn, t, Share(w, 0));
      FlopHolds(Mask(n), masked, resetn, t, Share(w, 1));
      if t > 0 {
        MaskingKeepsMeaning(n, rank, plain, masked, resetn, t - 1, n.flop(w).value);
        assert Settled(Mask(n), masked(t - 1));
        assert Mask(n).gate(Inner(w, 0)).Some? && Mask(n).gate(Inner(w, 1)).Some?;
      }
    } else {
      assert IsInput(n, w);
    }
  }

  lemma FlopHolds<W(!new)>(n: Netlist<W>, run: nat -> Values<W>, resetn: nat -> bool, t: nat, q: W)
    requires IsRun(n, run, resetn) && n.flop(q).Some?
    ensures run(t)(q) == (t > 0 && resetn(t) && run(t - 1)(n.flop(q).value))
  {
    assert FlopsHold(n, run, resetn, t);
  }

  // ------------------------------------------------- shares stay separate

  /** Share k of a masked AND or OR depends on share k of its first input only, not on both. */
  lemma FirstInputApart(n: Netlist<nat>, v: Values<Masked>, v': Values<Masked>, w: nat, k: nat)
    requires Settled(Mask(n), v) && Settled(Mask(n), v') && n.gate(w).Some? && k < 2
    requires n.gate(w).value.And? || n.gate(w).value.Or?
    requires v(Share(n.gate(w).value.a, k)) == v'(Share(n.gate(w).value.a, k))
    requires forall j :: 0 <= j < 2 ==> v(Share(n.gate(w).value.b, j)) == v'(Share(n.gate(w).value.b, j))
    ensures v(Share(w, k)) == v'(Share(w, k))
  {
    var m := Mask(n);
    assert m.gate(Share(w, k)).Some?;
    assert m.gate(Inner(w, 1)).Some? && m.gate(Inner(w, 2)).Some?;
    assert m.gate(Inner(w, 3)).Some? && m.gate(Inner(w, 4)).Some?;
    if n.gate(w).value.And? { assert m.gate(Inner(w, 0)).Some?; }
  }

  /** A share of a linear gate depends on the same share of its inputs only. */
  lemma LinearGatesApart(n: Netlist<nat>, v: Values<Masked>, v': Values<Masked>, w: nat, k: nat)
    requires Settled(Mask(n), v) && Settled(Mask(n), v') && n.gate(w).Some? && k < 2
    requires n.gate(w).value.Xor? || n.gate(w).value.Inv? || n.gate(w).value.Buf?
    requires v(Share(n.gate(w).value.a, k)) == v'(Share(n.gate(w).value.a, k))
    requires n.gate(w).value.Xor? ==> v(Share(n.gate(w).value.b, k)) == v'(Share(n.gate(w).value.b, k))
    ensures v(Share(w, k)) == v'(Share(w, k))
  {
    assert Mask(n).gate(Share(w, k)).Some?;
  }

  /** Every flop refreshes its shares: what it holds after a clock is the share of its data with the random bit of
      that flop in the cycle before added. */
  lemma FlopsRefresh(n: Netlist<nat>, masked: nat -> Values<Masked>, resetn: nat -> bool, t: nat, w: nat, k: nat)
    requires IsRun(Mask(n), masked, resetn) && n.gate(w).None? && n.flop(w).Some? && k < 2 && resetn(t + 1)
    ensures masked(t + 1)(Share(w, k)) == (masked(t)(Share(n.flop(w).value, k)) != masked(t)(Random(w)))
  {
    FlopHolds(Mask(n), masked, resetn, t + 1, Share(w, k));
    assert Settled(Mask(n), masked(t));
    assert Mask(n).gate(Inner(w, k)).Some?;
  }

  // ------------------------------------------------------------ runs exist

  /** The value of a wire at cycle t when the undriven wires are chosen freely. */
  predicate ValueAt<W(!new)>(n: Netlist<W>, rank: W -> nat, free: nat -> Values<W>, resetn: nat -> bool, t: nat, w: W)
    decreases t, rank(w), 1
  {
    if n.gate(w).Some? then
      match n.gate(w).value
      case Xor(a, b) => ReadAt(n, rank, free, resetn, t, w, a) != ReadAt(n, rank, free, resetn, t, w, b)
      case Inv(a) => !ReadAt(n, rank, free, resetn, t, w, a)
      case Buf(a) => ReadAt(n, rank, free, resetn, t, w, a)
      case And(a, b) => ReadAt(n, rank, free, resetn, t, w, a) && ReadAt(n, rank, free, resetn, t, w, b)
      case Or(a, b) => ReadAt(n, rank, free, resetn, t, w, a) || ReadAt(n, rank, free, resetn, t, w, b)
    else if n.flop(w).Some? then
      t > 0 && resetn(t) && ValueAt(n, rank, free, resetn, t - 1, n.flop(w).value)
    else
      free(t)(w)
  }

  predicate ReadAt<W(!new)>(n: Netlist<W>, rank: W -> nat, free: nat -> Values<W>, resetn: nat -> bool, t: nat, w: W,
      a: W)
    decreases t, rank(w), 0
  {
    rank(a) < rank(w) && ValueAt(n, rank, free, resetn, t, a)
  }

  function RunOf<W(!new)>(n: Netlist<W>, rank: W -> nat, free: nat -> Values<W>,
      resetn: nat -> bool): nat -> Values<W> {
    (t: nat) => (w: W) => ValueAt(n, rank, free, resetn, t, w)
  }

  /** A netlist without combinational loop runs, whatever its undriven wires and reset do. */
  lemma LoopFreeRuns<W(!new)>(n: Netlist<W>, rank: W -> nat, free: nat -> Values<W>, resetn: nat -> bool)
    requires Acyclic(n, rank) && forall w :: n.gate(w).None? || n.flop(w).None?
    ensures IsRun(n, RunOf(n, rank, free, resetn), resetn)
    ensures forall t: nat, w :: n.gate(w).None? && n.flop(w).None? ==> RunOf(n, rank, free, resetn)(t)(w) == free(t)(w)
  {
    var run := RunOf(n, rank, free, resetn);
    forall t: nat ensures Settled(n, run(t)) && FlopsHold(n, run, resetn, t) {
      forall w | n.gate(w).Some? ensures run(t)(w) == GateValue(n.gate(w).value, run(t)) {
        GateRuns(n, rank, free, resetn, t, w);
      }
    }
  }

  lemma GateRuns<W(!new)>(n: Netlist<W>, rank: W -> nat, free: nat -> Values<W>, resetn: nat -> bool, t: nat, w: W)
    requires Acyclic(n, rank) && n.gate(w).Some?
    ensures RunOf(n, rank, free, resetn)(t)(w) == GateValue(n.gate(w).value, RunOf(n, rank, free, resetn)(t))
  {
    var v := RunOf(n, rank, free, resetn)(t);
    assert ReadsBelow(n.gate(w).value, rank, rank(w));
    forall a | rank(a) < rank(w) ensures ReadAt(n, rank, free, resetn, t, w, a) == v(a) {
    }
    match n.gate(w).value
    case Xor(a, b) =>
    case Inv(a) => assert v(w) == !ReadAt(n, rank, free, resetn, t, w, a);
    case Buf(a) => assert v(w) == ReadAt(n, rank, free, resetn, t, w, a);
    case And(a, b) =>
    case Or(a, b) =>
  }

  /** For every plain run, any random bits and any second shares of the inputs there is a masked run; its shares
      recombine to the plain run everywhere. */
  lemma MaskedRunExists(n: Netlist<nat>, rank: nat -> nat, plain: nat -> Values<nat>, resetn: nat -> bool,
                        randoms: nat -> Values<nat>, second: nat -> Values<nat>)
    returns (masked: nat -> Values<Masked>)
    requires Acyclic(n, rank) && OneDriver(n) && IsRun(n, plain, resetn)
    ensures IsRun(Mask(n), masked, resetn)
    ensures forall t: nat, w: nat :: masked(t)(Random(w)) == randoms(t)(w)
    ensures forall t: nat, x: nat :: IsInput(n, x) ==> masked(t)(Share(x, 1)) == second(t)(x)
    ensures forall t: nat, w: nat :: Recombined(masked(t), w) == plain(t)(w)
  {
    var free: nat -> Values<Masked> := (t: nat) => (m: Masked) =>
      match m
      case Share(x, k) => if k == 0 then plain(t)(x) != second(t)(x) else second(t)(x)
      case Inner(_, _) => false
      case Random(w) => randoms(t)(w);
    MaskIsAcyclic(n, rank);
    LoopFreeRuns(Mask(n), MaskedRank(n, rank), free, resetn);
    masked := RunOf(Mask(n), MaskedRank(n, rank), free, resetn);
    hide IsRun, Acyclic, RunOf;
    forall t: nat, x: nat | IsInput(n, x)
      ensures masked(t)(Share(x, 1)) == second(t)(x) && Recombined(masked(t), x) == plain(t)(x)
    {
      assert Mask(n).gate(Share(x, 0)).None? && Mask(n).flop(Share(x, 0)).None?;
      assert Mask(n).gate(Share(x, 1)).None? && Mask(n).flop(Share(x, 1)).None?;
    }
    forall t: nat, w: nat ensures Recombined(masked(t), w) == plain(t)(w) {
      MaskingKeepsMeaning(n, rank, plain, masked, resetn, t, w);
    }
  }

  // ------------------------------------------------------------- the wrapper

  /** The kinds of input port, by how the sixteen random bits of a cycle are spread over them. */
  datatype Port = Single(bit: nat) | Plain32 | Tag22 | Data64 | Fast15 | Enable4

  predicate HasBit(p: Port, j: nat) {
    match p
    case Single(bit) => j == 0 && bit < 16
    case Plain32 => j < 32
    case Tag22 => j < 22
    case Data64 => j < 64
    case Fast15 => j < 15
    case Enable4 => j < 4
  }

  /** The random bit that masks bit j of the port. */
  function RandomIndex(p: Port, j: nat): (r: nat)
    requires HasBit(p, j)
    ensures r < 16
  {
    match p
    case Single(bit) => bit
    case Plain32 => j % 16
    case Tag22 => if j < 6 then j else j - 6
    case Data64 => j % 16
    case Fast15 => j
    case Enable4 => j
  }

  /** The share the wrapper drives for bit j of a port. */
  predicate SplitBit(randbits: seq<bool>, p: Port, j: nat, value: bool, k: nat)
    requires |randbits| == 16 && HasBit(p, j)
  {
    if k == 0 then value != randbits[RandomIndex(p, j)] else randbits[RandomIndex(p, j)]
  }

  /** Each share of an input bit alone says nothing about it: with the other value of the random bit the share has
      the other value, whatever the bit is. */
  lemma SplitHides(randbits: seq<bool>, p: Port, j: nat, value: bool, k: nat)
    requires |randbits| == 16 && HasBit(p, j) && k < 2
    ensures var r := RandomIndex(p, j);
            SplitBit(randbits[r := !randbits[r]], p, j, value, k) != SplitBit(randbits, p, j, value, k)
  {
  }

  /** Bits of one port share a random bit only if they are 16 apart, or, in the 22-bit ports, 6 apart. */
  lemma RandomSpread(p: Port, j: nat, j': nat)
    requires HasBit(p, j) && HasBit(p, j') && j < j' && RandomIndex(p, j) == RandomIndex(p, j')
    ensures if p.Tag22? then j' == j + 6 else (p.Plain32? || p.Data64?) && (j' - j) % 16 == 0
  {
  }

  datatype PortBit = PortBit(port: Port, j: nat)

  /** The wrapped core: inputs split, masked netlist, outputs recombined. What an observer of the wrapper
      sees on a wire is what the plain netlist computes, for any random bits in any cycle. */
  lemma WrapperIsTransparent(n: Netlist<nat>, rank: nat -> nat, plain: nat -> Values<nat>,
                             masked: nat -> Values<Masked>, resetn: nat -> bool, randbits: nat -> seq<bool>,
                             pin: nat -> PortBit, t: nat, w: nat)
    requires Acyclic(n, rank) && OneDriver(n) && IsRun(n, plain, resetn) && IsRun(Mask(n), masked, resetn)
    requires forall u: nat :: |randbits(u)| == 16
    requires forall x: nat :: IsInput(n, x) ==> HasBit(pin(x).port, pin(x).j)
    requires forall u: nat, x: nat, k: nat :: IsInput(n, x) && k < 2 ==>
               masked(u)(Share(x, k)) == SplitBit(randbits(u), pin(x).port, pin(x).j, plain(u)(x), k)
    ensures Recombined(masked(t), w) == plain(t)(w)
  {
    forall u: nat, x: nat | IsInput(n, x) ensures Recombined(masked(u), x) == plain(u)(x) {
      assert masked(u)(Share(x, 0)) == SplitBit(randbits(u), pin(x).port, pin(x).j, plain(u)(x), 0);
      assert masked(u)(Share(x, 1)) == SplitBit(randbits(u), pin(x).port, pin(x).j, plain(u)(x), 1);
    }
    MaskingKeepsMeaning(n, rank, plain, masked, resetn, t, w);
  }
}
