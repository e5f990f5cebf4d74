/**
  Meaning across any number of optimiser runs: acyclic netlists have exactly one model for each
  choice of their free bits, so the runs compose.
 */
module MuxRounds {
  import opened MuxNetlist
  import opened MuxKnowledge
  import opened MuxPruning
  import opened MuxReaders

  /** The value of a bit computed from the values of the free bits. */
  ghost function EvalBit(g: Gates, n: Netlist, env: Valuation, b: nat): bool
    requires WellFormed(n) && |env| == |n.drv| && b < |n.drv|
    decreases n.rank[b]
  {
    assert DriverOk(n, b);
    match n.drv[b]
    case Free => env[b]
    case Gate(op, ins) => g(op, seq(|ins|, i requires 0 <= i < |ins| => EvalSig(g, n, env, b, ins[i])))
    case Alias(src) => EvalSig(g, n, env, b, src)
    case MuxOut(c, off) =>
      var cell := n.cells[c];
      var p := EvalActive(g, n, env, b, cell, 0);
      assert |cell.d[p]| == |cell.d[0]|;
      EvalSig(g, n, env, b, cell.d[p][off])
  }

  ghost function EvalSig(g: Gates, n: Netlist, env: Valuation, b: nat, t: Sig): bool
    requires WellFormed(n) && |env| == |n.drv| && b < |n.drv| && Below(n, t, b)
    decreases n.rank[b], 0
  {
    if t.Const? then t.bit else EvalBit(g, n, env, t.id)
  }

  ghost function EvalActive(g: Gates, n: Netlist, env: Valuation, b: nat, cell: Cell, i: nat): (p: nat)
    requires WellFormed(n) && |env| == |n.drv| && b < |n.drv|
    requires cell.Mux? && i <= |cell.s| && forall j :: 0 <= j < |cell.s| ==> Below(n, cell.s[j], b)
    ensures p <= |cell.s|
    decreases n.rank[b], 1, |cell.s| - i
  {
    if i == |cell.s| || EvalSig(g, n, env, b, cell.s[i]) then i else EvalActive(g, n, env, b, cell, i + 1)
  }

  ghost function Eval(g: Gates, n: Netlist, env: Valuation): Valuation
    requires WellFormed(n) && |env| == |n.drv|
  {
    seq(|n.drv|, b requires 0 <= b < |n.drv| => EvalBit(g, n, env, b))
  }

  lemma {:induction false} EvalActiveIsActive(g: Gates, n: Netlist, env: Valuation, b: nat, cell: Cell, i: nat)
    requires WellFormed(n) && |env| == |n.drv| && b < |n.drv|
    requires cell.Mux? && i <= |cell.s| && forall j :: 0 <= j < |cell.s| ==> Below(n, cell.s[j], b)
    requires SelectsInRange(Eval(g, n, env), cell)
    ensures EvalActive(g, n, env, b, cell, i) == ActiveFrom(Eval(g, n, env), cell, i)
    decreases |cell.s| - i
  {
    if i < |cell.s| { EvalActiveIsActive(g, n, env, b, cell, i + 1); }
  }

  /** An acyclic netlist has a model for every choice of its free bits. */
  lemma EvalModels(g: Gates, n: Netlist, env: Valuation)
    requires WellFormed(n) && |env| == |n.drv|
    ensures Models(g, n, Eval(g, n, env)) && FreeAgree(n, env, Eval(g, n, env))
  {
    var v := Eval(g, n, env);
    forall b | 0 <= b < |n.drv| ensures Holds(g, n, v, b) {
      assert DriverOk(n, b);
      assert forall t: Sig :: Below(n, t, b) ==> EvalSig(g, n, env, b, t) == Val(v, t);
      match n.drv[b]
      case Gate(op, ins) =>
        assert Vals(v, ins) == seq(|ins|, i requires 0 <= i < |ins| => EvalSig(g, n, env, b, ins[i]));
      case MuxOut(c, off) =>
        EvalActiveIsActive(g, n, env, b, n.cells[c], 0);
        assert Below(n, n.cells[c].d[Active(v, n.cells[c])][off], b);
      case Alias(src) =>
        assert Below(n, src, b);
      case Free =>
    }
  }

  /** ... and only one. */
  lemma {:induction false} ModelIsUnique(g: Gates, n: Netlist, v: Valuation, v': Valuation, b: nat)
    requires WellFormed(n) && Models(g, n, v) && Models(g, n, v') && FreeAgree(n, v, v') && b < |n.drv|
    ensures v'[b] == v[b]
    decreases n.rank[b]
  {
    assert DriverOk(n, b) && Holds(g, n, v, b) && Holds(g, n, v', b);
    forall t: Sig | Below(n, t, b) ensures Val(v', t) == Val(v, t) {
      if t.Wire? { ModelIsUnique(g, n, v, v', t.id); }
    }
    match n.drv[b]
    case Gate(op, ins) =>
      assert forall i :: 0 <= i < |ins| ==> Below(n, ins[i], b);
      assert Vals(v, ins) == Vals(v', ins);
    case MuxOut(c, off) =>
      var cell := n.cells[c];
      assert forall i :: 0 <= i < |cell.s| ==> Below(n, cell.s[i], b);
      SameActive(v, v', cell, 0);
      assert Below(n, cell.d[Active(v, cell)][off], b);
    case _ =>
  }

  /** Selects are seen, so a valuation that agrees on seen bits is one-hot as well. */
  lemma OneHotCarries(n: Netlist, n': Netlist, v: Valuation, w: Valuation)
    requires WellFormed(n) && WellFormed(n') && StructureKept(n, n') && SeenAgree(n, v, w) && OneHot(n, v)
    ensures OneHot(n', w)
  {
    forall c, i, j | 0 <= c < |n.cells| && n.cells[c].Mux? && 0 <= i < j < |n.cells[c].s|
      ensures !(Val(w, n.cells[c].s[i]) && Val(w, n.cells[c].s[j]))
    {
      assert CellOk(n, n.cells[c]);
      assert forall k :: 0 <= k < |n.cells[c].s| && Rep(n, n.cells[c].s[k]).Wire? ==>
                           SelectIs(n, c, k, Rep(n, n.cells[c].s[k]).id);
      assert Val(w, n.cells[c].s[i]) == Val(v, n.cells[c].s[i]);
      assert Val(w, n.cells[c].s[j]) == Val(v, n.cells[c].s[j]);
    }
    assert OneHot(n, w);
  }

  /** What one run does to a module. */
  ghost predicate Step(n: Netlist, n': Netlist) {
    && WellFormed(n) && WellFormed(n') && StructureKept(n, n')
    && (Replaceable(n) ==> SameMeaning(n, n'))
    && (Repeatable(n) ==> Repeatable(n'))
  }

  ghost predicate Chain(h: seq<Netlist>) {
    && |h| > 0 && (forall i :: 0 <= i < |h| ==> WellFormed(h[i]))
    && (forall i :: 0 <= i < |h| - 1 ==> Step(h[i], h[i + 1]))
  }

  /** n' comes out of n by some number of runs. */
  ghost predicate Chained(n: Netlist, n': Netlist) {
    exists h: seq<Netlist> :: Chain(h) && h[0] == n && h[|h| - 1] == n'
  }

  lemma NoRunYet(n: Netlist)
    requires WellFormed(n)
    ensures Chained(n, n)
  {
    assert Chain([n]);
  }

  lemma ExtendChain(n: Netlist, n': Netlist, n'': Netlist)
    requires Chained(n, n') && Step(n', n'')
    ensures WellFormed(n'') && Chained(n, n'')
  {
    hide WellFormed, StructureKept, Replaceable, SameMeaning, Repeatable;
    var h :| Chain(h) && h[0] == n && h[|h| - 1] == n';
    assert Chain(h + [n'']) && (h + [n''])[|h|] == n'';
  }

  /** Any number of runs keeps the value of every kept bit if each run started from a netlist in which
      known bits can be replaced. */
  lemma {:induction false} StepsKeepMeaning(g: Gates, h: seq<Netlist>, v: Valuation, v': Valuation)
    requires Chain(h) && forall i :: 0 <= i < |h| - 1 ==> Replaceable(h[i])
    requires Models(g, h[0], v) && OneHot(h[0], v) && Models(g, h[|h| - 1], v') && FreeAgree(h[0], v, v')
    ensures forall k :: k in h[0].keep ==> k < |v| == |v'| && v'[k] == v[k]
    decreases |h|
  {
    var n := h[0];
    if |h| == 1 {
      forall k | k in n.keep ensures v'[k] == v[k] {
        ModelIsUnique(g, n, v, v', k);
      }
    } else {
      var n' := h[1];
      assert Step(n, n');
      var w := Eval(g, n', v');
      EvalModels(g, n', v');
      assert FreeAgree(n, v, w);
      assert SeenAgree(n, v, w);
      OneHotCarries(n, n', v, w);
      assert h[1..][|h| - 2] == h[|h| - 1];
      StepsKeepMeaning(g, h[1..], w, v');
      forall k | k in n.keep ensures v'[k] == v[k] {
        assert Rep(n, Wire(k)).Wire? ==> SeenNonMux(n, Rep(n, Wire(k)).id);
        assert Val(w, Wire(k)) == Val(v, Wire(k));
      }
    }
  }

  /** Every kept bit has the same value in both netlists when the free bits have. */
  ghost predicate KeepsKept(n: Netlist, n': Netlist)
    requires WellFormed(n) && WellFormed(n')
  {
    forall g: Gates, v: Valuation, v': Valuation |
        Models(g, n, v) && OneHot(n, v) && Models(g, n', v') && FreeAgree(n, v, v')
      :: KeptAgree(n, v, v')
  }

  predicate KeptAgree(n: Netlist, v: Valuation, v': Valuation) {
    forall k :: k in n.keep ==> k < |v| == |v'| && v'[k] == v[k]
  }

  lemma {:induction false} RepeatableThroughout(h: seq<Netlist>, i: nat)
    requires Chain(h) && Repeatable(h[0]) && i < |h|
    ensures Repeatable(h[i])
    decreases i
  {
    hide WellFormed, Repeatable, StructureKept, SameMeaning, Replaceable;
    if i > 0 {
      RepeatableThroughout(h, i - 1);
      assert Step(h[i - 1], h[i - 1 + 1]);
    }
  }

  /** From a design without repeated selects, whose muxes that drive selects have no constant select, and whose
      muxes have one reader each or are roots for good without constant selects, any number of runs keeps the
      value of every output, kept wire and register input. */
  lemma RoundsKeepMeaning(n: Netlist, n': Netlist)
    requires Chained(n, n') && WellFormed(n) && Repeatable(n)
    ensures WellFormed(n') && KeepsKept(n, n')
  {
    hide WellFormed, Repeatable, StructureKept, SameMeaning, Replaceable, Holds, OneHot, FreeAgree;
    var h :| Chain(h) && h[0] == n && h[|h| - 1] == n';
    forall i | 0 <= i < |h| - 1 ensures WellFormed(h[i]) && Replaceable(h[i]) {
      RepeatableThroughout(h, i);
      RepeatableIsReplaceable(h[i]);
    }
    forall g: Gates, v, v' | Models(g, n, v) && OneHot(n, v) && Models(g, n', v') && FreeAgree(n, v, v')
      ensures KeptAgree(n, v, v')
    {
      StepsKeepMeaning(g, h, v, v');
    }
  }
}
