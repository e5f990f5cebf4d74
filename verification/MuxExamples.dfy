/**
  Netlists for which a run of the mux-tree optimiser, or a second run, changes an output.
 */
module MuxExamples {
  import opened MuxNetlist
  import opened MuxKnowledge
  import opened MuxPruning
  import opened MuxWalk
  import opened MuxRounds
  import opened MuxSmallRuns

  /** No select is constant. */
  predicate WireSelects(n: Netlist)
    requires WellFormed(n)
  {
    forall c, i :: 0 <= c < |n.cells| && n.cells[c].Mux? && 0 <= i < |n.cells[c].s| ==> Ctrl(n, c, i).Wire?
  }

  // ------------------------------------------------------- repeated selects

  /** A three-select mux whose first two selects are the same wire. */
  function DuplicateSelects(): Netlist {
    Netlist([Free, Free, MuxOut(0, 0)],
            [Mux([Wire(0), Wire(0), Wire(1)], [[Const(false)], [Const(false)], [Wire(1)], [Const(false)]])],
            {2}, [0, 0, 1])
  }

  /** What a run makes of it: the data bit that is the third select has become 0. */
  function DuplicateSelectsAfter(): Netlist {
    var n := DuplicateSelects();
    Netlist(n.drv,
            [Mux([Wire(0), Wire(0), Wire(1)], [[Const(false)], [Const(false)], [Const(false)], [Const(false)]])],
            n.keep, n.rank)
  }

  lemma DuplicateSelectsWellFormed()
    ensures WellFormed(DuplicateSelects())
    ensures forall t: Sig | InRange(DuplicateSelects(), t) :: Rep(DuplicateSelects(), t) == t
  {
    hide Rep;
    var n := DuplicateSelects();
    assert CellOk(n, n.cells[0]);
    assert DriverOk(n, 0) && DriverOk(n, 1) && DriverOk(n, 2);
    forall t: Sig | InRange(n, t) ensures Rep(n, t) == t {
      NoAlias(n, t);
    }
  }

  lemma DuplicateSelectsNumbered()
    ensures WellFormed(DuplicateSelects()) && Numbered(DuplicateSelects(), 0, 3) == [0, 1]
    ensures CtrlSig(DuplicateSelects(), 0, 0) == 0 == CtrlSig(DuplicateSelects(), 0, 1)
    ensures CtrlSig(DuplicateSelects(), 0, 2) == 1
  {
    DuplicateSelectsWellFormed();
    hide Rep, WellFormed;
    var n := DuplicateSelects();
    assert CtrlSig(n, 0, 0) == 0 && CtrlSig(n, 0, 1) == 0 && CtrlSig(n, 0, 2) == 1;
    assert Numbered(n, 0, 1) == [0];
    assert Numbered(n, 0, 2) == [0];
  }

  lemma DuplicateSelectsRoot()
    ensures WellFormed(DuplicateSelects()) && PureRoots(DuplicateSelects()) == {0} == Roots(DuplicateSelects())
  {
    DuplicateSelectsWellFormed();
    hide Rep, WellFormed;
    var n := DuplicateSelects();
    assert Rep(n, Wire(2)) == Wire(2) && SeenNonMux(n, 2);
    assert n.drv[2].MuxOut? && IsPureRoot(n, 0);
  }

  lemma DuplicateSelectsRewritten()
    ensures WellFormed(DuplicateSelects()) && SameShape(DuplicateSelects(), DuplicateSelects().cells)
    ensures Rewritten(DuplicateSelects(), 0, Nothing(DuplicateSelects(), 0), DuplicateSelects().cells)
         == DuplicateSelectsAfter().cells
  {
    DuplicateSelectsWellFormed();
    DuplicateSelectsNumbered();
    hide Rep, WellFormed, Numbered;
    var n := DuplicateSelects();
    UnchangedShape(n);
    var k := Nothing(n, 0);
    var r := Rewritten(n, 0, k, n.cells);
    assert IndexOf([0, 1], 1) == 1;
    assert Replaced(n, 0, 2, k, Wire(1)) == Const(false);
    assert r[0].d[0] == [Const(false)] && r[0].d[1] == [Const(false)] && r[0].d[3] == [Const(false)];
    assert r[0].d[2] == [Const(false)];
    assert r[0].d == DuplicateSelectsAfter().cells[0].d;
  }

  lemma DuplicateSelectsOptimised(order: Order)
    requires IsOrder(order)
    ensures WellFormed(DuplicateSelects()) && Optimised(DuplicateSelects(), order) == DuplicateSelectsAfter()
  {
    DuplicateSelectsWellFormed();
    DuplicateSelectsNumbered();
    DuplicateSelectsRoot();
    DuplicateSelectsRewritten();
    var n := DuplicateSelects();
    hide Rep, WellFormed, Numbered, WalkMux, WalkRoots, WalkRerun, Rewritten, IsOrder, PureRoots, Roots, Pruned;
    var k, w := Nothing(n, 0), Initial(n);
    forall p | 0 <= p <= 3 ensures InputMuxes(n, 0, p) == {} {
      OneBitInputs(n, 0, p);
    }
    LeafWalk(n, order, w, k, 0, Mode(true, true, 3));
    assert w.rerun - {0} == {} == w.rerun;
    var w1 := Work({0}, {}, PortsFrom(n, 0, 0), DuplicateSelectsAfter().cells, LIMIT - 1);
    assert w.enabled + PortsFrom(n, 0, 0) == PortsFrom(n, 0, 0);
    assert WalkRoot(n, order, w, 0) == w1;
    RootsStep(n, order, w, 0, w1);
    RootsEnd(n, order, w1);
    RerunEnd(n, order, w1);
    SameShapeWellFormed(n, w1.cells, w1.enabled);
  }

  lemma DuplicateSelectsWrong()
    ensures WellFormed(DuplicateSelects()) && SinglePort(DuplicateSelects()) && !OwnSelectsRight(DuplicateSelects())
  {
    DuplicateSelectsWellFormed();
    DuplicateSelectsNumbered();
    DuplicateSelectsRoot();
    hide Rep, WellFormed, Numbered, Roots;
    var n := DuplicateSelects();
    assert IndexOf([0, 1], 1) == 1;
    assert n.cells[0].d[2][0] == Wire(1) && !OwnPlaceRight(n, 0, 2, Wire(1));
    assert !OwnSelectsRightAt(n, 0);
  }

  lemma DuplicateSelectsAfterWellFormed()
    ensures WellFormed(DuplicateSelectsAfter())
  {
    var n := DuplicateSelectsAfter();
    assert CellOk(n, n.cells[0]);
    assert DriverOk(n, 0) && DriverOk(n, 1) && DriverOk(n, 2);
  }

  lemma DuplicateSelectsModels(g: Gates, v: Valuation)
    requires v == [false, true, true]
    ensures WellFormed(DuplicateSelects()) && Models(g, DuplicateSelects(), v) && OneHot(DuplicateSelects(), v)
  {
    DuplicateSelectsWellFormed();
    var n := DuplicateSelects();
    hide Rep, WellFormed;
    assert ActiveFrom(v, n.cells[0], 2) == 2 && ActiveFrom(v, n.cells[0], 1) == 2;
  }

  lemma DuplicateSelectsAfterModels(g: Gates, v: Valuation)
    requires v == [false, true, false]
    ensures WellFormed(DuplicateSelectsAfter()) && Models(g, DuplicateSelectsAfter(), v)
  {
    DuplicateSelectsAfterWellFormed();
    var n := DuplicateSelectsAfter();
    hide Rep, WellFormed;
    assert ActiveFrom(v, n.cells[0], 2) == 2 && ActiveFrom(v, n.cells[0], 1) == 2;
  }

  lemma DuplicateSelectsFree(v: Valuation, v': Valuation)
    requires v == [false, true, true] && v' == [false, true, false]
    ensures FreeAgree(DuplicateSelects(), v, v')
  {
  }

  /** A run changes the output of a mux with repeated selects: with the third select and no other set, the
      output was 1 and becomes 0. */
  lemma DuplicateSelectBreaksReplacement(order: Order, g: Gates, v: Valuation, v': Valuation)
    requires IsOrder(order) && v == [false, true, true] && v' == [false, true, false]
    ensures WellFormed(DuplicateSelects()) && SinglePort(DuplicateSelects()) && !OwnSelectsRight(DuplicateSelects())
    ensures WellFormed(Optimised(DuplicateSelects(), order))
    ensures Models(g, DuplicateSelects(), v) && OneHot(DuplicateSelects(), v) && FreeAgree(DuplicateSelects(), v, v')
    ensures Models(g, Optimised(DuplicateSelects(), order), v') && 2 in DuplicateSelects().keep
    ensures !KeepsKept(DuplicateSelects(), Optimised(DuplicateSelects(), order))
  {
    hide WellFormed, SinglePort, OwnSelectsRight, Models, OneHot, FreeAgree, Optimised, KeepsKept;
    DuplicateSelectsWrong();
    DuplicateSelectsModels(g, v);
    DuplicateSelectsAfterModels(g, v');
    DuplicateSelectsFree(v, v');
    DuplicateSelectsOptimised(order);
    NotKept(DuplicateSelects(), DuplicateSelectsAfter(), g, v, v', 2);
  }

  lemma NotKept(n: Netlist, n': Netlist, g: Gates, v: Valuation, v': Valuation, k: nat)
    requires WellFormed(n) && WellFormed(n') && Models(g, n, v) && OneHot(n, v) && Models(g, n', v')
    requires FreeAgree(n, v, v') && k in n.keep && k < |v| == |v'| && v[k] != v'[k]
    ensures !KeepsKept(n, n')
  {
    hide WellFormed, Models, OneHot, FreeAgree;
    assert !KeptAgree(n, v, v');
  }

  // ---------------------------------------------------------- a second run

  /** Mux 0 is read by mux 1 and by port 1 of mux 2; mux 1, behind port 0 of mux 2, has the select of mux 2. */
  function Shrinking(): Netlist {
    Netlist([Free, Free, Free, Free, MuxOut(0, 0), MuxOut(1, 0), MuxOut(2, 0)],
            [Mux([Wire(1)], [[Wire(0)], [Wire(2)]]), Mux([Wire(0)], [[Wire(4)], [Wire(3)]]),
             Mux([Wire(0)], [[Wire(5)], [Wire(4)]])],
            {6}, [0, 0, 0, 0, 1, 2, 3])
  }

  /** After one run mux 1 is gone and mux 0 feeds both ports of mux 2. */
  function ShrinkingOnce(): Netlist {
    Netlist([Free, Free, Free, Free, MuxOut(0, 0), Alias(Wire(4)), MuxOut(2, 0)],
            [Mux([Wire(1)], [[Wire(0)], [Wire(2)]]), Removed, Mux([Wire(0)], [[Wire(5)], [Wire(4)]])],
            {6}, [0, 0, 0, 0, 1, 2, 3])
  }

  function ShrinkingTwice(): Netlist {
    Netlist([Free, Free, Free, Free, MuxOut(0, 0), Alias(Wire(4)), MuxOut(2, 0)],
            [Mux([Wire(1)], [[Const(true)], [Wire(2)]]), Removed, Mux([Wire(0)], [[Wire(5)], [Wire(4)]])],
            {6}, [0, 0, 0, 0, 1, 2, 3])
  }

  lemma ShrinkingDrivers()
    requires forall c :: 0 <= c < 3 ==> CellOk(Shrinking(), Shrinking().cells[c])
    ensures forall b :: 0 <= b < 7 ==> DriverOk(Shrinking(), b)
  {
    var n := Shrinking();
    PairDriver(n, 4, 0, Wire(1), Wire(0), Wire(2));
    PairDriver(n, 5, 1, Wire(0), Wire(4), Wire(3));
    PairDriver(n, 6, 2, Wire(0), Wire(5), Wire(4));
    hide CellOk;
    assert DriverOk(n, 0) && DriverOk(n, 1) && DriverOk(n, 2) && DriverOk(n, 3);
  }

  lemma ShrinkingWellFormed()
    ensures WellFormed(Shrinking())
    ensures forall t: Sig | InRange(Shrinking(), t) :: Rep(Shrinking(), t) == t
  {
    hide Rep, CellOk;
    var n := Shrinking();
    PairOk(n, Wire(1), Wire(0), Wire(2));
    PairOk(n, Wire(0), Wire(4), Wire(3));
    PairOk(n, Wire(0), Wire(5), Wire(4));
    hide DriverOk;
    ShrinkingDrivers();
    assert WellFormed(n);
    hide WellFormed;
    forall t: Sig | InRange(n, t) ensures Rep(n, t) == t {
      NoAlias(n, t);
    }
  }

  lemma ShrinkingInputs()
    ensures WellFormed(Shrinking())
    ensures InputMuxes(Shrinking(), 0, 0) == {} == InputMuxes(Shrinking(), 0, 1)
    ensures InputMuxes(Shrinking(), 1, 0) == {0} && InputMuxes(Shrinking(), 1, 1) == {}
    ensures InputMuxes(Shrinking(), 2, 0) == {1} && InputMuxes(Shrinking(), 2, 1) == {0}
  {
    ShrinkingWellFormed();
    hide Rep, WellFormed, InputMuxes;
    var n := Shrinking();
    OneBitInputs(n, 0, 0);
    OneBitInputs(n, 0, 1);
    OneBitInputs(n, 1, 0);
    OneBitInputs(n, 1, 1);
    OneBitInputs(n, 2, 0);
    OneBitInputs(n, 2, 1);
  }

  lemma ShrinkingSelects()
    ensures WellFormed(Shrinking())
    ensures Ctrl(Shrinking(), 0, 0) == Wire(1) && Ctrl(Shrinking(), 1, 0) == Wire(0) == Ctrl(Shrinking(), 2, 0)
    ensures CtrlSig(Shrinking(), 0, 0) == 1 && CtrlSig(Shrinking(), 1, 0) == 0 == CtrlSig(Shrinking(), 2, 0)
    ensures CtrlSig(Shrinking(), 0, 1) == CtrlSig(Shrinking(), 1, 1) == CtrlSig(Shrinking(), 2, 1) == -1
  {
    ShrinkingWellFormed();
    hide Rep, WellFormed;
  }

  lemma ShrinkingNumbered()
    ensures WellFormed(Shrinking())
    ensures Numbered(Shrinking(), 0, 1) == [1] && Numbered(Shrinking(), 1, 1) == [0] == Numbered(Shrinking(), 2, 1)
  {
    ShrinkingSelects();
    hide Rep, WellFormed, CtrlSig, Ctrl;
    var n := Shrinking();
    assert Numbered(n, 0, 0) == [] && Numbered(n, 1, 0) == [] && Numbered(n, 2, 0) == [];
  }

  /** With one kept bit, no gates and selects among a few wires, nothing else is seen outside mux data ports. */
  lemma OnlySeen(n: Netlist, k: nat, selects: set<nat>)
    requires WellFormed(n) && k < |n.drv| && n.keep == {k} && Rep(n, Wire(k)) == Wire(k)
    requires forall x :: 0 <= x < |n.drv| ==> !n.drv[x].Gate?
    requires forall c, i :: 0 <= c < |n.cells| && n.cells[c].Mux? && 0 <= i < |n.cells[c].s| ==>
               n.cells[c].s[i].Wire? && n.cells[c].s[i].id in selects
    requires forall x :: x in selects ==> x < |n.drv| && Rep(n, Wire(x)) == Wire(x)
    ensures SeenNonMux(n, k) && forall b: nat :: b != k && b !in selects ==> !SeenNonMux(n, b)
  {
    hide Rep, DriverOk;
    assert k in n.keep;
    forall b: nat, c, i | 0 <= c < |n.cells| && n.cells[c].Mux? && 0 <= i < |n.cells[c].s| && SelectIs(n, c, i, b)
      ensures b in selects
    {
      assert n.cells[c].s[i] == Wire(n.cells[c].s[i].id);
    }
  }

  lemma ShrinkingShape()
    ensures var n := Shrinking();
            && |n.drv| == 7 && (forall x :: 0 <= x < |n.drv| ==> !n.drv[x].Gate?)
            && forall c, i :: 0 <= c < |n.cells| && n.cells[c].Mux? && 0 <= i < |n.cells[c].s| ==>
                 n.cells[c].s[i].Wire? && n.cells[c].s[i].id in {0, 1}
  {
  }

  lemma ShrinkingSeen()
    ensures WellFormed(Shrinking())
    ensures !SeenNonMux(Shrinking(), 4) && !SeenNonMux(Shrinking(), 5) && SeenNonMux(Shrinking(), 6)
  {
    ShrinkingWellFormed();
    ShrinkingShape();
    var n := Shrinking();
    assert Rep(n, Wire(6)) == Wire(6) && Rep(n, Wire(0)) == Wire(0) && Rep(n, Wire(1)) == Wire(1);
    assert n.keep == {6};
    hide Rep, WellFormed, SeenNonMux, Shrinking;
    OnlySeen(n, 6, {0, 1});
  }

  lemma ShrinkingRoots()
    ensures WellFormed(Shrinking()) && Roots(Shrinking()) == {0, 2} && PureRoots(Shrinking()) == {2}
  {
    ShrinkingSeen();
    ShrinkingInputs();
    var n := Shrinking();
    hide Rep, WellFormed, InputMuxes, SeenNonMux;
    assert n.drv[6].MuxOut? && IsPureRoot(n, 2) && !IsPureRoot(n, 0) && !IsPureRoot(n, 1);
    assert Uses(n, 1, 0) && Uses(n, 2, 0) && Uses(n, 2, 1) && !Uses(n, 0, 0) && !Uses(n, 0, 1) && !Uses(n, 1, 1);
    assert Users(n, 0) == {1, 2} && Users(n, 1) == {2};
  }

  lemma ShrinkingSinglePort()
    ensures WellFormed(Shrinking()) && SinglePort(Shrinking())
  {
    ShrinkingRoots();
    ShrinkingInputs();
    hide Rep, WellFormed, InputMuxes, Roots, PureRoots;
  }

  lemma ShrinkingReplaceable()
    ensures WellFormed(Shrinking()) && Replaceable(Shrinking()) && DistinctSelects(Shrinking())
        && WireSelects(Shrinking())
  {
    ShrinkingSinglePort();
    ShrinkingSelects();
    hide Rep, WellFormed, CtrlSig, Ctrl, OwnSelectsRight, SinglePort;
    DistinctIsRight(Shrinking());
  }

  lemma ShrinkingUnknown(c: nat, k: Knowledge, x: nat, y: nat)
    requires c < 3 && x < 7 && y < 7 && x != y && Shrinking().cells[c].d == [[Wire(x)], [Wire(y)]]
    requires Sized(Shrinking(), k) && (forall b | b == x || b == y :: k.inactive[b] == 0 == k.active[b])
    ensures WellFormed(Shrinking()) && SameShape(Shrinking(), Shrinking().cells)
    ensures Rewritten(Shrinking(), c, k, Shrinking().cells) == Shrinking().cells
  {
    var n := Shrinking();
    ShrinkingWellFormed();
    ShrinkingNumbered();
    UnchangedShape(n);
    hide Rep, WellFormed, SameShape, Numbered, Rewritten;
    UnknownMux(n, c, k, n.cells, x, y);
  }

  lemma ShrinkingKept()
    ensures WellFormed(Shrinking()) && SameShape(Shrinking(), Shrinking().cells)
    ensures var n := Shrinking();
            && Rewritten(n, 0, Nothing(n, 0), n.cells) == n.cells && Rewritten(n, 2, Nothing(n, 2), n.cells) == n.cells
            && Rewritten(n, 1, Extended(n, 2, 0, Nothing(n, 2)), n.cells) == n.cells
  {
    ShrinkingNested();
    NestedKnowledge(Shrinking(), 2, 1, 0);
    ShrinkingSelects();
    hide WellFormed, SameShape, Rewritten, Extended, Open, Nested, CtrlSig;
    var n := Shrinking();
    ShrinkingUnknown(0, Nothing(n, 0), 0, 2);
    ShrinkingUnknown(2, Nothing(n, 2), 5, 4);
    ShrinkingUnknown(1, Extended(n, 2, 0, Nothing(n, 2)), 4, 3);
  }

  lemma ShrinkingLive()
    ensures LivePorts(NestedPorts(2, 1, 0), 0, 2) == [0, 1] == LivePorts(NestedPorts(2, 1, 0), 2, 2)
        && LivePorts(NestedPorts(2, 1, 0), 1, 2) == [0]
  {
    hide LivePorts;
    TwoLive(NestedPorts(2, 1, 0), 0);
    TwoLive(NestedPorts(2, 1, 0), 1);
    TwoLive(NestedPorts(2, 1, 0), 2);
  }

  lemma ShrinkingPrunedCell(c: nat)
    requires c < 3
    ensures WellFormed(Shrinking()) && SameShape(Shrinking(), Shrinking().cells)
    ensures PrunedCellAt(Shrinking(), Shrinking().cells, NestedPorts(2, 1, 0), c) == ShrinkingOnce().cells[c]
  {
    ShrinkingWellFormed();
    UnchangedShape(Shrinking());
    hide Rep, WellFormed, SameShape, PrunedCellAt;
    PrunedPair(Shrinking(), Shrinking().cells, NestedPorts(2, 1, 0), c);
  }

  lemma ShrinkingPrunedCells()
    ensures WellFormed(Shrinking()) && SameShape(Shrinking(), Shrinking().cells)
    ensures Pruned(Shrinking(), Shrinking().cells, NestedPorts(2, 1, 0)).cells == ShrinkingOnce().cells
  {
    ShrinkingPrunedCell(0);
    ShrinkingPrunedCell(1);
    ShrinkingPrunedCell(2);
    hide Rep, WellFormed, SameShape, LivePorts, PrunedAt, PrunedCellAt;
    assert Pruned(Shrinking(), Shrinking().cells, NestedPorts(2, 1, 0)).cells == ShrinkingOnce().cells;
  }

  lemma ShrinkingPruned()
    ensures WellFormed(Shrinking()) && SameShape(Shrinking(), Shrinking().cells)
    ensures Pruned(Shrinking(), Shrinking().cells, NestedPorts(2, 1, 0)) == ShrinkingOnce()
  {
    ShrinkingWellFormed();
    ShrinkingLive();
    ShrinkingPrunedCells();
    var n := Shrinking();
    hide Rep, WellFormed, SameShape, LivePorts, PrunedCellAt;
    var n' := Pruned(n, n.cells, NestedPorts(2, 1, 0));
    forall b | 0 <= b < 7 ensures n'.drv[b] == ShrinkingOnce().drv[b] {
      assert n'.drv[b] == PrunedAt(n, n.cells, NestedPorts(2, 1, 0), b);
    }
    assert n'.drv == ShrinkingOnce().drv;
  }

  lemma ShrinkingNested()
    ensures WellFormed(Shrinking()) && Nested(Shrinking(), 2, 1, 0)
  {
    ShrinkingInputs();
    ShrinkingSelects();
    ShrinkingRoots();
    hide Rep, WellFormed, InputMuxes, Roots, PureRoots, CtrlSig, Ctrl;
  }

  lemma ShrinkingOptimised(order: Order)
    requires IsOrder(order)
    ensures WellFormed(Shrinking()) && Optimised(Shrinking(), order) == ShrinkingOnce()
  {
    ShrinkingNested();
    ShrinkingKept();
    ShrinkingPruned();
    hide Rep, WellFormed, SameShape, Rewritten, Extended, Nested, Optimised, Pruned, IsOrder;
    NestedRun(Shrinking(), order, 2, 1, 0);
  }

  lemma OnceDrivers()
    requires forall c :: 0 <= c < 3 ==> CellOk(ShrinkingOnce(), ShrinkingOnce().cells[c])
    ensures forall b :: 0 <= b < 7 ==> DriverOk(ShrinkingOnce(), b)
  {
    var n := ShrinkingOnce();
    PairDriver(n, 4, 0, Wire(1), Wire(0), Wire(2));
    PairDriver(n, 6, 2, Wire(0), Wire(5), Wire(4));
    hide CellOk;
    assert DriverOk(n, 0) && DriverOk(n, 1) && DriverOk(n, 2) && DriverOk(n, 3) && DriverOk(n, 5);
  }

  lemma OnceWellFormed()
    ensures WellFormed(ShrinkingOnce())
    ensures Rep(ShrinkingOnce(), Wire(5)) == Wire(4)
    ensures forall t: Sig | InRange(ShrinkingOnce(), t) && t != Wire(5) :: Rep(ShrinkingOnce(), t) == t
  {
    hide Rep, CellOk;
    var n := ShrinkingOnce();
    PairOk(n, Wire(1), Wire(0), Wire(2));
    PairOk(n, Wire(0), Wire(5), Wire(4));
    RemovedOk(n);
    hide DriverOk;
    OnceDrivers();
    assert WellFormed(n);
    hide WellFormed;
    forall t: Sig | InRange(n, t) && t != Wire(5) ensures Rep(n, t) == t {
      NoAlias(n, t);
    }
    OneAlias(n, 5, Wire(4));
  }

  lemma OnceInputs()
    ensures WellFormed(ShrinkingOnce())
    ensures InputMuxes(ShrinkingOnce(), 0, 0) == {} == InputMuxes(ShrinkingOnce(), 0, 1)
    ensures InputMuxes(ShrinkingOnce(), 2, 0) == {0} == InputMuxes(ShrinkingOnce(), 2, 1)
  {
    OnceWellFormed();
    hide Rep, WellFormed, InputMuxes;
    var n := ShrinkingOnce();
    OneBitInputs(n, 0, 0);
    OneBitInputs(n, 0, 1);
    OneBitInputs(n, 2, 0);
    OneBitInputs(n, 2, 1);
  }

  lemma OnceShape()
    ensures var n := ShrinkingOnce();
            && |n.drv| == 7 && (forall x :: 0 <= x < |n.drv| ==> !n.drv[x].Gate?)
            && forall c, i :: 0 <= c < |n.cells| && n.cells[c].Mux? && 0 <= i < |n.cells[c].s| ==>
                 n.cells[c].s[i].Wire? && n.cells[c].s[i].id in {0, 1}
  {
  }

  lemma OnceSeen()
    ensures WellFormed(ShrinkingOnce()) && !SeenNonMux(ShrinkingOnce(), 4) && SeenNonMux(ShrinkingOnce(), 6)
  {
    OnceWellFormed();
    OnceShape();
    var n := ShrinkingOnce();
    assert Rep(n, Wire(6)) == Wire(6) && Rep(n, Wire(0)) == Wire(0) && Rep(n, Wire(1)) == Wire(1);
    assert n.keep == {6};
    hide Rep, WellFormed, SeenNonMux, ShrinkingOnce;
    OnlySeen(n, 6, {0, 1});
  }

  lemma OnceRoots()
    ensures WellFormed(ShrinkingOnce()) && Roots(ShrinkingOnce()) == {2} == PureRoots(ShrinkingOnce())
  {
    OnceSeen();
    OnceInputs();
    var n := ShrinkingOnce();
    hide Rep, WellFormed, InputMuxes, SeenNonMux;
    assert n.drv[6].MuxOut? && IsPureRoot(n, 2) && !IsPureRoot(n, 0) && !IsPureRoot(n, 1);
    assert Uses(n, 2, 0) && !Uses(n, 0, 0) && !Uses(n, 0, 1) && !Uses(n, 2, 1);
    assert Users(n, 0) == {2} && Users(n, 1) == {};
  }

  lemma OnceIsShared()
    ensures WellFormed(ShrinkingOnce()) && Shared(ShrinkingOnce(), 2, 0)
    ensures CtrlSig(ShrinkingOnce(), 0, 0) == 1 && CtrlSig(ShrinkingOnce(), 2, 0) == 0
  {
    OnceWellFormed();
    OnceInputs();
    OnceRoots();
    hide Rep, WellFormed, InputMuxes, Roots, PureRoots;
  }

  lemma OnceNumbered()
    ensures WellFormed(ShrinkingOnce()) && Shared(ShrinkingOnce(), 2, 0)
    ensures Numbered(ShrinkingOnce(), 0, 1) == [1] && Numbered(ShrinkingOnce(), 2, 1) == [0]
  {
    OnceIsShared();
    hide Rep, WellFormed, InputMuxes, Roots, PureRoots;
    var n := ShrinkingOnce();
    assert Numbered(n, 0, 0) == [] && Numbered(n, 2, 0) == [];
  }

  lemma OnceKnown()
    ensures WellFormed(ShrinkingOnce()) && Shared(ShrinkingOnce(), 2, 0)
    ensures var k0 := Extended(ShrinkingOnce(), 2, 0, Nothing(ShrinkingOnce(), 2));
            && k0.active[0] == 1 && k0.inactive[0] == 0 && k0.active[2] == 0 == k0.inactive[2]
    ensures var k1 := Extended(ShrinkingOnce(), 2, 1, Nothing(ShrinkingOnce(), 2));
            && k1.active[2] == 0 == k1.inactive[2]
  {
    OnceIsShared();
    var n := ShrinkingOnce();
    assert CtrlSig(n, 2, 1) == -1;
    hide Rep, WellFormed, InputMuxes, Roots, PureRoots, Shared, CtrlSig;
    forall p: nat, b: nat | p <= 1 && (b == 2 || (p == 0 && b == 0)) ensures Count(n, 2, p, 2, b) == 0 {
      assert Count(n, 2, p, 0, b) == 0 && Count(n, 2, p, 1, b) == 0;
    }
  }

  /** The mux of the shared mux's outputs stays: both its data bits stand for bit 4. */
  lemma OnceUserKept()
    ensures WellFormed(ShrinkingOnce()) && Shared(ShrinkingOnce(), 2, 0)
    ensures SameShape(ShrinkingOnce(), ShrinkingOnce().cells)
    ensures Rewritten(ShrinkingOnce(), 2, Nothing(ShrinkingOnce(), 2), ShrinkingOnce().cells) == ShrinkingOnce().cells
  {
    OnceWellFormed();
    OnceNumbered();
    var n := ShrinkingOnce();
    UnchangedShape(n);
    var k := Nothing(n, 2);
    hide Rep, WellFormed, Shared, SameShape, Numbered, Rewritten;
    assert Replaced(n, 2, 0, k, Wire(5)) == Wire(5) && Replaced(n, 2, 1, k, Wire(4)) == Wire(4);
    hide Replaced;
    RewrittenIs(n, 2, k, n.cells, n.cells[2]);
  }

  /** What port 0 of mux 2 makes known about the data of mux 0; port 1 adds nothing to that. */
  lemma OnceReplaced()
    ensures WellFormed(ShrinkingOnce()) && Shared(ShrinkingOnce(), 2, 0)
    ensures var n := ShrinkingOnce();
            var k0, k1 := Extended(n, 2, 0, Nothing(n, 2)), Extended(n, 2, 1, Nothing(n, 2));
            && Replaced(n, 0, 0, k0, Wire(0)) == Const(true) && Replaced(n, 0, 1, k0, Wire(2)) == Wire(2)
            && Replaced(n, 0, 0, k1, Const(true)) == Const(true) && Replaced(n, 0, 1, k1, Wire(2)) == Wire(2)
  {
    OnceWellFormed();
    OnceNumbered();
    OnceKnown();
    var n := ShrinkingOnce();
    hide Rep, WellFormed, Shared, Numbered, Extended, Replaced;
    KnownBit(n, 0, 0, Extended(n, 2, 0, Nothing(n, 2)), 0);
    UnknownBit(n, 0, 1, Extended(n, 2, 0, Nothing(n, 2)), 2);
    ConstantBit(n, 0, 0, Extended(n, 2, 1, Nothing(n, 2)), true);
    UnknownBit(n, 0, 1, Extended(n, 2, 1, Nothing(n, 2)), 2);
  }

  lemma OnceCells()
    ensures ShrinkingOnce().cells[0 := Mux([Wire(1)], [[Const(true)], [Wire(2)]])] == ShrinkingTwice().cells
  {
  }

  lemma OnceWritten()
    ensures WellFormed(ShrinkingOnce()) && Shared(ShrinkingOnce(), 2, 0)
    ensures SameShape(ShrinkingOnce(), ShrinkingOnce().cells)
    ensures Rewritten(ShrinkingOnce(), 0, Extended(ShrinkingOnce(), 2, 0, Nothing(ShrinkingOnce(), 2)),
        ShrinkingOnce().cells)
         == ShrinkingTwice().cells
  {
    OnceReplaced();
    OnceCells();
    var n := ShrinkingOnce();
    UnchangedShape(n);
    hide WellFormed, Shared, SameShape, Rewritten, Extended, Replaced, ShrinkingTwice;
    RewrittenPair(n, 0, Extended(n, 2, 0, Nothing(n, 2)), n.cells, Wire(0), Wire(2), Const(true), Wire(2));
  }

  lemma OnceWrittenAgain()
    ensures WellFormed(ShrinkingOnce()) && Shared(ShrinkingOnce(), 2, 0)
    ensures SameShape(ShrinkingOnce(), ShrinkingTwice().cells)
    ensures Rewritten(ShrinkingOnce(), 0, Extended(ShrinkingOnce(), 2, 1, Nothing(ShrinkingOnce(), 2)),
        ShrinkingTwice().cells)
         == ShrinkingTwice().cells
  {
    OnceReplaced();
    OnceWritten();
    var n, cells := ShrinkingOnce(), ShrinkingTwice().cells;
    hide WellFormed, Shared, SameShape, Rewritten, Extended, Replaced;
    RewrittenPair(n, 0, Extended(n, 2, 1, Nothing(n, 2)), cells, Const(true), Wire(2), Const(true), Wire(2));
  }

  lemma OnceOptimised(order: Order)
    requires IsOrder(order)
    ensures WellFormed(ShrinkingOnce()) && Optimised(ShrinkingOnce(), order) == ShrinkingTwice()
    ensures !SinglePort(ShrinkingOnce())
  {
    OnceIsShared();
    OnceUserKept();
    OnceWritten();
    OnceWrittenAgain();
    hide WellFormed, SameShape, Shared, Rewritten, Extended, Optimised, IsOrder, SinglePort;
    SharedRun(ShrinkingOnce(), order, 2, 0);
    TwoPorts(ShrinkingOnce(), 2, 0);
  }

  lemma ShrinkingModels(g: Gates, v: Valuation)
    requires v == [false, true, false, false, false, false, false]
    ensures WellFormed(Shrinking()) && Models(g, Shrinking(), v) && OneHot(Shrinking(), v)
  {
    ShrinkingWellFormed();
    var n := Shrinking();
    hide Rep, WellFormed;
    assert ActiveFrom(v, n.cells[0], 0) == 0 && ActiveFrom(v, n.cells[1], 1) == 1 && ActiveFrom(v, n.cells[2], 1) == 1;
  }

  lemma OnceModels(g: Gates, v: Valuation)
    requires v == [false, true, false, false, false, false, false]
    ensures WellFormed(ShrinkingOnce()) && Models(g, ShrinkingOnce(), v) && OneHot(ShrinkingOnce(), v)
  {
    OnceWellFormed();
    var n := ShrinkingOnce();
    hide Rep, WellFormed;
    assert ActiveFrom(v, n.cells[0], 0) == 0 && ActiveFrom(v, n.cells[2], 1) == 1;
  }

  lemma TwiceModels(g: Gates, v: Valuation)
    requires v == [false, true, false, false, true, true, true]
    ensures WellFormed(ShrinkingTwice()) && Models(g, ShrinkingTwice(), v)
  {
    var n := ShrinkingTwice();
    TwiceWellFormed();
    hide Rep, WellFormed;
    assert ActiveFrom(v, n.cells[0], 0) == 0 && ActiveFrom(v, n.cells[2], 1) == 1;
  }

  lemma TwiceDrivers()
    requires forall c :: 0 <= c < 3 ==> CellOk(ShrinkingTwice(), ShrinkingTwice().cells[c])
    ensures forall b :: 0 <= b < 7 ==> DriverOk(ShrinkingTwice(), b)
  {
    var n := ShrinkingTwice();
    PairDriver(n, 4, 0, Wire(1), Const(true), Wire(2));
    PairDriver(n, 6, 2, Wire(0), Wire(5), Wire(4));
    hide CellOk;
    assert DriverOk(n, 0) && DriverOk(n, 1) && DriverOk(n, 2) && DriverOk(n, 3) && DriverOk(n, 5);
  }

  lemma TwiceWellFormed()
    ensures WellFormed(ShrinkingTwice())
  {
    hide CellOk;
    var n := ShrinkingTwice();
    PairOk(n, Wire(1), Const(true), Wire(2));
    PairOk(n, Wire(0), Wire(5), Wire(4));
    RemovedOk(n);
    hide DriverOk;
    TwiceDrivers();
  }

  lemma FreeAsBefore(v: Valuation, v': Valuation)
    requires v == [false, true, false, false, false, false, false]
    requires v' == [false, true, false, false, true, true, true]
    ensures FreeAgree(Shrinking(), v, v') && FreeAgree(ShrinkingOnce(), v, v')
  {
  }

  lemma OnceDistinct()
    ensures WellFormed(ShrinkingOnce()) && DistinctSelects(ShrinkingOnce())
  {
    OnceWellFormed();
    hide Rep, WellFormed;
  }

  /** A run changes the output of a mux whose only data mux feeds both its ports: what port 0 makes known, that
      the select is 1, is also read through the other port. With inputs 0, 1, 0, 0 the output was 0 and becomes 1. */
  lemma SharedPortBreaksReplacement(order: Order, g: Gates, v: Valuation, v': Valuation)
    requires IsOrder(order) && v == [false, true, false, false, false, false, false]
    requires v' == [false, true, false, false, true, true, true]
    ensures WellFormed(ShrinkingOnce()) && DistinctSelects(ShrinkingOnce()) && !SinglePort(ShrinkingOnce())
    ensures WellFormed(Optimised(ShrinkingOnce(), order))
    ensures Models(g, ShrinkingOnce(), v) && OneHot(ShrinkingOnce(), v) && FreeAgree(ShrinkingOnce(), v, v')
    ensures Models(g, Optimised(ShrinkingOnce(), order), v') && 6 in ShrinkingOnce().keep
    ensures !KeepsKept(ShrinkingOnce(), Optimised(ShrinkingOnce(), order))
  {
    hide WellFormed, SinglePort, DistinctSelects, Models, OneHot, FreeAgree, Optimised, KeepsKept;
    OnceDistinct();
    OnceOptimised(order);
    OnceModels(g, v);
    TwiceModels(g, v');
    FreeAsBefore(v, v');
    NotKept(ShrinkingOnce(), ShrinkingTwice(), g, v, v', 6);
  }

  /** Two runs change an output that one run keeps, although the design meets the conditions of the first: that
      run takes out mux 1, mux 0 comes to feed both ports of mux 2, and the second run writes what port 0 of mux 2
      makes known into it. With inputs 0, 1, 0, 0 the output was 0 and becomes 1. */
  lemma SecondRunBreaksReplacement(order: Order, order': Order, g: Gates, v: Valuation, v': Valuation)
    requires IsOrder(order) && IsOrder(order') && v == [false, true, false, false, false, false, false]
    requires v' == [false, true, false, false, true, true, true]
    ensures WellFormed(Shrinking()) && Replaceable(Shrinking()) && DistinctSelects(Shrinking())
        && WireSelects(Shrinking())
    ensures WellFormed(Optimised(Shrinking(), order)) && !SinglePort(Optimised(Shrinking(), order))
    ensures WellFormed(Optimised(Optimised(Shrinking(), order), order'))
    ensures Models(g, Shrinking(), v) && OneHot(Shrinking(), v) && FreeAgree(Shrinking(), v, v')
    ensures Models(g, Optimised(Optimised(Shrinking(), order), order'), v') && 6 in Shrinking().keep
    ensures !KeepsKept(Shrinking(), Optimised(Optimised(Shrinking(), order), order'))
  {
    hide WellFormed, SinglePort, Replaceable, DistinctSelects, WireSelects, Models, OneHot, FreeAgree, Optimised,
         KeepsKept;
    ShrinkingReplaceable();
    ShrinkingOptimised(order);
    OnceOptimised(order');
    ShrinkingModels(g, v);
    TwiceModels(g, v');
    FreeAsBefore(v, v');
    NotKept(Shrinking(), ShrinkingTwice(), g, v, v', 6);
  }
}
