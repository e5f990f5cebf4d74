/**
  What a run of the mux-tree optimiser makes of small netlists of certain shapes.
 */
module MuxSmallRuns {
  import opened MuxNetlist
  import opened MuxKnowledge
  import opened MuxPruning
  import opened MuxWalk

  // ------------------------------------------------- evaluating small walks

  function PortsFrom(n: Netlist, c: nat, p: nat): set<(nat, nat)>
    requires IsMux(n, c)
  {
    set q | p <= q <= |n.cells[c].s| :: (c, q)
  }

  /** Nothing is known about the selects of mux c. */
  predicate Open(n: Netlist, c: nat, k: Knowledge)
    requires WellFormed(n) && IsMux(n, c) && Sized(n, k)
  {
    forall q :: 0 <= q < |n.cells[c].s| ==>
      && Ctrl(n, c, q).Wire?
      && k.active[CtrlSig(n, c, q)] == 0 == k.inactive[CtrlSig(n, c, q)]
  }

  /** Every mux behind mux c is on the path or waiting. */
  predicate IsLeaf(n: Netlist, c: nat, k: Knowledge)
    requires WellFormed(n) && IsMux(n, c)
  {
    forall p :: 0 <= p <= |n.cells[c].s| ==> InputMuxes(n, c, p) <= k.visited
  }

  function Enabled(w: Work, m: Mode, ports: set<(nat, nat)>): set<(nat, nat)> {
    if m.enable then w.enabled + ports else w.enabled
  }

  lemma {:induction false} LeafPortsFrom(n: Netlist, order: Order, w: Work, k: Knowledge, c: nat, p: nat, m: Mode)
    requires WellFormed(n) && IsOrder(order) && SameShape(n, w.cells) && Sized(n, k) && IsMux(n, c)
    requires Open(n, c, k) && IsLeaf(n, c, k) && p <= |n.cells[c].s| + 1 && w.left > 0
    ensures WalkPortsFrom(n, order, w, k, c, p, m)
         == Work(w.enabling, w.rerun, Enabled(w, m, PortsFrom(n, c, p)), w.cells, w.left)
    decreases |n.cells[c].s| + 1 - p
  {
    hide WellFormed, SameShape, IsOrder, InputMuxes;
    if p <= |n.cells[c].s| {
      assert InputMuxes(n, c, p) - k.visited == {};
      var w1 := WalkPort(n, order, w, k, c, p, m);
      assert w1 == Work(w.enabling, w.rerun, Enabled(w, m, {(c, p)}), w.cells, w.left);
      LeafPortsFrom(n, order, w1, k, c, p + 1, m);
      assert PortsFrom(n, c, p) == {(c, p)} + PortsFrom(n, c, p + 1);
      assert Enabled(w1, m, PortsFrom(n, c, p + 1)) == Enabled(w, m, PortsFrom(n, c, p));
    } else {
      assert PortsFrom(n, c, p) == {};
      assert Enabled(w, m, {}) == w.enabled;
    }
  }

  /** Nothing forced and nothing known: all ports are walked. */
  lemma OpenPorts(n: Netlist, order: Order, w: Work, k: Knowledge, c: nat, m: Mode)
    requires WellFormed(n) && IsOrder(order) && SameShape(n, w.cells) && Sized(n, k) && IsMux(n, c) && Open(n, c, k)
    ensures WalkPorts(n, order, w, k, c, m) == WalkPortsFrom(n, order, w, k, c, 0, m)
  {
    hide WellFormed, SameShape, IsOrder, WalkPortsFrom, WalkPort;
  }

  lemma LeafWalk(n: Netlist, order: Order, w: Work, k: Knowledge, c: nat, m: Mode)
    requires WellFormed(n) && IsOrder(order) && SameShape(n, w.cells) && Sized(n, k) && IsMux(n, c)
    requires Open(n, c, k) && IsLeaf(n, c, k) && w.left > 1
    ensures WalkMux(n, order, w, k, c, m)
         == Work(w.enabling, w.rerun, Enabled(w, m, PortsFrom(n, c, 0)),
                 if m.replace then Rewritten(n, c, k, w.cells) else w.cells, w.left - 1)
  {
    hide WellFormed, SameShape, IsOrder, WalkPortsFrom, WalkPort, Rewritten, Open, IsLeaf;
    var cells := if m.replace then Rewritten(n, c, k, w.cells) else w.cells;
    var w1 := Work(w.enabling, w.rerun, w.enabled, cells, w.left - 1);
    OpenPorts(n, order, w1, k, c, m);
    LeafPortsFrom(n, order, w1, k, c, 0, m);
  }

  /** A port with one mux behind it. */
  lemma OneParent(n: Netlist, order: Order, w: Work, k: Knowledge, c: nat, p: nat, e: nat, m: Mode)
    requires WellFormed(n) && IsOrder(order) && SameShape(n, w.cells) && Sized(n, k) && IsMux(n, c) && IsMux(n, e)
    requires p <= |n.cells[c].s| && InputMuxes(n, c, p) - k.visited == {e} && w.left > 0
    ensures var w1 := Work(w.enabling, w.rerun, Enabled(w, m, {(c, p)}), w.cells, w.left);
            WalkPort(n, order, w, k, c, p, m) == WalkParent(n, order, w1, Extended(n, c, p, k), e, m)
  {
    hide WellFormed, SameShape, InputMuxes, Extended, WalkParent;
    var w1 := Work(w.enabling, w.rerun, Enabled(w, m, {(c, p)}), w.cells, w.left);
    assert order(w.left, {e}) == e;
    assert {e} - {e} == {};
    var k' := Extended(n, c, p, k);
    assert WalkPort(n, order, w, k, c, p, m) == WalkParents(n, order, w1, k', {e}, m);
    var w2 := WalkParent(n, order, w1, k', e, m);
    assert WalkParents(n, order, w2, k', {}, m) == w2;
  }

  /** The mux that drives a bit, if any. */
  function DriverOf(n: Netlist, t: Sig): set<nat>
    requires WellFormed(n) && InRange(n, t)
  {
    var r := Rep(n, t);
    if r.Wire? && n.drv[r.id].MuxOut? then {n.drv[r.id].cell} else {}
  }

  lemma OneBitInputs(n: Netlist, c: nat, p: nat)
    requires WellFormed(n) && IsMux(n, c) && p <= |n.cells[c].s| && |n.cells[c].d[p]| == 1
    ensures InRange(n, n.cells[c].d[p][0]) && InputMuxes(n, c, p) == DriverOf(n, n.cells[c].d[p][0])
  {
    hide Rep;
    assert CellOk(n, n.cells[c]);
    var t := n.cells[c].d[p][0];
    assert Rep(n, t).Wire? ==> DriverOk(n, Rep(n, t).id);
    forall m | m in DriverOf(n, t) ensures m in InputMuxes(n, c, p) {
      assert DrivenBy(n, n.cells[c].d[p][0], m) && Feeds(n, m, c, p);
    }
  }

  lemma NoAlias(n: Netlist, t: Sig)
    requires WellFormed(n) && InRange(n, t) && (t.Wire? ==> !n.drv[t.id].Alias?)
    ensures Rep(n, t) == t
  {
    hide DriverOk, CellOk;
  }

  /** A mux with one select and one-bit data. */
  lemma PairOk(n: Netlist, s: Sig, x: Sig, y: Sig)
    requires InRange(n, s) && InRange(n, x) && InRange(n, y)
    ensures CellOk(n, Mux([s], [[x], [y]]))
  {
  }

  lemma PairDriver(n: Netlist, b: nat, c: nat, s: Sig, x: Sig, y: Sig)
    requires |n.rank| == |n.drv| && b < |n.drv| && forall d :: 0 <= d < |n.cells| ==> CellOk(n, n.cells[d])
    requires n.drv[b] == MuxOut(c, 0) && c < |n.cells| && n.cells[c] == Mux([s], [[x], [y]])
    requires Below(n, s, b) && Below(n, x, b) && Below(n, y, b)
    ensures DriverOk(n, b)
  {
    var cell := n.cells[c];
    assert CellOk(n, cell) && cell.s[0] == s && cell.d[0][0] == x && cell.d[1][0] == y;
  }

  lemma RemovedOk(n: Netlist)
    ensures CellOk(n, Removed)
  {
  }

  lemma OneAlias(n: Netlist, b: nat, t: Sig)
    requires WellFormed(n) && b < |n.drv| && n.drv[b] == Alias(t)
    ensures InRange(n, t) && Rep(n, Wire(b)) == Rep(n, t)
  {
    assert DriverOk(n, b);
  }

  /** A bit about which nothing is known stays. */
  lemma UnknownBit(n: Netlist, c: nat, p: nat, k: Knowledge, x: nat)
    requires WellFormed(n) && IsMux(n, c) && p <= |n.cells[c].s| && Sized(n, k) && x < |n.drv|
    requires Rep(n, Wire(x)) == Wire(x) && x !in Numbered(n, c, |n.cells[c].s|)
    requires k.inactive[x] == 0 == k.active[x]
    ensures Replaced(n, c, p, k, Wire(x)) == Wire(x)
  {
    hide WellFormed, Rep, Numbered;
  }

  /** A mux with one select whose two data bits are unknown stays as it is. */
  lemma UnknownMux(n: Netlist, c: nat, k: Knowledge, cells: seq<Cell>, x: nat, y: nat)
    requires WellFormed(n) && SameShape(n, cells) && IsMux(n, c) && Sized(n, k) && x < |n.drv| && y < |n.drv|
    requires c < |cells| && |n.cells[c].s| == 1 && cells[c] == Mux(n.cells[c].s, [[Wire(x)], [Wire(y)]])
    requires Rep(n, Wire(x)) == Wire(x) && x !in Numbered(n, c, 1) && k.inactive[x] == 0 == k.active[x]
    requires Rep(n, Wire(y)) == Wire(y) && y !in Numbered(n, c, 1) && k.inactive[y] == 0 == k.active[y]
    ensures Rewritten(n, c, k, cells) == cells
  {
    hide WellFormed, SameShape, Rep, Numbered, Replaced, Rewritten;
    UnknownBit(n, c, 0, k, x);
    UnknownBit(n, c, 1, k, y);
    RewrittenPair(n, c, k, cells, Wire(x), Wire(y), Wire(x), Wire(y));
  }

  /** A mux with one select and one-bit data, bit by bit. */
  lemma RewrittenPair(n: Netlist, c: nat, k: Knowledge, cells: seq<Cell>, x: Sig, y: Sig, x': Sig, y': Sig)
    requires WellFormed(n) && SameShape(n, cells) && IsMux(n, c) && Sized(n, k) && InRange(n, x) && InRange(n, y)
    requires c < |cells| && |n.cells[c].s| == 1 && cells[c] == Mux(n.cells[c].s, [[x], [y]])
    requires Replaced(n, c, 0, k, x) == x' && Replaced(n, c, 1, k, y) == y'
    ensures Rewritten(n, c, k, cells) == cells[c := Mux(n.cells[c].s, [[x'], [y']])]
  {
    hide WellFormed, SameShape, Replaced, Rewritten;
    RewrittenIs(n, c, k, cells, Mux(n.cells[c].s, [[x'], [y']]));
  }

  lemma KnownBit(n: Netlist, c: nat, p: nat, k: Knowledge, x: nat)
    requires WellFormed(n) && IsMux(n, c) && p <= |n.cells[c].s| && Sized(n, k) && x < |n.drv|
    requires Rep(n, Wire(x)) == Wire(x) && x !in Numbered(n, c, |n.cells[c].s|)
    requires k.inactive[x] == 0 < k.active[x]
    ensures Replaced(n, c, p, k, Wire(x)) == Const(true)
  {
    hide WellFormed, Rep, Numbered;
  }

  lemma ConstantBit(n: Netlist, c: nat, p: nat, k: Knowledge, b: bool)
    requires WellFormed(n) && IsMux(n, c) && p <= |n.cells[c].s| && Sized(n, k)
    ensures Replaced(n, c, p, k, Const(b)) == Const(b)
  {
    hide WellFormed, Numbered;
  }

  lemma TwoLive(enabled: set<(nat, nat)>, c: nat)
    requires (c, 0) in enabled
    ensures LivePorts(enabled, c, 2) == if (c, 1) in enabled then [0, 1] else [0]
  {
    assert LivePorts(enabled, c, 0) == [] && LivePorts(enabled, c, 1) == [0];
  }

  lemma PrunedPair(n: Netlist, cells: seq<Cell>, enabled: set<(nat, nat)>, c: nat)
    requires WellFormed(n) && SameShape(n, cells) && c < |cells| && (c, 0) in enabled
    requires cells[c].Mux? && |cells[c].s| == 1 && |cells[c].d| == 2
    ensures PrunedCellAt(n, cells, enabled, c) == if (c, 1) in enabled then cells[c] else Removed
  {
    hide WellFormed, LivePorts;
    TwoLive(enabled, c);
  }

  // --------------------------------------------------------- shared ports

  /** A root mux c with one select, both of whose ports are fed by the same mux e, which is not a root. */
  ghost predicate Shared(n: Netlist, c: nat, e: nat)
    requires WellFormed(n)
  {
    && IsMux(n, c) && IsMux(n, e) && c != e && |n.cells[c].s| == 1 == |n.cells[e].s|
    && Ctrl(n, c, 0).Wire? && Ctrl(n, e, 0).Wire? && CtrlSig(n, c, 0) != CtrlSig(n, e, 0)
    && InputMuxes(n, c, 0) == {e} == InputMuxes(n, c, 1)
    && InputMuxes(n, e, 0) == {} == InputMuxes(n, e, 1)
    && Roots(n) == {c} == PureRoots(n)
  }

  /** The cells after both contexts have been written into mux e, the one of port 0 first. */
  function SharedCells(n: Netlist, c: nat, e: nat, cells: seq<Cell>): (r: seq<Cell>)
    requires WellFormed(n) && IsMux(n, c) && IsMux(n, e) && |n.cells[c].s| == 1 && SameShape(n, cells)
    ensures SameShape(n, r)
  {
    var k := Nothing(n, c);
    Rewritten(n, e, Extended(n, c, 1, k), Rewritten(n, e, Extended(n, c, 0, k), Rewritten(n, c, k, cells)))
  }

  lemma OtherSelectOpen(n: Netlist, c: nat, e: nat, p: nat)
    requires WellFormed(n) && Shared(n, c, e) && p <= 1
    ensures Open(n, c, Nothing(n, c)) && Open(n, e, Extended(n, c, p, Nothing(n, c)))
  {
    hide WellFormed, InputMuxes, Roots, PureRoots;
    var y := CtrlSig(n, e, 0);
    assert CtrlSig(n, c, 1) == -1;
    assert Count(n, c, p, 0, y) == 0 && Count(n, c, p, 1, y) == 0 && Count(n, c, p, 2, y) == 0;
  }

  lemma SharedWalk(n: Netlist, order: Order, w: Work, c: nat, e: nat)
    requires WellFormed(n) && IsOrder(order) && SameShape(n, w.cells) && Shared(n, c, e)
    requires w.enabling == {c} && w.rerun == {} && w.left > 3
    ensures WalkRoot(n, order, w, c)
         == Work({c}, {}, w.enabled + PortsFrom(n, c, 0) + PortsFrom(n, e, 0), SharedCells(n, c, e, w.cells),
             w.left - 3)
  {
    hide WellFormed, SameShape, IsOrder, InputMuxes, Roots, PureRoots, WalkPort, WalkPorts, Extended, Rewritten, Open;
    var k, m := Nothing(n, c), Mode(true, true, 3);
    OtherSelectOpen(n, c, e, 0);
    OtherSelectOpen(n, c, e, 1);
    assert {} - {c} == w.rerun;
    var w1 := Work({c}, {}, w.enabled, Rewritten(n, c, k, w.cells), w.left - 1);
    assert WalkRoot(n, order, w, c) == WalkPorts(n, order, w1, k, c, m);
    OpenPorts(n, order, w1, k, c, m);
    var w2 := SharedPortWalk(n, order, w1, k, c, 0, e, m);
    var w3 := SharedPortWalk(n, order, w2, k, c, 1, e, m);
    PortsInTurn(n, order, w1, w2, w3, k, c, m);
    assert PortsFrom(n, c, 0) == {(c, 0), (c, 1)};
    assert w3.enabled == w.enabled + PortsFrom(n, c, 0) + PortsFrom(n, e, 0);
  }

  /** Two open ports are walked one after the other. */
  lemma PortsInTurn(n: Netlist, order: Order, w1: Work, w2: Work, w3: Work, k: Knowledge, c: nat, m: Mode)
    requires WellFormed(n) && IsOrder(order) && SameShape(n, w1.cells) && Sized(n, k) && IsMux(n, c)
    requires |n.cells[c].s| == 1 && Open(n, c, k) && w2.left > 0 && w3.left > 0
    requires w2 == WalkPort(n, order, w1, k, c, 0, m) && w3 == WalkPort(n, order, w2, k, c, 1, m)
    ensures WalkPortsFrom(n, order, w1, k, c, 0, m) == w3
  {
    hide WellFormed, SameShape, IsOrder, WalkPort, RuledOut, Open;
    NotRuledOut(n, k, c);
    assert WalkPortsFrom(n, order, w3, k, c, 2, m) == w3;
    assert WalkPortsFrom(n, order, w2, k, c, 1, m) == w3;
  }

  lemma NotRuledOut(n: Netlist, k: Knowledge, c: nat)
    requires WellFormed(n) && IsMux(n, c) && Sized(n, k) && Open(n, c, k)
    ensures forall p :: 0 <= p <= |n.cells[c].s| ==> !RuledOut(n, c, k, p)
  {
    hide WellFormed;
  }

  lemma SharedPortWalk(n: Netlist, order: Order, w: Work, k: Knowledge, c: nat, p: nat, e: nat, m: Mode)
    returns (r: Work)
    requires WellFormed(n) && IsOrder(order) && SameShape(n, w.cells) && Shared(n, c, e) && k == Nothing(n, c)
    requires p <= 1 && w.left > 1 && w.enabling == {c} && m.replace && m.enable
    ensures r == WalkPort(n, order, w, k, c, p, m)
    ensures r == Work({c}, w.rerun, w.enabled + {(c, p)} + PortsFrom(n, e, 0),
        Rewritten(n, e, Extended(n, c, p, k), w.cells),
                      w.left - 1)
  {
    hide WellFormed, SameShape, InputMuxes, Roots, PureRoots, WalkPort, WalkMux, Rewritten, Open, IsOrder;
    OtherSelectOpen(n, c, e, p);
    assert InputMuxes(n, c, p) - k.visited == {e};
    OneParent(n, order, w, k, c, p, e, m);
    var w1 := Work({c}, w.rerun, w.enabled + {(c, p)}, w.cells, w.left);
    LeafWalk(n, order, w1, Extended(n, c, p, k), e, m);
    r := WalkPort(n, order, w, k, c, p, m);
  }

  lemma {:induction false} NoMoreRoots(n: Netlist, order: Order, w: Work, c: nat, r: nat)
    requires WellFormed(n) && IsOrder(order) && SameShape(n, w.cells) && Roots(n) == {c} && c < r <= |n.cells|
    requires w.left > 0 && w.rerun == {}
    ensures WalkRoots(n, order, w, r) == w
    decreases |n.cells| - r
  {
    hide WellFormed, SameShape, IsOrder, Roots, WalkRoots;
    if r < |n.cells| {
      NoRootHere(n, order, w, r);
      NoMoreRoots(n, order, w, c, r + 1);
    } else {
      RootsEnd(n, order, w);
      RerunEnd(n, order, w);
    }
  }

  lemma {:induction false} SoleRoot(n: Netlist, order: Order, w: Work, c: nat, r: nat)
    requires WellFormed(n) && IsOrder(order) && SameShape(n, w.cells) && Roots(n) == {c} && r <= c < |n.cells|
    requires w.left > 0 && w.rerun == {} && WalkRoot(n, order, w, c).left > 0 && WalkRoot(n, order, w, c).rerun == {}
    ensures WalkRoots(n, order, w, r) == WalkRoot(n, order, w, c)
    decreases c - r
  {
    hide WellFormed, SameShape, IsOrder, Roots, WalkRoots, WalkRoot;
    if r < c {
      NoRootHere(n, order, w, r);
      SoleRoot(n, order, w, c, r + 1);
    } else {
      var w1 := WalkRoot(n, order, w, c);
      RootsStep(n, order, w, c, w1);
      NoMoreRoots(n, order, w1, c, c + 1);
    }
  }

  /** One run writes what is known below port 0 into the shared mux and removes nothing. */
  lemma SharedRun(n: Netlist, order: Order, c: nat, e: nat)
    requires WellFormed(n) && IsOrder(order) && Shared(n, c, e)
    requires forall d :: 0 <= d < |n.cells| && n.cells[d].Mux? ==> d == c || d == e
    ensures SameShape(n, n.cells)
    ensures Optimised(n, order) == Netlist(n.drv, SharedCells(n, c, e, n.cells), n.keep, n.rank)
  {
    hide IsOrder, InputMuxes, Roots, PureRoots, WalkRoots, WalkRoot, SharedCells, Pruned;
    var w := Initial(n);
    SharedWalk(n, order, w, c, e);
    SoleRoot(n, order, w, c, 0);
    var w' := WalkRoot(n, order, w, c);
    assert CellOk(n, n.cells[c]) && CellOk(n, n.cells[e]);
    SameShapeWellFormed(n, w'.cells, w'.enabled);
  }

  /** Bit by bit what rewriting makes of a cell. */
  lemma RewrittenIs(n: Netlist, c: nat, k: Knowledge, cells: seq<Cell>, cell: Cell)
    requires WellFormed(n) && SameShape(n, cells) && IsMux(n, c) && Sized(n, k)
    requires c < |cells| && cells[c].Mux? && |cells[c].d| == |n.cells[c].s| + 1
    requires forall p, o :: 0 <= p < |cells[c].d| && 0 <= o < |cells[c].d[p]| ==> InRange(n, cells[c].d[p][o])
    requires cell.Mux? && cell.s == cells[c].s && |cell.d| == |cells[c].d|
    requires forall p :: 0 <= p < |cell.d| ==> |cell.d[p]| == |cells[c].d[p]|
    requires forall p, o :: 0 <= p < |cell.d| && 0 <= o < |cell.d[p]| ==>
               cell.d[p][o] == Replaced(n, c, p, k, cells[c].d[p][o])
    ensures Rewritten(n, c, k, cells) == cells[c := cell]
  {
    hide WellFormed, SameShape, Replaced;
    var r := Rewritten(n, c, k, cells);
    forall p | 0 <= p < |cell.d| ensures r[c].d[p] == cell.d[p] {
      assert r[c].d[p] == ReplacedPort(n, c, p, k, cells[c].d[p]);
    }
    assert r[c].d == cell.d;
  }

  lemma TwoPorts(n: Netlist, c: nat, e: nat)
    requires WellFormed(n) && Shared(n, c, e)
    ensures !SinglePort(n)
  {
    hide WellFormed, InputMuxes, Roots, PureRoots;
    assert e !in Roots(n) && e in InputMuxes(n, c, 0) && e in InputMuxes(n, c, 1);
  }

  // --------------------------------------------------- a mux behind two others

  /** Root c has mux e behind port 0 and mux m behind port 1; e, with the same select, has m behind its port 0. */
  ghost predicate Nested(n: Netlist, c: nat, e: nat, m: nat)
    requires WellFormed(n)
  {
    && IsMux(n, c) && IsMux(n, e) && IsMux(n, m) && c != e && c != m && e != m
    && |n.cells[c].s| == |n.cells[e].s| == |n.cells[m].s| == 1
    && Ctrl(n, c, 0).Wire? && Ctrl(n, e, 0) == Ctrl(n, c, 0) && Ctrl(n, m, 0).Wire? && Ctrl(n, m, 0) != Ctrl(n, c, 0)
    && InputMuxes(n, c, 0) == {e} && InputMuxes(n, c, 1) == {m}
    && InputMuxes(n, e, 0) == {m} && InputMuxes(n, e, 1) == {} == InputMuxes(n, m, 0) == InputMuxes(n, m, 1)
    && Roots(n) == {m, c} && PureRoots(n) == {c}
  }

  /** The ports that are walked: all but port 1 of e. */
  function NestedPorts(c: nat, e: nat, m: nat): set<(nat, nat)> {
    {} + {(c, 0)} + {(e, 0)} + {(m, 0), (m, 1)} + {(c, 1)} + {(m, 0), (m, 1)}
  }

  /** Entering ports of c and e teaches nothing but the value of their select. */
  lemma NestedCount(n: Netlist, c: nat, e: nat, m: nat, d: nat, p: nat, b: nat)
    requires WellFormed(n) && Nested(n, c, e, m) && (d == c || d == e) && p <= 1 && b != CtrlSig(n, c, 0)
    ensures Count(n, d, p, 2, b) == 0
  {
    hide WellFormed, InputMuxes, Roots, PureRoots;
    assert CtrlSig(n, d, 0) == CtrlSig(n, c, 0) && CtrlSig(n, d, 1) == -1;
    assert Count(n, d, p, 0, b) == 0 && Count(n, d, p, 1, b) == 0;
  }

  lemma NestedKnowledge(n: Netlist, c: nat, e: nat, m: nat)
    requires WellFormed(n) && Nested(n, c, e, m)
    ensures var x := CtrlSig(n, c, 0); var k0 := Extended(n, c, 0, Nothing(n, c));
            && Open(n, c, Nothing(n, c)) && Open(n, m, Nothing(n, m)) && k0.active[x] == 1
            && (forall b :: 0 <= b < |n.drv| && b != x ==> k0.active[b] == 0 == k0.inactive[b])
  {
    hide WellFormed, InputMuxes, Roots, PureRoots, Count;
    forall b | 0 <= b < |n.drv| && b != CtrlSig(n, c, 0) ensures Count(n, c, 0, 2, b) == 0 {
      NestedCount(n, c, e, m, c, 0, b);
    }
  }

  /** Nothing is learned about the select of m on either way to it. */
  lemma NestedOpen(n: Netlist, c: nat, e: nat, m: nat)
    requires WellFormed(n) && Nested(n, c, e, m)
    ensures Open(n, m, Extended(n, c, 1, Nothing(n, c)))
    ensures Open(n, m, Extended(n, e, 0, Extended(n, c, 0, Nothing(n, c))))
  {
    var y, k := CtrlSig(n, m, 0), Nothing(n, c);
    assert y != CtrlSig(n, c, 0) && CtrlSig(n, e, 0) != y;
    NestedCount(n, c, e, m, c, 0, y);
    NestedCount(n, c, e, m, c, 1, y);
    NestedCount(n, c, e, m, e, 0, y);
    hide WellFormed, InputMuxes, Roots, PureRoots, Count, Nested;
    StillOpen(n, m, c, 1, k);
    StillOpen(n, m, c, 0, k);
    StillOpen(n, m, e, 0, Extended(n, c, 0, k));
  }

  lemma StillOpen(n: Netlist, m: nat, c: nat, p: nat, k: Knowledge)
    requires WellFormed(n) && IsMux(n, m) && IsMux(n, c) && |n.cells[m].s| == 1 == |n.cells[c].s| && p <= 1
    requires Sized(n, k) && Open(n, m, k) && CtrlSig(n, c, p) != CtrlSig(n, m, 0)
    requires Count(n, c, p, 2, CtrlSig(n, m, 0)) == 0
    ensures Open(n, m, Extended(n, c, p, k))
  {
    hide WellFormed, InputMuxes, Count;
  }

  /** A mux whose select is known to be active has that port walked only. */
  lemma EnterKnown(n: Netlist, order: Order, w: Work, k: Knowledge, e: nat, mode: Mode)
    requires WellFormed(n) && IsOrder(order) && SameShape(n, w.cells) && Sized(n, k) && IsMux(n, e)
    requires |n.cells[e].s| == 1 && !Forced(n, e, 0) && KnownActive(n, e, k, 0) && w.left > 0
    requires mode.replace ==> Rewritten(n, e, k, w.cells) == w.cells
    ensures WalkMux(n, order, w, k, e, mode)
         == WalkPort(n, order, Work(w.enabling, w.rerun, w.enabled, w.cells, w.left - 1), k, e, 0, mode)
  {
    hide WellFormed, SameShape, Rewritten, WalkPort, WalkPortsFrom, IsOrder, Forced, KnownActive;
    assert FirstForced(n, e, 0) == 1 && FirstKnown(n, e, k, 0) == 0;
  }

  /** Mux e, entered through port 0 of c, has its own port 0 walked only. */
  lemma NestedInner(n: Netlist, order: Order, w: Work, c: nat, e: nat, m: nat)
    requires WellFormed(n) && IsOrder(order) && SameShape(n, w.cells) && Nested(n, c, e, m)
    requires w.enabling == {c} && w.left > 2
    requires Rewritten(n, e, Extended(n, c, 0, Nothing(n, c)), w.cells) == w.cells
    ensures WalkMux(n, order, w, Extended(n, c, 0, Nothing(n, c)), e, Mode(true, true, 3))
         == Work({c}, w.rerun, w.enabled + {(e, 0)} + {(m, 0), (m, 1)}, w.cells, w.left - 2)
  {
    hide WellFormed, SameShape, Rewritten, Extended, Open, InputMuxes, Roots, PureRoots, WalkMux, WalkPort, WalkParent,
         IsOrder;
    var mode, k := Mode(true, true, 3), Extended(n, c, 0, Nothing(n, c));
    assert Open(n, m, Extended(n, e, 0, k)) && k.active[CtrlSig(n, c, 0)] == 1 by {
      NestedKnowledge(n, c, e, m);
      NestedOpen(n, c, e, m);
    }
    var w1 := Work({c}, w.rerun, w.enabled, w.cells, w.left - 1);
    EnterKnown(n, order, w, k, e, mode);
    assert k.visited == {c, e} && InputMuxes(n, e, 0) - k.visited == {m};
    OneParent(n, order, w1, k, e, 0, m, mode);
    IntoRoot(n, order, Work({c}, w.rerun, w.enabled + {(e, 0)}, w.cells, w.left - 1), Extended(n, e, 0, k), c, e, m,
        mode);
  }

  /** Root m is entered without replacement; nothing is behind it. */
  lemma IntoRoot(n: Netlist, order: Order, w: Work, k: Knowledge, c: nat, e: nat, m: nat, mode: Mode)
    requires WellFormed(n) && IsOrder(order) && SameShape(n, w.cells) && Sized(n, k) && Nested(n, c, e, m)
    requires w.enabling == {c} && w.left > 1 && Open(n, m, k) && mode.enable && mode.depth > 0
    ensures WalkParent(n, order, w, k, m, mode)
         == Work({c}, w.rerun, w.enabled + {(m, 0), (m, 1)}, w.cells, w.left - 1)
  {
    hide WellFormed, SameShape, Open, InputMuxes, PureRoots, Roots, WalkMux, IsOrder;
    LeafWalk(n, order, w, k, m, Mode(false, true, mode.depth - 1));
    assert PortsFrom(n, m, 0) == {(m, 0), (m, 1)};
  }

  lemma NestedOuter(n: Netlist, order: Order, w: Work, c: nat, e: nat, m: nat)
    requires WellFormed(n) && IsOrder(order) && SameShape(n, w.cells) && Nested(n, c, e, m)
    requires w.enabling == {c} && w.rerun == {} && w.enabled == {} && w.left > 4
    requires Rewritten(n, c, Nothing(n, c), w.cells) == w.cells
    requires Rewritten(n, e, Extended(n, c, 0, Nothing(n, c)), w.cells) == w.cells
    ensures WalkRoot(n, order, w, c) == Work({c}, {}, NestedPorts(c, e, m), w.cells, w.left - 4)
  {
    NestedKnowledge(n, c, e, m);
    var k, mode := Nothing(n, c), Mode(true, true, 3);
    hide WellFormed, SameShape, Rewritten, Extended, Open, InputMuxes, Roots, PureRoots, WalkPort, WalkPorts, WalkMux,
         WalkParent, IsOrder, Nested;
    assert IsMux(n, c) && c in Roots(n) && |n.cells[c].s| == 1 by { NestedMux(n, c, e, m); }
    assert {} - {c} == w.rerun;
    var w1 := Work({c}, {}, {}, w.cells, w.left - 1);
    assert WalkRoot(n, order, w, c) == WalkPorts(n, order, w1, k, c, mode) by { EnterRoot(n, order, w, c); }
    OpenPorts(n, order, w1, k, c, mode);
    var w2 := NestedPort0(n, order, w1, c, e, m);
    var w3 := NestedPort1(n, order, w2, c, e, m);
    PortsInTurn(n, order, w1, w2, w3, k, c, mode);
    assert w3.enabled == NestedPorts(c, e, m);
  }

  lemma NestedMux(n: Netlist, c: nat, e: nat, m: nat)
    requires WellFormed(n) && Nested(n, c, e, m)
    ensures IsMux(n, c) && c in Roots(n) && |n.cells[c].s| == 1
  {
    hide WellFormed, InputMuxes, Roots, PureRoots;
  }

  lemma EnterRoot(n: Netlist, order: Order, w: Work, c: nat)
    requires WellFormed(n) && IsOrder(order) && SameShape(n, w.cells) && IsMux(n, c) && c in Roots(n)
    requires c in w.enabling && w.rerun == {} && w.left > 0 && Rewritten(n, c, Nothing(n, c), w.cells) == w.cells
    ensures WalkRoot(n, order, w, c)
         == WalkPorts(n, order, Work(w.enabling, {}, w.enabled, w.cells, w.left - 1), Nothing(n, c), c,
             Mode(true, true, 3))
  {
    hide WellFormed, SameShape, Rewritten, Roots, WalkPorts, IsOrder;
    assert {} - {c} == w.rerun;
  }

  lemma NestedPort0(n: Netlist, order: Order, w: Work, c: nat, e: nat, m: nat) returns (r: Work)
    requires WellFormed(n) && IsOrder(order) && SameShape(n, w.cells) && Nested(n, c, e, m)
    requires w.enabling == {c} && w.left > 2
    requires Rewritten(n, e, Extended(n, c, 0, Nothing(n, c)), w.cells) == w.cells
    ensures r == WalkPort(n, order, w, Nothing(n, c), c, 0, Mode(true, true, 3))
    ensures r == Work({c}, w.rerun, w.enabled + {(c, 0)} + {(e, 0)} + {(m, 0), (m, 1)}, w.cells, w.left - 2)
  {
    hide WellFormed, SameShape, Rewritten, Extended, InputMuxes, Roots, PureRoots, WalkPort, WalkMux, IsOrder;
    OneParent(n, order, w, Nothing(n, c), c, 0, e, Mode(true, true, 3));
    NestedInner(n, order, Work({c}, w.rerun, w.enabled + {(c, 0)}, w.cells, w.left), c, e, m);
    r := WalkPort(n, order, w, Nothing(n, c), c, 0, Mode(true, true, 3));
  }

  lemma NestedPort1(n: Netlist, order: Order, w: Work, c: nat, e: nat, m: nat) returns (r: Work)
    requires WellFormed(n) && IsOrder(order) && SameShape(n, w.cells) && Nested(n, c, e, m)
    requires w.enabling == {c} && w.left > 1
    ensures r == WalkPort(n, order, w, Nothing(n, c), c, 1, Mode(true, true, 3))
    ensures r == Work({c}, w.rerun, w.enabled + {(c, 1)} + {(m, 0), (m, 1)}, w.cells, w.left - 1)
  {
    hide WellFormed, SameShape, Extended, Open, InputMuxes, Roots, PureRoots, WalkPort, WalkParent, WalkMux, IsOrder;
    NestedOpen(n, c, e, m);
    OneParent(n, order, w, Nothing(n, c), c, 1, m, Mode(true, true, 3));
    IntoRoot(n, order, Work({c}, w.rerun, w.enabled + {(c, 1)}, w.cells, w.left), Extended(n, c, 1, Nothing(n, c)),
             c, e, m, Mode(true, true, 3));
    r := WalkPort(n, order, w, Nothing(n, c), c, 1, Mode(true, true, 3));
  }

  lemma NestedFirstRoot(n: Netlist, order: Order, w: Work, c: nat, e: nat, m: nat)
    requires WellFormed(n) && IsOrder(order) && Nested(n, c, e, m) && SameShape(n, w.cells)
    requires w.enabling == {c} && w.rerun == {} && w.left > 1 && Rewritten(n, m, Nothing(n, m), w.cells) == w.cells
    ensures m in Roots(n) && WalkRoot(n, order, w, m) == Work({c}, {}, w.enabled, w.cells, w.left - 1)
  {
    hide WellFormed, SameShape, Rewritten, Extended, InputMuxes, Roots, PureRoots, IsOrder, WalkMux;
    assert {} - {m} == w.rerun;
    assert Open(n, m, Nothing(n, m)) by { NestedKnowledge(n, c, e, m); }
    hide Open;
    LeafWalk(n, order, w, Nothing(n, m), m, Mode(true, false, 3));
  }

  /** Root m, which enables nothing by itself, runs first and changes nothing; then c runs. */
  lemma NestedRun(n: Netlist, order: Order, c: nat, e: nat, m: nat)
    requires WellFormed(n) && IsOrder(order) && Nested(n, c, e, m) && m == 0 && e == 1 && c == 2 && |n.cells| == 3
    requires SameShape(n, n.cells) && Rewritten(n, m, Nothing(n, m), n.cells) == n.cells
    requires Rewritten(n, c, Nothing(n, c), n.cells) == n.cells
    requires Rewritten(n, e, Extended(n, c, 0, Nothing(n, c)), n.cells) == n.cells
    ensures Optimised(n, order) == Pruned(n, n.cells, NestedPorts(c, e, m))
  {
    hide WellFormed, SameShape, Rewritten, Extended, Open, InputMuxes, Roots, PureRoots, IsOrder, WalkRoot, WalkMux,
         WalkRoots, WalkRerun, Pruned;
    var w, w1 := Initial(n), Work({c}, {}, {}, n.cells, LIMIT - 1);
    NestedFirstRoot(n, order, w, c, e, m);
    NestedOuter(n, order, w1, c, e, m);
    var w2 := Work({c}, {}, NestedPorts(c, e, m), n.cells, LIMIT - 5);
    RootsStep(n, order, w, 0, w1);
    NoRootHere(n, order, w1, 1);
    RootsStep(n, order, w1, 2, w2);
    RootsEnd(n, order, w2);
    RerunEnd(n, order, w2);
  }
}
