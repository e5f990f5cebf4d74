/**
  Removal of mux ports that were never enabled, and why the pruned netlist means the same.
 */
module MuxPruning {
  import opened MuxNetlist
  import opened MuxKnowledge

  /** The enabled ports among the first np ports of mux c, in order. */
  function LivePorts(enabled: set<(nat, nat)>, c: nat, np: nat): (live: seq<nat>)
    ensures |live| <= np
    ensures forall i :: 0 <= i < |live| ==> live[i] < np && (c, live[i]) in enabled
    ensures forall i, j :: 0 <= i < j < |live| ==> live[i] < live[j]
    ensures forall p :: 0 <= p < np && (c, p) in enabled ==> p in live
  {
    if np == 0 then []
    else if (c, np - 1) in enabled then LivePorts(enabled, c, np - 1) + [np - 1]
    else LivePorts(enabled, c, np - 1)
  }

  predicate PortsOk(cell: Cell) {
    cell.Mux? && |cell.d| == |cell.s| + 1 && forall p :: 0 <= p < |cell.d| ==> |cell.d[p]| == |cell.d[0]|
  }

  /** The cell with only its live ports; the last live port becomes the default. */
  function PrunedCell(cell: Cell, live: seq<nat>): (r: Cell)
    requires cell.Mux? ==> PortsOk(cell) && forall i :: 0 <= i < |live| ==> live[i] < |cell.d|
    requires forall i, j :: 0 <= i < j < |live| ==> live[i] < live[j]
  {
    if cell.Removed? || |live| == |cell.d| then cell
    else if |live| <= 1 then Removed
    else
      var last := |live| - 1;
      assert forall i :: 0 <= i < last ==> live[i] < live[last];
      Mux(seq(last, i requires 0 <= i < last => cell.s[live[i]]),
          seq(|live|, i requires 0 <= i < |live| => cell.d[live[i]]))
  }

  /** A bit driven by a mux with one live port is connected to it; with none it is undriven. */
  function PrunedDriver(cell: Cell, live: seq<nat>, c: nat, off: nat): (r: Driver)
    requires PortsOk(cell) && off < |cell.d[0]| && forall i :: 0 <= i < |live| ==> live[i] < |cell.d|
  {
    if |live| == |cell.d| || |live| > 1 then MuxOut(c, off)
    else if |live| == 1 then Alias(cell.d[live[0]][off])
    else Free
  }

  function PrunedAt(n: Netlist, cells: seq<Cell>, enabled: set<(nat, nat)>, b: nat): Driver
    requires WellFormed(n) && SameShape(n, cells) && b < |n.drv|
  {
    match n.drv[b]
    case MuxOut(c, off) =>
      assert DriverOk(n, b) && SameShapeAt(n, cells, c);
      PrunedDriver(cells[c], LivePorts(enabled, c, |cells[c].d|), c, off)
    case _ => n.drv[b]
  }

  function PrunedCellAt(n: Netlist, cells: seq<Cell>, enabled: set<(nat, nat)>, c: nat): Cell
    requires WellFormed(n) && SameShape(n, cells) && c < |cells|
  {
    assert SameShapeAt(n, cells, c) && CellOk(n, n.cells[c]);
    if cells[c].Removed? then Removed else PrunedCell(cells[c], LivePorts(enabled, c, |cells[c].d|))
  }

  function Pruned(n: Netlist, cells: seq<Cell>, enabled: set<(nat, nat)>): Netlist
    requires WellFormed(n) && SameShape(n, cells)
  {
    Netlist(seq(|n.drv|, b requires 0 <= b < |n.drv| => PrunedAt(n, cells, enabled, b)),
            seq(|cells|, c requires 0 <= c < |cells| => PrunedCellAt(n, cells, enabled, c)),
            n.keep, n.rank)
  }

  /** The drivers once the mux cells before number k have been pruned. */
  function PrunedUpTo(n: Netlist, cells: seq<Cell>, enabled: set<(nat, nat)>, k: nat): seq<Driver>
    requires WellFormed(n) && SameShape(n, cells)
  {
    seq(|n.drv|, b requires 0 <= b < |n.drv| =>
      if n.drv[b].MuxOut? && n.drv[b].cell < k then PrunedAt(n, cells, enabled, b) else n.drv[b])
  }

  /** Reconnect the bits of one mux. */
  function Reconnect(drv: seq<Driver>, n: Netlist, cells: seq<Cell>, enabled: set<(nat, nat)>, c: nat): seq<Driver>
    requires WellFormed(n) && SameShape(n, cells) && |drv| == |n.drv|
  {
    seq(|drv|, b requires 0 <= b < |drv| =>
      if drv[b].MuxOut? && n.drv[b].MuxOut? && n.drv[b].cell == c then PrunedAt(n, cells, enabled, b) else drv[b])
  }

  predicate KeepsDrivers(cells: seq<Cell>, enabled: set<(nat, nat)>, c: nat)
    requires c < |cells|
  {
    cells[c].Mux? ==>
      var live := LivePorts(enabled, c, |cells[c].d|);
      |live| == |cells[c].d| || |live| > 1
  }

  lemma PrunedUpToStep(n: Netlist, cells: seq<Cell>, enabled: set<(nat, nat)>, c: nat)
    requires WellFormed(n) && SameShape(n, cells) && c < |cells|
    ensures Reconnect(PrunedUpTo(n, cells, enabled, c), n, cells, enabled, c) == PrunedUpTo(n, cells, enabled, c + 1)
    ensures KeepsDrivers(cells, enabled, c) ==> PrunedUpTo(n, cells, enabled, c) == PrunedUpTo(n, cells, enabled, c + 1)
  {
    forall b | 0 <= b < |n.drv| && n.drv[b].MuxOut? && n.drv[b].cell == c
      ensures cells[c].Mux? && (KeepsDrivers(cells, enabled, c) ==> PrunedAt(n, cells, enabled, b) == n.drv[b])
    {
      assert DriverOk(n, b) && SameShapeAt(n, cells, c);
    }
  }

  // ------------------------------------------------------------ port counts

  function Ports(cell: Cell): nat {
    if cell.Removed? then 0 else |cell.d|
  }

  function TotalPorts(cells: seq<Cell>): nat {
    if cells == [] then 0 else TotalPorts(cells[..|cells| - 1]) + Ports(cells[|cells| - 1])
  }

  lemma {:induction false} SameShapePorts(n: Netlist, cells: seq<Cell>, k: nat)
    requires SameShape(n, cells) && k <= |cells|
    ensures TotalPorts(cells[..k]) == TotalPorts(n.cells[..k])
  {
    if k > 0 {
      assert SameShapeAt(n, cells, k - 1);
      assert cells[..k][..k - 1] == cells[..k - 1] && n.cells[..k][..k - 1] == n.cells[..k - 1];
      SameShapePorts(n, cells, k - 1);
    }
  }

  // ---------------------------------------------------------- well-formedness

  lemma PrunedCellOk(n: Netlist, cells: seq<Cell>, enabled: set<(nat, nat)>, c: nat)
    requires WellFormed(n) && SameShape(n, cells) && c < |cells|
    ensures CellOk(n, PrunedCellAt(n, cells, enabled, c))
  {
    assert SameShapeAt(n, cells, c) && CellOk(n, n.cells[c]);
    assert cells[c].Mux? ==> CellOk(n, cells[c]);
  }

  /** All that bit b reads through a mux has lower rank. */
  predicate ReadsBelow(n: Netlist, cell: Cell, off: nat, b: nat)
    requires |n.rank| == |n.drv| && b < |n.drv|
  {
    && PortsOk(cell) && off < |cell.d[0]|
    && (forall i :: 0 <= i < |cell.s| ==> Below(n, cell.s[i], b))
    && (forall p :: 0 <= p < |cell.d| ==> Below(n, cell.d[p][off], b))
  }

  lemma PrunedReadsBelow(n: Netlist, cell: Cell, live: seq<nat>, off: nat, b: nat)
    requires |n.rank| == |n.drv| && b < |n.drv| && ReadsBelow(n, cell, off, b)
    requires |live| <= |cell.d| && forall i :: 0 <= i < |live| ==> live[i] < |cell.d|
    requires forall i, j :: 0 <= i < j < |live| ==> live[i] < live[j]
    ensures |live| > 1 || |live| == |cell.d| ==> ReadsBelow(n, PrunedCell(cell, live), off, b)
  {
    var r := PrunedCell(cell, live);
    if 1 < |live| < |cell.d| {
      var last := |live| - 1;
      assert forall j :: 0 <= j < last ==> live[j] < live[last];
      forall i | 0 <= i < |r.s| ensures Below(n, r.s[i], b) {
        assert r.s[i] == cell.s[live[i]] && live[i] < live[last];
      }
      assert forall p :: 0 <= p < |r.d| ==> r.d[p] == cell.d[live[p]];
      assert |cell.d[live[0]]| == |cell.d[0]|;
    }
  }

  lemma PrunedDriverOk(n: Netlist, cells: seq<Cell>, enabled: set<(nat, nat)>, b: nat)
    requires WellFormed(n) && SameShape(n, cells) && b < |n.drv| && n.drv[b].MuxOut? && DriverOk(n, b)
    ensures match PrunedAt(n, cells, enabled, b)
            case Alias(src) => Below(n, src, b)
            case MuxOut(c, off) =>
              && c == n.drv[b].cell && off == n.drv[b].off
              && ReadsBelow(n, PrunedCellAt(n, cells, enabled, c), off, b)
            case _ => true
  {
    var c, off := n.drv[b].cell, n.drv[b].off;
    assert SameShapeAt(n, cells, c) && CellOk(n, n.cells[c]);
    var cell := cells[c];
    forall p | 0 <= p < |cell.d| ensures |cell.d[p]| == |cell.d[0]| && Below(n, cell.d[p][off], b) {
      assert Below(n, n.cells[c].d[p][off], b);
    }
    assert forall i :: 0 <= i < |cell.s| ==> Below(n, cell.s[i], b);
    PrunedReadsBelow(n, cell, LivePorts(enabled, c, |cell.d|), off, b);
  }

  lemma PrunedWellFormed(n: Netlist, cells: seq<Cell>, enabled: set<(nat, nat)>)
    requires WellFormed(n) && SameShape(n, cells)
    ensures WellFormed(Pruned(n, cells, enabled))
  {
    var n' := Pruned(n, cells, enabled);
    forall c | 0 <= c < |n'.cells| ensures CellOk(n', n'.cells[c]) {
      PrunedCellOk(n, cells, enabled, c);
    }
    forall b | 0 <= b < |n'.drv| ensures DriverOk(n', b) {
      assert DriverOk(n, b);
      if n.drv[b].MuxOut? {
        PrunedDriverOk(n, cells, enabled, b);
        PrunedCellOk(n, cells, enabled, n.drv[b].cell);
      }
    }
  }

  // ----------------------------------------------------------------- meaning

  ghost predicate FreeAgree(n: Netlist, v: Valuation, v': Valuation) {
    |v| == |v'| == |n.drv| && forall b :: 0 <= b < |n.drv| && n.drv[b].Free? ==> v[b] == v'[b]
  }

  /** Signals whose value matters under v: not driven by a mux, or by an observed, covered mux. */
  ghost predicate Needed(n: Netlist, v: Valuation, ds: set<nat>, t: Sig)
    requires WellFormed(n) && InRange(n, t) && |v| == |n.drv|
  {
    forall c :: DrivenBy(n, t, c) ==> c in ds && Observed(n, v, c)
  }

  /** What a run of the optimiser leaves behind. */
  ghost predicate Evaluated(n: Netlist, v: Valuation, cells: seq<Cell>, enabled: set<(nat, nat)>, roots: set<nat>,
                            ds: set<nat>)
    requires WellFormed(n) && SameShape(n, cells) && |v| == |n.drv|
  {
    && PureRoots(n) <= roots <= ds && ObservedBitsKept(n, cells)
    && Closed(n, v, ds, {}, enabled, roots)
  }

  lemma SeenIsNeeded(n: Netlist, v: Valuation, cells: seq<Cell>, enabled: set<(nat, nat)>, roots: set<nat>,
                     ds: set<nat>, t: Sig)
    requires WellFormed(n) && SameShape(n, cells) && |v| == |n.drv| && Evaluated(n, v, cells, enabled, roots, ds)
    requires InRange(n, t) && (Rep(n, t).Wire? ==> SeenNonMux(n, Rep(n, t).id))
    ensures Needed(n, v, ds, t)
  {
    forall c | DrivenBy(n, t, c) ensures c in ds && Observed(n, v, c) {
      var b := Rep(n, t).id;
      assert DriverOk(n, b) && IsPureRoot(n, c);
      assert c in PureRoots(n);
      RootsAreObserved(n, v, c);
    }
  }

  lemma SelectsAreNeeded(n: Netlist, v: Valuation, cells: seq<Cell>, enabled: set<(nat, nat)>, roots: set<nat>,
                         ds: set<nat>, c: nat, i: nat)
    requires WellFormed(n) && SameShape(n, cells) && |v| == |n.drv| && Evaluated(n, v, cells, enabled, roots, ds)
    requires c < |n.cells| && n.cells[c].Mux? && i < |n.cells[c].s|
    ensures InRange(n, n.cells[c].s[i]) && Needed(n, v, ds, n.cells[c].s[i])
  {
    assert CellOk(n, n.cells[c]);
    var t := n.cells[c].s[i];
    if Rep(n, t).Wire? { assert SelectIs(n, c, i, Rep(n, t).id); }
    SeenIsNeeded(n, v, cells, enabled, roots, ds, t);
  }

  /** Both netlists, one valuation of each, and what the optimiser established. */
  ghost predicate Related(g: Gates, n: Netlist, cells: seq<Cell>, enabled: set<(nat, nat)>, roots: set<nat>,
                          ds: set<nat>, v: Valuation, v': Valuation)
  {
    && WellFormed(n) && SameShape(n, cells) && WellFormed(Pruned(n, cells, enabled))
    && Models(g, n, v) && Admissible(n, v) && Models(g, Pruned(n, cells, enabled), v')
    && FreeAgree(n, v, v') && Evaluated(n, v, cells, enabled, roots, ds)
  }

  /** A needed signal has the same value in both netlists; by induction on the rank of its bit. */
  lemma {:induction false} NeededValuesKept(g: Gates, n: Netlist, cells: seq<Cell>, enabled: set<(nat, nat)>,
                                            roots: set<nat>, ds: set<nat>, v: Valuation, v': Valuation, t: Sig)
    requires Related(g, n, cells, enabled, roots, ds, v, v')
    requires InRange(n, t) && Needed(n, v, ds, t)
    ensures Val(v', t) == Val(v, t)
    decreases if t.Wire? then n.rank[t.id] + 1 else 0, 1
  {
    if t.Wire? {
      var b := t.id;
      var n' := Pruned(n, cells, enabled);
      assert DriverOk(n, b) && Holds(g, n, v, b) && Holds(g, n', v', b) && n'.drv[b] == PrunedAt(n, cells, enabled, b);
      match n.drv[b]
      case Free =>
      case Alias(src) =>
        assert forall c :: DrivenBy(n, src, c) ==> DrivenBy(n, t, c);
        NeededValuesKept(g, n, cells, enabled, roots, ds, v, v', src);
      case Gate(op, ins) =>
        forall i | 0 <= i < |ins| ensures Val(v', ins[i]) == Val(v, ins[i]) {
          if Rep(n, ins[i]).Wire? { assert GateInputIs(n, b, i, Rep(n, ins[i]).id); }
          SeenIsNeeded(n, v, cells, enabled, roots, ds, ins[i]);
          NeededValuesKept(g, n, cells, enabled, roots, ds, v, v', ins[i]);
        }
        assert Vals(v, ins) == Vals(v', ins);
      case MuxOut(c, off) =>
        assert DrivenBy(n, t, c);
        MuxBitKept(g, n, cells, enabled, roots, ds, v, v', b);
    }
  }

  lemma {:induction false} MuxBitKept(g: Gates, n: Netlist, cells: seq<Cell>, enabled: set<(nat, nat)>,
                                      roots: set<nat>, ds: set<nat>, v: Valuation, v': Valuation, b: nat)
    requires Related(g, n, cells, enabled, roots, ds, v, v')
    requires b < |n.drv| && n.drv[b].MuxOut? && n.drv[b].cell in ds && Observed(n, v, n.drv[b].cell)
    ensures v'[b] == v[b]
    decreases n.rank[b] + 1, 0
  {
    var c, off := n.drv[b].cell, n.drv[b].off;
    assert DriverOk(n, b) && Holds(g, n, v, b) && CellOk(n, n.cells[c]);
    var cell := n.cells[c];
    var t := cell.d[Active(v, cell)][off];
    ActiveDataIsNeeded(n, v, cells, enabled, roots, ds, b);
    NeededValuesKept(g, n, cells, enabled, roots, ds, v, v', t);
    forall i | 0 <= i < |cell.s| ensures Val(v', cell.s[i]) == Val(v, cell.s[i]) {
      SelectsAreNeeded(n, v, cells, enabled, roots, ds, c, i);
      assert Below(n, cell.s[i], b);
      NeededValuesKept(g, n, cells, enabled, roots, ds, v, v', cell.s[i]);
    }
    PrunedBitValue(g, n, cells, enabled, roots, ds, v, v', b);
  }

  /** The data bit an observed, covered mux passes on is needed. */
  lemma ActiveDataIsNeeded(n: Netlist, v: Valuation, cells: seq<Cell>, enabled: set<(nat, nat)>, roots: set<nat>,
                           ds: set<nat>, b: nat)
    requires WellFormed(n) && SameShape(n, cells) && |v| == |n.drv| && Evaluated(n, v, cells, enabled, roots, ds)
    requires b < |n.drv| && n.drv[b].MuxOut? && n.drv[b].cell in ds && Observed(n, v, n.drv[b].cell)
    requires DriverOk(n, b) && CellOk(n, n.cells[n.drv[b].cell])
    ensures var cell := n.cells[n.drv[b].cell];
            var p := Active(v, cell);
            |cell.d[p]| == |cell.d[0]| && Below(n, cell.d[p][n.drv[b].off], b)
            && Needed(n, v, ds, cell.d[p][n.drv[b].off])
  {
    var c, off := n.drv[b].cell, n.drv[b].off;
    var cell := n.cells[c];
    var p := Active(v, cell);
    assert |cell.d[p]| == |cell.d[0]| && Below(n, cell.d[p][off], b);
    var t := cell.d[p][off];
    forall m | DrivenBy(n, t, m) ensures m in ds && Observed(n, v, m) {
      assert DriverOk(n, Rep(n, t).id);
      assert Feeds(n, m, c, p) && m in InputMuxes(n, c, p) && FeedsActive(n, v, m, c);
      ActiveInputsAreObserved(n, v, m, c);
    }
  }

  /** What is known about a bit of an observed mux before and after pruning. */
  lemma PrunedBitFacts(g: Gates, n: Netlist, cells: seq<Cell>, enabled: set<(nat, nat)>, roots: set<nat>, ds: set<nat>,
                       v: Valuation, v': Valuation, b: nat)
    requires Related(g, n, cells, enabled, roots, ds, v, v')
    requires b < |n.drv| && n.drv[b].MuxOut? && n.drv[b].cell in ds && Observed(n, v, n.drv[b].cell)
    ensures WellFormed(n) && SameShape(n, cells) && |v| == |v'| == |n.drv| && OneHot(n, v)
    ensures WellFormed(Pruned(n, cells, enabled)) && Holds(g, n, v, b) && Holds(g, Pruned(n, cells, enabled), v', b)
    ensures n.drv[b].cell < |cells| == |n.cells| && SameShapeAt(n, cells, n.drv[b].cell)
    ensures ActiveBitsKept(n, cells, v, n.drv[b].cell)
    ensures (n.drv[b].cell, Active(v, n.cells[n.drv[b].cell])) in enabled
  {
    assert DriverOk(n, b);
  }

  /** The pruned driver passes on the data bit of the port that was active. */
  lemma PrunedBitValue(g: Gates, n: Netlist, cells: seq<Cell>, enabled: set<(nat, nat)>, roots: set<nat>, ds: set<nat>,
                       v: Valuation, v': Valuation, b: nat)
    requires Related(g, n, cells, enabled, roots, ds, v, v')
    requires b < |n.drv| && n.drv[b].MuxOut? && n.drv[b].cell in ds && Observed(n, v, n.drv[b].cell)
    requires DriverOk(n, b) && CellOk(n, n.cells[n.drv[b].cell])
    requires var cell := n.cells[n.drv[b].cell];
             var p := Active(v, cell);
             && |cell.d[p]| == |cell.d[0]|
             && Val(v', cell.d[p][n.drv[b].off]) == Val(v, cell.d[p][n.drv[b].off])
             && (forall i :: 0 <= i < |cell.s| ==> Val(v', cell.s[i]) == Val(v, cell.s[i]))
    ensures v'[b] == v[b]
  {
    hide Observed, Related, PrunedDriver, PrunedCell, ActiveFrom;
    PrunedBitFacts(g, n, cells, enabled, roots, ds, v, v', b);
    var n' := Pruned(n, cells, enabled);
    var c, off := n.drv[b].cell, n.drv[b].off;
    var p := Active(v, n.cells[c]);
    var t := cells[c].d[p][off];
    assert t == n.cells[c].d[p][off] || t.Const?;
    assert Val(v', t) == v[b];
    assert n'.drv[b] == PrunedAt(n, cells, enabled, b) && n'.cells[c] == PrunedCellAt(n, cells, enabled, c);
    var live := LivePorts(enabled, c, |cells[c].d|);
    PrunedMuxReads(n, v, v', cells[c], live, p, off, c);
  }

  /** What the driver and the cell left by pruning read when port p is active: the bit of port p. */
  lemma PrunedMuxReads(n: Netlist, v: Valuation, v': Valuation, cell: Cell, live: seq<nat>, p: nat, off: nat, c: nat)
    requires WellFormed(n) && |v| == |v'| == |n.drv| && OneHot(n, v)
    requires c < |n.cells| && n.cells[c].Mux? && cell.Mux? && cell.s == n.cells[c].s && CellOk(n, n.cells[c])
    requires PortsOk(cell) && off < |cell.d[0]| && p == Active(v, n.cells[c]) && p in live
    requires |live| <= |cell.d| && forall j :: 0 <= j < |live| ==> live[j] < |cell.d|
    requires forall j, k :: 0 <= j < k < |live| ==> live[j] < live[k]
    requires forall j :: 0 <= j < |cell.s| ==> Val(v', cell.s[j]) == Val(v, cell.s[j])
    ensures PrunedDriver(cell, live, c, off).Alias? ==> PrunedDriver(cell, live, c, off).src == cell.d[p][off]
    ensures PrunedDriver(cell, live, c, off).Alias? || PrunedDriver(cell, live, c, off).MuxOut?
    ensures PrunedDriver(cell, live, c, off).MuxOut? ==>
              var r := PrunedCell(cell, live);
              PrunedDriver(cell, live, c, off) == MuxOut(c, off) && r.Mux? && SelectsInRange(v', r)
              && Active(v', r) < |r.d| && r.d[Active(v', r)] == cell.d[p]
  {
    hide WellFormed, ActiveFrom, OneHot;
    var i :| 0 <= i < |live| && live[i] == p;
    assert forall j :: 0 <= j < |cell.s| ==> InRange(n, cell.s[j]);
    if |live| == |cell.d| {
      SameActiveCell(v, v', n.cells[c], cell);
    } else if |live| > 1 {
      PrunedActive(n, v, v', cell, live, i, c);
    }
  }

  lemma SameActiveCell(v: Valuation, v': Valuation, cell: Cell, cell': Cell)
    requires cell.Mux? && cell'.Mux? && cell.s == cell'.s && SelectsInRange(v, cell) && SelectsInRange(v', cell')
    requires forall j :: 0 <= j < |cell.s| ==> Val(v', cell.s[j]) == Val(v, cell.s[j])
    ensures Active(v', cell') == Active(v, cell)
  {
    hide ActiveFrom;
    SameActive(v, v', cell, 0);
    SameSelects(v', cell, cell', 0);
  }

  lemma {:induction false} SameSelects(v: Valuation, cell: Cell, cell': Cell, i: nat)
    requires SelectsInRange(v, cell) && SelectsInRange(v, cell') && cell.s == cell'.s && i <= |cell.s|
    ensures ActiveFrom(v, cell, i) == ActiveFrom(v, cell', i)
    decreases |cell.s| - i
  {
    if i < |cell.s| { SameSelects(v, cell, cell', i + 1); }
  }

  lemma {:induction false} SameActive(v: Valuation, v': Valuation, cell: Cell, i: nat)
    requires SelectsInRange(v, cell) && SelectsInRange(v', cell) && i <= |cell.s|
    requires forall j :: 0 <= j < |cell.s| ==> Val(v', cell.s[j]) == Val(v, cell.s[j])
    ensures ActiveFrom(v', cell, i) == ActiveFrom(v, cell, i)
    decreases |cell.s| - i
  {
    if i < |cell.s| { SameActive(v, v', cell, i + 1); }
  }

  /** The pruned mux selects the port that was active before. */
  lemma PrunedActive(n: Netlist, v: Valuation, v': Valuation, cell: Cell, live: seq<nat>, i: nat, c: nat)
    requires WellFormed(n) && |v| == |v'| == |n.drv| && OneHot(n, v)
    requires c < |n.cells| && n.cells[c].Mux? && cell.Mux? && cell.s == n.cells[c].s && CellOk(n, n.cells[c])
    requires PortsOk(cell) && (forall j :: 0 <= j < |live| ==> live[j] < |cell.d|)
    requires forall j, k :: 0 <= j < k < |live| ==> live[j] < live[k]
    requires forall j :: 0 <= j < |cell.s| ==> Val(v', cell.s[j]) == Val(v, cell.s[j])
    requires i < |live| && live[i] == Active(v, n.cells[c]) && 1 < |live| < |cell.d|
    ensures SelectsInRange(v', PrunedCell(cell, live)) && Active(v', PrunedCell(cell, live)) == i
  {
    var r := PrunedCell(cell, live);
    var last := |live| - 1;
    assert forall j :: 0 <= j < last ==> live[j] < live[last];
    assert |r.s| == last && forall j :: 0 <= j < last ==> r.s[j] == cell.s[live[j]];
    forall j | 0 <= j < |r.s| ensures Val(v', r.s[j]) <==> j == i {
      assert r.s[j] == cell.s[live[j]];
      assert j < i ==> live[j] < live[i];
      assert i < j ==> live[i] < live[j];
    }
    var k := Active(v', r);
  }

  /** Undriven bits stay undriven, and the selects of a mux are a part of those it had. */
  ghost predicate StructureKept(n: Netlist, n': Netlist)
    requires WellFormed(n) && WellFormed(n')
  {
    && |n'.drv| == |n.drv| && n'.keep == n.keep
    && (forall b :: 0 <= b < |n.drv| && n.drv[b].Free? ==> n'.drv[b].Free?)
    && (forall v | |v| == |n.drv| && OneHot(n, v) :: OneHot(n', v))
  }

  lemma PruningKeepsStructure(n: Netlist, cells: seq<Cell>, enabled: set<(nat, nat)>)
    requires WellFormed(n) && SameShape(n, cells)
    ensures WellFormed(Pruned(n, cells, enabled)) && StructureKept(n, Pruned(n, cells, enabled))
  {
    PrunedWellFormed(n, cells, enabled);
    var n' := Pruned(n, cells, enabled);
    forall v, c, i, j | |v| == |n.drv| && OneHot(n, v) && 0 <= c < |cells| && n'.cells[c].Mux?
                        && 0 <= i < j < |n'.cells[c].s|
      ensures !(Val(v, n'.cells[c].s[i]) && Val(v, n'.cells[c].s[j]))
    {
      assert SameShapeAt(n, cells, c) && CellOk(n, n.cells[c]) && CellOk(n', n'.cells[c]);
      var live := LivePorts(enabled, c, |cells[c].d|);
      if |live| != |cells[c].d| {
        var last := |live| - 1;
        assert forall k :: 0 <= k < last ==> live[k] < live[last];
        assert n'.cells[c].s[i] == n.cells[c].s[live[i]] && n'.cells[c].s[j] == n.cells[c].s[live[j]];
      }
    }
  }

  // --------------------------------------------------------- the main theorem

  /** n' computes what n computes: for the same module inputs, register outputs and undriven bits,
      every bit that is read by anything but a mux data port has the same value. */
  ghost predicate SameMeaning(n: Netlist, n': Netlist)
    requires WellFormed(n) && WellFormed(n')
  {
    forall g, v, v' | Models(g, n, v) && OneHot(n, v) && Models(g, n', v') && FreeAgree(n, v, v')
      :: SeenAgree(n, v, v')
  }

  ghost predicate SeenAgree(n: Netlist, v: Valuation, v': Valuation)
    requires WellFormed(n)
  {
    && |v| == |v'| == |n.drv|
    && (forall t: Sig {:trigger Rep(n, t)} ::
          InRange(n, t) && (Rep(n, t).Wire? ==> SeenNonMux(n, Rep(n, t).id)) ==> Val(v', t) == Val(v, t))
  }

  /** Every root that enables ports has been evaluated, for every valuation. */
  ghost predicate RootsCovered(n: Netlist, rs: set<nat>, enabled: set<(nat, nat)>, roots: set<nat>)
    requires WellFormed(n)
  {
    forall r :: r in rs ==> RootCovered(n, r, enabled, roots)
  }

  ghost predicate RootCovered(n: Netlist, r: nat, enabled: set<(nat, nat)>, roots: set<nat>)
    requires WellFormed(n)
  {
    forall v | Admissible(n, v) :: Covers(n, v, {r}, {r}, enabled, roots)
  }

  lemma {:induction false} GatherRoots(n: Netlist, v: Valuation, rs: set<nat>, enabled: set<(nat, nat)>,
                                       roots: set<nat>)
    requires WellFormed(n) && Admissible(n, v) && RootsCovered(n, rs, enabled, roots) && rs <= roots
    ensures Covers(n, v, rs, {}, enabled, roots)
  {
    if rs == {} {
      assert rs <= rs && Closed(n, v, rs, {}, enabled, roots);
    } else {
      var r :| r in rs;
      GatherRoots(n, v, rs - {r}, enabled, roots);
      assert RootCovered(n, r, enabled, roots);
      var ds :| {r} <= ds && Closed(n, v, ds, {r}, enabled, roots);
      assert Closed(n, v, ds, {}, enabled, roots);
      assert Covers(n, v, {r}, {}, enabled, roots);
      CoversUnion(n, v, rs - {r}, {r}, {}, enabled, roots);
      assert rs - {r} + {r} == rs;
    }
  }

  /** Pruning the dead ports of an evaluated netlist keeps its meaning. */
  lemma PruningKeepsMeaning(n: Netlist, cells: seq<Cell>, enabled: set<(nat, nat)>, roots: set<nat>)
    requires WellFormed(n) && SameShape(n, cells) && ObservedBitsKept(n, cells)
    requires PureRoots(n) <= roots && RootsCovered(n, roots, enabled, roots)
    ensures WellFormed(Pruned(n, cells, enabled)) && SameMeaning(n, Pruned(n, cells, enabled))
  {
    PrunedWellFormed(n, cells, enabled);
    var n' := Pruned(n, cells, enabled);
    forall g, v, v' | Models(g, n, v) && OneHot(n, v) && Models(g, n', v') && FreeAgree(n, v, v')
      ensures SeenAgree(n, v, v')
    {
      ModelsAreAdmissible(g, n, v);
      GatherRoots(n, v, roots, enabled, roots);
      var ds :| roots <= ds && Closed(n, v, ds, {}, enabled, roots);
      SeenKept(g, n, cells, enabled, roots, ds, v, v');
    }
  }

  lemma SeenKept(g: Gates, n: Netlist, cells: seq<Cell>, enabled: set<(nat, nat)>, roots: set<nat>, ds: set<nat>,
                 v: Valuation, v': Valuation)
    requires Related(g, n, cells, enabled, roots, ds, v, v')
    ensures SeenAgree(n, v, v')
  {
    forall t: Sig | InRange(n, t) && (Rep(n, t).Wire? ==> SeenNonMux(n, Rep(n, t).id)) ensures Val(v', t) == Val(v, t) {
      SeenIsNeeded(n, v, cells, enabled, roots, ds, t);
      NeededValuesKept(g, n, cells, enabled, roots, ds, v, v', t);
    }
  }

  /** With all ports enabled nothing is removed. */
  lemma SameShapeWellFormed(n: Netlist, cells: seq<Cell>, enabled: set<(nat, nat)>)
    requires WellFormed(n) && SameShape(n, cells)
    requires forall c, p :: 0 <= c < |n.cells| && n.cells[c].Mux? && 0 <= p < |n.cells[c].d| ==> (c, p) in enabled
    ensures WellFormed(n.(cells := cells)) && Pruned(n, cells, enabled) == n.(cells := cells)
  {
    var n' := Pruned(n, cells, enabled);
    forall c | 0 <= c < |cells| ensures n'.cells[c] == cells[c] {
      assert SameShapeAt(n, cells, c);
      if cells[c].Mux? { AllLive(enabled, c, |cells[c].d|); }
    }
    forall b | 0 <= b < |n.drv| ensures n'.drv[b] == n.drv[b] {
      assert DriverOk(n, b);
      if n.drv[b].MuxOut? {
        assert SameShapeAt(n, cells, n.drv[b].cell);
        AllLive(enabled, n.drv[b].cell, |cells[n.drv[b].cell].d|);
      }
    }
    assert n' == n.(cells := cells);
    PrunedWellFormed(n, cells, enabled);
  }

  /** Without pruning (the optimiser gave up), the rewritten bits alone keep the meaning. */
  lemma RewritingKeepsMeaning(n: Netlist, cells: seq<Cell>)
    requires WellFormed(n) && SameShape(n, cells) && ObservedBitsKept(n, cells)
    ensures WellFormed(n.(cells := cells)) && SameMeaning(n, n.(cells := cells))
  {
    var all := AllPorts(n);
    var roots := PureRoots(n);
    var n' := Pruned(n, cells, all);
    SameShapeWellFormed(n, cells, AllPorts(n));
    forall g, v, v' | Models(g, n, v) && OneHot(n, v) && Models(g, n', v') && FreeAgree(n, v, v')
      ensures SeenAgree(n, v, v')
    {
      ModelsAreAdmissible(g, n, v);
      var ds := set c: nat | c in UpTo(|n.cells|) && n.cells[c].Mux?;
      forall d | d in ds
        ensures (CellOk(n, n.cells[d]) ==> (d, Active(v, n.cells[d])) in all
                                           && InputMuxes(n, d, Active(v, n.cells[d])) <= ds)
      {
        assert CellOk(n, n.cells[d]);
        forall m | m in InputMuxes(n, d, Active(v, n.cells[d])) ensures m in ds {
          InputsAreMuxes(n, m, d, Active(v, n.cells[d]));
        }
      }
      forall r | r in roots ensures r in ds {
        assert IsPureRoot(n, r);
        var b :| 0 <= b < |n.drv| && n.drv[b].MuxOut? && n.drv[b].cell == r && SeenNonMux(n, b);
        assert DriverOk(n, b);
      }
      SeenKept(g, n, cells, all, roots, ds, v, v');
    }
  }

  /** Where constant selects leave no other port a choice, removal leaves no mux with a constant select. */
  lemma NoConstantSelects(n: Netlist, cells: seq<Cell>, enabled: set<(nat, nat)>, c: nat, i: nat)
    requires WellFormed(n) && SameShape(n, cells) && OnlyChoices(n, enabled) && c < |cells|
    requires PrunedCellAt(n, cells, enabled, c).Mux? && i < |PrunedCellAt(n, cells, enabled, c).s|
    ensures var s := PrunedCellAt(n, cells, enabled, c).s[i]; InRange(n, s) && Rep(n, s).Wire?
  {
    assert SameShapeAt(n, cells, c) && CellOk(n, n.cells[c]);
    var cell := n.cells[c];
    var live := LivePorts(enabled, c, |cell.d|);
    if |live| == |cell.d| { AllInOrder(live, |live|); }
    assert live[i] < live[i + 1];
    assert (c, live[i]) in enabled && (c, live[i + 1]) in enabled;
    assert CanBeChosen(n, c, live[i]) && CanBeChosen(n, c, live[i + 1]);
    assert !Forced(n, c, live[i]);
  }

  /** An increasing sequence of n numbers below n is 0, 1, ..., n - 1. */
  lemma {:induction false} AllInOrder(live: seq<nat>, n: nat)
    requires n == |live| && forall i, j :: 0 <= i < j < |live| ==> live[i] < live[j]
    requires forall i :: 0 <= i < |live| ==> live[i] < n
    ensures forall i :: 0 <= i < |live| ==> live[i] == i
  {
    if n > 0 {
      AtLeast(live, n - 1);
      AllInOrder(live[..n - 1], n - 1);
    }
  }

  lemma {:induction false} AtLeast(live: seq<nat>, i: nat)
    requires i < |live| && forall j, k :: 0 <= j < k < |live| ==> live[j] < live[k]
    ensures live[i] >= i
    decreases i
  {
    if i > 0 { AtLeast(live, i - 1); }
  }

  ghost function AllPorts(n: Netlist): (all: set<(nat, nat)>)
    ensures forall c, p :: 0 <= c < |n.cells| && n.cells[c].Mux? && 0 <= p < |n.cells[c].d| ==> (c, p) in all
  {
    set c, p | 0 <= c < |n.cells| && n.cells[c].Mux? && 0 <= p < |n.cells[c].d| :: (c, p)
  }

  lemma {:induction false} AllLive(enabled: set<(nat, nat)>, c: nat, np: nat)
    requires forall p :: 0 <= p < np ==> (c, p) in enabled
    ensures |LivePorts(enabled, c, np)| == np
    decreases np
  {
    if np > 0 { AllLive(enabled, c, np - 1); }
  }
}
