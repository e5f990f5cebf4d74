/**
  Designs for which the optimiser can be repeated. A run keeps what makes them so, although it rewrites,
  takes out and reconnects muxes.
 */
module MuxReaders {
  import opened MuxNetlist
  import opened MuxKnowledge
  import opened MuxPruning
  import opened MuxWalk

  /** No select of mux c is constant. */
  predicate OpenSelects(n: Netlist, c: nat)
    requires WellFormed(n) && IsMux(n, c)
  {
    forall i :: 0 <= i < |n.cells[c].s| ==> Ctrl(n, c, i).Wire?
  }

  /** Where a select is driven by a mux, that mux has no constant select. */
  predicate FirmSelects(n: Netlist)
    requires WellFormed(n)
  {
    forall c, i :: 0 <= c < |n.cells| && n.cells[c].Mux? && 0 <= i < |n.cells[c].s| ==> FirmSelect(n, c, i)
  }

  predicate FirmSelect(n: Netlist, c: nat, i: nat)
    requires WellFormed(n) && IsMux(n, c) && i < |n.cells[c].s|
  {
    var t := Ctrl(n, c, i);
    t.Wire? && n.drv[t.id].MuxOut? ==> DriverOk(n, t.id) && OpenSelects(n, n.drv[t.id].cell)
  }

  /** Bits that are kept or read by a gate. */
  predicate SeenForGood(n: Netlist, b: nat)
    requires WellFormed(n)
  {
    || (exists k :: k in n.keep && Rep(n, Wire(k)) == Wire(b))
    || (exists x, i :: 0 <= x < |n.drv| && n.drv[x].Gate? && 0 <= i < |n.drv[x].ins| && GateInputIs(n, x, i, b))
  }

  /** Muxes that stay roots whatever happens to other muxes. */
  predicate Anchored(n: Netlist, m: nat)
    requires WellFormed(n)
  {
    exists b :: 0 <= b < |n.drv| && n.drv[b].MuxOut? && n.drv[b].cell == m && SeenForGood(n, b)
  }

  predicate Reads(n: Netlist, c: nat, p: nat, m: nat)
    requires WellFormed(n)
  {
    IsMux(n, c) && p <= |n.cells[c].s| && m in InputMuxes(n, c, p)
  }

  /** A mux that may have any number of readers. */
  predicate MayBeShared(n: Netlist, m: nat)
    requires WellFormed(n)
  {
    Anchored(n, m) && IsMux(n, m) && OpenSelects(n, m)
  }

  /** Every other mux, root or not, feeds at most one port of one mux. */
  ghost predicate OneReader(n: Netlist)
    requires WellFormed(n)
  {
    forall m: nat, c: nat, p: nat, c': nat, p': nat ::
      Reads(n, c, p, m) && Reads(n, c', p', m) ==> (c == c' && p == p') || MayBeShared(n, m)
  }

  ghost predicate Repeatable(n: Netlist)
    requires WellFormed(n)
  {
    FirmSelects(n) && DistinctSelects(n) && OneReader(n)
  }

  lemma AnchoredIsPure(n: Netlist, m: nat)
    requires WellFormed(n) && Anchored(n, m)
    ensures m in PureRoots(n) && m in Roots(n)
  {
    var b :| 0 <= b < |n.drv| && n.drv[b].MuxOut? && n.drv[b].cell == m && SeenForGood(n, b);
    assert DriverOk(n, b) && SeenNonMux(n, b);
    assert IsPureRoot(n, m);
  }

  lemma RepeatableIsReplaceable(n: Netlist)
    requires WellFormed(n) && Repeatable(n)
    ensures Replaceable(n)
  {
    hide WellFormed, OwnSelectsRight, DistinctSelects, InputMuxes, Anchored, Roots;
    DistinctIsRight(n);
    forall m, c, p, q |
      && 0 <= m < |n.cells| && m !in Roots(n)
      && 0 <= c < |n.cells| && n.cells[c].Mux?
      && 0 <= p <= |n.cells[c].s| && 0 <= q <= |n.cells[c].s|
      && m in InputMuxes(n, c, p) && m in InputMuxes(n, c, q)
      ensures p == q
    {
      assert Reads(n, c, p, m) && Reads(n, c, q, m);
      if p != q { AnchoredIsPure(n, m); }
    }
  }

  // ----------------------------------------- pure roots keep all their ports

  predicate AllEnabled(n: Netlist, c: nat, p: nat, enabled: set<(nat, nat)>)
    requires IsMux(n, c)
  {
    forall q :: p <= q <= |n.cells[c].s| ==> (c, q) in enabled
  }

  lemma {:induction false} NothingRuledOut(n: Netlist, order: Order, w: Work, k: Knowledge, c: nat, p: nat, m: Mode)
    requires WellFormed(n) && IsOrder(order) && SameShape(n, w.cells) && Sized(n, k) && IsMux(n, c)
    requires p <= |n.cells[c].s| + 1 && m.enable && w.left > 0
    requires forall q :: 0 <= q < |n.cells[c].s| ==> !RuledOut(n, c, k, q)
    ensures WalkPortsFrom(n, order, w, k, c, p, m).left > 0 ==>
              AllEnabled(n, c, p, WalkPortsFrom(n, order, w, k, c, p, m).enabled)
    decreases |n.cells[c].s| + 1 - p
  {
    hide WellFormed, WalkPort, SameShape, IsOrder;
    if p <= |n.cells[c].s| {
      var w1 := WalkPort(n, order, w, k, c, p, m);
      if w1.left > 0 {
        NothingRuledOut(n, order, w1, k, c, p + 1, m);
        assert (c, p) in w1.enabled;
      }
    }
  }

  lemma RootKeepsPorts(n: Netlist, order: Order, w: Work, r: nat)
    requires WellFormed(n) && IsOrder(order) && SameShape(n, w.cells) && r in Roots(n) && IsMux(n, r)
    requires OpenSelects(n, r) && w.left > 0 && r in w.enabling
    ensures IsMux(n, r) && (WalkRoot(n, order, w, r).left > 0 ==> AllEnabled(n, r, 0, WalkRoot(n, order, w, r).enabled))
  {
    hide WellFormed, WalkPort, WalkPortsFrom, SameShape, IsOrder, Rewritten, Later, Roots;
    RootsAreMuxes(n, r);
    var k, m := Nothing(n, r), Mode(true, true, 3);
    var w1 := Work(w.enabling, w.rerun - {r}, w.enabled, Rewritten(n, r, k, w.cells), w.left - 1);
    assert WalkRoot(n, order, w, r) == WalkPorts(n, order, w1, k, r, m);
    assert forall q :: 0 <= q < |n.cells[r].s| ==>
        !Forced(n, r, q) && !KnownActive(n, r, k, q) && !RuledOut(n, r, k, q);
    assert WalkPorts(n, order, w1, k, r, m) == WalkPortsFrom(n, order, w1, k, r, 0, m);
    if w1.left > 0 {
      NothingRuledOut(n, order, w1, k, r, 0, m);
    } else {
      NoneLeft(n, order, w1, k, r, m);
    }
  }

  lemma NoneLeft(n: Netlist, order: Order, w: Work, k: Knowledge, c: nat, m: Mode)
    requires WellFormed(n) && IsOrder(order) && SameShape(n, w.cells) && Sized(n, k) && IsMux(n, c) && w.left == 0
    ensures WalkPortsFrom(n, order, w, k, c, 0, m).left == 0
  {
    hide WellFormed, SameShape, IsOrder;
  }

  lemma {:induction false} RootsKeepPorts(n: Netlist, order: Order, w: Work, r0: nat, r: nat)
    requires WellFormed(n) && IsOrder(order) && SameShape(n, w.cells) && IsMux(n, r) && OpenSelects(n, r)
    requires r0 <= r < |n.cells| && w.left > 0 && w.rerun <= Roots(n) && r in Roots(n) && r in w.enabling
    ensures IsMux(n, r)
    ensures WalkRoots(n, order, w, r0).left > 0 ==> AllEnabled(n, r, 0, WalkRoots(n, order, w, r0).enabled)
    decreases r - r0
  {
    hide WellFormed, WalkRoot, WalkRerun, SameShape, IsOrder, Roots, OpenSelects;
    if r0 !in Roots(n) {
      NoRootHere(n, order, w, r0);
      RootsKeepPorts(n, order, w, r0 + 1, r);
    } else {
      var w1 := WalkRoot(n, order, w, r0);
      RootsStep(n, order, w, r0, w1);
      if r0 == r {
        RootKeepsPorts(n, order, w, r);
      } else if w1.left > 0 {
        RootsKeepPorts(n, order, w1, r0 + 1, r);
      } else {
        RootsAreMuxes(n, r);
      }
    }
  }

  // --------------------------------------------- representatives after a run

  /** The muxes that a run takes out and replaces by a connection. */
  predicate Gone(n: Netlist, cells: seq<Cell>, enabled: set<(nat, nat)>, c: nat)
    requires WellFormed(n) && SameShape(n, cells)
  {
    && c < |cells| && cells[c].Mux?
    && |LivePorts(enabled, c, |cells[c].d|)| <= 1 < |cells[c].d|
  }

  /** Every pure root without constant selects has all its ports enabled. */
  ghost predicate PureKept(n: Netlist, enabled: set<(nat, nat)>)
    requires WellFormed(n)
  {
    forall r :: r in PureRoots(n) && IsMux(n, r) && OpenSelects(n, r) ==> AllEnabled(n, r, 0, enabled)
  }

  lemma {:induction false} RepPruned(n: Netlist, cells: seq<Cell>, enabled: set<(nat, nat)>, n': Netlist, t: Sig)
    requires WellFormed(n) && SameShape(n, cells) && n' == Pruned(n, cells, enabled) && WellFormed(n') && InRange(n, t)
    ensures Rep(n', t) == Rep(n', Rep(n, t))
    decreases if t.Wire? then n.rank[t.id] + 1 else 0
  {
    hide LivePorts, PrunedDriver;
    if t.Wire? && n.drv[t.id].Alias? {
      assert DriverOk(n, t.id) && n'.drv[t.id] == PrunedAt(n, cells, enabled, t.id);
      RepPruned(n, cells, enabled, n', n.drv[t.id].src);
    }
  }

  /** A pure root without constant selects goes on driving its bits. */
  lemma DriverKept(n: Netlist, cells: seq<Cell>, enabled: set<(nat, nat)>, n': Netlist, b: nat)
    requires WellFormed(n) && SameShape(n, cells) && n' == Pruned(n, cells, enabled) && PureKept(n, enabled)
    requires b < |n.drv| && n.drv[b].MuxOut? && n.drv[b].cell in PureRoots(n)
    requires IsMux(n, n.drv[b].cell) && OpenSelects(n, n.drv[b].cell)
    ensures n'.drv[b] == n.drv[b]
  {
    hide OpenSelects, PureRoots;
    var c := n.drv[b].cell;
    assert DriverOk(n, b) && n'.drv[b] == PrunedAt(n, cells, enabled, b);
    assert SameShapeAt(n, cells, c);
    AllLive(enabled, c, |cells[c].d|);
  }

  /** A bit seen outside mux data ports is its own representative still, if what drives it has no constant select. */
  lemma SeenRepKept(n: Netlist, cells: seq<Cell>, enabled: set<(nat, nat)>, n': Netlist, t: Sig)
    requires WellFormed(n) && SameShape(n, cells) && n' == Pruned(n, cells, enabled) && WellFormed(n') && InRange(n, t)
    requires PureKept(n, enabled) && Rep(n, t).Wire? && SeenNonMux(n, Rep(n, t).id)
    requires n.drv[Rep(n, t).id].MuxOut? ==>
               IsMux(n, n.drv[Rep(n, t).id].cell) && OpenSelects(n, n.drv[Rep(n, t).id].cell)
    ensures Rep(n', t) == Rep(n, t)
  {
    hide SeenNonMux, OpenSelects, PrunedAt;
    var b := Rep(n, t).id;
    RepPruned(n, cells, enabled, n', t);
    if n.drv[b].MuxOut? {
      assert IsPureRoot(n, n.drv[b].cell);
      DriverKept(n, cells, enabled, n', b);
    } else {
      OtherDriver(n, cells, enabled, n', b);
    }
  }

  lemma OtherDriver(n: Netlist, cells: seq<Cell>, enabled: set<(nat, nat)>, n': Netlist, b: nat)
    requires WellFormed(n) && SameShape(n, cells) && n' == Pruned(n, cells, enabled) && b < |n.drv|
    requires !n.drv[b].MuxOut?
    ensures n'.drv[b] == n.drv[b]
  {
  }

  lemma SelectRepKept(n: Netlist, cells: seq<Cell>, enabled: set<(nat, nat)>, n': Netlist, c: nat, i: nat)
    requires WellFormed(n) && SameShape(n, cells) && n' == Pruned(n, cells, enabled) && WellFormed(n')
    requires PureKept(n, enabled) && FirmSelects(n) && IsMux(n, c) && i < |n.cells[c].s|
    ensures InRange(n, n.cells[c].s[i]) && Rep(n', n.cells[c].s[i]) == Ctrl(n, c, i)
  {
    hide OpenSelects, Pruned, PureKept;
    assert CellOk(n, n.cells[c]) && FirmSelect(n, c, i);
    if Ctrl(n, c, i).Wire? {
      assert SelectIs(n, c, i, Ctrl(n, c, i).id);
      SeenRepKept(n, cells, enabled, n', n.cells[c].s[i]);
    } else {
      RepPruned(n, cells, enabled, n', n.cells[c].s[i]);
    }
  }

  /** The port of mux c before the run that is port p after it. */
  function FormerPort(n: Netlist, cells: seq<Cell>, enabled: set<(nat, nat)>, c: nat, p: nat): (q: nat)
    requires WellFormed(n) && SameShape(n, cells) && c < |cells| && PrunedCellAt(n, cells, enabled, c).Mux?
    requires p <= |PrunedCellAt(n, cells, enabled, c).s|
    ensures IsMux(n, c) && q <= |n.cells[c].s| && cells[c].Mux? && q < |cells[c].d|
    ensures p < |PrunedCellAt(n, cells, enabled, c).d| && PrunedCellAt(n, cells, enabled, c).d[p] == cells[c].d[q]
    ensures p < |PrunedCellAt(n, cells, enabled, c).s| ==>
              q < |n.cells[c].s| && PrunedCellAt(n, cells, enabled, c).s[p] == n.cells[c].s[q]
  {
    assert SameShapeAt(n, cells, c) && CellOk(n, n.cells[c]);
    var live := LivePorts(enabled, c, |cells[c].d|);
    if |live| == |cells[c].d| then p
    else
      assert p < |live| - 1 ==> live[p] < live[|live| - 1];
      live[p]
  }

  lemma FormerPortsDiffer(n: Netlist, cells: seq<Cell>, enabled: set<(nat, nat)>, c: nat, p: nat, p': nat)
    requires WellFormed(n) && SameShape(n, cells) && c < |cells| && PrunedCellAt(n, cells, enabled, c).Mux?
    requires p < p' <= |PrunedCellAt(n, cells, enabled, c).s|
    ensures FormerPort(n, cells, enabled, c, p) < FormerPort(n, cells, enabled, c, p')
  {
    assert SameShapeAt(n, cells, c) && CellOk(n, n.cells[c]);
  }

  lemma SelectsStay(n: Netlist, cells: seq<Cell>, enabled: set<(nat, nat)>, n': Netlist)
    requires WellFormed(n) && SameShape(n, cells) && n' == Pruned(n, cells, enabled) && WellFormed(n')
    requires PureKept(n, enabled) && FirmSelects(n) && DistinctSelects(n)
    ensures FirmSelects(n') && DistinctSelects(n')
  {
    hide WellFormed, SameShape, PrunedCellAt, Rep, DistinctSelects, FirmSelects, FirmSelect, PureKept, Pruned;
    forall c, i | 0 <= c < |n'.cells| && n'.cells[c].Mux? && 0 <= i < |n'.cells[c].s| ensures FirmSelect(n', c, i) {
      StillFirm(n, cells, enabled, n', c, i);
    }
    AllFirm(n');
    forall c, i, j | 0 <= c < |n'.cells| && n'.cells[c].Mux? && 0 <= i < j < |n'.cells[c].s|
      ensures CtrlSig(n', c, i) != CtrlSig(n', c, j)
    {
      SelectStays(n, cells, enabled, n', c, i);
      SelectStays(n, cells, enabled, n', c, j);
      FormerPortsDiffer(n, cells, enabled, c, i, j);
      var i', j' := FormerPort(n, cells, enabled, c, i), FormerPort(n, cells, enabled, c, j);
      DistinctAt(n, c, i', j');
    }
    AllDistinct(n');
  }

  lemma StillFirm(n: Netlist, cells: seq<Cell>, enabled: set<(nat, nat)>, n': Netlist, c: nat, i: nat)
    requires WellFormed(n) && SameShape(n, cells) && n' == Pruned(n, cells, enabled) && WellFormed(n')
    requires PureKept(n, enabled) && FirmSelects(n) && IsMux(n', c) && i < |n'.cells[c].s|
    ensures FirmSelect(n', c, i)
  {
    hide PrunedCellAt, Rep, PureKept, OpenSelects, FirmSelects;
    SelectStays(n, cells, enabled, n', c, i);
    var t := Ctrl(n', c, i);
    if t.Wire? && n'.drv[t.id].MuxOut? {
      assert DriverOk(n', t.id) && n'.drv[t.id] == PrunedAt(n, cells, enabled, t.id);
      var i', m := FormerPort(n, cells, enabled, c, i), n'.drv[t.id].cell;
      FirmAt(n, c, i');
      SelectsStayOpen(n, cells, enabled, n', m);
    }
  }

  lemma FirmAt(n: Netlist, c: nat, i: nat)
    requires WellFormed(n) && FirmSelects(n) && IsMux(n, c) && i < |n.cells[c].s|
    ensures FirmSelect(n, c, i)
  {
  }

  lemma SelectsStayOpen(n: Netlist, cells: seq<Cell>, enabled: set<(nat, nat)>, n': Netlist, m: nat)
    requires WellFormed(n) && SameShape(n, cells) && n' == Pruned(n, cells, enabled) && WellFormed(n')
    requires PureKept(n, enabled) && FirmSelects(n) && IsMux(n', m) && IsMux(n, m) && OpenSelects(n, m)
    ensures OpenSelects(n', m)
  {
    hide WellFormed, SameShape, PrunedCellAt, Rep, PureKept, FirmSelects, Ctrl, Pruned;
    forall i | 0 <= i < |n'.cells[m].s| ensures Ctrl(n', m, i).Wire? {
      SelectStays(n, cells, enabled, n', m, i);
    }
  }

  lemma SelectStays(n: Netlist, cells: seq<Cell>, enabled: set<(nat, nat)>, n': Netlist, c: nat, i: nat)
    requires WellFormed(n) && SameShape(n, cells) && n' == Pruned(n, cells, enabled) && WellFormed(n')
    requires PureKept(n, enabled) && FirmSelects(n)
    requires IsMux(n', c) && i < |n'.cells[c].s|
    ensures c < |cells| && n'.cells[c] == PrunedCellAt(n, cells, enabled, c)
    ensures Ctrl(n', c, i) == Ctrl(n, c, FormerPort(n, cells, enabled, c, i))
  {
    hide PrunedCellAt, Rep, PureKept, FirmSelects;
    var i' := FormerPort(n, cells, enabled, c, i);
    SelectRepKept(n, cells, enabled, n', c, i');
  }

  lemma AllFirm(n: Netlist)
    requires WellFormed(n)
    requires forall c, i :: 0 <= c < |n.cells| && n.cells[c].Mux? && 0 <= i < |n.cells[c].s| ==> FirmSelect(n, c, i)
    ensures FirmSelects(n)
  {
  }

  lemma DistinctAt(n: Netlist, c: nat, i: nat, j: nat)
    requires WellFormed(n) && DistinctSelects(n) && IsMux(n, c) && i < j < |n.cells[c].s|
    ensures CtrlSig(n, c, i) != CtrlSig(n, c, j)
  {
  }

  lemma AllDistinct(n: Netlist)
    requires WellFormed(n)
    requires forall c, i, j :: 0 <= c < |n.cells| && n.cells[c].Mux? && 0 <= i < j < |n.cells[c].s| ==>
                                 CtrlSig(n, c, i) != CtrlSig(n, c, j)
    ensures DistinctSelects(n)
  {
  }

  // ----------------------------------------------------------- chains upwards

  /** m feeds the first port of the chain, and the mux of each port but the last, which is taken out,
      feeds the next. */
  predicate IsChain(n: Netlist, gone: nat -> bool, m: nat, h: seq<(nat, nat)>)
    requires WellFormed(n)
  {
    && h != [] && Reads(n, h[0].0, h[0].1, m)
    && forall i :: 0 <= i < |h| - 1 ==> gone(h[i].0) && Reads(n, h[i + 1].0, h[i + 1].1, h[i].0)
  }

  /** m has a single reader. */
  ghost predicate ReadOnce(n: Netlist, m: nat)
    requires WellFormed(n)
  {
    forall c: nat, p: nat, c': nat, p': nat :: Reads(n, c, p, m) && Reads(n, c', p', m) ==> c == c' && p == p'
  }

  /** With one reader for m and for every mux taken out there is one chain from m to a mux that stays. */
  lemma {:induction false} ChainsAgree(n: Netlist, gone: nat -> bool, m: nat, h: seq<(nat, nat)>, h': seq<(nat, nat)>)
    requires WellFormed(n) && ReadOnce(n, m) && forall e: nat :: gone(e) ==> ReadOnce(n, e)
    requires IsChain(n, gone, m, h) && IsChain(n, gone, m, h')
    requires !gone(h[|h| - 1].0) && !gone(h'[|h'| - 1].0)
    ensures h[|h| - 1] == h'[|h'| - 1]
    decreases |h|
  {
    hide WellFormed, Reads;
    assert h[0].0 == h'[0].0 && h[0].1 == h'[0].1;
    if |h| > 1 && |h'| > 1 {
      ChainsAgree(n, gone, h[0].0, h[1..], h'[1..]);
    }
  }

  /** What drives a data bit of port p of mux c after a run is joined to that port by a chain before it. */
  lemma {:induction false} ReadsByChain(n: Netlist, cells: seq<Cell>, enabled: set<(nat, nat)>, n': Netlist,
                                        c: nat, p: nat, o: nat, m: nat)
    returns (h: seq<(nat, nat)>)
    requires WellFormed(n) && SameShape(n, cells) && n' == Pruned(n, cells, enabled) && WellFormed(n')
    requires IsMux(n, c) && cells[c].Mux? && p <= |n.cells[c].s| && p < |cells[c].d| && o < |cells[c].d[p]|
    requires InRange(n', cells[c].d[p][o]) && DrivenBy(n', cells[c].d[p][o], m)
    ensures IsChain(n, (e: nat) => Gone(n, cells, enabled, e), m, h) && h[|h| - 1] == (c, p)
    decreases if cells[c].d[p][o].Wire? then n.rank[cells[c].d[p][o].id] else 0
  {
    assert SameShapeAt(n, cells, c) && CellOk(n, n.cells[c]);
    var t := cells[c].d[p][o];
    RepPruned(n, cells, enabled, n', t);
    assert t.Wire? && t == n.cells[c].d[p][o];
    var b := Rep(n, t).id;
    assert DriverOk(n, b) && n'.drv[b] == PrunedAt(n, cells, enabled, b);
    var e := n.drv[b].cell;
    assert DrivenBy(n, t, e) && Feeds(n, e, c, p) && Reads(n, c, p, e);
    if !n'.drv[b].Alias? {
      h := [(c, p)];
    } else {
      assert SameShapeAt(n, cells, e) && CellOk(n, n.cells[e]);
      var live := LivePorts(enabled, e, |cells[e].d|);
      assert n'.drv[b].src == cells[e].d[live[0]][n.drv[b].off] && DriverOk(n', b);
      var h0 := ReadsByChain(n, cells, enabled, n', e, live[0], n.drv[b].off, m);
      h := h0 + [(c, p)];
      assert Gone(n, cells, enabled, e);
    }
  }

  /** A mux that is taken out has a single reader: one that may be shared keeps its ports. */
  lemma GoneIsReadOnce(n: Netlist, cells: seq<Cell>, enabled: set<(nat, nat)>, e: nat)
    requires WellFormed(n) && SameShape(n, cells) && OneReader(n) && PureKept(n, enabled) && Gone(n, cells, enabled, e)
    ensures ReadOnce(n, e)
  {
    hide WellFormed, Reads, OpenSelects, Anchored, PureRoots, Roots;
    if MayBeShared(n, e) {
      AnchoredIsPure(n, e);
      assert SameShapeAt(n, cells, e) && CellOk(n, n.cells[e]) by { ShapeAt(n, cells, e); }
      AllLive(enabled, e, |cells[e].d|);
    }
  }

  lemma ShapeAt(n: Netlist, cells: seq<Cell>, e: nat)
    requires WellFormed(n) && SameShape(n, cells) && e < |cells|
    ensures SameShapeAt(n, cells, e) && CellOk(n, n.cells[e])
  {
  }

  /** A mux that may be shared may be so after the run. */
  lemma StillShared(n: Netlist, cells: seq<Cell>, enabled: set<(nat, nat)>, n': Netlist, m: nat)
    requires WellFormed(n) && SameShape(n, cells) && n' == Pruned(n, cells, enabled) && WellFormed(n')
    requires PureKept(n, enabled) && FirmSelects(n) && MayBeShared(n, m)
    ensures MayBeShared(n', m)
  {
    hide OpenSelects, SeenForGood, PureKept, FirmSelects;
    var b :| 0 <= b < |n.drv| && n.drv[b].MuxOut? && n.drv[b].cell == m && SeenForGood(n, b);
    AnchoredIsPure(n, m);
    DriverKept(n, cells, enabled, n', b);
    StillSeen(n, cells, enabled, n', b);
    assert DriverOk(n', b) && b < |n'.drv|;
    SelectsStayOpen(n, cells, enabled, n', m);
  }

  lemma StillSeen(n: Netlist, cells: seq<Cell>, enabled: set<(nat, nat)>, n': Netlist, b: nat)
    requires WellFormed(n) && SameShape(n, cells) && n' == Pruned(n, cells, enabled) && WellFormed(n')
    requires b < |n.drv| && n'.drv[b] == n.drv[b] && SeenForGood(n, b)
    ensures SeenForGood(n', b)
  {
    hide PrunedCellAt, PrunedAt;
    if k :| k in n.keep && Rep(n, Wire(k)) == Wire(b) {
      RepPruned(n, cells, enabled, n', Wire(k));
      assert !n.drv[b].Alias? && Rep(n', Wire(b)) == Wire(b);
      assert k in n'.keep && Rep(n', Wire(k)) == Wire(b);
    } else {
      var x, i :| 0 <= x < |n.drv| && n.drv[x].Gate? && 0 <= i < |n.drv[x].ins| && GateInputIs(n, x, i, b);
      assert DriverOk(n, x);
      OtherDriver(n, cells, enabled, n', x);
      RepPruned(n, cells, enabled, n', n.drv[x].ins[i]);
      assert !n.drv[b].Alias? && Rep(n', Wire(b)) == Wire(b);
      assert GateInputIs(n', x, i, b);
    }
  }

  lemma OneReaderStays(n: Netlist, cells: seq<Cell>, enabled: set<(nat, nat)>, n': Netlist)
    requires WellFormed(n) && SameShape(n, cells) && n' == Pruned(n, cells, enabled) && WellFormed(n') && OneReader(n)
    requires PureKept(n, enabled) && FirmSelects(n)
    ensures OneReader(n')
  {
    hide WellFormed, SameShape, Reads, PrunedCellAt, Gone, PureKept, FirmSelects, Pruned, MayBeShared;
    var gone := (e: nat) => WellFormed(n) && SameShape(n, cells) && Gone(n, cells, enabled, e);
    forall e: nat | gone(e) ensures ReadOnce(n, e) {
      GoneIsReadOnce(n, cells, enabled, e);
    }
    forall m: nat, c: nat, p: nat, c': nat, p': nat | Reads(n', c, p, m) && Reads(n', c', p', m)
      ensures (c == c' && p == p') || MayBeShared(n', m)
    {
      if MayBeShared(n, m) {
        StillShared(n, cells, enabled, n', m);
      } else {
        var h := ChainOfReader(n, cells, enabled, n', c, p, m);
        var h' := ChainOfReader(n, cells, enabled, n', c', p', m);
        ChainsAgree(n, gone, m, h, h');
        if p < p' { FormerPortsDiffer(n, cells, enabled, c, p, p'); }
        if p' < p { FormerPortsDiffer(n, cells, enabled, c, p', p); }
      }
    }
    OneReaderIs(n');
  }

  lemma OneReaderIs(n: Netlist)
    requires WellFormed(n)
    requires forall m: nat, c: nat, p: nat, c': nat, p': nat ::
               Reads(n, c, p, m) && Reads(n, c', p', m) ==> (c == c' && p == p') || MayBeShared(n, m)
    ensures OneReader(n)
  {
  }

  lemma ChainOfReader(n: Netlist, cells: seq<Cell>, enabled: set<(nat, nat)>, n': Netlist, c: nat, p: nat, m: nat)
    returns (h: seq<(nat, nat)>)
    requires WellFormed(n) && SameShape(n, cells) && n' == Pruned(n, cells, enabled) && WellFormed(n')
        && Reads(n', c, p, m)
    ensures c < |cells| && PrunedCellAt(n, cells, enabled, c).Mux? && p <= |PrunedCellAt(n, cells, enabled, c).s|
    ensures IsChain(n, (e: nat) => WellFormed(n) && SameShape(n, cells) && Gone(n, cells, enabled, e), m, h)
    ensures h[|h| - 1] == (c, FormerPort(n, cells, enabled, c, p)) && !Gone(n, cells, enabled, c)
  {
    var cell := PrunedCellAt(n, cells, enabled, c);
    assert n'.cells[c] == cell && CellOk(n', cell) && SameShapeAt(n, cells, c);
    var q := FormerPort(n, cells, enabled, c, p);
    var o :| 0 <= o < |cell.d[p]| && DrivenBy(n', cell.d[p][o], m);
    h := ReadsByChain(n, cells, enabled, n', c, q, o, m);
  }

  // -------------------------------------------------------------- one run

  lemma PrunedStaysRepeatable(n: Netlist, cells: seq<Cell>, enabled: set<(nat, nat)>)
    requires WellFormed(n) && SameShape(n, cells) && Repeatable(n) && PureKept(n, enabled)
    ensures WellFormed(Pruned(n, cells, enabled)) && Repeatable(Pruned(n, cells, enabled))
  {
    hide WellFormed, SameShape, FirmSelects, DistinctSelects, OneReader, PureKept, Pruned;
    PrunedWellFormed(n, cells, enabled);
    SelectsStay(n, cells, enabled, Pruned(n, cells, enabled));
    OneReaderStays(n, cells, enabled, Pruned(n, cells, enabled));
  }

  lemma EnabledPure(n: Netlist, order: Order)
    requires WellFormed(n) && IsOrder(order)
    requires WalkRoots(n, order, Initial(n), 0).left > 0
    ensures PureKept(n, WalkRoots(n, order, Initial(n), 0).enabled)
  {
    hide WellFormed, WalkRoots, IsOrder, OpenSelects;
    var w := WalkRoots(n, order, Initial(n), 0);
    forall r | r in PureRoots(n) && IsMux(n, r) && OpenSelects(n, r) ensures AllEnabled(n, r, 0, w.enabled) {
      RootsKeepPorts(n, order, Initial(n), 0, r);
    }
  }

  /** A run keeps the design as it has to be for the next run. */
  lemma OptimisedStaysRepeatable(n: Netlist, order: Order)
    requires WellFormed(n) && IsOrder(order) && Repeatable(n)
    ensures WellFormed(Optimised(n, order)) && Repeatable(Optimised(n, order))
  {
    hide WellFormed, WalkRoots, IsOrder, FirmSelects, DistinctSelects, OneReader, SameShape, Pruned, PureKept;
    var w := WalkRoots(n, order, Initial(n), 0);
    if w.left == 0 {
      SameShapeWellFormed(n, w.cells, AllPorts(n));
      EverythingKept(n);
      PrunedStaysRepeatable(n, w.cells, AllPorts(n));
    } else {
      EnabledPure(n, order);
      PrunedStaysRepeatable(n, w.cells, w.enabled);
    }
  }

  lemma EverythingKept(n: Netlist)
    requires WellFormed(n)
    ensures PureKept(n, AllPorts(n))
  {
    forall r | r in PureRoots(n) && IsMux(n, r) ensures AllEnabled(n, r, 0, AllPorts(n)) {
      assert CellOk(n, n.cells[r]);
    }
  }
}
