/**
  Which ports a run of the mux-tree optimiser leaves: those that a chain of ports from a root leads to on which
  every mux is left through a port that the selects met above, and constants, allow.
 */
module MuxChains {
  import opened MuxNetlist
  import opened MuxKnowledge
  import opened MuxRules
  import opened MuxPruning
  import opened MuxWalk

  type Port = (nat, nat)

  predicate IsPort(n: Netlist, e: Port) {
    IsMux(n, e.0) && e.1 <= |n.cells[e.0].s|
  }

  predicate PortsIn(n: Netlist, h: seq<Port>) {
    forall i :: 0 <= i < |h| ==> IsPort(n, h[i])
  }

  /** Wire x is the select of a port entered above. */
  predicate TakenAbove(n: Netlist, above: seq<Port>, x: nat)
    requires WellFormed(n) && PortsIn(n, above)
  {
    exists i :: 0 <= i < |above| && above[i].1 < |n.cells[above[i].0].s|
                && Ctrl(n, above[i].0, above[i].1) == Wire(x)
  }

  /** Wire x is the select of another port of a mux entered above. */
  predicate LeftAbove(n: Netlist, above: seq<Port>, x: nat)
    requires WellFormed(n) && PortsIn(n, above)
  {
    exists i, q :: 0 <= i < |above| && 0 <= q < |n.cells[above[i].0].s| && q != above[i].1
                   && Ctrl(n, above[i].0, q) == Wire(x)
  }

  predicate SelectTaken(n: Netlist, above: seq<Port>, c: nat, q: nat)
    requires WellFormed(n) && PortsIn(n, above) && IsMux(n, c) && q < |n.cells[c].s|
  {
    Ctrl(n, c, q).Wire? && TakenAbove(n, above, Ctrl(n, c, q).id)
  }

  predicate SelectLeft(n: Netlist, above: seq<Port>, c: nat, q: nat)
    requires WellFormed(n) && PortsIn(n, above) && IsMux(n, c) && q < |n.cells[c].s|
  {
    Ctrl(n, c, q).Wire? && LeftAbove(n, above, Ctrl(n, c, q).id)
  }

  /** Port p of mux c may be taken below these ports: the first with constant 1 select; without one the first whose
      select is that of a port entered above; without that any whose select is neither 0 nor left above. */
  predicate MayTake(n: Netlist, above: seq<Port>, c: nat, p: nat)
    requires WellFormed(n) && PortsIn(n, above) && IsPort(n, (c, p))
  {
    var last := |n.cells[c].s|;
    if exists q :: 0 <= q < last && Ctrl(n, c, q) == Const(true) then
      p < last && Ctrl(n, c, p) == Const(true) && forall q :: 0 <= q < p ==> Ctrl(n, c, q) != Const(true)
    else if exists q :: 0 <= q < last && SelectTaken(n, above, c, q) then
      p < last && SelectTaken(n, above, c, p) && forall q :: 0 <= q < p ==> !SelectTaken(n, above, c, q)
    else
      p < last ==> Ctrl(n, c, p) != Const(false) && !SelectLeft(n, above, c, p)
  }

  predicate MayTakeAt(n: Netlist, h: seq<Port>, j: nat)
    requires WellFormed(n) && PortsIn(n, h) && j < |h|
  {
    MayTake(n, h[..j], h[j].0, h[j].1)
  }

  /** Ports from a root downwards, each mux feeding the port before. */
  ghost predicate Chain(n: Netlist, h: seq<Port>)
    requires WellFormed(n)
  {
    && h != [] && PortsIn(n, h) && h[0].0 in Roots(n)
    && (forall i :: 0 <= i < |h| - 1 ==> h[i + 1].0 in InputMuxes(n, h[i].0, h[i].1))
    && forall j :: 0 <= j < |h| ==> MayTakeAt(n, h, j)
  }

  function RootsOn(n: Netlist, h: seq<Port>): nat
    requires WellFormed(n)
  {
    if h == [] then 0 else RootsOn(n, h[..|h| - 1]) + if h[|h| - 1].0 in Roots(n) then 1 else 0
  }

  /** Pure roots, and the shared muxes that come fifth among the roots on a chain, are run on their own. */
  ghost predicate OwnRun(n: Netlist, r: nat)
    requires WellFormed(n)
  {
    r in PureRoots(n) || (r in Roots(n) && exists h: seq<Port> :: Chain(n, h) && LeadsTo(n, h, r) && RootsOn(n, h) == 4)
  }

  ghost predicate LeadsTo(n: Netlist, h: seq<Port>, c: nat)
    requires WellFormed(n)
  {
    h != [] && PortsIn(n, h) && c in InputMuxes(n, h[|h| - 1].0, h[|h| - 1].1)
  }

  /** A chain from a root that is run on its own leads to the port. */
  ghost predicate Reached(n: Netlist, e: Port)
    requires WellFormed(n)
  {
    exists h: seq<Port> :: Chain(n, h) && h[|h| - 1] == e && OwnRun(n, h[0].0)
  }

  ghost predicate Traced(n: Netlist, w: Work)
    requires WellFormed(n)
  {
    (forall e :: e in w.enabled ==> Reached(n, e)) && (forall r :: r in w.enabling ==> OwnRun(n, r))
  }

  // ------------------------------------------------------ what the walk knows

  /** The counters say which wires are selects of ports entered above, and of ports left. */
  ghost predicate KnowsPath(n: Netlist, k: Knowledge, h: seq<Port>)
    requires WellFormed(n) && PortsIn(n, h)
  {
    && Sized(n, k)
    && forall x :: 0 <= x < |n.drv| ==>
        (k.active[x] > 0 <==> TakenAbove(n, h, x)) && (k.inactive[x] > 0 <==> LeftAbove(n, h, x))
  }

  lemma KnowsNothing(n: Netlist, r: nat)
    requires WellFormed(n)
    ensures KnowsPath(n, Nothing(n, r), [])
  {
    hide WellFormed;
  }

  lemma TakenMore(n: Netlist, h: seq<Port>, e: Port, x: nat)
    requires WellFormed(n) && PortsIn(n, h) && IsPort(n, e)
    ensures PortsIn(n, h + [e])
    ensures TakenAbove(n, h + [e], x) <==> TakenAbove(n, h, x) || CtrlSig(n, e.0, e.1) == x
  {
    hide WellFormed, Ctrl;
    var h' := h + [e];
    assert forall i :: 0 <= i < |h| ==> h'[i] == h[i];
    if CtrlSig(n, e.0, e.1) == x { assert h'[|h|] == e; }
  }

  lemma LeftMore(n: Netlist, h: seq<Port>, e: Port, x: nat)
    requires WellFormed(n) && PortsIn(n, h) && IsPort(n, e)
    ensures PortsIn(n, h + [e])
    ensures LeftAbove(n, h + [e], x)
            <==> LeftAbove(n, h, x) || exists q :: 0 <= q < |n.cells[e.0].s| && q != e.1 && CtrlSig(n, e.0, q) == x
  {
    hide WellFormed, Ctrl;
    var h' := h + [e];
    assert forall i :: 0 <= i < |h| ==> h'[i] == h[i];
    if q :| 0 <= q < |n.cells[e.0].s| && q != e.1 && CtrlSig(n, e.0, q) == x {
      assert h'[|h|] == e && Ctrl(n, h'[|h|].0, q) == Wire(x);
    }
    if LeftAbove(n, h', x) {
      var i, q :| 0 <= i < |h'| && 0 <= q < |n.cells[h'[i].0].s| && q != h'[i].1 && Ctrl(n, h'[i].0, q) == Wire(x);
      if i < |h| { assert Ctrl(n, h[i].0, q) == Wire(x); } else { assert CtrlSig(n, e.0, q) == x; }
    }
    if LeftAbove(n, h, x) {
      var i, q :| 0 <= i < |h| && 0 <= q < |n.cells[h[i].0].s| && q != h[i].1 && Ctrl(n, h[i].0, q) == Wire(x);
      assert Ctrl(n, h'[i].0, q) == Wire(x);
    }
  }

  lemma CountedExactly(n: Netlist, c: nat, p: nat, x: nat)
    requires WellFormed(n) && IsPort(n, (c, p))
    ensures Count(n, c, p, |n.cells[c].s| + 1, x) > 0
            <==> exists q :: 0 <= q < |n.cells[c].s| && q != p && CtrlSig(n, c, q) == x
  {
    hide WellFormed, Count, Ctrl;
    if q :| 0 <= q < |n.cells[c].s| && q != p && CtrlSig(n, c, q) == x { CountedOther(n, c, p, q, x); }
    if Count(n, c, p, |n.cells[c].s| + 1, x) > 0 { var q := CountedMeansOtherPort(n, c, p, |n.cells[c].s| + 1, x); }
  }

  lemma KnowsMore(n: Netlist, k: Knowledge, h: seq<Port>, c: nat, p: nat)
    requires WellFormed(n) && PortsIn(n, h) && IsPort(n, (c, p)) && KnowsPath(n, k, h)
    ensures PortsIn(n, h + [(c, p)]) && KnowsPath(n, Extended(n, c, p, k), h + [(c, p)])
  {
    hide WellFormed, Count, CtrlSig, TakenAbove, LeftAbove, InputMuxes;
    TakenMore(n, h, (c, p), 0);
    var k', h' := Extended(n, c, p, k), h + [(c, p)];
    forall x | 0 <= x < |n.drv|
      ensures (k'.active[x] > 0 <==> TakenAbove(n, h', x)) && (k'.inactive[x] > 0 <==> LeftAbove(n, h', x))
    {
      TakenMore(n, h, (c, p), x);
      LeftMore(n, h, (c, p), x);
      CountedExactly(n, c, p, x);
    }
  }

  // ------------------------------------------------------------ the choices

  lemma ForcedMayTake(n: Netlist, h: seq<Port>, c: nat)
    requires WellFormed(n) && PortsIn(n, h) && IsMux(n, c) && FirstForced(n, c, 0) < |n.cells[c].s|
    ensures MayTake(n, h, c, FirstForced(n, c, 0))
  {
    hide WellFormed, Ctrl;
    var p := FirstForced(n, c, 0);
    assert Forced(n, c, p) && Ctrl(n, c, p) == Const(true);
    forall q | 0 <= q < p ensures Ctrl(n, c, q) != Const(true) {
      assert !Forced(n, c, q);
    }
  }

  lemma KnownIsTaken(n: Netlist, k: Knowledge, h: seq<Port>, c: nat, q: nat)
    requires WellFormed(n) && PortsIn(n, h) && KnowsPath(n, k, h) && IsMux(n, c) && q < |n.cells[c].s|
    ensures KnownActive(n, c, k, q) <==> SelectTaken(n, h, c, q)
    ensures RuledOut(n, c, k, q) <==> Ctrl(n, c, q) == Const(false) || SelectLeft(n, h, c, q)
  {
    hide WellFormed, TakenAbove, LeftAbove;
    assert Ctrl(n, c, q).Wire? ==> CtrlSig(n, c, q) == Ctrl(n, c, q).id;
  }

  lemma KnownMayTake(n: Netlist, k: Knowledge, h: seq<Port>, c: nat)
    requires WellFormed(n) && PortsIn(n, h) && KnowsPath(n, k, h) && IsMux(n, c)
    requires FirstForced(n, c, 0) == |n.cells[c].s| && FirstKnown(n, c, k, 0) < |n.cells[c].s|
    ensures MayTake(n, h, c, FirstKnown(n, c, k, 0))
  {
    assert Sized(n, k);
    var p := FirstKnown(n, c, k, 0);
    forall q | 0 <= q < |n.cells[c].s| ensures Ctrl(n, c, q) != Const(true) {
      assert !Forced(n, c, q);
    }
    assert KnownActive(n, c, k, p) && forall q :: 0 <= q < p ==> !KnownActive(n, c, k, q);
    hide WellFormed, Ctrl, KnownActive, SelectTaken, SelectLeft, RuledOut, KnowsPath;
    forall q | 0 <= q < |n.cells[c].s| ensures KnownActive(n, c, k, q) <==> SelectTaken(n, h, c, q) {
      KnownIsTaken(n, k, h, c, q);
    }
  }

  lemma OtherMayTake(n: Netlist, k: Knowledge, h: seq<Port>, c: nat, p: nat)
    requires WellFormed(n) && PortsIn(n, h) && KnowsPath(n, k, h) && IsPort(n, (c, p))
    requires FirstForced(n, c, 0) == |n.cells[c].s| == FirstKnown(n, c, k, 0) && !RuledOut(n, c, k, p)
    ensures MayTake(n, h, c, p)
  {
    assert Sized(n, k);
    forall q | 0 <= q < |n.cells[c].s| ensures Ctrl(n, c, q) != Const(true) {
      assert !Forced(n, c, q);
    }
    assert forall q :: 0 <= q < |n.cells[c].s| ==> !KnownActive(n, c, k, q);
    hide WellFormed, Ctrl, KnownActive, SelectTaken, SelectLeft, RuledOut, KnowsPath;
    forall q | 0 <= q < |n.cells[c].s|
      ensures KnownActive(n, c, k, q) <==> SelectTaken(n, h, c, q)
      ensures RuledOut(n, c, k, q) <==> Ctrl(n, c, q) == Const(false) || SelectLeft(n, h, c, q)
    {
      KnownIsTaken(n, k, h, c, q);
    }
  }

  // --------------------------------------------------------------- the walk

  /** Mux c is entered below these ports, none for a root that is run; the mode counts the roots entered. */
  ghost predicate Entered(n: Netlist, h: seq<Port>, k: Knowledge, c: nat, m: Mode)
    requires WellFormed(n)
  {
    && PortsIn(n, h) && KnowsPath(n, k, h) && IsMux(n, c)
    && (if h == [] then c in Roots(n) else Chain(n, h) && LeadsTo(n, h, c))
    && RootsOn(n, h) + (if c in Roots(n) then 1 else 0) + m.depth == 4
    && (m.enable ==> OwnRun(n, if h == [] then c else h[0].0))
  }

  /** The ports h have been entered, and the muxes behind the last are next. */
  ghost predicate Behind(n: Netlist, h: seq<Port>, k: Knowledge, m: Mode)
    requires WellFormed(n)
  {
    Chain(n, h) && KnowsPath(n, k, h) && RootsOn(n, h) + m.depth == 4 && (m.enable ==> OwnRun(n, h[0].0))
  }

  lemma ChainGrows(n: Netlist, h: seq<Port>, k: Knowledge, c: nat, p: nat, m: Mode)
    requires WellFormed(n) && Entered(n, h, k, c, m) && IsPort(n, (c, p)) && MayTake(n, h, c, p)
    ensures Behind(n, h + [(c, p)], Extended(n, c, p, k), m)
  {
    hide WellFormed, MayTake, Roots, InputMuxes, OwnRun, KnowsPath;
    var h' := h + [(c, p)];
    KnowsMore(n, k, h, c, p);
    assert h'[..|h|] == h && h'[|h|] == (c, p);
    forall j | 0 <= j < |h'| ensures MayTakeAt(n, h', j) {
      if j < |h| {
        assert h'[..j] == h[..j] && h'[j] == h[j] && MayTakeAt(n, h, j);
      }
    }
    forall i | 0 <= i < |h'| - 1 ensures h'[i + 1].0 in InputMuxes(n, h'[i].0, h'[i].1) {
      assert h'[i] == h[i];
      if i < |h| - 1 { assert h'[i + 1] == h[i + 1]; }
    }
  }

  lemma PortReached(n: Netlist, h: seq<Port>)
    requires WellFormed(n) && Chain(n, h) && OwnRun(n, h[0].0)
    ensures Reached(n, h[|h| - 1])
  {
  }

  lemma {:induction false} TracedMux(n: Netlist, order: Order, w: Work, k: Knowledge, c: nat, m: Mode, h: seq<Port>)
    requires WellFormed(n) && IsOrder(order) && SameShape(n, w.cells) && Sized(n, k) && IsMux(n, c)
    requires Traced(n, w) && Entered(n, h, k, c, m)
    ensures Traced(n, WalkMux(n, order, w, k, c, m))
    decreases UpTo(|n.cells|) - k.visited, 3
  {
    hide WellFormed, SameShape, IsOrder, WalkPorts, Rewritten, Entered, Reached, OwnRun;
    if w.left > 0 {
      var cells := if m.replace then Rewritten(n, c, k, w.cells) else w.cells;
      TracedPorts(n, order, Work(w.enabling, w.rerun, w.enabled, cells, w.left - 1), k, c, m, h);
    }
  }

  lemma {:induction false} TracedPorts(n: Netlist, order: Order, w: Work, k: Knowledge, c: nat, m: Mode, h: seq<Port>)
    requires WellFormed(n) && IsOrder(order) && SameShape(n, w.cells) && Sized(n, k) && IsMux(n, c)
    requires Traced(n, w) && Entered(n, h, k, c, m)
    ensures Traced(n, WalkPorts(n, order, w, k, c, m))
    decreases UpTo(|n.cells|) - k.visited, 2
  {
    assert PortsIn(n, h) && KnowsPath(n, k, h);
    hide WellFormed, SameShape, IsOrder, WalkPort, WalkPortsFrom, Entered, Traced, MayTake, KnowsPath, PortsIn;
    var last := |n.cells[c].s|;
    if FirstForced(n, c, 0) < last {
      ForcedMayTake(n, h, c);
      TracedPort(n, order, w, k, c, FirstForced(n, c, 0), m, h);
    } else if FirstKnown(n, c, k, 0) < last {
      KnownMayTake(n, k, h, c);
      TracedPort(n, order, w, k, c, FirstKnown(n, c, k, 0), m, h);
    } else {
      TracedPortsFrom(n, order, w, k, c, 0, m, h);
    }
  }

  lemma EnteredKnows(n: Netlist, h: seq<Port>, k: Knowledge, c: nat, m: Mode)
    requires WellFormed(n) && Entered(n, h, k, c, m)
    ensures PortsIn(n, h) && KnowsPath(n, k, h)
  {
  }

  lemma RuledOutStep(n: Netlist, order: Order, w: Work, k: Knowledge, c: nat, p: nat, m: Mode)
    requires WellFormed(n) && IsOrder(order) && SameShape(n, w.cells) && Sized(n, k) && IsMux(n, c)
    requires p <= |n.cells[c].s| && RuledOut(n, c, k, p)
    ensures WalkPortsFrom(n, order, w, k, c, p, m) == WalkPortsFrom(n, order, w, k, c, p + 1, m)
  {
    hide WellFormed, SameShape, IsOrder, WalkPort, RuledOut;
  }

  lemma OtherStep(n: Netlist, order: Order, w: Work, k: Knowledge, c: nat, p: nat, m: Mode, w1: Work)
    requires WellFormed(n) && IsOrder(order) && SameShape(n, w.cells) && Sized(n, k) && IsMux(n, c)
    requires p <= |n.cells[c].s| && !RuledOut(n, c, k, p) && w1 == WalkPort(n, order, w, k, c, p, m)
    ensures SameShape(n, w1.cells)
    ensures WalkPortsFrom(n, order, w, k, c, p, m) == if w1.left == 0 then w1
        else WalkPortsFrom(n, order, w1, k, c, p + 1, m)
  {
    hide WellFormed, SameShape, IsOrder, WalkPort, RuledOut;
  }

  lemma {:induction false} TracedPortsFrom(n: Netlist, order: Order, w: Work, k: Knowledge, c: nat, p: nat, m: Mode,
                                           h: seq<Port>)
    requires WellFormed(n) && IsOrder(order) && SameShape(n, w.cells) && Sized(n, k) && IsMux(n, c)
    requires p <= |n.cells[c].s| + 1 && Traced(n, w) && Entered(n, h, k, c, m)
    requires FirstForced(n, c, 0) == |n.cells[c].s| == FirstKnown(n, c, k, 0)
    ensures Traced(n, WalkPortsFrom(n, order, w, k, c, p, m))
    decreases UpTo(|n.cells|) - k.visited, 1, |n.cells[c].s| + 1 - p
  {
    if p == |n.cells[c].s| + 1 { return; }
    hide WellFormed, SameShape, IsOrder, WalkPort, WalkPortsFrom, Entered, Traced, FirstForced, FirstKnown, RuledOut,
         Sized, Later, Roots, UpTo;
    if RuledOut(n, c, k, p) {
      RuledOutStep(n, order, w, k, c, p, m);
      TracedPortsFrom(n, order, w, k, c, p + 1, m, h);
    } else {
      TracedOther(n, order, w, k, c, p, m, h);
      var w1 := WalkPort(n, order, w, k, c, p, m);
      OtherStep(n, order, w, k, c, p, m, w1);
      if w1.left > 0 { TracedPortsFrom(n, order, w1, k, c, p + 1, m, h); }
    }
  }

  lemma {:induction false} TracedOther(n: Netlist, order: Order, w: Work, k: Knowledge, c: nat, p: nat, m: Mode,
                                       h: seq<Port>)
    requires WellFormed(n) && IsOrder(order) && SameShape(n, w.cells) && Sized(n, k) && IsMux(n, c)
    requires p <= |n.cells[c].s| && Traced(n, w) && Entered(n, h, k, c, m)
    requires FirstForced(n, c, 0) == |n.cells[c].s| == FirstKnown(n, c, k, 0) && !RuledOut(n, c, k, p)
    ensures Traced(n, WalkPort(n, order, w, k, c, p, m))
    decreases UpTo(|n.cells|) - k.visited, 0, 1
  {
    EnteredKnows(n, h, k, c, m);
    OtherMayTake(n, k, h, c, p);
    hide WellFormed, SameShape, IsOrder, WalkPort, Entered, Traced, MayTake, KnowsPath, FirstForced, FirstKnown,
        RuledOut;
    TracedPort(n, order, w, k, c, p, m, h);
  }

  lemma {:induction false} TracedPort(n: Netlist, order: Order, w: Work, k: Knowledge, c: nat, p: nat, m: Mode,
                                      h: seq<Port>)
    requires WellFormed(n) && IsOrder(order) && SameShape(n, w.cells) && Sized(n, k) && IsMux(n, c)
    requires p <= |n.cells[c].s| && Traced(n, w) && Entered(n, h, k, c, m) && PortsIn(n, h) && MayTake(n, h, c, p)
    ensures Traced(n, WalkPort(n, order, w, k, c, p, m))
    decreases UpTo(|n.cells|) - k.visited, 0, 0
  {
    hide WellFormed, SameShape, IsOrder, WalkParents, Entered, Reached, OwnRun, MayTake, Extended, InputMuxes,
         KnowsPath, Chain;
    if w.left > 0 {
      var h', k' := h + [(c, p)], Extended(n, c, p, k);
      ChainGrows(n, h, k, c, p, m);
      if m.enable { PortReached(n, h'); }
      var w1 := Work(w.enabling, w.rerun, if m.enable then w.enabled + {(c, p)} else w.enabled, w.cells, w.left);
      assert Traced(n, w1);
      var parents := InputMuxes(n, c, p) - k.visited;
      if parents != {} {
        ParentsAreMuxes(n, c, p);
        FewerAhead(n, c, p, k);
        TracedParents(n, order, w1, k', parents, m, h');
      }
    }
  }

  lemma FewerAhead(n: Netlist, c: nat, p: nat, k: Knowledge)
    requires WellFormed(n) && IsMux(n, c) && p <= |n.cells[c].s| && Sized(n, k)
    requires InputMuxes(n, c, p) - k.visited != {}
    ensures UpTo(|n.cells|) - Extended(n, c, p, k).visited < UpTo(|n.cells|) - k.visited
  {
    hide WellFormed, Count;
    var e :| e in InputMuxes(n, c, p) - k.visited;
    InputsAreMuxes(n, e, c, p);
    assert e in UpTo(|n.cells|) - k.visited && e !in UpTo(|n.cells|) - Extended(n, c, p, k).visited;
  }

  lemma {:induction false} TracedParents(n: Netlist, order: Order, w: Work, k: Knowledge, todo: set<nat>, m: Mode,
                                         h: seq<Port>)
    requires WellFormed(n) && IsOrder(order) && SameShape(n, w.cells) && Sized(n, k)
    requires forall e :: e in todo ==> IsMux(n, e) && LeadsTo(n, h, e)
    requires Traced(n, w) && Behind(n, h, k, m)
    ensures Traced(n, WalkParents(n, order, w, k, todo, m))
    decreases UpTo(|n.cells|) - k.visited, 5, todo
  {
    hide WellFormed, SameShape, WalkParent, Behind, LeadsTo, Traced;
    if todo != {} {
      var e := order(w.left, todo);
      TracedParent(n, order, w, k, e, m, h);
      var w1 := WalkParent(n, order, w, k, e, m);
      if w1.left > 0 { TracedParents(n, order, w1, k, todo - {e}, m, h); }
    }
  }

  lemma {:induction false} TracedParent(n: Netlist, order: Order, w: Work, k: Knowledge, e: nat, m: Mode, h: seq<Port>)
    requires WellFormed(n) && IsOrder(order) && SameShape(n, w.cells) && Sized(n, k) && IsMux(n, e) && LeadsTo(n, h, e)
    requires Traced(n, w) && Behind(n, h, k, m)
    ensures Traced(n, WalkParent(n, order, w, k, e, m))
    decreases UpTo(|n.cells|) - k.visited, 4
  {
    hide WellFormed, SameShape, IsOrder, WalkMux, KnowsPath, Chain, LeadsTo, Reached, Roots, PureRoots;
    if e in w.enabling {
    } else if e !in Roots(n) {
      assert Entered(n, h, k, e, m) by { BehindIsEntered(n, h, k, e, m, m); }
      TracedMux(n, order, w, k, e, m, h);
    } else if m.depth == 0 {
      assert OwnRun(n, e) by { assert Chain(n, h) && LeadsTo(n, h, e) && RootsOn(n, h) == 4; }
    } else {
      var m' := Mode(false, m.enable, m.depth - 1);
      assert Entered(n, h, k, e, m') by { BehindIsEntered(n, h, k, e, m, m'); }
      TracedMux(n, order, w, k, e, m', h);
    }
  }

  lemma BehindIsEntered(n: Netlist, h: seq<Port>, k: Knowledge, e: nat, m: Mode, m': Mode)
    requires WellFormed(n) && Behind(n, h, k, m) && LeadsTo(n, h, e) && IsMux(n, e) && m'.enable == m.enable
    requires m.depth == m'.depth + if e in Roots(n) then 1 else 0
    ensures Entered(n, h, k, e, m')
  {
    hide WellFormed, Roots, OwnRun, MayTakeAt, InputMuxes;
  }

  lemma TracedRoot(n: Netlist, order: Order, w: Work, r: nat)
    requires WellFormed(n) && IsOrder(order) && SameShape(n, w.cells) && r in Roots(n) && Traced(n, w)
    ensures Traced(n, WalkRoot(n, order, w, r))
  {
    hide WellFormed, SameShape, IsOrder, WalkMux, Reached, OwnRun, Roots, KnowsPath;
    RootsAreMuxes(n, r);
    KnowsNothing(n, r);
    var w1 := Work(w.enabling, w.rerun - {r}, w.enabled, w.cells, w.left);
    TracedMux(n, order, w1, Nothing(n, r), r, Mode(true, r in w.enabling, 3), []);
  }

  lemma {:induction false} TracedRoots(n: Netlist, order: Order, w: Work, r: nat)
    requires WellFormed(n) && IsOrder(order) && SameShape(n, w.cells) && r <= |n.cells| && w.left > 0
    requires w.rerun <= Roots(n) && Traced(n, w)
    ensures Traced(n, WalkRoots(n, order, w, r))
    decreases |n.cells| - r
  {
    hide WellFormed, SameShape, IsOrder, WalkRoots, WalkRoot, WalkRerun, Roots, Traced;
    if r == |n.cells| {
      RootsEnd(n, order, w);
      TracedRerun(n, order, w);
    } else if r !in Roots(n) {
      NoRootHere(n, order, w, r);
      TracedRoots(n, order, w, r + 1);
    } else {
      var w1 := WalkRoot(n, order, w, r);
      RootsStep(n, order, w, r, w1);
      TracedRoot(n, order, w, r);
      if w1.left > 0 { TracedRoots(n, order, w1, r + 1); }
    }
  }

  lemma {:induction false} TracedRerun(n: Netlist, order: Order, w: Work)
    requires WellFormed(n) && IsOrder(order) && SameShape(n, w.cells) && w.left > 0 && w.rerun <= Roots(n)
        && Traced(n, w)
    ensures Traced(n, WalkRerun(n, order, w))
    decreases w.left
  {
    hide WellFormed, SameShape, WalkRerun, WalkRoot, Roots, Traced;
    if w.rerun == {} {
      RerunEnd(n, order, w);
    } else {
      var r := order(w.left, w.rerun);
      var w1 := WalkRoot(n, order, w, r);
      RerunStep(n, order, w, r, w1);
      TracedRoot(n, order, w, r);
      if w1.left > 0 { TracedRerun(n, order, w1); }
    }
  }

  /** Whatever is enabled after all roots is reached by a chain. */
  lemma EnabledIsReached(n: Netlist, order: Order)
    requires WellFormed(n) && IsOrder(order)
    ensures forall e :: e in WalkRoots(n, order, Initial(n), 0).enabled ==> Reached(n, e)
  {
    hide WellFormed, IsOrder, WalkRoots, Reached;
    var w := Initial(n);
    assert forall r :: r in w.enabling ==> OwnRun(n, r);
    TracedRoots(n, order, w, 0);
  }

  // ------------------------------------------------------------- what is left

  /** The data of a port are those of port p of mux c before, up to bits that have become constant. */
  predicate FromPort(n: Netlist, c: nat, p: nat, bits: seq<Sig>)
    requires WellFormed(n) && IsPort(n, (c, p))
  {
    assert CellOk(n, n.cells[c]);
    |bits| == |n.cells[c].d[p]| && forall o :: 0 <= o < |bits| ==> bits[o] == n.cells[c].d[p][o] || bits[o].Const?
  }

  /** Mux c is left with these ports of its own, in order, the last one as default; all are reached. */
  ghost predicate LeftWith(n: Netlist, c: nat, cell: Cell, ports: seq<nat>)
    requires WellFormed(n) && IsMux(n, c)
  {
    assert CellOk(n, n.cells[c]);
    && cell.Mux? && |ports| == |cell.d| == |cell.s| + 1 && (|ports| > 1 || |n.cells[c].d| == 1)
    && (forall i, j :: 0 <= i < j < |ports| ==> ports[i] < ports[j])
    && (forall i :: 0 <= i < |ports| ==>
          ports[i] <= |n.cells[c].s| && Reached(n, (c, ports[i])) && FromPort(n, c, ports[i], cell.d[i]))
    && (forall i :: 0 <= i < |cell.s| ==> ports[i] < |n.cells[c].s| && cell.s[i] == n.cells[c].s[ports[i]])
  }

  /** A bit of a mux that is gone is connected to a port that is reached, or undriven if none is. */
  ghost predicate ConnectedTo(n: Netlist, c: nat, off: nat, d: Driver)
    requires WellFormed(n) && IsMux(n, c) && off < |n.cells[c].d[0]|
  {
    assert CellOk(n, n.cells[c]);
    d.Free? || (d.Alias? && exists p :: 0 <= p <= |n.cells[c].s| && Reached(n, (c, p))
                                      && (d.src == n.cells[c].d[p][off] || d.src.Const?))
  }

  /** The netlist n' has of every mux of n only ports that are reached. */
  ghost predicate OnlyReached(n: Netlist, n': Netlist)
    requires WellFormed(n)
  {
    && |n'.cells| == |n.cells| && |n'.drv| == |n.drv|
    && (forall c :: 0 <= c < |n.cells| && n'.cells[c].Mux? ==>
          n.cells[c].Mux? && exists ports :: LeftWith(n, c, n'.cells[c], ports))
    && (forall b :: 0 <= b < |n.drv| && n.drv[b].MuxOut? && n'.drv[b] != n.drv[b] ==>
          DriverOk(n, b) && ConnectedTo(n, n.drv[b].cell, n.drv[b].off, n'.drv[b]))
  }

  lemma PrunedCellIsLeft(n: Netlist, cells: seq<Cell>, enabled: set<(nat, nat)>, c: nat) returns (ports: seq<nat>)
    requires WellFormed(n) && SameShape(n, cells) && c < |cells| && PrunedCellAt(n, cells, enabled, c).Mux?
    requires forall e :: e in enabled ==> Reached(n, e)
    ensures IsMux(n, c) && LeftWith(n, c, PrunedCellAt(n, cells, enabled, c), ports)
  {
    hide Reached, DriverOk;
    assert SameShapeAt(n, cells, c) && CellOk(n, n.cells[c]);
    ports := LivePorts(enabled, c, |cells[c].d|);
    var cell := PrunedCellAt(n, cells, enabled, c);
    if |ports| == |cells[c].d| {
      AllInOrder(ports, |ports|);
    } else {
      assert forall i :: 0 <= i < |ports| - 1 ==> ports[i] < ports[|ports| - 1];
    }
    forall i | 0 <= i < |ports| ensures Reached(n, (c, ports[i])) && FromPort(n, c, ports[i], cell.d[i]) {
      assert (c, ports[i]) in enabled;
    }
  }

  /** n increasing numbers below n are all of them. */
  lemma {:induction false} AllInOrder(ports: seq<nat>, k: nat)
    requires k <= |ports| && (forall i :: 0 <= i < |ports| ==> ports[i] < |ports|)
    requires forall i, j :: 0 <= i < j < |ports| ==> ports[i] < ports[j]
    ensures forall i :: 0 <= i < |ports| ==> ports[i] == i
  {
    AtLeastPlace(ports, |ports|);
    AtMostPlace(ports, 0);
  }

  lemma {:induction false} AtLeastPlace(ports: seq<nat>, k: nat)
    requires k <= |ports| && forall i, j :: 0 <= i < j < |ports| ==> ports[i] < ports[j]
    ensures forall i :: 0 <= i < k ==> ports[i] >= i
  {
    if k > 0 {
      AtLeastPlace(ports, k - 1);
      assert k > 1 ==> ports[k - 2] < ports[k - 1];
    }
  }

  lemma {:induction false} AtMostPlace(ports: seq<nat>, k: nat)
    requires k <= |ports| && (forall i :: 0 <= i < |ports| ==> ports[i] < |ports|)
    requires forall i, j :: 0 <= i < j < |ports| ==> ports[i] < ports[j]
    ensures forall i :: k <= i < |ports| ==> ports[i] <= i
    decreases |ports| - k
  {
    if k < |ports| {
      AtMostPlace(ports, k + 1);
      assert k + 1 < |ports| ==> ports[k] < ports[k + 1];
    }
  }

  lemma PrunedBitIsConnected(n: Netlist, cells: seq<Cell>, enabled: set<(nat, nat)>, b: nat)
    requires WellFormed(n) && SameShape(n, cells) && b < |n.drv| && n.drv[b].MuxOut?
    requires PrunedAt(n, cells, enabled, b) != n.drv[b] && forall e :: e in enabled ==> Reached(n, e)
    ensures DriverOk(n, b) && ConnectedTo(n, n.drv[b].cell, n.drv[b].off, PrunedAt(n, cells, enabled, b))
  {
    hide Reached;
    assert DriverOk(n, b);
    var c, off := n.drv[b].cell, n.drv[b].off;
    assert SameShapeAt(n, cells, c) && CellOk(n, n.cells[c]);
    var live := LivePorts(enabled, c, |cells[c].d|);
    if |live| == 1 { assert (c, live[0]) in enabled; }
  }

  lemma PrunedToReached(n: Netlist, cells: seq<Cell>, enabled: set<(nat, nat)>)
    requires WellFormed(n) && SameShape(n, cells) && forall e :: e in enabled ==> Reached(n, e)
    ensures OnlyReached(n, Pruned(n, cells, enabled))
  {
    hide PrunedCellAt, PrunedAt, Reached, LeftWith, ConnectedTo, SameShapeAt;
    var n' := Pruned(n, cells, enabled);
    forall c | 0 <= c < |n.cells| && n'.cells[c].Mux?
      ensures n.cells[c].Mux? && exists ports :: LeftWith(n, c, n'.cells[c], ports)
    {
      var ports := PrunedCellIsLeft(n, cells, enabled, c);
    }
    forall b | 0 <= b < |n.drv| && n.drv[b].MuxOut? && n'.drv[b] != n.drv[b]
      ensures DriverOk(n, b) && ConnectedTo(n, n.drv[b].cell, n.drv[b].off, n'.drv[b])
    {
      PrunedBitIsConnected(n, cells, enabled, b);
    }
  }

  /** A run that is not given up leaves only ports that chains lead to. */
  lemma OptimisedIsReached(n: Netlist, order: Order)
    requires WellFormed(n) && IsOrder(order) && WalkRoots(n, order, Initial(n), 0).left > 0
    ensures OnlyReached(n, Optimised(n, order))
  {
    hide WellFormed, IsOrder, WalkRoots, Reached, OnlyReached, SameShape, Pruned;
    var w := WalkRoots(n, order, Initial(n), 0);
    EnabledIsReached(n, order);
    PrunedToReached(n, w.cells, w.enabled);
  }

  // ------------------------------------------------------- designs without sharing

  /** No mux has two users. */
  predicate NoSharing(n: Netlist)
    requires WellFormed(n)
  {
    forall m: nat :: m < |n.cells| ==> |Users(n, m)| <= 1
  }

  /** No select is constant. */
  predicate NoConstants(n: Netlist)
    requires WellFormed(n)
  {
    forall c, q :: 0 <= c < |n.cells| && n.cells[c].Mux? && 0 <= q < |n.cells[c].s| ==> Ctrl(n, c, q).Wire?
  }

  /** Without sharing every chain starts at a pure root. */
  lemma ReachedFromPureRoot(n: Netlist, e: Port) returns (h: seq<Port>)
    requires WellFormed(n) && NoSharing(n) && Reached(n, e)
    ensures Chain(n, h) && h[|h| - 1] == e && h[0].0 in PureRoots(n)
  {
    hide WellFormed, Users, PureRoots, InputMuxes, MayTakeAt;
    h :| Chain(n, h) && h[|h| - 1] == e && OwnRun(n, h[0].0);
    assert h[0].0 in Roots(n);
  }

  /** Where a select of a mux is that of a port entered above, the port taken is one of these; where there is only
      one, that one. */
  lemma TakenIsFollowed(n: Netlist, h: seq<Port>, j: nat, q: nat)
    requires WellFormed(n) && NoConstants(n) && Chain(n, h) && j < |h| && q < |n.cells[h[j].0].s|
    requires SelectTaken(n, h[..j], h[j].0, q)
    ensures h[j].1 <= q && h[j].1 < |n.cells[h[j].0].s| && SelectTaken(n, h[..j], h[j].0, h[j].1)
  {
    hide WellFormed, Ctrl, TakenAbove, LeftAbove, InputMuxes, Roots;
    assert MayTakeAt(n, h, j) && IsPort(n, h[j]);
    assert forall x :: 0 <= x < |n.cells[h[j].0].s| ==> Ctrl(n, h[j].0, x).Wire?;
  }

  /** The muxes of the chain have at most one select each that is that of a port entered above. */
  predicate TakenOnce(n: Netlist, h: seq<Port>)
    requires WellFormed(n) && PortsIn(n, h)
  {
    forall j, q, q' | 0 <= j < |h| && 0 <= q < |n.cells[h[j].0].s| && 0 <= q' < |n.cells[h[j].0].s|
                      && SelectTaken(n, h[..j], h[j].0, q) && SelectTaken(n, h[..j], h[j].0, q')
      :: q == q'
  }

  /** Then no port of the chain has the select of another port of a mux entered above it. */
  lemma {:induction false} NeverLeft(n: Netlist, h: seq<Port>, i: nat, j: nat, q: nat)
    requires WellFormed(n) && NoConstants(n) && DistinctSelects(n) && Chain(n, h) && TakenOnce(n, h)
    requires i < j < |h| && h[j].1 < |n.cells[h[j].0].s| && q < |n.cells[h[i].0].s| && q != h[i].1
    ensures Ctrl(n, h[j].0, h[j].1) != Ctrl(n, h[i].0, q)
    decreases j
  {
    hide WellFormed, Ctrl, InputMuxes, Roots, DistinctSelects;
    assert IsPort(n, h[i]) && IsPort(n, h[j]) && MayTakeAt(n, h, j);
    if Ctrl(n, h[j].0, h[j].1) == Ctrl(n, h[i].0, q) {
      var x := Ctrl(n, h[i].0, q).id;
      assert Ctrl(n, h[i].0, q) == Wire(x);
      assert h[..j][i] == h[i] && LeftAbove(n, h[..j], x);
      assert SelectTaken(n, h[..j], h[j].0, h[j].1);
      var k :| 0 <= k < j && h[..j][k].1 < |n.cells[h[..j][k].0].s| && Ctrl(n, h[..j][k].0, h[..j][k].1) == Wire(x);
      assert h[..j][k] == h[k];
      if k < i {
        assert h[..i][k] == h[k] && SelectTaken(n, h[..i], h[i].0, q);
        TakenIsFollowed(n, h, i, q);
      } else if k > i {
        NeverLeft(n, h, i, k, q);
      } else {
        assert CtrlSig(n, h[i].0, q) == x == CtrlSig(n, h[i].0, h[i].1);
        OneSelectEach(n, h[i].0, q, h[i].1);
      }
    }
  }

  lemma OneSelectEach(n: Netlist, c: nat, p: nat, q: nat)
    requires WellFormed(n) && DistinctSelects(n) && IsMux(n, c) && p < |n.cells[c].s| && q < |n.cells[c].s| && p != q
    ensures CtrlSig(n, c, p) != CtrlSig(n, c, q)
  {
  }
}
