/**
  The walk of the mux-tree optimiser as functions: knowledge is handed down instead of counted up and
  down in place. What a run makes of a module is a function of the order in which pools are iterated.
 */
module MuxWalk {
  import opened MuxNetlist
  import opened MuxKnowledge
  import opened MuxPruning

  /** The next element taken from a pool, given the iterations left. */
  type Order = (nat, set<nat>) -> nat

  ghost predicate IsOrder(order: Order) {
    forall left: nat, pool: set<nat> {:trigger order(left, pool)} :: pool != {} ==> order(left, pool) in pool
  }

  /** What the walk changes. */
  datatype Work = Work(enabling: set<nat>, rerun: set<nat>, enabled: set<(nat, nat)>, cells: seq<Cell>, left: nat)

  /** What becomes of an earlier state. */
  predicate Later(n: Netlist, w: Work, r: Work)
    requires WellFormed(n)
  {
    && SameShape(n, r.cells)
    && w.enabling <= r.enabling && w.enabled <= r.enabled && r.left <= w.left
    && (w.rerun <= Roots(n) ==> r.rerun <= Roots(n))
  }

  /** Switches: replace known bits, enable ports; and how many roots may still be entered. */
  datatype Mode = Mode(replace: bool, enable: bool, depth: nat)

  predicate IsMux(n: Netlist, c: nat) {
    c < |n.cells| && n.cells[c].Mux?
  }

  // ------------------------------------------------------------- rewriting

  function ReplacedPort(n: Netlist, c: nat, p: nat, k: Knowledge, ts: seq<Sig>): (r: seq<Sig>)
    requires WellFormed(n) && IsMux(n, c) && p <= |n.cells[c].s| && Sized(n, k)
    requires forall o :: 0 <= o < |ts| ==> InRange(n, ts[o])
    ensures |r| == |ts|
  {
    seq(|ts|, o requires 0 <= o < |ts| => Replaced(n, c, p, k, ts[o]))
  }

  lemma BitsInRange(n: Netlist, cells: seq<Cell>, c: nat)
    requires WellFormed(n) && SameShape(n, cells) && IsMux(n, c)
    ensures cells[c].Mux? && |cells[c].d| == |n.cells[c].s| + 1
    ensures forall p, o :: 0 <= p < |cells[c].d| && 0 <= o < |cells[c].d[p]| ==> InRange(n, cells[c].d[p][o])
  {
    assert SameShapeAt(n, cells, c) && CellOk(n, n.cells[c]);
  }

  /** Mux c with its known data bits replaced. */
  function Rewritten(n: Netlist, c: nat, k: Knowledge, cells: seq<Cell>): (r: seq<Cell>)
    requires WellFormed(n) && IsMux(n, c) && Sized(n, k) && SameShape(n, cells)
    ensures SameShape(n, r)
  {
    BitsInRange(n, cells, c);
    var d := seq(|cells[c].d|, p requires 0 <= p < |cells[c].d| => ReplacedPort(n, c, p, k, cells[c].d[p]));
    RewrittenShape(n, c, k, cells, d);
    cells[c := Mux(cells[c].s, d)]
  }

  lemma RewrittenShape(n: Netlist, c: nat, k: Knowledge, cells: seq<Cell>, d: seq<seq<Sig>>)
    requires WellFormed(n) && IsMux(n, c) && Sized(n, k) && SameShape(n, cells)
    requires cells[c].Mux? && |d| == |cells[c].d| == |n.cells[c].s| + 1
    requires forall p, o :: 0 <= p < |cells[c].d| && 0 <= o < |cells[c].d[p]| ==> InRange(n, cells[c].d[p][o])
    requires forall p :: 0 <= p < |d| ==> d[p] == ReplacedPort(n, c, p, k, cells[c].d[p])
    ensures SameShape(n, cells[c := Mux(cells[c].s, d)])
  {
    hide WellFormed;
    var r := cells[c := Mux(cells[c].s, d)];
    forall e | 0 <= e < |cells| ensures SameShapeAt(n, r, e) {
      assert SameShapeAt(n, cells, e);
    }
  }

  /** What is known below port p, and the muxes not to be entered there. */
  function Extended(n: Netlist, c: nat, p: nat, k: Knowledge): (r: Knowledge)
    requires WellFormed(n) && IsMux(n, c) && p <= |n.cells[c].s| && Sized(n, k)
    ensures ExtendsBy(n, c, p, k, r) && r.visited == k.visited + InputMuxes(n, c, p)
  {
    var ctrl := CtrlSig(n, c, p);
    Knowledge(seq(|n.drv|, b requires 0 <= b < |n.drv| => k.inactive[b] + Count(n, c, p, |n.cells[c].s| + 1, b)),
              if ctrl >= 0 then k.active[ctrl := k.active[ctrl] + 1] else k.active,
              k.visited + InputMuxes(n, c, p))
  }

  lemma ExtendedIs(n: Netlist, c: nat, p: nat, k: Knowledge, k': Knowledge)
    requires WellFormed(n) && IsMux(n, c) && p <= |n.cells[c].s| && ExtendsBy(n, c, p, k, k')
    requires k'.visited == k.visited + InputMuxes(n, c, p)
    ensures k' == Extended(n, c, p, k)
  {
    hide WellFormed, InputMuxes, CtrlSig, Count;
    assert k'.inactive == Extended(n, c, p, k).inactive;
  }

  /** Replacing the default port first and then the others rewrites the mux. */
  lemma BothReplaced(n: Netlist, c: nat, k: Knowledge, was: seq<Cell>, mid: seq<Cell>, now: seq<Cell>)
    requires WellFormed(n) && SameShape(n, was) && SameShape(n, mid) && SameShape(n, now) && Sized(n, k)
    requires IsMux(n, c)
    requires ReplacedTo(n, c, |n.cells[c].s|, |n.cells[c].s| + 1, 0, k, was, mid)
    requires ReplacedTo(n, c, 0, |n.cells[c].s|, 0, k, mid, now)
    ensures now == Rewritten(n, c, k, was)
  {
    hide WellFormed, Replaced;
    assert SameShapeAt(n, was, c) && SameShapeAt(n, mid, c) && SameShapeAt(n, now, c);
    BitsInRange(n, was, c);
    BitsInRange(n, mid, c);
    var r := Rewritten(n, c, k, was);
    assert SameShapeAt(n, r, c);
    forall q | 0 <= q < |was[c].d| ensures now[c].d[q] == r[c].d[q] {
      assert r[c].d[q] == ReplacedPort(n, c, q, k, was[c].d[q]);
    }
    assert now[c].d == r[c].d;
    assert forall e :: 0 <= e < |was| && e != c ==> now[e] == mid[e] == was[e] == r[e];
  }

  // -------------------------------------------------------------- the walk

  function WalkMux(n: Netlist, order: Order, w: Work, k: Knowledge, c: nat, m: Mode): (r: Work)
    requires WellFormed(n) && IsOrder(order) && SameShape(n, w.cells) && Sized(n, k) && IsMux(n, c)
    ensures Later(n, w, r) && (w.left > 0 ==> r.left < w.left)
    decreases UpTo(|n.cells|) - k.visited, 3
  {
    if w.left == 0 then w
    else
      var cells := if m.replace then Rewritten(n, c, k, w.cells) else w.cells;
      WalkPorts(n, order, Work(w.enabling, w.rerun, w.enabled, cells, w.left - 1), k, c, m)
  }

  /** The first port with constant 1 select, or |s|. */
  function FirstForced(n: Netlist, c: nat, i: nat): (p: nat)
    requires WellFormed(n) && IsMux(n, c) && i <= |n.cells[c].s|
    ensures i <= p <= |n.cells[c].s| && (p < |n.cells[c].s| ==> Forced(n, c, p))
    ensures forall q :: i <= q < p ==> !Forced(n, c, q)
    decreases |n.cells[c].s| - i
  {
    if i == |n.cells[c].s| || Forced(n, c, i) then i else FirstForced(n, c, i + 1)
  }

  predicate KnownActive(n: Netlist, c: nat, k: Knowledge, p: nat)
    requires WellFormed(n) && IsMux(n, c) && p < |n.cells[c].s| && Sized(n, k)
  {
    CtrlSig(n, c, p) >= 0 && k.active[CtrlSig(n, c, p)] > 0
  }

  /** The first port whose select is known to be active, or |s|. */
  function FirstKnown(n: Netlist, c: nat, k: Knowledge, i: nat): (p: nat)
    requires WellFormed(n) && IsMux(n, c) && i <= |n.cells[c].s| && Sized(n, k)
    ensures i <= p <= |n.cells[c].s| && (p < |n.cells[c].s| ==> KnownActive(n, c, k, p))
    ensures forall q :: i <= q < p ==> !KnownActive(n, c, k, q)
    decreases |n.cells[c].s| - i
  {
    if i == |n.cells[c].s| || KnownActive(n, c, k, i) then i else FirstKnown(n, c, k, i + 1)
  }

  /** The select of port p is 0 or known to be inactive. */
  predicate RuledOut(n: Netlist, c: nat, k: Knowledge, p: nat)
    requires WellFormed(n) && IsMux(n, c) && p <= |n.cells[c].s| && Sized(n, k)
  {
    && p < |n.cells[c].s|
    && (Ctrl(n, c, p) == Const(false) || (CtrlSig(n, c, p) >= 0 && k.inactive[CtrlSig(n, c, p)] > 0))
  }

  function WalkPorts(n: Netlist, order: Order, w: Work, k: Knowledge, c: nat, m: Mode): (r: Work)
    requires WellFormed(n) && IsOrder(order) && SameShape(n, w.cells) && Sized(n, k) && IsMux(n, c)
    ensures Later(n, w, r)
    decreases UpTo(|n.cells|) - k.visited, 2
  {
    var last := |n.cells[c].s|;
    if FirstForced(n, c, 0) < last then WalkPort(n, order, w, k, c, FirstForced(n, c, 0), m)
    else if FirstKnown(n, c, k, 0) < last then WalkPort(n, order, w, k, c, FirstKnown(n, c, k, 0), m)
    else WalkPortsFrom(n, order, w, k, c, 0, m)
  }

  /** All ports from p on that are not ruled out. */
  function WalkPortsFrom(n: Netlist, order: Order, w: Work, k: Knowledge, c: nat, p: nat, m: Mode): (r: Work)
    requires WellFormed(n) && IsOrder(order) && SameShape(n, w.cells) && Sized(n, k) && IsMux(n, c)
    requires p <= |n.cells[c].s| + 1
    ensures Later(n, w, r)
    decreases UpTo(|n.cells|) - k.visited, 1, |n.cells[c].s| + 1 - p
  {
    if p == |n.cells[c].s| + 1 then w
    else if RuledOut(n, c, k, p) then WalkPortsFrom(n, order, w, k, c, p + 1, m)
    else
      var w1 := WalkPort(n, order, w, k, c, p, m);
      if w1.left == 0 then w1 else WalkPortsFrom(n, order, w1, k, c, p + 1, m)
  }

  function WalkPort(n: Netlist, order: Order, w: Work, k: Knowledge, c: nat, p: nat, m: Mode): (r: Work)
    requires WellFormed(n) && IsOrder(order) && SameShape(n, w.cells) && Sized(n, k) && IsMux(n, c)
    requires p <= |n.cells[c].s|
    ensures Later(n, w, r) && (w.left > 0 && m.enable ==> (c, p) in r.enabled)
    decreases UpTo(|n.cells|) - k.visited, 0
  {
    if w.left == 0 then w
    else
      var enabled := if m.enable then w.enabled + {(c, p)} else w.enabled;
      var w1 := Work(w.enabling, w.rerun, enabled, w.cells, w.left);
      var parents := InputMuxes(n, c, p) - k.visited;
      if parents == {} then w1
      else
        ParentsAreMuxes(n, c, p);
        WalkParents(n, order, w1, Extended(n, c, p, k), parents, m)
  }

  lemma ParentsAreMuxes(n: Netlist, c: nat, p: nat)
    requires WellFormed(n) && IsMux(n, c) && p <= |n.cells[c].s|
    ensures forall e :: e in InputMuxes(n, c, p) ==> IsMux(n, e)
  {
    forall e | e in InputMuxes(n, c, p) ensures IsMux(n, e) {
      InputsAreMuxes(n, e, c, p);
    }
  }

  function WalkParents(n: Netlist, order: Order, w: Work, k: Knowledge, todo: set<nat>, m: Mode): (r: Work)
    requires WellFormed(n) && IsOrder(order) && SameShape(n, w.cells) && Sized(n, k)
    requires forall e :: e in todo ==> IsMux(n, e)
    ensures Later(n, w, r)
    decreases UpTo(|n.cells|) - k.visited, 5, todo
  {
    if todo == {} then w
    else
      var e := order(w.left, todo);
      var w1 := WalkParent(n, order, w, k, e, m);
      if w1.left == 0 then w1 else WalkParents(n, order, w1, k, todo - {e}, m)
  }

  /** Roots that enable ports are run on their own; other roots are entered without replacement. */
  function WalkParent(n: Netlist, order: Order, w: Work, k: Knowledge, e: nat, m: Mode): (r: Work)
    requires WellFormed(n) && IsOrder(order) && SameShape(n, w.cells) && Sized(n, k) && IsMux(n, e)
    ensures Later(n, w, r)
    decreases UpTo(|n.cells|) - k.visited, 4
  {
    if e in w.enabling then w
    else if e !in Roots(n) then WalkMux(n, order, w, k, e, m)
    else if m.depth == 0 then Work(w.enabling + {e}, w.rerun + {e}, w.enabled, w.cells, w.left)
    else WalkMux(n, order, w, k, e, Mode(false, m.enable, m.depth - 1))
  }

  // ------------------------------------------------------------- all roots

  function Nothing(n: Netlist, r: nat): (k: Knowledge)
    ensures Sized(n, k)
  {
    Knowledge(seq(|n.drv|, i => 0), seq(|n.drv|, i => 0), {r})
  }

  lemma RootsAreMuxes(n: Netlist, r: nat)
    requires WellFormed(n) && r in Roots(n)
    ensures r < |n.cells| && n.cells[r].Mux?
  {
    if r in PureRoots(n) {
      assert IsPureRoot(n, r);
      var b :| 0 <= b < |n.drv| && n.drv[b].MuxOut? && n.drv[b].cell == r && SeenNonMux(n, b);
      assert DriverOk(n, b);
    } else {
      assert Users(n, r) != {};
      var c :| c in Users(n, r);
      assert Uses(n, c, r);
      var p :| 0 <= p <= |n.cells[c].s| && r in InputMuxes(n, c, p);
      InputsAreMuxes(n, r, c, p);
    }
  }

  function WalkRoot(n: Netlist, order: Order, w: Work, r: nat): (w': Work)
    requires WellFormed(n) && IsOrder(order) && SameShape(n, w.cells) && r in Roots(n)
    ensures Later(n, w, w') && (w.left > 0 ==> w'.left < w.left)
  {
    RootsAreMuxes(n, r);
    WalkMux(n, order, Work(w.enabling, w.rerun - {r}, w.enabled, w.cells, w.left), Nothing(n, r), r,
            Mode(true, r in w.enabling, 3))
  }

  function WalkRoots(n: Netlist, order: Order, w: Work, r: nat): (w': Work)
    requires WellFormed(n) && IsOrder(order) && SameShape(n, w.cells) && r <= |n.cells|
    requires w.left > 0 && w.rerun <= Roots(n)
    ensures Later(n, w, w')
    decreases |n.cells| - r
  {
    if r == |n.cells| then WalkRerun(n, order, w)
    else if r !in Roots(n) then WalkRoots(n, order, w, r + 1)
    else
      var w1 := WalkRoot(n, order, w, r);
      if w1.left == 0 then w1 else WalkRoots(n, order, w1, r + 1)
  }

  function WalkRerun(n: Netlist, order: Order, w: Work): (w': Work)
    requires WellFormed(n) && IsOrder(order) && SameShape(n, w.cells) && w.left > 0 && w.rerun <= Roots(n)
    ensures Later(n, w, w')
    decreases w.left
  {
    if w.rerun == {} then w
    else
      var w1 := WalkRoot(n, order, w, order(w.left, w.rerun));
      if w1.left == 0 then w1 else WalkRerun(n, order, w1)
  }

  /** Running the next root first changes nothing in what is reached. */
  lemma RootsStep(n: Netlist, order: Order, w: Work, r: nat, w1: Work)
    requires WellFormed(n) && IsOrder(order) && SameShape(n, w.cells) && r < |n.cells|
    requires w.left > 0 && w.rerun <= Roots(n) && r in Roots(n) && w1 == WalkRoot(n, order, w, r)
    ensures SameShape(n, w1.cells) && w1.rerun <= Roots(n)
    ensures WalkRoots(n, order, w, r) == if w1.left == 0 then w1 else WalkRoots(n, order, w1, r + 1)
  {
    hide WalkRoot, SameShape, Roots, WellFormed, IsOrder;
  }

  lemma NoRootHere(n: Netlist, order: Order, w: Work, r: nat)
    requires WellFormed(n) && IsOrder(order) && SameShape(n, w.cells) && r < |n.cells|
    requires w.left > 0 && w.rerun <= Roots(n) && r !in Roots(n)
    ensures WalkRoots(n, order, w, r) == WalkRoots(n, order, w, r + 1)
  {
    hide SameShape, Roots, WellFormed, IsOrder;
  }

  lemma RootsEnd(n: Netlist, order: Order, w: Work)
    requires WellFormed(n) && IsOrder(order) && SameShape(n, w.cells) && w.left > 0 && w.rerun <= Roots(n)
    ensures WalkRoots(n, order, w, |n.cells|) == WalkRerun(n, order, w)
  {
    hide SameShape, Roots, WellFormed, IsOrder, WalkRerun;
  }

  lemma RerunEnd(n: Netlist, order: Order, w: Work)
    requires WellFormed(n) && IsOrder(order) && SameShape(n, w.cells) && w.left > 0 && w.rerun == {}
    ensures WalkRerun(n, order, w) == w
  {
  }

  lemma RerunStep(n: Netlist, order: Order, w: Work, r: nat, w1: Work)
    requires WellFormed(n) && IsOrder(order) && SameShape(n, w.cells) && w.left > 0 && w.rerun <= Roots(n)
    requires r in w.rerun && r == order(w.left, w.rerun) && w1 == WalkRoot(n, order, w, r)
    ensures SameShape(n, w1.cells) && w1.rerun <= Roots(n)
    ensures WalkRerun(n, order, w) == if w1.left == 0 then w1 else WalkRerun(n, order, w1)
  {
    hide WalkRoot, SameShape, Roots, WellFormed, IsOrder;
  }

  const LIMIT: nat := 0x7fff_ffff

  function Initial(n: Netlist): (w: Work)
    requires WellFormed(n)
    ensures SameShape(n, w.cells)
  {
    UnchangedShape(n);
    Work(PureRoots(n), {}, {}, n.cells, LIMIT)
  }

  lemma UnchangedShape(n: Netlist)
    requires WellFormed(n)
    ensures SameShape(n, n.cells)
  {
    assert forall c :: 0 <= c < |n.cells| ==> CellOk(n, n.cells[c]);
  }

  /** What one run makes of a module; when the iterations run out no port is removed. */
  function Optimised(n: Netlist, order: Order): Netlist
    requires WellFormed(n) && IsOrder(order)
  {
    var w := WalkRoots(n, order, Initial(n), 0);
    if w.left == 0 then Netlist(n.drv, w.cells, n.keep, n.rank) else Pruned(n, w.cells, w.enabled)
  }
}
