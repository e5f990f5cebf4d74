/**
  A gate-level netlist with multiplexer cells, as the mux-tree optimiser sees it: numbered wire
  bits, one driver per bit, `$mux`/`$pmux` cells, and other cells whose function is left open.
 */
module MuxNetlist {

  /** A bit of a signal: a constant or a numbered wire bit. */
  datatype Sig = Const(bit: bool) | Wire(id: nat)

  /** A mux cell with select bits `s` and |s| + 1 data ports, the last one being the default (A).
      The slot of a deleted cell is `Removed`. */
  datatype Cell = Removed | Mux(s: seq<Sig>, d: seq<seq<Sig>>)

  /** What drives a wire bit. `Alias` is a plain connection; `Free` covers module inputs, register
      outputs and undriven bits. */
  datatype Driver =
    | Free
    | Gate(op: nat, ins: seq<Sig>)
    | MuxOut(cell: nat, off: nat)
    | Alias(src: Sig)

  /** `keep` holds the bits read by output ports, kept wires and registers. `rank` orders the bits
      so that every driver only reads bits of lower rank: the netlist has no combinational loop. */
  datatype Netlist = Netlist(drv: seq<Driver>, cells: seq<Cell>, keep: set<nat>, rank: seq<nat>)

  type Valuation = seq<bool>

  /** The function computed by each kind of non-mux cell. */
  type Gates = (nat, seq<bool>) -> bool

  predicate InRange(n: Netlist, t: Sig) {
    t.Wire? ==> t.id < |n.drv|
  }

  predicate Below(n: Netlist, t: Sig, b: nat)
    requires |n.rank| == |n.drv| && b < |n.drv|
  {
    t.Wire? ==> t.id < |n.drv| && n.rank[t.id] < n.rank[b]
  }

  predicate CellOk(n: Netlist, cell: Cell) {
    cell.Mux? ==>
      && |cell.d| == |cell.s| + 1
      && (forall i :: 0 <= i < |cell.s| ==> InRange(n, cell.s[i]))
      && (forall p :: 0 <= p < |cell.d| ==> |cell.d[p]| == |cell.d[0]|)
      && (forall p, o :: 0 <= p < |cell.d| && 0 <= o < |cell.d[p]| ==> InRange(n, cell.d[p][o]))
  }

  predicate DriverOk(n: Netlist, b: nat)
    requires |n.rank| == |n.drv| && b < |n.drv|
    requires forall c :: 0 <= c < |n.cells| ==> CellOk(n, n.cells[c])
  {
    match n.drv[b]
    case Free => true
    case Gate(_, ins) => forall i :: 0 <= i < |ins| ==> Below(n, ins[i], b)
    case Alias(src) => Below(n, src, b)
    case MuxOut(c, off) =>
      && c < |n.cells| && n.cells[c].Mux? && CellOk(n, n.cells[c])
      && off < |n.cells[c].d[0]|
      && (forall i :: 0 <= i < |n.cells[c].s| ==> Below(n, n.cells[c].s[i], b))
      && (forall p :: 0 <= p < |n.cells[c].d| ==> Below(n, n.cells[c].d[p][off], b))
  }

  predicate WellFormed(n: Netlist) {
    && |n.rank| == |n.drv|
    && (forall k :: k in n.keep ==> k < |n.drv|)
    && (forall c :: 0 <= c < |n.cells| ==> CellOk(n, n.cells[c]))
    && (forall b :: 0 <= b < |n.drv| ==> DriverOk(n, b))
  }

  // ---------------------------------------------------------------- meaning

  function Val(v: Valuation, t: Sig): bool
    requires t.Wire? ==> t.id < |v|
  {
    match t case Const(x) => x case Wire(id) => v[id]
  }

  function Vals(v: Valuation, ts: seq<Sig>): seq<bool>
    requires forall i :: 0 <= i < |ts| ==> ts[i].Wire? ==> ts[i].id < |v|
  {
    seq(|ts|, i requires 0 <= i < |ts| => Val(v, ts[i]))
  }

  predicate SelectsInRange(v: Valuation, cell: Cell) {
    cell.Mux? && forall i :: 0 <= i < |cell.s| ==> cell.s[i].Wire? ==> cell.s[i].id < |v|
  }

  /** The port a mux passes on: the first one whose select is set, else the default port. */
  function ActiveFrom(v: Valuation, cell: Cell, i: nat): (p: nat)
    requires SelectsInRange(v, cell) && i <= |cell.s|
    ensures i <= p <= |cell.s|
    ensures p < |cell.s| ==> Val(v, cell.s[p])
    ensures forall j :: i <= j < p ==> !Val(v, cell.s[j])
    decreases |cell.s| - i
  {
    if i == |cell.s| || Val(v, cell.s[i]) then i else ActiveFrom(v, cell, i + 1)
  }

  function Active(v: Valuation, cell: Cell): (p: nat)
    requires SelectsInRange(v, cell)
    ensures p <= |cell.s|
  {
    ActiveFrom(v, cell, 0)
  }

  /** At most one select of every mux is set. */
  predicate OneHot(n: Netlist, v: Valuation)
    requires WellFormed(n) && |v| == |n.drv|
  {
    forall c, i, j :: 0 <= c < |n.cells| && n.cells[c].Mux? && 0 <= i < j < |n.cells[c].s| ==>
                        !(Val(v, n.cells[c].s[i]) && Val(v, n.cells[c].s[j]))
  }

  predicate Holds(g: Gates, n: Netlist, v: Valuation, b: nat)
    requires WellFormed(n) && |v| == |n.drv| && b < |n.drv|
  {
    assert DriverOk(n, b);
    match n.drv[b]
    case Free => true
    case Gate(op, ins) => v[b] == g(op, Vals(v, ins))
    case Alias(src) => v[b] == Val(v, src)
    case MuxOut(c, off) =>
      assert CellOk(n, n.cells[c]);
      v[b] == Val(v, n.cells[c].d[Active(v, n.cells[c])][off])
  }

  /** `v` gives every bit the value its driver produces. */
  ghost predicate Models(g: Gates, n: Netlist, v: Valuation)
    requires WellFormed(n)
  {
    |v| == |n.drv| && forall b :: 0 <= b < |n.drv| ==> Holds(g, n, v, b)
  }

  // ------------------------------------------------- the signal map (SigMap)

  /** The representative of a bit once connections are resolved. */
  function Rep(n: Netlist, t: Sig): (r: Sig)
    requires WellFormed(n) && InRange(n, t)
    ensures InRange(n, r)
    ensures r.Wire? ==> t.Wire? && !n.drv[r.id].Alias? && n.rank[r.id] <= n.rank[t.id]
    decreases if t.Wire? then n.rank[t.id] + 1 else 0
  {
    if t.Const? then t
    else
      assert DriverOk(n, t.id);
      if n.drv[t.id].Alias? then Rep(n, n.drv[t.id].src) else t
  }

  /** Valuations that respect connections and never activate two ports of one mux. */
  ghost predicate Admissible(n: Netlist, v: Valuation)
    requires WellFormed(n)
  {
    && |v| == |n.drv|
    && OneHot(n, v)
    && (forall t: Sig {:trigger Rep(n, t)} :: InRange(n, t) ==> Val(v, Rep(n, t)) == Val(v, t))
  }

  lemma {:induction false} RepKeepsValue(g: Gates, n: Netlist, v: Valuation, t: Sig)
    requires WellFormed(n) && Models(g, n, v) && InRange(n, t)
    ensures Val(v, Rep(n, t)) == Val(v, t)
    decreases if t.Wire? then n.rank[t.id] + 1 else 0
  {
    if t.Wire? && n.drv[t.id].Alias? {
      assert Holds(g, n, v, t.id) && DriverOk(n, t.id);
      RepKeepsValue(g, n, v, n.drv[t.id].src);
    }
  }

  lemma ModelsAreAdmissible(g: Gates, n: Netlist, v: Valuation)
    requires WellFormed(n) && Models(g, n, v) && OneHot(n, v)
    ensures Admissible(n, v)
  {
    forall t: Sig | InRange(n, t) ensures Val(v, Rep(n, t)) == Val(v, t) {
      RepKeepsValue(g, n, v, t);
    }
  }

  // ---------------------------------------------------- structural queries

  /** The mux cell driving a signal, if any. */
  predicate DrivenBy(n: Netlist, t: Sig, c: nat)
    requires WellFormed(n) && InRange(n, t)
  {
    var r := Rep(n, t);
    r.Wire? && n.drv[r.id].MuxOut? && n.drv[r.id].cell == c
  }

  /** Bits with a reader that is not the data port of a mux: kept bits, gate inputs, mux selects. */
  predicate SeenNonMux(n: Netlist, b: nat)
    requires WellFormed(n)
  {
    || (exists k :: k in n.keep && Rep(n, Wire(k)) == Wire(b))
    || (exists x, i :: 0 <= x < |n.drv| && n.drv[x].Gate? && 0 <= i < |n.drv[x].ins|
                       && GateInputIs(n, x, i, b))
    || (exists c, i :: 0 <= c < |n.cells| && n.cells[c].Mux? && 0 <= i < |n.cells[c].s|
                       && SelectIs(n, c, i, b))
  }

  predicate GateInputIs(n: Netlist, x: nat, i: nat, b: nat)
    requires WellFormed(n) && x < |n.drv| && n.drv[x].Gate? && i < |n.drv[x].ins|
  {
    assert DriverOk(n, x);
    Rep(n, n.drv[x].ins[i]) == Wire(b)
  }

  predicate SelectIs(n: Netlist, c: nat, i: nat, b: nat)
    requires WellFormed(n) && c < |n.cells| && n.cells[c].Mux? && i < |n.cells[c].s|
  {
    assert CellOk(n, n.cells[c]);
    Rep(n, n.cells[c].s[i]) == Wire(b)
  }

  predicate Feeds(n: Netlist, m: nat, c: nat, p: nat)
    requires WellFormed(n) && c < |n.cells| && n.cells[c].Mux? && p <= |n.cells[c].s|
  {
    assert CellOk(n, n.cells[c]);
    exists o :: 0 <= o < |n.cells[c].d[p]| && DrivenBy(n, n.cells[c].d[p][o], m)
  }

  /** The muxes that drive some data bit of port p of mux c. */
  function InputMuxes(n: Netlist, c: nat, p: nat): set<nat>
    requires WellFormed(n) && c < |n.cells| && n.cells[c].Mux? && p <= |n.cells[c].s|
  {
    set m: nat | 0 <= m < |n.cells| && Feeds(n, m, c, p)
  }

  predicate Uses(n: Netlist, c: nat, m: nat)
    requires WellFormed(n) && c < |n.cells|
  {
    n.cells[c].Mux? && exists p :: 0 <= p <= |n.cells[c].s| && m in InputMuxes(n, c, p)
  }

  function Users(n: Netlist, m: nat): set<nat>
    requires WellFormed(n)
  {
    set c: nat | 0 <= c < |n.cells| && Uses(n, c, m)
  }

  /** Muxes with an output bit that something other than a mux data port reads. */
  predicate IsPureRoot(n: Netlist, m: nat)
    requires WellFormed(n)
  {
    exists b :: 0 <= b < |n.drv| && n.drv[b].MuxOut? && n.drv[b].cell == m && SeenNonMux(n, b)
  }

  function PureRoots(n: Netlist): set<nat>
    requires WellFormed(n)
  {
    set m: nat | 0 <= m < |n.cells| && IsPureRoot(n, m)
  }

  function Roots(n: Netlist): set<nat>
    requires WellFormed(n)
  {
    set m: nat | 0 <= m < |n.cells| && (m in PureRoots(n) || |Users(n, m)| > 1)
  }
}
