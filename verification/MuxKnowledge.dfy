/**
  What the mux-tree optimiser may conclude from the position of a mux in its tree: which selects
  are known, which data bits can be replaced, and which muxes a set of visited ports covers.
 */
module MuxKnowledge {
  import opened MuxNetlist

  /** The control signal of a port once connections are resolved; the default port has none. */
  function Ctrl(n: Netlist, c: nat, p: nat): Sig
    requires WellFormed(n) && c < |n.cells| && n.cells[c].Mux? && p < |n.cells[c].s|
  {
    assert CellOk(n, n.cells[c]);
    Rep(n, n.cells[c].s[p])
  }

  /** Wire number of a control signal, or -1 for the default port and for constants. */
  function CtrlSig(n: Netlist, c: nat, p: nat): (k: int)
    requires WellFormed(n) && c < |n.cells| && n.cells[c].Mux? && p <= |n.cells[c].s|
    ensures -1 <= k < |n.drv|
  {
    if p < |n.cells[c].s| && Ctrl(n, c, p).Wire? then Ctrl(n, c, p).id else -1
  }

  /** The index a value gets when the control signals are numbered in order of first appearance. */
  function Numbered(n: Netlist, c: nat, i: nat): (ks: seq<int>)
    requires WellFormed(n) && c < |n.cells| && n.cells[c].Mux? && i <= |n.cells[c].s|
  {
    if i == 0 then []
    else
      var ks := Numbered(n, c, i - 1);
      if CtrlSig(n, c, i - 1) in ks then ks else ks + [CtrlSig(n, c, i - 1)]
  }

  function IndexOf(ks: seq<int>, k: int): (i: nat)
    requires k in ks
    ensures i < |ks| && ks[i] == k
  {
    if ks[0] == k then 0 else 1 + IndexOf(ks[1..], k)
  }

  /** The select bits of every mux are pairwise distinct, constants counting as one value. */
  predicate DistinctSelects(n: Netlist)
    requires WellFormed(n)
  {
    forall c, i, j :: 0 <= c < |n.cells| && n.cells[c].Mux? && 0 <= i < j < |n.cells[c].s| ==>
                        CtrlSig(n, c, i) != CtrlSig(n, c, j)
  }

  /** A mux inside a tree feeds a single port of its user. */
  predicate SinglePort(n: Netlist)
    requires WellFormed(n)
  {
    forall m, c, p, q |
      && 0 <= m < |n.cells| && m !in Roots(n)
      && 0 <= c < |n.cells| && n.cells[c].Mux?
      && 0 <= p <= |n.cells[c].s| && 0 <= q <= |n.cells[c].s|
      && m in InputMuxes(n, c, p) && m in InputMuxes(n, c, q)
      :: p == q
  }

  /** Where data bit t of port p is a select of its own mux: the place at which its number first appears
      is p exactly when t is the select of port p. */
  predicate OwnPlaceRight(n: Netlist, c: nat, p: nat, t: Sig)
    requires WellFormed(n) && c < |n.cells| && n.cells[c].Mux? && p <= |n.cells[c].s| && InRange(n, t)
  {
    var own := Numbered(n, c, |n.cells[c].s|);
    p < |n.cells[c].s| && Rep(n, t).Wire? && Rep(n, t).id in own ==>
      (IndexOf(own, Rep(n, t).id) == p <==> CtrlSig(n, c, p) == Rep(n, t).id)
  }

  predicate OwnSelectsRight(n: Netlist)
    requires WellFormed(n)
  {
    forall c :: 0 <= c < |n.cells| && n.cells[c].Mux? ==> OwnSelectsRightAt(n, c)
  }

  predicate OwnSelectsRightAt(n: Netlist, c: nat)
    requires WellFormed(n) && c < |n.cells| && n.cells[c].Mux?
  {
    assert CellOk(n, n.cells[c]);
    forall p, o :: 0 <= p < |n.cells[c].d| && 0 <= o < |n.cells[c].d[p]| ==> OwnPlaceRight(n, c, p, n.cells[c].d[p][o])
  }

  /** What known-bit replacement needs. */
  predicate Replaceable(n: Netlist)
    requires WellFormed(n)
  {
    OwnSelectsRight(n) && SinglePort(n)
  }

  // -------------------------------------------------------- constant selects

  predicate Forced(n: Netlist, c: nat, q: nat)
    requires WellFormed(n) && c < |n.cells| && n.cells[c].Mux? && q < |n.cells[c].s|
  {
    Ctrl(n, c, q) == Const(true)
  }

  /** The constant selects of mux c leave port p a choice: it is not switched off by a 0, and where some
      port is switched on by a 1 it is the first of those. */
  predicate CanBeChosen(n: Netlist, c: nat, p: nat)
    requires WellFormed(n) && c < |n.cells| && n.cells[c].Mux? && p <= |n.cells[c].s|
  {
    && (p < |n.cells[c].s| ==> Ctrl(n, c, p) != Const(false))
    && (forall q :: 0 <= q < |n.cells[c].s| && Forced(n, c, q) ==> p <= q && Forced(n, c, p))
  }

  ghost predicate OnlyChoices(n: Netlist, enabled: set<(nat, nat)>)
    requires WellFormed(n)
  {
    forall d, p :: (d, p) in enabled ==>
                     d < |n.cells| && n.cells[d].Mux? && p <= |n.cells[d].s| && CanBeChosen(n, d, p)
  }

  lemma OneMoreChoice(n: Netlist, enabled: set<(nat, nat)>, c: nat, p: nat)
    requires WellFormed(n) && OnlyChoices(n, enabled)
    requires c < |n.cells| && n.cells[c].Mux? && p <= |n.cells[c].s| && CanBeChosen(n, c, p)
    ensures OnlyChoices(n, enabled + {(c, p)})
  {
    hide WellFormed, CanBeChosen;
  }

  // ------------------------------------------------------ reference counters

  /** What is known at one point of the walk: for every wire bit how many enclosing ports make it
      inactive or active, and the muxes on the path (or waiting to be visited beside it). */
  datatype Knowledge = Knowledge(inactive: seq<nat>, active: seq<nat>, visited: set<nat>)

  /** How often the other ports among the first i of mux c count wire b as inactive. */
  function Count(n: Netlist, c: nat, p: nat, i: nat, b: nat): nat
    requires WellFormed(n) && c < |n.cells| && n.cells[c].Mux? && i <= |n.cells[c].s| + 1
  {
    if i == 0 then 0
    else Count(n, c, p, i - 1, b) + if i - 1 != p && CtrlSig(n, c, i - 1) == b then 1 else 0
  }

  lemma {:induction false} CountIsMonotone(n: Netlist, c: nat, p: nat, i: nat, j: nat, b: nat)
    requires WellFormed(n) && c < |n.cells| && n.cells[c].Mux? && i <= j <= |n.cells[c].s| + 1
    ensures Count(n, c, p, i, b) <= Count(n, c, p, j, b)
    decreases j
  {
    if i < j { CountIsMonotone(n, c, p, i, j - 1, b); }
  }

  lemma {:induction false} CountedMeansOtherPort(n: Netlist, c: nat, p: nat, i: nat, b: nat) returns (j: nat)
    requires WellFormed(n) && c < |n.cells| && n.cells[c].Mux? && i <= |n.cells[c].s| + 1
    requires Count(n, c, p, i, b) > 0
    ensures j < i && j != p && CtrlSig(n, c, j) == b
  {
    if i - 1 != p && CtrlSig(n, c, i - 1) == b {
      j := i - 1;
    } else {
      j := CountedMeansOtherPort(n, c, p, i - 1, b);
    }
  }

  predicate Sized(n: Netlist, k: Knowledge) {
    |k.inactive| == |k.active| == |n.drv|
  }

  ghost predicate Consistent(n: Netlist, k: Knowledge, v: Valuation)
    requires |v| == |n.drv|
  {
    && Sized(n, k)
    && (forall b :: 0 <= b < |v| ==> (k.inactive[b] > 0 ==> !v[b]) && (k.active[b] > 0 ==> v[b]))
  }

  /** k' is k plus what holding port p of mux c active adds. */
  ghost predicate ExtendsBy(n: Netlist, c: nat, p: nat, k: Knowledge, k': Knowledge)
    requires WellFormed(n) && c < |n.cells| && n.cells[c].Mux? && p <= |n.cells[c].s|
  {
    && Sized(n, k) && Sized(n, k')
    && (forall b :: 0 <= b < |n.drv| ==> k'.inactive[b] == k.inactive[b] + Count(n, c, p, |n.cells[c].s| + 1, b))
    && k'.active == if CtrlSig(n, c, p) >= 0
                    then k.active[CtrlSig(n, c, p) := k.active[CtrlSig(n, c, p)] + 1] else k.active
  }

  /** If port p is the active one, what its examination adds to the knowledge is true. */
  lemma ActivePortExtends(n: Netlist, c: nat, p: nat, k: Knowledge, k': Knowledge, v: Valuation)
    requires WellFormed(n) && c < |n.cells| && n.cells[c].Mux? && p <= |n.cells[c].s|
    requires ExtendsBy(n, c, p, k, k')
    requires Admissible(n, v) && Consistent(n, k, v) && Active(v, n.cells[c]) == p
    ensures Consistent(n, k', v)
  {
    var cell := n.cells[c];
    assert CellOk(n, cell);
    forall b | 0 <= b < |v| ensures (k'.inactive[b] > 0 ==> !v[b]) && (k'.active[b] > 0 ==> v[b]) {
      if k'.inactive[b] > 0 && k.inactive[b] == 0 {
        var j := CountedMeansOtherPort(n, c, p, |cell.s| + 1, b);
        assert Val(v, Rep(n, cell.s[j])) == Val(v, cell.s[j]);
      }
      if CtrlSig(n, c, p) == b {
        assert Val(v, Rep(n, cell.s[p])) == Val(v, cell.s[p]);
      }
    }
  }

  // --------------------------------------------------- known-bit replacement

  /** The constant or signal that replaces data bit t of port p of mux c. */
  function Replaced(n: Netlist, c: nat, p: nat, k: Knowledge, t: Sig): (r: Sig)
    requires WellFormed(n) && c < |n.cells| && n.cells[c].Mux? && p <= |n.cells[c].s|
    requires Sized(n, k) && InRange(n, t)
  {
    var x := Rep(n, t);
    if x.Const? then t
    else
      var own := Numbered(n, c, |n.cells[c].s|);
      if x.id in own then Const(p < |n.cells[c].s| && IndexOf(own, x.id) == p)
      else if k.inactive[x.id] > 0 then Const(false)
      else if k.active[x.id] > 0 then Const(true)
      else t
  }

  lemma {:induction false} DistinctNumbering(n: Netlist, c: nat, i: nat)
    requires WellFormed(n) && DistinctSelects(n)
    requires c < |n.cells| && n.cells[c].Mux? && i <= |n.cells[c].s|
    ensures |Numbered(n, c, i)| == i
    ensures forall j :: 0 <= j < i ==> Numbered(n, c, i)[j] == CtrlSig(n, c, j)
  {
    if i > 0 { DistinctNumbering(n, c, i - 1); }
  }

  lemma {:induction false} IndexOfDistinct(ks: seq<int>, i: nat)
    requires i < |ks| && forall a, b :: 0 <= a < b < |ks| ==> ks[a] != ks[b]
    ensures IndexOf(ks, ks[i]) == i
  {
    if i > 0 { IndexOfDistinct(ks[1..], i - 1); }
  }

  lemma {:induction false} NumberedHas(n: Netlist, c: nat, i: nat, x: int) returns (j: nat)
    requires WellFormed(n) && c < |n.cells| && n.cells[c].Mux? && i <= |n.cells[c].s| && x in Numbered(n, c, i)
    ensures j < i && CtrlSig(n, c, j) == x
    decreases i
  {
    if x in Numbered(n, c, i - 1) { j := NumberedHas(n, c, i - 1, x); } else { j := i - 1; }
  }

  /** With port p active, a select of the mux is 1 exactly if it is the select of port p. */
  lemma OwnValue(n: Netlist, c: nat, p: nat, x: nat, v: Valuation)
    requires WellFormed(n) && c < |n.cells| && n.cells[c].Mux? && p <= |n.cells[c].s|
    requires x in Numbered(n, c, |n.cells[c].s|) && Admissible(n, v) && ActiveIs(n, v, c, p)
    ensures x < |v| && v[x] == (p < |n.cells[c].s| && CtrlSig(n, c, p) == x)
  {
    hide DriverOk, Numbered;
    var cell := n.cells[c];
    assert CellOk(n, cell);
    var j := NumberedHas(n, c, |cell.s|, x);
    assert Val(v, Rep(n, cell.s[j])) == Val(v, cell.s[j]);
    if p < |cell.s| { assert Val(v, Rep(n, cell.s[p])) == Val(v, cell.s[p]); }
  }

  /** Replacement keeps the value of every bit of the active port that is no select of its own mux, and of
      a select if its place is right. */
  lemma ReplacementIsSound(n: Netlist, c: nat, p: nat, k: Knowledge, t: Sig, v: Valuation)
    requires WellFormed(n)
    requires c < |n.cells| && n.cells[c].Mux? && p <= |n.cells[c].s| && InRange(n, t) && OwnPlaceRight(n, c, p, t)
    requires Admissible(n, v) && Consistent(n, k, v) && ActiveIs(n, v, c, p)
    ensures InRange(n, Replaced(n, c, p, k, t))
    ensures Val(v, Replaced(n, c, p, k, t)) == Val(v, t)
  {
    hide DriverOk, Numbered;
    var x := Rep(n, t);
    assert Val(v, x) == Val(v, t);
    if x.Wire? && x.id in Numbered(n, c, |n.cells[c].s|) { OwnValue(n, c, p, x.id, v); }
  }

  /** Pairwise distinct selects put every own select in its right place. */
  lemma DistinctIsRight(n: Netlist)
    requires WellFormed(n) && DistinctSelects(n)
    ensures OwnSelectsRight(n)
  {
    forall c | 0 <= c < |n.cells| && n.cells[c].Mux? ensures OwnSelectsRightAt(n, c) {
      assert CellOk(n, n.cells[c]);
      forall p, o | 0 <= p < |n.cells[c].d| && 0 <= o < |n.cells[c].d[p]|
        ensures OwnPlaceRight(n, c, p, n.cells[c].d[p][o])
      {
        DistinctPlace(n, c, p, n.cells[c].d[p][o]);
      }
    }
  }

  lemma DistinctPlace(n: Netlist, c: nat, p: nat, t: Sig)
    requires WellFormed(n) && DistinctSelects(n)
    requires c < |n.cells| && n.cells[c].Mux? && p <= |n.cells[c].s| && InRange(n, t)
    ensures OwnPlaceRight(n, c, p, t)
  {
    hide WellFormed, Numbered;
    var own := Numbered(n, c, |n.cells[c].s|);
    var x := Rep(n, t);
    DistinctNumbering(n, c, |n.cells[c].s|);
    if x.Wire? && x.id in own {
      var j :| 0 <= j < |own| && own[j] == x.id;
      IndexOfDistinct(own, j);
    }
  }

  // --------------------------------------------------------- observed muxes

  /** Every mux in the set is a root or feeds the active port of a mux in the set. */
  ghost predicate Grounded(n: Netlist, v: Valuation, live: set<nat>)
    requires WellFormed(n) && |v| == |n.drv|
  {
    forall m :: m in live ==> m in Roots(n) || exists c :: c in live && FeedsActive(n, v, m, c)
  }

  predicate FeedsActive(n: Netlist, v: Valuation, m: nat, c: nat)
    requires WellFormed(n) && |v| == |n.drv|
  {
    c < |n.cells| && n.cells[c].Mux? && CellOk(n, n.cells[c]) && m in InputMuxes(n, c, Active(v, n.cells[c]))
  }

  predicate ActiveIs(n: Netlist, v: Valuation, c: nat, p: nat)
    requires WellFormed(n) && |v| == |n.drv|
  {
    c < |n.cells| && SelectsInRange(v, n.cells[c]) && Active(v, n.cells[c]) == p
  }

  /** Under v, mux c is observed from some root through active ports only. */
  ghost predicate Observed(n: Netlist, v: Valuation, c: nat)
    requires WellFormed(n) && |v| == |n.drv|
  {
    exists live: set<nat> :: c in live && Grounded(n, v, live)
  }

  lemma RootsAreObserved(n: Netlist, v: Valuation, c: nat)
    requires WellFormed(n) && |v| == |n.drv| && c in Roots(n)
    ensures Observed(n, v, c)
  {
    assert c in {c} && Grounded(n, v, {c});
  }

  lemma ActiveInputsAreObserved(n: Netlist, v: Valuation, m: nat, c: nat)
    requires WellFormed(n) && |v| == |n.drv| && Observed(n, v, c) && FeedsActive(n, v, m, c)
    ensures Observed(n, v, m)
  {
    var live :| c in live && Grounded(n, v, live);
    var live' := live + {m};
    assert m in live' && Grounded(n, v, live');
  }

  /** A mux inside a tree is only observed through the one port it feeds. */
  lemma ObservedThroughItsPort(n: Netlist, v: Valuation, m: nat, c: nat, p: nat)
    requires WellFormed(n) && |v| == |n.drv| && SinglePort(n)
    requires c < |n.cells| && n.cells[c].Mux? && p <= |n.cells[c].s|
    requires m in InputMuxes(n, c, p) && m !in Roots(n) && Observed(n, v, m)
    ensures Observed(n, v, c) && SelectsInRange(v, n.cells[c]) && Active(v, n.cells[c]) == p
  {
    hide DriverOk, InputMuxes, Active;
    InputsAreMuxes(n, m, c, p);
    var live :| m in live && Grounded(n, v, live);
    var c' :| c' in live && FeedsActive(n, v, m, c');
    assert CellOk(n, n.cells[c]);
    OneUser(n, m, c, p, c', Active(v, n.cells[c']));
  }

  /** A mux that is not a root has one user. */
  lemma OneUser(n: Netlist, m: nat, c: nat, p: nat, c': nat, p': nat)
    requires WellFormed(n) && m !in Roots(n)
    requires c < |n.cells| && n.cells[c].Mux? && p <= |n.cells[c].s| && m in InputMuxes(n, c, p)
    requires c' < |n.cells| && n.cells[c'].Mux? && p' <= |n.cells[c'].s| && m in InputMuxes(n, c', p')
    ensures c == c'
  {
    hide WellFormed, InputMuxes, IsPureRoot;
    InputsAreMuxes(n, m, c, p);
    assert Uses(n, c, m) && Uses(n, c', m);
    if c != c' {
      assert {c, c'} <= Users(n, m);
      SubsetCardinality({c, c'}, Users(n, m));
    }
  }

  lemma {:induction false} SubsetCardinality<T>(a: set<T>, b: set<T>)
    requires a <= b
    ensures |a| <= |b|
  {
    if a != {} {
      var x :| x in a;
      SubsetCardinality(a - {x}, b - {x});
    }
  }

  // ----------------------------------------------------------- port coverage

  /** For each mux in `ds` the active port is enabled and its inputs stay within `ds`, the path
      being explored and the muxes evaluated on their own. */
  ghost predicate Closed(n: Netlist, v: Valuation, ds: set<nat>, path: set<nat>, enabled: set<(nat, nat)>,
                         roots: set<nat>)
    requires WellFormed(n) && |v| == |n.drv|
  {
    forall d :: d in ds ==>
                  && d < |n.cells| && n.cells[d].Mux? && CellOk(n, n.cells[d])
                  && (d, Active(v, n.cells[d])) in enabled
                  && InputMuxes(n, d, Active(v, n.cells[d])) <= ds + path + roots
  }

  ghost predicate Covers(n: Netlist, v: Valuation, cs: set<nat>, path: set<nat>, enabled: set<(nat, nat)>,
                         roots: set<nat>)
    requires WellFormed(n) && |v| == |n.drv|
  {
    exists ds: set<nat> :: cs <= ds && Closed(n, v, ds, path, enabled, roots)
  }

  lemma CoversMonotone(n: Netlist, v: Valuation, cs: set<nat>, path: set<nat>, enabled: set<(nat, nat)>,
                       roots: set<nat>, cs': set<nat>, enabled': set<(nat, nat)>, roots': set<nat>)
    requires WellFormed(n) && |v| == |n.drv|
    requires Covers(n, v, cs, path, enabled, roots)
    requires cs' <= cs && enabled <= enabled' && roots <= roots'
    ensures Covers(n, v, cs', path, enabled', roots')
  {
    var ds :| cs <= ds && Closed(n, v, ds, path, enabled, roots);
    assert cs' <= ds && Closed(n, v, ds, path, enabled', roots');
  }

  lemma CoversUnion(n: Netlist, v: Valuation, cs: set<nat>, cs': set<nat>, path: set<nat>, enabled: set<(nat, nat)>,
                    roots: set<nat>)
    requires WellFormed(n) && |v| == |n.drv|
    requires Covers(n, v, cs, path, enabled, roots) && Covers(n, v, cs', path, enabled, roots)
    ensures Covers(n, v, cs + cs', path, enabled, roots)
  {
    var ds :| cs <= ds && Closed(n, v, ds, path, enabled, roots);
    var ds' :| cs' <= ds' && Closed(n, v, ds', path, enabled, roots);
    assert cs + cs' <= ds + ds' && Closed(n, v, ds + ds', path, enabled, roots);
  }

  /** Covering all inputs of the active port, with those inputs on the path, covers the mux. */
  lemma CoversMux(n: Netlist, v: Valuation, c: nat, p: nat, path: set<nat>, enabled: set<(nat, nat)>, roots: set<nat>)
    requires WellFormed(n) && |v| == |n.drv| && c < |n.cells| && n.cells[c].Mux? && CellOk(n, n.cells[c])
    requires p == Active(v, n.cells[c]) && (c, p) in enabled
    requires Covers(n, v, InputMuxes(n, c, p) - path - roots, path + InputMuxes(n, c, p), enabled, roots)
    ensures Covers(n, v, {c}, path, enabled, roots)
  {
    var ins := InputMuxes(n, c, p);
    var ds :| ins - path - roots <= ds && Closed(n, v, ds, path + ins, enabled, roots);
    assert {c} <= ds + {c} && Closed(n, v, ds + {c}, path, enabled, roots);
  }

  /** Coverage for every valuation the knowledge allows. */
  ghost predicate CoversAll(n: Netlist, cs: set<nat>, k: Knowledge, enabled: set<(nat, nat)>, roots: set<nat>)
    requires WellFormed(n)
  {
    forall v | Admissible(n, v) && Consistent(n, k, v) :: Covers(n, v, cs, k.visited, enabled, roots)
  }

  /** Coverage of mux c for every such valuation that makes port p active. */
  ghost predicate CoversIfActive(n: Netlist, c: nat, p: nat, k: Knowledge, enabled: set<(nat, nat)>, roots: set<nat>)
    requires WellFormed(n)
  {
    forall v | Admissible(n, v) && Consistent(n, k, v) && ActiveIs(n, v, c, p)
      :: Covers(n, v, {c}, k.visited, enabled, roots)
  }

  lemma CoversNothing(n: Netlist, k: Knowledge, enabled: set<(nat, nat)>, roots: set<nat>)
    requires WellFormed(n)
    ensures CoversAll(n, {}, k, enabled, roots)
  {
    var none: set<nat> := {};
    forall v | Admissible(n, v) && Consistent(n, k, v) ensures Covers(n, v, {}, k.visited, enabled, roots) {
      assert none <= none && Closed(n, v, none, k.visited, enabled, roots);
    }
  }

  /** Adding one covered (or separately evaluated) mux to what was covered before more was enabled. */
  lemma CoverOneMore(n: Netlist, cs: set<nat>, m: nat, k: Knowledge, enabled: set<(nat, nat)>, roots: set<nat>,
                     enabled': set<(nat, nat)>, roots': set<nat>)
    requires WellFormed(n) && enabled <= enabled' && roots <= roots'
    requires CoversAll(n, cs - roots, k, enabled, roots)
    requires m in roots' || CoversAll(n, {m}, k, enabled', roots')
    ensures CoversAll(n, cs + {m} - roots', k, enabled', roots')
  {
    var cs' := cs + {m} - roots';
    forall v | Admissible(n, v) && Consistent(n, k, v) ensures Covers(n, v, cs', k.visited, enabled', roots') {
      CoversMonotone(n, v, cs - roots, k.visited, enabled, roots, cs - roots', enabled', roots');
      if m in roots' {
        assert cs' == cs - roots';
      } else {
        CoversUnion(n, v, cs - roots', {m}, k.visited, enabled', roots');
        assert cs' == cs - roots' + {m};
      }
    }
  }

  lemma StillCoversIfActive(n: Netlist, c: nat, p: nat, k: Knowledge, enabled: set<(nat, nat)>, roots: set<nat>,
                            enabled': set<(nat, nat)>, roots': set<nat>)
    requires WellFormed(n) && enabled <= enabled' && roots <= roots'
    requires CoversIfActive(n, c, p, k, enabled, roots)
    ensures CoversIfActive(n, c, p, k, enabled', roots')
  {
    forall v | Admissible(n, v) && Consistent(n, k, v) && ActiveIs(n, v, c, p)
      ensures Covers(n, v, {c}, k.visited, enabled', roots')
    {
      CoversMonotone(n, v, {c}, k.visited, enabled, roots, {c}, enabled', roots');
    }
  }

  /** A port whose select is 1 or known to be active is the only one that can be active. */
  lemma OnlyActivePort(n: Netlist, c: nat, p: nat, k: Knowledge, enabled: set<(nat, nat)>, roots: set<nat>)
    requires WellFormed(n) && c < |n.cells| && n.cells[c].Mux? && p < |n.cells[c].s| && Sized(n, k)
    requires Ctrl(n, c, p) == Const(true) || (CtrlSig(n, c, p) >= 0 && k.active[CtrlSig(n, c, p)] > 0)
    requires CoversIfActive(n, c, p, k, enabled, roots)
    ensures CoversAll(n, {c}, k, enabled, roots)
  {
    forall v | Admissible(n, v) && Consistent(n, k, v) ensures Covers(n, v, {c}, k.visited, enabled, roots) {
      assert CellOk(n, n.cells[c]);
      assert Val(v, Rep(n, n.cells[c].s[p])) == Val(v, n.cells[c].s[p]);
      assert ActiveIs(n, v, c, p);
    }
  }

  /** A port whose select is 0 or known to be inactive is never active. */
  lemma NeverActivePort(n: Netlist, c: nat, p: nat, k: Knowledge, enabled: set<(nat, nat)>, roots: set<nat>)
    requires WellFormed(n) && c < |n.cells| && n.cells[c].Mux? && p < |n.cells[c].s| && Sized(n, k)
    requires Ctrl(n, c, p) == Const(false) || (CtrlSig(n, c, p) >= 0 && k.inactive[CtrlSig(n, c, p)] > 0)
    ensures CoversIfActive(n, c, p, k, enabled, roots)
  {
    forall v | Admissible(n, v) && Consistent(n, k, v) ensures !ActiveIs(n, v, c, p) {
      assert CellOk(n, n.cells[c]);
      assert Val(v, Rep(n, n.cells[c].s[p])) == Val(v, n.cells[c].s[p]);
    }
  }

  lemma SomePortIsActive(n: Netlist, c: nat, k: Knowledge, enabled: set<(nat, nat)>, roots: set<nat>)
    requires WellFormed(n) && c < |n.cells| && n.cells[c].Mux?
    requires forall p :: 0 <= p <= |n.cells[c].s| ==> CoversIfActive(n, c, p, k, enabled, roots)
    ensures CoversAll(n, {c}, k, enabled, roots)
  {
    forall v | Admissible(n, v) && Consistent(n, k, v) ensures Covers(n, v, {c}, k.visited, enabled, roots) {
      assert CellOk(n, n.cells[c]);
      var p := Active(v, n.cells[c]);
      assert CoversIfActive(n, c, p, k, enabled, roots) && ActiveIs(n, v, c, p);
    }
  }

  /** Covering the inputs of a port from the extended knowledge covers the mux if the port is active. */
  lemma PortCovered(n: Netlist, c: nat, p: nat, k: Knowledge, k': Knowledge, enabled: set<(nat, nat)>, roots: set<nat>)
    requires WellFormed(n) && c < |n.cells| && n.cells[c].Mux? && p <= |n.cells[c].s|
    requires ExtendsBy(n, c, p, k, k') && k'.visited == k.visited + InputMuxes(n, c, p)
    requires (c, p) in enabled
    requires CoversAll(n, InputMuxes(n, c, p) - k.visited - roots, k', enabled, roots)
    ensures CoversIfActive(n, c, p, k, enabled, roots)
  {
    forall v | Admissible(n, v) && Consistent(n, k, v) && ActiveIs(n, v, c, p)
      ensures Covers(n, v, {c}, k.visited, enabled, roots)
    {
      assert CellOk(n, n.cells[c]);
      ActivePortExtends(n, c, p, k, k', v);
      CoversMux(n, v, c, p, k.visited, enabled, roots);
    }
  }

  // --------------------------------------------------------- rewritten cells

  /** Cell c keeps its selects; each of its data bits is the original one or a constant. */
  predicate SameShapeAt(n: Netlist, cells: seq<Cell>, c: nat)
    requires c < |n.cells| == |cells|
  {
    match n.cells[c]
    case Removed => cells[c] == Removed
    case Mux(s, d) =>
      && cells[c].Mux? && cells[c].s == s && |cells[c].d| == |d| == |s| + 1
      && (forall p :: 0 <= p < |d| ==> |cells[c].d[p]| == |d[p]|)
      && (forall p, o :: 0 <= p < |d| && 0 <= o < |d[p]| ==>
                           cells[c].d[p][o] == d[p][o] || cells[c].d[p][o].Const?)
  }

  predicate SameShape(n: Netlist, cells: seq<Cell>) {
    |cells| == |n.cells| && forall c :: 0 <= c < |cells| ==> SameShapeAt(n, cells, c)
  }

  /** The bits of the port active under v have the values they had before they were rewritten. */
  predicate ActiveBitsKept(n: Netlist, cells: seq<Cell>, v: Valuation, c: nat)
    requires WellFormed(n) && SameShape(n, cells) && |v| == |n.drv| && c < |cells| && n.cells[c].Mux?
  {
    assert SameShapeAt(n, cells, c) && CellOk(n, n.cells[c]);
    var p := Active(v, n.cells[c]);
    forall o :: 0 <= o < |n.cells[c].d[p]| ==> Val(v, cells[c].d[p][o]) == Val(v, n.cells[c].d[p][o])
  }

  ghost predicate ObservedBitsKept(n: Netlist, cells: seq<Cell>)
    requires WellFormed(n) && SameShape(n, cells)
  {
    forall v, c | Admissible(n, v) && 0 <= c < |cells| && n.cells[c].Mux? && Observed(n, v, c)
      :: ActiveBitsKept(n, cells, v, c)
  }

  /** What may be assumed when mux c is entered with known-bit replacement switched on. */
  ghost predicate Fits(n: Netlist, c: nat, k: Knowledge)
    requires WellFormed(n)
  {
    forall v | Admissible(n, v) && Observed(n, v, c) :: Consistent(n, k, v)
  }

  lemma FitsInput(n: Netlist, c: nat, p: nat, m: nat, k: Knowledge, k': Knowledge)
    requires WellFormed(n) && SinglePort(n)
    requires c < |n.cells| && n.cells[c].Mux? && p <= |n.cells[c].s|
    requires m in InputMuxes(n, c, p) && m !in Roots(n)
    requires Fits(n, c, k) && ExtendsBy(n, c, p, k, k')
    ensures Fits(n, m, k')
  {
    forall v | Admissible(n, v) && Observed(n, v, m) ensures Consistent(n, k', v) {
      ObservedThroughItsPort(n, v, m, c, p);
      ActivePortExtends(n, c, p, k, k', v);
    }
  }

  function SetBit(cells: seq<Cell>, c: nat, p: nat, o: nat, r: Sig): seq<Cell>
    requires c < |cells| && cells[c].Mux? && p < |cells[c].d| && o < |cells[c].d[p]|
  {
    cells[c := cells[c].(d := cells[c].d[p := cells[c].d[p][o := r]])]
  }

  lemma SetBitKeepsObserved(n: Netlist, cells: seq<Cell>, c: nat, p: nat, o: nat, k: Knowledge)
    requires WellFormed(n) && SameShape(n, cells) && Sized(n, k)
    requires c < |cells| && n.cells[c].Mux? && SameShapeAt(n, cells, c) && CellOk(n, n.cells[c])
    requires p < |cells[c].d| && o < |cells[c].d[p]| && InRange(n, cells[c].d[p][o])
    ensures SameShape(n, SetBit(cells, c, p, o, Replaced(n, c, p, k, cells[c].d[p][o])))
    ensures OwnSelectsRight(n) && Fits(n, c, k) && ObservedBitsKept(n, cells) ==>
              ObservedBitsKept(n, SetBit(cells, c, p, o, Replaced(n, c, p, k, cells[c].d[p][o])))
  {
    var t := cells[c].d[p][o];
    var cells' := SetBit(cells, c, p, o, Replaced(n, c, p, k, t));
    forall e | 0 <= e < |cells| ensures SameShapeAt(n, cells', e) {
      assert SameShapeAt(n, cells, e);
    }
    if OwnSelectsRight(n) && Fits(n, c, k) && ObservedBitsKept(n, cells) {
      assert OwnSelectsRightAt(n, c) && SameShapeAt(n, cells, c);
      assert OwnPlaceRight(n, c, p, t);
      forall v, e | Admissible(n, v) && 0 <= e < |cells| && n.cells[e].Mux? && Observed(n, v, e)
        ensures ActiveBitsKept(n, cells', v, e)
      {
        assert ActiveBitsKept(n, cells, v, e) && CellOk(n, n.cells[e]);
        if e == c && p == Active(v, n.cells[c]) {
          ReplacementIsSound(n, c, p, k, t, v);
        }
      }
    }
  }

  /** Every data bit that is a constant stays that constant. */
  predicate KeepsConstants(was: seq<Cell>, now: seq<Cell>) {
    |was| == |now| && forall c :: 0 <= c < |was| ==> ConstantsKeptAt(was[c], now[c])
  }

  predicate ConstantsKeptAt(was: Cell, now: Cell) {
    was.Mux? ==>
      && now.Mux? && |now.d| == |was.d|
      && (forall p :: 0 <= p < |was.d| ==> |now.d[p]| == |was.d[p]|)
      && (forall p, o :: 0 <= p < |was.d| && 0 <= o < |was.d[p]| && was.d[p][o].Const? ==>
                           now.d[p][o] == was.d[p][o])
  }

  lemma NothingChanged(a: seq<Cell>)
    ensures KeepsConstants(a, a)
  {
  }

  lemma ConstantsStillKept(a: seq<Cell>, b: seq<Cell>, c: seq<Cell>)
    requires KeepsConstants(a, b) && KeepsConstants(b, c)
    ensures KeepsConstants(a, c)
  {
    forall e | 0 <= e < |a| ensures ConstantsKeptAt(a[e], c[e]) {
      assert ConstantsKeptAt(a[e], b[e]) && ConstantsKeptAt(b[e], c[e]);
      if a[e].Mux? {
        forall p, o | 0 <= p < |a[e].d| && 0 <= o < |a[e].d[p]| && a[e].d[p][o].Const?
          ensures c[e].d[p][o] == a[e].d[p][o]
        {
          assert b[e].d[p][o] == a[e].d[p][o];
        }
      }
    }
  }

  /** No data bit of mux c is one of its own selects. */
  predicate NoOwnSelects(n: Netlist, cells: seq<Cell>, c: nat)
    requires WellFormed(n) && SameShape(n, cells) && c < |n.cells| && n.cells[c].Mux?
  {
    assert SameShapeAt(n, cells, c) && CellOk(n, n.cells[c]);
    forall p, o :: 0 <= p < |n.cells[c].d| && 0 <= o < |n.cells[c].d[p]| ==>
      (Rep(n, cells[c].d[p][o]).Wire? ==> Rep(n, cells[c].d[p][o]).id !in Numbered(n, c, |n.cells[c].s|))
  }

  lemma StillNoOwnSelects(n: Netlist, was: seq<Cell>, now: seq<Cell>, c: nat)
    requires WellFormed(n) && SameShape(n, was) && SameShape(n, now) && c < |n.cells| && n.cells[c].Mux?
    requires NoOwnSelects(n, was, c) && KeepsConstants(was, now)
    ensures NoOwnSelects(n, now, c)
  {
    hide DriverOk, WellFormed, Numbered;
    assert SameShapeAt(n, was, c) && SameShapeAt(n, now, c) && ConstantsKeptAt(was[c], now[c]);
  }

  /** Of mux c exactly the bits of ports lo to p - 1, and the first o bits of port p, have been replaced. */
  ghost predicate ReplacedTo(n: Netlist, c: nat, lo: nat, p: nat, o: nat, k: Knowledge, was: seq<Cell>, now: seq<Cell>)
    requires WellFormed(n) && SameShape(n, was) && SameShape(n, now) && Sized(n, k)
    requires c < |n.cells| && n.cells[c].Mux?
  {
    assert SameShapeAt(n, was, c) && SameShapeAt(n, now, c) && CellOk(n, n.cells[c]);
    && (forall e :: 0 <= e < |was| && e != c ==> now[e] == was[e])
    && (forall q, i :: 0 <= q < |was[c].d| && 0 <= i < |was[c].d[q]| ==>
                         now[c].d[q][i] == if lo <= q && (q < p || (q == p && i < o))
                                           then Replaced(n, c, q, k, was[c].d[q][i]) else was[c].d[q][i])
  }

  lemma ReplacedOneMore(n: Netlist, c: nat, lo: nat, p: nat, o: nat, k: Knowledge, was: seq<Cell>, now: seq<Cell>)
    requires WellFormed(n) && SameShape(n, was) && SameShape(n, now) && Sized(n, k)
    requires c < |n.cells| && n.cells[c].Mux? && lo <= p <= |n.cells[c].s| && ReplacedTo(n, c, lo, p, o, k, was, now)
    requires SameShapeAt(n, now, c) && CellOk(n, n.cells[c]) && o < |now[c].d[p]|
    requires SameShape(n, SetBit(now, c, p, o, Replaced(n, c, p, k, now[c].d[p][o])))
    ensures ReplacedTo(n, c, lo, p, o + 1, k, was, SetBit(now, c, p, o, Replaced(n, c, p, k, now[c].d[p][o])))
  {
    hide WellFormed, Replaced;
    assert SameShapeAt(n, was, c);
  }

  /** Replacement leaves constants alone; once every port is done no own select is left. */
  lemma ReplacedKeepsConstants(n: Netlist, c: nat, lo: nat, hi: nat, k: Knowledge, was: seq<Cell>, now: seq<Cell>)
    requires WellFormed(n) && SameShape(n, was) && SameShape(n, now) && Sized(n, k)
    requires c < |n.cells| && n.cells[c].Mux? && ReplacedTo(n, c, lo, hi, 0, k, was, now)
    ensures KeepsConstants(was, now)
  {
    hide DriverOk, Numbered, CtrlSig, Rep;
    assert SameShapeAt(n, was, c) && SameShapeAt(n, now, c);
    forall e | 0 <= e < |was| ensures ConstantsKeptAt(was[e], now[e]) {
      if e == c {
        ConstantsNotReplaced(n, c, lo, hi, k, was, now);
      } else {
        assert now[e] == was[e];
      }
    }
  }

  lemma ConstantsNotReplaced(n: Netlist, c: nat, lo: nat, hi: nat, k: Knowledge, was: seq<Cell>, now: seq<Cell>)
    requires WellFormed(n) && SameShape(n, was) && SameShape(n, now) && Sized(n, k)
    requires c < |n.cells| && n.cells[c].Mux? && ReplacedTo(n, c, lo, hi, 0, k, was, now)
    ensures ConstantsKeptAt(was[c], now[c])
  {
    hide DriverOk, Numbered, CtrlSig;
    assert SameShapeAt(n, was, c) && SameShapeAt(n, now, c) && CellOk(n, n.cells[c]);
  }

  lemma AllReplaced(n: Netlist, c: nat, k: Knowledge, was: seq<Cell>, mid: seq<Cell>, now: seq<Cell>)
    requires WellFormed(n) && SameShape(n, was) && SameShape(n, mid) && SameShape(n, now) && Sized(n, k)
    requires c < |n.cells| && n.cells[c].Mux?
    requires ReplacedTo(n, c, |n.cells[c].s|, |n.cells[c].s| + 1, 0, k, was, mid)
    requires ReplacedTo(n, c, 0, |n.cells[c].s|, 0, k, mid, now)
    ensures NoOwnSelects(n, now, c)
  {
    hide DriverOk, Numbered;
    assert SameShapeAt(n, was, c) && SameShapeAt(n, mid, c) && SameShapeAt(n, now, c) && CellOk(n, n.cells[c]);
  }

  ghost function UpTo(k: nat): (s: set<nat>)
    ensures forall i :: i in s <==> 0 <= i < k
  {
    if k == 0 then {} else UpTo(k - 1) + {k - 1}
  }

  lemma InputsAreMuxes(n: Netlist, m: nat, c: nat, p: nat)
    requires WellFormed(n) && c < |n.cells| && n.cells[c].Mux? && p <= |n.cells[c].s|
    requires m in InputMuxes(n, c, p)
    ensures m < |n.cells| && n.cells[m].Mux?
  {
    assert CellOk(n, n.cells[c]);
    var o :| 0 <= o < |n.cells[c].d[p]| && DrivenBy(n, n.cells[c].d[p][o], m);
    assert DriverOk(n, Rep(n, n.cells[c].d[p][o]).id);
  }
}
