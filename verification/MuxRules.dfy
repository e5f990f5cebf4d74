/**
  Exactly when the constant that replaces a known data bit is right, read off the connections.
 */
module MuxRules {
  import opened MuxNetlist
  import opened MuxKnowledge

  predicate ArePorts(n: Netlist, ports: set<(nat, nat)>) {
    forall e :: e in ports ==> e.0 < |n.cells| && n.cells[e.0].Mux? && e.1 <= |n.cells[e.0].s|
  }

  predicate AllActive(n: Netlist, v: Valuation, ports: set<(nat, nat)>)
    requires WellFormed(n) && |v| == |n.drv|
  {
    forall e :: e in ports ==> ActiveIs(n, v, e.0, e.1)
  }

  /** What is known can be true while all these ports are active. */
  ghost predicate Possible(n: Netlist, k: Knowledge, ports: set<(nat, nat)>)
    requires WellFormed(n)
  {
    exists v :: Admissible(n, v) && Consistent(n, k, v) && AllActive(n, v, ports)
  }

  // ------------------------------------------------- on the connections only

  /** Wire x is the select of one of the ports, or known to be active. */
  predicate Demanded(n: Netlist, k: Knowledge, ports: set<(nat, nat)>, x: nat)
    requires WellFormed(n) && Sized(n, k) && ArePorts(n, ports)
  {
    || (exists e :: e in ports && CtrlSig(n, e.0, e.1) == x)
    || (exists b :: 0 <= b < |n.drv| && k.active[b] > 0 && Rep(n, Wire(b)) == Wire(x))
  }

  /** The bit is 1, or demanded to be 1. */
  predicate On(n: Netlist, k: Knowledge, ports: set<(nat, nat)>, t: Sig)
    requires WellFormed(n) && Sized(n, k) && ArePorts(n, ports) && InRange(n, t)
  {
    match Rep(n, t) case Const(x) => x case Wire(x) => Demanded(n, k, ports, x)
  }

  /** Select i of mux c is 1 or demanded to be. */
  predicate SelectOn(n: Netlist, k: Knowledge, ports: set<(nat, nat)>, c: nat, i: nat)
    requires WellFormed(n) && Sized(n, k) && ArePorts(n, ports)
    requires c < |n.cells| && n.cells[c].Mux? && i < |n.cells[c].s|
  {
    assert CellOk(n, n.cells[c]);
    On(n, k, ports, n.cells[c].s[i])
  }

  /** Nothing demanded is constant 0, no other select of these muxes is 1 or demanded, no mux at all has two such
      selects, and nothing demanded is known to be inactive. */
  predicate Satisfiable(n: Netlist, k: Knowledge, ports: set<(nat, nat)>)
    requires WellFormed(n) && Sized(n, k) && ArePorts(n, ports)
  {
    && (forall e :: e in ports && e.1 < |n.cells[e.0].s| ==> Ctrl(n, e.0, e.1) != Const(false))
    && (forall e, i :: e in ports && 0 <= i < |n.cells[e.0].s| && i != e.1 ==> !SelectOn(n, k, ports, e.0, i))
    && (forall c, i, j :: 0 <= c < |n.cells| && n.cells[c].Mux? && 0 <= i < j < |n.cells[c].s| ==>
                            !(SelectOn(n, k, ports, c, i) && SelectOn(n, k, ports, c, j)))
    && (forall b :: 0 <= b < |n.drv| ==> (k.active[b] > 0 ==> Rep(n, Wire(b)) != Const(false))
                                         && (k.inactive[b] > 0 ==> !On(n, k, ports, Wire(b))))
  }

  /** The valuation with nothing set that need not be. */
  function Least(n: Netlist, k: Knowledge, ports: set<(nat, nat)>): (v: Valuation)
    requires WellFormed(n) && Sized(n, k) && ArePorts(n, ports)
    ensures |v| == |n.drv|
  {
    seq(|n.drv|, b requires 0 <= b < |n.drv| => On(n, k, ports, Wire(b)))
  }

  lemma RepOfRep(n: Netlist, t: Sig)
    requires WellFormed(n) && InRange(n, t)
    ensures Rep(n, Rep(n, t)) == Rep(n, t)
  {
  }

  lemma LeastIs(n: Netlist, k: Knowledge, ports: set<(nat, nat)>, t: Sig)
    requires WellFormed(n) && Sized(n, k) && ArePorts(n, ports) && InRange(n, t)
    ensures Val(Least(n, k, ports), t) == On(n, k, ports, t)
    ensures Val(Least(n, k, ports), Rep(n, t)) == On(n, k, ports, t)
  {
    hide Demanded, WellFormed;
    RepOfRep(n, t);
    if Rep(n, t).Const? && t.Wire? { assert On(n, k, ports, t) == Rep(n, t).bit; }
  }

  lemma SelectLeast(n: Netlist, k: Knowledge, ports: set<(nat, nat)>, c: nat, i: nat)
    requires WellFormed(n) && Sized(n, k) && ArePorts(n, ports)
    requires c < |n.cells| && n.cells[c].Mux? && i < |n.cells[c].s|
    ensures InRange(n, n.cells[c].s[i])
    ensures Val(Least(n, k, ports), n.cells[c].s[i]) == SelectOn(n, k, ports, c, i)
  {
    hide On, Least;
    assert CellOk(n, n.cells[c]);
    LeastIs(n, k, ports, n.cells[c].s[i]);
  }

  /** A port is active if its select is set, or it is the default, and no select before it is. */
  lemma ActiveIf(n: Netlist, v: Valuation, c: nat, p: nat)
    requires WellFormed(n) && |v| == |n.drv| && c < |n.cells| && n.cells[c].Mux? && p <= |n.cells[c].s|
    requires forall i :: 0 <= i < |n.cells[c].s| ==> InRange(n, n.cells[c].s[i])
    requires p < |n.cells[c].s| ==> Val(v, n.cells[c].s[p])
    requires forall i :: 0 <= i < p ==> !Val(v, n.cells[c].s[i])
    ensures ActiveIs(n, v, c, p)
  {
    hide WellFormed;
  }

  lemma LeastIsPossible(n: Netlist, k: Knowledge, ports: set<(nat, nat)>)
    requires WellFormed(n) && Sized(n, k) && ArePorts(n, ports) && Satisfiable(n, k, ports)
    ensures Possible(n, k, ports)
  {
    var v := Least(n, k, ports);
    forall e | e in ports ensures ActiveIs(n, v, e.0, e.1) {
      LeastActive(n, k, ports, e.0, e.1);
    }
    LeastAdmissible(n, k, ports);
    LeastConsistent(n, k, ports);
    hide WellFormed, Satisfiable, Admissible, Consistent;
    assert AllActive(n, v, ports);
  }

  lemma LeastActive(n: Netlist, k: Knowledge, ports: set<(nat, nat)>, c: nat, p: nat)
    requires WellFormed(n) && Sized(n, k) && ArePorts(n, ports) && Satisfiable(n, k, ports) && (c, p) in ports
    ensures ActiveIs(n, Least(n, k, ports), c, p)
  {
    hide WellFormed, Least, On;
    forall i | 0 <= i < |n.cells[c].s|
      ensures InRange(n, n.cells[c].s[i])
      ensures Val(Least(n, k, ports), n.cells[c].s[i]) == SelectOn(n, k, ports, c, i)
    {
      SelectLeast(n, k, ports, c, i);
    }
    if p < |n.cells[c].s| { PortDemanded(n, k, ports, c, p); }
    ActiveIf(n, Least(n, k, ports), c, p);
  }

  lemma PortDemanded(n: Netlist, k: Knowledge, ports: set<(nat, nat)>, c: nat, p: nat)
    requires WellFormed(n) && Sized(n, k) && ArePorts(n, ports) && (c, p) in ports && p < |n.cells[c].s|
    requires Ctrl(n, c, p) != Const(false)
    ensures SelectOn(n, k, ports, c, p)
  {
    hide WellFormed, Rep;
    if Ctrl(n, c, p).Wire? { assert CtrlSig(n, c, p) == Ctrl(n, c, p).id; }
  }

  lemma LeastAdmissible(n: Netlist, k: Knowledge, ports: set<(nat, nat)>)
    requires WellFormed(n) && Sized(n, k) && ArePorts(n, ports) && Satisfiable(n, k, ports)
    ensures Admissible(n, Least(n, k, ports))
  {
    hide Least, On;
    var v := Least(n, k, ports);
    forall t: Sig | InRange(n, t) ensures Val(v, Rep(n, t)) == Val(v, t) {
      LeastIs(n, k, ports, t);
    }
    hide DriverOk, Rep, SelectOn;
    forall c, i, j | 0 <= c < |n.cells| && n.cells[c].Mux? && 0 <= i < j < |n.cells[c].s|
      ensures InRange(n, n.cells[c].s[i]) && InRange(n, n.cells[c].s[j])
      ensures !(Val(v, n.cells[c].s[i]) && Val(v, n.cells[c].s[j]))
    {
      SelectLeast(n, k, ports, c, i);
      SelectLeast(n, k, ports, c, j);
    }
  }

  lemma LeastConsistent(n: Netlist, k: Knowledge, ports: set<(nat, nat)>)
    requires WellFormed(n) && Sized(n, k) && ArePorts(n, ports) && Satisfiable(n, k, ports)
    ensures Consistent(n, k, Least(n, k, ports))
  {
    hide WellFormed, Rep, SelectOn;
    forall b | 0 <= b < |n.drv| && k.active[b] > 0 ensures On(n, k, ports, Wire(b)) {
      assert InRange(n, Wire(b));
    }
  }

  /** Whatever is 1 or demanded is 1 under every valuation in question. */
  lemma LeastIsLeast(n: Netlist, k: Knowledge, ports: set<(nat, nat)>, v: Valuation, t: Sig)
    requires WellFormed(n) && Sized(n, k) && ArePorts(n, ports) && InRange(n, t)
    requires Admissible(n, v) && Consistent(n, k, v) && AllActive(n, v, ports) && On(n, k, ports, t)
    ensures Val(v, t)
  {
    hide DriverOk;
    assert Val(v, Rep(n, t)) == Val(v, t);
    if Rep(n, t).Wire? {
      var x := Rep(n, t).id;
      if e :| e in ports && CtrlSig(n, e.0, e.1) == x {
        var c, p := e.0, e.1;
        assert ActiveIs(n, v, c, p) && CellOk(n, n.cells[c]);
        assert Val(v, Rep(n, n.cells[c].s[p])) == Val(v, n.cells[c].s[p]);
      } else {
        var b :| 0 <= b < |n.drv| && k.active[b] > 0 && Rep(n, Wire(b)) == Wire(x);
        assert Val(v, Rep(n, Wire(b))) == Val(v, Wire(b));
      }
    }
  }

  /** With port p active no other select is set. */
  lemma OthersOff(n: Netlist, v: Valuation, c: nat, p: nat, i: nat)
    requires WellFormed(n) && Admissible(n, v) && ActiveIs(n, v, c, p) && i < |n.cells[c].s| && i != p
    ensures InRange(n, n.cells[c].s[i]) && !Val(v, n.cells[c].s[i])
  {
    hide DriverOk;
    assert CellOk(n, n.cells[c]);
  }

  lemma PossibleIsSatisfiable(n: Netlist, k: Knowledge, ports: set<(nat, nat)>)
    requires WellFormed(n) && Sized(n, k) && ArePorts(n, ports) && Possible(n, k, ports)
    ensures Satisfiable(n, k, ports)
  {
    var v :| Admissible(n, v) && Consistent(n, k, v) && AllActive(n, v, ports);
    forall c, i | 0 <= c < |n.cells| && n.cells[c].Mux? && 0 <= i < |n.cells[c].s| && SelectOn(n, k, ports, c, i)
      ensures InRange(n, n.cells[c].s[i]) && Val(v, n.cells[c].s[i])
    {
      assert CellOk(n, n.cells[c]);
      LeastIsLeast(n, k, ports, v, n.cells[c].s[i]);
    }
    forall e, i | e in ports && 0 <= i < |n.cells[e.0].s| && i != e.1 ensures !SelectOn(n, k, ports, e.0, i) {
      assert ActiveIs(n, v, e.0, e.1);
      OthersOff(n, v, e.0, e.1, i);
    }
    forall e | e in ports && e.1 < |n.cells[e.0].s| ensures Ctrl(n, e.0, e.1) != Const(false) {
      var c, p := e.0, e.1;
      assert ActiveIs(n, v, c, p) && CellOk(n, n.cells[c]);
      assert Val(v, Rep(n, n.cells[c].s[p])) == Val(v, n.cells[c].s[p]);
    }
    forall b | 0 <= b < |n.drv|
      ensures (k.active[b] > 0 ==> Rep(n, Wire(b)) != Const(false)) && (k.inactive[b] > 0 ==> !On(n, k, ports, Wire(b)))
    {
      assert Val(v, Rep(n, Wire(b))) == Val(v, Wire(b));
      if On(n, k, ports, Wire(b)) { LeastIsLeast(n, k, ports, v, Wire(b)); }
    }
  }

  /** Ports can be active together, as far as selects and connections tell, exactly if this is satisfiable. */
  lemma PossibleExactly(n: Netlist, k: Knowledge, ports: set<(nat, nat)>)
    requires WellFormed(n) && Sized(n, k) && ArePorts(n, ports)
    ensures Possible(n, k, ports) <==> Satisfiable(n, k, ports)
  {
    hide WellFormed, Possible, Satisfiable;
    if Possible(n, k, ports) { PossibleIsSatisfiable(n, k, ports); }
    if Satisfiable(n, k, ports) { LeastIsPossible(n, k, ports); }
  }

  // -------------------------------------------------------------- the rules

  /** With knowledge k written, the constant for a bit of port q of mux m is right whenever the ports are active
      and what is known outside them is true. */
  ghost predicate RightWhen(n: Netlist, outside: Knowledge, ports: set<(nat, nat)>, m: nat, q: nat, k: Knowledge,
                            t: Sig)
    requires WellFormed(n) && m < |n.cells| && n.cells[m].Mux? && q <= |n.cells[m].s| && Sized(n, k) && InRange(n, t)
  {
    forall v | Admissible(n, v) && Consistent(n, outside, v) && AllActive(n, v, ports)
      :: Val(v, Replaced(n, m, q, k, t)) == Val(v, t)
  }

  /** For a data bit that is a select of its own mux, whatever is known: the constant written is right if and
      only if the place is right or the port cannot be active. */
  lemma OwnSelectRule(n: Netlist, outside: Knowledge, c: nat, p: nat, k: Knowledge, t: Sig)
    requires WellFormed(n) && c < |n.cells| && n.cells[c].Mux? && p <= |n.cells[c].s| && Sized(n, k) && InRange(n, t)
    requires Sized(n, outside) && Rep(n, t).Wire? && Rep(n, t).id in Numbered(n, c, |n.cells[c].s|)
    ensures RightWhen(n, outside, {(c, p)}, c, p, k, t)
            <==> OwnPlaceRight(n, c, p, t) || !Satisfiable(n, outside, {(c, p)})
  {
    hide DriverOk, Numbered, Satisfiable;
    PossibleExactly(n, outside, {(c, p)});
    var x := Rep(n, t);
    forall v | Admissible(n, v) && AllActive(n, v, {(c, p)})
      ensures (Val(v, Replaced(n, c, p, k, t)) == Val(v, t)) <==> OwnPlaceRight(n, c, p, t)
    {
      assert Val(v, x) == Val(v, t) && (c, p) in {(c, p)};
      OwnValue(n, c, p, x.id, v);
    }
  }

  /** What is known about wire x behind port p of mux c is wrong behind port p': x is the select of p', or it is
      the select of p and of no other port and was not known to be inactive before. */
  predicate Misleads(n: Netlist, c: nat, p: nat, p': nat, k: Knowledge, x: nat)
    requires WellFormed(n) && c < |n.cells| && n.cells[c].Mux? && p <= |n.cells[c].s| && p' <= |n.cells[c].s|
    requires Sized(n, k) && x < |n.drv|
  {
    || CtrlSig(n, c, p') == x
    || (CtrlSig(n, c, p) == x && k.inactive[x] == 0
        && forall j :: 0 <= j < |n.cells[c].s| && j != p ==> CtrlSig(n, c, j) != x)
  }

  lemma CountedOther(n: Netlist, c: nat, p: nat, j: nat, x: nat)
    requires WellFormed(n) && c < |n.cells| && n.cells[c].Mux? && p <= |n.cells[c].s|
    requires j <= |n.cells[c].s| && j != p && CtrlSig(n, c, j) == x
    ensures Count(n, c, p, |n.cells[c].s| + 1, x) > 0
  {
    hide WellFormed, CtrlSig;
    assert Count(n, c, p, j + 1, x) > 0;
    CountIsMonotone(n, c, p, j + 1, |n.cells[c].s| + 1, x);
  }

  /** The constant written behind port p for a known bit, and its value with port p' active. */
  lemma SharedValue(n: Netlist, c: nat, p: nat, p': nat, k: Knowledge, k': Knowledge, x: nat, v: Valuation)
    requires WellFormed(n) && c < |n.cells| && n.cells[c].Mux? && p <= |n.cells[c].s| && p' <= |n.cells[c].s| && p != p'
    requires ExtendsBy(n, c, p, k, k') && x < |n.drv| && (k'.inactive[x] > 0 || k'.active[x] > 0)
    requires Admissible(n, v) && Consistent(n, k, v) && ActiveIs(n, v, c, p')
    ensures (v[x] != (k'.inactive[x] == 0)) <==> Misleads(n, c, p, p', k, x)
  {
    hide DriverOk, Count;
    var s := n.cells[c].s;
    assert CellOk(n, n.cells[c]);
    forall j | 0 <= j < |s| && CtrlSig(n, c, j) == x ensures v[x] == (j == p') {
      assert Val(v, Rep(n, s[j])) == Val(v, s[j]);
      if j != p' { OthersOff(n, v, c, p', j); }
    }
    if j :| 0 <= j < |s| && j != p && CtrlSig(n, c, j) == x {
      CountedOther(n, c, p, j, x);
    } else if Count(n, c, p, |s| + 1, x) > 0 {
      var j := CountedMeansOtherPort(n, c, p, |s| + 1, x);
      assert false;
    }
  }

  /** A mux m that port p of mux c is left through, read through port p' as well. For every bit known behind port
      p that is no select of m itself: the constant written is right below p' if and only if what is known does
      not mislead there or the two ports cannot be active together. */
  lemma SharedPortRule(n: Netlist, c: nat, p: nat, p': nat, m: nat, q: nat, k: Knowledge, k': Knowledge, t: Sig)
    requires WellFormed(n) && c < |n.cells| && n.cells[c].Mux? && p <= |n.cells[c].s| && p' <= |n.cells[c].s| && p != p'
    requires m < |n.cells| && n.cells[m].Mux? && q <= |n.cells[m].s| && ExtendsBy(n, c, p, k, k') && InRange(n, t)
    requires Rep(n, t).Wire? && Rep(n, t).id !in Numbered(n, m, |n.cells[m].s|)
    requires k'.inactive[Rep(n, t).id] > 0 || k'.active[Rep(n, t).id] > 0
    ensures Replaced(n, m, q, k', t) == Const(k'.inactive[Rep(n, t).id] == 0)
    ensures RightWhen(n, k, {(c, p'), (m, q)}, m, q, k', t)
            <==> !Misleads(n, c, p, p', k, Rep(n, t).id) || !Satisfiable(n, k, {(c, p'), (m, q)})
  {
    hide DriverOk, Numbered, Satisfiable, Misleads;
    var ports := {(c, p'), (m, q)};
    PossibleExactly(n, k, ports);
    var x := Rep(n, t).id;
    assert Replaced(n, m, q, k', t) == Const(k'.inactive[x] == 0);
    forall v | Admissible(n, v) && Consistent(n, k, v) && AllActive(n, v, ports)
      ensures (Val(v, Replaced(n, m, q, k', t)) == Val(v, t)) <==> !Misleads(n, c, p, p', k, x)
    {
      assert (c, p') in ports && Val(v, Rep(n, t)) == Val(v, t);
      SharedValue(n, c, p, p', k, k', x, v);
    }
  }

  /** With pairwise distinct selects, and nothing known about the bit before: it misleads exactly if it is the
      select of one of the two ports. */
  lemma DistinctMisleads(n: Netlist, c: nat, p: nat, p': nat, k: Knowledge, x: nat)
    requires WellFormed(n) && DistinctSelects(n) && c < |n.cells| && n.cells[c].Mux?
    requires p <= |n.cells[c].s| && p' <= |n.cells[c].s| && Sized(n, k) && x < |n.drv| && k.inactive[x] == 0
    ensures Misleads(n, c, p, p', k, x) <==> x == CtrlSig(n, c, p) || x == CtrlSig(n, c, p')
  {
    hide WellFormed, Ctrl;
  }
}
