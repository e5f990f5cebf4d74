/**
  Questions about an and-inverter graph given as a list of nodes: is it sorted, which named signals
  influence a wire, and which of them explain its value in a trace.
 */
module AigQueries {
  datatype Node = And(fanin0: nat, fanin1: nat) | Leaf

  datatype Option<T> = None | Some(value: T)

  /** Literal 2n is node n, literal 2n + 1 its negation; node 0 is the constant false. */
  function NodeOf(l: nat): nat {
    l / 2
  }

  // ------------------------------------------------------------------- order

  /** The node may be read before node i is computed. */
  predicate KnownBefore(nodes: seq<Node>, sources: set<nat>, f: nat, i: nat) {
    f < |nodes| && (f in sources || (f < i && nodes[f].And?))
  }

  predicate Sorted(nodes: seq<Node>, sources: set<nat>, i: nat)
    requires i < |nodes|
  {
    nodes[i].And? ==>
      KnownBefore(nodes, sources, NodeOf(nodes[i].fanin0), i) && KnownBefore(nodes, sources, NodeOf(nodes[i].fanin1), i)
  }

  /** False stands for an abort. Accepts exactly the graphs whose gates read only constants, inputs,
      latches and earlier gates, and whose next states are among these. */
  method CheckAig(nodes: seq<Node>, inputs: seq<nat>, latches: seq<nat>, nexts: seq<nat>) returns (r: bool)
    requires |nodes| > 0 && (forall f :: f in inputs || f in latches ==> f < |nodes|)
    ensures var sources := {0} + (set f | f in inputs) + (set f | f in latches);
            r <==> (forall i :: 0 <= i < |nodes| ==> Sorted(nodes, sources, i))
                   && (forall l :: l in nexts ==> KnownBefore(nodes, sources, NodeOf(l), |nodes|))
    ensures r && nodes[0].Leaf? && (forall f :: f in inputs || f in latches ==> nodes[f].Leaf?) ==> Graph(nodes)
  {
    ghost var sources := {0} + (set f | f in inputs) + (set f | f in latches);
    var ok := {0};
    for i := 0 to |inputs|
      invariant ok == {0} + (set f | f in inputs[..i])
    {
      ok := ok + {inputs[i]};
    }
    assert inputs[..|inputs|] == inputs;
    for i := 0 to |latches|
      invariant ok == {0} + (set f | f in inputs) + (set f | f in latches[..i])
    {
      ok := ok + {latches[i]};
    }
    assert latches[..|latches|] == latches;
    for i := 0 to |nodes|
      invariant forall f: nat :: f in ok <==> KnownBefore(nodes, sources, f, i)
      invariant forall k :: 0 <= k < i ==> Sorted(nodes, sources, k)
    {
      if nodes[i].And? {
        if NodeOf(nodes[i].fanin0) !in ok || NodeOf(nodes[i].fanin1) !in ok {
          assert !Sorted(nodes, sources, i);
          return false;
        }
        ok := ok + {i};
      }
    }
    for i := 0 to |nexts|
      invariant forall l :: l in nexts[..i] ==> KnownBefore(nodes, sources, NodeOf(l), |nodes|)
    {
      if NodeOf(nexts[i]) !in ok { return false; }
    }
    assert nexts[..|nexts|] == nexts;
    r := true;
    if nodes[0].Leaf? && (forall f :: f in inputs || f in latches ==> nodes[f].Leaf?) {
      CheckedIsGraph(nodes, sources);
    }
  }

  // -------------------------------------------------------------- evaluation

  /** Gates read existing nodes; the rank falls from a gate to the nodes it reads. */
  predicate Graph(nodes: seq<Node>) {
    && |nodes| > 0 && nodes[0].Leaf?
    && forall i :: 0 <= i < |nodes| && nodes[i].And? ==>
         Below(nodes, NodeOf(nodes[i].fanin0), i) && Below(nodes, NodeOf(nodes[i].fanin1), i)
  }

  /** What is accepted by the check is such a graph if the constant, the inputs and the latches are no gates. */
  lemma CheckedIsGraph(nodes: seq<Node>, sources: set<nat>)
    requires |nodes| > 0 && 0 in sources && forall f :: f in sources && f < |nodes| ==> nodes[f].Leaf?
    requires forall i :: 0 <= i < |nodes| ==> Sorted(nodes, sources, i)
    ensures Graph(nodes)
  {
    forall i | 0 <= i < |nodes| && nodes[i].And?
      ensures Below(nodes, NodeOf(nodes[i].fanin0), i) && Below(nodes, NodeOf(nodes[i].fanin1), i)
    {
      assert Sorted(nodes, sources, i);
    }
  }

  predicate Below(nodes: seq<Node>, f: nat, i: nat) {
    f < |nodes| && (nodes[f].Leaf? || f < i)
  }

  function Rank(nodes: seq<Node>, i: nat): nat
    requires i < |nodes|
  {
    if nodes[i].Leaf? then 0 else i + 1
  }

  type Valuation = nat -> bool

  predicate Edge(val: Valuation, l: nat) {
    val(NodeOf(l)) != (l % 2 == 1)
  }

  ghost predicate Evaluates(nodes: seq<Node>, val: Valuation) {
    !val(0) && forall i :: 0 <= i < |nodes| && nodes[i].And? ==> GateHolds(nodes, val, i)
  }

  predicate GateHolds(nodes: seq<Node>, val: Valuation, i: nat)
    requires i < |nodes| && nodes[i].And?
  {
    val(i) == (Edge(val, nodes[i].fanin0) && Edge(val, nodes[i].fanin1))
  }

  /** Some leaf is given the opposite value; the gates follow. */
  predicate Flipped(nodes: seq<Node>, val: Valuation, q: nat, i: nat)
    requires Graph(nodes) && i < |nodes|
    decreases Rank(nodes, i)
  {
    match nodes[i]
    case Leaf => if i == q then !val(i) else val(i)
    case And(f0, f1) =>
      (Flipped(nodes, val, q, NodeOf(f0)) != (f0 % 2 == 1)) && (Flipped(nodes, val, q, NodeOf(f1)) != (f1 % 2 == 1))
  }

  // ------------------------------------------------------------ reachability

  type Next = nat -> set<nat>

  predicate IsPath(next: Next, starts: set<nat>, path: seq<nat>) {
    && path != [] && path[0] in starts
    && forall i :: 0 <= i < |path| - 1 ==> path[i + 1] in next(path[i])
  }

  ghost predicate Reachable(next: Next, starts: set<nat>, m: nat) {
    exists path: seq<nat> :: IsPath(next, starts, path) && path[|path| - 1] == m
  }

  lemma ReachStart(next: Next, starts: set<nat>, m: nat)
    requires m in starts
    ensures Reachable(next, starts, m)
  {
    assert IsPath(next, starts, [m]) && [m][0] == m;
  }

  lemma ReachNext(next: Next, starts: set<nat>, m: nat, k: nat)
    requires Reachable(next, starts, m) && k in next(m)
    ensures Reachable(next, starts, k)
  {
    var path: seq<nat> :| IsPath(next, starts, path) && path[|path| - 1] == m;
    assert IsPath(next, starts, path + [k]);
    assert (path + [k])[|path + [k]| - 1] == k;
  }

  lemma ReachMore(next: Next, starts: set<nat>, more: set<nat>, m: nat)
    requires Reachable(next, starts, m) && starts <= more
    ensures Reachable(next, more, m)
  {
    var path: seq<nat> :| IsPath(next, starts, path) && path[|path| - 1] == m;
    assert IsPath(next, more, path);
  }

  /** A set that holds the starts and everything next to it holds everything reachable. */
  lemma {:induction false} ClosedHoldsAll(next: Next, starts: set<nat>, closed: set<nat>, path: seq<nat>)
    requires starts <= closed && forall e :: e in closed ==> next(e) <= closed
    requires IsPath(next, starts, path)
    ensures path[|path| - 1] in closed
    decreases |path|
  {
    if |path| > 1 {
      assert IsPath(next, starts, path[..|path| - 1]);
      ClosedHoldsAll(next, starts, closed, path[..|path| - 1]);
      assert path[|path| - 1] in next(path[|path| - 2]);
    }
  }

  /** What the searches keep: everything met is reachable; what has been looked at has its successors
      looked at or waiting; what counts as visited has been looked at or waits. */
  ghost predicate Searching(next: Next, starts: set<nat>, named: set<nat>, explored: set<nat>, waiting: seq<nat>,
                            visited: set<nat>, found: set<nat>)
  {
    && (forall e :: e in explored || e in waiting ==> Reachable(next, starts, e))
    && (forall e, k :: e in explored && k in next(e) ==> k in explored || k in waiting)
    && (forall e :: e in starts || e in visited ==> e in explored || e in waiting)
    && (forall e :: e in found <==> e in explored && e in named)
  }

  /** The named nodes that can be reached. */
  ghost predicate IsAnswer(next: Next, starts: set<nat>, named: set<nat>, found: set<nat>) {
    forall e :: e in found <==> e in named && Reachable(next, starts, e)
  }

  lemma SearchDone(next: Next, starts: set<nat>, named: set<nat>, explored: set<nat>, visited: set<nat>,
                   found: set<nat>)
    requires Searching(next, starts, named, explored, [], visited, found)
    ensures IsAnswer(next, starts, named, found)
  {
    forall e | Reachable(next, starts, e) ensures e in explored {
      var path: seq<nat> :| IsPath(next, starts, path) && path[|path| - 1] == e;
      ClosedHoldsAll(next, starts, explored, path);
    }
  }

  /** The last waiting node has been looked at; the new nodes wait instead. */
  lemma Looked(next: Next, starts: set<nat>, named: set<nat>, explored: set<nat>, waiting: seq<nat>, visited: set<nat>,
               found: set<nat>, added: seq<nat>, visited': set<nat>, found': set<nat>)
    requires waiting != [] && Searching(next, starts, named, explored, waiting, visited, found)
    requires var m := waiting[|waiting| - 1];
             && (forall k :: k in next(m) ==> k in added || k in visited)
             && (forall k :: k in added ==> k in next(m))
             && (forall k :: k in visited' ==> k in visited || k in added)
             && found' == (if m in named then found + {m} else found)
    ensures var m := waiting[|waiting| - 1];
            Searching(next, starts, named, explored + {m}, waiting[..|waiting| - 1] + added, visited', found')
  {
    var m, rest := waiting[|waiting| - 1], waiting[..|waiting| - 1];
    assert waiting == rest + [m];
    forall k | k in added ensures Reachable(next, starts, k) {
      ReachNext(next, starts, m, k);
    }
  }

  // ------------------------------------------------------- cone of influence

  /** The nodes read by a node, if the search goes on there. */
  function Fanins(nodes: seq<Node>, named: set<nat>): Next {
    (m: nat) =>
      if m < |nodes| && m !in named && nodes[m].And? then {NodeOf(nodes[m].fanin0), NodeOf(nodes[m].fanin1)} else {}
  }

  /** The nodes read by the query bits that are gates. */
  function Starts(nodes: seq<Node>, bits: seq<nat>): set<nat>
    requires forall b :: b in bits ==> NodeOf(b) < |nodes|
  {
    if bits == [] then {}
    else
      var b := NodeOf(bits[|bits| - 1]);
      Starts(nodes, bits[..|bits| - 1])
      + if nodes[b].And? then {NodeOf(nodes[b].fanin0), NodeOf(nodes[b].fanin1)} else {}
  }

  predicate InRange(nodes: seq<Node>, waiting: seq<nat>) {
    forall i :: 0 <= i < |waiting| ==> waiting[i] < |nodes|
  }

  /** The search for one query bit more. */
  lemma MoreStarts(next: Next, starts: set<nat>, more: set<nat>, named: set<nat>, explored: set<nat>,
                   visited: set<nat>, found: set<nat>, added: seq<nat>)
    requires Searching(next, starts, named, explored, [], visited, found)
    requires starts <= more && (forall k :: k in more ==> k in starts || k in added)
        && (forall k :: k in added ==> k in more)
    ensures Searching(next, more, named, explored, added, visited, found)
  {
    forall e | e in explored || e in added ensures Reachable(next, more, e) {
      if e in explored { ReachMore(next, starts, more, e); } else { ReachStart(next, more, e); }
    }
  }

  function EdgesLeft(nodes: seq<Node>, visited: set<nat>): nat {
    |Upto(2 * |nodes|) - visited|
  }

  method VisitEdge(nodes: seq<Node>, visited: set<nat>, toVisit: seq<nat>, l: nat)
    returns (visited': set<nat>, toVisit': seq<nat>, ghost added: seq<nat>)
    requires InRange(nodes, toVisit) && NodeOf(l) < |nodes|
    ensures added == (if l in visited then [] else [NodeOf(l)])
    ensures visited' == visited + {l} && toVisit' == toVisit + added && InRange(nodes, toVisit')
    ensures if l in visited then visited' == visited else EdgesLeft(nodes, visited') < EdgesLeft(nodes, visited)
  {
    visited', toVisit', added := visited, toVisit, [];
    if l !in visited {
      FewerLeft(Upto(2 * |nodes|), visited, l);
      visited' := visited + {l};
      toVisit' := toVisit + [NodeOf(l)];
      added := [NodeOf(l)];
    } else {
      assert visited == visited + {l};
    }
  }

  /** What is printed for a set of nodes: each with the mark of a gate, as the mark is that of the query bit. */
  function WithMark(found: set<nat>): set<(nat, bool)> {
    set m | m in found :: (m, true)
  }

  /** Looks at the last waiting node, searching from query bit q. */
  method CoiStep(nodes: seq<Node>, named: set<nat>, q: nat, waiting: seq<nat>, visited: set<nat>,
                 printed: set<(nat, bool)>, ghost starts: set<nat>, ghost explored: set<nat>, ghost seen: set<nat>,
                 ghost found: set<nat>)
    returns (toVisit: seq<nat>, visited': set<nat>, printed': set<(nat, bool)>, ghost seen': set<nat>,
             ghost found': set<nat>)
    requires Graph(nodes) && waiting != [] && InRange(nodes, waiting) && EdgesSeen(nodes, visited, seen)
    requires q < |nodes| && nodes[q].And? && printed == WithMark(found)
    requires Searching(Fanins(nodes, named), starts, named, explored, waiting, seen, found)
    ensures InRange(nodes, toVisit) && EdgesSeen(nodes, visited', seen') && printed' == WithMark(found')
    ensures Searching(Fanins(nodes, named), starts, named, explored + {waiting[|waiting| - 1]}, toVisit, seen', found')
    ensures EdgesLeft(nodes, visited') < EdgesLeft(nodes, visited) || (visited' == visited && |toVisit| < |waiting|)
  {
    hide Reachable, Searching, EdgesLeft, IsPath;
    var m := waiting[|waiting| - 1];
    toVisit, visited', printed', seen', found' := waiting[..|waiting| - 1], visited, printed, seen, found;
    ghost var added: seq<nat> := [];
    if m in named {
      printed' := printed + {(m, nodes[q].And?)};
      found' := found + {m};
    } else if nodes[m].And? {
      assert Below(nodes, NodeOf(nodes[m].fanin0), m) && Below(nodes, NodeOf(nodes[m].fanin1), m);
      ghost var added0, added1;
      visited', toVisit, added0 := VisitEdge(nodes, visited', toVisit, nodes[m].fanin0);
      visited', toVisit, added1 := VisitEdge(nodes, visited', toVisit, nodes[m].fanin1);
      added := added0 + added1;
      seen' := seen + {NodeOf(nodes[m].fanin0), NodeOf(nodes[m].fanin1)};
      assert Fanins(nodes, named)(m) == {NodeOf(nodes[m].fanin0), NodeOf(nodes[m].fanin1)};
      forall k | k in seen' ensures k in seen || k in added {}
    }
    Looked(Fanins(nodes, named), starts, named, explored, waiting, seen, found, added, seen', found');
    assert toVisit == waiting[..|waiting| - 1] + added;
  }

  /** One query bit: a node is waiting for each edge met for the first time. */
  method CoiSearch(nodes: seq<Node>, named: set<nat>, q: nat, toVisit0: seq<nat>, visited0: set<nat>,
                   printed0: set<(nat, bool)>, ghost starts: set<nat>, ghost explored0: set<nat>, ghost seen0: set<nat>,
                   ghost found0: set<nat>)
    returns (visited: set<nat>, printed: set<(nat, bool)>, ghost explored: set<nat>, ghost seen: set<nat>,
             ghost found: set<nat>)
    requires Graph(nodes) && InRange(nodes, toVisit0) && EdgesSeen(nodes, visited0, seen0)
    requires q < |nodes| && nodes[q].And? && printed0 == WithMark(found0)
    requires Searching(Fanins(nodes, named), starts, named, explored0, toVisit0, seen0, found0)
    ensures EdgesSeen(nodes, visited, seen) && printed == WithMark(found)
    ensures Searching(Fanins(nodes, named), starts, named, explored, [], seen, found)
  {
    hide Reachable, Searching, EdgesLeft, InRange, EdgesSeen, Fanins, Graph, WithMark;
    var toVisit := toVisit0;
    visited, printed, explored, seen, found := visited0, printed0, explored0, seen0, found0;
    while toVisit != []
      invariant Searching(Fanins(nodes, named), starts, named, explored, toVisit, seen, found)
      invariant InRange(nodes, toVisit) && EdgesSeen(nodes, visited, seen) && printed == WithMark(found)
      decreases EdgesLeft(nodes, visited), |toVisit|
    {
      ghost var m := toVisit[|toVisit| - 1];
      toVisit, visited, printed, seen, found :=
        CoiStep(nodes, named, q, toVisit, visited, printed, starts, explored, seen, found);
      explored := explored + {m};
    }
  }

  ghost predicate EdgesSeen(nodes: seq<Node>, visited: set<nat>, seen: set<nat>) {
    forall l :: l in visited ==> l < 2 * |nodes| && NodeOf(l) in seen
  }

  /** All named nodes that a query bit depends on through unnamed gates, every one marked as a gate, be it one
      or not. */
  method Coi(nodes: seq<Node>, named: set<nat>, bits: seq<nat>) returns (printed: set<(nat, bool)>)
    requires Graph(nodes) && forall b :: b in bits ==> NodeOf(b) < |nodes|
    ensures forall m, mark :: (m, mark) in printed <==>
              mark && m in named && Reachable(Fanins(nodes, named), Starts(nodes, bits), m)
    ensures forall m, mark :: (m, mark) in printed <==>
              mark && m in named && InCone(nodes, named, bits, m)
  {
    hide Reachable, InCone;
    var visited: set<nat> := {};
    printed := {};
    ghost var explored: set<nat>, seen: set<nat>, found: set<nat> := {}, {}, {};
    assert printed == WithMark(found);
    for i := 0 to |bits|
      invariant Searching(Fanins(nodes, named), Starts(nodes, bits[..i]), named, explored, [], seen, found)
      invariant EdgesSeen(nodes, visited, seen) && printed == WithMark(found)
    {
      var b := NodeOf(bits[i]);
      StartsGrow(nodes, bits, i);
      if nodes[b].And? {
        var toVisit := [NodeOf(nodes[b].fanin0), NodeOf(nodes[b].fanin1)];
        assert Below(nodes, NodeOf(nodes[b].fanin0), b) && Below(nodes, NodeOf(nodes[b].fanin1), b);
        ghost var starts := Starts(nodes, bits[..i + 1]);
        MoreStarts(Fanins(nodes, named), Starts(nodes, bits[..i]), starts, named, explored, seen, found, toVisit);
        visited, printed, explored, seen, found :=
          CoiSearch(nodes, named, b, toVisit, visited, printed, starts, explored, seen, found);
      } else {
        assert Starts(nodes, bits[..i + 1]) == Starts(nodes, bits[..i]);
      }
    }
    assert bits[..|bits|] == bits;
    SearchDone(Fanins(nodes, named), Starts(nodes, bits), named, explored, seen, found);
    ConesReached(nodes, named, bits);
  }

  lemma StartsGrow(nodes: seq<Node>, bits: seq<nat>, i: nat)
    requires i < |bits| && forall b :: b in bits ==> NodeOf(b) < |nodes|
    ensures var b := NodeOf(bits[i]);
            Starts(nodes, bits[..i + 1])
            == Starts(nodes, bits[..i])
               + if nodes[b].And? then {NodeOf(nodes[b].fanin0), NodeOf(nodes[b].fanin1)} else {}
  {
    assert bits[..i + 1][..i] == bits[..i];
  }

  function Upto(n: nat): (r: set<nat>)
    ensures forall l: nat :: l in r <==> l < n
  {
    if n == 0 then {} else Upto(n - 1) + {n - 1}
  }

  lemma FewerLeft(all: set<nat>, visited: set<nat>, l: nat)
    requires l in all && l !in visited
    ensures |all - (visited + {l})| < |all - visited|
  {
    assert all - visited == (all - (visited + {l})) + {l};
  }

  // -------------------------------------------------------- reasons in a trace

  datatype Tri = False | True | Unknown

  function EdgeValue(sim: seq<Tri>, l: nat): Tri
    requires NodeOf(l) < |sim|
  {
    if l % 2 == 0 || sim[NodeOf(l)] == Unknown then sim[NodeOf(l)]
    else if sim[NodeOf(l)] == True then False
    else True
  }

  /** The search can tell what is responsible for the value of gate m. */
  predicate KnownGate(nodes: seq<Node>, sim: seq<Tri>, m: nat)
    requires Graph(nodes) && |sim| == |nodes| && m < |nodes| && nodes[m].And?
  {
    assert Below(nodes, NodeOf(nodes[m].fanin0), m) && Below(nodes, NodeOf(nodes[m].fanin1), m);
    EdgeValue(sim, nodes[m].fanin0) != Unknown && EdgeValue(sim, nodes[m].fanin1) != Unknown
  }

  /** Both fanins when they agree, otherwise the false one. */
  function Responsible(nodes: seq<Node>, sim: seq<Tri>, m: nat): set<nat>
    requires Graph(nodes) && |sim| == |nodes| && m < |nodes| && nodes[m].And?
  {
    assert Below(nodes, NodeOf(nodes[m].fanin0), m) && Below(nodes, NodeOf(nodes[m].fanin1), m);
    var f0, f1 := nodes[m].fanin0, nodes[m].fanin1;
    if (EdgeValue(sim, f0) == True) == (EdgeValue(sim, f1) == True) then {NodeOf(f0), NodeOf(f1)}
    else if EdgeValue(sim, f0) == True then {NodeOf(f1)}
    else {NodeOf(f0)}
  }

  function Reasons(nodes: seq<Node>, named: set<nat>, sim: seq<Tri>): Next
    requires Graph(nodes) && |sim| == |nodes|
  {
    (m: nat) requires Graph(nodes) && |sim| == |nodes| =>
      if m < |nodes| && m !in named && nodes[m].And? then Responsible(nodes, sim, m) else {}
  }

  /** The simulation knows the inputs of gate m, or the search does not go on there. */
  predicate KnownAt(nodes: seq<Node>, named: set<nat>, sim: seq<Tri>, m: nat)
    requires Graph(nodes) && |sim| == |nodes|
  {
    m < |nodes| && m !in named && nodes[m].And? ==> KnownGate(nodes, sim, m)
  }

  ghost predicate AllKnown(nodes: seq<Node>, named: set<nat>, sim: seq<Tri>, explored: set<nat>)
    requires Graph(nodes) && |sim| == |nodes|
  {
    forall m :: m in explored ==> KnownAt(nodes, named, sim, m)
  }

  method VisitNode(nodes: seq<Node>, visited: set<nat>, toVisit: seq<nat>, m: nat)
    returns (visited': set<nat>, toVisit': seq<nat>, ghost added: seq<nat>)
    requires InRange(nodes, toVisit) && m < |nodes|
    ensures added == (if m in visited then [] else [m])
    ensures visited' == visited + {m} && toVisit' == toVisit + added && InRange(nodes, toVisit')
    ensures if m in visited then visited' == visited else NodesLeft(nodes, visited') < NodesLeft(nodes, visited)
  {
    visited', toVisit', added := visited, toVisit, [];
    if m !in visited {
      FewerLeft(Upto(|nodes|), visited, m);
      visited' := visited + {m};
      toVisit' := toVisit + [m];
      added := [m];
    } else {
      assert visited == visited + {m};
    }
  }

  function NodesLeft(nodes: seq<Node>, visited: set<nat>): nat {
    |Upto(|nodes|) - visited|
  }

  /** Looks at the last waiting node; not ok stands for an abort on an unknown value. */
  method WhyStep(nodes: seq<Node>, named: set<nat>, sim: seq<Tri>, waiting: seq<nat>, visited: set<nat>,
                 found: set<nat>, ghost starts: set<nat>, ghost explored: set<nat>)
    returns (ok: bool, toVisit: seq<nat>, visited': set<nat>, found': set<nat>)
    requires Graph(nodes) && |sim| == |nodes| && waiting != [] && InRange(nodes, waiting)
    requires Searching(Reasons(nodes, named, sim), starts, named, explored, waiting, visited, found)
    ensures ok <==> KnownAt(nodes, named, sim, waiting[|waiting| - 1])
    ensures ok ==> InRange(nodes, toVisit)
    ensures ok ==> Searching(Reasons(nodes, named, sim), starts, named, explored + {waiting[|waiting| - 1]}, toVisit,
        visited', found')
    ensures ok ==>
              NodesLeft(nodes, visited') < NodesLeft(nodes, visited) || (visited' == visited && |toVisit| < |waiting|)
  {
    hide Reachable, Searching, NodesLeft, IsPath;
    var m := waiting[|waiting| - 1];
    ok, toVisit, visited', found' := true, waiting[..|waiting| - 1], visited, found;
    ghost var added: seq<nat> := [];
    if m in named {
      found' := found + {m};
    } else if nodes[m].And? {
      var f0, f1 := nodes[m].fanin0, nodes[m].fanin1;
      assert Below(nodes, NodeOf(f0), m) && Below(nodes, NodeOf(f1), m);
      var left, right := EdgeValue(sim, f0), EdgeValue(sim, f1);
      if left == Unknown || right == Unknown { return false, toVisit, visited', found'; }
      ghost var added0: seq<nat>, added1: seq<nat> := [], [];
      if left == right {
        visited', toVisit, added0 := VisitNode(nodes, visited', toVisit, NodeOf(f0));
        visited', toVisit, added1 := VisitNode(nodes, visited', toVisit, NodeOf(f1));
      } else if left == True {
        visited', toVisit, added1 := VisitNode(nodes, visited', toVisit, NodeOf(f1));
      } else {
        visited', toVisit, added0 := VisitNode(nodes, visited', toVisit, NodeOf(f0));
      }
      added := added0 + added1;
      assert Reasons(nodes, named, sim)(m) == Responsible(nodes, sim, m);
      forall k | k in visited' ensures k in visited || k in added {}
    }
    Looked(Reasons(nodes, named, sim), starts, named, explored, waiting, visited, found, added, visited', found');
    assert toVisit == waiting[..|waiting| - 1] + added;
  }

  ghost predicate AbortsAt(nodes: seq<Node>, named: set<nat>, sim: seq<Tri>, starts: set<nat>, m: nat)
    requires Graph(nodes) && |sim| == |nodes|
  {
    Reachable(Reasons(nodes, named, sim), starts, m) && !KnownAt(nodes, named, sim, m)
  }

  method WhySearch(nodes: seq<Node>, named: set<nat>, sim: seq<Tri>, toVisit0: seq<nat>, visited0: set<nat>,
                   found0: set<nat>, ghost starts: set<nat>, ghost explored0: set<nat>)
    returns (ok: bool, visited: set<nat>, found: set<nat>, ghost explored: set<nat>)
    requires Graph(nodes) && |sim| == |nodes| && InRange(nodes, toVisit0)
    requires Searching(Reasons(nodes, named, sim), starts, named, explored0, toVisit0, visited0, found0)
    requires AllKnown(nodes, named, sim, explored0)
    ensures ok ==> Searching(Reasons(nodes, named, sim), starts, named, explored, [], visited, found)
    ensures ok ==> AllKnown(nodes, named, sim, explored)
    ensures !ok ==> exists m :: AbortsAt(nodes, named, sim, starts, m)
  {
    hide Reachable, Searching, NodesLeft, InRange, Reasons, Graph, KnownAt;
    var toVisit := toVisit0;
    ok, visited, found, explored := true, visited0, found0, explored0;
    while toVisit != []
      invariant Searching(Reasons(nodes, named, sim), starts, named, explored, toVisit, visited, found)
      invariant InRange(nodes, toVisit) && AllKnown(nodes, named, sim, explored) && ok
      decreases NodesLeft(nodes, visited), |toVisit|
    {
      ghost var m := toVisit[|toVisit| - 1];
      WaitingReachable(Reasons(nodes, named, sim), starts, named, explored, toVisit, visited, found);
      ok, toVisit, visited, found := WhyStep(nodes, named, sim, toVisit, visited, found, starts, explored);
      if !ok {
        assert AbortsAt(nodes, named, sim, starts, m);
        return;
      }
      explored := explored + {m};
    }
  }

  lemma WaitingReachable(next: Next, starts: set<nat>, named: set<nat>, explored: set<nat>, waiting: seq<nat>,
                         visited: set<nat>, found: set<nat>)
    requires waiting != [] && Searching(next, starts, named, explored, waiting, visited, found)
    ensures Reachable(next, starts, waiting[|waiting| - 1])
  {
  }

  /** The named nodes that explain the values of the query bits: those that are reached from the inputs of
      a query bit through responsible fanins of unnamed gates. Aborts if and only if an unknown value is met. */
  method Why(nodes: seq<Node>, named: set<nat>, sim: seq<Tri>, bits: seq<nat>) returns (r: Option<set<nat>>)
    requires Graph(nodes) && |sim| == |nodes| && forall b :: b in bits ==> NodeOf(b) < |nodes|
    ensures r.Some? ==> IsAnswer(Reasons(nodes, named, sim), Starts(nodes, bits), named, r.value)
    ensures r.None? <==> exists m :: AbortsAt(nodes, named, sim, Starts(nodes, bits), m)
    ensures forall val | Evaluates(nodes, val) && Simulates(sim, val) :: IsExplanation(nodes, named, sim, bits, val, r)
  {
    hide IsAnswer, Reachable, KnownAt;
    var visited: set<nat>, found: set<nat> := {}, {};
    ghost var explored: set<nat> := {};
    for i := 0 to |bits|
      invariant Searching(Reasons(nodes, named, sim), Starts(nodes, bits[..i]), named, explored, [], visited, found)
      invariant AllKnown(nodes, named, sim, explored)
    {
      var b := NodeOf(bits[i]);
      StartsGrow(nodes, bits, i);
      if nodes[b].And? {
        var toVisit := [NodeOf(nodes[b].fanin0), NodeOf(nodes[b].fanin1)];
        assert Below(nodes, NodeOf(nodes[b].fanin0), b) && Below(nodes, NodeOf(nodes[b].fanin1), b);
        ghost var starts := Starts(nodes, bits[..i + 1]);
        MoreStarts(Reasons(nodes, named, sim), Starts(nodes, bits[..i]), starts, named, explored, visited, found,
            toVisit);
        var ok;
        ok, visited, found, explored := WhySearch(nodes, named, sim, toVisit, visited, found, starts, explored);
        if !ok {
          AbortsLater(nodes, named, sim, bits, i + 1);
          Explained(nodes, named, sim, bits, None);
          return None;
        }
      } else {
        assert Starts(nodes, bits[..i + 1]) == Starts(nodes, bits[..i]);
      }
    }
    assert bits[..|bits|] == bits;
    SearchDone(Reasons(nodes, named, sim), Starts(nodes, bits), named, explored, visited, found);
    AllReached(Reasons(nodes, named, sim), Starts(nodes, bits), named, explored, visited, found);
    r := Some(found);
    Explained(nodes, named, sim, bits, r);
  }

  /** For an evaluation that the simulation stands for: the search aborts exactly if a path of values meets an unknown
      input, and otherwise answers the nodes with names that such paths lead to. */
  ghost predicate IsExplanation(nodes: seq<Node>, named: set<nat>, sim: seq<Tri>, bits: seq<nat>, val: Valuation,
                                r: Option<set<nat>>)
    requires Graph(nodes) && |sim| == |nodes|
  {
    && (r.None? <==> MeetsUnknown(nodes, named, sim, bits, val))
    && (r.Some? ==> forall e :: e in r.value <==>
                      e in named && OnValuePath(nodes, named, bits, val, e))
  }

  lemma Explained(nodes: seq<Node>, named: set<nat>, sim: seq<Tri>, bits: seq<nat>, r: Option<set<nat>>)
    requires Graph(nodes) && |sim| == |nodes| && forall b :: b in bits ==> NodeOf(b) < |nodes|
    requires r.Some? ==> IsAnswer(Reasons(nodes, named, sim), Starts(nodes, bits), named, r.value)
    requires r.None? <==> exists m :: AbortsAt(nodes, named, sim, Starts(nodes, bits), m)
    ensures forall val | Evaluates(nodes, val) && Simulates(sim, val) :: IsExplanation(nodes, named, sim, bits, val, r)
  {
    hide IsAnswer, AbortsAt, Graph, Evaluates, Simulates, MeetsUnknown, OnValuePath;
    forall val | Evaluates(nodes, val) && Simulates(sim, val) ensures IsExplanation(nodes, named, sim, bits, val, r) {
      AbortsByValue(nodes, named, sim, bits, val);
      if r.Some? {
        forall e
          ensures e in r.value <==>
                    e in named && OnValuePath(nodes, named, bits, val, e)
        {
          WhyByValue(nodes, named, sim, bits, val, r.value, e);
        }
      }
    }
  }

  lemma AllReached(next: Next, starts: set<nat>, named: set<nat>, explored: set<nat>, visited: set<nat>,
                   found: set<nat>)
    requires Searching(next, starts, named, explored, [], visited, found)
    ensures forall e :: Reachable(next, starts, e) ==> e in explored
  {
    forall e | Reachable(next, starts, e) ensures e in explored {
      var path: seq<nat> :| IsPath(next, starts, path) && path[|path| - 1] == e;
      ClosedHoldsAll(next, starts, explored, path);
    }
  }

  lemma {:induction false} StartsMonotone(nodes: seq<Node>, bits: seq<nat>, i: nat)
    requires i <= |bits| && forall b :: b in bits ==> NodeOf(b) < |nodes|
    ensures Starts(nodes, bits[..i]) <= Starts(nodes, bits)
    decreases |bits| - i
  {
    if i == |bits| {
      assert bits[..i] == bits;
    } else {
      StartsGrow(nodes, bits, i);
      StartsMonotone(nodes, bits, i + 1);
    }
  }

  lemma AbortsLater(nodes: seq<Node>, named: set<nat>, sim: seq<Tri>, bits: seq<nat>, i: nat)
    requires Graph(nodes) && |sim| == |nodes| && i <= |bits| && forall b :: b in bits ==> NodeOf(b) < |nodes|
    requires exists m :: AbortsAt(nodes, named, sim, Starts(nodes, bits[..i]), m)
    ensures exists m :: AbortsAt(nodes, named, sim, Starts(nodes, bits), m)
  {
    var m :| AbortsAt(nodes, named, sim, Starts(nodes, bits[..i]), m);
    StartsMonotone(nodes, bits, i);
    ReachMore(Reasons(nodes, named, sim), Starts(nodes, bits[..i]), Starts(nodes, bits), m);
    assert AbortsAt(nodes, named, sim, Starts(nodes, bits), m);
  }

  // -------------------------------------------------- what an answer is worth

  /** The evaluation is one the simulation stands for. */
  predicate Simulates(sim: seq<Tri>, val: Valuation) {
    forall i :: 0 <= i < |sim| && sim[i] != Unknown ==> val(i) == (sim[i] == True)
  }

  /** Every leaf that is reached and has no name is the constant. */
  ghost predicate LeavesNamed(nodes: seq<Node>, named: set<nat>, next: Next, starts: set<nat>) {
    forall m: nat :: Reachable(next, starts, m) && m < |nodes| && nodes[m].Leaf? && m !in named ==> m == 0
  }

  ghost predicate AgreeOn(found: set<nat>, val: Valuation, val': Valuation) {
    forall m :: m in found ==> val(m) == val'(m)
  }

  /** A reached node has the same value in every evaluation that agrees with the trace on the answer. */
  lemma {:induction false} ReachedAgrees(nodes: seq<Node>, named: set<nat>, sim: seq<Tri>, starts: set<nat>,
                                         found: set<nat>, val: Valuation, val': Valuation, m: nat)
    requires Graph(nodes) && |sim| == |nodes| && m < |nodes|
    requires IsAnswer(Reasons(nodes, named, sim), starts, named, found)
    requires !exists k :: AbortsAt(nodes, named, sim, starts, k)
    requires LeavesNamed(nodes, named, Reasons(nodes, named, sim), starts)
    requires Evaluates(nodes, val) && Simulates(sim, val) && Evaluates(nodes, val') && AgreeOn(found, val, val')
    requires Reachable(Reasons(nodes, named, sim), starts, m)
    ensures val(m) == val'(m)
    decreases Rank(nodes, m)
  {
    hide Reachable;
    if m !in named && nodes[m].And? {
      var f0, f1 := nodes[m].fanin0, nodes[m].fanin1;
      assert Below(nodes, NodeOf(f0), m) && Below(nodes, NodeOf(f1), m);
      assert GateHolds(nodes, val, m) && GateHolds(nodes, val', m);
      assert !AbortsAt(nodes, named, sim, starts, m);
      assert Edge(val, f0) == (EdgeValue(sim, f0) == True) && Edge(val, f1) == (EdgeValue(sim, f1) == True);
      forall k | k in Responsible(nodes, sim, m) ensures val(k) == val'(k) {
        ReachNext(Reasons(nodes, named, sim), starts, m, k);
        ReachedAgrees(nodes, named, sim, starts, found, val, val', k);
      }
    }
  }

  /** A leaf other than the constant can have either value whatever the rest of the leaves hold. */
  lemma FlippedEvaluates(nodes: seq<Node>, val: Valuation, q: nat) returns (val': Valuation)
    requires Graph(nodes) && Evaluates(nodes, val) && 0 < q < |nodes| && nodes[q].Leaf?
    ensures Evaluates(nodes, val') && val'(q) != val(q)
  {
    val' := (i: nat) => i < |nodes| && Flipped(nodes, val, q, i);
    forall i | 0 <= i < |nodes| && nodes[i].And? ensures GateHolds(nodes, val', i) {
      assert Below(nodes, NodeOf(nodes[i].fanin0), i) && Below(nodes, NodeOf(nodes[i].fanin1), i);
    }
  }

  /** The answer settles the value of node q. */
  ghost predicate Explains(nodes: seq<Node>, found: set<nat>, val: Valuation, q: nat) {
    forall val': Valuation :: Evaluates(nodes, val') && AgreeOn(found, val, val') ==> val'(q) == val(q)
  }

  /** When all leaves that are reached have names, the answer for one query bit settles its value if and
      only if the bit is a gate or the constant: for an input or a latch the search answers nothing. */
  lemma WhyExplains(nodes: seq<Node>, named: set<nat>, sim: seq<Tri>, b: nat, found: set<nat>, val: Valuation)
    requires Graph(nodes) && |sim| == |nodes| && NodeOf(b) < |nodes|
    requires IsAnswer(Reasons(nodes, named, sim), Starts(nodes, [b]), named, found)
    requires !exists k :: AbortsAt(nodes, named, sim, Starts(nodes, [b]), k)
    requires LeavesNamed(nodes, named, Reasons(nodes, named, sim), Starts(nodes, [b]))
    requires Evaluates(nodes, val) && Simulates(sim, val)
    ensures Explains(nodes, found, val, NodeOf(b)) <==> nodes[NodeOf(b)].And? || NodeOf(b) == 0
  {
    var q, starts := NodeOf(b), Starts(nodes, [b]);
    assert Starts(nodes, [b][..0]) == {};
    StartsGrow(nodes, [b], 0);
    assert [b][..1] == [b];
    if nodes[q].And? {
      forall val': Valuation | Evaluates(nodes, val') && AgreeOn(found, val, val') ensures val'(q) == val(q) {
        assert Below(nodes, NodeOf(nodes[q].fanin0), q) && Below(nodes, NodeOf(nodes[q].fanin1), q);
        ReachStart(Reasons(nodes, named, sim), starts, NodeOf(nodes[q].fanin0));
        ReachStart(Reasons(nodes, named, sim), starts, NodeOf(nodes[q].fanin1));
        ReachedAgrees(nodes, named, sim, starts, found, val, val', NodeOf(nodes[q].fanin0));
        ReachedAgrees(nodes, named, sim, starts, found, val, val', NodeOf(nodes[q].fanin1));
        assert GateHolds(nodes, val, q) && GateHolds(nodes, val', q);
      }
    } else if q != 0 {
      var val' := FlippedEvaluates(nodes, val, q);
      assert AgreeOn(found, val, val');
    }
  }

  /** The same for several query bits that are gates. */
  lemma {:induction false} WhyExplainsAll(nodes: seq<Node>, named: set<nat>, sim: seq<Tri>, bits: seq<nat>,
                                          found: set<nat>, val: Valuation, i: nat)
    requires Graph(nodes) && |sim| == |nodes| && (forall b :: b in bits ==> NodeOf(b) < |nodes|)
    requires IsAnswer(Reasons(nodes, named, sim), Starts(nodes, bits), named, found)
    requires !exists k :: AbortsAt(nodes, named, sim, Starts(nodes, bits), k)
    requires LeavesNamed(nodes, named, Reasons(nodes, named, sim), Starts(nodes, bits))
    requires Evaluates(nodes, val) && Simulates(sim, val)
    requires i < |bits| && nodes[NodeOf(bits[i])].And?
    ensures Explains(nodes, found, val, NodeOf(bits[i]))
  {
    var q, starts := NodeOf(bits[i]), Starts(nodes, bits);
    StartsGrow(nodes, bits, i);
    StartsMonotone(nodes, bits, i + 1);
    forall val': Valuation | Evaluates(nodes, val') && AgreeOn(found, val, val') ensures val'(q) == val(q) {
      assert Below(nodes, NodeOf(nodes[q].fanin0), q) && Below(nodes, NodeOf(nodes[q].fanin1), q);
      ReachStart(Reasons(nodes, named, sim), starts, NodeOf(nodes[q].fanin0));
      ReachStart(Reasons(nodes, named, sim), starts, NodeOf(nodes[q].fanin1));
      ReachedAgrees(nodes, named, sim, starts, found, val, val', NodeOf(nodes[q].fanin0));
      ReachedAgrees(nodes, named, sim, starts, found, val, val', NodeOf(nodes[q].fanin1));
      assert GateHolds(nodes, val, q) && GateHolds(nodes, val', q);
    }
  }

  // ---------------------------------------- answers in terms of paths and values

  /** The node is read by a query bit that is a gate. */
  predicate ReadByQuery(nodes: seq<Node>, bits: seq<nat>, m: nat) {
    exists j :: 0 <= j < |bits| && NodeOf(bits[j]) < |nodes| && nodes[NodeOf(bits[j])].And?
                && (m == NodeOf(nodes[NodeOf(bits[j])].fanin0) || m == NodeOf(nodes[NodeOf(bits[j])].fanin1))
  }

  /** Node m is a gate without a name, and k is read by it. */
  predicate StepsTo(nodes: seq<Node>, named: set<nat>, m: nat, k: nat) {
    && m < |nodes| && m !in named && nodes[m].And?
    && (k == NodeOf(nodes[m].fanin0) || k == NodeOf(nodes[m].fanin1))
  }

  /** ... through an edge that has the value of m. */
  predicate StepsWithValue(nodes: seq<Node>, named: set<nat>, val: Valuation, m: nat, k: nat) {
    && m < |nodes| && m !in named && nodes[m].And?
    && ((k == NodeOf(nodes[m].fanin0) && Edge(val, nodes[m].fanin0) == val(m))
        || (k == NodeOf(nodes[m].fanin1) && Edge(val, nodes[m].fanin1) == val(m)))
  }

  /** From a node read by a query bit through gates without names. */
  predicate ConePath(nodes: seq<Node>, named: set<nat>, bits: seq<nat>, path: seq<nat>) {
    && path != [] && ReadByQuery(nodes, bits, path[0])
    && forall i :: 0 <= i < |path| - 1 ==> StepsTo(nodes, named, path[i], path[i + 1])
  }

  /** ... each of which has the value of the edge taken from it. */
  predicate ValuePath(nodes: seq<Node>, named: set<nat>, bits: seq<nat>, val: Valuation, path: seq<nat>) {
    && path != [] && ReadByQuery(nodes, bits, path[0])
    && forall i :: 0 <= i < |path| - 1 ==> StepsWithValue(nodes, named, val, path[i], path[i + 1])
  }

  ghost predicate InCone(nodes: seq<Node>, named: set<nat>, bits: seq<nat>, m: nat) {
    exists path :: ConePath(nodes, named, bits, path) && path[|path| - 1] == m
  }

  ghost predicate OnValuePath(nodes: seq<Node>, named: set<nat>, bits: seq<nat>, val: Valuation, m: nat) {
    exists path :: ValuePath(nodes, named, bits, val, path) && path[|path| - 1] == m
  }

  lemma {:induction false} StartsAre(nodes: seq<Node>, bits: seq<nat>, m: nat)
    requires forall b :: b in bits ==> NodeOf(b) < |nodes|
    ensures m in Starts(nodes, bits) <==> ReadByQuery(nodes, bits, m)
    decreases |bits|
  {
    if bits != [] {
      var last := |bits| - 1;
      StartsAre(nodes, bits[..last], m);
      if ReadByQuery(nodes, bits[..last], m) {
        var j :| 0 <= j < last && NodeOf(bits[..last][j]) < |nodes| && nodes[NodeOf(bits[..last][j])].And?
              && (m == NodeOf(nodes[NodeOf(bits[..last][j])].fanin0)
                  || m == NodeOf(nodes[NodeOf(bits[..last][j])].fanin1));
        assert bits[j] == bits[..last][j];
      }
      if ReadByQuery(nodes, bits, m) {
        var j :| 0 <= j < |bits| && NodeOf(bits[j]) < |nodes| && nodes[NodeOf(bits[j])].And?
              && (m == NodeOf(nodes[NodeOf(bits[j])].fanin0) || m == NodeOf(nodes[NodeOf(bits[j])].fanin1));
        assert j < last ==> bits[..last][j] == bits[j];
      }
    }
  }

  /** Reachability through fanins is a path of this kind. */
  lemma ConeReached(nodes: seq<Node>, named: set<nat>, bits: seq<nat>, m: nat)
    requires forall b :: b in bits ==> NodeOf(b) < |nodes|
    ensures Reachable(Fanins(nodes, named), Starts(nodes, bits), m)
            <==> InCone(nodes, named, bits, m)
  {
    hide Starts, ReadByQuery;
    forall path: seq<nat>
      ensures IsPath(Fanins(nodes, named), Starts(nodes, bits), path) <==> ConePath(nodes, named, bits, path)
    {
      if path != [] { StartsAre(nodes, bits, path[0]); }
    }
  }

  lemma ConesReached(nodes: seq<Node>, named: set<nat>, bits: seq<nat>)
    requires forall b :: b in bits ==> NodeOf(b) < |nodes|
    ensures forall m: nat :: Reachable(Fanins(nodes, named), Starts(nodes, bits), m) <==> InCone(nodes, named, bits, m)
  {
    hide Reachable, InCone;
    forall m: nat ensures Reachable(Fanins(nodes, named), Starts(nodes, bits), m) <==> InCone(nodes, named, bits, m) {
      ConeReached(nodes, named, bits, m);
    }
  }

  /** The simulation knows the inputs of every gate the path goes through. */
  ghost predicate ClearPath(nodes: seq<Node>, named: set<nat>, sim: seq<Tri>, path: seq<nat>)
    requires Graph(nodes) && |sim| == |nodes|
  {
    forall i :: 0 <= i < |path| - 1 ==> KnownAt(nodes, named, sim, path[i])
  }

  /** The responsible fanins of a gate with known inputs are those with its value. */
  lemma ResponsibleByValue(nodes: seq<Node>, named: set<nat>, sim: seq<Tri>, val: Valuation, m: nat, k: nat)
    requires Graph(nodes) && |sim| == |nodes| && KnownAt(nodes, named, sim, m)
    requires Evaluates(nodes, val) && Simulates(sim, val)
    ensures k in Reasons(nodes, named, sim)(m) <==> StepsWithValue(nodes, named, val, m, k)
  {
    if m < |nodes| && m !in named && nodes[m].And? {
      var f0, f1 := nodes[m].fanin0, nodes[m].fanin1;
      assert Below(nodes, NodeOf(f0), m) && Below(nodes, NodeOf(f1), m) && GateHolds(nodes, val, m);
      assert Edge(val, f0) == (EdgeValue(sim, f0) == True) && Edge(val, f1) == (EdgeValue(sim, f1) == True);
    }
  }

  lemma ClearPathsAgree(nodes: seq<Node>, named: set<nat>, sim: seq<Tri>, bits: seq<nat>, val: Valuation,
                        path: seq<nat>)
    requires Graph(nodes) && |sim| == |nodes| && (forall b :: b in bits ==> NodeOf(b) < |nodes|)
    requires Evaluates(nodes, val) && Simulates(sim, val) && ClearPath(nodes, named, sim, path)
    ensures IsPath(Reasons(nodes, named, sim), Starts(nodes, bits), path) <==> ValuePath(nodes, named, bits, val, path)
  {
    hide Starts, ReadByQuery, KnownAt, StepsWithValue, Reasons, Evaluates, Simulates, Graph;
    if path != [] { StartsAre(nodes, bits, path[0]); }
    forall i | 0 <= i < |path| - 1
      ensures path[i + 1] in Reasons(nodes, named, sim)(path[i])
              <==> StepsWithValue(nodes, named, val, path[i], path[i + 1])
    {
      ResponsibleByValue(nodes, named, sim, val, path[i], path[i + 1]);
    }
  }

  /** The first place at which the simulation does not know the inputs of a gate the path goes through. */
  function FirstUnclear(nodes: seq<Node>, named: set<nat>, sim: seq<Tri>, path: seq<nat>, i: nat): (k: nat)
    requires Graph(nodes) && |sim| == |nodes| && i < |path|
    ensures i <= k < |path| && (k < |path| - 1 ==> !KnownAt(nodes, named, sim, path[k]))
    ensures forall j :: i <= j < k ==> KnownAt(nodes, named, sim, path[j])
    decreases |path| - i
  {
    if i == |path| - 1 || !KnownAt(nodes, named, sim, path[i]) then i
    else FirstUnclear(nodes, named, sim, path, i + 1)
  }

  /** The search meets an unknown value exactly if a path of values leads to a gate without a name one of whose
      inputs the simulation does not know. */
  ghost predicate MeetsUnknown(nodes: seq<Node>, named: set<nat>, sim: seq<Tri>, bits: seq<nat>, val: Valuation)
    requires Graph(nodes) && |sim| == |nodes|
  {
    exists path :: ValuePath(nodes, named, bits, val, path) && !KnownAt(nodes, named, sim, path[|path| - 1])
  }

  lemma AbortsByValue(nodes: seq<Node>, named: set<nat>, sim: seq<Tri>, bits: seq<nat>, val: Valuation)
    requires Graph(nodes) && |sim| == |nodes| && (forall b :: b in bits ==> NodeOf(b) < |nodes|)
    requires Evaluates(nodes, val) && Simulates(sim, val)
    ensures (exists m :: AbortsAt(nodes, named, sim, Starts(nodes, bits), m))
            <==> MeetsUnknown(nodes, named, sim, bits, val)
  {
    hide Starts, ReadByQuery, KnownAt, StepsWithValue, Reasons, Evaluates, Simulates, Graph;
    var next, starts := Reasons(nodes, named, sim), Starts(nodes, bits);
    if m :| AbortsAt(nodes, named, sim, starts, m) {
      var path: seq<nat> :| IsPath(next, starts, path) && path[|path| - 1] == m;
      var k := FirstUnclear(nodes, named, sim, path, 0);
      var short := path[..k + 1];
      assert IsPath(next, starts, short) && ClearPath(nodes, named, sim, short);
      ClearPathsAgree(nodes, named, sim, bits, val, short);
      assert !KnownAt(nodes, named, sim, short[|short| - 1]);
    }
    if path :| ValuePath(nodes, named, bits, val, path) && !KnownAt(nodes, named, sim, path[|path| - 1]) {
      var k := FirstUnclear(nodes, named, sim, path, 0);
      var short := path[..k + 1];
      assert ValuePath(nodes, named, bits, val, short) && ClearPath(nodes, named, sim, short);
      ClearPathsAgree(nodes, named, sim, bits, val, short);
      assert AbortsAt(nodes, named, sim, starts, short[|short| - 1]);
    }
  }

  /** The answer to why holds a node exactly if it has a name and a path of values leads to it. */
  lemma WhyByValue(nodes: seq<Node>, named: set<nat>, sim: seq<Tri>, bits: seq<nat>, val: Valuation, found: set<nat>,
                   e: nat)
    requires Graph(nodes) && |sim| == |nodes| && (forall b :: b in bits ==> NodeOf(b) < |nodes|)
    requires IsAnswer(Reasons(nodes, named, sim), Starts(nodes, bits), named, found)
    requires !exists k :: AbortsAt(nodes, named, sim, Starts(nodes, bits), k)
    requires Evaluates(nodes, val) && Simulates(sim, val)
    ensures e in found <==> e in named && OnValuePath(nodes, named, bits, val, e)
  {
    hide Starts, ReadByQuery, KnownAt, StepsWithValue, Reasons, Evaluates, Simulates, Graph;
    var next, starts := Reasons(nodes, named, sim), Starts(nodes, bits);
    if e in found {
      var path: seq<nat> :| IsPath(next, starts, path) && path[|path| - 1] == e;
      PathIsClear(nodes, named, sim, starts, path);
      ClearPathsAgree(nodes, named, sim, bits, val, path);
    }
    if path :| e in named && ValuePath(nodes, named, bits, val, path) && path[|path| - 1] == e {
      AbortsByValue(nodes, named, sim, bits, val);
      forall i | 0 <= i < |path| - 1 ensures KnownAt(nodes, named, sim, path[i]) {
        assert ValuePath(nodes, named, bits, val, path[..i + 1]);
      }
      ClearPathsAgree(nodes, named, sim, bits, val, path);
    }
  }

  lemma PathIsClear(nodes: seq<Node>, named: set<nat>, sim: seq<Tri>, starts: set<nat>, path: seq<nat>)
    requires Graph(nodes) && |sim| == |nodes| && IsPath(Reasons(nodes, named, sim), starts, path)
    requires !exists k :: AbortsAt(nodes, named, sim, starts, k)
    ensures ClearPath(nodes, named, sim, path)
  {
    hide KnownAt, Reasons, Graph;
    forall i | 0 <= i < |path| - 1 ensures KnownAt(nodes, named, sim, path[i]) {
      assert IsPath(Reasons(nodes, named, sim), starts, path[..i + 1]);
      assert path[..i + 1][i] == path[i];
      assert !AbortsAt(nodes, named, sim, starts, path[i]);
    }
  }
}
