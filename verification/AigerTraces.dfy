/**
  A compiled graph and its netlist have the same runs: every run of one has a run of the other that
  agrees on every translated bit at every cycle, and so on every output, bad and constraint.
 */
module AigerTraces {
  import opened GateNetlist
  import opened Aig
  import opened AigerPlan
  import opened AigerMonitors

  // ------------------------------------------------------------- one cycle

  lemma FlipLit(v: Assignment, l: nat)
    ensures Lit(v, Flip(l)) == !Lit(v, l)
  {
  }

  lemma GateLit(base: nat, gates: seq<Gate>, v: Assignment, x: nat, y: nat, l: nat)
    requires GateOutput(base, gates, x, y, l) && GatesHold(base, gates, v)
    ensures Lit(v, l) == (Lit(v, x) && Lit(v, y))
  {
    var k := l / 2 - base - 1;
    assert v(base + k + 1) == (Lit(v, gates[k].rhs0) && Lit(v, gates[k].rhs1));
  }

  ghost predicate SourcesAgree(src: map<Bit, nat>, v: Assignment, val: Valuation) {
    forall b :: b in src ==> Lit(v, src[b]) == val(b)
  }

  /** Every translated literal has the value of its bit as soon as the literals of the sources do. */
  lemma {:induction false} LitsAgree(n: Netlist, rank: Bit -> nat, base: nat, gates: seq<Gate>, p: Plan, v: Assignment,
                                     val: Valuation, first: bool, b: Bit)
    requires Acyclic(n, rank) && Justified(n, p.src, p.start, base, p.lits, gates)
    requires GatesHold(base, gates, v) && Settled(n, val, first) && SourcesAgree(p.src, v, val)
    requires HasInitState(n) ==> Lit(v, p.start) == first
    requires b in p.lits
    ensures Lit(v, p.lits[b]) == val(b)
    decreases rank(b)
  {
    if b in p.src {
    } else {
      assert val(b) == DriverValue(n.drivers[b], val, first);
      match n.drivers[b]
      case Not(a) =>
        LitsAgree(n, rank, base, gates, p, v, val, first, a);
        FlipLit(v, p.lits[a]);
      case And(x, y) =>
        LitsAgree(n, rank, base, gates, p, v, val, first, x);
        LitsAgree(n, rank, base, gates, p, v, val, first, y);
        GateLit(base, gates, v, p.lits[x], p.lits[y], p.lits[b]);
      case Alias(a) => LitsAgree(n, rank, base, gates, p, v, val, first, a);
      case InitState => assert HasInitState(n);
    }
  }

  lemma PositiveLit(v: Assignment, m: nat)
    ensures Lit(v, 2 * m) == v(m) && Lit(v, 2 * m + 1) == !v(m)
  {
  }

  lemma MuxLit(base: nat, gates: seq<Gate>, v: Assignment, x: nat, y: nat, start: nat, g1: nat, g2: nat, l: nat)
    requires GatesHold(base, gates, v)
    requires GateOutput(base, gates, x, Flip(start), g1) && GateOutput(base, gates, y, start, g2)
    requires GateOutput(base, gates, Flip(g1), Flip(g2), Flip(l))
    ensures Lit(v, l) == if Lit(v, start) then Lit(v, y) else Lit(v, x)
  {
    GateLit(base, gates, v, x, Flip(start), g1);
    GateLit(base, gates, v, y, start, g2);
    GateLit(base, gates, v, Flip(g1), Flip(g2), Flip(l));
    FlipLit(v, start);
    FlipLit(v, g1);
    FlipLit(v, g2);
    FlipLit(v, l);
  }

  /** The literal of a flop: its latch, its negated latch, or the multiplexer with its initial input. */
  lemma FfLit(n: Netlist, zinit: bool, inputs: nat, base: nat, gates: seq<Gate>, roles: seq<Role>, start: nat, j: nat,
              l: nat, v: Assignment, first: bool, q: bool)
    requires j < |n.ffs| && FfPlaced(n, zinit, inputs, base, gates, roles, start, j, l) && GatesHold(base, gates, v)
    requires zinit && IsFree(n, j) ==> Lit(v, start) == first
    requires first ==> forall x :: 1 <= x <= inputs && x < |roles| && roles[x] == InitVar(j) ==> v(x) == q
    requires v(inputs + j + 1) == FfState(n, zinit, j, first, q)
    ensures Lit(v, l) == q
  {
    var m := inputs + j + 1;
    PositiveLit(v, m);
    if zinit && IsFree(n, j) {
      var x: nat, g1: nat, g2: nat :| MuxParts(inputs, base, gates, roles, start, m, j, l, x, g1, g2);
      PositiveLit(v, x);
      MuxLit(base, gates, v, 2 * m, 2 * x, start, g1, g2, l);
    }
  }

  /** The state of the latch of flop j while the flop holds q. */
  predicate FfState(n: Netlist, zinit: bool, j: nat, first: bool, q: bool)
    requires j < |n.ffs|
  {
    if !zinit then q
    else if IsFree(n, j) then !first && q
    else q != StartsAtOne(n, j)
  }

  // ----------------------------------------------------- matching runs

  /** The graph run gives every translated bit the value it has in the netlist run. */
  ghost predicate Matches(p: Plan, run: nat -> Valuation, graph: nat -> Assignment) {
    forall t: nat, b :: b in p.lits ==> Lit(graph(t), p.lits[b]) == run(t)(b)
  }

  // ------------------------------------------------- from netlist to graph

  function EnStream(c: Check, run: nat -> Valuation): Stream {
    (t: nat) => run(t)(c.en)
  }

  function AStream(c: Check, run: nat -> Valuation): Stream {
    (t: nat) => run(t)(c.a)
  }

  /** The value at cycle t of a variable with the given role; samples are chosen freely. */
  predicate RoleValue(n: Netlist, zinit: bool, r: Role, run: nat -> Valuation, samples: nat -> Stream, t: nat) {
    match r
    case Constant => false
    case Unused => false
    case InputVar(b) => run(t)(b)
    case InitVar(j) => j < |n.ffs| && run(t)(n.ffs[j].q)
    case SampleVar(k) => samples(k)(t)
    case FfVar(j) => j < |n.ffs| && FfState(n, zinit, j, t == 0, run(t)(n.ffs[j].q))
    case StartVar => t != 0
    case SampledVar(k) => k < |n.live| && Sampled(samples(k), EnStream(n.live[k], run), t)
    case ServedVar(k) =>
      k < |n.live| && Served(samples(k), EnStream(n.live[k], run), AStream(n.live[k], run), t)
    case WaitingVar(k) => k < |n.fair| && Waiting(EnStream(n.fair[k], run), AStream(n.fair[k], run), t)
  }

  function SourceValues(n: Netlist, zinit: bool, p: Plan, run: nat -> Valuation, samples: nat -> Stream,
                        t: nat): Assignment {
    (m: nat) => m < |p.roles| && RoleValue(n, zinit, p.roles[m], run, samples, t)
  }

  /** The graph run that follows a netlist run with the given samples. */
  function Follow(n: Netlist, zinit: bool, g: Aig, p: Plan, run: nat -> Valuation,
                  samples: nat -> Stream): nat -> Assignment
    requires Topological(Base(g), g.gates)
  {
    (t: nat) => (m: nat) => EvalVar(Base(g), g.gates, SourceValues(n, zinit, p, run, samples, t), m)
  }

  lemma FollowHolds(n: Netlist, o: Options, g: Aig, p: Plan, run: nat -> Valuation, samples: nat -> Stream, t: nat)
    requires Topological(Base(g), g.gates) && |p.roles| == Base(g) + 1
    ensures GatesHold(Base(g), g.gates, Follow(n, o.zinit, g, p, run, samples)(t))
    ensures !Follow(n, o.zinit, g, p, run, samples)(t)(0)
    ensures forall m: nat :: 1 <= m <= Base(g) ==>
              Follow(n, o.zinit, g, p, run, samples)(t)(m) == RoleValue(n, o.zinit, p.roles[m], run, samples, t)
  {
    var src := SourceValues(n, o.zinit, p, run, samples, t);
    var v := Follow(n, o.zinit, g, p, run, samples)(t);
    EvalVarHolds(Base(g), g.gates, src);
    var w: Assignment := (m: nat) => EvalVar(Base(g), g.gates, src, m);
    assert forall m: nat :: v(m) == w(m);
    forall k | 0 <= k < |g.gates| ensures v(Base(g) + k + 1) == (Lit(v, g.gates[k].rhs0) && Lit(v, g.gates[k].rhs1)) {
      assert Lit(v, g.gates[k].rhs0) == Lit(w, g.gates[k].rhs0);
      assert Lit(v, g.gates[k].rhs1) == Lit(w, g.gates[k].rhs1);
    }
  }

  lemma FollowStart(n: Netlist, o: Options, g: Aig, p: Plan, run: nat -> Valuation, samples: nat -> Stream, t: nat)
    requires Topological(Base(g), g.gates) && |p.roles| == Base(g) + 1
    requires StartPlaced(n, o, g.inputs, p.start) && LatchRoles(n, o, g.inputs, p.roles) && NeedsStart(n, o)
    ensures Lit(Follow(n, o.zinit, g, p, run, samples)(t), p.start) == (t == 0)
  {
    FollowHolds(n, o, g, p, run, samples, t);
    PositiveLit(Follow(n, o.zinit, g, p, run, samples)(t), g.inputs + |n.ffs| + 1);
  }

  lemma FollowFf(n: Netlist, o: Options, g: Aig, p: Plan, run: nat -> Valuation, samples: nat -> Stream, t: nat,
                 j: nat)
    requires Topological(Base(g), g.gates) && |p.roles| == Base(g) + 1 && j < |n.ffs| <= |g.latches|
    requires StartPlaced(n, o, g.inputs, p.start) && LatchRoles(n, o, g.inputs, p.roles)
    requires FfsPlaced(n, o.zinit, g.inputs, Base(g), g.gates, p.roles, p.start, p.src)
    ensures Lit(Follow(n, o.zinit, g, p, run, samples)(t), p.src[n.ffs[j].q]) == run(t)(n.ffs[j].q)
  {
    var v := Follow(n, o.zinit, g, p, run, samples)(t);
    FollowHolds(n, o, g, p, run, samples, t);
    assert FfRole(g.inputs, p.roles, j);
    if o.zinit && IsFree(n, j) {
      assert HasFreeFf(n);
      FollowStart(n, o, g, p, run, samples, t);
    }
    FfLit(n, o.zinit, g.inputs, Base(g), g.gates, p.roles, p.start, j, p.src[n.ffs[j].q], v,
        t == 0, run(t)(n.ffs[j].q));
  }

  lemma FollowInput(n: Netlist, o: Options, g: Aig, p: Plan, run: nat -> Valuation, samples: nat -> Stream, t: nat,
                    i: nat)
    requires Topological(Base(g), g.gates) && |p.roles| == Base(g) + 1 && i < |n.inputs|
    requires InputsPlaced(n, g.inputs, p.roles, p.src)
    ensures Lit(Follow(n, o.zinit, g, p, run, samples)(t), p.src[n.inputs[i]]) == run(t)(n.inputs[i])
  {
    FollowHolds(n, o, g, p, run, samples, t);
    assert InputPlaced(p.roles, p.src, n.inputs[i], i);
    PositiveLit(Follow(n, o.zinit, g, p, run, samples)(t), i + 1);
  }

  lemma FollowSource(n: Netlist, o: Options, g: Aig, p: Plan, run: nat -> Valuation, samples: nat -> Stream, t: nat,
                     b: Bit)
    requires Compiled(n, o, g, p) && NetRun(n, run) && b in p.src
    ensures Lit(Follow(n, o.zinit, g, p, run, samples)(t), p.src[b]) == run(t)(b)
  {
    FollowHolds(n, o, g, p, run, samples, t);
    assert Settled(n, run(t), t == 0);
    assert IsSource(n, b);
    if b in n.inputs {
      var i: nat :| i < |n.inputs| && n.inputs[i] == b;
      FollowInput(n, o, g, p, run, samples, t, i);
    } else if IsFf(n, b) {
      var j: nat :| j < |n.ffs| && n.ffs[j].q == b;
      FollowFf(n, o, g, p, run, samples, t, j);
    }
  }

  /** Every translated bit has, in the graph run that follows, the value it has in the netlist run. */
  lemma {:induction false} FollowMatches(n: Netlist, rank: Bit -> nat, o: Options, g: Aig, p: Plan,
                                         run: nat -> Valuation, samples: nat -> Stream)
    requires Acyclic(n, rank) && Compiled(n, o, g, p) && NetRun(n, run)
    ensures Matches(p, run, Follow(n, o.zinit, g, p, run, samples))
  {
    var graph := Follow(n, o.zinit, g, p, run, samples);
    forall t: nat, b | b in p.lits ensures Lit(graph(t), p.lits[b]) == run(t)(b) {
      FollowHolds(n, o, g, p, run, samples, t);
      forall c | c in p.src ensures Lit(graph(t), p.src[c]) == run(t)(c) {
        FollowSource(n, o, g, p, run, samples, t, c);
      }
      if HasInitState(n) { FollowStart(n, o, g, p, run, samples, t); }
      assert Settled(n, run(t), t == 0);
      LitsAgree(n, rank, Base(g), g.gates, p, graph(t), run(t), t == 0, b);
    }
  }

  // --------------------------------------------------------- the monitors

  lemma {:induction false} LiveStep(c: Check, base: nat, lits: map<Bit, nat>, gates: seq<Gate>, s: nat, q1: nat,
                                    q2: nat, d1: nat, d2: nat, out: nat, v: Assignment)
    requires LiveLits(c, base, lits, gates, s, q1, q2, d1, d2, out) && GatesHold(base, gates, v)
    ensures Lit(v, d1) == ((v(s) && Lit(v, lits[c.en])) || v(q1))
    ensures Lit(v, d2) == ((Lit(v, d1) && Lit(v, lits[c.a])) || v(q2))
    ensures Lit(v, out) == (v(q1) && !v(q2))
  {
    var g1: nat, g2: nat :| LiveParts(c, base, lits, gates, s, q1, q2, d1, d2, out, g1, g2);
    PositiveLit(v, s);
    PositiveLit(v, q1);
    PositiveLit(v, q2);
    FlipLit(v, g1);
    FlipLit(v, g2);
    FlipLit(v, d1);
    FlipLit(v, d2);
    FlipLit(v, 2 * q1);
    FlipLit(v, 2 * q2);
    GateLit(base, gates, v, 2 * s, lits[c.en], g1);
    GateLit(base, gates, v, Flip(g1), Flip(2 * q1), Flip(d1));
    GateLit(base, gates, v, d1, lits[c.a], g2);
    GateLit(base, gates, v, Flip(g2), Flip(2 * q2), Flip(d2));
    GateLit(base, gates, v, 2 * q1, Flip(2 * q2), out);
  }

  lemma FairStep(c: Check, base: nat, lits: map<Bit, nat>, gates: seq<Gate>, q: nat, d: nat, v: Assignment)
    requires FairLits(c, base, lits, gates, q, d) && GatesHold(base, gates, v)
    ensures Lit(v, d) == ((v(q) || Lit(v, lits[c.en])) && !Lit(v, lits[c.a]))
  {
    var g: nat :| FairParts(c, base, lits, gates, q, d, g);
    PositiveLit(v, q);
    FlipLit(v, 2 * q);
    FlipLit(v, lits[c.en]);
    FlipLit(v, g);
    FlipLit(v, lits[c.a]);
    GateLit(base, gates, v, Flip(2 * q), Flip(lits[c.en]), g);
    GateLit(base, gates, v, Flip(g), Flip(lits[c.a]), d);
  }

  lemma LiveSteps(n: Netlist, o: Options, g: Aig, p: Plan, k: nat, v: Assignment)
    requires k < |n.live| == |g.justice| && UsedLatches(n, o) <= |g.latches|
    requires LiveCompiled(n, o, g, p, k) && GraphSettled(g, v)
    ensures var l, c := LiveLatch(n, o, k), n.live[k];
            && c.a in p.lits && c.en in p.lits
            && Lit(v, g.latches[l].next) == ((v(p.samples + k + 1) && Lit(v, p.lits[c.en])) || v(g.inputs + l + 1))
            && Lit(v, g.latches[l + 1].next)
               == ((Lit(v, g.latches[l].next) && Lit(v, p.lits[c.a])) || v(g.inputs + l + 2))
            && Lit(v, g.justice[k]) == (v(g.inputs + l + 1) && !v(g.inputs + l + 2))
  {
    hide GateOutput, GatesHold, Flip;
    var l := LiveLatch(n, o, k);
    LiveStep(n.live[k], Base(g), p.lits, g.gates, p.samples + k + 1, g.inputs + l + 1, g.inputs + l + 2,
             g.latches[l].next, g.latches[l + 1].next, g.justice[k], v);
  }

  lemma FairSteps(n: Netlist, o: Options, g: Aig, p: Plan, k: nat, v: Assignment)
    requires k < |n.fair| == |g.fairness| && UsedLatches(n, o) <= |g.latches|
    requires FairCompiled(n, o, g, p, k) && GraphSettled(g, v)
    ensures var l, c := FairLatch(n, o, k), n.fair[k];
            && c.a in p.lits && c.en in p.lits
            && Lit(v, g.latches[l].next) == ((v(g.inputs + l + 1) || Lit(v, p.lits[c.en])) && !Lit(v, p.lits[c.a]))
            && Lit(v, g.fairness[k]) == !v(g.inputs + l + 1)
  {
    hide GateOutput, GatesHold;
    var l := FairLatch(n, o, k);
    FairStep(n.fair[k], Base(g), p.lits, g.gates, g.inputs + l + 1, g.latches[l].next, v);
    PositiveLit(v, g.inputs + l + 1);
    FlipLit(v, 2 * (g.inputs + l + 1));
  }

  // ------------------------------------- the run that follows is a graph run

  /** Variable m has the value its role gives it. */
  predicate PlaysRole(n: Netlist, o: Options, p: Plan, run: nat -> Valuation, samples: nat -> Stream,
                      graph: nat -> Assignment, t: nat, m: nat)
  {
    m < |p.roles| && graph(t)(m) == RoleValue(n, o.zinit, p.roles[m], run, samples, t)
  }

  ghost predicate Follows(n: Netlist, o: Options, g: Aig, p: Plan, run: nat -> Valuation, samples: nat -> Stream,
                          graph: nat -> Assignment)
  {
    && Matches(p, run, graph)
    && (forall t: nat :: GraphSettled(g, graph(t)))
    && forall t: nat, m: nat :: 1 <= m <= Base(g) ==> PlaysRole(n, o, p, run, samples, graph, t, m)
  }

  lemma FfLatchClocked(n: Netlist, o: Options, g: Aig, p: Plan, run: nat -> Valuation, samples: nat -> Stream,
                       graph: nat -> Assignment, t: nat, l: nat)
    requires Compiled(n, o, g, p) && Follows(n, o, g, p, run, samples, graph) && NetRun(n, run) && l < |n.ffs|
    ensures graph(t + 1)(g.inputs + l + 1) == Lit(graph(t), g.latches[l].next)
  {
    hide GateOutput, GatesHold, Justified, LiveCompiled, FairCompiled, FfsPlaced, ChecksCompiled, InputsPlaced,
         SourcesOnly, HasInitState, HasFreeFf;
    assert FfRole(g.inputs, p.roles, l);
    assert PlaysRole(n, o, p, run, samples, graph, t + 1, g.inputs + l + 1);
    assert Clocked(n, run(t), run(t + 1));
    assert FfCompiled(n, o, g, p, l);
    FlipLit(graph(t), p.lits[n.ffs[l].d]);
  }

  lemma LiveStates(n: Netlist, o: Options, g: Aig, p: Plan, run: nat -> Valuation, samples: nat -> Stream,
                   graph: nat -> Assignment, t: nat, k: nat)
    requires Follows(n, o, g, p, run, samples, graph) && k < |n.live| && UsedLatches(n, o) <= |g.latches|
    requires LiveRoles(n, o, g.inputs, p.roles, k) && SampleRole(p.samples, p.roles, k) && p.samples + k + 1 <= g.inputs
    ensures var l, en, a := LiveLatch(n, o, k), EnStream(n.live[k], run), AStream(n.live[k], run);
            && graph(t)(p.samples + k + 1) == samples(k)(t)
            && graph(t)(g.inputs + l + 1) == Sampled(samples(k), en, t)
            && graph(t)(g.inputs + l + 2) == Served(samples(k), en, a, t)
  {
    hide GraphSettled, Matches;
    var l := LiveLatch(n, o, k);
    assert PlaysRole(n, o, p, run, samples, graph, t, p.samples + k + 1);
    assert PlaysRole(n, o, p, run, samples, graph, t, g.inputs + l + 1);
    assert PlaysRole(n, o, p, run, samples, graph, t, g.inputs + l + 2);
  }

  lemma WatchedValues(p: Plan, run: nat -> Valuation, graph: nat -> Assignment, c: Check, t: nat)
    requires Matches(p, run, graph) && Watched(c, p.lits)
    ensures Lit(graph(t), p.lits[c.en]) == EnStream(c, run)(t) && Lit(graph(t), p.lits[c.a]) == AStream(c, run)(t)
  {
  }

  lemma LiveLatchClocked(n: Netlist, o: Options, g: Aig, p: Plan, run: nat -> Valuation, samples: nat -> Stream,
                         graph: nat -> Assignment, t: nat, k: nat)
    requires k < |n.live| == |g.justice| && UsedLatches(n, o) <= |g.latches|
    requires Follows(n, o, g, p, run, samples, graph) && SampleRole(p.samples, p.roles, k)
    requires LiveRoles(n, o, g.inputs, p.roles, k) && LiveCompiled(n, o, g, p, k)
    requires p.samples + k + 1 <= g.inputs
    ensures var l := LiveLatch(n, o, k);
            graph(t + 1)(g.inputs + l + 1) == Lit(graph(t), g.latches[l].next)
            && graph(t + 1)(g.inputs + l + 2) == Lit(graph(t), g.latches[l + 1].next)
  {
    hide LiveCompiled, GraphSettled, Lit, LiveRoles, Matches;
    LiveSteps(n, o, g, p, k, graph(t));
    LiveStates(n, o, g, p, run, samples, graph, t, k);
    LiveStates(n, o, g, p, run, samples, graph, t + 1, k);
    WatchedValues(p, run, graph, n.live[k], t);
  }

  lemma FairState(n: Netlist, o: Options, g: Aig, p: Plan, run: nat -> Valuation, samples: nat -> Stream,
                  graph: nat -> Assignment, t: nat, k: nat)
    requires Follows(n, o, g, p, run, samples, graph) && k < |n.fair| && UsedLatches(n, o) <= |g.latches|
    requires FairRole(n, o, g.inputs, p.roles, k)
    ensures graph(t)(g.inputs + FairLatch(n, o, k) + 1) == Waiting(EnStream(n.fair[k], run), AStream(n.fair[k], run), t)
  {
    hide GraphSettled, Matches;
    assert PlaysRole(n, o, p, run, samples, graph, t, g.inputs + FairLatch(n, o, k) + 1);
  }

  lemma FairLatchClocked(n: Netlist, o: Options, g: Aig, p: Plan, run: nat -> Valuation, samples: nat -> Stream,
                         graph: nat -> Assignment, t: nat, k: nat)
    requires k < |n.fair| == |g.fairness| && UsedLatches(n, o) <= |g.latches|
    requires Follows(n, o, g, p, run, samples, graph)
    requires FairRole(n, o, g.inputs, p.roles, k) && FairCompiled(n, o, g, p, k)
    ensures var l := FairLatch(n, o, k); graph(t + 1)(g.inputs + l + 1) == Lit(graph(t), g.latches[l].next)
  {
    hide FairCompiled, GraphSettled, Lit, FairRole, Matches;
    FairSteps(n, o, g, p, k, graph(t));
    FairState(n, o, g, p, run, samples, graph, t, k);
    FairState(n, o, g, p, run, samples, graph, t + 1, k);
    WatchedValues(p, run, graph, n.fair[k], t);
  }

  lemma StartLatchClocked(n: Netlist, o: Options, g: Aig, p: Plan, run: nat -> Valuation, samples: nat -> Stream,
                          graph: nat -> Assignment, t: nat)
    requires NeedsStart(n, o) && HasRole(p.roles, g.inputs + |n.ffs| + 1, StartVar) && |n.ffs| < |g.latches|
    requires g.latches[|n.ffs|] == Latch(1, ToZero) && Follows(n, o, g, p, run, samples, graph)
    ensures graph(t + 1)(g.inputs + |n.ffs| + 1) == Lit(graph(t), g.latches[|n.ffs|].next)
  {
    hide GatesHold, NeedsStart;
    assert PlaysRole(n, o, p, run, samples, graph, t + 1, g.inputs + |n.ffs| + 1);
    assert GraphSettled(g, graph(t));
  }

  lemma PaddingClocked(n: Netlist, o: Options, g: Aig, p: Plan, run: nat -> Valuation, samples: nat -> Stream,
                       graph: nat -> Assignment, t: nat)
    requires HasRole(p.roles, g.inputs + 1, Unused) && |g.latches| == 1 && g.latches[0] == Latch(0, ToZero)
    requires Follows(n, o, g, p, run, samples, graph)
    ensures graph(t + 1)(g.inputs + 1) == Lit(graph(t), g.latches[0].next)
  {
    hide GatesHold;
    assert PlaysRole(n, o, p, run, samples, graph, t + 1, g.inputs + 1);
    assert GraphSettled(g, graph(t));
  }

  /** The latches of the monitors. */
  lemma MonitorLatchClocked(n: Netlist, o: Options, g: Aig, p: Plan, run: nat -> Valuation, samples: nat -> Stream,
                            graph: nat -> Assignment, t: nat, l: nat)
    requires |g.justice| == |n.live| && |g.fairness| == |n.fair| && UsedLatches(n, o) <= |g.latches|
    requires LatchesCompiled(n, o, g, p) && LatchRoles(n, o, g.inputs, p.roles)
    requires SamplesPlaced(n, g.inputs, p.roles, p.samples) && Follows(n, o, g, p, run, samples, graph)
    requires LiveLatch(n, o, 0) <= l < UsedLatches(n, o)
    ensures graph(t + 1)(g.inputs + l + 1) == Lit(graph(t), g.latches[l].next)
  {
    hide LiveCompiled, FairCompiled, FfCompiled, Follows, HasInitState, HasFreeFf, Lit, FfRole, LiveRoles, FairRole,
         NeedsStart, Starts, SampleRole;
    var q := LiveLatch(n, o, 0);
    if l < q + 2 * |n.live| {
      LiveLatchClocked(n, o, g, p, run, samples, graph, t, (l - q) / 2);
    } else {
      FairLatchClocked(n, o, g, p, run, samples, graph, t, l - q - 2 * |n.live|);
    }
  }

  lemma FollowsClocked(n: Netlist, o: Options, g: Aig, p: Plan, run: nat -> Valuation, samples: nat -> Stream,
                       graph: nat -> Assignment, t: nat, l: nat)
    requires Compiled(n, o, g, p) && Follows(n, o, g, p, run, samples, graph) && NetRun(n, run) && l < |g.latches|
    ensures graph(t + 1)(g.inputs + l + 1) == Lit(graph(t), g.latches[l].next)
  {
    hide GateOutput, GatesHold, Justified, LiveCompiled, FairCompiled, FfCompiled, FfsPlaced, Follows,
         ChecksCompiled, InputsPlaced, SourcesOnly, NetRun, HasInitState, HasFreeFf, Lit, Topological, StartPlaced,
         LiveRoles, FairRole, FfRole;
    if l < |n.ffs| {
      FfLatchClocked(n, o, g, p, run, samples, graph, t, l);
    } else if l < LiveLatch(n, o, 0) {
      StartLatchClocked(n, o, g, p, run, samples, graph, t);
    } else if l < UsedLatches(n, o) {
      MonitorLatchClocked(n, o, g, p, run, samples, graph, t, l);
    } else {
      PaddingClocked(n, o, g, p, run, samples, graph, t);
    }
  }

  lemma FfLatchReset(n: Netlist, o: Options, g: Aig, p: Plan, run: nat -> Valuation, samples: nat -> Stream,
                     graph: nat -> Assignment, l: nat)
    requires Follows(n, o, g, p, run, samples, graph) && l < |n.ffs| <= |g.latches| && Initially(n, run(0))
    requires FfRole(g.inputs, p.roles, l) && FfCompiled(n, o, g, p, l)
    ensures ResetOk(g.latches[l].reset, graph(0)(g.inputs + l + 1))
  {
    hide GraphSettled, Matches;
    assert PlaysRole(n, o, p, run, samples, graph, 0, g.inputs + l + 1);
  }

  lemma FollowsReset(n: Netlist, o: Options, g: Aig, p: Plan, run: nat -> Valuation, samples: nat -> Stream,
                     graph: nat -> Assignment, l: nat)
    requires Compiled(n, o, g, p) && Follows(n, o, g, p, run, samples, graph) && NetRun(n, run) && l < |g.latches|
    ensures ResetOk(g.latches[l].reset, graph(0)(g.inputs + l + 1))
  {
    hide GateOutput, GatesHold, Justified, LiveLits, FairLits, FfCompiled, FfsPlaced, ChecksCompiled, InputsPlaced,
         SourcesOnly, HasInitState, HasFreeFf, RoleValue, Follows, LiveRoles, FairRole, Lit;
    var q := LiveLatch(n, o, 0);
    if l < |n.ffs| {
      FfLatchReset(n, o, g, p, run, samples, graph, l);
    } else if l < q {
      StartsLow(n, o, g, p, run, samples, graph);
    } else if l < q + 2 * |n.live| {
      var k := (l - q) / 2;
      assert LiveCompiled(n, o, g, p, k);
      LiveStates(n, o, g, p, run, samples, graph, 0, k);
    } else if l < UsedLatches(n, o) {
      var k := l - q - 2 * |n.live|;
      assert FairCompiled(n, o, g, p, k);
      FairState(n, o, g, p, run, samples, graph, 0, k);
    } else {
      PaddingLow(n, o, g, p, run, samples, graph);
    }
  }

  lemma StartsLow(n: Netlist, o: Options, g: Aig, p: Plan, run: nat -> Valuation, samples: nat -> Stream,
                  graph: nat -> Assignment)
    requires Follows(n, o, g, p, run, samples, graph) && |n.ffs| < |g.latches|
    requires HasRole(p.roles, g.inputs + |n.ffs| + 1, StartVar)
    ensures !graph(0)(g.inputs + |n.ffs| + 1)
  {
    hide GraphSettled, Matches;
    assert PlaysRole(n, o, p, run, samples, graph, 0, g.inputs + |n.ffs| + 1);
  }

  lemma PaddingLow(n: Netlist, o: Options, g: Aig, p: Plan, run: nat -> Valuation, samples: nat -> Stream,
                   graph: nat -> Assignment)
    requires Follows(n, o, g, p, run, samples, graph) && |g.latches| == 1 && HasRole(p.roles, g.inputs + 1, Unused)
    ensures !graph(0)(g.inputs + 1)
  {
    hide GraphSettled, Matches;
    assert PlaysRole(n, o, p, run, samples, graph, 0, g.inputs + 1);
  }

  lemma FollowFollows(n: Netlist, rank: Bit -> nat, o: Options, g: Aig, p: Plan, run: nat -> Valuation,
                      samples: nat -> Stream)
    requires Acyclic(n, rank) && Compiled(n, o, g, p) && NetRun(n, run)
    ensures Follows(n, o, g, p, run, samples, Follow(n, o.zinit, g, p, run, samples))
  {
    hide RoleValue, GateOutput, GatesHold, Justified, LatchesCompiled, FfsPlaced, ChecksCompiled, InputsPlaced, NetRun,
         LatchRoles;
    var graph := Follow(n, o.zinit, g, p, run, samples);
    FollowMatches(n, rank, o, g, p, run, samples);
    forall t: nat ensures GraphSettled(g, graph(t)) {
      FollowHolds(n, o, g, p, run, samples, t);
    }
    forall t: nat, m: nat | 1 <= m <= Base(g) ensures PlaysRole(n, o, p, run, samples, graph, t, m) {
      FollowHolds(n, o, g, p, run, samples, t);
    }
  }

  /** Every run of the netlist has, for every choice of samples, a run of the graph that matches it. */
  lemma NetlistToGraph(n: Netlist, rank: Bit -> nat, o: Options, g: Aig, p: Plan, run: nat -> Valuation,
                       samples: nat -> Stream)
    returns (graph: nat -> Assignment)
    requires Acyclic(n, rank) && Compiled(n, o, g, p) && NetRun(n, run)
    ensures GraphRun(g, graph) && Matches(p, run, graph)
    ensures forall t: nat, k :: 0 <= k < |n.live| ==> graph(t)(p.samples + k + 1) == samples(k)(t)
  {
    hide RoleValue, PlaysRole, Follow, GateOutput, GatesHold, Justified, LatchesCompiled, FfsPlaced, ChecksCompiled,
         InputsPlaced, NetRun, LatchRoles, Lit, ResetOk;
    graph := Follow(n, o.zinit, g, p, run, samples);
    FollowFollows(n, rank, o, g, p, run, samples);
    forall l | 0 <= l < |g.latches| ensures ResetOk(g.latches[l].reset, graph(0)(g.inputs + l + 1)) {
      FollowsReset(n, o, g, p, run, samples, graph, l);
    }
    forall t: nat ensures LatchesClocked(g, graph(t), graph(t + 1)) {
      forall l | 0 <= l < |g.latches| ensures graph(t + 1)(g.inputs + l + 1) == Lit(graph(t), g.latches[l].next) {
        FollowsClocked(n, o, g, p, run, samples, graph, t, l);
      }
    }
    SamplesFollowed(n, o, g, p, run, samples, graph);
  }

  lemma SamplesFollowed(n: Netlist, o: Options, g: Aig, p: Plan, run: nat -> Valuation, samples: nat -> Stream,
                        graph: nat -> Assignment)
    requires Follows(n, o, g, p, run, samples, graph) && SamplesPlaced(n, g.inputs, p.roles, p.samples)
    ensures forall t: nat, k :: 0 <= k < |n.live| ==> graph(t)(p.samples + k + 1) == samples(k)(t)
  {
    forall t: nat, k | 0 <= k < |n.live| ensures graph(t)(p.samples + k + 1) == samples(k)(t) {
      assert SampleRole(p.samples, p.roles, k);
      assert PlaysRole(n, o, p, run, samples, graph, t, p.samples + k + 1);
    }
  }

  // ------------------------------------------------- from graph to netlist

  function GraphSources(p: Plan, v: Assignment): Valuation {
    (b: Bit) => b in p.src && Lit(v, p.src[b])
  }

  /** The netlist run a graph run stands for. */
  function ReadBack(n: Netlist, rank: Bit -> nat, p: Plan, graph: nat -> Assignment): nat -> Valuation
    requires Acyclic(n, rank)
  {
    (t: nat) => (b: Bit) => Eval(n, rank, GraphSources(p, graph(t)), t == 0, b)
  }

  lemma ReadBackSettles(n: Netlist, rank: Bit -> nat, p: Plan, graph: nat -> Assignment, t: nat)
    requires Acyclic(n, rank) && WellFormed(n)
    ensures Settled(n, ReadBack(n, rank, p, graph)(t), t == 0)
  {
    hide GraphSources, Eval, WellFormed, FaninsBelow;
    var val, src := ReadBack(n, rank, p, graph)(t), GraphSources(p, graph(t));
    var w: Valuation := (b: Bit) => Eval(n, rank, src, t == 0, b);
    EvalSettles(n, rank, src, t == 0);
    assert forall b :: val(b) == w(b);
    forall b | b in n.drivers ensures val(b) == DriverValue(n.drivers[b], val, t == 0) {
      assert w(b) == DriverValue(n.drivers[b], w, t == 0);
    }
  }

  lemma ReadBackSources(n: Netlist, rank: Bit -> nat, p: Plan, graph: nat -> Assignment, t: nat)
    requires Acyclic(n, rank) && WellFormed(n) && SourcesOnly(n, p.src) && !graph(t)(0)
    ensures SourcesAgree(p.src, graph(t), ReadBack(n, rank, p, graph)(t))
  {
    hide FaninsBelow;
    forall b | b in p.src ensures Lit(graph(t), p.src[b]) == ReadBack(n, rank, p, graph)(t)(b) {
      assert IsSource(n, b);
    }
  }

  lemma ReadBackMatches(n: Netlist, rank: Bit -> nat, o: Options, g: Aig, p: Plan, graph: nat -> Assignment, t: nat,
                        b: Bit)
    requires WellFormed(n) && Acyclic(n, rank) && Compiled(n, o, g, p) && GraphRun(g, graph) && b in p.lits
    ensures Lit(graph(t), p.lits[b]) == ReadBack(n, rank, p, graph)(t)(b)
  {
    hide GatesHold, GateOutput, ChecksCompiled, InputsPlaced, LatchRoles, LiveCompiled, FairCompiled, SamplesPlaced,
         FfCompiled, FfsPlaced, Justified, SourcesOnly, SourcesAgree, ReadBack, Acyclic, Lit, WellFormed;
    assert GraphSettled(g, graph(t));
    ReadBackSettles(n, rank, p, graph, t);
    ReadBackSources(n, rank, p, graph, t);
    if HasInitState(n) { StartLit(n, o, g, p, graph, t); }
    LitsAgree(n, rank, Base(g), g.gates, p, graph(t), ReadBack(n, rank, p, graph)(t), t == 0, b);
  }

  /** The first-cycle literal is true in the first cycle only. */
  lemma StartLit(n: Netlist, o: Options, g: Aig, p: Plan, graph: nat -> Assignment, t: nat)
    requires NeedsStart(n, o) && StartPlaced(n, o, g.inputs, p.start) && |n.ffs| < |g.latches|
    requires g.latches[|n.ffs|] == Latch(1, ToZero) && GraphRun(g, graph)
    ensures Lit(graph(t), p.start) == (t == 0)
  {
    hide GatesHold, NeedsStart;
    PositiveLit(graph(t), g.inputs + |n.ffs| + 1);
    if t > 0 {
      assert LatchesClocked(g, graph(t - 1), graph(t - 1 + 1));
      assert GraphSettled(g, graph(t - 1));
    }
  }

  /** After the first cycle the literal of a flop is its latch, negated for one that starts at one. */
  lemma FfLatchLit(n: Netlist, zinit: bool, inputs: nat, base: nat, gates: seq<Gate>, roles: seq<Role>, start: nat,
                   j: nat, l: nat, v: Assignment)
    requires j < |n.ffs| && FfPlaced(n, zinit, inputs, base, gates, roles, start, j, l) && GatesHold(base, gates, v)
    requires zinit && IsFree(n, j) ==> !Lit(v, start)
    ensures Lit(v, l) == (v(inputs + j + 1) != (zinit && StartsAtOne(n, j)))
  {
    hide GatesHold, GateOutput, Flip;
    var m := inputs + j + 1;
    PositiveLit(v, m);
    if zinit && IsFree(n, j) {
      var x: nat, g1: nat, g2: nat :| MuxParts(inputs, base, gates, roles, start, m, j, l, x, g1, g2);
      MuxLit(base, gates, v, 2 * m, 2 * x, start, g1, g2, l);
    }
  }

  lemma FfInitially(n: Netlist, o: Options, g: Aig, p: Plan, graph: nat -> Assignment, j: nat)
    requires Compiled(n, o, g, p) && GraphRun(g, graph) && j < |n.ffs| && n.ffs[j].q in n.init
    ensures Lit(graph(0), p.src[n.ffs[j].q]) == n.init[n.ffs[j].q]
  {
    hide GatesHold, GateOutput, Justified, ChecksCompiled, InputsPlaced, LatchRoles, LiveCompiled, FairCompiled,
         HasInitState, HasFreeFf, SamplesPlaced;
    assert FfCompiled(n, o, g, p, j);
    FfLatchLit(n, o.zinit, g.inputs, Base(g), g.gates, p.roles, p.start, j, p.src[n.ffs[j].q], graph(0));
  }

  lemma FfClocked(n: Netlist, o: Options, g: Aig, p: Plan, graph: nat -> Assignment, t: nat, j: nat)
    requires Compiled(n, o, g, p) && GraphRun(g, graph) && j < |n.ffs|
    ensures n.ffs[j].d in p.lits && n.ffs[j].q in p.src
    ensures Lit(graph(t + 1), p.src[n.ffs[j].q]) == Lit(graph(t), p.lits[n.ffs[j].d])
  {
    hide GatesHold, GateOutput, Justified, ChecksCompiled, InputsPlaced, LatchRoles, LiveCompiled, FairCompiled,
         HasInitState, SamplesPlaced;
    assert FfCompiled(n, o, g, p, j);
    if o.zinit && IsFree(n, j) {
      assert HasFreeFf(n);
      StartLit(n, o, g, p, graph, t + 1);
    }
    assert GraphSettled(g, graph(t + 1));
    FfLatchLit(n, o.zinit, g.inputs, Base(g), g.gates, p.roles, p.start, j, p.src[n.ffs[j].q], graph(t + 1));
    assert LatchesClocked(g, graph(t), graph(t + 1));
    FlipLit(graph(t), p.lits[n.ffs[j].d]);
  }

  /** Every run of the graph matches a run of the netlist. */
  lemma GraphToNetlist(n: Netlist, rank: Bit -> nat, o: Options, g: Aig, p: Plan, graph: nat -> Assignment)
    returns (run: nat -> Valuation)
    requires WellFormed(n) && Acyclic(n, rank) && Compiled(n, o, g, p) && GraphRun(g, graph)
    ensures NetRun(n, run) && Matches(p, run, graph)
  {
    hide GatesHold, GateOutput, Compiled, ReadBack, GraphRun, Lit, Settled, WellFormed, Acyclic;
    run := ReadBack(n, rank, p, graph);
    forall t: nat ensures Settled(n, run(t), t == 0) {
      ReadBackSettles(n, rank, p, graph, t);
    }
    forall t: nat, b | b in p.lits ensures Lit(graph(t), p.lits[b]) == run(t)(b) {
      ReadBackMatches(n, rank, o, g, p, graph, t, b);
    }
    forall j | 0 <= j < |n.ffs| && n.ffs[j].q in n.init ensures run(0)(n.ffs[j].q) == n.init[n.ffs[j].q] {
      FfInitially(n, o, g, p, graph, j);
      FfClocked(n, o, g, p, graph, 0, j);
      SourceTranslated(n, o, g, p, n.ffs[j].q);
    }
    forall t: nat ensures Clocked(n, run(t), run(t + 1)) {
      forall j | 0 <= j < |n.ffs| ensures run(t + 1)(n.ffs[j].q) == run(t)(n.ffs[j].d) {
        FfClocked(n, o, g, p, graph, t, j);
        SourceTranslated(n, o, g, p, n.ffs[j].q);
      }
    }
  }

  lemma SourceTranslated(n: Netlist, o: Options, g: Aig, p: Plan, b: Bit)
    requires Compiled(n, o, g, p) && b in p.src
    ensures b in p.lits && p.lits[b] == p.src[b]
  {
    hide GatesHold, GateOutput, ChecksCompiled, InputsPlaced, LatchRoles, LatchesCompiled, SamplesPlaced, FfsPlaced;
  }

  // ------------------------------------------------------ what can be seen

  /** Outputs have the netlist's values, a bad is an enabled assert that fails, a constraint an assume
      that is not enabled or holds; what is added beyond the netlist's own is false. */
  lemma ObservablesAgree(n: Netlist, o: Options, g: Aig, p: Plan, run: nat -> Valuation, graph: nat -> Assignment,
                         t: nat)
    requires Compiled(n, o, g, p) && GraphRun(g, graph) && Matches(p, run, graph)
    ensures forall k :: 0 <= k < |n.outputs| ==> Lit(graph(t), g.outputs[k]) == run(t)(n.outputs[k])
    ensures forall k :: 0 <= k < |n.asserts| ==>
              Lit(graph(t), g.bads[k]) == (run(t)(n.asserts[k].en) && !run(t)(n.asserts[k].a))
    ensures forall k :: 0 <= k < |n.assumes| ==>
              Lit(graph(t), g.constraints[k]) == (run(t)(n.assumes[k].en) ==> run(t)(n.assumes[k].a))
    ensures forall k :: |n.outputs| <= k < |g.outputs| ==> !Lit(graph(t), g.outputs[k])
    ensures forall k :: |n.asserts| <= k < |g.bads| ==> !Lit(graph(t), g.bads[k])
  {
    hide GatesHold, GateOutput, Justified, InputsPlaced, LatchRoles, LatchesCompiled, FfsPlaced, SamplesPlaced;
    var v := graph(t);
    assert GraphSettled(g, v);
    forall k | 0 <= k < |n.asserts|
      ensures Lit(v, g.bads[k]) == (run(t)(n.asserts[k].en) && !run(t)(n.asserts[k].a))
    {
      FailValue(n.asserts[k], g, p, run, graph, t, g.bads[k]);
    }
    forall k | 0 <= k < |n.assumes|
      ensures Lit(v, g.constraints[k]) == (run(t)(n.assumes[k].en) ==> run(t)(n.assumes[k].a))
    {
      FailValue(n.assumes[k], g, p, run, graph, t, Flip(g.constraints[k]));
      FlipLit(v, g.constraints[k]);
    }
    forall k | |n.outputs| <= k < |g.outputs| ensures g.outputs[k] == 0 {
      assert g.outputs[|n.outputs|..][k - |n.outputs|] == 0;
    }
    forall k | |n.asserts| <= k < |g.bads| ensures g.bads[k] == 0 {
      assert g.bads[|n.asserts|..][k - |n.asserts|] == 0;
    }
  }

  lemma FailValue(c: Check, g: Aig, p: Plan, run: nat -> Valuation, graph: nat -> Assignment, t: nat, l: nat)
    requires FailLit(c, Base(g), p.lits, g.gates, l) && GraphSettled(g, graph(t)) && Matches(p, run, graph)
    ensures Lit(graph(t), l) == (run(t)(c.en) && !run(t)(c.a))
  {
    GateLit(Base(g), g.gates, graph(t), Flip(p.lits[c.a]), p.lits[c.en], l);
    FlipLit(graph(t), p.lits[c.a]);
    assert Lit(graph(t), p.lits[c.a]) == run(t)(c.a) && Lit(graph(t), p.lits[c.en]) == run(t)(c.en);
  }
}
