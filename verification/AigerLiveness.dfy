/**
  Live and fair cells through the whole translation: what the justice and fairness outputs of a graph
  run say about the netlist run it matches.
 */
module AigerLiveness {
  import opened GateNetlist
  import opened Aig
  import opened AigerPlan
  import opened AigerMonitors
  import opened AigerTraces

  function VarStream(graph: nat -> Assignment, m: nat): Stream {
    (t: nat) => graph(t)(m)
  }

  function LitStream(graph: nat -> Assignment, l: nat): Stream {
    (t: nat) => Lit(graph(t), l)
  }

  lemma LatchStep(g: Aig, graph: nat -> Assignment, t: nat, l: nat)
    requires GraphRun(g, graph) && l < |g.latches|
    ensures graph(t + 1)(g.inputs + l + 1) == Lit(graph(t), g.latches[l].next) && GraphSettled(g, graph(t))
  {
    hide GraphSettled, Lit;
    assert LatchesClocked(g, graph(t), graph(t + 1));
  }

  /** In every run of the graph the latches of a live monitor hold what the monitor should hold. */
  lemma {:induction false} LiveLatches(n: Netlist, o: Options, g: Aig, p: Plan, run: nat -> Valuation,
                                       graph: nat -> Assignment, t: nat, k: nat)
    requires k < |n.live| == |g.justice| && UsedLatches(n, o) <= |g.latches| && LiveCompiled(n, o, g, p, k)
    requires GraphRun(g, graph) && Matches(p, run, graph)
    ensures var l, s := LiveLatch(n, o, k), VarStream(graph, p.samples + k + 1);
            var en, a := EnStream(n.live[k], run), AStream(n.live[k], run);
            && graph(t)(g.inputs + l + 1) == Sampled(s, en, t)
            && graph(t)(g.inputs + l + 2) == Served(s, en, a, t)
    decreases t
  {
    hide GraphSettled, LiveLits, Matches;
    if t > 0 {
      LiveLatches(n, o, g, p, run, graph, t - 1, k);
      LatchStep(g, graph, t - 1, LiveLatch(n, o, k));
      LatchStep(g, graph, t - 1, LiveLatch(n, o, k) + 1);
      LiveSteps(n, o, g, p, k, graph(t - 1));
      WatchedValues(p, run, graph, n.live[k], t - 1);
    }
  }

  lemma {:induction false} JusticeValue(n: Netlist, o: Options, g: Aig, p: Plan, run: nat -> Valuation,
                                        graph: nat -> Assignment, t: nat, k: nat)
    requires k < |n.live| == |g.justice| && UsedLatches(n, o) <= |g.latches| && LiveCompiled(n, o, g, p, k)
    requires GraphRun(g, graph) && Matches(p, run, graph)
    ensures Lit(graph(t), g.justice[k])
         == Unserved(VarStream(graph, p.samples + k + 1), EnStream(n.live[k], run), AStream(n.live[k], run))(t)
  {
    hide GraphSettled, LiveCompiled, Matches, Sampled, Served, Lit;
    LiveLatches(n, o, g, p, run, graph, t, k);
    LatchStep(g, graph, t, LiveLatch(n, o, k));
    LiveSteps(n, o, g, p, k, graph(t));
  }

  lemma SameOften(s: Stream, s': Stream)
    requires InfinitelyOften(s) && forall t: nat :: s(t) == s'(t)
    ensures InfinitelyOften(s')
  {
    forall t: nat ensures HoldsFrom(s', t) {
      assert HoldsFrom(s, t);
      var u: nat :| u >= t && s(u);
      assert s'(u);
    }
  }

  /** A run of the graph that matches the netlist run and makes justice property k true again and again. */
  ghost predicate Witnesses(g: Aig, p: Plan, run: nat -> Valuation, k: nat, graph: nat -> Assignment) {
    && GraphRun(g, graph) && Matches(p, run, graph)
    && k < |g.justice| && InfinitelyOften(LitStream(graph, g.justice[k]))
  }

  /** A justice property of the graph can be met along a netlist run exactly when that run violates the
      live cell: at some cycle it is enabled, and from then on what it waits for never happens. */
  lemma {:induction false} LivenessIsExact(n: Netlist, rank: Bit -> nat, o: Options, g: Aig, p: Plan,
                                           run: nat -> Valuation, k: nat)
    requires Acyclic(n, rank) && Compiled(n, o, g, p) && NetRun(n, run) && k < |n.live|
    ensures (exists graph: nat -> Assignment :: Witnesses(g, p, run, k, graph))
            <==> LiveViolated(EnStream(n.live[k], run), AStream(n.live[k], run))
  {
    hide LiveLits, FfsPlaced, Justified, ChecksCompiled, InputsPlaced, LatchRoles, FfCompiled, FairCompiled, NetRun,
         GraphRun, Matches, InfinitelyOften, LiveViolated, Unserved, SourcesOnly;
    var en, a := EnStream(n.live[k], run), AStream(n.live[k], run);
    assert LiveCompiled(n, o, g, p, k);
    if LiveViolated(en, a) {
      var s := SampleTheViolation(en, a);
      var samples: nat -> Stream := (i: nat) => s;
      var graph := NetlistToGraph(n, rank, o, g, p, run, samples);
      forall t: nat ensures s(t) == VarStream(graph, p.samples + k + 1)(t) {
        assert graph(t)(p.samples + k + 1) == samples(k)(t);
      }
      forall t: nat ensures Unserved(s, en, a)(t) == LitStream(graph, g.justice[k])(t) {
        JusticeValue(n, o, g, p, run, graph, t, k);
        SameUnserved(s, VarStream(graph, p.samples + k + 1), en, a, t);
      }
      SameOften(Unserved(s, en, a), LitStream(graph, g.justice[k]));
      assert Witnesses(g, p, run, k, graph);
    }
    if graph: nat -> Assignment :| Witnesses(g, p, run, k, graph) {
      var s := VarStream(graph, p.samples + k + 1);
      forall t: nat ensures LitStream(graph, g.justice[k])(t) == Unserved(s, en, a)(t) {
        JusticeValue(n, o, g, p, run, graph, t, k);
      }
      SameOften(LitStream(graph, g.justice[k]), Unserved(s, en, a));
      UnservedForever(s, en, a);
    }
  }

  lemma {:induction false} SameSampled(s: Stream, s': Stream, en: Stream, t: nat)
    requires forall u: nat :: s(u) == s'(u)
    ensures Sampled(s, en, t) == Sampled(s', en, t)
  {
    if t > 0 { SameSampled(s, s', en, t - 1); }
  }

  lemma {:induction false} SameServed(s: Stream, s': Stream, en: Stream, a: Stream, t: nat)
    requires forall u: nat :: s(u) == s'(u)
    ensures Served(s, en, a, t) == Served(s', en, a, t)
  {
    if t > 0 {
      SameServed(s, s', en, a, t - 1);
      SameSampled(s, s', en, t);
    }
  }

  lemma SameUnserved(s: Stream, s': Stream, en: Stream, a: Stream, t: nat)
    requires forall u: nat :: s(u) == s'(u)
    ensures Unserved(s, en, a)(t) == Unserved(s', en, a)(t)
  {
    SameSampled(s, s', en, t);
    SameServed(s, s', en, a, t);
  }

  lemma {:induction false} FairLatchValue(n: Netlist, o: Options, g: Aig, p: Plan, run: nat -> Valuation,
                                          graph: nat -> Assignment, t: nat, k: nat)
    requires k < |n.fair| == |g.fairness| && UsedLatches(n, o) <= |g.latches| && FairCompiled(n, o, g, p, k)
    requires GraphRun(g, graph) && Matches(p, run, graph)
    ensures graph(t)(g.inputs + FairLatch(n, o, k) + 1)
         == Waiting(EnStream(n.fair[k], run), AStream(n.fair[k], run), t)
    decreases t
  {
    hide GraphSettled, FairLits, Matches;
    if t > 0 {
      FairLatchValue(n, o, g, p, run, graph, t - 1, k);
      LatchStep(g, graph, t - 1, FairLatch(n, o, k));
      FairSteps(n, o, g, p, k, graph(t - 1));
      WatchedValues(p, run, graph, n.fair[k], t - 1);
    }
  }

  /** Every matching run of the graph meets fairness constraint k exactly when in the netlist run every
      enabled moment of the fair cell is followed by what it promises. */
  lemma {:induction false} FairnessIsExact(n: Netlist, o: Options, g: Aig, p: Plan, run: nat -> Valuation,
                                           graph: nat -> Assignment, k: nat)
    requires Compiled(n, o, g, p) && GraphRun(g, graph) && Matches(p, run, graph) && k < |n.fair|
    ensures InfinitelyOften(LitStream(graph, g.fairness[k]))
            <==> FairHolds(EnStream(n.fair[k], run), AStream(n.fair[k], run))
  {
    hide LiveCompiled, FfsPlaced, Justified, ChecksCompiled, InputsPlaced, LatchRoles, FfCompiled, FairLits,
         GraphRun, Matches, InfinitelyOften, FairHolds, SourcesOnly, Waiting, GraphSettled, Lit;
    var en, a := EnStream(n.fair[k], run), AStream(n.fair[k], run);
    assert FairCompiled(n, o, g, p, k);
    forall t: nat ensures LitStream(graph, g.fairness[k])(t) == Idle(en, a)(t) {
      FairLatchValue(n, o, g, p, run, graph, t, k);
      LatchStep(g, graph, t, FairLatch(n, o, k));
      FairSteps(n, o, g, p, k, graph(t));
    }
    if InfinitelyOften(Idle(en, a)) {
      SameOften(Idle(en, a), LitStream(graph, g.fairness[k]));
    }
    if InfinitelyOften(LitStream(graph, g.fairness[k])) {
      SameOften(LitStream(graph, g.fairness[k]), Idle(en, a));
    }
    FairnessMonitorIsExact(en, a);
  }
}
