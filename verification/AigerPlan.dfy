/**
  What a finished AIGER graph has to do with the netlist it was compiled from: which variable stands
  for what, which literal stands for which bit, and how every literal is justified by the gates.
 */
module AigerPlan {
  import opened GateNetlist
  import opened Aig

  datatype Options = Options(zinit: bool, imode: bool, omode: bool, bmode: bool, lmode: bool)

  /** What a variable up to the last latch stands for. */
  datatype Role =
    | Constant
    | InputVar(b: Bit)
    | InitVar(j: nat)
    | SampleVar(k: nat)
    | FfVar(j: nat)
    | StartVar
    | SampledVar(k: nat)
    | ServedVar(k: nat)
    | WaitingVar(k: nat)
    | Unused

  /** src: literals of inputs, flops and constants; start: the literal that is true in the first cycle;
      lits: literals of all bits translated; roles: one entry per variable that is not a gate. */
  datatype Plan = Plan(src: map<Bit, nat>, start: nat, lits: map<Bit, nat>, roles: seq<Role>, samples: nat)

  predicate IsFree(n: Netlist, j: nat)
    requires j < |n.ffs|
  {
    n.ffs[j].q !in n.init
  }

  predicate HasFreeFf(n: Netlist) {
    exists j :: 0 <= j < |n.ffs| && IsFree(n, j)
  }

  predicate StartsAtOne(n: Netlist, j: nat)
    requires j < |n.ffs|
  {
    n.ffs[j].q in n.init && n.init[n.ffs[j].q]
  }

  predicate NeedsStart(n: Netlist, o: Options) {
    HasInitState(n) || (o.zinit && HasFreeFf(n))
  }

  /** Latches that stand for the first-cycle indicator: none or one. */
  function Starts(n: Netlist, o: Options): nat {
    if NeedsStart(n, o) then 1 else 0
  }

  function Ordered(x: nat, y: nat): Gate {
    if x > y then Gate(x, y) else Gate(y, x)
  }

  /** Literal l is the output of a gate with inputs x and y. */
  predicate GateOutput(base: nat, gates: seq<Gate>, x: nat, y: nat, l: nat) {
    l % 2 == 0 && base < l / 2 <= base + |gates| && gates[l / 2 - base - 1] == Ordered(x, y)
  }

  /** Literal l computes what driver d computes from the literals of its fanins. */
  predicate DriverLit(d: Driver, start: nat, base: nat, lits: map<Bit, nat>, gates: seq<Gate>, l: nat) {
    match d
    case Not(a) => a in lits && l == Flip(lits[a])
    case And(a, b) => a in lits && b in lits && GateOutput(base, gates, lits[a], lits[b], l)
    case Alias(a) => a in lits && l == lits[a]
    case InitState => l == start
  }

  predicate Justified(n: Netlist, src: map<Bit, nat>, start: nat, base: nat, lits: map<Bit, nat>, gates: seq<Gate>)
  {
    && (forall b :: b in src ==> b in lits && lits[b] == src[b])
    && (forall b | b in lits ::
          b in src || (b in n.drivers && DriverLit(n.drivers[b], start, base, lits, gates, lits[b])))
  }

  /** The multiplexer that replaces a flop without initial value: l is its output, m the latch. */
  ghost predicate ZinitMux(inputs: nat, base: nat, gates: seq<Gate>, roles: seq<Role>, start: nat, m: nat, j: nat,
                           l: nat) {
    exists x: nat, g1: nat, g2: nat :: MuxParts(inputs, base, gates, roles, start, m, j, l, x, g1, g2)
  }

  predicate MuxParts(inputs: nat, base: nat, gates: seq<Gate>, roles: seq<Role>, start: nat, m: nat, j: nat, l: nat,
                     x: nat, g1: nat, g2: nat)
  {
    && 1 <= x <= inputs && x < |roles| && roles[x] == InitVar(j)
    && GateOutput(base, gates, 2 * m, Flip(start), g1)
    && GateOutput(base, gates, 2 * x, start, g2)
    && GateOutput(base, gates, Flip(g1), Flip(g2), Flip(l))
  }

  /** Literal l stands for the output of flop j, whose latch is variable m. */
  ghost predicate FfPlaced(n: Netlist, zinit: bool, inputs: nat, base: nat, gates: seq<Gate>, roles: seq<Role>,
                           start: nat, j: nat, l: nat)
    requires j < |n.ffs|
  {
    var m := inputs + j + 1;
    if !zinit then l == 2 * m
    else if IsFree(n, j) then ZinitMux(inputs, base, gates, roles, start, m, j, l)
    else l == (if StartsAtOne(n, j) then 2 * m + 1 else 2 * m)
  }

  predicate InputPlaced(roles: seq<Role>, src: map<Bit, nat>, b: Bit, i: nat) {
    b in src && src[b] == 2 * (i + 1) && HasRole(roles, i + 1, InputVar(b))
  }

  predicate InputsPlaced(n: Netlist, inputs: nat, roles: seq<Role>, src: map<Bit, nat>) {
    && |n.inputs| <= inputs < |roles|
    && forall i :: 0 <= i < |n.inputs| ==> InputPlaced(roles, src, n.inputs[i], i)
  }

  predicate SampleRole(samples: nat, roles: seq<Role>, k: nat) {
    HasRole(roles, samples + k + 1, SampleVar(k))
  }

  predicate SamplesPlaced(n: Netlist, inputs: nat, roles: seq<Role>, samples: nat) {
    && samples + |n.live| == inputs < |roles|
    && forall k :: 0 <= k < |n.live| ==> SampleRole(samples, roles, k)
  }

  /** Positions among the latches: flops, first-cycle indicator, live monitors, fair monitors. */
  function LiveLatch(n: Netlist, o: Options, k: nat): nat {
    |n.ffs| + Starts(n, o) + 2 * k
  }

  function FairLatch(n: Netlist, o: Options, k: nat): nat {
    |n.ffs| + Starts(n, o) + 2 * |n.live| + k
  }

  function UsedLatches(n: Netlist, o: Options): nat {
    FairLatch(n, o, |n.fair|)
  }

  predicate HasRole(roles: seq<Role>, m: nat, r: Role) {
    m < |roles| && roles[m] == r
  }

  predicate LiveRoles(n: Netlist, o: Options, inputs: nat, roles: seq<Role>, k: nat) {
    var l := LiveLatch(n, o, k);
    HasRole(roles, inputs + l + 1, SampledVar(k)) && HasRole(roles, inputs + l + 2, ServedVar(k))
  }

  predicate FairRole(n: Netlist, o: Options, inputs: nat, roles: seq<Role>, k: nat) {
    HasRole(roles, inputs + FairLatch(n, o, k) + 1, WaitingVar(k))
  }

  predicate FfRole(inputs: nat, roles: seq<Role>, j: nat) {
    HasRole(roles, inputs + j + 1, FfVar(j))
  }

  predicate LatchRoles(n: Netlist, o: Options, inputs: nat, roles: seq<Role>) {
    && (forall j :: 0 <= j < |n.ffs| ==> FfRole(inputs, roles, j))
    && (NeedsStart(n, o) ==> HasRole(roles, inputs + |n.ffs| + 1, StartVar))
    && (forall k :: 0 <= k < |n.live| ==> LiveRoles(n, o, inputs, roles, k))
    && (forall k :: 0 <= k < |n.fair| ==> FairRole(n, o, inputs, roles, k))
  }

  /** The literal latch j of a flop takes over. */
  predicate FfNext(n: Netlist, zinit: bool, lits: map<Bit, nat>, j: nat, l: nat)
    requires j < |n.ffs|
  {
    n.ffs[j].d in lits && l == if zinit && StartsAtOne(n, j) then Flip(lits[n.ffs[j].d]) else lits[n.ffs[j].d]
  }

  function FfReset(n: Netlist, zinit: bool, j: nat): Reset
    requires j < |n.ffs|
  {
    if zinit then ToZero else if IsFree(n, j) then Free else if StartsAtOne(n, j) then ToOne else ToZero
  }

  predicate Watched(c: Check, lits: map<Bit, nat>) {
    c.a in lits && c.en in lits
  }

  /** Enabled and a low. */
  predicate FailLit(c: Check, base: nat, lits: map<Bit, nat>, gates: seq<Gate>, l: nat) {
    Watched(c, lits) && GateOutput(base, gates, Flip(lits[c.a]), lits[c.en], l)
  }

  /** Next-state and output literals of a live monitor: s, q1 and q2 are its variables. */
  ghost predicate LiveLits(c: Check, base: nat, lits: map<Bit, nat>, gates: seq<Gate>, s: nat, q1: nat, q2: nat,
                           d1: nat, d2: nat, out: nat)
  {
    exists g1: nat, g2: nat :: LiveParts(c, base, lits, gates, s, q1, q2, d1, d2, out, g1, g2)
  }

  predicate LiveParts(c: Check, base: nat, lits: map<Bit, nat>, gates: seq<Gate>, s: nat, q1: nat, q2: nat, d1: nat,
                      d2: nat, out: nat, g1: nat, g2: nat)
  {
    && Watched(c, lits)
    && GateOutput(base, gates, 2 * s, lits[c.en], g1)
    && GateOutput(base, gates, Flip(g1), Flip(2 * q1), Flip(d1))
    && GateOutput(base, gates, d1, lits[c.a], g2)
    && GateOutput(base, gates, Flip(g2), Flip(2 * q2), Flip(d2))
    && GateOutput(base, gates, 2 * q1, Flip(2 * q2), out)
  }

  /** Next-state literal of a fair monitor with latch variable q. */
  ghost predicate FairLits(c: Check, base: nat, lits: map<Bit, nat>, gates: seq<Gate>, q: nat, d: nat) {
    exists g: nat :: FairParts(c, base, lits, gates, q, d, g)
  }

  predicate FairParts(c: Check, base: nat, lits: map<Bit, nat>, gates: seq<Gate>, q: nat, d: nat, g: nat) {
    && Watched(c, lits)
    && GateOutput(base, gates, Flip(2 * q), Flip(lits[c.en]), g)
    && GateOutput(base, gates, Flip(g), Flip(lits[c.a]), d)
  }

  predicate SourcesOnly(n: Netlist, src: map<Bit, nat>) {
    && (forall b :: b in src ==> IsSource(n, b))
    && Zero in src && src[Zero] == 0 && One in src && src[One] == 1
  }

  ghost predicate FfsPlaced(n: Netlist, zinit: bool, inputs: nat, base: nat, gates: seq<Gate>, roles: seq<Role>,
                            start: nat, src: map<Bit, nat>)
  {
    forall j :: 0 <= j < |n.ffs| ==>
      n.ffs[j].q in src && FfPlaced(n, zinit, inputs, base, gates, roles, start, j, src[n.ffs[j].q])
  }

  predicate StartPlaced(n: Netlist, o: Options, inputs: nat, start: nat) {
    NeedsStart(n, o) ==> start == 2 * (inputs + |n.ffs| + 1) + 1
  }

  predicate FfCompiled(n: Netlist, o: Options, g: Aig, p: Plan, j: nat)
    requires j < |n.ffs| <= |g.latches|
  {
    g.latches[j].reset == FfReset(n, o.zinit, j) && FfNext(n, o.zinit, p.lits, j, g.latches[j].next)
  }

  ghost predicate LiveCompiled(n: Netlist, o: Options, g: Aig, p: Plan, k: nat)
    requires k < |n.live| == |g.justice| && UsedLatches(n, o) <= |g.latches|
  {
    var l := LiveLatch(n, o, k);
    && g.latches[l].reset == ToZero && g.latches[l + 1].reset == ToZero
    && LiveLits(n.live[k], Base(g), p.lits, g.gates, p.samples + k + 1, g.inputs + l + 1, g.inputs + l + 2,
                g.latches[l].next, g.latches[l + 1].next, g.justice[k])
  }

  ghost predicate FairCompiled(n: Netlist, o: Options, g: Aig, p: Plan, k: nat)
    requires k < |n.fair| == |g.fairness| && UsedLatches(n, o) <= |g.latches|
  {
    var l := FairLatch(n, o, k);
    && g.latches[l].reset == ToZero
    && FairLits(n.fair[k], Base(g), p.lits, g.gates, g.inputs + l + 1, g.latches[l].next)
    && g.fairness[k] == Flip(2 * (g.inputs + l + 1))
  }

  ghost predicate LatchesCompiled(n: Netlist, o: Options, g: Aig, p: Plan)
    requires |g.latches| >= UsedLatches(n, o)
    requires |g.justice| == |n.live| && |g.fairness| == |n.fair|
  {
    && (forall j :: 0 <= j < |n.ffs| ==> FfCompiled(n, o, g, p, j))
    && (NeedsStart(n, o) ==> g.latches[|n.ffs|] == Latch(1, ToZero))
    && (forall k :: 0 <= k < |n.live| ==> LiveCompiled(n, o, g, p, k))
    && (forall k :: 0 <= k < |n.fair| ==> FairCompiled(n, o, g, p, k))
  }

  predicate ChecksCompiled(n: Netlist, g: Aig, p: Plan) {
    && |g.outputs| >= |n.outputs| && |g.bads| >= |n.asserts| && |g.constraints| == |n.assumes|
    && (forall k :: 0 <= k < |n.outputs| ==> n.outputs[k] in p.lits && g.outputs[k] == p.lits[n.outputs[k]])
    && (forall k :: 0 <= k < |n.asserts| ==> FailLit(n.asserts[k], Base(g), p.lits, g.gates, g.bads[k]))
    && (forall k :: 0 <= k < |n.assumes| ==> FailLit(n.assumes[k], Base(g), p.lits, g.gates, Flip(g.constraints[k])))
  }

  /** Only padding beyond what the netlist asks for: outputs that are false, a latch that stays zero. */
  predicate PaddingOnly(n: Netlist, o: Options, g: Aig, roles: seq<Role>)
    requires |g.outputs| >= |n.outputs| && |g.bads| >= |n.asserts| && |roles| == Base(g) + 1
  {
    var used := UsedLatches(n, o);
    && |g.latches| == (if o.lmode && used == 0 then 1 else used)
    && (used == 0 && |g.latches| == 1 ==> g.latches[0] == Latch(0, ToZero) && HasRole(roles, g.inputs + 1, Unused))
    && g.outputs[|n.outputs|..] == (if o.omode && n.outputs == [] then [0] else [])
    && g.bads[|n.asserts|..] == (if o.bmode && n.asserts == [] then [0] else [])
  }

  ghost predicate Compiled(n: Netlist, o: Options, g: Aig, p: Plan) {
    && |p.roles| == Base(g) + 1 && Topological(Base(g), g.gates)
    && Justified(n, p.src, p.start, Base(g), p.lits, g.gates)
    && SourcesOnly(n, p.src)
    && InputsPlaced(n, g.inputs, p.roles, p.src)
    && SamplesPlaced(n, g.inputs, p.roles, p.samples)
    && LatchRoles(n, o, g.inputs, p.roles)
    && StartPlaced(n, o, g.inputs, p.start)
    && FfsPlaced(n, o.zinit, g.inputs, Base(g), g.gates, p.roles, p.start, p.src)
    && |g.latches| >= UsedLatches(n, o)
    && |g.justice| == |n.live| && |g.fairness| == |n.fair|
    && LatchesCompiled(n, o, g, p)
    && ChecksCompiled(n, g, p)
    && PaddingOnly(n, o, g, p.roles)
  }
}
