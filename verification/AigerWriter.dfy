/**
  The AIGER writer: numbers the variables, then translates bits on demand into appended gates.
 */
module AigerWriter {
  import opened GateNetlist
  import opened Aig
  import opened AigerPlan

  datatype Error = UndefinedBit | Undriven | CombinationalLoop

  datatype Outcome = Literal(lit: nat) | Failed(error: Error)

  ghost predicate Extends(before: map<Bit, nat>, after: map<Bit, nat>) {
    forall b :: b in before ==> b in after && after[b] == before[b]
  }

  ghost predicate LitsBelow(lits: map<Bit, nat>, bound: nat) {
    forall b :: b in lits ==> lits[b] < bound
  }

  /** Only bits below the given rank have been added. */
  ghost predicate AddsBelow(before: map<Bit, nat>, after: map<Bit, nat>, rank: Bit -> nat, bound: nat) {
    forall b :: b in after && b !in before ==> rank(b) < bound
  }

  /** What holds between translations: aigM variables are in use, every literal is one of theirs, and
      every translated bit is justified. */
  ghost predicate Translated(n: Netlist, src: map<Bit, nat>, start: nat, base: nat, aigM: nat, lits: map<Bit, nat>,
                             gates: seq<Gate>) {
    && aigM == base + |gates| && Topological(base, gates)
    && Justified(n, src, start, base, lits, gates)
    && LitsBelow(lits, 2 * aigM + 2)
    && (HasInitState(n) ==> start < 2 * aigM + 2)
    && (forall b :: b in src <==> IsSource(n, b))
  }

  lemma JustifiedGrows(n: Netlist, src: map<Bit, nat>, start: nat, base: nat, lits: map<Bit, nat>, gates: seq<Gate>,
                       more: seq<Gate>)
    requires Justified(n, src, start, base, lits, gates) && gates <= more
    ensures Justified(n, src, start, base, lits, more)
  {
    hide IsSource;
    forall b | b in lits
      ensures b in src || (b in n.drivers && DriverLit(n.drivers[b], start, base, lits, more, lits[b]))
    {
    }
  }

  lemma GateAppended(n: Netlist, src: map<Bit, nat>, start: nat, base: nat, aigM: nat, lits: map<Bit, nat>,
                     gates: seq<Gate>, x: nat, y: nat)
    requires Translated(n, src, start, base, aigM, lits, gates) && x < 2 * aigM + 2 && y < 2 * aigM + 2
    ensures Translated(n, src, start, base, aigM + 1, lits, gates + [Ordered(x, y)])
    ensures GateOutput(base, gates + [Ordered(x, y)], x, y, 2 * (aigM + 1))
  {
    hide Justified, IsSource, HasInitState;
    JustifiedGrows(n, src, start, base, lits, gates, gates + [Ordered(x, y)]);
  }

  lemma BitRecorded(n: Netlist, src: map<Bit, nat>, start: nat, base: nat, aigM: nat, lits: map<Bit, nat>,
                    gates: seq<Gate>, b: Bit, l: nat)
    requires Translated(n, src, start, base, aigM, lits, gates) && b !in lits && b in n.drivers && l < 2 * aigM + 2
    requires DriverLit(n.drivers[b], start, base, lits, gates, l)
    ensures Translated(n, src, start, base, aigM, lits[b := l], gates)
  {
    hide GateOutput, IsSource, Topological, HasInitState;
  }

  lemma SourcesTranslated(n: Netlist, src: map<Bit, nat>, start: nat, base: nat, aigM: nat, lits: map<Bit, nat>,
                          gates: seq<Gate>, b: Bit)
    requires Translated(n, src, start, base, aigM, lits, gates) && b !in lits
    ensures !IsSource(n, b)
  {
    hide GateOutput, Topological, HasInitState, IsSource;
  }

  lemma TranslatedIsClean(n: Netlist, rank: Bit -> nat, src: map<Bit, nat>, start: nat, base: nat, aigM: nat,
                          lits: map<Bit, nat>, gates: seq<Gate>, b: Bit)
    requires Acyclic(n, rank) && Translated(n, src, start, base, aigM, lits, gates) && b in lits
    ensures Clean(n, rank, b) && lits[b] < 2 * aigM + 2
    decreases rank(b)
  {
    hide GateOutput, Topological, HasInitState, IsSource;
    if b !in src {
      match n.drivers[b]
      case Not(a) => TranslatedIsClean(n, rank, src, start, base, aigM, lits, gates, a);
      case And(x, y) =>
        TranslatedIsClean(n, rank, src, start, base, aigM, lits, gates, x);
        TranslatedIsClean(n, rank, src, start, base, aigM, lits, gates, y);
      case Alias(a) => TranslatedIsClean(n, rank, src, start, base, aigM, lits, gates, a);
      case InitState =>
    }
  }

  lemma StartIsBelow(n: Netlist, src: map<Bit, nat>, start: nat, base: nat, aigM: nat, lits: map<Bit, nat>,
                     gates: seq<Gate>, b: Bit)
    requires Translated(n, src, start, base, aigM, lits, gates) && b in n.drivers && n.drivers[b].InitState?
    ensures start < 2 * aigM + 2
  {
    hide Justified, GateOutput, Topological, IsSource;
  }

  // ------------------------------------------------------------- numbering

  /** The first k inputs have their variables, and nothing else but the constants is placed. */
  ghost predicate InputsNumbered(n: Netlist, roles: seq<Role>, lits: map<Bit, nat>, k: nat)
    requires k <= |n.inputs|
  {
    && Zero in lits && lits[Zero] == 0 && One in lits && lits[One] == 1
    && (forall i :: 0 <= i < k ==> InputPlaced(roles, lits, n.inputs[i], i))
    && (forall b :: b in lits ==> b == Zero || b == One || b in n.inputs[..k])
  }

  /** Flop i without initial value has its input variable. */
  predicate InitPlaced(n: Netlist, initInputs: map<Bit, nat>, roles: seq<Role>, inputs: nat, i: nat)
    requires i < |n.ffs|
  {
    var q := n.ffs[i].q;
    q in initInputs && initInputs[q] % 2 == 0 && 1 <= initInputs[q] / 2 <= inputs
    && HasRole(roles, initInputs[q] / 2, InitVar(i))
  }

  ghost predicate InitsPlaced(n: Netlist, initInputs: map<Bit, nat>, roles: seq<Role>, inputs: nat, k: nat)
    requires k <= |n.ffs|
  {
    && (forall i | 0 <= i < k && IsFree(n, i) :: InitPlaced(n, initInputs, roles, inputs, i))
    && (initInputs != map[] <==> exists i :: 0 <= i < k && IsFree(n, i))
  }

  /** Numbering more variables keeps what has been placed. */
  lemma RolesGrow(n: Netlist, roles: seq<Role>, more: seq<Role>, lits: map<Bit, nat>, k: nat,
                  initInputs: map<Bit, nat>, inputs: nat, inputs': nat, f: nat)
    requires k <= |n.inputs| && InputsNumbered(n, roles, lits, k) && roles <= more && inputs <= inputs' && f <= |n.ffs|
    ensures InputsNumbered(n, more, lits, k)
    ensures InitsPlaced(n, initInputs, roles, inputs, f) ==> InitsPlaced(n, initInputs, more, inputs', f)
  {
    forall i | 0 <= i < k ensures InputPlaced(more, lits, n.inputs[i], i) {
      assert InputPlaced(roles, lits, n.inputs[i], i);
    }
    if InitsPlaced(n, initInputs, roles, inputs, f) {
      forall i | 0 <= i < f && IsFree(n, i) ensures InitPlaced(n, initInputs, more, inputs', i) {
        assert InitPlaced(n, initInputs, roles, inputs, i);
      }
    }
  }

  function InitCode(n: Netlist, j: nat): nat
    requires j < |n.ffs|
  {
    if IsFree(n, j) then 2 else if StartsAtOne(n, j) then 1 else 0
  }

  predicate FfNumbered(n: Netlist, inputs: nat, roles: seq<Role>, lits: map<Bit, nat>, j: nat)
    requires j < |n.ffs|
  {
    n.ffs[j].q in lits && lits[n.ffs[j].q] == 2 * (inputs + j + 1) && FfRole(inputs, roles, j)
  }

  /** The inputs and the first k flops have their variables, and nothing else but the constants. */
  ghost predicate SourcesNumbered(n: Netlist, inputs: nat, roles: seq<Role>, lits: map<Bit, nat>, k: nat)
    requires k <= |n.ffs|
  {
    && Zero in lits && lits[Zero] == 0 && One in lits && lits[One] == 1
    && (forall i :: 0 <= i < |n.inputs| ==> InputPlaced(roles, lits, n.inputs[i], i))
    && (forall j :: 0 <= j < k ==> FfNumbered(n, inputs, roles, lits, j))
    && (forall b :: b in lits ==> b == Zero || b == One || b in n.inputs || exists j :: 0 <= j < k && n.ffs[j].q == b)
  }

  lemma RolesGrowFurther(n: Netlist, inputs: nat, roles: seq<Role>, more: seq<Role>, lits: map<Bit, nat>, k: nat)
    requires k <= |n.ffs| && SourcesNumbered(n, inputs, roles, lits, k) && roles <= more
    ensures SourcesNumbered(n, inputs, more, lits, k)
  {
    forall i | 0 <= i < |n.inputs| ensures InputPlaced(more, lits, n.inputs[i], i) {
      assert InputPlaced(roles, lits, n.inputs[i], i);
    }
    forall j | 0 <= j < k ensures FfNumbered(n, inputs, more, lits, j) {
      assert FfNumbered(n, inputs, roles, lits, j);
    }
  }

  lemma LatchAdded(n: Netlist, inputs: nat, roles: seq<Role>, lits: map<Bit, nat>, j: nat)
    requires WellFormed(n) && j < |n.ffs| && SourcesNumbered(n, inputs, roles, lits, j) && |roles| == inputs + j + 1
    ensures SourcesNumbered(n, inputs, roles + [FfVar(j)], lits[n.ffs[j].q := 2 * (inputs + j + 1)], j + 1)
  {
    var more, lits' := roles + [FfVar(j)], lits[n.ffs[j].q := 2 * (inputs + j + 1)];
    RolesGrowFurther(n, inputs, roles, more, lits, j);
    forall i | 0 <= i < |n.inputs| ensures InputPlaced(more, lits', n.inputs[i], i) {
      assert InputPlaced(more, lits, n.inputs[i], i);
    }
    forall k | 0 <= k < j + 1 ensures FfNumbered(n, inputs, more, lits', k) {
      if k < j { assert FfNumbered(n, inputs, more, lits, k); }
    }
    forall b | b in lits'
      ensures b == Zero || b == One || b in n.inputs || exists k :: 0 <= k < j + 1 && n.ffs[k].q == b
    {
      if b == n.ffs[j].q {
        assert 0 <= j < j + 1;
      } else if b != Zero && b != One && b !in n.inputs {
        var k :| 0 <= k < j && n.ffs[k].q == b;
        assert 0 <= k < j + 1;
      }
    }
  }

  /** The roles of the latches after those of the flops. */
  function MonitorRoles(n: Netlist, o: Options): (r: seq<Role>)
    ensures |r| == UsedLatches(n, o) - |n.ffs|
  {
    (if NeedsStart(n, o) then [StartVar] else [])
    + seq(2 * |n.live|, (i: nat) => if i % 2 == 0 then SampledVar(i / 2) else ServedVar(i / 2))
    + seq(|n.fair|, (k: nat) => WaitingVar(k))
  }

  lemma RoleNumbered(n: Netlist, inputs: nat, roles: seq<Role>, lits: map<Bit, nat>, i: nat)
    requires i < |n.ffs| && SourcesNumbered(n, inputs, roles, lits, |n.ffs|)
    ensures FfRole(inputs, roles, i)
  {
    assert FfNumbered(n, inputs, roles, lits, i);
  }

  lemma StartSources(n: Netlist, inputs: nat, roles: seq<Role>, lits: map<Bit, nat>)
    requires InputsNumbered(n, roles, lits, |n.inputs|)
    ensures SourcesNumbered(n, inputs, roles, lits, 0)
  {
    assert n.inputs[..|n.inputs|] == n.inputs;
  }

  lemma RolesComplete(n: Netlist, o: Options, inputs: nat, roles: seq<Role>)
    requires |roles| == inputs + |n.ffs| + 1 && forall j :: 0 <= j < |n.ffs| ==> FfRole(inputs, roles, j)
    ensures LatchRoles(n, o, inputs, roles + MonitorRoles(n, o))
  {
    hide NeedsStart;
    var more, monitors := roles + MonitorRoles(n, o), MonitorRoles(n, o);
    forall j | 0 <= j < |n.ffs| ensures FfRole(inputs, more, j) {
      assert FfRole(inputs, roles, j);
    }
    forall k | 0 <= k < |n.live| ensures LiveRoles(n, o, inputs, more, k) {
      assert monitors[Starts(n, o) + 2 * k] == SampledVar(k);
      assert monitors[Starts(n, o) + 2 * k + 1] == ServedVar(k);
    }
    forall k | 0 <= k < |n.fair| ensures FairRole(n, o, inputs, more, k) {
      assert monitors[Starts(n, o) + 2 * |n.live| + k] == WaitingVar(k);
    }
  }

  // ------------------------------------------------------ resets to zero

  /** The literals of inputs and constants are in place, those of the first k flops have been rewritten
      for zero resets (if that is asked for), the others still are plain latches. */
  ghost predicate ResetsDone(n: Netlist, zinit: bool, inputs: nat, base: nat, aigM: nat, gates: seq<Gate>,
                             roles: seq<Role>, start: nat, lits: map<Bit, nat>, k: nat)
    requires k <= |n.ffs|
  {
    && aigM == base + |gates| && Topological(base, gates) && LitsBelow(lits, 2 * aigM + 2)
    && Zero in lits && lits[Zero] == 0 && One in lits && lits[One] == 1
    && (forall i :: 0 <= i < |n.inputs| ==> InputPlaced(roles, lits, n.inputs[i], i))
    && (forall b :: b in lits <==> IsSource(n, b))
    && (forall j :: 0 <= j < k ==> FfRewritten(n, zinit, inputs, base, gates, roles, start, lits, j))
    && (forall j :: k <= j < |n.ffs| ==> FfNumbered(n, inputs, roles, lits, j))
  }

  ghost predicate FfRewritten(n: Netlist, zinit: bool, inputs: nat, base: nat, gates: seq<Gate>, roles: seq<Role>,
                              start: nat, lits: map<Bit, nat>, j: nat)
    requires j < |n.ffs|
  {
    n.ffs[j].q in lits && FfPlaced(n, zinit, inputs, base, gates, roles, start, j, lits[n.ffs[j].q])
  }

  lemma NothingRewritten(n: Netlist, zinit: bool, inputs: nat, base: nat, roles: seq<Role>, start: nat,
                         lits: map<Bit, nat>)
    requires SourcesNumbered(n, inputs, roles, lits, |n.ffs|) && inputs + |n.ffs| <= base && |n.inputs| <= inputs
    ensures ResetsDone(n, zinit, inputs, base, base, [], roles, start, lits, 0)
    ensures !zinit ==> ResetsDone(n, zinit, inputs, base, base, [], roles, start, lits, |n.ffs|)
  {
    forall b | b in lits ensures IsSource(n, b) && lits[b] < 2 * base + 2 {
      if b in n.inputs {
        var i: nat :| i < |n.inputs| && n.inputs[i] == b;
        assert InputPlaced(roles, lits, n.inputs[i], i);
      } else if b != Zero && b != One {
        var j: nat :| j < |n.ffs| && n.ffs[j].q == b;
        assert FfNumbered(n, inputs, roles, lits, j);
      }
    }
    forall b | IsSource(n, b) ensures b in lits {
      if b in n.inputs {
        var i: nat :| i < |n.inputs| && n.inputs[i] == b;
        assert InputPlaced(roles, lits, n.inputs[i], i);
      } else if b != Zero && b != One {
        var j: nat :| j < |n.ffs| && n.ffs[j].q == b;
        assert FfNumbered(n, inputs, roles, lits, j);
      }
    }
    if !zinit {
      forall j | 0 <= j < |n.ffs| ensures FfRewritten(n, zinit, inputs, base, [], roles, start, lits, j) {
        assert FfNumbered(n, inputs, roles, lits, j);
      }
    }
  }

  /** Appending gates and changing the literal of flop j keeps what is said about the other flops. */
  lemma OthersKept(n: Netlist, zinit: bool, inputs: nat, base: nat, gates: seq<Gate>, more: seq<Gate>,
                   roles: seq<Role>, start: nat, lits: map<Bit, nat>, j: nat, l: nat, i: nat)
    requires WellFormed(n) && j < |n.ffs| && i < |n.ffs| && i != j && gates <= more
    requires FfRewritten(n, zinit, inputs, base, gates, roles, start, lits, i)
    ensures FfRewritten(n, zinit, inputs, base, more, roles, start, lits[n.ffs[j].q := l], i)
  {
    assert n.ffs[i].q != n.ffs[j].q;
    if zinit && IsFree(n, i) {
      var m, k := inputs + i + 1, lits[n.ffs[i].q];
      var x: nat, g1: nat, g2: nat :| MuxParts(inputs, base, gates, roles, start, m, i, k, x, g1, g2);
      assert MuxParts(inputs, base, more, roles, start, m, i, k, x, g1, g2);
    }
  }

  lemma FlopRewritten(n: Netlist, zinit: bool, inputs: nat, base: nat, aigM: nat, gates: seq<Gate>, more: seq<Gate>,
                      roles: seq<Role>, start: nat, lits: map<Bit, nat>, j: nat, l: nat)
    requires WellFormed(n) && j < |n.ffs| && ResetsDone(n, zinit, inputs, base, aigM, gates, roles, start, lits, j)
    requires gates <= more && Topological(base, more) && l < 2 * (base + |more|) + 2
    requires FfPlaced(n, zinit, inputs, base, more, roles, start, j, l)
    ensures ResetsDone(n, zinit, inputs, base, base + |more|, more, roles, start, lits[n.ffs[j].q := l], j + 1)
  {
    hide FfPlaced, Topological;
    var lits' := lits[n.ffs[j].q := l];
    forall i | 0 <= i < |n.inputs| ensures InputPlaced(roles, lits', n.inputs[i], i) {
      assert InputPlaced(roles, lits, n.inputs[i], i);
    }
    forall i | 0 <= i < j + 1 ensures FfRewritten(n, zinit, inputs, base, more, roles, start, lits', i) {
      if i < j { OthersKept(n, zinit, inputs, base, gates, more, roles, start, lits, j, l, i); }
    }
    forall i | j + 1 <= i < |n.ffs| ensures FfNumbered(n, inputs, roles, lits', i) {
      assert FfNumbered(n, inputs, roles, lits, i);
    }
    forall b ensures b in lits' <==> IsSource(n, b) {}
  }

  /** The three gates of the multiplexer for a flop without initial value. */
  function MuxGates(aigM: nat, latch: nat, init: nat, start: nat): seq<Gate> {
    [Ordered(latch, Flip(start)), Ordered(init, start), Ordered(Flip(2 * (aigM + 1)), Flip(2 * (aigM + 2)))]
  }

  lemma MuxPlaced(n: Netlist, inputs: nat, base: nat, aigM: nat, gates: seq<Gate>, roles: seq<Role>, start: nat,
                  j: nat, x: nat)
    requires aigM == base + |gates| && Topological(base, gates) && start < 2 * aigM + 2
    requires j < |n.ffs| && IsFree(n, j) && inputs + j + 1 <= aigM
    requires 1 <= x <= inputs <= aigM && HasRole(roles, x, InitVar(j))
    ensures var more := gates + MuxGates(aigM, 2 * (inputs + j + 1), 2 * x, start);
            Topological(base, more) && FfPlaced(n, true, inputs, base, more, roles, start, j, 2 * (aigM + 3) + 1)
  {
    var m := inputs + j + 1;
    var more := gates + MuxGates(aigM, 2 * m, 2 * x, start);
    var g1, g2, l := 2 * (aigM + 1), 2 * (aigM + 2), 2 * (aigM + 3) + 1;
    assert more[|gates|] == Ordered(2 * m, Flip(start)) && GateOutput(base, more, 2 * m, Flip(start), g1);
    assert more[|gates| + 1] == Ordered(2 * x, start) && GateOutput(base, more, 2 * x, start, g2);
    assert more[|gates| + 2] == Ordered(Flip(g1), Flip(g2)) && GateOutput(base, more, Flip(g1), Flip(g2), Flip(l));
    assert MuxParts(inputs, base, more, roles, start, m, j, l, x, g1, g2);
  }

  lemma PlainLatch(n: Netlist, inputs: nat, base: nat, aigM: nat, gates: seq<Gate>, roles: seq<Role>, start: nat,
                   lits: map<Bit, nat>, j: nat)
    requires j < |n.ffs| && ResetsDone(n, true, inputs, base, aigM, gates, roles, start, lits, j)
    ensures n.ffs[j].q in lits && lits[n.ffs[j].q] == 2 * (inputs + j + 1)
    ensures aigM == base + |gates| && Topological(base, gates)
  {
    assert FfNumbered(n, inputs, roles, lits, j);
  }

  lemma PlacedDirectly(n: Netlist, inputs: nat, base: nat, gates: seq<Gate>, roles: seq<Role>, start: nat, j: nat,
                       l: nat)
    requires j < |n.ffs| && !IsFree(n, j)
    requires l == if StartsAtOne(n, j) then 2 * (inputs + j + 1) + 1 else 2 * (inputs + j + 1)
    ensures FfPlaced(n, true, inputs, base, gates, roles, start, j, l)
  {
  }

  lemma ResetsReady(n: Netlist, zinit: bool, inputs: nat, base: nat, aigM: nat, gates: seq<Gate>, roles: seq<Role>,
                    start: nat, lits: map<Bit, nat>)
    requires ResetsDone(n, zinit, inputs, base, aigM, gates, roles, start, lits, |n.ffs|)
    requires HasInitState(n) ==> start < 2 * aigM + 2
    ensures Translated(n, lits, start, base, aigM, lits, gates)
  {
    hide Topological, FfPlaced, FfNumbered, InputPlaced, IsSource, HasInitState;
  }

  // ------------------------------------------------- translated so far

  predicate NextsDone(n: Netlist, zinit: bool, lits: map<Bit, nat>, latchIn: seq<nat>, k: nat)
    requires k <= |n.ffs|
  {
    k <= |latchIn| && forall i :: 0 <= i < k ==> FfNext(n, zinit, lits, i, latchIn[i])
  }

  predicate OutputsDone(bits: seq<Bit>, lits: map<Bit, nat>, outs: seq<nat>, k: nat)
    requires k <= |bits|
  {
    k <= |outs| && forall i :: 0 <= i < k ==> bits[i] in lits && outs[i] == lits[bits[i]]
  }

  predicate FailsDone(checks: seq<Check>, base: nat, lits: map<Bit, nat>, gates: seq<Gate>, outs: seq<nat>, k: nat)
    requires k <= |checks|
  {
    k <= |outs| && forall i :: 0 <= i < k ==> FailLit(checks[i], base, lits, gates, outs[i])
  }

  predicate HoldsDone(checks: seq<Check>, base: nat, lits: map<Bit, nat>, gates: seq<Gate>, outs: seq<nat>, k: nat)
    requires k <= |checks|
  {
    k <= |outs| && forall i :: 0 <= i < k ==> FailLit(checks[i], base, lits, gates, Flip(outs[i]))
  }

  ghost predicate LivesDone(checks: seq<Check>, base: nat, lits: map<Bit, nat>, gates: seq<Gate>, samples: nat,
                            latches: nat, nexts: seq<nat>, outs: seq<nat>, k: nat)
    requires k <= |checks|
  {
    && 2 * k <= |nexts| && k <= |outs|
    && forall i :: 0 <= i < k ==> LiveDone(checks[i], base, lits, gates, samples, latches, nexts, outs, i)
  }

  ghost predicate LiveDone(c: Check, base: nat, lits: map<Bit, nat>, gates: seq<Gate>, samples: nat, latches: nat,
                           nexts: seq<nat>, outs: seq<nat>, i: nat)
    requires 2 * i + 1 < |nexts| && i < |outs|
  {
    LiveLits(c, base, lits, gates, samples + i + 1, latches + 2 * i + 1, latches + 2 * i + 2,
             nexts[2 * i], nexts[2 * i + 1], outs[i])
  }

  ghost predicate FairsDone(checks: seq<Check>, base: nat, lits: map<Bit, nat>, gates: seq<Gate>, latches: nat,
                            nexts: seq<nat>, outs: seq<nat>, k: nat)
    requires k <= |checks|
  {
    && k <= |nexts| && k <= |outs|
    && forall i :: 0 <= i < k ==> FairDone(checks[i], base, lits, gates, latches, nexts, outs, i)
  }

  ghost predicate FairDone(c: Check, base: nat, lits: map<Bit, nat>, gates: seq<Gate>, latches: nat, nexts: seq<nat>,
                           outs: seq<nat>, i: nat)
    requires i < |nexts| && i < |outs|
  {
    FairLits(c, base, lits, gates, latches + i + 1, nexts[i]) && outs[i] == Flip(2 * (latches + i + 1))
  }

  // Translating more bits and appending gates keeps all of this.

  lemma NextsKept(n: Netlist, zinit: bool, lits: map<Bit, nat>, more: map<Bit, nat>, latchIn: seq<nat>, k: nat)
    requires k <= |n.ffs| && NextsDone(n, zinit, lits, latchIn, k) && Extends(lits, more)
    ensures NextsDone(n, zinit, more, latchIn, k)
  {
    forall i | 0 <= i < k ensures FfNext(n, zinit, more, i, latchIn[i]) {
      assert FfNext(n, zinit, lits, i, latchIn[i]);
    }
  }

  lemma FailKept(c: Check, base: nat, lits: map<Bit, nat>, more: map<Bit, nat>, gates: seq<Gate>, gates': seq<Gate>,
                 l: nat)
    requires FailLit(c, base, lits, gates, l) && Extends(lits, more) && gates <= gates'
    ensures FailLit(c, base, more, gates', l)
  {
  }

  lemma FailsKept(checks: seq<Check>, base: nat, lits: map<Bit, nat>, more: map<Bit, nat>, gates: seq<Gate>,
                  gates': seq<Gate>, outs: seq<nat>, k: nat)
    requires k <= |checks| && Extends(lits, more) && gates <= gates'
    ensures FailsDone(checks, base, lits, gates, outs, k) ==> FailsDone(checks, base, more, gates', outs, k)
    ensures HoldsDone(checks, base, lits, gates, outs, k) ==> HoldsDone(checks, base, more, gates', outs, k)
  {
    hide FailLit, Extends;
    if FailsDone(checks, base, lits, gates, outs, k) {
      forall i | 0 <= i < k ensures FailLit(checks[i], base, more, gates', outs[i]) {
        FailKept(checks[i], base, lits, more, gates, gates', outs[i]);
      }
    }
    if HoldsDone(checks, base, lits, gates, outs, k) {
      forall i | 0 <= i < k ensures FailLit(checks[i], base, more, gates', Flip(outs[i])) {
        FailKept(checks[i], base, lits, more, gates, gates', Flip(outs[i]));
      }
    }
  }

  lemma LiveKept(c: Check, base: nat, lits: map<Bit, nat>, more: map<Bit, nat>, gates: seq<Gate>, gates': seq<Gate>,
                 s: nat, q1: nat, q2: nat, d1: nat, d2: nat, out: nat)
    requires LiveLits(c, base, lits, gates, s, q1, q2, d1, d2, out) && Extends(lits, more) && gates <= gates'
    ensures LiveLits(c, base, more, gates', s, q1, q2, d1, d2, out)
  {
    hide Flip;
    var g1: nat, g2: nat :| LiveParts(c, base, lits, gates, s, q1, q2, d1, d2, out, g1, g2);
    assert LiveParts(c, base, more, gates', s, q1, q2, d1, d2, out, g1, g2);
  }

  lemma LivesKept(checks: seq<Check>, base: nat, lits: map<Bit, nat>, more: map<Bit, nat>, gates: seq<Gate>,
                  gates': seq<Gate>, samples: nat, latches: nat, nexts: seq<nat>, outs: seq<nat>, k: nat)
    requires k <= |checks| && Extends(lits, more) && gates <= gates'
    requires LivesDone(checks, base, lits, gates, samples, latches, nexts, outs, k)
    ensures LivesDone(checks, base, more, gates', samples, latches, nexts, outs, k)
  {
    hide LiveLits, Extends;
    forall i | 0 <= i < k ensures LiveDone(checks[i], base, more, gates', samples, latches, nexts, outs, i) {
      assert LiveDone(checks[i], base, lits, gates, samples, latches, nexts, outs, i);
      LiveKept(checks[i], base, lits, more, gates, gates', samples + i + 1, latches + 2 * i + 1, latches + 2 * i + 2,
               nexts[2 * i], nexts[2 * i + 1], outs[i]);
    }
  }

  lemma FairKept(c: Check, base: nat, lits: map<Bit, nat>, more: map<Bit, nat>, gates: seq<Gate>, gates': seq<Gate>,
                 q: nat, d: nat)
    requires FairLits(c, base, lits, gates, q, d) && Extends(lits, more) && gates <= gates'
    ensures FairLits(c, base, more, gates', q, d)
  {
    hide Flip;
    var g: nat :| FairParts(c, base, lits, gates, q, d, g);
    assert FairParts(c, base, more, gates', q, d, g);
  }

  lemma FairsKept(checks: seq<Check>, base: nat, lits: map<Bit, nat>, more: map<Bit, nat>, gates: seq<Gate>,
                  gates': seq<Gate>, latches: nat, nexts: seq<nat>, outs: seq<nat>, k: nat)
    requires k <= |checks| && Extends(lits, more) && gates <= gates'
    requires FairsDone(checks, base, lits, gates, latches, nexts, outs, k)
    ensures FairsDone(checks, base, more, gates', latches, nexts, outs, k)
  {
    hide FairLits, Extends;
    forall i | 0 <= i < k ensures FairDone(checks[i], base, more, gates', latches, nexts, outs, i) {
      assert FairDone(checks[i], base, lits, gates, latches, nexts, outs, i);
      FairKept(checks[i], base, lits, more, gates, gates', latches + i + 1, nexts[i]);
    }
  }

  lemma LiveAssembled(c: Check, base: nat, lits: map<Bit, nat>, gates: seq<Gate>, s: nat, q1: nat, q2: nat, d1: nat,
                      d2: nat, out: nat, g1: nat, g2: nat)
    requires LiveParts(c, base, lits, gates, s, q1, q2, d1, d2, out, g1, g2)
    ensures LiveLits(c, base, lits, gates, s, q1, q2, d1, d2, out)
  {
  }

  lemma OutputKept(base: nat, gates: seq<Gate>, more: seq<Gate>, x: nat, y: nat, l: nat)
    requires GateOutput(base, gates, x, y, l) && gates <= more
    ensures GateOutput(base, more, x, y, l)
  {
  }

  lemma LivesGrow(checks: seq<Check>, base: nat, lits: map<Bit, nat>, gates: seq<Gate>, samples: nat, latches: nat,
                  nexts: seq<nat>, outs: seq<nat>, k: nat, d1: nat, d2: nat, out: nat)
    requires k < |checks| && |nexts| == 2 * k && |outs| == k
    requires LivesDone(checks, base, lits, gates, samples, latches, nexts, outs, k)
    requires LiveLits(checks[k], base, lits, gates, samples + k + 1, latches + 2 * k + 1, latches + 2 * k + 2, d1, d2,
        out)
    ensures LivesDone(checks, base, lits, gates, samples, latches, nexts + [d1, d2], outs + [out], k + 1)
  {
    hide LiveLits;
    forall i | 0 <= i < k + 1
      ensures LiveDone(checks[i], base, lits, gates, samples, latches, nexts + [d1, d2], outs + [out], i)
    {
      if i < k { assert LiveDone(checks[i], base, lits, gates, samples, latches, nexts, outs, i); }
    }
  }

  lemma FairAssembled(c: Check, base: nat, lits: map<Bit, nat>, gates: seq<Gate>, q: nat, d: nat, g: nat)
    requires FairParts(c, base, lits, gates, q, d, g)
    ensures FairLits(c, base, lits, gates, q, d)
  {
  }

  lemma FairsGrow(checks: seq<Check>, base: nat, lits: map<Bit, nat>, gates: seq<Gate>, latches: nat, nexts: seq<nat>,
                  outs: seq<nat>, k: nat, d: nat)
    requires k < |checks| && |nexts| == |outs| == k
    requires FairsDone(checks, base, lits, gates, latches, nexts, outs, k)
    requires FairLits(checks[k], base, lits, gates, latches + k + 1, d)
    ensures FairsDone(checks, base, lits, gates, latches, nexts + [d], outs + [Flip(2 * (latches + k + 1))], k + 1)
  {
    hide FairLits;
    var nexts', outs' := nexts + [d], outs + [Flip(2 * (latches + k + 1))];
    forall i | 0 <= i < k + 1 ensures FairDone(checks[i], base, lits, gates, latches, nexts', outs', i) {
      if i < k { assert FairDone(checks[i], base, lits, gates, latches, nexts, outs, i); }
    }
  }

  // ------------------------------------------------------------- assembly

  /** Where everything that is not a gate has been placed. */
  ghost predicate Layout(n: Netlist, o: Options, inputs: nat, latches: nat, gates: seq<Gate>, roles: seq<Role>,
                         start: nat, samples: nat, src: map<Bit, nat>)
  {
    && latches >= UsedLatches(n, o) && |roles| == inputs + latches + 1
    && InputsPlaced(n, inputs, roles, src)
    && SamplesPlaced(n, inputs, roles, samples)
    && LatchRoles(n, o, inputs, roles)
    && StartPlaced(n, o, inputs, start)
    && SourcesOnly(n, src)
    && FfsPlaced(n, o.zinit, inputs, inputs + latches, gates, roles, start, src)
  }

  lemma LaidOut(n: Netlist, o: Options, inputs: nat, latches: nat, aigM: nat, gates: seq<Gate>, roles: seq<Role>,
                start: nat, samples: nat, src: map<Bit, nat>)
    requires latches == UsedLatches(n, o) && |roles| == inputs + latches + 1 && |n.inputs| <= inputs
    requires ResetsDone(n, o.zinit, inputs, inputs + latches, aigM, gates, roles, start, src, |n.ffs|)
    requires SamplesPlaced(n, inputs, roles, samples) && LatchRoles(n, o, inputs, roles)
        && StartPlaced(n, o, inputs, start)
    ensures Layout(n, o, inputs, latches, gates, roles, start, samples, src)
  {
    hide FfPlaced, SamplesPlaced, LatchRoles, StartPlaced, InputPlaced, UsedLatches, Topological, IsSource;
    forall j | 0 <= j < |n.ffs|
      ensures n.ffs[j].q in src && FfPlaced(n, o.zinit, inputs, inputs + latches, gates, roles, start, j,
          src[n.ffs[j].q])
    {
      assert FfRewritten(n, o.zinit, inputs, inputs + latches, gates, roles, start, src, j);
    }
  }

  lemma LayoutRoles(n: Netlist, o: Options, inputs: nat, latches: nat, gates: seq<Gate>, roles: seq<Role>, start: nat,
                    samples: nat, src: map<Bit, nat>)
    requires Layout(n, o, inputs, latches, gates, roles, start, samples, src)
    ensures |roles| == inputs + latches + 1
  {
  }

  /** A graph without latches can be given one that is not used. */
  lemma LatchPadded(n: Netlist, o: Options, inputs: nat, roles: seq<Role>, start: nat, samples: nat,
                    src: map<Bit, nat>)
    requires UsedLatches(n, o) == 0 && Layout(n, o, inputs, 0, [], roles, start, samples, src)
    requires Translated(n, src, start, inputs, inputs, src, [])
    ensures Layout(n, o, inputs, 1, [], roles + [Unused], start, samples, src)
    ensures Translated(n, src, start, inputs + 1, inputs + 1, src, [])
  {
    hide IsSource, HasInitState, NeedsStart, FfPlaced;
    forall i | 0 <= i < |n.inputs| ensures InputPlaced(roles + [Unused], src, n.inputs[i], i) {
      assert InputPlaced(roles, src, n.inputs[i], i);
    }
  }

  /** More gates keep the layout. */
  lemma LayoutKept(n: Netlist, o: Options, inputs: nat, latches: nat, gates: seq<Gate>, more: seq<Gate>,
                   roles: seq<Role>, start: nat, samples: nat, src: map<Bit, nat>)
    requires Layout(n, o, inputs, latches, gates, roles, start, samples, src) && gates <= more
    ensures Layout(n, o, inputs, latches, more, roles, start, samples, src)
  {
    hide GateOutput, InputsPlaced, SamplesPlaced, LatchRoles, StartPlaced, SourcesOnly, FfPlaced;
    forall j | 0 <= j < |n.ffs|
      ensures n.ffs[j].q in src && FfPlaced(n, o.zinit, inputs, inputs + latches, more, roles, start, j,
          src[n.ffs[j].q])
    {
      PlacedKept(n, o.zinit, inputs, inputs + latches, gates, more, roles, start, j, src[n.ffs[j].q]);
    }
  }

  lemma PlacedKept(n: Netlist, zinit: bool, inputs: nat, base: nat, gates: seq<Gate>, more: seq<Gate>,
                   roles: seq<Role>, start: nat, j: nat, l: nat)
    requires j < |n.ffs| && FfPlaced(n, zinit, inputs, base, gates, roles, start, j, l) && gates <= more
    ensures FfPlaced(n, zinit, inputs, base, more, roles, start, j, l)
  {
    hide Flip;
    if zinit && IsFree(n, j) {
      var m := inputs + j + 1;
      var x: nat, g1: nat, g2: nat :| MuxParts(inputs, base, gates, roles, start, m, j, l, x, g1, g2);
      assert MuxParts(inputs, base, more, roles, start, m, j, l, x, g1, g2);
    }
  }

  ghost predicate AllClean(n: Netlist, rank: Bit -> nat)
    requires Acyclic(n, rank)
  {
    && (forall j :: 0 <= j < |n.ffs| ==> Clean(n, rank, n.ffs[j].d))
    && CleanOutputs(n, rank)
  }

  ghost predicate CleanOutputs(n: Netlist, rank: Bit -> nat)
    requires Acyclic(n, rank)
  {
    && (forall i :: 0 <= i < |n.outputs| ==> Clean(n, rank, n.outputs[i]))
    && CleanChecks(n, rank, n.asserts) && CleanChecks(n, rank, n.assumes)
    && CleanChecks(n, rank, n.live) && CleanChecks(n, rank, n.fair)
  }

  ghost predicate CleanChecks(n: Netlist, rank: Bit -> nat, checks: seq<Check>)
    requires Acyclic(n, rank)
  {
    forall i :: 0 <= i < |checks| ==> Clean(n, rank, checks[i].a) && Clean(n, rank, checks[i].en)
  }

  function ResetOf(zinit: bool, code: nat): Reset {
    if zinit || code == 0 then ToZero else if code == 1 then ToOne else Free
  }

  function Latches(zinit: bool, latchIn: seq<nat>, latchInit: seq<nat>): (r: seq<Latch>)
    requires |latchIn| == |latchInit|
    ensures |r| == |latchIn|
  {
    seq(|latchIn|, l requires 0 <= l < |latchIn| == |latchInit| => Latch(latchIn[l], ResetOf(zinit, latchInit[l])))
  }

  /** The rows written between those of the flops and those of the monitors. */
  function MiddleNexts(n: Netlist, o: Options): (r: seq<nat>) {
    if NeedsStart(n, o) then [1] else if o.lmode && UsedLatches(n, o) == 0 then [0] else []
  }

  predicate Codes(n: Netlist, latchInit: seq<nat>) {
    && |latchInit| >= |n.ffs|
    && (forall j :: 0 <= j < |n.ffs| ==> latchInit[j] == InitCode(n, j))
    && (forall l :: |n.ffs| <= l < |latchInit| ==> latchInit[l] == 0)
  }

  lemma LatchesAssembled(n: Netlist, o: Options, g: Aig, p: Plan, latchInit: seq<nat>, ffNexts: seq<nat>,
                         liveNexts: seq<nat>, fairNexts: seq<nat>)
    requires Codes(n, latchInit) && NextsDone(n, o.zinit, p.lits, ffNexts, |n.ffs|) && |ffNexts| == |n.ffs|
    requires |liveNexts| == 2 * |n.live| && |fairNexts| == |n.fair|
    requires |latchInit| == |ffNexts + MiddleNexts(n, o) + liveNexts + fairNexts|
    requires g.latches == Latches(o.zinit, ffNexts + MiddleNexts(n, o) + liveNexts + fairNexts, latchInit)
    requires |g.justice| == |n.live| && |g.fairness| == |n.fair|
    requires var l := g.inputs + |n.ffs| + Starts(n, o);
             LivesDone(n.live, Base(g), p.lits, g.gates, p.samples, l, liveNexts, g.justice, |n.live|)
             && FairsDone(n.fair, Base(g), p.lits, g.gates, l + 2 * |n.live|, fairNexts, g.fairness, |n.fair|)
    ensures |g.latches| >= UsedLatches(n, o) && LatchesCompiled(n, o, g, p)
    ensures |g.latches| == if o.lmode && UsedLatches(n, o) == 0 then 1 else UsedLatches(n, o)
    ensures UsedLatches(n, o) == 0 && |g.latches| == 1 ==> g.latches[0] == Latch(0, ToZero)
  {
    hide LiveLits, FairLits, HasInitState, HasFreeFf;
    var nexts := ffNexts + MiddleNexts(n, o) + liveNexts + fairNexts;
    forall j | 0 <= j < |n.ffs| ensures FfCompiled(n, o, g, p, j) {
      assert nexts[j] == ffNexts[j] && FfNext(n, o.zinit, p.lits, j, ffNexts[j]);
    }
    forall k | 0 <= k < |n.live| ensures LiveCompiled(n, o, g, p, k) {
      var l := LiveLatch(n, o, k);
      assert nexts[l] == liveNexts[2 * k] && nexts[l + 1] == liveNexts[2 * k + 1];
      assert LiveDone(n.live[k], Base(g), p.lits, g.gates, p.samples, g.inputs + LiveLatch(n, o, 0), liveNexts,
          g.justice, k);
    }
    forall k | 0 <= k < |n.fair| ensures FairCompiled(n, o, g, p, k) {
      assert nexts[FairLatch(n, o, k)] == fairNexts[k];
      assert FairDone(n.fair[k], Base(g), p.lits, g.gates, g.inputs + FairLatch(n, o, 0), fairNexts, g.fairness, k);
    }
  }

  lemma InitsFound(n: Netlist, initInputs: map<Bit, nat>, roles: seq<Role>, inputs: nat)
    requires InitsPlaced(n, initInputs, roles, inputs, |n.ffs|)
    ensures initInputs != map[] <==> HasFreeFf(n)
  {
  }

  lemma LatchRolesKeepInits(n: Netlist, initInputs: map<Bit, nat>, roles: seq<Role>, more: seq<Role>, inputs: nat)
    requires InitsPlaced(n, initInputs, roles, inputs, |n.ffs|) && roles <= more
    ensures InitsPlaced(n, initInputs, more, inputs, |n.ffs|)
  {
    forall i | 0 <= i < |n.ffs| && IsFree(n, i) ensures InitPlaced(n, initInputs, more, inputs, i) {
      assert InitPlaced(n, initInputs, roles, inputs, i);
    }
  }

  lemma SamplesKept(n: Netlist, inputs: nat, roles: seq<Role>, more: seq<Role>, samples: nat)
    requires SamplesPlaced(n, inputs, roles, samples) && roles <= more
    ensures SamplesPlaced(n, inputs, more, samples)
  {
    forall k | 0 <= k < |n.live| ensures SampleRole(samples, more, k) {
      assert SampleRole(samples, roles, k);
    }
  }

  lemma StartInUse(n: Netlist, o: Options, inputs: nat, start: nat)
    requires StartPlaced(n, o, inputs, start) && NeedsStart(n, o)
    ensures start < 2 * (inputs + UsedLatches(n, o)) + 2
  {
    hide HasInitState, HasFreeFf;
  }

  /** All variables that are not gates have been given out. */
  ghost predicate Numbered(n: Netlist, o: Options, inputs: nat, latches: nat, roles: seq<Role>, samples: nat,
                           start: nat, lits: map<Bit, nat>, initInputs: map<Bit, nat>)
  {
    && latches == UsedLatches(n, o) && |roles| == inputs + latches + 1 && |n.inputs| <= inputs
    && SourcesNumbered(n, inputs, roles, lits, |n.ffs|)
    && SamplesPlaced(n, inputs, roles, samples)
    && LatchRoles(n, o, inputs, roles)
    && StartPlaced(n, o, inputs, start)
    && (o.zinit ==> InitsPlaced(n, initInputs, roles, inputs, |n.ffs|))
  }

  lemma NumberedResets(n: Netlist, o: Options, inputs: nat, latches: nat, roles: seq<Role>, samples: nat, start: nat,
                       lits: map<Bit, nat>, initInputs: map<Bit, nat>)
    requires Numbered(n, o, inputs, latches, roles, samples, start, lits, initInputs)
    ensures ResetsDone(n, o.zinit, inputs, inputs + latches, inputs + latches, [], roles, start, lits, 0)
    ensures !o.zinit ==> ResetsDone(n, o.zinit, inputs, inputs + latches, inputs + latches, [], roles, start, lits,
        |n.ffs|)
    ensures NeedsStart(n, o) ==> start < 2 * (inputs + latches) + 2
  {
    hide LatchRoles, ResetsDone, SourcesNumbered, HasInitState, HasFreeFf, InitsPlaced;
    NothingRewritten(n, o.zinit, inputs, inputs + latches, roles, start, lits);
    if NeedsStart(n, o) { StartInUse(n, o, inputs, start); }
  }

  predicate PropertiesDone(n: Netlist, o: Options, base: nat, lits: map<Bit, nat>, gates: seq<Gate>, outs: seq<nat>,
                           bads: seq<nat>, holds: seq<nat>)
  {
    && OutputsDone(n.outputs, lits, outs, |n.outputs|)
    && FailsDone(n.asserts, base, lits, gates, bads, |n.asserts|)
    && HoldsDone(n.assumes, base, lits, gates, holds, |n.assumes|) && |holds| == |n.assumes|
    && |outs| >= |n.outputs| && outs[|n.outputs|..] == (if o.omode && n.outputs == [] then [0] else [])
    && |bads| >= |n.asserts| && bads[|n.asserts|..] == (if o.bmode && n.asserts == [] then [0] else [])
  }

  lemma PropertiesKept(n: Netlist, o: Options, base: nat, lits: map<Bit, nat>, more: map<Bit, nat>, gates: seq<Gate>,
                       gates': seq<Gate>, outs: seq<nat>, bads: seq<nat>, holds: seq<nat>)
    requires PropertiesDone(n, o, base, lits, gates, outs, bads, holds) && Extends(lits, more) && gates <= gates'
    ensures PropertiesDone(n, o, base, more, gates', outs, bads, holds)
  {
    hide OutputsDone, FailsDone, HoldsDone, Extends;
    OutputsKept(n.outputs, lits, more, outs, |n.outputs|);
    FailsKept(n.asserts, base, lits, more, gates, gates', bads, |n.asserts|);
    FailsKept(n.assumes, base, lits, more, gates, gates', holds, |n.assumes|);
  }

  lemma OutputsKept(bits: seq<Bit>, lits: map<Bit, nat>, more: map<Bit, nat>, outs: seq<nat>, k: nat)
    requires k <= |bits| && OutputsDone(bits, lits, outs, k) && Extends(lits, more)
    ensures OutputsDone(bits, more, outs, k)
  {
  }

  lemma ExtendsFurther(a: map<Bit, nat>, b: map<Bit, nat>, c: map<Bit, nat>)
    requires Extends(a, b) && Extends(b, c)
    ensures Extends(a, c)
  {
  }

  datatype Seen = Seen(outputs: seq<nat>, bads: seq<nat>, holds: seq<nat>, justice: seq<nat>, fairness: seq<nat>)

  datatype Status = Done | Stopped(error: Error)

  class AigerWriter {
    const netlist: Netlist
    const options: Options
    ghost const rank: Bit -> nat

    var aigM: nat
    var aigI: nat
    var aigL: nat
    var aigA: nat
    var gates: seq<Gate>
    var latchIn: seq<nat>
    var latchInit: seq<nat>
    var lits: map<Bit, nat>
    var initInputs: map<Bit, nat>
    var initStateFf: nat
    var stack: seq<Bit>
    var nextLoopCheck: nat
    var aigOutputs: seq<nat>
    var aigO: nat
    var aigB: nat
    var aigC: nat
    var aigJ: nat
    var aigF: nat

    ghost var roles: seq<Role>
    ghost var samples: nat
    ghost var src: map<Bit, nat>

    /** Appends a gate. */
    method MkGate(a0: nat, a1: nat) returns (l: nat)
      modifies this`aigM, this`aigA, this`gates
      ensures aigM == old(aigM) + 1 && aigA == old(aigA) + 1
      ensures gates == old(gates) + [Ordered(a0, a1)]
      ensures l == 2 * aigM
    {
      aigM, aigA := aigM + 1, aigA + 1;
      gates := gates + [if a0 > a1 then Gate(a0, a1) else Gate(a1, a0)];
      l := 2 * aigM;
    }

    /** Ready to translate bits. */
    ghost predicate Ready()
      reads this
    {
      && WellFormed(netlist) && Acyclic(netlist, rank)
      && Translated(netlist, src, initStateFf, aigI + aigL, aigM, lits, gates)
      && aigA == |gates| && nextLoopCheck > 0
    }

    /** Appends a gate while translating. */
    method AppendGate(x: nat, y: nat) returns (l: nat)
      requires Ready() && x < 2 * aigM + 2 && y < 2 * aigM + 2
      modifies this`aigM, this`aigA, this`gates
      ensures Ready() && old(gates) <= gates && aigM == old(aigM) + 1
      ensures l < 2 * aigM + 1 && l % 2 == 0 && GateOutput(aigI + aigL, gates, x, y, l)
    {
      hide Translated, GateOutput, WellFormed, Acyclic, Ordered;
      GateAppended(netlist, src, initStateFf, aigI + aigL, aigM, lits, gates, x, y);
      l := MkGate(x, y);
    }

    /** The literal of a bit: cached, or translated through its driver. Fails exactly when the cone of the
        bit holds an undefined constant or an undriven wire; the loop check never fires. */
    method Bit2Aig(b: Bit) returns (r: Outcome)
      requires Ready()
      requires forall i :: 0 <= i < |stack| ==> rank(b) < rank(stack[i])
      modifies this`aigM, this`aigA, this`gates, this`lits, this`stack, this`nextLoopCheck
      ensures r.Literal? <==> Clean(netlist, rank, b)
      ensures r.Failed? ==> r.error != CombinationalLoop
      ensures r.Literal? ==> Ready() && stack == old(stack) && b in lits && lits[b] == r.lit
      ensures r.Literal? ==> r.lit < 2 * aigM + 2
      ensures r.Literal? ==> Extends(old(lits), lits) && old(gates) <= gates && aigM >= old(aigM)
      ensures r.Literal? ==> AddsBelow(old(lits), lits, rank, rank(b) + 1)
      decreases rank(b), 1
    {
      hide Translated, DriverLit, IsSource;
      if b in lits {
        TranslatedIsClean(netlist, rank, src, initStateFf, aigI + aigL, aigM, lits, gates, b);
        return Literal(lits[b]);
      }
      SourcesTranslated(netlist, src, initStateFf, aigI + aigL, aigM, lits, gates, b);
      if |stack| == nextLoopCheck {
        if b in stack { return Failed(CombinationalLoop); }
        nextLoopCheck := nextLoopCheck * 2;
      }
      stack := stack + [b];
      var l: Outcome := Failed(Undriven);
      if b in netlist.drivers {
        l := Driver2Aig(b);
        if l.Failed? { return l; }
      }
      stack := stack[..|stack| - 1];
      if b == Undef { return Failed(UndefinedBit); }
      if l.Failed? { return l; }
      BitRecorded(netlist, src, initStateFf, aigI + aigL, aigM, lits, gates, b, l.lit);
      lits := lits[b := l.lit];
      r := l;
    }

    /** The literal of a bit that is driven by a gate, an alias or the first-cycle indicator. */
    method Driver2Aig(b: Bit) returns (r: Outcome)
      requires Ready() && b in netlist.drivers && !IsSource(netlist, b)
      requires forall i :: 0 <= i < |stack| ==> rank(b) <= rank(stack[i])
      modifies this`aigM, this`aigA, this`gates, this`lits, this`stack, this`nextLoopCheck
      ensures r.Literal? <==> Clean(netlist, rank, b)
      ensures r.Failed? ==> r.error != CombinationalLoop
      ensures r.Literal? ==> Ready() && stack == old(stack) && r.lit < 2 * aigM + 2
      ensures r.Literal? ==> DriverLit(netlist.drivers[b], initStateFf, aigI + aigL, lits, gates, r.lit)
      ensures r.Literal? ==> Extends(old(lits), lits) && old(gates) <= gates && aigM >= old(aigM)
      ensures r.Literal? ==> AddsBelow(old(lits), lits, rank, rank(b))
      decreases rank(b), 0
    {
      hide Translated, GateOutput, IsSource, WellFormed;
      match netlist.drivers[b]
      case Not(a) =>
        r := Bit2Aig(a);
        if r.Literal? { r := Literal(Flip(r.lit)); }
      case And(x, y) =>
        var a0 := Bit2Aig(x);
        if a0.Failed? { return a0; }
        var a1 := Bit2Aig(y);
        if a1.Failed? { return a1; }
        var g := AppendGate(a0.lit, a1.lit);
        r := Literal(g);
      case Alias(a) =>
        r := Bit2Aig(a);
      case InitState =>
        StartIsBelow(netlist, src, initStateFf, aigI + aigL, aigM, lits, gates, b);
        r := Literal(initStateFf);
    }

    constructor (netlist: Netlist, options: Options, ghost rank: Bit -> nat)
      requires WellFormed(netlist) && Acyclic(netlist, rank)
      ensures this.netlist == netlist && this.options == options && this.rank == rank
      ensures aigM == aigI == aigL == aigA == 0 && gates == [] && latchIn == [] && latchInit == []
      ensures lits == map[Zero := 0, One := 1] && initInputs == map[] && roles == [Constant]
      ensures stack == [] && nextLoopCheck == 1024 && aigOutputs == []
      ensures aigO == aigB == aigC == aigJ == aigF == 0 && initStateFf == 0
    {
      this.netlist, this.options, this.rank := netlist, options, rank;
      aigM, aigI, aigL, aigA := 0, 0, 0, 0;
      gates, latchIn, latchInit, aigOutputs, stack := [], [], [], [], [];
      lits, initInputs := map[Zero := 0, One := 1], map[];
      aigO, aigB, aigC, aigJ, aigF, initStateFf, nextLoopCheck := 0, 0, 0, 0, 0, 0, 1024;
      roles, samples, src := [Constant], 0, map[];
    }

    /** Gives the next variable to an input. */
    method NumberInput(i: nat)
      requires WellFormed(netlist) && i < |netlist.inputs| && aigM == aigI == i && |roles| == aigM + 1
      requires InputsNumbered(netlist, roles, lits, i)
      modifies this`aigM, this`aigI, this`lits, this`roles
      ensures aigM == aigI == i + 1 && |roles| == aigM + 1 && InputsNumbered(netlist, roles, lits, i + 1)
    {
      aigM, aigI := aigM + 1, aigI + 1;
      lits := lits[netlist.inputs[i] := 2 * aigM];
      roles := roles + [InputVar(netlist.inputs[i])];
      assert netlist.inputs[..i + 1] == netlist.inputs[..i] + [netlist.inputs[i]];
      forall k | 0 <= k < i + 1 ensures InputPlaced(roles, lits, netlist.inputs[k], k) {
        if k < i { assert InputPlaced(old(roles), old(lits), netlist.inputs[k], k); }
      }
    }

    /** Gives the next variable to the initial value of flop j if it has none. */
    method NumberInit(j: nat)
      requires WellFormed(netlist) && j < |netlist.ffs| && aigM == aigI >= |netlist.inputs| && |roles| == aigM + 1
      requires InputsNumbered(netlist, roles, lits, |netlist.inputs|)
      requires InitsPlaced(netlist, initInputs, roles, aigI, j)
      modifies this`aigM, this`aigI, this`initInputs, this`roles
      ensures aigM == aigI >= old(aigI) && |roles| == aigM + 1
      ensures InputsNumbered(netlist, roles, lits, |netlist.inputs|)
      ensures InitsPlaced(netlist, initInputs, roles, aigI, j + 1)
    {
      if IsFree(netlist, j) {
        aigM, aigI := aigM + 1, aigI + 1;
        initInputs := initInputs[netlist.ffs[j].q := 2 * aigM];
        roles := roles + [InitVar(j)];
        RolesGrow(netlist, old(roles), roles, lits, |netlist.inputs|, old(initInputs), old(aigI), aigI, j);
        forall k | 0 <= k < j + 1 && IsFree(netlist, k) ensures InitPlaced(netlist, initInputs, roles, aigI, k) {
          if k < j { assert InitPlaced(netlist, old(initInputs), roles, aigI, k); }
        }
        assert netlist.ffs[j].q in initInputs;
      }
    }

    /** Numbers the inputs: those of the netlist, one for each flop without initial value if resets are
        to be zero, and one sample input for each live cell. */
    method NumberInputs()
      requires WellFormed(netlist) && aigM == aigI == 0 && lits == map[Zero := 0, One := 1]
      requires initInputs == map[] && roles == [Constant]
      modifies this`aigM, this`aigI, this`lits, this`initInputs, this`roles, this`samples
      ensures aigM == aigI && |roles| == aigM + 1
      ensures InputsNumbered(netlist, roles, lits, |netlist.inputs|) && |netlist.inputs| <= aigI
      ensures options.zinit ==> InitsPlaced(netlist, initInputs, roles, aigI, |netlist.ffs|)
      ensures !options.zinit ==> initInputs == map[]
      ensures SamplesPlaced(netlist, aigI, roles, samples)
    {
      var i := 0;
      while i < |netlist.inputs|
        invariant i <= |netlist.inputs| && aigM == aigI == i && |roles| == aigM + 1 && initInputs == old(initInputs)
        invariant InputsNumbered(netlist, roles, lits, i)
      {
        NumberInput(i);
        i := i + 1;
      }
      if options.imode && |netlist.inputs| == 0 {
        aigM, aigI := aigM + 1, aigI + 1;
        roles := roles + [Unused];
      }
      NumberInits();
      NumberSamples();
    }

    method NumberInits()
      requires WellFormed(netlist) && aigM == aigI >= |netlist.inputs| && |roles| == aigM + 1
      requires InputsNumbered(netlist, roles, lits, |netlist.inputs|) && initInputs == map[]
      modifies this`aigM, this`aigI, this`initInputs, this`roles
      ensures aigM == aigI >= |netlist.inputs| && |roles| == aigM + 1
      ensures InputsNumbered(netlist, roles, lits, |netlist.inputs|)
      ensures options.zinit ==> InitsPlaced(netlist, initInputs, roles, aigI, |netlist.ffs|)
      ensures !options.zinit ==> initInputs == map[]
    {
      if options.zinit {
        var j := 0;
        while j < |netlist.ffs|
          invariant j <= |netlist.ffs| && aigM == aigI >= |netlist.inputs| && |roles| == aigM + 1
          invariant InputsNumbered(netlist, roles, lits, |netlist.inputs|)
          invariant InitsPlaced(netlist, initInputs, roles, aigI, j)
        {
          NumberInit(j);
          j := j + 1;
        }
      }
    }

    method NumberSamples()
      requires aigM == aigI >= |netlist.inputs| && |roles| == aigM + 1
      requires InputsNumbered(netlist, roles, lits, |netlist.inputs|)
      requires options.zinit ==> InitsPlaced(netlist, initInputs, roles, aigI, |netlist.ffs|)
      modifies this`aigM, this`aigI, this`roles, this`samples
      ensures aigM == aigI >= |netlist.inputs| && |roles| == aigM + 1
      ensures InputsNumbered(netlist, roles, lits, |netlist.inputs|)
      ensures options.zinit ==> InitsPlaced(netlist, initInputs, roles, aigI, |netlist.ffs|)
      ensures SamplesPlaced(netlist, aigI, roles, samples)
    {
      samples := aigM;
      roles := roles + seq(|netlist.live|, (k: nat) => SampleVar(k));
      aigM, aigI := aigM + |netlist.live|, aigI + |netlist.live|;
      RolesGrow(netlist, old(roles), roles, lits, |netlist.inputs|, initInputs, old(aigI), aigI, |netlist.ffs|);
      forall k | 0 <= k < |netlist.live| ensures SampleRole(samples, roles, k) {}
    }

    method NumberFfs()
      requires WellFormed(netlist) && aigM == aigI && aigL == 0 && |roles| == aigM + 1 && latchInit == []
      requires InputsNumbered(netlist, roles, lits, |netlist.inputs|)
      modifies this`aigM, this`aigL, this`lits, this`latchInit, this`roles
      ensures aigM == aigI + aigL && aigL == |netlist.ffs| == |latchInit| && |roles| == aigM + 1
      ensures old(roles) <= roles && SourcesNumbered(netlist, aigI, roles, lits, |netlist.ffs|)
      ensures forall j :: 0 <= j < |netlist.ffs| ==> latchInit[j] == InitCode(netlist, j)
    {
      hide SourcesNumbered, InputsNumbered, WellFormed;
      StartSources(netlist, aigI, roles, lits);
      var j := 0;
      while j < |netlist.ffs|
        invariant j <= |netlist.ffs| && aigL == j == |latchInit| && aigM == aigI + j && |roles| == aigM + 1
        invariant old(roles) <= roles && SourcesNumbered(netlist, aigI, roles, lits, j)
        invariant forall i :: 0 <= i < j ==> latchInit[i] == InitCode(netlist, i)
      {
        LatchAdded(netlist, aigI, roles, lits, j);
        aigM, aigL := aigM + 1, aigL + 1;
        lits := lits[netlist.ffs[j].q := 2 * aigM];
        latchInit := latchInit + [InitCode(netlist, j)];
        roles := roles + [FfVar(j)];
        j := j + 1;
      }
    }

    /** Numbers the latches: flops, first-cycle indicator if needed, two for each live cell, one for each
        fair cell. */
    method NumberLatches()
      requires WellFormed(netlist) && aigM == aigI && aigL == 0 && |roles| == aigM + 1 && latchInit == []
      requires InputsNumbered(netlist, roles, lits, |netlist.inputs|)
      requires initInputs != map[] <==> options.zinit && HasFreeFf(netlist)
      modifies this`aigM, this`aigL, this`lits, this`latchInit, this`initStateFf, this`roles
      ensures aigM == aigI + aigL && aigL == UsedLatches(netlist, options) == |latchInit| && |roles| == aigM + 1
      ensures old(roles) <= roles && SourcesNumbered(netlist, aigI, roles, lits, |netlist.ffs|)
      ensures LatchRoles(netlist, options, aigI, roles) && StartPlaced(netlist, options, aigI, initStateFf)
      ensures forall j :: 0 <= j < |netlist.ffs| ==> latchInit[j] == InitCode(netlist, j)
      ensures forall l :: |netlist.ffs| <= l < aigL ==> latchInit[l] == 0
    {
      hide SourcesNumbered, InputsNumbered, WellFormed, HasInitState, HasFreeFf, LatchRoles, InitCode;
      NumberFfs();
      ghost var ffRoles := roles;
      if HasInitState(netlist) || initInputs != map[] {
        aigM, aigL := aigM + 1, aigL + 1;
        initStateFf := 2 * aigM + 1;
        latchInit := latchInit + [0];
      }
      var monitors := |netlist.fair| + 2 * |netlist.live|;
      aigM, aigL := aigM + monitors, aigL + monitors;
      latchInit := latchInit + seq(monitors, i => 0);
      roles := roles + MonitorRoles(netlist, options);
      RolesGrowFurther(netlist, aigI, ffRoles, roles, lits, |netlist.ffs|);
      forall i | 0 <= i < |netlist.ffs| ensures FfRole(aigI, ffRoles, i) {
        RoleNumbered(netlist, aigI, ffRoles, lits, i);
      }
      RolesComplete(netlist, options, aigI, ffRoles);
    }

    /** With zero resets, a flop that starts at one is read through a negated latch, and one without
        initial value through a multiplexer with its initial input in the first cycle. */
    method ZeroResets()
      requires WellFormed(netlist) && options.zinit && aigA == |gates|
      requires ResetsDone(netlist, true, aigI, aigI + aigL, aigM, gates, roles, initStateFf, lits, 0)
      requires InitsPlaced(netlist, initInputs, roles, aigI, |netlist.ffs|) && |netlist.ffs| <= aigL
      requires HasFreeFf(netlist) ==> initStateFf < 2 * aigM + 2
      requires |latchInit| >= |netlist.ffs| && forall j :: 0 <= j < |netlist.ffs| ==>
          latchInit[j] == InitCode(netlist, j)
      modifies this`aigM, this`aigA, this`gates, this`lits
      ensures ResetsDone(netlist, true, aigI, aigI + aigL, aigM, gates, roles, initStateFf, lits, |netlist.ffs|)
      ensures aigA == |gates| && aigM >= old(aigM) && (netlist.ffs == [] ==> gates == old(gates) && aigM == old(aigM))
    {
      var j := 0;
      while j < |netlist.ffs|
        invariant j <= |netlist.ffs| && aigA == |gates| && aigM >= old(aigM)
        invariant ResetsDone(netlist, true, aigI, aigI + aigL, aigM, gates, roles, initStateFf, lits, j)
        invariant netlist.ffs == [] ==> gates == old(gates) && aigM == old(aigM)
      {
        ZeroReset(j);
        j := j + 1;
      }
    }

    method ZeroReset(j: nat)
      requires WellFormed(netlist) && j < |netlist.ffs| && aigA == |gates|
      requires ResetsDone(netlist, true, aigI, aigI + aigL, aigM, gates, roles, initStateFf, lits, j)
      requires IsFree(netlist, j) ==> InitPlaced(netlist, initInputs, roles, aigI, j) && initStateFf < 2 * aigM + 2
      requires |netlist.ffs| <= aigL
      requires |latchInit| >= |netlist.ffs| && latchInit[j] == InitCode(netlist, j)
      modifies this`aigM, this`aigA, this`gates, this`lits
      ensures ResetsDone(netlist, true, aigI, aigI + aigL, aigM, gates, roles, initStateFf, lits, j + 1)
      ensures aigA == |gates| && aigM >= old(aigM)
    {
      hide ResetsDone, WellFormed, MuxParts, FfPlaced;
      var q := netlist.ffs[j].q;
      PlainLatch(netlist, aigI, aigI + aigL, aigM, gates, roles, initStateFf, lits, j);
      ghost var l := lits[q];
      if latchInit[j] == 1 {
        lits := lits[q := Flip(lits[q])];
        l := lits[q];
      }
      if latchInit[j] == 2 {
        MuxPlaced(netlist, aigI, aigI + aigL, aigM, gates, roles, initStateFf, j, initInputs[q] / 2);
        var gatedFfOut := MkGate(lits[q], Flip(initStateFf));
        var gatedInitIn := MkGate(initInputs[q], initStateFf);
        var muxed := MkGate(Flip(gatedFfOut), Flip(gatedInitIn));
        lits := lits[q := Flip(muxed)];
        assert gates == old(gates) + MuxGates(old(aigM), 2 * (aigI + j + 1), initInputs[q], initStateFf);
      } else {
        PlacedDirectly(netlist, aigI, aigI + aigL, gates, roles, initStateFf, j, l);
      }
      FlopRewritten(netlist, true, aigI, aigI + aigL, old(aigM), old(gates), gates, roles, initStateFf, old(lits), j,
          lits[q]);
      assert lits == old(lits)[q := lits[q]];
    }

    /** The next-state literals of the flops. */
    method NextStates() returns (r: Status)
      requires Ready() && stack == [] && latchIn == []
      requires |latchInit| >= |netlist.ffs| && forall j :: 0 <= j < |netlist.ffs| ==>
          latchInit[j] == InitCode(netlist, j)
      modifies this`aigM, this`aigA, this`gates, this`lits, this`stack, this`nextLoopCheck, this`latchIn
      ensures r.Done? <==> forall j :: 0 <= j < |netlist.ffs| ==> Clean(netlist, rank, netlist.ffs[j].d)
      ensures r.Stopped? ==> r.error != CombinationalLoop
      ensures r.Done? ==> Ready() && stack == [] && Extends(old(lits), lits) && old(gates) <= gates
      ensures r.Done? ==> |latchIn| == |netlist.ffs| && NextsDone(netlist, options.zinit, lits, latchIn, |netlist.ffs|)
      ensures netlist.ffs == [] ==> lits == old(lits) && gates == old(gates) && aigM == old(aigM)
    {
      hide Translated, IsSource, WellFormed, AddsBelow, Acyclic, Clean;
      var j := 0;
      while j < |netlist.ffs|
        invariant j <= |netlist.ffs| && |latchIn| == j
        invariant Ready() && stack == [] && Extends(old(lits), lits) && old(gates) <= gates
        invariant NextsDone(netlist, options.zinit, lits, latchIn, j)
        invariant forall i :: 0 <= i < j ==> Clean(netlist, rank, netlist.ffs[i].d)
        invariant netlist.ffs == [] ==> lits == old(lits) && gates == old(gates) && aigM == old(aigM)
      {
        ghost var before := lits;
        var a := Bit2Aig(netlist.ffs[j].d);
        if a.Failed? { return Stopped(a.error); }
        NextsKept(netlist, options.zinit, before, lits, latchIn, j);
        latchIn := latchIn + [if options.zinit && latchInit[j] == 1 then Flip(a.lit) else a.lit];
        j := j + 1;
      }
      r := Done;
    }

    /** The literal of a check that is enabled and fails. */
    method FailGate(c: Check) returns (r: Outcome)
      requires Ready() && stack == []
      modifies this`aigM, this`aigA, this`gates, this`lits, this`stack, this`nextLoopCheck
      ensures r.Literal? <==> Clean(netlist, rank, c.a) && Clean(netlist, rank, c.en)
      ensures r.Failed? ==> r.error != CombinationalLoop
      ensures r.Literal? ==> Ready() && stack == [] && Extends(old(lits), lits) && old(gates) <= gates
      ensures r.Literal? ==> r.lit % 2 == 0 && FailLit(c, aigI + aigL, lits, gates, r.lit)
    {
      hide Translated, IsSource, WellFormed, AddsBelow, Acyclic, Clean, GateOutput;
      var a := Bit2Aig(c.a);
      if a.Failed? { return a; }
      var en := Bit2Aig(c.en);
      if en.Failed? { return en; }
      var g := AppendGate(Flip(a.lit), en.lit);
      r := Literal(g);
    }

    method Outputs() returns (r: Status, ghost outs: seq<nat>)
      requires Ready() && stack == []
      modifies this`aigM, this`aigA, this`gates, this`lits, this`stack, this`nextLoopCheck, this`aigOutputs, this`aigO
      ensures r.Done? <==> forall i :: 0 <= i < |netlist.outputs| ==> Clean(netlist, rank, netlist.outputs[i])
      ensures r.Stopped? ==> r.error != CombinationalLoop
      ensures r.Done? ==> Ready() && stack == [] && Extends(old(lits), lits) && old(gates) <= gates
      ensures r.Done? ==> aigOutputs == old(aigOutputs) + outs && aigO == old(aigO) + |outs|
      ensures r.Done? ==> |outs| >= |netlist.outputs| && OutputsDone(netlist.outputs, lits, outs, |netlist.outputs|)
      ensures r.Done? ==> outs[|netlist.outputs|..] == if options.omode && netlist.outputs == [] then [0] else []
    {
      hide Translated, IsSource, WellFormed, AddsBelow, Acyclic, Clean;
      var i := 0;
      outs := [];
      while i < |netlist.outputs|
        invariant i <= |netlist.outputs| && |outs| == i && aigOutputs == old(aigOutputs) + outs && aigO == old(aigO) + i
        invariant Ready() && stack == [] && Extends(old(lits), lits) && old(gates) <= gates
        invariant OutputsDone(netlist.outputs, lits, outs, i)
        invariant forall k :: 0 <= k < i ==> Clean(netlist, rank, netlist.outputs[k])
      {
        aigO := aigO + 1;
        var a := Bit2Aig(netlist.outputs[i]);
        if a.Failed? { return Stopped(a.error), outs; }
        aigOutputs := aigOutputs + [a.lit];
        outs := outs + [a.lit];
        i := i + 1;
      }
      if options.omode && |netlist.outputs| == 0 {
        aigO := aigO + 1;
        aigOutputs := aigOutputs + [0];
        outs := outs + [0];
      }
      r := Done;
    }

    method Asserts() returns (r: Status, ghost outs: seq<nat>)
      requires Ready() && stack == []
      modifies this`aigM, this`aigA, this`gates, this`lits, this`stack, this`nextLoopCheck, this`aigOutputs, this`aigB
      ensures r.Done? <==> CleanChecks(netlist, rank, netlist.asserts)
      ensures r.Stopped? ==> r.error != CombinationalLoop
      ensures r.Done? ==> Ready() && stack == [] && Extends(old(lits), lits) && old(gates) <= gates
      ensures r.Done? ==> aigOutputs == old(aigOutputs) + outs && aigB == old(aigB) + |outs|
      ensures r.Done? ==> |outs| >= |netlist.asserts|
      ensures r.Done? ==> FailsDone(netlist.asserts, aigI + aigL, lits, gates, outs, |netlist.asserts|)
      ensures r.Done? ==> outs[|netlist.asserts|..] == if options.bmode && netlist.asserts == [] then [0] else []
    {
      hide Translated, IsSource, WellFormed, AddsBelow, Acyclic, Clean, FailLit;
      var i := 0;
      outs := [];
      while i < |netlist.asserts|
        invariant i <= |netlist.asserts| && |outs| == i && aigOutputs == old(aigOutputs) + outs && aigB == old(aigB) + i
        invariant Ready() && stack == [] && Extends(old(lits), lits) && old(gates) <= gates
        invariant FailsDone(netlist.asserts, aigI + aigL, lits, gates, outs, i)
        invariant forall k :: 0 <= k < i ==>
          Clean(netlist, rank, netlist.asserts[k].a) && Clean(netlist, rank, netlist.asserts[k].en)
      {
        aigB := aigB + 1;
        ghost var lits0, gates0 := lits, gates;
        var a := FailGate(netlist.asserts[i]);
        if a.Failed? { return Stopped(a.error), outs; }
        FailsKept(netlist.asserts, aigI + aigL, lits0, lits, gates0, gates, outs, i);
        aigOutputs := aigOutputs + [a.lit];
        outs := outs + [a.lit];
        i := i + 1;
      }
      if options.bmode && |netlist.asserts| == 0 {
        aigB := aigB + 1;
        aigOutputs := aigOutputs + [0];
        outs := outs + [0];
      }
      r := Done;
    }

    method Assumes() returns (r: Status, ghost outs: seq<nat>)
      requires Ready() && stack == []
      modifies this`aigM, this`aigA, this`gates, this`lits, this`stack, this`nextLoopCheck, this`aigOutputs, this`aigC
      ensures r.Done? <==> CleanChecks(netlist, rank, netlist.assumes)
      ensures r.Stopped? ==> r.error != CombinationalLoop
      ensures r.Done? ==> Ready() && stack == [] && Extends(old(lits), lits) && old(gates) <= gates
      ensures r.Done? ==> aigOutputs == old(aigOutputs) + outs && aigC == old(aigC) + |outs|
      ensures r.Done? ==> |outs| == |netlist.assumes|
      ensures r.Done? ==> HoldsDone(netlist.assumes, aigI + aigL, lits, gates, outs, |netlist.assumes|)
    {
      hide Translated, IsSource, WellFormed, AddsBelow, Acyclic, Clean, FailLit;
      var i := 0;
      outs := [];
      while i < |netlist.assumes|
        invariant i <= |netlist.assumes| && |outs| == i && aigOutputs == old(aigOutputs) + outs && aigC == old(aigC) + i
        invariant Ready() && stack == [] && Extends(old(lits), lits) && old(gates) <= gates
        invariant HoldsDone(netlist.assumes, aigI + aigL, lits, gates, outs, i)
        invariant forall k :: 0 <= k < i ==>
          Clean(netlist, rank, netlist.assumes[k].a) && Clean(netlist, rank, netlist.assumes[k].en)
      {
        aigC := aigC + 1;
        ghost var lits0, gates0 := lits, gates;
        var a := FailGate(netlist.assumes[i]);
        if a.Failed? { return Stopped(a.error), outs; }
        FailsKept(netlist.assumes, aigI + aigL, lits0, lits, gates0, gates, outs, i);
        aigOutputs := aigOutputs + [Flip(a.lit)];
        outs := outs + [Flip(a.lit)];
        assert Flip(Flip(a.lit)) == a.lit;
        i := i + 1;
      }
      r := Done;
    }

    /** The literal of x and y, or z. */
    method AndOr(x: nat, y: nat, z: nat) returns (l: nat, ghost g: nat)
      requires Ready() && x < 2 * aigM + 2 && y < 2 * aigM + 2 && z < 2 * aigM + 2
      modifies this`aigM, this`aigA, this`gates
      ensures Ready() && old(gates) <= gates && aigM == old(aigM) + 2 && l < 2 * aigM + 2
      ensures GateOutput(aigI + aigL, gates, x, y, g) && GateOutput(aigI + aigL, gates, Flip(g), Flip(z), Flip(l))
    {
      hide Ready, GateOutput;
      var and := AppendGate(x, y);
      ghost var before := gates;
      var or := AppendGate(Flip(and), Flip(z));
      l, g := Flip(or), and;
      OutputKept(aigI + aigL, before, gates, x, y, g);
    }

    /** The gates of the live monitor with sample variable s and latch variables q1 and q2. */
    method LiveMonitor(c: Check, s: nat, q1: nat, q2: nat) returns (r: Status, d1: nat, d2: nat, out: nat)
      requires Ready() && stack == [] && s <= aigM && q1 <= aigM && q2 <= aigM
      modifies this`aigM, this`aigA, this`gates, this`lits, this`stack, this`nextLoopCheck
      ensures r.Done? <==> Clean(netlist, rank, c.a) && Clean(netlist, rank, c.en)
      ensures r.Stopped? ==> r.error != CombinationalLoop
      ensures r.Done? ==> Ready() && stack == [] && Extends(old(lits), lits) && old(gates) <= gates && aigM >= old(aigM)
      ensures r.Done? ==> LiveLits(c, aigI + aigL, lits, gates, s, q1, q2, d1, d2, out)
    {
      hide Translated, IsSource, WellFormed, AddsBelow, Acyclic, Clean, GateOutput, LiveLits, Ready;
      d1, d2, out := 0, 0, 0;
      var a := Bit2Aig(c.a);
      if a.Failed? { return Stopped(a.error), d1, d2, out; }
      var en := Bit2Aig(c.en);
      if en.Failed? { return Stopped(en.error), d1, d2, out; }
      ghost var base := aigI + aigL;
      ghost var g1, g2;
      d1, g1 := AndOr(2 * s, en.lit, 2 * q1);
      ghost var gates1 := gates;
      d2, g2 := AndOr(d1, a.lit, 2 * q2);
      ghost var gates2 := gates;
      out := AppendGate(2 * q1, Flip(2 * q2));
      OutputKept(base, gates1, gates, 2 * s, en.lit, g1);
      OutputKept(base, gates1, gates, Flip(g1), Flip(2 * q1), Flip(d1));
      OutputKept(base, gates2, gates, d1, a.lit, g2);
      OutputKept(base, gates2, gates, Flip(g2), Flip(2 * q2), Flip(d2));
      LiveAssembled(c, base, lits, gates, s, q1, q2, d1, d2, out, g1, g2);
      r := Done;
    }

    method LiveMonitors(inputsM: nat, latchesM: nat) returns (r: Status, ghost nexts: seq<nat>, ghost outs: seq<nat>)
      requires Ready() && stack == [] && inputsM + |netlist.live| <= aigM && latchesM + 2 * |netlist.live| <= aigM
      modifies this`aigM, this`aigA, this`gates, this`lits, this`stack, this`nextLoopCheck, this`aigOutputs,
          this`aigJ, this`latchIn
      ensures r.Done? <==> CleanChecks(netlist, rank, netlist.live)
      ensures r.Stopped? ==> r.error != CombinationalLoop
      ensures r.Done? ==> Ready() && stack == [] && Extends(old(lits), lits) && old(gates) <= gates && aigM >= old(aigM)
      ensures r.Done? ==> aigOutputs == old(aigOutputs) + outs && aigJ == old(aigJ) + |outs| && |outs| == |netlist.live|
      ensures r.Done? ==> latchIn == old(latchIn) + nexts && |nexts| == 2 * |netlist.live|
      ensures r.Done? ==> LivesDone(netlist.live, aigI + aigL, lits, gates, inputsM, latchesM, nexts, outs,
          |netlist.live|)
    {
      hide Translated, IsSource, WellFormed, AddsBelow, Acyclic, Clean, LiveLits;
      var i := 0;
      nexts, outs := [], [];
      while i < |netlist.live|
        invariant i <= |netlist.live| && |outs| == i && |nexts| == 2 * i && aigM >= old(aigM)
        invariant aigOutputs == old(aigOutputs) + outs && aigJ == old(aigJ) + i && latchIn == old(latchIn) + nexts
        invariant Ready() && stack == [] && Extends(old(lits), lits) && old(gates) <= gates
        invariant LivesDone(netlist.live, aigI + aigL, lits, gates, inputsM, latchesM, nexts, outs, i)
        invariant forall k :: 0 <= k < i ==>
          Clean(netlist, rank, netlist.live[k].a) && Clean(netlist, rank, netlist.live[k].en)
      {
        ghost var lits0, gates0 := lits, gates;
        var s, d1, d2, out := LiveMonitor(netlist.live[i], inputsM + i + 1, latchesM + 2 * i + 1, latchesM + 2 * i + 2);
        if s.Stopped? { return s, nexts, outs; }
        LivesKept(netlist.live, aigI + aigL, lits0, lits, gates0, gates, inputsM, latchesM, nexts, outs, i);
        aigJ := aigJ + 1;
        LivesGrow(netlist.live, aigI + aigL, lits, gates, inputsM, latchesM, nexts, outs, i, d1, d2, out);
        latchIn := latchIn + [d1];
        latchIn := latchIn + [d2];
        aigOutputs := aigOutputs + [out];
        nexts, outs := nexts + [d1, d2], outs + [out];
        i := i + 1;
      }
      r := Done;
    }

    /** The next-state gates of the fair monitor with latch variable q. */
    method FairMonitor(c: Check, q: nat) returns (r: Status, d: nat)
      requires Ready() && stack == [] && q <= aigM
      modifies this`aigM, this`aigA, this`gates, this`lits, this`stack, this`nextLoopCheck
      ensures r.Done? <==> Clean(netlist, rank, c.a) && Clean(netlist, rank, c.en)
      ensures r.Stopped? ==> r.error != CombinationalLoop
      ensures r.Done? ==> Ready() && stack == [] && Extends(old(lits), lits) && old(gates) <= gates && aigM >= old(aigM)
      ensures r.Done? ==> FairLits(c, aigI + aigL, lits, gates, q, d)
    {
      hide Translated, IsSource, WellFormed, AddsBelow, Acyclic, Clean, GateOutput, FairLits, Ready;
      d := 0;
      var a := Bit2Aig(c.a);
      if a.Failed? { return Stopped(a.error), d; }
      var en := Bit2Aig(c.en);
      if en.Failed? { return Stopped(en.error), d; }
      ghost var base := aigI + aigL;
      var g := AppendGate(Flip(2 * q), Flip(en.lit));
      ghost var gates1 := gates;
      d := AppendGate(Flip(g), Flip(a.lit));
      OutputKept(base, gates1, gates, Flip(2 * q), Flip(en.lit), g);
      FairAssembled(c, base, lits, gates, q, d, g);
      r := Done;
    }

    method FairMonitors(latchesM: nat) returns (r: Status, ghost nexts: seq<nat>, ghost outs: seq<nat>)
      requires Ready() && stack == [] && latchesM + |netlist.fair| <= aigM
      modifies this`aigM, this`aigA, this`gates, this`lits, this`stack, this`nextLoopCheck, this`aigOutputs,
          this`aigF, this`latchIn
      ensures r.Done? <==> CleanChecks(netlist, rank, netlist.fair)
      ensures r.Stopped? ==> r.error != CombinationalLoop
      ensures r.Done? ==> Ready() && stack == [] && Extends(old(lits), lits) && old(gates) <= gates
      ensures r.Done? ==> aigOutputs == old(aigOutputs) + outs && aigF == old(aigF) + |outs| && |outs| == |netlist.fair|
      ensures r.Done? ==> latchIn == old(latchIn) + nexts && |nexts| == |netlist.fair|
      ensures r.Done? ==> FairsDone(netlist.fair, aigI + aigL, lits, gates, latchesM, nexts, outs, |netlist.fair|)
    {
      hide Translated, IsSource, WellFormed, AddsBelow, Acyclic, Clean, FairLits;
      var i := 0;
      nexts, outs := [], [];
      while i < |netlist.fair|
        invariant i <= |netlist.fair| && |outs| == |nexts| == i && aigM >= old(aigM)
        invariant aigOutputs == old(aigOutputs) + outs && aigF == old(aigF) + i && latchIn == old(latchIn) + nexts
        invariant Ready() && stack == [] && Extends(old(lits), lits) && old(gates) <= gates
        invariant FairsDone(netlist.fair, aigI + aigL, lits, gates, latchesM, nexts, outs, i)
        invariant forall k :: 0 <= k < i ==>
          Clean(netlist, rank, netlist.fair[k].a) && Clean(netlist, rank, netlist.fair[k].en)
      {
        ghost var lits0, gates0 := lits, gates;
        var q := latchesM + i + 1;
        var s, d := FairMonitor(netlist.fair[i], q);
        if s.Stopped? { return s, nexts, outs; }
        FairsKept(netlist.fair, aigI + aigL, lits0, lits, gates0, gates, latchesM, nexts, outs, i);
        FairsGrow(netlist.fair, aigI + aigL, lits, gates, latchesM, nexts, outs, i, d);
        aigF := aigF + 1;
        latchIn := latchIn + [d];
        aigOutputs := aigOutputs + [Flip(2 * q)];
        nexts, outs := nexts + [d], outs + [Flip(2 * q)];
        i := i + 1;
      }
      r := Done;
    }

    /** Numbers all inputs and latches. */
    method Number()
      requires WellFormed(netlist) && aigM == aigI == aigL == 0
      requires lits == map[Zero := 0, One := 1] && initInputs == map[] && roles == [Constant] && latchInit == []
      modifies this`aigM, this`aigI, this`aigL, this`lits, this`latchInit, this`initInputs, this`initStateFf,
               this`roles, this`samples
      ensures Numbered(netlist, options, aigI, aigL, roles, samples, initStateFf, lits, initInputs)
      ensures Codes(netlist, latchInit) && |latchInit| == aigL && aigM == aigI + aigL
    {
      hide WellFormed, InputsNumbered, InitsPlaced, LatchRoles, HasInitState, HasFreeFf, SourcesNumbered, InitCode;
      NumberInputs();
      if options.zinit { InitsFound(netlist, initInputs, roles, aigI); }
      ghost var before := roles;
      NumberLatches();
      SamplesKept(netlist, aigI, before, roles, samples);
      if options.zinit { LatchRolesKeepInits(netlist, initInputs, before, roles, aigI); }
    }

    /** Numbers all inputs and latches and places every source. */
    method Prepare()
      requires WellFormed(netlist) && Acyclic(netlist, rank) && aigM == aigI == aigL == aigA == 0 && gates == []
      requires lits == map[Zero := 0, One := 1] && initInputs == map[] && roles == [Constant] && latchInit == []
      requires nextLoopCheck > 0
      modifies this`aigM, this`aigI, this`aigL, this`aigA, this`gates, this`lits, this`latchInit, this`initInputs,
               this`initStateFf, this`roles, this`samples, this`src
      ensures Ready() && src == lits && Codes(netlist, latchInit)
      ensures |latchInit| == aigL == UsedLatches(netlist, options)
      ensures Layout(netlist, options, aigI, aigL, gates, roles, initStateFf, samples, src)
      ensures netlist.ffs == [] ==> gates == [] && aigM == aigI + aigL
      ensures aigI + aigL <= aigM && samples + |netlist.live| == aigI
    {
      hide WellFormed, Acyclic, InitsPlaced, ResetsDone, LatchRoles, HasInitState, HasFreeFf, Layout,
           SourcesNumbered, Translated, InitCode;
      Number();
      NumberedResets(netlist, options, aigI, aigL, roles, samples, initStateFf, lits, initInputs);
      if options.zinit { ZeroResets(); }
      src := lits;
      ResetsReady(netlist, options.zinit, aigI, aigI + aigL, aigM, gates, roles, initStateFf, lits);
      LaidOut(netlist, options, aigI, aigL, aigM, gates, roles, initStateFf, samples, src);
    }

    /** The next-state literals of the flops, of a latch added only to have one, and of the first-cycle
        indicator. */
    method StateNexts() returns (r: Status, ghost ffNexts: seq<nat>)
      requires Ready() && stack == [] && latchIn == [] && src == lits
      requires Codes(netlist, latchInit) && |latchInit| == aigL == UsedLatches(netlist, options)
      requires Layout(netlist, options, aigI, aigL, gates, roles, initStateFf, samples, src)
      requires netlist.ffs == [] ==> gates == [] && aigM == aigI + aigL
      modifies this`aigM, this`aigL, this`aigA, this`gates, this`lits, this`stack, this`nextLoopCheck, this`latchIn,
               this`latchInit, this`roles
      ensures r.Done? <==> forall j :: 0 <= j < |netlist.ffs| ==> Clean(netlist, rank, netlist.ffs[j].d)
      ensures r.Stopped? ==> r.error != CombinationalLoop
      ensures r.Done? ==> Ready() && stack == [] && Extends(old(lits), lits)
      ensures r.Done? ==> Layout(netlist, options, aigI, aigL, gates, roles, initStateFf, samples, src)
      ensures r.Done? ==> NextsDone(netlist, options.zinit, lits, ffNexts, |netlist.ffs|) && |ffNexts| == |netlist.ffs|
      ensures r.Done? ==> latchIn == ffNexts + MiddleNexts(netlist, options)
      ensures r.Done? ==> |latchIn| + 2 * |netlist.live| + |netlist.fair| == aigL
      ensures r.Done? ==> Codes(netlist, latchInit) && |latchInit| == aigL
      ensures r.Done? ==>
                var used := UsedLatches(netlist, options); aigL == if options.lmode && used == 0 then 1 else used
      ensures r.Done? ==> aigL > UsedLatches(netlist, options) ==> HasRole(roles, aigI + 1, Unused)
    {
      hide Translated, IsSource, WellFormed, Acyclic, Clean, Layout, NextsDone, InitCode, HasInitState, HasFreeFf;
      ffNexts := [];
      ghost var gates0 := gates;
      r := NextStates();
      if r.Stopped? { return; }
      ffNexts := latchIn;
      LayoutKept(netlist, options, aigI, aigL, gates0, gates, roles, initStateFf, samples, src);
      if options.lmode && aigL == 0 {
        LatchPadded(netlist, options, aigI, roles, initStateFf, samples, src);
        assert |roles| == aigI + 1 by {
          LayoutRoles(netlist, options, aigI, aigL, gates, roles, initStateFf, samples, src);
        }
        aigM, aigL := aigM + 1, aigL + 1;
        latchInit := latchInit + [0];
        latchIn := latchIn + [0];
        roles := roles + [Unused];
      }
      if NeedsStart(netlist, options) {
        latchIn := latchIn + [1];
      }
    }

    /** Outputs, bads and constraints. */
    method Properties() returns (r: Status, ghost outs: seq<nat>, ghost bads: seq<nat>, ghost holds: seq<nat>)
      requires Ready() && stack == [] && aigOutputs == [] && aigO == aigB == aigC == 0
      modifies this`aigM, this`aigA, this`gates, this`lits, this`stack, this`nextLoopCheck, this`aigOutputs,
               this`aigO, this`aigB, this`aigC
      ensures r.Done? <==> (forall i :: 0 <= i < |netlist.outputs| ==> Clean(netlist, rank, netlist.outputs[i]))
                           && CleanChecks(netlist, rank, netlist.asserts) && CleanChecks(netlist, rank, netlist.assumes)
      ensures r.Stopped? ==> r.error != CombinationalLoop
      ensures r.Done? ==> Ready() && stack == [] && Extends(old(lits), lits) && old(gates) <= gates
      ensures r.Done? ==> aigOutputs == outs + bads + holds && aigO == |outs| && aigB == |bads| && aigC == |holds|
      ensures r.Done? ==> PropertiesDone(netlist, options, aigI + aigL, lits, gates, outs, bads, holds)
    {
      hide Translated, IsSource, WellFormed, Acyclic, Clean, CleanChecks, OutputsDone, FailsDone, HoldsDone, Extends;
      bads, holds := [], [];
      ghost var lits0, gates0 := lits, gates;
      r, outs := Outputs();
      if r.Stopped? { return; }
      ghost var lits1, gates1 := lits, gates;
      r, bads := Asserts();
      if r.Stopped? { return; }
      OutputsKept(netlist.outputs, lits1, lits, outs, |netlist.outputs|);
      ExtendsFurther(lits0, lits1, lits);
      ghost var lits2, gates2 := lits, gates;
      r, holds := Assumes();
      if r.Stopped? { return; }
      OutputsKept(netlist.outputs, lits2, lits, outs, |netlist.outputs|);
      FailsKept(netlist.asserts, aigI + aigL, lits2, lits, gates2, gates, bads, |netlist.asserts|);
      ExtendsFurther(lits0, lits2, lits);
    }

    /** The circuits that replace live and fair cells. */
    method Monitors()
      returns (r: Status, ghost liveNexts: seq<nat>, ghost fairNexts: seq<nat>,
               ghost justice: seq<nat>, ghost fairness: seq<nat>)
      requires Ready() && stack == [] && aigJ == aigF == 0
      requires |netlist.live| <= aigI <= aigM && aigI + UsedLatches(netlist, options) <= aigM
      modifies this`aigM, this`aigA, this`gates, this`lits, this`stack, this`nextLoopCheck, this`aigOutputs,
               this`aigJ, this`aigF, this`latchIn
      ensures r.Done? <==> CleanChecks(netlist, rank, netlist.live) && CleanChecks(netlist, rank, netlist.fair)
      ensures r.Stopped? ==> r.error != CombinationalLoop
      ensures r.Done? ==> Ready() && stack == [] && Extends(old(lits), lits) && old(gates) <= gates
      ensures r.Done? ==> aigOutputs == old(aigOutputs) + justice + fairness && aigJ == |justice| && aigF == |fairness|
      ensures r.Done? ==> latchIn == old(latchIn) + liveNexts + fairNexts
      ensures r.Done? ==> |liveNexts| == 2 * |netlist.live| && |fairNexts| == |netlist.fair|
      ensures r.Done? ==> |justice| == |netlist.live| && |fairness| == |netlist.fair|
      ensures r.Done? ==>
                LivesDone(netlist.live, aigI + aigL, lits, gates, aigI - |netlist.live|,
                          aigI + LiveLatch(netlist, options, 0), liveNexts, justice, |netlist.live|)
      ensures r.Done? ==>
                FairsDone(netlist.fair, aigI + aigL, lits, gates, aigI + FairLatch(netlist, options, 0),
                          fairNexts, fairness, |netlist.fair|)
    {
      hide Translated, IsSource, WellFormed, Acyclic, Clean, CleanChecks, LivesDone, FairsDone, Extends, NeedsStart;
      fairNexts, fairness := [], [];
      ghost var lits0 := lits;
      r, liveNexts, justice := LiveMonitors(aigI - |netlist.live|, aigI + LiveLatch(netlist, options, 0));
      if r.Stopped? { return; }
      ghost var lits1, gates1 := lits, gates;
      r, fairNexts, fairness := FairMonitors(aigI + FairLatch(netlist, options, 0));
      if r.Stopped? { return; }
      LivesKept(netlist.live, aigI + aigL, lits1, lits, gates1, gates, aigI - |netlist.live|,
                aigI + LiveLatch(netlist, options, 0), liveNexts, justice, |netlist.live|);
      ExtendsFurther(lits0, lits1, lits);
    }

    /** Translates everything that can be observed. */
    method Observables() returns (r: Status, ghost liveNexts: seq<nat>, ghost fairNexts: seq<nat>, ghost seen: Seen)
      requires Ready() && stack == [] && aigOutputs == [] && aigO == aigB == aigC == aigJ == aigF == 0
      requires |netlist.live| <= aigI && UsedLatches(netlist, options) <= aigL
      modifies this`aigM, this`aigA, this`gates, this`lits, this`stack, this`nextLoopCheck, this`latchIn,
               this`aigOutputs, this`aigO, this`aigB, this`aigC, this`aigJ, this`aigF
      ensures r.Done? <==> CleanOutputs(netlist, rank)
      ensures r.Stopped? ==> r.error != CombinationalLoop
      ensures r.Done? ==> Ready() && Extends(old(lits), lits) && old(gates) <= gates && Lists(seen)
      ensures r.Done? ==> |liveNexts| == 2 * |netlist.live| && |fairNexts| == |netlist.fair|
      ensures r.Done? ==> latchIn == old(latchIn) + liveNexts + fairNexts
      ensures r.Done? ==> PropertiesDone(netlist, options, aigI + aigL, lits, gates, seen.outputs, seen.bads,
          seen.holds)
      ensures r.Done? ==> |seen.justice| == |netlist.live| && |seen.fairness| == |netlist.fair|
      ensures r.Done? ==>
                LivesDone(netlist.live, aigI + aigL, lits, gates, aigI - |netlist.live|,
                          aigI + LiveLatch(netlist, options, 0), liveNexts, seen.justice, |netlist.live|)
      ensures r.Done? ==>
                FairsDone(netlist.fair, aigI + aigL, lits, gates, aigI + FairLatch(netlist, options, 0),
                          fairNexts, seen.fairness, |netlist.fair|)
    {
      hide Translated, IsSource, WellFormed, Acyclic, Clean, CleanChecks, LivesDone, FairsDone, Extends, Ready,
           PropertiesDone, UsedLatches, LiveLatch, FairLatch;
      liveNexts, fairNexts, seen := [], [], Seen([], [], [], [], []);
      ghost var lits1 := lits;
      ghost var outs, bads, holds;
      r, outs, bads, holds := Properties();
      if r.Stopped? { return; }
      VariableCount();
      ghost var lits2, gates2 := lits, gates;
      ghost var justice, fairness;
      r, liveNexts, fairNexts, justice, fairness := Monitors();
      if r.Stopped? { return; }
      seen := Seen(outs, bads, holds, justice, fairness);
      PropertiesKept(netlist, options, aigI + aigL, lits2, lits, gates2, gates, outs, bads, holds);
      ExtendsFurther(lits1, lits2, lits);
    }

    /** Translates everything that the file lists, next states first. */
    method Translate()
      returns (r: Status, ghost ffNexts: seq<nat>, ghost liveNexts: seq<nat>, ghost fairNexts: seq<nat>,
               ghost seen: Seen)
      requires Ready() && stack == [] && latchIn == [] && src == lits && aigOutputs == []
      requires aigO == aigB == aigC == aigJ == aigF == 0
      requires Codes(netlist, latchInit) && |latchInit| == aigL == UsedLatches(netlist, options)
      requires Layout(netlist, options, aigI, aigL, gates, roles, initStateFf, samples, src)
      requires netlist.ffs == [] ==> gates == [] && aigM == aigI + aigL
      requires samples + |netlist.live| == aigI
      modifies this`aigM, this`aigL, this`aigA, this`gates, this`lits, this`stack, this`nextLoopCheck, this`latchIn,
               this`latchInit, this`roles, this`aigOutputs, this`aigO, this`aigB, this`aigC, this`aigJ, this`aigF
      ensures r.Done? <==> AllClean(netlist, rank)
      ensures r.Stopped? ==> r.error != CombinationalLoop
      ensures r.Done? ==> Ready() && Lists(seen)
      ensures r.Done? ==> Layout(netlist, options, aigI, aigL, gates, roles, initStateFf, samples, src)
      ensures r.Done? ==> NextsDone(netlist, options.zinit, lits, ffNexts, |netlist.ffs|) && |ffNexts| == |netlist.ffs|
      ensures r.Done? ==> |liveNexts| == 2 * |netlist.live| && |fairNexts| == |netlist.fair|
      ensures r.Done? ==> latchIn == ffNexts + MiddleNexts(netlist, options) + liveNexts + fairNexts
      ensures r.Done? ==> Codes(netlist, latchInit) && |latchInit| == aigL == |latchIn|
      ensures r.Done? ==> aigL > UsedLatches(netlist, options) ==> HasRole(roles, aigI + 1, Unused)
      ensures r.Done? ==> PropertiesDone(netlist, options, aigI + aigL, lits, gates, seen.outputs, seen.bads,
          seen.holds)
      ensures r.Done? ==> |seen.justice| == |netlist.live| && |seen.fairness| == |netlist.fair|
      ensures r.Done? ==>
                LivesDone(netlist.live, aigI + aigL, lits, gates, samples, aigI + LiveLatch(netlist, options, 0),
                          liveNexts, seen.justice, |netlist.live|)
      ensures r.Done? ==>
                FairsDone(netlist.fair, aigI + aigL, lits, gates, aigI + FairLatch(netlist, options, 0),
                          fairNexts, seen.fairness, |netlist.fair|)
    {
      hide Translated, IsSource, WellFormed, Acyclic, Clean, CleanOutputs, LivesDone, FairsDone, Extends, NextsDone,
           Lists, PropertiesDone, Layout, Codes, Ready, MiddleNexts, UsedLatches, LiveLatch, FairLatch, HasRole;
      liveNexts, fairNexts, seen := [], [], Seen([], [], [], [], []);
      r, ffNexts := StateNexts();
      if r.Stopped? { return; }
      ghost var lits1, gates1 := lits, gates;
      r, liveNexts, fairNexts, seen := Observables();
      if r.Stopped? { return; }
      NextsKept(netlist, options.zinit, lits1, lits, ffNexts, |netlist.ffs|);
      LayoutKept(netlist, options, aigI, aigL, gates1, gates, roles, initStateFf, samples, src);
    }

    /** The variable count in the header is right. */
    lemma VariableCount()
      requires Ready()
      ensures aigM == aigI + aigL + |gates|
    {
      hide Topological, Justified, WellFormed, Acyclic, IsSource, HasInitState;
    }

    /** The literals written, section by section. */
    ghost predicate Lists(seen: Seen)
      reads this
    {
      && aigOutputs == seen.outputs + seen.bads + seen.holds + seen.justice + seen.fairness
      && aigO == |seen.outputs| && aigB == |seen.bads| && aigC == |seen.holds|
      && aigJ == |seen.justice| && aigF == |seen.fairness|
    }

    /** The graph as it is written to the file. */
    method Written(ghost seen: Seen) returns (g: Aig)
      requires |latchIn| == |latchInit| && Lists(seen)
      ensures g == Aig(aigI, Latches(options.zinit, latchIn, latchInit), gates, seen.outputs, seen.bads, seen.holds,
                       seen.justice, seen.fairness)
    {
      var obc := aigO + aigB + aigC;
      g := Aig(aigI, Latches(options.zinit, latchIn, latchInit), gates, aigOutputs[..aigO],
          aigOutputs[aigO..aigO + aigB],
               aigOutputs[aigO + aigB..obc], aigOutputs[obc..obc + aigJ], aigOutputs[obc + aigJ..]);
    }
  }

  datatype Result = Ok(aig: Aig) | Error(error: Error)

  lemma GraphAssembled(n: Netlist, o: Options, g: Aig, p: Plan, latchInit: seq<nat>, ffNexts: seq<nat>,
                       liveNexts: seq<nat>, fairNexts: seq<nat>)
    requires Codes(n, latchInit) && NextsDone(n, o.zinit, p.lits, ffNexts, |n.ffs|) && |ffNexts| == |n.ffs|
    requires |liveNexts| == 2 * |n.live| && |fairNexts| == |n.fair|
    requires |latchInit| == |ffNexts + MiddleNexts(n, o) + liveNexts + fairNexts|
    requires g.latches == Latches(o.zinit, ffNexts + MiddleNexts(n, o) + liveNexts + fairNexts, latchInit)
    requires |g.justice| == |n.live| && |g.fairness| == |n.fair|
    requires LivesDone(n.live, Base(g), p.lits, g.gates, p.samples, g.inputs + LiveLatch(n, o, 0), liveNexts,
        g.justice, |n.live|)
    requires FairsDone(n.fair, Base(g), p.lits, g.gates, g.inputs + FairLatch(n, o, 0), fairNexts, g.fairness, |n.fair|)
    requires Layout(n, o, g.inputs, |g.latches|, g.gates, p.roles, p.start, p.samples, p.src)
    requires Translated(n, p.src, p.start, Base(g), Base(g) + |g.gates|, p.lits, g.gates)
    requires PropertiesDone(n, o, Base(g), p.lits, g.gates, g.outputs, g.bads, g.constraints)
    requires |g.latches| > UsedLatches(n, o) ==> HasRole(p.roles, g.inputs + 1, Unused)
    ensures Compiled(n, o, g, p)
  {
    hide LivesDone, FairsDone, Justified, Topological, FailLit, InputsPlaced, SamplesPlaced, LatchRoles, StartPlaced,
         SourcesOnly, FfsPlaced, LatchesCompiled, NextsDone, Codes, Latches, NeedsStart, LitsBelow;
    LatchesAssembled(n, o, g, p, latchInit, ffNexts, liveNexts, fairNexts);
  }

  /** Compiles a netlist without combinational loops. Succeeds exactly when no cone that has to be
      translated holds an undefined constant or an undriven wire. */
  method WriteAiger(n: Netlist, o: Options, ghost rank: Bit -> nat) returns (r: Result, ghost p: Plan)
    requires WellFormed(n) && Acyclic(n, rank)
    ensures r.Ok? <==> AllClean(n, rank)
    ensures r.Error? ==> r.error != CombinationalLoop
    ensures r.Ok? ==> Compiled(n, o, r.aig, p)
  {
    hide Translated, IsSource, WellFormed, Acyclic, AllClean, LivesDone, FairsDone, NextsDone, PropertiesDone, Layout,
         Compiled, Codes, MiddleNexts, Latches, UsedLatches, LiveLatch, FairLatch, HasRole, NeedsStart;
    p := Plan(map[], 0, map[], [], 0);
    var w := new AigerWriter(n, o, rank);
    w.Prepare();
    var s;
    ghost var ffNexts, liveNexts, fairNexts, seen;
    s, ffNexts, liveNexts, fairNexts, seen := w.Translate();
    if s.Stopped? { return Error(s.error), p; }
    p := Plan(w.src, w.initStateFf, w.lits, w.roles, w.samples);
    var g := w.Written(seen);
    w.VariableCount();
    GraphAssembled(n, o, g, p, w.latchInit, ffNexts, liveNexts, fairNexts);
    r := Ok(g);
  }
}
