/**
  The mux-tree optimiser: a depth-first walk from every root mux that counts known selects in
  place, marks the ports that can be active and rewrites known data bits; then removal of the
  ports that were never marked.
 */
module OptMuxtree {
  import opened MuxNetlist
  import opened MuxKnowledge
  import opened MuxPruning
  import opened MuxWalk
  import opened MuxReaders
  import opened MuxChains
  import opened MuxRounds

  class OptMuxtreeWorker {
    const n: Netlist            // the module as found
    const order: Order          // how pools are iterated
    const roots: set<nat>
    var rootEnable: set<nat>    // roots whose evaluation enables ports
    var rootRerun: set<nat>
    var enabled: set<(nat, nat)>
    var cells: seq<Cell>        // the module's cells, rewritten in place
    var knowledge: Knowledge
    var globAbort: nat

    ghost predicate Valid()
      reads this
    {
      && WellFormed(n) && IsOrder(order)
      && roots == Roots(n) && PureRoots(n) <= rootEnable <= roots && rootRerun <= rootEnable
      && SameShape(n, cells)
      && Sized(n, knowledge) && knowledge.visited <= UpTo(|n.cells|)
      && OnlyChoices(n, enabled)
      && (Replaceable(n) ==> ObservedBitsKept(n, cells))
    }

    /** How evaluation changes the flags: enabling only grows, and every mux newly promoted to
        a root that enables ports is queued. */
    twostate predicate Grown()
      reads this
    {
      && old(enabled) <= enabled
      && old(rootEnable) <= rootEnable
      && rootRerun == old(rootRerun) + (rootEnable - old(rootEnable))
      && globAbort <= old(globAbort)
      && KeepsConstants(old(cells), cells)
    }

    /** What the walk has changed so far. */
    ghost function Progress(): Work
      reads this
    {
      Work(rootEnable, rootRerun, enabled, cells, globAbort)
    }

    constructor (n: Netlist, order: Order)
      requires WellFormed(n) && IsOrder(order)
      ensures this.n == n && this.order == order && Valid() && Progress() == Initial(n)
      ensures rootEnable == PureRoots(n) && rootRerun == {} && enabled == {} && cells == n.cells
      ensures globAbort == LIMIT
    {
      this.n, this.order := n, order;
      this.roots := Roots(n);
      this.rootEnable := PureRoots(n);
      this.rootRerun := {};
      this.enabled := {};
      this.cells := n.cells;
      this.knowledge := Knowledge(seq(|n.drv|, i => 0), seq(|n.drv|, i => 0), {});
      this.globAbort := LIMIT;
      assert forall c :: 0 <= c < |n.cells| ==> CellOk(n, n.cells[c]);
    }

    /** Evaluate the muxes behind port p of mux c, which is taken to be the active one. */
    method EvalMuxPort(c: nat, p: nat, doReplaceKnown: bool, doEnablePorts: bool, abortCount: nat)
      requires Valid()
      requires c < |n.cells| && n.cells[c].Mux? && p <= |n.cells[c].s| && CanBeChosen(n, c, p)
      requires doReplaceKnown && Replaceable(n) ==> Fits(n, c, knowledge)
      modifies this
      ensures Valid() && Grown()
      ensures globAbort > 0 ==> knowledge == old(knowledge)
      ensures doEnablePorts && globAbort > 0 ==> CoversIfActive(n, c, p, old(knowledge), enabled, rootEnable)
      ensures Progress() == WalkPort(n, order, old(Progress()), old(knowledge), c, p,
                                     Mode(doReplaceKnown, doEnablePorts, abortCount))
      decreases UpTo(|n.cells|) - knowledge.visited, 0
    {
      hide OnlyChoices, CanBeChosen, SameShape, Fits, CoversAll, CoversIfActive, Replaceable, KeepsConstants;
      hide Later, IsOrder, ObservedBitsKept;
      NothingChanged(cells);
      if globAbort == 0 { return; }
      ghost var k := knowledge;
      if doEnablePorts {
        OneMoreChoice(n, enabled, c, p);
        enabled := enabled + {(c, p)};
      }
      EnterPort(c, p);
      var parents := InputMuxes(n, c, p) - knowledge.visited;
      knowledge := knowledge.(visited := knowledge.visited + parents);
      ghost var k' := knowledge;
      assert k.visited + parents == k.visited + InputMuxes(n, c, p);
      ExtendedIs(n, c, p, k, k');
      EvalParents(c, p, parents, doReplaceKnown, doEnablePorts, abortCount, k);
      if globAbort == 0 { return; }
      if doEnablePorts {
        PortCovered(n, c, p, k, k', enabled, rootEnable);
      }
      knowledge := knowledge.(visited := knowledge.visited - parents);
      assert knowledge.visited == k.visited;
      LeavePort(c, p, k);
    }

    /** The loop over the muxes that feed the port under examination. */
    method EvalParents(c: nat, p: nat, parents: set<nat>, doReplaceKnown: bool, doEnablePorts: bool, abortCount: nat,
                       ghost k: Knowledge)
      requires Valid()
      requires c < |n.cells| && n.cells[c].Mux? && p <= |n.cells[c].s|
      requires ExtendsBy(n, c, p, k, knowledge)
      requires doReplaceKnown && Replaceable(n) ==> Fits(n, c, k)
      requires parents == InputMuxes(n, c, p) - k.visited && knowledge.visited == k.visited + parents
      modifies this
      ensures Valid() && Grown()
      ensures globAbort > 0 ==> knowledge == old(knowledge)
      ensures doEnablePorts && globAbort > 0 ==>
                CoversAll(n, parents - rootEnable, old(knowledge), enabled, rootEnable)
      ensures forall e :: e in parents ==> IsMux(n, e)
      ensures Progress() == WalkParents(n, order, old(Progress()), old(knowledge), parents,
                                        Mode(doReplaceKnown, doEnablePorts, abortCount))
      decreases UpTo(|n.cells|) - k.visited, 0, 0
    {
      hide KeepsConstants, OnlyChoices, SameShape, Fits, CoversAll, Replaceable, ObservedBitsKept, ExtendsBy;
      NothingChanged(cells);
      ghost var k' := knowledge;
      ghost var mode := Mode(doReplaceKnown, doEnablePorts, abortCount);
      ParentsAreMuxes(n, c, p);
      ghost var walk := WalkParents(n, order, Progress(), k', parents, mode);
      var todo := parents;
      ghost var done: set<nat> := {};
      CoversNothing(n, k', enabled, rootEnable);
      assert done - rootEnable == {};
      while todo != {}
        invariant Valid() && Grown() && knowledge == k'
        invariant todo !! done && todo + done == parents
        invariant WalkParents(n, order, Progress(), k', todo, mode) == walk
        invariant doEnablePorts ==> CoversAll(n, done - rootEnable, k', enabled, rootEnable)
        decreases todo
      {
        ghost var enabled0, roots0, cells0 := enabled, rootEnable, cells;
        var m := order(globAbort, todo);
        todo := todo - {m};
        EvalParent(c, p, m, doReplaceKnown, doEnablePorts, abortCount, k);
        ConstantsStillKept(old(cells), cells0, cells);
        if globAbort == 0 { return; }
        if doEnablePorts {
          CoverOneMore(n, done, m, k', enabled0, roots0, enabled, rootEnable);
        }
        done := done + {m};
      }
      assert done == parents;
    }

    /** One mux feeding the port: a root is cut off at depth 0 and queued to be run on its own. */
    method EvalParent(c: nat, p: nat, m: nat, doReplaceKnown: bool, doEnablePorts: bool, abortCount: nat,
                      ghost k: Knowledge)
      requires Valid()
      requires c < |n.cells| && n.cells[c].Mux? && p <= |n.cells[c].s|
      requires m in InputMuxes(n, c, p) && m !in k.visited && m in knowledge.visited
      requires ExtendsBy(n, c, p, k, knowledge) && k.visited <= knowledge.visited
      requires doReplaceKnown && Replaceable(n) ==> Fits(n, c, k)
      modifies this
      ensures Valid() && Grown()
      ensures globAbort > 0 ==> knowledge == old(knowledge)
      ensures doEnablePorts && globAbort > 0 ==>
                m in rootEnable || CoversAll(n, {m}, old(knowledge), enabled, rootEnable)
      ensures IsMux(n, m)
      ensures Progress() == WalkParent(n, order, old(Progress()), old(knowledge), m,
                                       Mode(doReplaceKnown, doEnablePorts, abortCount))
      decreases UpTo(|n.cells|) - k.visited, 0, 0, 0
    {
      hide KeepsConstants, OnlyChoices, SameShape, Fits, CoversAll, ObservedBitsKept, WalkMux, Later, IsOrder;
      NothingChanged(cells);
      InputsAreMuxes(n, m, c, p);
      if m in rootEnable {
      } else if m in roots {
        if abortCount == 0 {
          rootRerun := rootRerun + {m};
          rootEnable := rootEnable + {m};
        } else {
          EvalMux(m, false, doEnablePorts, abortCount - 1);
        }
      } else {
        if doReplaceKnown && Replaceable(n) {
          FitsInput(n, c, p, m, k, knowledge);
        }
        EvalMux(m, doReplaceKnown, doEnablePorts, abortCount);
      }
    }

    /** Evaluate one mux with the current knowledge; with replacement on, no data bit of it is left that is
        one of its own selects. */
    method EvalMux(c: nat, doReplaceKnown: bool, doEnablePorts: bool, abortCount: nat)
      requires Valid() && c < |n.cells| && n.cells[c].Mux?
      requires doReplaceKnown && Replaceable(n) ==> Fits(n, c, knowledge)
      modifies this
      ensures Valid() && Grown()
      ensures globAbort > 0 ==> knowledge == old(knowledge)
      ensures doEnablePorts && globAbort > 0 ==> CoversAll(n, {c}, old(knowledge), enabled, rootEnable)
      ensures doReplaceKnown && old(globAbort) > 0 ==> NoOwnSelects(n, cells, c)
      ensures Progress() == WalkMux(n, order, old(Progress()), old(knowledge), c,
                                     Mode(doReplaceKnown, doEnablePorts, abortCount))
      decreases UpTo(|n.cells|) - knowledge.visited, 3
    {
      hide OnlyChoices, SameShape, Fits, CoversAll, Replaceable, ObservedBitsKept, KeepsConstants, ReplacedTo;
      hide NoOwnSelects, WellFormed;
      NothingChanged(cells);
      if globAbort == 0 { return; }
      globAbort := globAbort - 1;
      if doReplaceKnown {
        var last := |n.cells[c].s|;
        ReplaceKnown(c, last, last + 1);
        ghost var cells0 := cells;
        ReplaceKnown(c, 0, last);
        ConstantsStillKept(old(cells), cells0, cells);
        AllReplaced(n, c, knowledge, old(cells), cells0, cells);
        BothReplaced(n, c, knowledge, old(cells), cells0, cells);
      }
      ghost var cells1 := cells;
      EvalPorts(c, doReplaceKnown, doEnablePorts, abortCount);
      ConstantsStillKept(old(cells), cells1, cells);
      if doReplaceKnown { StillNoOwnSelects(n, cells1, cells, c); }
    }

    /** Evaluate the ports of a mux that can be active as far as is known. */
    method EvalPorts(c: nat, doReplaceKnown: bool, doEnablePorts: bool, abortCount: nat)
      requires Valid() && c < |n.cells| && n.cells[c].Mux?
      requires doReplaceKnown && Replaceable(n) ==> Fits(n, c, knowledge)
      modifies this
      ensures Valid() && Grown()
      ensures globAbort > 0 ==> knowledge == old(knowledge)
      ensures doEnablePorts && globAbort > 0 ==> CoversAll(n, {c}, old(knowledge), enabled, rootEnable)
      ensures Progress() == WalkPorts(n, order, old(Progress()), old(knowledge), c,
                                     Mode(doReplaceKnown, doEnablePorts, abortCount))
      decreases UpTo(|n.cells|) - knowledge.visited, 2
    {
      hide OnlyChoices, SameShape, Fits, CoversAll, CoversIfActive, Replaceable, ObservedBitsKept, KeepsConstants;
      NothingChanged(cells);
      var last := |n.cells[c].s|;
      ghost var k := knowledge;
      hide WalkPort, WalkPortsFrom, Later;

      // a constant activated port is simply used
      for p := 0 to last
        invariant Valid() && Grown() && knowledge == k && Progress() == old(Progress())
        invariant forall q :: 0 <= q < p ==> !Forced(n, c, q)
      {
        if Ctrl(n, c, p) == Const(true) {
          assert Forced(n, c, p) && FirstForced(n, c, 0) == p;
          EvalMuxPort(c, p, doReplaceKnown, doEnablePorts, abortCount);
          if doEnablePorts && globAbort > 0 { OnlyActivePort(n, c, p, k, enabled, rootEnable); }
          return;
        }
      }

      assert forall q :: 0 <= q < last ==> !Forced(n, c, q);
      // a port whose select is known to be active is the only one that can be
      for p := 0 to last
        invariant Valid() && Grown() && knowledge == k && Progress() == old(Progress())
        invariant forall q :: 0 <= q < p ==> !KnownActive(n, c, k, q)
      {
        var ctrl := CtrlSig(n, c, p);
        if ctrl >= 0 && knowledge.active[ctrl] > 0 {
          assert KnownActive(n, c, k, p) && FirstKnown(n, c, k, 0) == p;
          EvalMuxPort(c, p, doReplaceKnown, doEnablePorts, abortCount);
          if doEnablePorts && globAbort > 0 { OnlyActivePort(n, c, p, k, enabled, rootEnable); }
          return;
        }
      }

      assert FirstForced(n, c, 0) == last && FirstKnown(n, c, k, 0) == last;
      EvalOtherPorts(c, doReplaceKnown, doEnablePorts, abortCount);
    }

    /** Evaluate every port that could be activated. */
    method EvalOtherPorts(c: nat, doReplaceKnown: bool, doEnablePorts: bool, abortCount: nat)
      requires Valid() && c < |n.cells| && n.cells[c].Mux?
      requires forall q :: 0 <= q < |n.cells[c].s| ==> !Forced(n, c, q)
      requires doReplaceKnown && Replaceable(n) ==> Fits(n, c, knowledge)
      modifies this
      ensures Valid() && Grown()
      ensures globAbort > 0 ==> knowledge == old(knowledge)
      ensures doEnablePorts && globAbort > 0 ==> CoversAll(n, {c}, old(knowledge), enabled, rootEnable)
      ensures Progress() == WalkPortsFrom(n, order, old(Progress()), old(knowledge), c, 0,
                                          Mode(doReplaceKnown, doEnablePorts, abortCount))
      decreases UpTo(|n.cells|) - knowledge.visited, 1
    {
      hide OnlyChoices, SameShape, Fits, CoversAll, CoversIfActive, Replaceable, ObservedBitsKept, KeepsConstants;
      hide WalkPort, Later;
      NothingChanged(cells);
      var last := |n.cells[c].s|;
      ghost var k := knowledge;
      ghost var mode := Mode(doReplaceKnown, doEnablePorts, abortCount);
      ghost var walk := WalkPortsFrom(n, order, Progress(), k, c, 0, mode);
      for p := 0 to last + 1
        invariant Valid() && Grown() && knowledge == k
        invariant WalkPortsFrom(n, order, Progress(), k, c, p, mode) == walk
        invariant doEnablePorts ==> forall q :: 0 <= q < p ==> CoversIfActive(n, c, q, k, enabled, rootEnable)
      {
        var ctrl := CtrlSig(n, c, p);
        if p < last && (Ctrl(n, c, p) == Const(false) || (ctrl >= 0 && knowledge.inactive[ctrl] > 0)) {
          NeverActivePort(n, c, p, k, enabled, rootEnable);
        } else {
          ghost var enabled0, roots0, cells0 := enabled, rootEnable, cells;
          EvalMuxPort(c, p, doReplaceKnown, doEnablePorts, abortCount);
          ConstantsStillKept(old(cells), cells0, cells);
          if globAbort == 0 { return; }
          if doEnablePorts {
            forall q | 0 <= q < p ensures CoversIfActive(n, c, q, k, enabled, rootEnable) {
              StillCoversIfActive(n, c, q, k, enabled0, roots0, enabled, rootEnable);
            }
          }
        }
      }
      if doEnablePorts { SomePortIsActive(n, c, k, enabled, rootEnable); }
    }

    /** Count the selects of all other ports as inactive and the port's own select as active. */
    method EnterPort(c: nat, p: nat)
      requires WellFormed(n) && c < |n.cells| && n.cells[c].Mux? && p <= |n.cells[c].s| && Sized(n, knowledge)
      modifies this`knowledge
      ensures ExtendsBy(n, c, p, old(knowledge), knowledge) && knowledge.visited == old(knowledge.visited)
    {
      var ks := knowledge.inactive;
      for i := 0 to |n.cells[c].s| + 1
        invariant |ks| == |n.drv|
        invariant forall b :: 0 <= b < |ks| ==> ks[b] == knowledge.inactive[b] + Count(n, c, p, i, b)
      {
        var ctrl := CtrlSig(n, c, i);
        if i != p && ctrl >= 0 {
          ks := ks[ctrl := ks[ctrl] + 1];
        }
      }
      var ctrl := CtrlSig(n, c, p);
      var active := knowledge.active;
      if ctrl >= 0 {
        active := active[ctrl := active[ctrl] + 1];
      }
      knowledge := knowledge.(inactive := ks, active := active);
    }

    /** Take all counts back. */
    method LeavePort(c: nat, p: nat, ghost k: Knowledge)
      requires WellFormed(n) && c < |n.cells| && n.cells[c].Mux? && p <= |n.cells[c].s|
      requires ExtendsBy(n, c, p, k, knowledge) && k.visited == knowledge.visited
      modifies this`knowledge
      ensures knowledge == k
    {
      hide WellFormed, CtrlSig;
      var ctrl := CtrlSig(n, c, p);
      var active := knowledge.active;
      if ctrl >= 0 {
        active := active[ctrl := active[ctrl] - 1];
      }
      var all := |n.cells[c].s| + 1;
      var ks := knowledge.inactive;
      for i := 0 to all
        invariant |ks| == |n.drv| && knowledge == old(knowledge)
        invariant forall b :: 0 <= b < |ks| ==> ks[b] == k.inactive[b] + Count(n, c, p, all, b) - Count(n, c, p, i, b)
      {
        var ctrl := CtrlSig(n, c, i);
        if i != p && ctrl >= 0 {
          CountIsMonotone(n, c, p, i + 1, all, ctrl);
          ks := ks[ctrl := ks[ctrl] - 1];
        }
      }
      assert ks == k.inactive && active == k.active;
      knowledge := Knowledge(ks, active, knowledge.visited);
    }

    /** Rewrite the known data bits of ports lo to hi - 1 of mux c. */
    method ReplaceKnown(c: nat, lo: nat, hi: nat)
      requires Valid() && c < |n.cells| && n.cells[c].Mux? && lo <= hi <= |n.cells[c].s| + 1
      requires Replaceable(n) ==> Fits(n, c, knowledge)
      modifies this`cells
      ensures Valid() && old(SameShape(n, cells))
      ensures ReplacedTo(n, c, lo, hi, 0, knowledge, old(cells), cells) && KeepsConstants(old(cells), cells)
    {
      hide Fits, ObservedBitsKept, Replaced;
      ghost var was := cells;
      for p := lo to hi
        invariant Valid() && SameShape(n, was) && ReplacedTo(n, c, lo, p, 0, knowledge, was, cells)
      {
        assert CellOk(n, n.cells[c]) && SameShapeAt(n, cells, c);
        for o := 0 to |n.cells[c].d[p]|
          invariant Valid() && SameShape(n, was) && ReplacedTo(n, c, lo, p, o, knowledge, was, cells)
        {
          assert CellOk(n, n.cells[c]) && SameShapeAt(n, cells, c);
          SetBitKeepsObserved(n, cells, c, p, o, knowledge);
          ReplacedOneMore(n, c, lo, p, o, knowledge, was, cells);
          cells := SetBit(cells, c, p, o, Replaced(n, c, p, knowledge, cells[c].d[p][o]));
        }
        assert SameShapeAt(n, was, c);
      }
      ReplacedKeepsConstants(n, c, lo, hi, knowledge, was, cells);
    }

    /** Evaluate a root mux with no knowledge. The roots in `done` have been evaluated before. */
    method EvalRootMux(r: nat, ghost done: set<nat>)
      requires Valid() && r in roots && globAbort > 0 && RootsCovered(n, done, enabled, rootEnable)
      modifies this
      ensures Valid() && Grown() && IsMux(n, r) && NoOwnSelects(n, cells, r)
      ensures Progress() == WalkMux(n, order, old(Progress()), Nothing(n, r), r, Mode(true, r in old(rootEnable), 3))
      ensures globAbort > 0 && r in old(rootEnable) ==> RootsCovered(n, done + {r}, enabled, rootEnable)
      ensures globAbort > 0 ==> RootsCovered(n, done, enabled, rootEnable)
    {
      hide SameShape, OnlyChoices, KeepsConstants, NoOwnSelects;
      RootsAreMuxes(n, r);
      var zeros: seq<nat> := seq(|n.drv|, i => 0);
      knowledge := Knowledge(zeros, zeros, {r});
      ghost var k, enabled0, roots0 := knowledge, enabled, rootEnable;
      EvalMux(r, true, r in rootEnable, 3);
      if globAbort > 0 {
        StillCovered(n, done, enabled0, roots0, enabled, rootEnable);
        if r in roots0 {
          forall v | Admissible(n, v) ensures Covers(n, v, {r}, {r}, enabled, rootEnable) {
            assert Consistent(n, k, v);
          }
        }
      }
    }

    /** The roots before number k have no data bit that is one of their own selects. */
    ghost predicate OwnSelectsGone(k: nat)
      reads this
      requires WellFormed(n) && SameShape(n, cells)
    {
      forall q :: q in roots && q < k ==> IsMux(n, q) && NoOwnSelects(n, cells, q)
    }

    twostate lemma StillGone(k: nat)
      requires WellFormed(n) && old(SameShape(n, cells)) && SameShape(n, cells)
      requires old(OwnSelectsGone(k)) && KeepsConstants(old(cells), cells)
      ensures OwnSelectsGone(k)
    {
      hide SameShape, NoOwnSelects, KeepsConstants, WellFormed;
      forall q | q in roots && q < k ensures NoOwnSelects(n, cells, q) {
        StillNoOwnSelects(n, old(cells), cells, q);
      }
    }

    /** Evaluate every root, then again those found to be reached from outside their tree. */
    method EvalRoots()
      requires Valid() && rootRerun == {} && globAbort > 0
      modifies this
      ensures Valid()
      ensures globAbort > 0 ==> RootsCovered(n, rootEnable, enabled, rootEnable) && OwnSelectsGone(|n.cells|)
      ensures Progress() == WalkRoots(n, order, old(Progress()), 0)
    {
      hide SameShape, OnlyChoices, KeepsConstants, NoOwnSelects, RootsCovered, ObservedBitsKept, Replaceable;
      hide WalkMux, WalkRoots, WalkRerun, Later, Roots;
      ghost var done: set<nat> := {};
      assert RootsCovered(n, done, enabled, rootEnable) by { NoRoots(n, enabled, rootEnable); }
      ghost var walk := WalkRoots(n, order, Progress(), 0);
      for r := 0 to |n.cells|
        invariant Valid() && globAbort > 0 && RootsCovered(n, done, enabled, rootEnable)
        invariant forall q :: q in rootEnable && q < r && q !in rootRerun ==> q in done
        invariant OwnSelectsGone(r) && WalkRoots(n, order, Progress(), r) == walk
      {
        if r in roots {
          ghost var before := Progress();
          rootRerun := rootRerun - {r};
          ghost var pure := r in rootEnable;
          label before:
          EvalRootMux(r, done);
          RootsStep(n, order, before, r, Progress());
          StillGone@before(r);
          if globAbort == 0 { return; }
          if pure { done := done + {r}; }
        } else {
          NoRootHere(n, order, Progress(), r);
        }
      }
      ghost var reached := Progress();
      RerunRoots(done);
      assert walk == WalkRoots(n, order, reached, |n.cells|);
      RootsEnd(n, order, reached);
    }

    method RerunRoots(ghost done0: set<nat>)
      requires Valid() && globAbort > 0 && RootsCovered(n, done0, enabled, rootEnable) && OwnSelectsGone(|n.cells|)
      requires forall q :: q in rootEnable && q < |n.cells| && q !in rootRerun ==> q in done0
      modifies this
      ensures Valid()
      ensures globAbort > 0 ==> RootsCovered(n, rootEnable, enabled, rootEnable) && OwnSelectsGone(|n.cells|)
      ensures Progress() == WalkRerun(n, order, old(Progress()))
    {
      hide SameShape, OnlyChoices, KeepsConstants, NoOwnSelects, RootsCovered, ObservedBitsKept, Replaceable;
      hide WalkMux, WalkRerun, Later, Roots;
      ghost var done := done0;
      RootsInRange(n);
      while rootRerun != {}
        invariant Valid() && globAbort > 0 && RootsCovered(n, done, enabled, rootEnable)
        invariant forall q :: q in rootEnable && q !in rootRerun ==> q in done
        invariant OwnSelectsGone(|n.cells|)
        invariant WalkRerun(n, order, Progress()) == WalkRerun(n, order, old(Progress()))
        decreases roots - rootEnable, rootRerun
      {
        var r := order(globAbort, rootRerun);
        ghost var before := Progress();
        rootRerun := rootRerun - {r};
        label before:
        EvalRootMux(r, done);
        RerunStep(n, order, before, r, Progress());
        StillGone@before(|n.cells|);
        if globAbort == 0 { return; }
        done := done + {r};
      }
      RerunEnd(n, order, Progress());
      CoveredSubset(n, done, rootEnable, enabled, rootEnable);
    }

    static method CollectLivePorts(enabled: set<(nat, nat)>, c: nat, np: nat) returns (live: seq<nat>)
      ensures live == LivePorts(enabled, c, np)
    {
      live := [];
      for p := 0 to np
        invariant live == LivePorts(enabled, c, p)
      {
        if (c, p) in enabled { live := live + [p]; }
      }
    }

    /** Remove the dead ports of mux c, reconnecting its outputs if at most one port is live. */
    static method PruneMux(n: Netlist, cells: seq<Cell>, enabled: set<(nat, nat)>, c: nat, drv: seq<Driver>)
      returns (cell: Cell, drv': seq<Driver>, dead: nat)
      requires WellFormed(n) && SameShape(n, cells) && c < |cells|
      requires drv == PrunedUpTo(n, cells, enabled, c)
      ensures cell == PrunedCellAt(n, cells, enabled, c) && drv' == PrunedUpTo(n, cells, enabled, c + 1)
      ensures Ports(cell) + dead <= Ports(n.cells[c]) && (dead == 0 ==> cell == cells[c])
    {
      assert SameShapeAt(n, cells, c) && CellOk(n, n.cells[c]);
      PrunedUpToStep(n, cells, enabled, c);
      cell, drv', dead := cells[c], drv, 0;
      if cells[c].Mux? {
        var live := CollectLivePorts(enabled, c, |cells[c].d|);
        dead := |cells[c].d| - |live|;
        if |live| != |cells[c].d| {
          if |live| <= 1 {
            drv' := Reconnect(drv, n, cells, enabled, c);
          }
          cell := PrunedCell(cells[c], live);
        }
      }
    }

    /** Remove the ports that no evaluation enabled. */
    static method RemoveDeadPorts(n: Netlist, cells: seq<Cell>, enabled: set<(nat, nat)>)
      returns (pruned: Netlist, removed: nat)
      requires WellFormed(n) && SameShape(n, cells)
      ensures pruned == Pruned(n, cells, enabled)
      ensures TotalPorts(pruned.cells) + removed <= TotalPorts(n.cells)
      ensures removed == 0 ==> pruned.cells == cells
    {
      hide WellFormed, SameShape, PrunedUpTo, PrunedCellAt, PrunedAt;
      var newCells: seq<Cell> := [];
      var newDrv := n.drv;
      removed := 0;
      PrunedUpToNone(n, cells, enabled);
      for c := 0 to |cells|
        invariant |newCells| == c && newDrv == PrunedUpTo(n, cells, enabled, c)
        invariant forall e :: 0 <= e < c ==> newCells[e] == PrunedCellAt(n, cells, enabled, e)
        invariant TotalPorts(newCells) + removed <= TotalPorts(n.cells[..c])
        invariant removed == 0 ==> newCells == cells[..c]
      {
        var cell, drv, dead := PruneMux(n, cells, enabled, c, newDrv);
        assert (newCells + [cell])[..c] == newCells && n.cells[..c + 1][..c] == n.cells[..c];
        newCells, newDrv, removed := newCells + [cell], drv, removed + dead;
      }
      assert n.cells[..|cells|] == n.cells;
      pruned := Netlist(newDrv, newCells, n.keep, n.rank);
      PrunedUpToAll(n, cells, enabled);
      assert newCells == Pruned(n, cells, enabled).cells;
    }
  }

  lemma PrunedUpToNone(n: Netlist, cells: seq<Cell>, enabled: set<(nat, nat)>)
    requires WellFormed(n) && SameShape(n, cells)
    ensures PrunedUpTo(n, cells, enabled, 0) == n.drv && |cells| == |n.cells|
  {
  }

  lemma PrunedUpToAll(n: Netlist, cells: seq<Cell>, enabled: set<(nat, nat)>)
    requires WellFormed(n) && SameShape(n, cells)
    ensures PrunedUpTo(n, cells, enabled, |cells|) == Pruned(n, cells, enabled).drv
  {
    forall b | 0 <= b < |n.drv| ensures PrunedUpTo(n, cells, enabled, |cells|)[b] == PrunedAt(n, cells, enabled, b) {
      assert DriverOk(n, b);
    }
  }

  lemma RootsInRange(n: Netlist)
    requires WellFormed(n)
    ensures forall r :: r in Roots(n) ==> r < |n.cells|
  {
  }

  lemma NoRoots(n: Netlist, enabled: set<(nat, nat)>, roots: set<nat>)
    requires WellFormed(n)
    ensures RootsCovered(n, {}, enabled, roots)
  {
  }

  lemma CoveredSubset(n: Netlist, rs: set<nat>, fewer: set<nat>, enabled: set<(nat, nat)>, roots: set<nat>)
    requires WellFormed(n) && RootsCovered(n, rs, enabled, roots) && fewer <= rs
    ensures RootsCovered(n, fewer, enabled, roots)
  {
  }

  lemma StillCovered(n: Netlist, rs: set<nat>, enabled: set<(nat, nat)>, roots: set<nat>, enabled': set<(nat, nat)>,
                     roots': set<nat>)
    requires WellFormed(n) && RootsCovered(n, rs, enabled, roots) && enabled <= enabled' && roots <= roots'
    ensures RootsCovered(n, rs, enabled', roots')
  {
    forall r, v | r in rs && Admissible(n, v) ensures Covers(n, v, {r}, {r}, enabled', roots') {
      assert RootCovered(n, r, enabled, roots);
      CoversMonotone(n, v, {r}, {r}, enabled, roots, {r}, enabled', roots');
    }
  }

  /** No mux of n' has a select that is constant in n. */
  ghost predicate SelectsOpen(n: Netlist, n': Netlist)
    requires WellFormed(n)
  {
    forall c, i :: 0 <= c < |n'.cells| && n'.cells[c].Mux? && 0 <= i < |n'.cells[c].s| ==>
                     InRange(n, n'.cells[c].s[i]) && Rep(n, n'.cells[c].s[i]).Wire?
  }

  lemma SelectsLeftOpen(n: Netlist, cells: seq<Cell>, enabled: set<(nat, nat)>)
    requires WellFormed(n) && SameShape(n, cells) && OnlyChoices(n, enabled)
    ensures SelectsOpen(n, Pruned(n, cells, enabled))
  {
    hide WellFormed, SameShape, PrunedCellAt, OnlyChoices, Rep;
    var n' := Pruned(n, cells, enabled);
    forall c, i | 0 <= c < |n'.cells| && n'.cells[c].Mux? && 0 <= i < |n'.cells[c].s|
      ensures InRange(n, n'.cells[c].s[i]) && Rep(n, n'.cells[c].s[i]).Wire?
    {
      assert n'.cells[c] == PrunedCellAt(n, cells, enabled, c);
      NoConstantSelects(n, cells, enabled, c, i);
    }
  }

  /** One run of the optimiser over a module, which gives up when the walk takes too many steps. */
  method OptimiseModule(n: Netlist, order: Order) returns (n': Netlist, removed: nat, ghost done: bool)
    requires WellFormed(n) && IsOrder(order)
    ensures n' == Optimised(n, order)
    ensures Step(n, n') && TotalPorts(n'.cells) + removed <= TotalPorts(n.cells)
    ensures if done then SelectsOpen(n, n') && OnlyReached(n, n') else n'.drv == n.drv && removed == 0
  {
    hide OnlyReached;
    var worker := new OptMuxtreeWorker(n, order);
    worker.EvalRoots();
    done := worker.globAbort > 0;
    if Repeatable(n) { OptimisedStaysRepeatable(n, order); }
    if worker.globAbort == 0 {
      n', removed := Netlist(n.drv, worker.cells, n.keep, n.rank), 0;
      assert worker.cells[..|worker.cells|] == worker.cells && n.cells[..|n.cells|] == n.cells;
      SameShapePorts(n, worker.cells, |n.cells|);
      SameShapeWellFormed(n, worker.cells, AllPorts(n));
      PruningKeepsStructure(n, worker.cells, AllPorts(n));
      if Replaceable(n) {
        RewritingKeepsMeaning(n, worker.cells);
      }
    } else {
      n', removed := OptMuxtreeWorker.RemoveDeadPorts(n, worker.cells, worker.enabled);
      PruningKeepsStructure(n, worker.cells, worker.enabled);
      SelectsLeftOpen(n, worker.cells, worker.enabled);
      OptimisedIsReached(n, order);
      if Replaceable(n) {
        PruningKeepsMeaning(n, worker.cells, worker.enabled, worker.rootEnable);
      }
    }
  }

  // ----------------------------------------------------- the repeated pass

  function DesignPorts(design: seq<Netlist>): nat {
    if design == [] then 0
    else DesignPorts(design[..|design| - 1]) + TotalPorts(design[|design| - 1].cells)
  }

  /** Repeat the optimiser over all modules until no port is removed. */
  method Execute(design: seq<Netlist>, orders: (nat, nat) -> Order) returns (result: seq<Netlist>)
    requires forall n :: n in design ==> WellFormed(n)
    requires forall round: nat, i: nat :: IsOrder(orders(round, i))
    ensures |result| == |design| && DesignPorts(result) <= DesignPorts(design)
    ensures forall i :: 0 <= i < |design| ==> WellFormed(design[i]) && Chained(design[i], result[i])
    ensures forall i :: 0 <= i < |design| && Repeatable(design[i]) ==>
              WellFormed(result[i]) && KeepsKept(design[i], result[i])
  {
    hide WellFormed, Repeatable, Chained, Step, KeepsKept;
    result := design;
    forall i | 0 <= i < |design| ensures Chained(design[i], result[i]) {
      NoRunYet(design[i]);
    }
    var totalCount, round := 1, 0;
    while totalCount != 0
      invariant |result| == |design| && DesignPorts(result) <= DesignPorts(design)
      invariant forall i :: 0 <= i < |result| ==> WellFormed(result[i]) && Chained(design[i], result[i])
      decreases DesignPorts(result), totalCount
    {
      ghost var before := result;
      result, totalCount := Round(result, i => orders(round, i));
      round := round + 1;
      forall i | 0 <= i < |result| ensures WellFormed(result[i]) && Chained(design[i], result[i]) {
        StepsAt(before, result, i);
        ExtendChain(design[i], before[i], result[i]);
      }
    }
    forall i | 0 <= i < |design| && Repeatable(design[i])
      ensures WellFormed(result[i]) && KeepsKept(design[i], result[i])
    {
      RoundsKeepMeaning(design[i], result[i]);
    }
  }

  /** One step for every module of a design. */
  ghost predicate Steps(design: seq<Netlist>, result: seq<Netlist>) {
    && |result| == |design|
    && (design != [] ==> var k := |design| - 1; Step(design[k], result[k]) && Steps(design[..k], result[..k]))
  }

  lemma {:induction false} StepsAt(design: seq<Netlist>, result: seq<Netlist>, i: nat)
    requires Steps(design, result) && i < |design|
    ensures Step(design[i], result[i])
  {
    hide Step;
    var k := |design| - 1;
    if i < k { StepsAt(design[..k], result[..k], i); }
  }

  method Round(design: seq<Netlist>, order: nat -> Order) returns (result: seq<Netlist>, totalCount: nat)
    requires (forall i :: 0 <= i < |design| ==> WellFormed(design[i])) && forall i: nat :: IsOrder(order(i))
    ensures Steps(design, result)
    ensures DesignPorts(result) + totalCount <= DesignPorts(design)
  {
    hide Step, WellFormed;
    result, totalCount := [], 0;
    for i := 0 to |design|
      invariant |result| == i && Steps(design[..i], result)
      invariant DesignPorts(result) + totalCount <= DesignPorts(design[..i])
    {
      var n', removed, _ := OptimiseModule(design[i], order(i));
      assert (result + [n'])[..i] == result && design[..i + 1][..i] == design[..i];
      result, totalCount := result + [n'], totalCount + removed;
    }
    assert design[..|design|] == design;
  }
}
