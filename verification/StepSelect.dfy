/**
  Stepwise proofs: the properties of a design are numbered by step; a step is proved on a graph in which
  the asserts of lower steps have become assumptions and those of later steps are gone.
 */
module StepSelect {
  import opened Aig

  datatype Option<T> = None | Some(value: T)

  // ---------------------------------------------------------- property names

  function SplitOnce(s: string, c: char): (r: Option<(string, string)>)
    ensures r.Some? ==> s == r.value.0 + [c] + r.value.1 && c !in r.value.0
    ensures r.None? ==> c !in s
  {
    if s == "" then None
    else if s[0] == c then Some(("", s[1..]))
    else
      match SplitOnce(s[1..], c)
      case None => None
      case Some((before, after)) => Some(([s[0]] + before, after))
  }

  predicate IsDigit(c: char) {
    '0' <= c <= '9'
  }

  function Digit(c: char): nat
    requires IsDigit(c)
  {
    c as int - '0' as int
  }

  function DecimalValue(s: string): nat
    requires forall i :: 0 <= i < |s| ==> IsDigit(s[i])
  {
    if s == "" then 0 else 10 * DecimalValue(s[..|s| - 1]) + Digit(s[|s| - 1])
  }

  /** A decimal number that fits the machine word, with an optional plus sign. */
  function ParseUsize(s: string): (r: Option<nat>) {
    var digits := if s != "" && s[0] == '+' then s[1..] else s;
    if digits != "" && (forall i :: 0 <= i < |digits| ==> IsDigit(digits[i]))
        && DecimalValue(digits) < 0x1_0000_0000_0000_0000
    then Some(DecimalValue(digits))
    else None
  }

  datatype Property = Property(step: nat, name: string)

  predicate IsCover(p: Property) {
    |p.name| >= 6 && p.name[|p.name| - 6..] == "_Cover"
  }

  /** A name is six characters of prefix, "Step", a number, an underscore, a label, a dollar sign. */
  function ParseName(name: string): (r: Option<Property>) {
    if |name| < 6 then None
    else
      match SplitOnce(name[6..], '$')
      case None => None
      case Some((full, rest)) =>
        match SplitOnce(full, '_')
        case None => None
        case Some((stepName, shortName)) =>
          if |stepName| < 4 || stepName[..4] != "Step" then None
          else
            match ParseUsize(stepName[4..])
            case None => None
            case Some(step) => Some(Property(step, shortName))
  }

  /** The name of a property as the tools write it. */
  predicate IsNameOf(name: string, prefix: string, number: string, title: string, rest: string) {
    && name == prefix + "Step" + number + "_" + title + "$" + rest
    && |prefix| == 6 && '$' !in number + "_" + title && '_' !in number
  }

  lemma {:induction false} SplitAt(before: string, c: char, after: string)
    requires c !in before
    ensures SplitOnce(before + [c] + after, c) == Some((before, after))
  {
    var s := before + [c] + after;
    if before == "" {
      assert s == [c] + after && s[1..] == after;
    } else {
      assert s[1..] == before[1..] + [c] + after;
      SplitAt(before[1..], c, after);
      assert before == [s[0]] + before[1..];
    }
  }

  /** Names are read back: the number after "Step" and the label up to the dollar sign. */
  lemma NamesReadBack(name: string, prefix: string, number: string, title: string, rest: string)
    requires IsNameOf(name, prefix, number, title, rest)
    ensures ParseName(name)
         == match ParseUsize(number) case None => None case Some(step) => Some(Property(step, title))
  {
    hide ParseUsize, SplitOnce;
    var full := "Step" + number + "_" + title;
    assert name[6..] == full + ['$'] + rest;
    assert '$' !in full by {
      assert full == "Step" + (number + "_" + title) && '$' !in "Step";
    }
    SplitAt(full, '$', rest);
    assert full == ("Step" + number) + ['_'] + title && '_' !in "Step" + number;
    SplitAt("Step" + number, '_', title);
    assert ("Step" + number)[..4] == "Step" && ("Step" + number)[4..] == number;
  }

  /** Only such names are accepted. */
  lemma AcceptedNames(name: string)
    returns (prefix: string, number: string, title: string, rest: string)
    requires ParseName(name).Some?
    ensures IsNameOf(name, prefix, number, title, rest)
  {
    hide ParseUsize, SplitOnce;
    var (full, after) := SplitOnce(name[6..], '$').value;
    var (stepName, shortName) := SplitOnce(full, '_').value;
    prefix, number, title, rest := name[..6], stepName[4..], shortName, after;
    assert stepName == "Step" + number;
    assert name == prefix + (full + ['$'] + rest);
    assert number + "_" + title == full[4..];
  }

  /** A plain decimal number is read as its value. */
  lemma NumbersRead(number: string)
    requires number != "" && forall i :: 0 <= i < |number| ==> IsDigit(number[i])
    ensures ParseUsize(number)
         == if DecimalValue(number) < 0x1_0000_0000_0000_0000 then Some(DecimalValue(number)) else None
  {
    assert number[0] != '+';
  }

  predicate AllParse(names: seq<string>) {
    forall i :: 0 <= i < |names| ==> ParseName(names[i]).Some?
  }

  function Properties(names: seq<string>): (r: seq<Property>)
    requires AllParse(names)
    ensures |r| == |names|
  {
    seq(|names|, i requires 0 <= i < |names| => ParseName(names[i]).value)
  }

  // --------------------------------------------------------------- selection

  datatype Selection = Selection(step: nat, names: seq<string>, noAssumes: bool)

  /** The property is proved in this selection. */
  predicate Keeps(s: Selection, p: Property) {
    p.step == s.step && (s.names == [] || p.name in s.names)
  }

  /** The property is assumed in this selection. */
  predicate Assumed(s: Selection, p: Property) {
    !Keeps(s, p) && !s.noAssumes && !IsCover(p) && p.step < s.step
  }

  function KeptLiteral(p: Property, bad: nat): nat {
    if IsCover(p) then Flip(bad) else bad
  }

  function KeptBads(s: Selection, props: seq<Property>, bads: seq<nat>, k: nat): seq<nat>
    requires k <= |props| && k <= |bads|
  {
    if k == 0 then []
    else
      KeptBads(s, props, bads, k - 1)
      + (if Keeps(s, props[k - 1]) then [KeptLiteral(props[k - 1], bads[k - 1])] else [])
  }

  function Assumptions(s: Selection, props: seq<Property>, bads: seq<nat>, k: nat): seq<nat>
    requires k <= |props| && k <= |bads|
  {
    if k == 0 then []
    else Assumptions(s, props, bads, k - 1) + (if Assumed(s, props[k - 1]) then [Flip(bads[k - 1])] else [])
  }

  /** The graph for one selection. */
  function Selected(a: Aig, s: Selection, props: seq<Property>): Aig
    requires |props| == |a.bads|
  {
    a.(bads := KeptBads(s, props, a.bads, |props|),
       constraints := a.constraints + Assumptions(s, props, a.bads, |props|))
  }

  /** Keeps, deletes or assumes the bad at index b. */
  method Place(s: Selection, p: Property, bads: seq<nat>, constraints: seq<nat>, b: nat)
    returns (bads': seq<nat>, constraints': seq<nat>, b': nat)
    requires b < |bads|
    ensures bads' == if Keeps(s, p) then bads[..b] + [KeptLiteral(p, bads[b])] + bads[b + 1..]
                     else bads[..b] + bads[b + 1..]
    ensures constraints' == if Assumed(s, p) then constraints + [Flip(bads[b])] else constraints
    ensures b' == if Keeps(s, p) then b + 1 else b
  {
    bads', constraints', b' := bads, constraints, b;
    if p.step == s.step && (s.names == [] || p.name in s.names) {
      if IsCover(p) {
        bads' := bads'[b := Flip(bads'[b])];
      }
      b' := b + 1;
    } else if s.noAssumes || IsCover(p) || p.step >= s.step {
      bads' := bads'[..b] + bads'[b + 1..];
    } else {
      constraints' := constraints' + [Flip(bads'[b])];
      bads' := bads'[..b] + bads'[b + 1..];
    }
  }

  /** Removes or rewrites the bads in place, one index running over the names and one over what is left
      of the bads. None stands for an abort on malformed input. */
  method Select(a: Aig, names: seq<string>, s: Selection) returns (r: Option<Aig>)
    ensures r.Some? <==> a.justice == [] && a.fairness == [] && |names| == |a.bads| && AllParse(names)
    ensures r.Some? ==> r.value == Selected(a, s, Properties(names))
  {
    hide ParseName, SelectedSoFar;
    if a.justice != [] || a.fairness != [] || |names| != |a.bads| { return None; }
    var bads, constraints := a.bads, a.constraints;
    var bn, b := 0, 0;
    ghost var props: seq<Property> := [];
    NothingSelected(s, a);
    while b < |bads|
      invariant 0 <= b <= |bads| && 0 <= bn && bn + (|bads| - b) == |names| && |props| == bn
      invariant forall i :: 0 <= i < bn ==> ParseName(names[i]) == Some(props[i])
      invariant SelectedSoFar(s, a, props, bads, constraints, b)
      decreases |bads| - b
    {
      var parsed := ParseName(names[bn]);
      if parsed.None? { return None; }
      ghost var bads0, constraints0, b0 := bads, constraints, b;
      bads, constraints, b := Place(s, parsed.value, bads, constraints, b);
      OneSelected(s, a, props, parsed.value, bads0, constraints0, b0, bads, constraints, b);
      props := props + [parsed.value];
      bn := bn + 1;
    }
    assert props == Properties(names);
    AllSelected(s, a, props, bads, constraints, b);
    r := Some(a.(bads := bads, constraints := constraints));
  }

  /** The first |props| properties have been dealt with. */
  predicate SelectedSoFar(s: Selection, a: Aig, props: seq<Property>, bads: seq<nat>, constraints: seq<nat>, b: nat) {
    && |props| <= |a.bads|
    && b == |KeptBads(s, props, a.bads, |props|)|
    && bads == KeptBads(s, props, a.bads, |props|) + a.bads[|props|..]
    && constraints == a.constraints + Assumptions(s, props, a.bads, |props|)
  }

  lemma NothingSelected(s: Selection, a: Aig)
    ensures SelectedSoFar(s, a, [], a.bads, a.constraints, 0)
  {
  }

  lemma OneSelected(s: Selection, a: Aig, props: seq<Property>, p: Property, bads: seq<nat>, constraints: seq<nat>,
                    b: nat, bads': seq<nat>, constraints': seq<nat>, b': nat)
    requires SelectedSoFar(s, a, props, bads, constraints, b) && b < |bads| && |props| < |a.bads|
    requires bads' == if Keeps(s, p) then bads[..b] + [KeptLiteral(p, bads[b])] + bads[b + 1..]
                      else bads[..b] + bads[b + 1..]
    requires constraints' == if Assumed(s, p) then constraints + [Flip(bads[b])] else constraints
    requires b' == if Keeps(s, p) then b + 1 else b
    ensures SelectedSoFar(s, a, props + [p], bads', constraints', b')
  {
    hide Keeps, Assumed, KeptLiteral, Flip, KeptBads, Assumptions;
    assert |props + [p]| == |props| + 1;
    OneKept(s, props, p, a.bads, bads, b, bads', b');
    OneAssumed(s, props, p, a.bads, a.constraints, constraints, bads[b], constraints');
  }

  lemma OneKept(s: Selection, props: seq<Property>, p: Property, orig: seq<nat>, bads: seq<nat>, b: nat,
                bads': seq<nat>, b': nat)
    requires |props| < |orig| && bads == KeptBads(s, props, orig, |props|) + orig[|props|..]
    requires b == |KeptBads(s, props, orig, |props|)| && b < |bads|
    requires bads' == if Keeps(s, p) then bads[..b] + [KeptLiteral(p, bads[b])] + bads[b + 1..]
                      else bads[..b] + bads[b + 1..]
    requires b' == if Keeps(s, p) then b + 1 else b
    ensures bads[b] == orig[|props|]
    ensures bads' == KeptBads(s, props + [p], orig, |props| + 1) + orig[|props| + 1..]
    ensures b' == |KeptBads(s, props + [p], orig, |props| + 1)|
  {
    hide Keeps, KeptLiteral;
    var k := |props|;
    OneMoreProperty(s, props, p, orig);
    var kept, kept' := KeptBads(s, props, orig, k), KeptBads(s, props + [p], orig, k + 1);
    hide KeptBads, Assumptions;
    Rewritten(kept, kept', orig, k, bads, bads', KeptLiteral(p, orig[k]), Keeps(s, p));
  }

  lemma OneAssumed(s: Selection, props: seq<Property>, p: Property, orig: seq<nat>, given: seq<nat>,
                   constraints: seq<nat>, bad: nat, constraints': seq<nat>)
    requires |props| < |orig| && bad == orig[|props|]
    requires constraints == given + Assumptions(s, props, orig, |props|)
    requires constraints' == if Assumed(s, p) then constraints + [Flip(bad)] else constraints
    ensures constraints' == given + Assumptions(s, props + [p], orig, |props| + 1)
  {
    hide Assumed, Flip;
    OneMoreProperty(s, props, p, orig);
    MoreAssumed(given, Assumptions(s, props, orig, |props|), Flip(bad));
  }

  /** The entry after those kept is rewritten and kept, or removed. */
  lemma Rewritten(kept: seq<nat>, kept': seq<nat>, orig: seq<nat>, k: nat, bads: seq<nat>, bads': seq<nat>, x: nat,
                  keep: bool)
    requires k < |orig| && bads == kept + orig[k..] && |kept| < |bads|
    requires kept' == if keep then kept + [x] else kept
    requires bads' == if keep then bads[..|kept|] + [x] + bads[|kept| + 1..] else bads[..|kept|] + bads[|kept| + 1..]
    ensures bads[|kept|] == orig[k] && bads' == kept' + orig[k + 1..]
  {
    Removal(kept, orig, k, bads, x);
  }

  lemma MoreAssumed(a: seq<nat>, b: seq<nat>, x: nat)
    ensures a + b + [x] == a + (b + [x])
  {
  }

  lemma OneMoreProperty(s: Selection, props: seq<Property>, p: Property, bads: seq<nat>)
    requires |props| < |bads|
    ensures var k := |props|;
            && KeptBads(s, props + [p], bads, k + 1)
               == (if Keeps(s, p) then KeptBads(s, props, bads, k) + [KeptLiteral(p, bads[k])]
                   else KeptBads(s, props, bads, k))
            && Assumptions(s, props + [p], bads, k + 1)
               == (if Assumed(s, p) then Assumptions(s, props, bads, k) + [Flip(bads[k])]
                   else Assumptions(s, props, bads, k))
  {
    hide Keeps, Assumed, KeptLiteral, Flip;
    SamePrefix(s, props, p, bads, |props|);
  }

  lemma AllSelected(s: Selection, a: Aig, props: seq<Property>, bads: seq<nat>, constraints: seq<nat>, b: nat)
    requires SelectedSoFar(s, a, props, bads, constraints, b) && |props| == |a.bads|
    ensures a.(bads := bads, constraints := constraints) == Selected(a, s, props)
  {
    assert a.bads[|props|..] == [];
  }

  /** Rewriting or removing the first entry of what is left. */
  lemma Removal(kept: seq<nat>, orig: seq<nat>, bn: nat, bads: seq<nat>, x: nat)
    requires bn < |orig| && bads == kept + orig[bn..]
    ensures |kept| < |bads| && bads[|kept|] == orig[bn]
    ensures bads[..|kept|] + [x] + bads[|kept| + 1..] == (kept + [x]) + orig[bn + 1..]
    ensures bads[..|kept|] + bads[|kept| + 1..] == kept + orig[bn + 1..]
  {
    assert bads[..|kept|] == kept && bads[|kept| + 1..] == orig[bn..][1..] == orig[bn + 1..];
  }

  lemma {:induction false} SamePrefix(s: Selection, props: seq<Property>, p: Property, bads: seq<nat>, k: nat)
    requires k <= |props| && k <= |bads|
    ensures KeptBads(s, props + [p], bads, k) == KeptBads(s, props, bads, k)
    ensures Assumptions(s, props + [p], bads, k) == Assumptions(s, props, bads, k)
  {
    if k > 0 { SamePrefix(s, props, p, bads, k - 1); }
  }

  // ------------------------------------------------------------- composition

  ghost predicate ConstraintsHold(a: Aig, run: nat -> Assignment, t: nat) {
    forall u: nat, c :: u <= t && c in a.constraints ==> Lit(run(u), c)
  }

  /** The literal is true at cycle t of a run that meets the constraints so far. */
  ghost predicate Reaches(a: Aig, l: nat, run: nat -> Assignment, t: nat) {
    GraphRun(a, run) && ConstraintsHold(a, run, t) && Lit(run(t), l)
  }

  ghost predicate Unreachable(a: Aig, l: nat) {
    forall run: nat -> Assignment, t: nat :: !Reaches(a, l, run, t)
  }

  ghost predicate Proved(a: Aig) {
    forall l :: l in a.bads ==> Unreachable(a, l)
  }

  /** A label ends in "_Cover" exactly if its property is a cover. */
  lemma CoverBySuffix(p: Property)
    ensures IsCover(p) <==> exists k: nat :: k <= |p.name| && p.name[k..] == "_Cover"
  {
    if IsCover(p) { assert p.name[|p.name| - 6..] == "_Cover"; }
  }

  /** How many of the first k properties are asked for: those of the step, by name if names are given. */
  function AskedFor(s: Selection, props: seq<Property>, k: nat): nat
    requires k <= |props|
  {
    if k == 0 then 0
    else
      var p := props[k - 1];
      AskedFor(s, props, k - 1) + if p.step == s.step && (s.names == [] || p.name in s.names) then 1 else 0
  }

  /** A property asked for has its own bad in the selection, which says what the original says, and the opposite
      for a cover; there are no other bads. */
  lemma {:induction false} KeptMeans(s: Selection, props: seq<Property>, bads: seq<nat>, k: nat, i: nat, v: Assignment)
    requires i < k <= |props| && k <= |bads|
    requires props[i].step == s.step && (s.names == [] || props[i].name in s.names)
    ensures |KeptBads(s, props, bads, k)| == AskedFor(s, props, k) && AskedFor(s, props, i) < AskedFor(s, props, k)
    ensures Lit(v, KeptBads(s, props, bads, k)[AskedFor(s, props, i)])
         == if IsCover(props[i]) then !Lit(v, bads[i]) else Lit(v, bads[i])
    decreases k
  {
    hide IsCover;
    AskedForCounts(s, props, bads, k);
    AskedForCounts(s, props, bads, k - 1);
    if i < k - 1 { KeptMeans(s, props, bads, k - 1, i, v); }
  }

  lemma {:induction false} AskedForCounts(s: Selection, props: seq<Property>, bads: seq<nat>, k: nat)
    requires k <= |props| && k <= |bads|
    ensures |KeptBads(s, props, bads, k)| == AskedFor(s, props, k)
  {
    if k > 0 { AskedForCounts(s, props, bads, k - 1); }
  }

  /** Up to cycle t no property of a lower step that is not a cover has failed, if assumptions are made at all. */
  ghost predicate LowerStepsHold(a: Aig, props: seq<Property>, s: Selection, run: nat -> Assignment, t: nat)
    requires |props| == |a.bads|
  {
    forall u: nat, j :: u <= t && 0 <= j < |props| && props[j].step < s.step && !IsCover(props[j]) && !s.noAssumes ==>
      !Lit(run(u), a.bads[j])
  }

  lemma {:induction false} LowerIsAssumed(s: Selection, props: seq<Property>, bads: seq<nat>, k: nat, j: nat)
    requires j < k <= |props| == |bads| && props[j].step < s.step && !IsCover(props[j]) && !s.noAssumes
    ensures Flip(bads[j]) in Assumptions(s, props, bads, k)
  {
    if j < k - 1 { LowerIsAssumed(s, props, bads, k - 1, j); }
  }

  /** The constraints of a selection are the original ones and that no lower step fails, nothing else. */
  lemma SelectedConstraints(a: Aig, props: seq<Property>, s: Selection, run: nat -> Assignment, t: nat)
    requires |props| == |a.bads|
    ensures ConstraintsHold(Selected(a, s, props), run, t)
            <==> ConstraintsHold(a, run, t) && LowerStepsHold(a, props, s, run, t)
  {
    hide IsCover;
    var b := Selected(a, s, props);
    if ConstraintsHold(b, run, t) {
      forall u: nat, j | u <= t && 0 <= j < |props| && props[j].step < s.step && !IsCover(props[j]) && !s.noAssumes
        ensures !Lit(run(u), a.bads[j])
      {
        LowerIsAssumed(s, props, a.bads, |props|, j);
        assert Flip(a.bads[j]) in b.constraints;
      }
      forall u: nat, c | u <= t && c in a.constraints ensures Lit(run(u), c) {
        assert c in b.constraints;
      }
    }
    if ConstraintsHold(a, run, t) && LowerStepsHold(a, props, s, run, t) {
      forall u: nat, c | u <= t && c in b.constraints ensures Lit(run(u), c) {
        if c !in a.constraints { var j := AssumptionHasSource(s, props, a.bads, |props|, c); }
      }
    }
  }

  /** What can be reached in a selection: for a property asked for, a failure of it that no failure of a lower
      step comes before or with; for a cover asked for, the event itself, under the same condition. */
  lemma SelectedReaches(a: Aig, props: seq<Property>, s: Selection, run: nat -> Assignment, t: nat, i: nat)
    requires |props| == |a.bads| && i < |props|
    requires props[i].step == s.step && (s.names == [] || props[i].name in s.names)
    ensures AskedFor(s, props, i) < |Selected(a, s, props).bads| == AskedFor(s, props, |props|)
    ensures Reaches(Selected(a, s, props), Selected(a, s, props).bads[AskedFor(s, props, i)], run, t)
            <==> GraphRun(a, run) && ConstraintsHold(a, run, t) && LowerStepsHold(a, props, s, run, t)
                 && (if IsCover(props[i]) then !Lit(run(t), a.bads[i]) else Lit(run(t), a.bads[i]))
  {
    SameRuns(a, props, s, run);
    KeptMeans(s, props, a.bads, |props|, i, run(t));
    SelectedConstraints(a, props, s, run, t);
    hide IsCover, ConstraintsHold, LowerStepsHold, GraphRun, KeptBads, Assumptions, AskedFor, Lit;
  }

  lemma SameRuns(a: Aig, props: seq<Property>, s: Selection, run: nat -> Assignment)
    requires |props| == |a.bads|
    ensures GraphRun(Selected(a, s, props), run) <==> GraphRun(a, run)
  {
    hide KeptBads, Assumptions;
    var b := Selected(a, s, props);
    assert forall t: nat :: GraphSettled(b, run(t)) <==> GraphSettled(a, run(t));
    assert LatchesReset(b, run(0)) <==> LatchesReset(a, run(0));
    assert forall t: nat :: LatchesClocked(b, run(t), run(t + 1)) <==> LatchesClocked(a, run(t), run(t + 1));
  }

  lemma {:induction false} KeptIsThere(s: Selection, props: seq<Property>, bads: seq<nat>, k: nat, i: nat)
    requires i < k <= |props| == |bads| && Keeps(s, props[i]) && !IsCover(props[i])
    ensures bads[i] in KeptBads(s, props, bads, k)
  {
    if i < k - 1 { KeptIsThere(s, props, bads, k - 1, i); }
  }

  lemma {:induction false} AssumptionHasSource(
      s: Selection, props: seq<Property>, bads: seq<nat>, k: nat, c: nat) returns (i: nat)
    requires k <= |props| == |bads| && c in Assumptions(s, props, bads, k)
    ensures i < k && Assumed(s, props[i]) && c == Flip(bads[i])
  {
    if c in Assumptions(s, props, bads, k - 1) {
      i := AssumptionHasSource(s, props, bads, k - 1, c);
    } else {
      i := k - 1;
    }
  }

  /** Some property that is not a cover fails at cycle t. */
  ghost predicate FailsAt(a: Aig, props: seq<Property>, run: nat -> Assignment, t: nat, i: nat)
    requires |props| == |a.bads|
  {
    i < |props| && !IsCover(props[i]) && Lit(run(t), a.bads[i])
  }

  /** No failure earlier, or now at a lower step. */
  ghost predicate FirstFailure(a: Aig, props: seq<Property>, run: nat -> Assignment, t: nat, i: nat)
    requires |props| == |a.bads|
  {
    && FailsAt(a, props, run, t, i)
    && (forall u: nat, j: nat :: u < t ==> !FailsAt(a, props, run, u, j))
    && (forall j: nat :: FailsAt(a, props, run, t, j) ==> props[i].step <= props[j].step)
  }

  lemma {:induction false} FindFirst(a: Aig, props: seq<Property>, run: nat -> Assignment, t: nat, i: nat)
    returns (t': nat, i': nat)
    requires |props| == |a.bads| && FailsAt(a, props, run, t, i)
    ensures t' <= t && FirstFailure(a, props, run, t', i')
    decreases t, props[i].step
  {
    if u: nat, j: nat :| u < t && FailsAt(a, props, run, u, j) {
      t', i' := FindFirst(a, props, run, u, j);
    } else if j: nat :| FailsAt(a, props, run, t, j) && props[j].step < props[i].step {
      t', i' := FindFirst(a, props, run, t, j);
    } else {
      t', i' := t, i;
    }
  }

  /** At a first failure, everything that the property's own step assumes has held so far. */
  lemma FirstFailureIsReached(a: Aig, props: seq<Property>, s: Selection, run: nat -> Assignment, t: nat, i: nat)
    requires |props| == |a.bads| && FirstFailure(a, props, run, t, i) && GraphRun(a, run) && ConstraintsHold(a, run, t)
    requires Keeps(s, props[i])
    ensures Reaches(Selected(a, s, props), a.bads[i], run, t)
  {
    var b := Selected(a, s, props);
    forall u: nat, c | u <= t && c in b.constraints ensures Lit(run(u), c) {
      if c !in a.constraints {
        var j := AssumptionHasSource(s, props, a.bads, |props|, c);
        assert !FailsAt(a, props, run, u, j);
      }
    }
  }

  /** Some selection keeps property j and makes it unreachable. */
  ghost predicate ProvedBySome(a: Aig, props: seq<Property>, proofs: seq<Selection>, j: nat)
    requires |props| == |a.bads| && j < |props|
  {
    exists k :: 0 <= k < |proofs| && Keeps(proofs[k], props[j]) && Unreachable(Selected(a, proofs[k], props), a.bads[j])
  }

  /** If every property that is not a cover is unreachable in some selection of its step that keeps it, then none
      of these properties can fail in the original graph. Of the other bads of a selection, covers included,
      nothing is asked. */
  lemma StepwiseProofsCompose(a: Aig, props: seq<Property>, proofs: seq<Selection>, i: nat)
    requires |props| == |a.bads| && i < |props| && !IsCover(props[i])
    requires forall j :: 0 <= j < |props| && !IsCover(props[j]) ==> ProvedBySome(a, props, proofs, j)
    ensures Unreachable(a, a.bads[i])
  {
    forall run: nat -> Assignment, t: nat ensures !Reaches(a, a.bads[i], run, t) {
      if Reaches(a, a.bads[i], run, t) {
        var t', i' := FindFirst(a, props, run, t, i);
        assert ProvedBySome(a, props, proofs, i');
        var k :| 0 <= k < |proofs| && Keeps(proofs[k], props[i'])
              && Unreachable(Selected(a, proofs[k], props), a.bads[i']);
        FirstFailureIsReached(a, props, proofs[k], run, t', i');
      }
    }
  }

  /** In particular if all bads of the selected graphs are unreachable and every such property is kept. */
  lemma WholeSelectionsCompose(a: Aig, props: seq<Property>, proofs: seq<Selection>, i: nat)
    requires |props| == |a.bads| && i < |props| && !IsCover(props[i])
    requires forall k :: 0 <= k < |proofs| ==> Proved(Selected(a, proofs[k], props))
    requires forall j :: 0 <= j < |props| && !IsCover(props[j]) ==> KeptBySome(proofs, props[j])
    ensures Unreachable(a, a.bads[i])
  {
    forall j | 0 <= j < |props| && !IsCover(props[j]) ensures ProvedBySome(a, props, proofs, j) {
      assert KeptBySome(proofs, props[j]);
      var k :| 0 <= k < |proofs| && Keeps(proofs[k], props[j]);
      KeptIsThere(proofs[k], props, a.bads, |props|, j);
      assert Unreachable(Selected(a, proofs[k], props), a.bads[j]);
    }
    StepwiseProofsCompose(a, props, proofs, i);
  }

  predicate KeptBySome(proofs: seq<Selection>, p: Property) {
    exists k :: 0 <= k < |proofs| && Keeps(proofs[k], p)
  }
}
