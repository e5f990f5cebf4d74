/**
  Matching the byte accesses of an instruction set simulator against the word accesses of the design: a
  queue of design accesses, whose front is consumed when the simulator has touched all its bytes.
 */
module Cosim {
  datatype Option<T> = None | Some(value: T)

  type Byte = x: nat | x < 256

  /** An access the design made to an aligned word; lane j of be tells that byte j takes part. */
  datatype DSideAccess = DSideAccess(
    store: bool, data: seq<Byte>, addr: nat, be: set<nat>, error: bool, misalignedFirst: bool, misalignedSecond: bool)

  datatype Pending = Pending(info: DSideAccess, beSpike: set<nat>)

  datatype CheckResult = CheckOk | CheckFailed | CheckBusError

  datatype Problem =
    | NothingPending | WrongAddress | WrongKind | SeenTwice | OtherBytes | WrongBytes | WrongData
    | NoSecondHalf | WrongSecondAddress

  predicate WellFormed(a: DSideAccess) {
    a.addr % 4 == 0 && |a.data| == 4 && a.be <= {0, 1, 2, 3}
  }

  predicate Misaligned(a: DSideAccess) {
    a.misalignedFirst || a.misalignedSecond
  }

  /** The lanes of a simulator access of len bytes. */
  function Lanes(addr: nat, len: nat): (r: set<nat>)
    ensures forall j: nat :: j in r <==> addr % 4 <= j < addr % 4 + len
  {
    if len == 0 then {} else Lanes(addr, len - 1) + {addr % 4 + len - 1}
  }

  predicate DataMatches(a: DSideAccess, addr: nat, bytes: seq<Byte>)
    requires |a.data| == 4 && addr % 4 + |bytes| <= 4
  {
    forall i :: 0 <= i < |bytes| ==> bytes[i] == a.data[addr % 4 + i]
  }

  /** The design made a second access for the upper half. */
  predicate NeedsSecond(a: DSideAccess) {
    a.error && a.misalignedFirst && 3 in a.be
  }

  /** What is wrong with a simulator access, if anything, in the order in which it is found. */
  function ProblemOf(q: seq<Pending>, store: bool, addr: nat, bytes: seq<Byte>): Option<Problem>
    requires addr % 4 + |bytes| <= 4 && QueueOk(q)
  {
    if q == [] then Some(NothingPending)
    else
      assert WellFormed(q[0].info);
      var a, lanes := q[0].info, Lanes(addr, |bytes|);
      if addr / 4 * 4 != a.addr then Some(WrongAddress)
      else if store != a.store then Some(WrongKind)
      else if Misaligned(a) && lanes * q[0].beSpike != {} then Some(SeenTwice)
      else if Misaligned(a) && !(lanes <= a.be) then Some(OtherBytes)
      else if !Misaligned(a) && lanes != a.be then Some(WrongBytes)
      else if (store || !a.error) && !DataMatches(a, addr, bytes) then Some(WrongData)
      else if NeedsSecond(a) && (|q| < 2 || !q[1].info.misalignedSecond) then Some(NoSecondHalf)
      else if NeedsSecond(a) && q[1].info.addr != a.addr + 4 then Some(WrongSecondAddress)
      else None
  }

  predicate QueueOk(q: seq<Pending>) {
    forall k :: 0 <= k < |q| ==> WellFormed(q[k].info)
  }

  /** The queue after an access without problems: with an error everything of the instruction is dropped. */
  function Consumed(q: seq<Pending>, addr: nat, len: nat): seq<Pending>
    requires q != [] && (NeedsSecond(q[0].info) ==> |q| >= 2)
  {
    var a := q[0].info;
    if NeedsSecond(a) then q[2..]
    else if !Misaligned(a) || a.error || q[0].beSpike + Lanes(addr, len) == a.be then q[1..]
    else [Pending(a, q[0].beSpike + Lanes(addr, len))] + q[1..]
  }

  /** The queue after a failed check: bytes of a misaligned access are noted before its data is looked at. */
  function Noted(q: seq<Pending>, problem: Problem, addr: nat, len: nat): seq<Pending> {
    if q != [] && Misaligned(q[0].info) && problem in {WrongData, NoSecondHalf, WrongSecondAddress}
    then [Pending(q[0].info, q[0].beSpike + Lanes(addr, len))] + q[1..]
    else q
  }

  // ----------------------------------------------- what the problems mean

  /** The order in which problems are looked for. */
  function Place(p: Problem): nat {
    match p
    case NothingPending => 0
    case WrongAddress => 1
    case WrongKind => 2
    case SeenTwice => 3
    case OtherBytes => 4
    case WrongBytes => 5
    case WrongData => 6
    case NoSecondHalf => 7
    case WrongSecondAddress => 8
  }

  /** The simulator access has this problem, looked for or not. */
  predicate Has(p: Problem, q: seq<Pending>, store: bool, addr: nat, bytes: seq<Byte>)
    requires addr % 4 + |bytes| <= 4 && QueueOk(q)
  {
    if q == [] then p == NothingPending
    else
      assert WellFormed(q[0].info);
      var a, lo := q[0].info, addr % 4;
      var split := a.misalignedFirst || a.misalignedSecond;
      var second := a.error && a.misalignedFirst && 3 in a.be;
      match p
      case NothingPending => false
      case WrongAddress => addr - lo != a.addr
      case WrongKind => store != a.store
      case SeenTwice => split && exists j :: j in q[0].beSpike && lo <= j < lo + |bytes|
      case OtherBytes => split && exists j :: lo <= j < lo + |bytes| && j !in a.be
      case WrongBytes => !split && exists j :: 0 <= j < 4 && !(j in a.be <==> lo <= j < lo + |bytes|)
      case WrongData => (store || !a.error) && exists i :: 0 <= i < |bytes| && bytes[i] != a.data[lo + i]
      case NoSecondHalf => second && (|q| < 2 || !q[1].info.misalignedSecond)
      case WrongSecondAddress => second && |q| >= 2 && q[1].info.addr != a.addr + 4
  }

  /** The lanes of an access against those enabled and those seen. */
  lemma LanesAre(addr: nat, len: nat, be: set<nat>, seen: set<nat>)
    requires be <= {0, 1, 2, 3} && addr % 4 + len <= 4
    ensures (exists j :: j in seen && addr % 4 <= j < addr % 4 + len) <==> Lanes(addr, len) * seen != {}
    ensures (exists j :: addr % 4 <= j < addr % 4 + len && j !in be) <==> !(Lanes(addr, len) <= be)
    ensures (exists j :: 0 <= j < 4 && !(j in be <==> addr % 4 <= j < addr % 4 + len)) <==> Lanes(addr, len) != be
  {
    hide Lanes;
    var lanes := Lanes(addr, len);
    if j :| j in seen && addr % 4 <= j < addr % 4 + len { assert j in lanes * seen; }
    if lanes * seen != {} {
      var j :| j in lanes * seen;
      assert j in seen && addr % 4 <= j < addr % 4 + len;
    }
    if forall j :: 0 <= j < 4 ==> (j in be <==> addr % 4 <= j < addr % 4 + len) { assert lanes == be; }
  }

  /** The problem found is one the access has, and it has none that is looked for earlier; without a problem found
      it has none. */
  lemma FirstProblem(q: seq<Pending>, store: bool, addr: nat, bytes: seq<Byte>)
    requires addr % 4 + |bytes| <= 4 && QueueOk(q)
    ensures var r := ProblemOf(q, store, addr, bytes);
            && (r.Some? ==> Has(r.value, q, store, addr, bytes))
            && forall p :: Has(p, q, store, addr, bytes) ==> r.Some? && Place(r.value) <= Place(p)
  {
    if q != [] {
      assert WellFormed(q[0].info) && addr / 4 * 4 == addr - addr % 4;
      LanesAre(addr, |bytes|, q[0].info.be, q[0].beSpike);
    }
    hide Lanes, QueueOk;
  }

  /** What an accepted access leaves: a bus error takes the whole instruction off the queue, other accesses go when
      all their bytes have been touched, and until then remember exactly the bytes touched. */
  lemma AcceptedLeaves(q: seq<Pending>, store: bool, addr: nat, bytes: seq<Byte>)
    requires addr % 4 + |bytes| <= 4 && QueueOk(q) && ProblemOf(q, store, addr, bytes) == None
    ensures q != []
    ensures var a, r, lo := q[0].info, Consumed(q, addr, |bytes|), addr % 4;
            var split := a.misalignedFirst || a.misalignedSecond;
            var whole := forall j :: j in a.be ==> j in q[0].beSpike || lo <= j < lo + |bytes|;
            && (a.error && a.misalignedFirst && 3 in a.be ==> |q| >= 2 && r == q[2..])
            && (a.error && !(a.misalignedFirst && 3 in a.be) ==> r == q[1..])
            && (!a.error && !split ==> r == q[1..])
            && (!a.error && split && q[0].beSpike <= a.be && whole ==> r == q[1..])
            && (!a.error && split && !whole ==>
                  |r| == |q| && r[1..] == q[1..] && r[0].info == a
                  && forall j: nat :: j in r[0].beSpike <==> j in q[0].beSpike || lo <= j < lo + |bytes|)
  {
    hide QueueOk;
  }

  class SpikeCosim {
    var pending: seq<Pending>
    var errors: seq<Problem>

    predicate Valid()
      reads this
    {
      QueueOk(pending)
    }

    constructor ()
      ensures Valid() && pending == [] && errors == []
    {
      pending, errors := [], [];
    }

    method NotifyDsideAccess(a: DSideAccess)
      requires Valid() && WellFormed(a)
      modifies this`pending
      ensures Valid() && pending == old(pending) + [Pending(a, {})]
    {
      pending := pending + [Pending(a, {})];
    }

    method Report(p: Problem) returns (r: CheckResult)
      modifies this`errors
      ensures errors == old(errors) + [p] && r == CheckFailed
    {
      errors := errors + [p];
      r := CheckFailed;
    }

    method DataCheck(a: DSideAccess, addr: nat, bytes: seq<Byte>) returns (ok: bool)
      requires |a.data| == 4 && addr % 4 + |bytes| <= 4
      ensures ok == DataMatches(a, addr, bytes)
    {
      var i := 0;
      while i < |bytes|
        invariant 0 <= i <= |bytes|
        invariant forall k :: 0 <= k < i ==> bytes[k] == a.data[addr % 4 + k]
      {
        if bytes[i] != a.data[addr % 4 + i] { return false; }
        i := i + 1;
      }
      ok := true;
    }

    /** Checks one simulator access against the front of the queue. The access must not cross a word. */
    method CheckMemAccess(store: bool, addr: nat, bytes: seq<Byte>) returns (r: CheckResult)
      requires Valid() && 1 <= |bytes| <= 4 && addr % 4 + |bytes| <= 4
      modifies this
      ensures Valid()
      ensures r == CheckFailed <==> ProblemOf(old(pending), store, addr, bytes).Some?
      ensures r != CheckFailed <==> forall p :: !Has(p, old(pending), store, addr, bytes)
      ensures r == CheckFailed ==>
                var p := ProblemOf(old(pending), store, addr, bytes).value;
                errors == old(errors) + [p] && pending == Noted(old(pending), p, addr, |bytes|)
      ensures r != CheckFailed ==> errors == old(errors) && pending == Consumed(old(pending), addr, |bytes|)
      ensures r == CheckBusError ==> old(pending) != [] && old(pending)[0].info.error
      ensures r == CheckOk ==> old(pending) != [] && !old(pending)[0].info.error
      ensures |pending| <= |old(pending)| <= |pending| + 2
    {
      FirstProblem(pending, store, addr, bytes);
      hide Has;
      if |pending| == 0 { r := Report(NothingPending); return; }
      var a := pending[0].info;
      var aligned := addr / 4 * 4;
      if aligned != a.addr { r := Report(WrongAddress); return; }
      if store != a.store { r := Report(WrongKind); return; }
      var expectedBe := Lanes(addr, |bytes|);
      var done, misaligned := false, a.misalignedFirst || a.misalignedSecond;
      if misaligned {
        if expectedBe * pending[0].beSpike != {} { r := Report(SeenTwice); return; }
        if !(expectedBe <= a.be) { r := Report(OtherBytes); return; }
        pending := [Pending(a, pending[0].beSpike + expectedBe)] + pending[1..];
        if pending[0].beSpike == a.be { done := true; }
      } else {
        if expectedBe != a.be { r := Report(WrongBytes); return; }
        done := true;
      }
      if store || !a.error {
        var ok := DataCheck(a, addr, bytes);
        if !ok { r := Report(WrongData); return; }
      }
      if a.error && misaligned {
        if a.misalignedFirst && 3 in a.be {
          if |pending| < 2 || !pending[1].info.misalignedSecond { r := Report(NoSecondHalf); return; }
          if pending[1].info.addr != a.addr + 4 { r := Report(WrongSecondAddress); return; }
          pending := pending[1..];
        }
        done := true;
      }
      if done { pending := pending[1..]; }
      r := if a.error then CheckBusError else CheckOk;
    }
  }

  // ------------------------------------------------------------------- runs

  datatype Event = Notify(info: DSideAccess) | Check(store: bool, addr: nat, bytes: seq<Byte>)

  /** A byte the simulator loaded or stored. */
  datatype ByteAccess = ByteAccess(store: bool, addr: nat, value: Byte)

  predicate Possible(e: Event) {
    match e
    case Notify(a) => WellFormed(a)
    case Check(_, addr, bytes) => 1 <= |bytes| <= 4 && addr % 4 + |bytes| <= 4
  }

  /** The queue after events none of which has a problem; None once there was one. */
  function QueueAfter(events: seq<Event>): (q: Option<seq<Pending>>)
    requires forall k :: 0 <= k < |events| ==> Possible(events[k])
    ensures q.Some? ==> QueueOk(q.value)
    decreases |events|
  {
    if events == [] then Some([])
    else
      var before, e := QueueAfter(events[..|events| - 1]), events[|events| - 1];
      assert Possible(e);
      if before.None? then None
      else
        match e
        case Notify(a) => Some(before.value + [Pending(a, {})])
        case Check(store, addr, bytes) =>
          if ProblemOf(before.value, store, addr, bytes).None? then Some(Consumed(before.value, addr, |bytes|))
          else None
  }

  function Notified(events: seq<Event>): seq<DSideAccess> {
    if events == [] then []
    else
      var e := events[|events| - 1];
      Notified(events[..|events| - 1]) + if e.Notify? then [e.info] else []
  }

  function BytesOf(store: bool, addr: nat, bytes: seq<Byte>): seq<ByteAccess> {
    seq(|bytes|, i requires 0 <= i < |bytes| => ByteAccess(store, addr + i, bytes[i]))
  }

  function SimulatorBytes(events: seq<Event>): seq<ByteAccess> {
    if events == [] then []
    else
      var e := events[|events| - 1];
      SimulatorBytes(events[..|events| - 1]) + if e.Check? then BytesOf(e.store, e.addr, e.bytes) else []
  }

  function Flatten(groups: seq<seq<ByteAccess>>): seq<ByteAccess> {
    if groups == [] then [] else Flatten(groups[..|groups| - 1]) + groups[|groups| - 1]
  }

  /** The bytes are bytes of access a with its data, one for each of the given lanes. */
  predicate Covers(g: seq<ByteAccess>, a: DSideAccess, lanes: set<nat>) {
    && |a.data| == 4
    && (forall i :: 0 <= i < |g| ==> ByteFits(g[i], a, lanes))
    && (forall i, j :: 0 <= i < j < |g| ==> g[i].addr % 4 != g[j].addr % 4)
    && (forall l :: l in lanes ==> Touched(g, l))
  }

  predicate ByteFits(b: ByteAccess, a: DSideAccess, lanes: set<nat>)
    requires |a.data| == 4
  {
    b.store == a.store && b.addr / 4 * 4 == a.addr && b.addr % 4 in lanes && b.value == a.data[b.addr % 4]
  }

  predicate Touched(g: seq<ByteAccess>, l: nat) {
    exists i :: 0 <= i < |g| && g[i].addr % 4 == l
  }

  function Infos(q: seq<Pending>): seq<DSideAccess> {
    seq(|q|, k requires 0 <= k < |q| => q[k].info)
  }

  /** Only the front is partly matched, and never fully while it waits. */
  predicate OnlyFrontPartial(q: seq<Pending>) {
    && (forall k :: 0 <= k < |q| && (k > 0 || !Misaligned(q[k].info)) ==> q[k].beSpike == {})
    && (q != [] ==> q[0].beSpike <= q[0].info.be && (q[0].info.be != {} ==> q[0].beSpike != q[0].info.be))
  }

  lemma LaneOf(addr: nat, i: nat)
    requires addr % 4 + i < 4
    ensures (addr + i) % 4 == addr % 4 + i && (addr + i) / 4 == addr / 4
  {
  }

  lemma {:induction false} NewBytesFit(a: DSideAccess, store: bool, addr: nat, bytes: seq<Byte>)
    requires 1 <= |bytes| && addr % 4 + |bytes| <= 4 && WellFormed(a) && addr / 4 * 4 == a.addr && store == a.store
    requires DataMatches(a, addr, bytes)
    ensures Covers(BytesOf(store, addr, bytes), a, Lanes(addr, |bytes|))
  {
    hide Lanes;
    var g, lanes := BytesOf(store, addr, bytes), Lanes(addr, |bytes|);
    forall i | 0 <= i < |g| ensures g[i].addr % 4 == addr % 4 + i && ByteFits(g[i], a, lanes) {
      LaneOf(addr, i);
    }
    forall l | l in lanes ensures Touched(g, l) {
      assert g[l - addr % 4].addr % 4 == l;
    }
  }

  lemma CoversMore(g: seq<ByteAccess>, h: seq<ByteAccess>, a: DSideAccess, s: set<nat>, t: set<nat>)
    requires Covers(g, a, s) && Covers(h, a, t) && s * t == {}
    ensures Covers(g + h, a, s + t)
  {
    forall i | 0 <= i < |g + h| ensures ByteFits((g + h)[i], a, s + t) {
      if i < |g| { assert ByteFits(g[i], a, s); } else { assert ByteFits(h[i - |g|], a, t); }
    }
    forall i, j | 0 <= i < j < |g + h| ensures (g + h)[i].addr % 4 != (g + h)[j].addr % 4 {
      if i < |g| <= j {
        assert ByteFits(g[i], a, s) && ByteFits(h[j - |g|], a, t);
        assert g[i].addr % 4 !in s * t;
      }
    }
    forall l | l in s + t ensures Touched(g + h, l) {
      if l in s {
        var i :| 0 <= i < |g| && g[i].addr % 4 == l;
        assert (g + h)[i].addr % 4 == l;
      } else {
        var i :| 0 <= i < |h| && h[i].addr % 4 == l;
        assert (g + h)[|g| + i].addr % 4 == l;
      }
    }
  }

  /** A run without problems and without bus errors so far: the simulator's bytes, in order, are those of
      the design accesses taken from the queue, in order, each enabled byte once and with its data, followed
      by the bytes matched of the front. */
  ghost predicate Matched(events: seq<Event>, q: seq<Pending>, groups: seq<seq<ByteAccess>>, partial: seq<ByteAccess>) {
    && |groups| + |q| == |Notified(events)|
    && Notified(events)[|groups|..] == Infos(q)
    && (forall k :: 0 <= k < |groups| ==> Covers(groups[k], Notified(events)[k], Notified(events)[k].be))
    && (if q == [] then partial == [] else Covers(partial, q[0].info, q[0].beSpike))
    && SimulatorBytes(events) == Flatten(groups) + partial
    && OnlyFrontPartial(q)
  }

  lemma {:induction false} RunMatches(events: seq<Event>)
    returns (groups: seq<seq<ByteAccess>>, partial: seq<ByteAccess>)
    requires forall k :: 0 <= k < |events| ==> Possible(events[k])
    requires forall k :: 0 <= k < |events| && events[k].Notify? ==> !events[k].info.error
    requires QueueAfter(events).Some?
    ensures Matched(events, QueueAfter(events).value, groups, partial)
    decreases |events|
  {
    if events == [] {
      groups, partial := [], [];
    } else {
      var before, e := events[..|events| - 1], events[|events| - 1];
      groups, partial := RunMatches(before);
      var q := QueueAfter(before).value;
      match e
      case Notify(a) =>
        NotifyMatches(before, e, q, groups, partial);
      case Check(store, addr, bytes) =>
        NoErrorsWaiting(before, q, groups, partial);
        groups, partial := CheckMatches(before, e, q, groups, partial);
    }
  }

  lemma NotifyMatches(before: seq<Event>, e: Event, q: seq<Pending>, groups: seq<seq<ByteAccess>>,
                      partial: seq<ByteAccess>)
    requires Matched(before, q, groups, partial) && e.Notify? && WellFormed(e.info)
    ensures Matched(before + [e], q + [Pending(e.info, {})], groups, partial)
  {
    var events, q' := before + [e], q + [Pending(e.info, {})];
    assert events[..|events| - 1] == before;
    assert Notified(events) == Notified(before) + [e.info];
    assert Infos(q') == Infos(q) + [e.info];
    assert Notified(events)[|groups|..] == Notified(before)[|groups|..] + [e.info];
    forall k | 0 <= k < |groups| ensures Covers(groups[k], Notified(events)[k], Notified(events)[k].be) {
      assert Notified(events)[k] == Notified(before)[k];
    }
  }

  lemma {:induction false} NotifiedFrom(events: seq<Event>, k: nat)
    requires k < |Notified(events)|
    ensures exists j :: 0 <= j < |events| && events[j].Notify? && events[j].info == Notified(events)[k]
  {
    var before, e := events[..|events| - 1], events[|events| - 1];
    if k < |Notified(before)| {
      NotifiedFrom(before, k);
      var j :| 0 <= j < |before| && before[j].Notify? && before[j].info == Notified(before)[k];
      assert events[j] == before[j];
    }
  }

  lemma NoErrorsWaiting(events: seq<Event>, q: seq<Pending>, groups: seq<seq<ByteAccess>>, partial: seq<ByteAccess>)
    requires Matched(events, q, groups, partial)
    requires forall k :: 0 <= k < |events| && events[k].Notify? ==> !events[k].info.error
    ensures q != [] ==> !q[0].info.error
  {
    if q != [] {
      assert q[0].info == Infos(q)[0] == Notified(events)[|groups|..][0] == Notified(events)[|groups|];
      NotifiedFrom(events, |groups|);
    }
  }

  lemma {:induction false} CheckMatches(before: seq<Event>, e: Event, q: seq<Pending>, groups: seq<seq<ByteAccess>>,
                                        partial: seq<ByteAccess>)
    returns (groups': seq<seq<ByteAccess>>, partial': seq<ByteAccess>)
    requires Matched(before, q, groups, partial) && e.Check? && Possible(e) && QueueOk(q)
        && (q != [] ==> !q[0].info.error)
    requires ProblemOf(q, e.store, e.addr, e.bytes).None?
    ensures Matched(before + [e], Consumed(q, e.addr, |e.bytes|), groups', partial')
  {
    hide Covers, Lanes, DataMatches, WellFormed;
    var a, lanes, g := q[0].info, Lanes(e.addr, |e.bytes|), BytesOf(e.store, e.addr, e.bytes);
    assert WellFormed(a);
    NewBytesFit(a, e.store, e.addr, e.bytes);
    assert q[0].beSpike * lanes == {};
    CoversMore(partial, g, a, q[0].beSpike, lanes);
    if q[0].beSpike + lanes == a.be {
      groups', partial' := groups + [partial + g], [];
      FrontDone(before, e, q, groups, partial);
      assert Consumed(q, e.addr, |e.bytes|) == q[1..];
    } else {
      groups', partial' := groups, partial + g;
      FrontGrows(before, e, q, groups, partial);
    }
  }

  /** All bytes of the front have been matched. */
  lemma FrontDone(before: seq<Event>, e: Event, q: seq<Pending>, groups: seq<seq<ByteAccess>>,
                  partial: seq<ByteAccess>)
    requires Matched(before, q, groups, partial) && e.Check? && QueueOk(q) && q != []
    requires Covers(partial + BytesOf(e.store, e.addr, e.bytes), q[0].info, q[0].info.be)
    ensures Matched(before + [e], q[1..], groups + [partial + BytesOf(e.store, e.addr, e.bytes)], [])
  {
    hide Covers;
    var events, g := before + [e], BytesOf(e.store, e.addr, e.bytes);
    var groups' := groups + [partial + g];
    assert events[..|events| - 1] == before;
    assert Notified(events) == Notified(before) && SimulatorBytes(events) == SimulatorBytes(before) + g;
    assert q[0].info == Infos(q)[0] == Notified(before)[|groups|..][0] == Notified(before)[|groups|];
    assert Flatten(groups') == Flatten(groups) + (partial + g) by { assert groups'[..|groups|] == groups; }
    assert Infos(q[1..]) == Infos(q)[1..];
    assert Notified(before)[|groups'|..] == Notified(before)[|groups|..][1..];
    FrontGone(q);
    EmptyCover(q[1..]);
  }

  /** Some bytes of the front are still missing. */
  lemma FrontGrows(before: seq<Event>, e: Event, q: seq<Pending>, groups: seq<seq<ByteAccess>>,
                   partial: seq<ByteAccess>)
    requires Matched(before, q, groups, partial) && e.Check? && Possible(e) && QueueOk(q) && q != [] && !q[0].info.error
    requires ProblemOf(q, e.store, e.addr, e.bytes).None?
    requires q[0].beSpike + Lanes(e.addr, |e.bytes|) != q[0].info.be
    requires Covers(partial + BytesOf(e.store, e.addr, e.bytes), q[0].info, q[0].beSpike + Lanes(e.addr, |e.bytes|))
    ensures Matched(before + [e], Consumed(q, e.addr, |e.bytes|), groups, partial + BytesOf(e.store, e.addr, e.bytes))
  {
    hide Covers, Lanes, DataMatches, WellFormed;
    var events, g := before + [e], BytesOf(e.store, e.addr, e.bytes);
    assert events[..|events| - 1] == before;
    assert Notified(events) == Notified(before) && SimulatorBytes(events) == SimulatorBytes(before) + g;
    assert Infos(Consumed(q, e.addr, |e.bytes|)) == Infos(q);
  }

  lemma FrontGone(q: seq<Pending>)
    requires q != [] && OnlyFrontPartial(q)
    ensures OnlyFrontPartial(q[1..])
  {
  }

  lemma EmptyCover(q: seq<Pending>)
    requires QueueOk(q) && (q != [] ==> q[0].beSpike == {})
    ensures q != [] ==> Covers([], q[0].info, q[0].beSpike)
  {
    if q != [] { assert WellFormed(q[0].info); }
  }

  // ------------------------------------------------- matching runs are accepted

  /** Part of a simulator access. */
  datatype Piece = Piece(addr: nat, bytes: seq<Byte>)

  function PieceLanes(pieces: seq<Piece>): set<nat> {
    if pieces == [] then {} else Lanes(pieces[0].addr, |pieces[0].bytes|) + PieceLanes(pieces[1..])
  }

  /** The piece touches enabled bytes of the access that have not been seen, with their data. */
  predicate PieceFits(a: DSideAccess, seen: set<nat>, p: Piece)
    requires WellFormed(a)
  {
    && 1 <= |p.bytes| && p.addr % 4 + |p.bytes| <= 4 && p.addr - p.addr % 4 == a.addr
    && (forall i :: 0 <= i < |p.bytes| ==> p.bytes[i] == a.data[p.addr % 4 + i])
    && Lanes(p.addr, |p.bytes|) <= a.be && Lanes(p.addr, |p.bytes|) * seen == {}
  }

  predicate PiecesFit(a: DSideAccess, seen: set<nat>, pieces: seq<Piece>)
    requires WellFormed(a)
    decreases |pieces|
  {
    pieces != [] ==>
      && PieceFits(a, seen, pieces[0])
      && PiecesFit(a, seen + Lanes(pieces[0].addr, |pieces[0].bytes|), pieces[1..])
  }

  function Checks(store: bool, pieces: seq<Piece>): (es: seq<Event>)
    ensures |es| == |pieces|
  {
    if pieces == [] then []
    else [Check(store, pieces[0].addr, pieces[0].bytes)] + Checks(store, pieces[1..])
  }

  lemma OnePieceAccepted(q: seq<Pending>, p: Piece)
    requires QueueOk(q) && q != [] && WellFormed(q[0].info) && !q[0].info.error
    requires PieceFits(q[0].info, q[0].beSpike, p)
    requires Misaligned(q[0].info) || (q[0].beSpike == {} && Lanes(p.addr, |p.bytes|) == q[0].info.be)
    ensures ProblemOf(q, q[0].info.store, p.addr, p.bytes) == None
    ensures Consumed(q, p.addr, |p.bytes|)
         == if q[0].beSpike + Lanes(p.addr, |p.bytes|) == q[0].info.be then q[1..]
            else [Pending(q[0].info, q[0].beSpike + Lanes(p.addr, |p.bytes|))] + q[1..]
  {
    hide Lanes, QueueOk;
  }

  lemma PieceIsNew(a: DSideAccess, seen: set<nat>, p: Piece)
    requires WellFormed(a) && PieceFits(a, seen, p)
    ensures p.addr % 4 in a.be && p.addr % 4 !in seen
  {
    var lanes := Lanes(p.addr, |p.bytes|);
    assert p.addr % 4 in lanes && p.addr % 4 !in lanes * seen;
  }

  lemma NothingFits(a: DSideAccess, pieces: seq<Piece>)
    requires WellFormed(a) && PiecesFit(a, a.be, pieces)
    ensures pieces == []
  {
    if pieces != [] { PieceIsNew(a, a.be, pieces[0]); }
  }

  predicate AllPossible(events: seq<Event>) {
    forall k :: 0 <= k < |events| ==> Possible(events[k])
  }

  /** The queue once a piece has been accepted. */
  function AfterPiece(q: seq<Pending>, lanes: set<nat>): seq<Pending>
    requires q != []
  {
    if q[0].beSpike + lanes == q[0].info.be then q[1..]
    else [Pending(q[0].info, q[0].beSpike + lanes)] + q[1..]
  }

  lemma PieceStep(before: seq<Event>, q: seq<Pending>, p: Piece)
    requires AllPossible(before) && QueueAfter(before) == Some(q) && q != [] && WellFormed(q[0].info)
    requires !q[0].info.error && PieceFits(q[0].info, q[0].beSpike, p)
    requires Misaligned(q[0].info) || (q[0].beSpike == {} && Lanes(p.addr, |p.bytes|) == q[0].info.be)
    ensures var events := before + [Check(q[0].info.store, p.addr, p.bytes)];
            AllPossible(events) && QueueAfter(events) == Some(AfterPiece(q, Lanes(p.addr, |p.bytes|)))
  {
    OnePieceAccepted(q, p);
    hide Lanes, ProblemOf, Consumed, QueueAfter;
    OneMoreEvent(before, Check(q[0].info.store, p.addr, p.bytes), q);
  }

  /** A split access whose bytes the simulator touches in any pieces, each byte once and with its data, is accepted
      piece by piece, and leaves the queue with the last of its bytes. */
  lemma {:induction false} PiecesAccepted(before: seq<Event>, q: seq<Pending>, pieces: seq<Piece>)
    requires AllPossible(before) && QueueAfter(before) == Some(q) && q != []
    requires WellFormed(q[0].info) && Misaligned(q[0].info) && !q[0].info.error && q[0].beSpike != q[0].info.be
    requires PiecesFit(q[0].info, q[0].beSpike, pieces)
    ensures var events := before + Checks(q[0].info.store, pieces);
            AllPossible(events) && QueueAfter(events) == Some(AfterPiece(q, PieceLanes(pieces)))
    decreases |pieces|
  {
    var a, seen := q[0].info, q[0].beSpike;
    if pieces == [] {
      assert before + [] == before && seen + {} == seen;
      assert q == [Pending(a, seen)] + q[1..];
    } else {
      var p, rest := pieces[0], pieces[1..];
      var e, lanes := Check(a.store, p.addr, p.bytes), Lanes(p.addr, |p.bytes|);
      PieceStep(before, q, p);
      var more, q' := Checks(a.store, rest), AfterPiece(q, lanes);
      assert Checks(a.store, pieces) == [e] + more && PieceLanes(pieces) == lanes + PieceLanes(rest);
      hide Lanes, PieceFits, QueueAfter, Checks, AllPossible;
      Regrouped(before, [e], more);
      if seen + lanes == a.be {
        NothingFits(a, rest);
        NoPieces(a.store);
        assert (before + [e]) + [] == before + [e] && lanes + {} == lanes;
      } else {
        PiecesAccepted(before + [e], q', rest);
        LanesRegrouped(q, lanes, PieceLanes(rest));
      }
    }
  }

  lemma NoPieces(store: bool)
    ensures Checks(store, []) == [] && PieceLanes([]) == {}
  {
  }

  lemma Regrouped(a: seq<Event>, b: seq<Event>, c: seq<Event>)
    ensures a + (b + c) == a + b + c
  {
  }

  lemma LanesRegrouped(q: seq<Pending>, s: set<nat>, t: set<nat>)
    requires q != [] && q[0].beSpike + s != q[0].info.be
    ensures AfterPiece(AfterPiece(q, s), t) == AfterPiece(q, s + t)
  {
    assert (q[0].beSpike + s) + t == q[0].beSpike + (s + t);
  }

  lemma OneMoreEvent(before: seq<Event>, e: Event, q: seq<Pending>)
    requires AllPossible(before) && QueueAfter(before) == Some(q)
    requires Possible(e) && e.Check? && QueueOk(q) && ProblemOf(q, e.store, e.addr, e.bytes) == None
    ensures AllPossible(before + [e]) && QueueAfter(before + [e]) == Some(Consumed(q, e.addr, |e.bytes|))
  {
    hide ProblemOf, Consumed;
    assert (before + [e])[..|before|] == before;
  }

  /** A whole access that the simulator makes with the enabled bytes and their data is accepted and taken. */
  lemma WholeAccepted(before: seq<Event>, q: seq<Pending>, p: Piece)
    requires AllPossible(before) && QueueAfter(before) == Some(q) && q != []
    requires WellFormed(q[0].info) && !Misaligned(q[0].info) && !q[0].info.error && q[0].beSpike == {}
    requires PieceFits(q[0].info, {}, p) && Lanes(p.addr, |p.bytes|) == q[0].info.be
    ensures var events := before + [Check(q[0].info.store, p.addr, p.bytes)];
            AllPossible(events) && QueueAfter(events) == Some(q[1..])
  {
    PieceStep(before, q, p);
    hide PieceFits, QueueAfter, Lanes, AllPossible;
    assert q[0].beSpike + Lanes(p.addr, |p.bytes|) == q[0].info.be;
  }
}
