/**
  The scheduler of proof processes: a stack of pending and a list of running processes, polled with
  whatever memory readings, exit codes and times the machine shows.
 */
module ProcessRunner {
  datatype Option<T> = None | Some(value: T)

  datatype Kill = Uninterested | Restart

  datatype Reason = Finished | TimedOut | Killed

  datatype ProcessResult = ProcessResult(code: Option<int>, reason: Reason, maxMemory: real, time: real)

  /** What one poll sees of a process. */
  datatype Observation = Observation(memory: real, time: real, code: Option<int>)

  function Max(a: real, b: real): real {
    if a > b then a else b
  }

  class Process {
    var expectedMemory: real
    var expectedTime: real
    var timeout: Option<real>
    var kill: Option<Kill>
    var maxMemory: real
    var started: bool
    /** The future: at most one result, none once it is cancelled. */
    var results: seq<ProcessResult>
    var cancelled: bool

    constructor (expectedMemory: real, expectedTime: real, timeout: Option<real>)
      ensures this.expectedMemory == expectedMemory && this.expectedTime == expectedTime && this.timeout == timeout
      ensures kill == None && !started && results == [] && !cancelled && maxMemory == 0.0
    {
      this.expectedMemory, this.expectedTime, this.timeout := expectedMemory, expectedTime, timeout;
      kill, started, results, cancelled, maxMemory := None, false, [], false, 0.0;
    }

    method Start()
      modifies this`started, this`maxMemory
      ensures started && maxMemory == 0.0
    {
      started, maxMemory := true, 0.0;
    }

    method SetKill()
      modifies this`kill
      ensures kill == Some(Uninterested)
    {
      kill := Some(Uninterested);
    }

    /** Overrides a pending request to kill the process for good. */
    method KillRestart()
      modifies this`kill
      ensures kill == Some(Restart)
    {
      kill := Some(Restart);
    }

    /** Delivers a result unless nobody waits for it any more. */
    method SetResult(r: ProcessResult)
      requires results == []
      modifies this`results
      ensures results == if cancelled then [] else [r]
    {
      if !cancelled { results := [r]; }
    }

    /** The process has ended, is to be killed or has run too long. */
    predicate Over(o: Observation)
      reads this
    {
      o.code.Some? || kill.Some? || (timeout.Some? && o.time > timeout.value)
    }

    /** True if the process is no longer running. Only a process that is not to be restarted delivers. */
    method Poll(o: Observation) returns (done: bool)
      requires started && results == []
      modifies this`maxMemory, this`results, this`kill, this`expectedMemory, this`expectedTime
      ensures maxMemory == Max(o.memory, old(maxMemory))
      ensures done <==> old(Over(o))
      ensures done <==> o.code.Some? || old(kill) == Some(Restart) || old(kill) == Some(Uninterested)
                        || (timeout.Some? && o.time > timeout.value)
      ensures done && old(kill) != Some(Restart) ==>
                results == if cancelled then [] else [ResultOf(o, old(kill), timeout, maxMemory)]
      ensures !done || old(kill) == Some(Restart) ==> results == []
      ensures kill == if old(kill) == Some(Restart) then None else old(kill)
      ensures old(kill) != Some(Restart) ==> expectedMemory == old(expectedMemory) && expectedTime == old(expectedTime)
      ensures old(kill) == Some(Restart) ==>
                expectedMemory == Max(old(expectedMemory), maxMemory) && expectedTime == Max(old(expectedTime), o.time)
    {
      assert kill.Some? ==> kill.value.Uninterested? || kill.value.Restart?;
      maxMemory := Max(o.memory, maxMemory);
      if o.code.Some? && kill.None? {
        SetResult(ProcessResult(o.code, Finished, maxMemory, o.time));
        done := true;
      } else if kill == Some(Restart) {
        kill := None;
        expectedMemory := Max(expectedMemory, maxMemory);
        expectedTime := Max(expectedTime, o.time);
        done := true;
      } else if timeout.Some? && o.time > timeout.value {
        SetResult(ProcessResult(None, TimedOut, maxMemory, o.time));
        done := true;
      } else if kill == Some(Uninterested) {
        SetResult(ProcessResult(None, Killed, maxMemory, o.time));
        done := true;
      } else {
        done := false;
      }
    }

    static function ResultOf(o: Observation, kill: Option<Kill>, timeout: Option<real>,
        maxMemory: real): ProcessResult {
      if o.code.Some? && kill.None? then ProcessResult(o.code, Finished, maxMemory, o.time)
      else if timeout.Some? && o.time > timeout.value then ProcessResult(None, TimedOut, maxMemory, o.time)
      else ProcessResult(None, Killed, maxMemory, o.time)
    }

    /** A process that has ended by itself, with nobody wanting it killed, is reported as finished with its exit code;
        one beyond its time as timed out; any other as killed, always with the memory and time it took. */
    static lemma ResultMeans(o: Observation, kill: Option<Kill>, timeout: Option<real>, maxMemory: real)
      requires kill != Some(Restart)
      ensures var r := ResultOf(o, kill, timeout, maxMemory);
              && (r.reason == Finished <==> o.code.Some? && kill == None)
              && (r.reason == TimedOut <==> (o.code.None? || kill == Some(Uninterested))
                                            && timeout.Some? && o.time > timeout.value)
              && (r.reason == Killed <==> (o.code.None? || kill == Some(Uninterested))
                                          && !(timeout.Some? && o.time > timeout.value))
              && r.code == (if r.reason == Finished then o.code else None)
              && r.maxMemory == maxMemory && r.time == o.time
    {
      match kill
      case None =>
      case Some(Uninterested) =>
      case Some(Restart) =>
    }
  }

  predicate NoDuplicates(ps: seq<Process>) {
    forall i, j :: 0 <= i < j < |ps| ==> ps[i] != ps[j]
  }

  const BUFFER: real := 5.0

  /** The top n of a stack, topmost first. */
  function Popped(stack: seq<Process>, n: nat): (top: seq<Process>)
    requires n <= |stack|
    ensures |top| == n
  {
    seq(n, k requires 0 <= k < n => stack[|stack| - 1 - k])
  }

  lemma OneMorePopped(stack: seq<Process>, n: nat)
    requires n < |stack|
    ensures Popped(stack, n + 1) == Popped(stack, n) + [stack[|stack| - 1 - n]]
  {
  }

  lemma PoppedAt(stack: seq<Process>, n: nat)
    requires n <= |stack|
    ensures forall k :: 0 <= k < n ==> Popped(stack, n)[k] == stack[|stack| - 1 - k]
  {
  }

  /** The processes that are not in s, in order. */
  function Without(ps: seq<Process>, s: set<Process>): (r: seq<Process>)
    ensures forall k :: 0 <= k < |r| ==> r[k] in ps && r[k] !in s
  {
    if ps == [] then []
    else
      var r, last := Without(ps[..|ps| - 1], s), ps[|ps| - 1];
      if last in s then r else r + [last]
  }

  lemma WithoutStep(ps: seq<Process>, j: nat, s: set<Process>)
    requires j < |ps|
    ensures Without(ps[..j + 1], s) == Without(ps[..j], s) + if ps[j] in s then [] else [ps[j]]
  {
    assert ps[..j + 1][..j] == ps[..j];
  }

  lemma {:induction false} SameWithout(ps: seq<Process>, s: set<Process>, t: set<Process>)
    requires forall p :: p in ps ==> (p in s <==> p in t)
    ensures Without(ps, s) == Without(ps, t)
  {
    if ps != [] { SameWithout(ps[..|ps| - 1], s, t); }
  }

  /** Dropping element k, or stepping over it, leaves the same rest as stepping over element j. */
  lemma NextOfBoth(a: seq<Process>, k: nat, b: seq<Process>, j: nat)
    requires k < |a| && j <= |b| && a[k..] == b[j..]
    ensures j < |b| && a[k] == b[j] && a[k + 1..] == b[j + 1..] && b[..j + 1] == b[..j] + [b[j]]
    ensures (a[..k] + a[k + 1..])[k..] == a[k + 1..] && (a[..k] + a[k + 1..])[..k] == a[..k]
    ensures a[..k + 1] == a[..k] + [a[k]]
  {
    assert a[k] == a[k..][0] && b[j] == b[j..][0];
    assert a[k + 1..] == a[k..][1..] && b[j + 1..] == b[j..][1..];
  }

  lemma BothDone(a: seq<Process>, k: nat, b: seq<Process>, j: nat)
    requires k == |a| && j <= |b| && a[k..] == b[j..]
    ensures b[..j] == b && a[..k] == a
  {
    assert |b[j..]| == 0;
  }

  lemma BothStart(a: seq<Process>)
    ensures a[..0] == [] && a[0..] == a
  {
  }

  lemma KilledOnStack(pending: seq<Process>, running: seq<Process>, n: nat)
    requires n <= |running|
    ensures forall k :: 0 <= k < n ==> Popped(running, n)[k] in Stacked(pending, running, n)
  {
    assert forall k :: 0 <= k < n ==> Stacked(pending, running, n)[|pending| + k] == Popped(running, n)[k];
  }

  lemma NothingStacked(pending: seq<Process>, running: seq<Process>)
    ensures Stacked(pending, running, 0) == pending && Popped(running, 0) == [] && running[..|running|] == running
  {
  }

  lemma AtLeastThree(x: real)
    ensures Max(x, 3.0) >= 3.0 && (x + BUFFER - Max(x, 3.0) >= 2.0 || x < 0.0)
  {
  }

  lemma SumGrows(xs: seq<real>, x: real)
    ensures Sum(xs + [x]) == Sum(xs) + x
  {
    assert (xs + [x])[..|xs|] == xs;
  }

  /** What a poll may see of each process, chosen by the machine. */
  type Sight = Process -> Observation

  class ProcessRunner {
    var pending: seq<Process>
    var running: seq<Process>
    const maxRunning: int
    const noKill: bool
    /** All processes ever appended, and those that are done. */
    ghost var all: set<Process>
    ghost var finished: set<Process>

    /** Every process is in exactly one place. */
    ghost predicate Placed()
      reads this
    {
      && NoDuplicates(pending) && NoDuplicates(running)
      && (forall p :: p in pending ==> p in all && p !in running && p !in finished)
      && (forall p :: p in running ==> p in all && p !in finished)
      && finished <= all
      && (forall p :: p in all ==> p in pending || p in running || p in finished)
    }

    /** No result before the end, one at the end unless nobody waits. */
    ghost predicate Delivered()
      reads this, all
    {
      && (forall p :: p in all && p !in finished ==>
          p.results == [] && p.kill != Some(Restart) && p.expectedMemory >= 0.0)
      && (forall p :: p in all && p in finished ==> |p.results| <= 1 && (!p.cancelled ==> |p.results| == 1))
      && (forall p :: p in all && p in running ==> p.started)
    }

    ghost predicate Valid()
      reads this, all
    {
      Placed() && Delivered() && |running| <= if maxRunning > 0 then maxRunning else 0
    }

    constructor (maxRunning: int, noKill: bool)
      ensures Valid() && all == {} && finished == {} && this.maxRunning == maxRunning && this.noKill == noKill
    {
      this.maxRunning, this.noKill := maxRunning, noKill;
      pending, running, all, finished := [], [], {}, {};
    }

    /** A new process waits at the bottom of the stack. */
    method Append(p: Process)
      requires Valid() && p !in all
      requires p.results == [] && p.kill != Some(Restart) && p.expectedMemory >= 0.0
      modifies this
      ensures Valid() && all == old(all) + {p} && finished == old(finished)
      ensures pending == [p] + old(pending) && running == old(running)
    {
      pending := [p] + pending;
      all := all + {p};
    }

    /** Takes the most recently started process off the machine; it will be started again first, even if it was
        to be killed for good: that request is lost. */
    method KillLast(free: real, see: Sight) returns (free': real)
      requires Valid() && |running| > 1
      modifies this`pending, this`running, all
      ensures Valid() && all == old(all) && finished == old(finished)
      ensures running == old(running)[..|old(running)| - 1]
      ensures pending == old(pending) + [old(running)[|old(running)| - 1]]
      ensures free' == free + Max(old(running[|running| - 1].maxMemory), 3.0)
      ensures old(running)[|old(running)| - 1].kill == None
      ensures forall p :: p in old(pending) ==> unchanged(p)
      ensures forall p :: p in finished ==> unchanged(p)
    {
      var last := running[|running| - 1];
      running := running[..|running| - 1];
      last.KillRestart();
      free' := free + Max(last.maxMemory, 3.0);
      var done := last.Poll(see(last));
      pending := pending + [last];
    }

    /** Starts the process on top of the stack. */
    method StartLast()
      requires Valid() && pending != [] && |running| < maxRunning
      modifies this`pending, this`running, all
      ensures Valid() && all == old(all) && finished == old(finished)
      ensures pending == old(pending)[..|old(pending)| - 1]
      ensures running == old(running) + [old(pending)[|old(pending)| - 1]]
      ensures forall p :: p in finished ==> unchanged(p)
      ensures forall p :: p in all ==> p.expectedMemory == old(p.expectedMemory) && p.kill == old(p.kill)
      ensures running[|running| - 1] in all && running[|running| - 1].expectedMemory >= 0.0
    {
      var last := pending[|pending| - 1];
      assert last in pending && last !in running;
      pending := pending[..|pending| - 1];
      last.Start();
      running := running + [last];
    }

    /** Starts processes from the top of the stack while there are slots and memory, each reserving what it
        is expected to need, 3 GB at least. Returns what is left of the free memory. */
    method StartSome(free: real) returns (left: real, ghost reserved: seq<real>)
      requires Valid()
      modifies this`pending, this`running, all
      ensures Valid() && all == old(all) && finished == old(finished)
      ensures forall p :: p in finished ==> unchanged(p)
      ensures |reserved| <= |old(pending)| && pending == old(pending)[..|old(pending)| - |reserved|]
      ensures running == old(running) + Popped(old(pending), |reserved|)
      ensures forall k :: 0 <= k < |reserved| ==>
          reserved[k] == Max(old(pending[|pending| - 1 - k].expectedMemory), 3.0)
      ensures forall p :: p in all ==> p.expectedMemory == old(p.expectedMemory) && p.kill == old(p.kill)
      ensures left == free - Sum(reserved) && (reserved != [] ==> left > 2.0)
      ensures |running| >= maxRunning || pending == [] || left <= pending[|pending| - 1].expectedMemory + BUFFER
    {
      hide Placed, Delivered, Valid, Max, Popped;
      left, reserved := free, [];
      ghost var stack, before := pending, running;
      while |running| < maxRunning && |pending| > 0 && left > pending[|pending| - 1].expectedMemory + BUFFER
        invariant Valid() && all == old(all) && finished == old(finished)
        invariant forall p :: p in finished ==> unchanged(p)
        invariant forall p :: p in all ==> p.expectedMemory == old(p.expectedMemory) && p.kill == old(p.kill)
        invariant |reserved| <= |stack| && pending == stack[..|stack| - |reserved|]
        invariant running == before + Popped(stack, |reserved|)
        invariant forall k :: 0 <= k < |reserved| ==>
            reserved[k] == Max(old(pending[|pending| - 1 - k].expectedMemory), 3.0)
        invariant left == free - Sum(reserved) && (reserved != [] ==> left > 2.0)
        decreases |pending|
      {
        var last := pending[|pending| - 1];
        StartLast();
        AtLeastThree(last.expectedMemory);
        left := left - Max(last.expectedMemory, 3.0);
        SumGrows(reserved, Max(last.expectedMemory, 3.0));
        OneMorePopped(stack, |reserved|);
        reserved := reserved + [Max(last.expectedMemory, 3.0)];
      }
    }

    /** Polls process k of the running ones and drops it if it is done. */
    method PollOne(k: nat, see: Sight) returns (done: bool)
      requires Valid() && k < |running|
      modifies this`running, this`finished, all
      ensures Valid() && all == old(all) && pending == old(pending)
      ensures done ==> running == old(running)[..k] + old(running)[k + 1..]
      ensures done ==> finished == old(finished) + {old(running)[k]}
      ensures !done ==> running == old(running) && finished == old(finished)
      ensures done <==> old(running[k].Over(see(running[k])))
      ensures forall p :: p in all && p != old(running)[k] ==> unchanged(p)
      ensures forall p :: p in all ==> p.expectedMemory == old(p.expectedMemory) && p.kill == old(p.kill)
    {
      var p := running[k];
      done := p.Poll(see(p));
      if done {
        running := running[..k] + running[k + 1..];
        finished := finished + {p};
      }
    }

    lemma AllKnown(ps: seq<Process>)
      requires Valid() && ps == pending
      ensures forall k :: 0 <= k < |ps| ==> ps[k] in all
    {
    }

    lemma RunningIsNotFinished()
      requires Valid()
      ensures NoDuplicates(running) && forall p :: p in running ==> p in all && p !in finished
    {
    }

    /** Drops exactly the processes that have ended, were to be killed or have run too long; the others keep
        their order. */
    method DropFinished(see: Sight)
      requires Valid()
      modifies this`running, this`finished, all
      ensures Valid() && all == old(all) && pending == old(pending)
      ensures forall p :: p in old(finished) ==> unchanged(p)
      ensures forall p :: p in all ==> p.expectedMemory == old(p.expectedMemory) && p.kill == old(p.kill)
      ensures running == Without(old(running), finished)
      ensures finished == old(finished) + set p | p in old(running) && old(p.Over(see(p)))
    {
      ghost var before, over := running, set p | p in running && p.Over(see(p));
      RunningIsNotFinished();
      hide Placed, Delivered, Valid, Without, Process.Over;
      var k := 0;
      ghost var j := 0;
      BothStart(running);
      while k < |running|
        invariant 0 <= k <= |running| && Valid() && all == old(all) && pending == old(pending)
        invariant forall p :: p in old(finished) ==> p in finished && unchanged(p)
        invariant forall p :: p in all ==> p.expectedMemory == old(p.expectedMemory) && p.kill == old(p.kill)
        invariant j <= |before| && running[k..] == before[j..] && running[..k] == Without(before[..j], over)
        invariant forall i :: j <= i < |before| ==> (before[i].Over(see(before[i])) <==> before[i] in over)
        invariant forall p :: p in finished <==> p in old(finished) || (p in before[..j] && p in over)
        decreases |running| - k
      {
        ghost var was := running;
        WithoutStep(before, j, over);
        NextOfBoth(was, k, before, j);
        var done := PollOne(k, see);
        if !done { k := k + 1; }
        j := j + 1;
      }
      BothDone(running, k, before, j);
      SameWithout(before, over, finished);
    }

    /** Kills from the most recently started while memory is short and more than one process runs. A process that
        was to be killed for good is among those to be started again. */
    method KillSome(memAvail: real, see: Sight) returns (free: real, ghost killed: nat)
      requires Valid()
      modifies this`pending, this`running, all
      ensures Valid() && all == old(all) && finished == old(finished)
      ensures forall p :: p in finished ==> unchanged(p)
      ensures killed <= |old(running)| && running == old(running)[..|old(running)| - killed]
      ensures pending == Stacked(old(pending), old(running), killed)
      ensures forall p :: p in Popped(old(running), killed) ==> p.kill == None
      ensures free >= memAvail + 3.0 * killed as real && (killed == 0 ==> free == memAvail)
      ensures killed > 0 ==> !noKill && memAvail < BUFFER && |running| >= 1
      ensures noKill || free >= BUFFER || |running| <= 1
    {
      hide Placed, Delivered, Popped;
      free, killed := memAvail, 0;
      NothingStacked(pending, running);
      while !noKill && free < BUFFER && |running| > 1
        invariant Valid() && all == old(all) && finished == old(finished)
        invariant forall p :: p in finished ==> unchanged(p)
        invariant killed <= |old(running)| && running == old(running)[..|old(running)| - killed]
        invariant pending == Stacked(old(pending), old(running), killed)
        invariant forall p :: p in Popped(old(running), killed) ==> p.kill == None
        invariant free >= memAvail + 3.0 * killed as real && (killed == 0 ==> free == memAvail)
        invariant killed > 0 ==> !noKill && memAvail < BUFFER && |running| >= 1
        decreases |running|
      {
        OneMorePopped(old(running), killed);
        KilledOnStack(old(pending), old(running), killed);
        free := KillLast(free, see);
        killed := killed + 1;
      }
    }

    /** One poll: free memory by killing from the most recently started, start what fits, drop what is done.
        What is killed goes on top of the stack of pending processes, from which the processes started are
        taken. Killing stops at one process or enough memory, and what is newly reserved, the expected need
        of each process started and at least 3 GB, leaves more than 2 GB of the memory there is then. */
    method Poll(memAvail: real, see: Sight, seeAgain: Sight)
      returns (ghost killed: nat, ghost free: real, ghost started: seq<Process>, ghost reserved: seq<real>)
      requires Valid()
      modifies this`pending, this`running, this`finished, all
      ensures Valid() && all == old(all) && old(finished) <= finished
      ensures forall p :: p in old(finished) ==> unchanged(p)
      ensures killed <= |old(running)| && |started| <= |old(pending)| + killed
      ensures pending == Stacked(old(pending), old(running), killed)[..|old(pending)| + killed - |started|]
      ensures started == Popped(Stacked(old(pending), old(running), killed), |started|)
      ensures running == Without(old(running)[..|old(running)| - killed] + started, finished)
      ensures forall p :: p in finished ==>
                p in old(finished) || p in old(running)[..|old(running)| - killed] || p in started
      ensures free >= memAvail + 3.0 * killed as real
      ensures killed == 0 ==> free == memAvail
      ensures noKill ==> killed == 0
      ensures noKill || free >= BUFFER || |old(running)| - killed <= 1
      ensures killed > 0 ==> memAvail < BUFFER && |old(running)| - killed >= 1
      ensures |reserved| == |started| && (reserved != [] ==> free - Sum(reserved) > 2.0)
      ensures forall k :: 0 <= k < |reserved| ==> reserved[k] == Max(started[k].expectedMemory, 3.0)
      ensures forall p :: p in Popped(old(running), killed) ==> p.kill == None
    {
      hide Placed, Delivered, Popped, Without, Stacked;
      var now;
      now, killed := KillSome(memAvail, see);
      free := now;
      ghost var stack := pending;
      AllKnown(stack);
      KilledOnStack(old(pending), old(running), killed);
      now, reserved := StartSome(now);
      started := Popped(stack, |reserved|);
      PoppedAt(stack, |reserved|);
      DropFinished(seeAgain);
    }
  }

  /** The stack of pending processes once the last n running ones have been killed. */
  function Stacked(pending: seq<Process>, running: seq<Process>, n: nat): (s: seq<Process>)
    requires n <= |running|
    ensures |s| == |pending| + n
  {
    pending + Popped(running, n)
  }

  function Sum(xs: seq<real>): real {
    if xs == [] then 0.0 else Sum(xs[..|xs| - 1]) + xs[|xs| - 1]
  }
}
