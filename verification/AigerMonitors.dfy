/**
  The monitor circuits that replace live and fair cells, over infinite runs: what their outputs being
  true infinitely often means for the watched signals.
 */
module AigerMonitors {
  type Stream = nat -> bool

  ghost predicate HoldsFrom(s: Stream, t: nat) {
    exists u: nat :: u >= t && s(u)
  }

  ghost predicate InfinitelyOften(s: Stream) {
    forall t: nat :: HoldsFrom(s, t)
  }

  // ---------------------------------------------------------------- liveness

  /** First latch of a live monitor: an enabled moment has been sampled before cycle t. */
  predicate Sampled(s: Stream, en: Stream, t: nat) {
    t > 0 && ((s(t - 1) && en(t - 1)) || Sampled(s, en, t - 1))
  }

  /** Second latch: a has held at or after the sampled moment. */
  predicate Served(s: Stream, en: Stream, a: Stream, t: nat) {
    t > 0 && ((Sampled(s, en, t) && a(t - 1)) || Served(s, en, a, t - 1))
  }

  /** The justice output of a live monitor. */
  function Unserved(s: Stream, en: Stream, a: Stream): Stream {
    (t: nat) => Sampled(s, en, t) && !Served(s, en, a, t)
  }

  /** From some enabled moment on, a never holds. */
  ghost predicate LiveViolated(en: Stream, a: Stream) {
    exists t: nat :: en(t) && NeverFrom(a, t)
  }

  ghost predicate NeverFrom(a: Stream, t: nat) {
    forall u: nat :: u >= t ==> !a(u)
  }

  lemma {:induction false} SampledStays(s: Stream, en: Stream, t: nat, u: nat)
    requires t <= u && Sampled(s, en, t)
    ensures Sampled(s, en, u)
  {
    if t < u { SampledStays(s, en, t, u - 1); }
  }

  lemma {:induction false} ServedStays(s: Stream, en: Stream, a: Stream, t: nat, u: nat)
    requires t <= u && Served(s, en, a, t)
    ensures Served(s, en, a, u)
  {
    if t < u { ServedStays(s, en, a, t, u - 1); }
  }

  lemma {:induction false} SampledAt(s: Stream, en: Stream, t: nat) returns (t0: nat)
    requires Sampled(s, en, t)
    ensures t0 < t && s(t0) && en(t0)
  {
    if s(t - 1) && en(t - 1) { t0 := t - 1; } else { t0 := SampledAt(s, en, t - 1); }
  }

  lemma {:induction false} NotServed(t0: nat, s: Stream, en: Stream, a: Stream, t: nat)
    requires NeverFrom(a, t0) && forall u: nat :: u < t0 ==> !s(u)
    ensures !Served(s, en, a, t)
  {
    if t > 0 {
      NotServed(t0, s, en, a, t - 1);
      if Sampled(s, en, t) { var u := SampledAt(s, en, t); }
    }
  }

  lemma UnservedForever(s: Stream, en: Stream, a: Stream)
    requires InfinitelyOften(Unserved(s, en, a))
    ensures LiveViolated(en, a)
  {
    var out := Unserved(s, en, a);
    assert HoldsFrom(out, 0);
    var u: nat :| u >= 0 && out(u);
    var t0 := SampledAt(s, en, u);
    forall x: nat | x >= t0 ensures !a(x) {
      if a(x) {
        assert Sampled(s, en, t0 + 1);
        SampledStays(s, en, t0 + 1, x + 1);
        assert Served(s, en, a, x + 1);
        assert HoldsFrom(out, x + 1);
        var y: nat :| y >= x + 1 && out(y);
        ServedStays(s, en, a, x + 1, y);
      }
    }
    assert NeverFrom(a, t0);
  }

  /** Sampling the right moment keeps the justice output true from then on. */
  lemma SampleTheViolation(en: Stream, a: Stream) returns (s: Stream)
    requires LiveViolated(en, a)
    ensures InfinitelyOften(Unserved(s, en, a))
  {
    var t0: nat :| en(t0) && NeverFrom(a, t0);
    s := (t: nat) => t == t0;
    var out := Unserved(s, en, a);
    forall t: nat ensures HoldsFrom(out, t) {
      var u := t + t0 + 1;
      assert Sampled(s, en, t0 + 1);
      SampledStays(s, en, t0 + 1, u);
      NotServed(t0, s, en, a, u);
      assert u >= t && out(u);
    }
  }

  /** The justice output can be made true infinitely often exactly when liveness is violated. */
  lemma LivenessMonitorIsExact(en: Stream, a: Stream)
    ensures (exists s: Stream :: InfinitelyOften(Unserved(s, en, a))) <==> LiveViolated(en, a)
  {
    if LiveViolated(en, a) {
      var s := SampleTheViolation(en, a);
      assert InfinitelyOften(Unserved(s, en, a));
    }
    if s: Stream :| InfinitelyOften(Unserved(s, en, a)) {
      UnservedForever(s, en, a);
    }
  }

  // ---------------------------------------------------------------- fairness

  /** The latch of a fair monitor: an enabled moment before cycle t still waits for a. */
  predicate Waiting(en: Stream, a: Stream, t: nat) {
    t > 0 && (Waiting(en, a, t - 1) || en(t - 1)) && !a(t - 1)
  }

  /** Every enabled moment is followed by a moment at which a holds. */
  ghost predicate FairHolds(en: Stream, a: Stream) {
    forall t: nat :: en(t) ==> HoldsFrom(a, t)
  }

  lemma {:induction false} WaitingSince(en: Stream, a: Stream, t: nat) returns (t0: nat)
    requires Waiting(en, a, t)
    ensures t0 < t && en(t0) && forall u: nat :: t0 <= u < t ==> !a(u)
  {
    if en(t - 1) { t0 := t - 1; } else { t0 := WaitingSince(en, a, t - 1); }
  }

  lemma {:induction false} WaitingStays(en: Stream, a: Stream, t: nat, u: nat)
    requires t < u && en(t) && forall x: nat :: t <= x < u ==> !a(x)
    ensures Waiting(en, a, u)
  {
    if t + 1 < u { WaitingStays(en, a, t, u - 1); }
  }

  /** The fairness output of a fair monitor. */
  function Idle(en: Stream, a: Stream): Stream {
    (t: nat) => !Waiting(en, a, t)
  }

  /** The fairness output is true infinitely often exactly when every enabled moment is followed by a. */
  lemma FairnessMonitorIsExact(en: Stream, a: Stream)
    ensures InfinitelyOften(Idle(en, a)) <==> FairHolds(en, a)
  {
    var out := Idle(en, a);
    if FairHolds(en, a) {
      forall t: nat ensures HoldsFrom(out, t) {
        if Waiting(en, a, t) {
          var t0 := WaitingSince(en, a, t);
          assert HoldsFrom(a, t0);
          var u: nat :| u >= t0 && a(u);
          assert u + 1 >= t && out(u + 1);
        } else {
          assert t >= t && out(t);
        }
      }
    }
    if InfinitelyOften(out) {
      forall t: nat | en(t) ensures HoldsFrom(a, t) {
        assert HoldsFrom(out, t + 1);
        var u: nat :| u >= t + 1 && out(u);
        if forall x: nat :: t <= x < u ==> !a(x) { WaitingStays(en, a, t, u); }
      }
    }
  }
}
