/** The per-tunnel health machine and its meaning as a function of the probes it accepted. */
module TunnelHealth {
  import opened Basics

  datatype TunnelState = Unknown | Healthy | Suspect | Failed | Recovering

  datatype Sample = Sample(
    sequence: int, timestamp: real,
    linkUp: bool, underlayReachable: bool, wireguardUp: bool, overlayReachable: bool)
  {
    predicate Usable() {
      linkUp && underlayReachable && wireguardUp && overlayReachable
    }
  }

  datatype Health = Health(
    state: TunnelState, successes: nat, failures: nat,
    lastSequence: int, holdDownUntil: real, lastSuccess: Option<real>)

  const INITIAL := Health(Unknown, 0, 0, -1, 0.0, None)

  datatype Thresholds = Thresholds(suspect: int, failed: int, recovery: int, holdDown: real, staleAfter: real)
  {
    predicate Valid() {
      0 < suspect < failed && recovery > 0 && holdDown >= 0.0 && staleAfter > 0.0
    }
  }

  predicate Stale(t: Thresholds, h: Health, s: Sample, now: real) {
    s.sequence <= h.lastSequence || now - s.timestamp > t.staleAfter
  }

  /** The record that replaces `h` when sample `s` is accepted at time `now`. */
  function Accept(t: Thresholds, h: Health, s: Sample, now: real): Health {
    if s.Usable() then
      var successes := h.successes + 1;
      var state :=
        if h.state.Failed? then Recovering
        else if h.state.Recovering? then
          if successes >= t.recovery && now >= h.holdDownUntil then Healthy else Recovering
        else Healthy;
      Health(state, successes, 0, s.sequence, h.holdDownUntil, Some(s.timestamp))
    else
      var failures := h.failures + 1;
      var state :=
        if failures >= t.failed then Failed
        else if failures >= t.suspect then Suspect
        else h.state;
      Health(state, 0, failures, s.sequence, Max(h.holdDownUntil, now + t.holdDown), h.lastSuccess)
  }

  /** One observation as the monitoring loop sees it: a stale sample leaves the record alone. */
  function Observe(t: Thresholds, h: Health, s: Sample, now: real): Health {
    if Stale(t, h, s, now) then h else Accept(t, h, s, now)
  }

  datatype ObserveResult = Accepted(health: Health) | StaleMeasurement

  // ----- the machine

  datatype Observation = Observation(sample: Sample, now: real)

  class TunnelHealthMachine {
    const thresholds: Thresholds
    var health: Health
    ghost var accepted: seq<Observation>

    ghost predicate Valid()
      reads this
    {
      thresholds.Valid() && health == Replay(thresholds, accepted)
    }

    constructor (thresholds: Thresholds)
      requires thresholds.Valid()
      ensures Valid() && this.thresholds == thresholds && accepted == [] && health == INITIAL
    {
      this.thresholds := thresholds;
      health := INITIAL;
      accepted := [];
    }

    method ObserveSample(s: Sample, now: real) returns (r: ObserveResult)
      requires Valid()
      modifies this
      ensures Valid()
      ensures health == Observe(thresholds, old(health), s, now)
      ensures r.StaleMeasurement? <==>
              s.sequence <= old(health).lastSequence || now - s.timestamp > thresholds.staleAfter
      ensures r.Accepted? ==> health.lastSequence == s.sequence
      ensures r.Accepted? ==>
                (health.failures == 0 <==> s.linkUp && s.underlayReachable && s.wireguardUp && s.overlayReachable) &&
                health.lastSuccess == if health.failures == 0 then Some(s.timestamp) else old(health).lastSuccess
      ensures r.StaleMeasurement? ==> accepted == old(accepted)
      ensures r.Accepted? ==> r.health == health && accepted == old(accepted) + [Observation(s, now)]
    {
      if s.sequence <= health.lastSequence {
        return StaleMeasurement;
      }
      if now - s.timestamp > thresholds.staleAfter {
        return StaleMeasurement;
      }
      var before := health;
      accepted := accepted + [Observation(s, now)];
      assert accepted[..|accepted| - 1] == old(accepted);
      if s.Usable() {
        var state: TunnelState;
        if before.state == Failed {
          state := Recovering;
        } else if before.state == Recovering {
          if before.successes + 1 >= thresholds.recovery && now >= before.holdDownUntil {
            state := Healthy;
          } else {
            state := Recovering;
          }
        } else {
          state := Healthy;
        }
        health := Health(state, before.successes + 1, 0, s.sequence, before.holdDownUntil, Some(s.timestamp));
        return Accepted(health);
      }
      var failures := before.failures + 1;
      var state := before.state;
      if failures >= thresholds.failed {
        state := Failed;
      } else if failures >= thresholds.suspect {
        state := Suspect;
      }
      health := Health(state, 0, failures, s.sequence, Max(before.holdDownUntil, now + thresholds.holdDown),
        before.lastSuccess);
      return Accepted(health);
    }
  }

  // ----- meaning of the record in terms of the accepted history

  function Replay(t: Thresholds, hist: seq<Observation>): Health
  {
    if hist == [] then INITIAL
    else
      var last := hist[|hist| - 1];
      Accept(t, Replay(t, hist[..|hist| - 1]), last.sample, last.now)
  }

  /** Length of the longest suffix whose samples are all usable, or all unusable. */
  function TrailingRun(hist: seq<Observation>, usable: bool): nat
  {
    if hist == [] || hist[|hist| - 1].sample.Usable() != usable then 0
    else 1 + TrailingRun(hist[..|hist| - 1], usable)
  }

  /** Every past failure is at least the hold-down old at `now`. */
  ghost predicate HoldDownClear(t: Thresholds, hist: seq<Observation>, now: real) {
    now >= 0.0 &&
    forall i :: 0 <= i < |hist| && !hist[i].sample.Usable() ==> now >= hist[i].now + t.holdDown
  }

  /** The recovery gate, judged on a history that ends in a usable sample. */
  ghost predicate GateOpen(t: Thresholds, hist: seq<Observation>)
    requires hist != []
  {
    TrailingRun(hist, true) >= t.recovery && HoldDownClear(t, hist, hist[|hist| - 1].now)
  }

  /** At the end of `hist` the tunnel is not suspect, and unless the failure streak ended with its very last sample,
      that sample did not open the gate. */
  ghost predicate Waiting(t: Thresholds, hist: seq<Observation>, justEnded: bool)
    requires hist != []
  {
    TrailingRun(hist, false) < t.suspect &&
    (!justEnded && hist[|hist| - 1].sample.Usable() ==> !GateOpen(t, hist))
  }

  /** A failure streak ended with the usable sample at `p`, and since then the tunnel has neither become suspect again
      nor passed the recovery gate. */
  ghost predicate RecoveringFrom(t: Thresholds, hist: seq<Observation>, p: nat) {
    p < |hist| &&
    TrailingRun(hist[..p], false) >= t.failed && hist[p].sample.Usable() &&
    forall q :: p < q <= |hist| ==> Waiting(t, hist[..q], q == p + 1)
  }

  lemma {:induction false} CountersFromHistory(t: Thresholds, hist: seq<Observation>, now: real)
    ensures Replay(t, hist).failures == TrailingRun(hist, false)
    ensures Replay(t, hist).successes == TrailingRun(hist, true)
    ensures now >= Replay(t, hist).holdDownUntil <==> HoldDownClear(t, hist, now)
  {
    if hist != [] {
      var init, last := hist[..|hist| - 1], hist[|hist| - 1];
      CountersFromHistory(t, init, now);
      assert forall i :: 0 <= i < |init| ==> hist[i] == init[i];
      assert HoldDownClear(t, hist, now) <==>
        HoldDownClear(t, init, now) && (!last.sample.Usable() ==> now >= last.now + t.holdDown);
    }
  }

  /** FAILED, SUSPECT and UNKNOWN are each decided by the history's tail alone. */
  lemma {:induction false} ThresholdStatesFromHistory(t: Thresholds, hist: seq<Observation>)
    requires t.Valid()
    ensures Replay(t, hist).state == Failed <==> TrailingRun(hist, false) >= t.failed
    ensures Replay(t, hist).state == Suspect <==> t.suspect <= TrailingRun(hist, false) < t.failed
    ensures Replay(t, hist).state == Unknown <==> TrailingRun(hist, false) == |hist| < t.suspect
  {
    if hist != [] {
      var init := hist[..|hist| - 1];
      ThresholdStatesFromHistory(t, init);
      CountersFromHistory(t, init, 0.0);
    }
  }

  lemma RecoveringFromExtends(t: Thresholds, hist: seq<Observation>, p: nat)
    requires hist != [] && p < |hist| - 1
    ensures RecoveringFrom(t, hist, p) <==>
              RecoveringFrom(t, hist[..|hist| - 1], p) && Waiting(t, hist, false)
  {
    var init := hist[..|hist| - 1];
    forall q | 0 <= q <= |init|
      ensures init[..q] == hist[..q]
    {
    }
    assert hist[..|hist|] == hist;
  }

  /** RECOVERING is exactly a failure streak that ended and whose gate has not opened since; every other history with a
      short failure tail and a usable sample is HEALTHY. */
  lemma {:induction false} RecoveringFromHistory(t: Thresholds, hist: seq<Observation>)
    requires t.Valid()
    ensures Replay(t, hist).state == Recovering <==> exists p: nat :: RecoveringFrom(t, hist, p)
  {
    if hist != [] {
      var n := |hist| - 1;
      var init, last := hist[..n], hist[n];
      RecoveringFromHistory(t, init);
      ThresholdStatesFromHistory(t, init);
      ThresholdStatesFromHistory(t, hist);
      CountersFromHistory(t, init, last.now);
      CountersFromHistory(t, hist, last.now);
      forall p: nat | p < n
        ensures RecoveringFrom(t, hist, p) <==>
          RecoveringFrom(t, init, p) && Waiting(t, hist, false)
      {
        RecoveringFromExtends(t, hist, p);
      }
      assert hist[..n + 1] == hist;
      assert RecoveringFrom(t, hist, n) <==> TrailingRun(init, false) >= t.failed && last.sample.Usable();
      assert last.sample.Usable() ==>
        (HoldDownClear(t, hist, last.now) <==> last.now >= Replay(t, init).holdDownUntil);
      if Replay(t, hist).state == Recovering {
        if Replay(t, init).state == Recovering {
          var p: nat :| RecoveringFrom(t, init, p);
          assert RecoveringFrom(t, hist, p);
        } else {
          assert RecoveringFrom(t, hist, n);
        }
      }
      if p: nat :| RecoveringFrom(t, hist, p) {
        if p < n {
          assert RecoveringFrom(t, init, p);
        }
      }
    }
  }

  /** How a tunnel enters HEALTHY: through the gate from RECOVERING, and with no gate at all when the history so far is
      too short to matter or its failure tail sits between the two thresholds -- including a tail that interrupted a
      recovery. */
  lemma HealthyEntry(t: Thresholds, hist: seq<Observation>, e: Observation)
    requires t.Valid()
    requires Replay(t, hist).state != Healthy
    ensures Replay(t, hist + [e]).state == Healthy <==>
              e.sample.Usable() &&
              (|hist| == TrailingRun(hist, false) < t.suspect
               || t.suspect <= TrailingRun(hist, false) < t.failed
               || (Replay(t, hist).state == Recovering && GateOpen(t, hist + [e])))
  {
    var ext := hist + [e];
    assert ext[..|ext| - 1] == hist;
    ThresholdStatesFromHistory(t, hist);
    CountersFromHistory(t, hist, e.now);
    CountersFromHistory(t, ext, e.now);
  }

  // ----- probes as they arrive

  /** The record after a machine has been offered these samples, of which it refuses the stale ones. */
  function Feed(t: Thresholds, offered: seq<Observation>): Health {
    if offered == [] then INITIAL
    else
      var last := offered[|offered| - 1];
      Observe(t, Feed(t, offered[..|offered| - 1]), last.sample, last.now)
  }

  function LastSequence(offered: seq<Observation>): int {
    if offered == [] then -1 else offered[|offered| - 1].sample.sequence
  }

  /** Sequence numbers increase and every sample is fresh when it arrives. */
  ghost predicate InOrder(t: Thresholds, offered: seq<Observation>) {
    offered != [] ==>
      var init, last := offered[..|offered| - 1], offered[|offered| - 1];
      InOrder(t, init) && last.sample.sequence > LastSequence(init) && last.now - last.sample.timestamp <= t.staleAfter
  }

  /** Samples in order are all accepted, so the machine's history is exactly what was offered. */
  lemma {:induction false} InOrderIsAccepted(t: Thresholds, offered: seq<Observation>)
    requires InOrder(t, offered)
    ensures Feed(t, offered) == Replay(t, offered) && Feed(t, offered).lastSequence == LastSequence(offered)
  {
    if offered != [] {
      InOrderIsAccepted(t, offered[..|offered| - 1]);
    }
  }

  /** The samples a machine should take from those offered: newer than any it has taken, and fresh on arrival. */
  function Kept(t: Thresholds, offered: seq<Observation>): seq<Observation> {
    if offered == [] then []
    else
      var kept, last := Kept(t, offered[..|offered| - 1]), offered[|offered| - 1];
      var newer, recent := last.sample.sequence > LastSequence(kept), last.now - last.sample.timestamp <= t.staleAfter;
      if newer && recent then kept + [last] else kept
  }

  /** Whatever is offered, the record is that of exactly those samples: the ones taken are in order, and every other is
      refused as old or out of order. */
  lemma {:induction false} OfferedIsFiltered(t: Thresholds, offered: seq<Observation>)
    ensures Feed(t, offered) == Replay(t, Kept(t, offered)) && InOrder(t, Kept(t, offered))
    ensures Feed(t, offered).lastSequence == LastSequence(Kept(t, offered))
  {
    if offered != [] {
      var init, last := offered[..|offered| - 1], offered[|offered| - 1];
      OfferedIsFiltered(t, init);
      var kept := Kept(t, init);
      assert (kept + [last])[..|kept|] == kept;
    }
  }

  lemma InOrderOne(t: Thresholds, offered: seq<Observation>, e: Observation)
    requires InOrder(t, offered) && e.sample.sequence > LastSequence(offered) &&
             e.now - e.sample.timestamp <= t.staleAfter
    ensures InOrder(t, offered + [e]) && LastSequence(offered + [e]) == e.sample.sequence
  {
    assert (offered + [e])[..|offered|] == offered;
  }

  lemma FeedOne(t: Thresholds, offered: seq<Observation>, e: Observation)
    ensures Feed(t, offered + [e]) == Observe(t, Feed(t, offered), e.sample, e.now)
  {
    assert (offered + [e])[..|offered|] == offered;
  }

  /** Probe number `k`, one second apart, all of whose checks succeed or fail. */
  function Probe(k: nat, good: bool): Observation {
    Observation(Sample(k, k as real, good, good, good, good), k as real)
  }

  /** The gate can be skipped: offered in order, so that the machine accepts every one of them, these probes make it
      fail, start to recover, turn suspect, and then HEALTHY on one good probe, with fewer consecutive successes than
      required and inside the hold-down. */
  lemma RecoveryGateCanBeSkipped() returns (t: Thresholds, hist: seq<Observation>, e: Observation)
    ensures t.Valid() && |hist| == 5 && e.sample.Usable() && InOrder(t, hist + [e])
    ensures Feed(t, hist[..3]).state == Failed && Feed(t, hist[..4]).state == Recovering
    ensures Feed(t, hist).state == Suspect
    ensures Feed(t, hist + [e]).state == Healthy && !GateOpen(t, hist + [e])
  {
    t := Thresholds(1, 3, 5, 100.0, 10.0);
    var p0, p1, p2, p3, p4, p5 := Probe(0, false), Probe(1, false), Probe(2, false), Probe(3, true), Probe(4, false),
      Probe(5, true);
    var h3 := [p0] + [p1] + [p2];
    var h4 := h3 + [p3];
    hist, e := h4 + [p4], p5;
    assert [] + [p0] == [p0] && hist[..3] == h3 && hist[..4] == h4;
    FeedOne(t, [], p0);
    FeedOne(t, [p0], p1);
    FeedOne(t, [p0] + [p1], p2);
    FeedOne(t, h3, p3);
    FeedOne(t, h4, p4);
    FeedOne(t, hist, p5);
    InOrderOne(t, [], p0);
    InOrderOne(t, [p0], p1);
    InOrderOne(t, [p0] + [p1], p2);
    InOrderOne(t, h3, p3);
    InOrderOne(t, h4, p4);
    InOrderOne(t, hist, p5);
    assert Feed(t, hist + [e]).successes == 1;
    InOrderIsAccepted(t, hist + [e]);
    CountersFromHistory(t, hist + [e], 0.0);
  }

  // ----- what one observation cannot do

  /** The part of the history theorem the failover loop relies on. */
  predicate Consistent(t: Thresholds, h: Health) {
    (h.state == Failed <==> h.failures >= t.failed) &&
    (h.state == Suspect <==> t.suspect <= h.failures < t.failed)
  }

  lemma ReplayConsistent(t: Thresholds, hist: seq<Observation>)
    requires t.Valid()
    ensures Consistent(t, Replay(t, hist))
  {
    ThresholdStatesFromHistory(t, hist);
    CountersFromHistory(t, hist, 0.0);
  }

  /** No observation takes a tunnel from FAILED to HEALTHY, nor from HEALTHY to FAILED. */
  lemma NoJump(t: Thresholds, h: Health, s: Sample, now: real)
    requires t.Valid() && Consistent(t, h)
    ensures Consistent(t, Observe(t, h, s, now))
    ensures h.state == Failed ==> Observe(t, h, s, now).state != Healthy
    ensures h.state == Healthy ==> Observe(t, h, s, now).state != Failed
  {
  }
}
