/** What the selector's answers mean, for one request and over whole runs of requests. */
module PathSelectionRuns {
  import opened Basics
  import opened PathSelection

  // ----- scores

  lemma ScaledOrder(k: real, x: real, y: real)
    requires k > 0.0
    ensures k * x <= k * y <==> x <= y
  {
    assert k * y - k * x == k * (y - x);
  }

  lemma DividedOrder(x: real, y: real, d: real)
    requires d > 0.0
    ensures x / d <= y / d <==> x <= y
  {
    assert (x / d) * d == x && (y / d) * d == y;
    ScaledOrder(d, x / d, y / d);
  }

  lemma QuotientOrder(n: real, a: real, b: real)
    requires n > 0.0 && a > 0.0 && b > 0.0
    ensures n / b <= n / a <==> a <= b
  {
    var x, y := n / a, n / b;
    assert a * x == n && b * y == n;
    ScaledOrder(b, y, x);
    ScaledOrder(x, a, b);
    assert x * a == a * x && x * b == b * x;
  }

  lemma RatioOrder(reference: real, a: real, b: real)
    requires reference > 0.0 && a <= b
    ensures Ratio(Some(reference), Some(b), 1.0) <= Ratio(Some(reference), Some(a), 1.0) <==> !(a <= 0.0 < b < 1.0)
  {
    var da, db := if a > 0.0 then a else 1.0, if b > 0.0 then b else 1.0;
    QuotientOrder(reference, da, db);
  }

  /** More available bandwidth never scores worse, except from a non-positive estimate to a positive one below 1 Mbit/s:
      a non-positive estimate is scored as if it were 1. */
  lemma BandwidthMonotone(item: Measurement, a: real, b: real, sla: Sla, w: Weights)
    requires w.Valid() && w.bandwidth > 0.0 && item.capacity > 0.0 && a <= b
    requires sla.minBandwidth.Some? ==> sla.minBandwidth.value >= 0.0
    ensures Score(item.(bandwidth := Some(b)), sla, w) <= Score(item.(bandwidth := Some(a)), sla, w) <==>
            !(a <= 0.0 < b < 1.0)
  {
    var ra := Ratio(Some(BandwidthReference(item, sla)), Some(a), 1.0);
    var rb := Ratio(Some(BandwidthReference(item, sla)), Some(b), 1.0);
    RatioOrder(BandwidthReference(item, sla), a, b);
    MeanOrder(w, Ratio(item.rtt, sla.maxRtt, 100.0), Ratio(item.jitter, sla.maxJitter, 20.0),
      Ratio(item.loss, sla.maxLoss, 1.0),
              rb, ra, Max(0.0, item.cost));
  }

  lemma MeanOrder(w: Weights, rtt: real, jitter: real, loss: real, x: real, y: real, cost: real)
    requires w.Sum() > 0.0 && w.bandwidth > 0.0
    ensures WeightedMean(w, rtt, jitter, loss, x, cost) <= WeightedMean(w, rtt, jitter, loss, y, cost) <==> x <= y
  {
    var before, after := w.rtt * rtt + w.jitter * jitter + w.loss * loss, w.cost * cost;
    ScaledOrder(w.bandwidth, x, y);
    DividedOrder(before + w.bandwidth * x + after, before + w.bandwidth * y + after, w.Sum());
  }

  /** `share` is a measured value in units of its reference: none of it below zero, two units if it is missing. */
  predicate IsShare(share: real, value: Option<real>, reference: real)
    requires reference > 0.0
  {
    (value.None? ==> share == 2.0) &&
    (value.Some? && value.value <= 0.0 ==> share == 0.0) &&
    (value.Some? && value.value > 0.0 ==> share == value.value / reference)
  }

  function Reference(limit: Option<real>, otherwise: real): (r: real)
    requires otherwise > 0.0
    ensures r > 0.0
  {
    if limit.Some? && limit.value > 0.0 then limit.value else otherwise
  }

  lemma RatioIsShare(value: Option<real>, limit: Option<real>, otherwise: real)
    requires otherwise > 0.0
    ensures IsShare(Ratio(value, limit, otherwise), value, Reference(limit, otherwise))
  {
    if value.Some? {
      DividedOrder(0.0, value.value, Reference(limit, otherwise));
      DividedOrder(value.value, 0.0, Reference(limit, otherwise));
    }
  }

  /** The score is the weighted mean of the measured values, each in units of the limit that applies to it, or of 100
      ms, 20 ms and 1 percent where none does; of the wanted bandwidth in units of the available one; and of the cost.
      */
  lemma ScoreMeaning(item: Measurement, sla: Sla, w: Weights)
    returns (rtt: real, jitter: real, loss: real, bandwidth: real, cost: real)
    requires w.Valid()
    ensures IsShare(rtt, item.rtt, Reference(sla.maxRtt, 100.0))
    ensures IsShare(jitter, item.jitter, Reference(sla.maxJitter, 20.0))
    ensures IsShare(loss, item.loss, Reference(sla.maxLoss, 1.0))
    ensures var wanted := if sla.minBandwidth.Some? && sla.minBandwidth.value != 0.0 then sla.minBandwidth.value
                          else item.capacity;
            IsShare(bandwidth, Some(wanted), Reference(item.bandwidth, 1.0))
    ensures cost >= 0.0 && cost >= item.cost && (cost == 0.0 || cost == item.cost)
    ensures Score(item, sla, w) ==
            (w.rtt * rtt + w.jitter * jitter + w.loss * loss + w.bandwidth * bandwidth + w.cost * cost) /
            (w.rtt + w.jitter + w.loss + w.bandwidth + w.cost)
  {
    rtt, jitter := Ratio(item.rtt, sla.maxRtt, 100.0), Ratio(item.jitter, sla.maxJitter, 20.0);
    loss, cost := Ratio(item.loss, sla.maxLoss, 1.0), Max(0.0, item.cost);
    bandwidth := Ratio(Some(BandwidthReference(item, sla)), item.bandwidth, 1.0);
    RatioIsShare(item.rtt, sla.maxRtt, 100.0);
    RatioIsShare(item.jitter, sla.maxJitter, 20.0);
    RatioIsShare(item.loss, sla.maxLoss, 1.0);
    RatioIsShare(Some(BandwidthReference(item, sla)), item.bandwidth, 1.0);
    MeanMeaning(w, rtt, jitter, loss, bandwidth, cost);
  }

  lemma MeanMeaning(w: Weights, rtt: real, jitter: real, loss: real, bandwidth: real, cost: real)
    requires w.Valid()
    ensures WeightedMean(w, rtt, jitter, loss, bandwidth, cost) ==
            (w.rtt * rtt + w.jitter * jitter + w.loss * loss + w.bandwidth * bandwidth + w.cost * cost) /
            (w.rtt + w.jitter + w.loss + w.bandwidth + w.cost)
  {
  }

  /** Both values are measured, and `a` is at most `b`. */
  predicate Measured(a: Option<real>, b: Option<real>) { a.Some? && b.Some? && 0.0 <= a.value <= b.value }

  lemma ShareOrder(a: Option<real>, b: Option<real>, limit: Option<real>, otherwise: real)
    requires otherwise > 0.0 && Measured(a, b)
    ensures Ratio(a, limit, otherwise) <= Ratio(b, limit, otherwise)
    ensures a != b ==> Ratio(a, limit, otherwise) < Ratio(b, limit, otherwise)
  {
    var d := Reference(limit, otherwise);
    DividedOrder(a.value, b.value, d);
    DividedOrder(b.value, a.value, d);
    DividedOrder(0.0, a.value, d);
    DividedOrder(0.0, b.value, d);
  }

  /** Of two measurements with the same bandwidth figures, one that is nowhere worse in round trip, jitter, loss and
      cost never scores worse, and scores strictly better if it is better in one that has weight. */
  lemma BetterMeasurementScoresBetter(a: Measurement, b: Measurement, sla: Sla, w: Weights)
    requires w.Valid() && a.bandwidth == b.bandwidth && a.capacity == b.capacity && 0.0 <= a.cost <= b.cost
    requires Measured(a.rtt, b.rtt) && Measured(a.jitter, b.jitter) && Measured(a.loss, b.loss)
    ensures Score(a, sla, w) <= Score(b, sla, w)
    ensures (w.rtt > 0.0 && a.rtt != b.rtt) || (w.jitter > 0.0 && a.jitter != b.jitter) ||
            (w.loss > 0.0 && a.loss != b.loss) || (w.cost > 0.0 && a.cost != b.cost) ==>
              Score(a, sla, w) < Score(b, sla, w)
  {
    ShareOrder(a.rtt, b.rtt, sla.maxRtt, 100.0);
    ShareOrder(a.jitter, b.jitter, sla.maxJitter, 20.0);
    ShareOrder(a.loss, b.loss, sla.maxLoss, 1.0);
    MeansOrder(w, Ratio(a.rtt, sla.maxRtt, 100.0), Ratio(b.rtt, sla.maxRtt, 100.0),
      Ratio(a.jitter, sla.maxJitter, 20.0), Ratio(b.jitter, sla.maxJitter, 20.0),
      Ratio(a.loss, sla.maxLoss, 1.0), Ratio(b.loss, sla.maxLoss, 1.0),
      Ratio(Some(BandwidthReference(a, sla)), a.bandwidth, 1.0), a.cost, b.cost);
  }

  lemma RttOrder(w: Weights, x: real, y: real, jitter: real, loss: real, bandwidth: real, cost: real)
    requires w.Sum() > 0.0 && w.rtt > 0.0
    ensures WeightedMean(w, x, jitter, loss, bandwidth, cost) <= WeightedMean(w, y, jitter, loss, bandwidth, cost) <==>
            x <= y
  {
    var before, after := 0.0, w.jitter * jitter + w.loss * loss + w.bandwidth * bandwidth + w.cost * cost;
    ScaledOrder(w.rtt, x, y);
    DividedOrder(before + w.rtt * x + after, before + w.rtt * y + after, w.Sum());
  }

  lemma RttStep(w: Weights, x: real, y: real, jitter: real, loss: real, bandwidth: real, cost: real)
    requires w.Valid() && x <= y
    ensures WeightedMean(w, x, jitter, loss, bandwidth, cost) <= WeightedMean(w, y, jitter, loss, bandwidth, cost)
    ensures w.rtt > 0.0 && x < y ==>
              WeightedMean(w, x, jitter, loss, bandwidth, cost) < WeightedMean(w, y, jitter, loss, bandwidth, cost)
  {
    if w.rtt > 0.0 {
      RttOrder(w, x, y, jitter, loss, bandwidth, cost);
      RttOrder(w, y, x, jitter, loss, bandwidth, cost);
    } else {
      assert w.rtt * x == w.rtt * y;
    }
  }

  lemma JitterOrder(w: Weights, x: real, y: real, rtt: real, loss: real, bandwidth: real, cost: real)
    requires w.Sum() > 0.0 && w.jitter > 0.0
    ensures WeightedMean(w, rtt, x, loss, bandwidth, cost) <= WeightedMean(w, rtt, y, loss, bandwidth, cost) <==> x <= y
  {
    var before, after := w.rtt * rtt, w.loss * loss + w.bandwidth * bandwidth + w.cost * cost;
    ScaledOrder(w.jitter, x, y);
    DividedOrder(before + w.jitter * x + after, before + w.jitter * y + after, w.Sum());
  }

  lemma JitterStep(w: Weights, x: real, y: real, rtt: real, loss: real, bandwidth: real, cost: real)
    requires w.Valid() && x <= y
    ensures WeightedMean(w, rtt, x, loss, bandwidth, cost) <= WeightedMean(w, rtt, y, loss, bandwidth, cost)
    ensures w.jitter > 0.0 && x < y ==>
              WeightedMean(w, rtt, x, loss, bandwidth, cost) < WeightedMean(w, rtt, y, loss, bandwidth, cost)
  {
    if w.jitter > 0.0 {
      JitterOrder(w, x, y, rtt, loss, bandwidth, cost);
      JitterOrder(w, y, x, rtt, loss, bandwidth, cost);
    } else {
      assert w.jitter * x == w.jitter * y;
    }
  }

  lemma LossOrder(w: Weights, x: real, y: real, rtt: real, jitter: real, bandwidth: real, cost: real)
    requires w.Sum() > 0.0 && w.loss > 0.0
    ensures WeightedMean(w, rtt, jitter, x, bandwidth, cost) <= WeightedMean(w, rtt, jitter, y, bandwidth, cost) <==>
            x <= y
  {
    var before, after := w.rtt * rtt + w.jitter * jitter, w.bandwidth * bandwidth + w.cost * cost;
    ScaledOrder(w.loss, x, y);
    DividedOrder(before + w.loss * x + after, before + w.loss * y + after, w.Sum());
  }

  lemma LossStep(w: Weights, x: real, y: real, rtt: real, jitter: real, bandwidth: real, cost: real)
    requires w.Valid() && x <= y
    ensures WeightedMean(w, rtt, jitter, x, bandwidth, cost) <= WeightedMean(w, rtt, jitter, y, bandwidth, cost)
    ensures w.loss > 0.0 && x < y ==>
              WeightedMean(w, rtt, jitter, x, bandwidth, cost) < WeightedMean(w, rtt, jitter, y, bandwidth, cost)
  {
    if w.loss > 0.0 {
      LossOrder(w, x, y, rtt, jitter, bandwidth, cost);
      LossOrder(w, y, x, rtt, jitter, bandwidth, cost);
    } else {
      assert w.loss * x == w.loss * y;
    }
  }

  lemma CostOrder(w: Weights, x: real, y: real, rtt: real, jitter: real, loss: real, bandwidth: real)
    requires w.Sum() > 0.0 && w.cost > 0.0
    ensures WeightedMean(w, rtt, jitter, loss, bandwidth, x) <= WeightedMean(w, rtt, jitter, loss, bandwidth, y) <==>
            x <= y
  {
    var before, after := w.rtt * rtt + w.jitter * jitter + w.loss * loss + w.bandwidth * bandwidth, 0.0;
    ScaledOrder(w.cost, x, y);
    DividedOrder(before + w.cost * x + after, before + w.cost * y + after, w.Sum());
  }

  lemma CostStep(w: Weights, x: real, y: real, rtt: real, jitter: real, loss: real, bandwidth: real)
    requires w.Valid() && x <= y
    ensures WeightedMean(w, rtt, jitter, loss, bandwidth, x) <= WeightedMean(w, rtt, jitter, loss, bandwidth, y)
    ensures w.cost > 0.0 && x < y ==>
              WeightedMean(w, rtt, jitter, loss, bandwidth, x) < WeightedMean(w, rtt, jitter, loss, bandwidth, y)
  {
    if w.cost > 0.0 {
      CostOrder(w, x, y, rtt, jitter, loss, bandwidth);
      CostOrder(w, y, x, rtt, jitter, loss, bandwidth);
    } else {
      assert w.cost * x == w.cost * y;
    }
  }

  lemma MeansOrder(w: Weights, r1: real, r2: real, j1: real, j2: real, l1: real, l2: real, other: real, c1: real,
                   c2: real)
    requires w.Valid() && r1 <= r2 && j1 <= j2 && l1 <= l2 && c1 <= c2
    ensures WeightedMean(w, r1, j1, l1, other, c1) <= WeightedMean(w, r2, j2, l2, other, c2)
    ensures (w.rtt > 0.0 && r1 < r2) || (w.jitter > 0.0 && j1 < j2) || (w.loss > 0.0 && l1 < l2) ||
            (w.cost > 0.0 && c1 < c2) ==>
              WeightedMean(w, r1, j1, l1, other, c1) < WeightedMean(w, r2, j2, l2, other, c2)
  {
    RttStep(w, r1, r2, j1, l1, other, c1);
    JitterStep(w, j1, j2, r2, l1, other, c1);
    LossStep(w, l1, l2, r2, j2, other, c1);
    CostStep(w, c1, c2, r2, j2, l2, other);
  }

  // ----- what a measurement must be for its path to be considered

  /** Policy permits the path, it is enabled and reachable, and its measurement is not too old. */
  predicate Admissible(t: Tuning, req: Request, m: Measurement) {
    m.egress in req.allowed && m.transport in req.transports && m.enabled && m.reachable &&
    req.now - m.measuredAt <= t.staleAfter
  }

  lemma HardRejectionsMeaning(t: Tuning, req: Request, m: Measurement)
    ensures HardRejections(t, req, m) == [] <==> Admissible(t, req, m)
    ensures var rs := HardRejections(t, req, m);
            && (EgressNotAllowed in rs <==> m.egress !in req.allowed)
            && (TransportNotCandidate in rs <==> m.transport !in req.transports)
            && (AdministrativelyDisabled in rs <==> !m.enabled)
            && (PathDown in rs <==> !m.reachable)
            && (MeasurementStale in rs <==> req.now - m.measuredAt > t.staleAfter)
  {
  }

  /** Candidates are ranked by score, then by path. */
  predicate NoWorse(a: Scored, b: Scored) { a.score < b.score || (a.score == b.score && a.m.path <= b.m.path) }

  lemma OrderKeyMeaning(a: Scored, b: Scored)
    ensures LexLe(OrderKey(a), OrderKey(b)) <==> NoWorse(a, b)
  {
    assert OrderKey(a)[1..] == [a.m.path as real] && OrderKey(b)[1..] == [b.m.path as real];
    assert LexLe([a.m.path as real], [b.m.path as real]) <==> a.m.path <= b.m.path by {
      assert [a.m.path as real][1..] == [];
    }
  }

  // ----- hysteresis as a function of the evaluated samples

  function FoldFrom(t: Tuning, s: SlaState, hist: seq<seq<Reason>>): SlaState
    decreases |hist|
  {
    if hist == [] then s else FoldFrom(t, Advance(t, s, hist[0]), hist[1..])
  }

  lemma {:induction false} FoldAppend(t: Tuning, s: SlaState, a: seq<seq<Reason>>, b: seq<seq<Reason>>)
    ensures FoldFrom(t, s, a + b) == FoldFrom(t, FoldFrom(t, s, a), b)
    decreases |a|
  {
    if a == [] {
      assert a + b == b;
    } else {
      assert (a + b)[1..] == a[1..] + b;
      FoldAppend(t, Advance(t, s, a[0]), a[1..], b);
    }
  }

  lemma FoldSnoc(t: Tuning, hist: seq<seq<Reason>>)
    requires hist != []
    ensures FoldFrom(t, FRESH, hist) == Advance(t, FoldFrom(t, FRESH, hist[..|hist| - 1]), hist[|hist| - 1])
  {
    var init, last := hist[..|hist| - 1], hist[|hist| - 1];
    assert hist == init + [last];
    FoldAppend(t, FRESH, init, [last]);
    var s := FoldFrom(t, FRESH, init);
    assert [last][1..] == [];
    assert FoldFrom(t, s, [last]) == Advance(t, s, last);
  }

  /** Length of the longest suffix of samples that all violate the SLA, or all meet it. */
  function TrailingRun(hist: seq<seq<Reason>>, violating: bool): nat {
    if hist == [] || (hist[|hist| - 1] != []) != violating then 0
    else 1 + TrailingRun(hist[..|hist| - 1], violating)
  }

  /** A run of `badSamples` violations ended at `p`, and no run of `goodSamples` clean samples has ended since. */
  ghost predicate DegradedSince(t: Tuning, hist: seq<seq<Reason>>, p: nat) {
    p <= |hist| && TrailingRun(hist[..p], true) >= t.badSamples && CleanRunsBelow(hist, p, t.goodSamples)
  }

  ghost predicate CleanRunsBelow(hist: seq<seq<Reason>>, p: nat, bound: int) {
    forall q :: p <= q <= |hist| ==> TrailingRun(hist[..q], false) < bound
  }

  ghost predicate DegradedHistory(t: Tuning, hist: seq<seq<Reason>>) {
    exists p: nat :: DegradedSince(t, hist, p)
  }

  lemma CleanRunsExtend(hist: seq<seq<Reason>>, p: nat, bound: int)
    requires hist != [] && p <= |hist|
    ensures CleanRunsBelow(hist, p, bound) <==>
            CleanRunsBelow(hist[..|hist| - 1], p, bound) && TrailingRun(hist, false) < bound
  {
    var init := hist[..|hist| - 1];
    assert hist[..|hist|] == hist;
    assert forall q :: 0 <= q <= |init| ==> init[..q] == hist[..q];
  }

  lemma DegradedSinceExtends(t: Tuning, hist: seq<seq<Reason>>, p: nat)
    requires hist != [] && p < |hist|
    ensures DegradedSince(t, hist, p) <==>
              DegradedSince(t, hist[..|hist| - 1], p) && TrailingRun(hist, false) < t.goodSamples
  {
    var init := hist[..|hist| - 1];
    assert init[..p] == hist[..p];
    CleanRunsExtend(hist, p, t.goodSamples);
  }

  /** The counters are the lengths of the trailing runs; the degraded flag is the history condition above; and a
      degraded record always names a violation. */
  lemma {:induction false} DegradedFromHistory(t: Tuning, hist: seq<seq<Reason>>)
    requires t.Valid()
    ensures var s := FoldFrom(t, FRESH, hist);
            && s.bad == TrailingRun(hist, true)
            && (s.degraded <==> DegradedHistory(t, hist))
            && (s.degraded ==> s.good == TrailingRun(hist, false) < t.goodSamples)
            && (s.degraded ==> s.violations != [])
  {
    var n := |hist|;
    if n == 0 {
      assert forall p: nat :: p <= 0 ==> hist[..p] == [];
    } else {
      var init, last := hist[..n - 1], hist[n - 1];
      DegradedFromHistory(t, init);
      FoldSnoc(t, hist);
      var before, after := FoldFrom(t, FRESH, init), FoldFrom(t, FRESH, hist);
      assert hist[..n] == hist;
      forall p: nat | p < n
        ensures DegradedSince(t, hist, p) <==> DegradedSince(t, init, p) && TrailingRun(hist, false) < t.goodSamples
      {
        DegradedSinceExtends(t, hist, p);
      }
      assert DegradedSince(t, hist, n) <==>
        TrailingRun(hist, true) >= t.badSamples && TrailingRun(hist, false) < t.goodSamples;
      if after.degraded {
        if before.degraded {
          var p: nat :| DegradedSince(t, init, p);
          assert DegradedSince(t, hist, p);
        } else {
          assert DegradedSince(t, hist, n);
        }
      } else if before.degraded {
        assert TrailingRun(hist, false) >= t.goodSamples;
        forall p: nat
          ensures !DegradedSince(t, hist, p)
        {
        }
      } else {
        forall p: nat
          ensures !DegradedSince(t, hist, p)
        {
          assert !DegradedSince(t, init, p);
        }
      }
    }
  }

  // ----- runs of requests

  datatype Call = Call(flow: FlowKey, req: Request)
  {
    predicate Refused() { req.allowed == [] || req.transports == [] }
  }

  ghost predicate ValidCalls(calls: seq<Call>) {
    forall k :: 0 <= k < |calls| ==> calls[k].req.weights.Valid()
  }

  const EMPTY := State(map[], map[])

  function StepCall(t: Tuning, st: State, c: Call): State
    requires c.req.weights.Valid()
  {
    if c.Refused() then st else Next(t, st, c.flow, c.req)
  }

  function RunState(t: Tuning, calls: seq<Call>): State
    requires ValidCalls(calls)
  {
    if calls == [] then EMPTY
    else
      var n := |calls| - 1;
      StepCall(t, RunState(t, calls[..n]), calls[n])
  }

  /** The violations of the samples of `path` that were evaluated, in order: hard-rejected samples do not count. */
  function Samples(t: Tuning, req: Request, items: seq<Measurement>, path: Name): seq<seq<Reason>> {
    if items == [] then []
    else
      (if items[0].path == path && Admissible(t, req, items[0]) then [Violations(items[0], req.sla)] else [])
      + Samples(t, req, items[1..], path)
  }

  function CallSamples(t: Tuning, c: Call, flow: FlowKey, path: Name): seq<seq<Reason>> {
    if c.Refused() || c.flow != flow then [] else Samples(t, c.req, c.req.measurements, path)
  }

  function History(t: Tuning, calls: seq<Call>, flow: FlowKey, path: Name): seq<seq<Reason>> {
    if calls == [] then []
    else
      var n := |calls| - 1;
      History(t, calls[..n], flow, path) + CallSamples(t, calls[n], flow, path)
  }

  lemma {:induction false} EvaluateAllFolds(t: Tuning, flow: FlowKey, req: Request, current: Option<Name>,
                                            items: seq<Measurement>, table: SlaTable, k: SlaKey)
    requires req.weights.Valid()
    ensures Lookup(EvaluateAll(t, flow, req, current, items, table).1, k) ==
            FoldFrom(t, Lookup(table, k), if k.flow == flow then Samples(t, req, items, k.path) else [])
  {
    if items != [] {
      var after := EvaluatedTable(t, flow, req, items[0], table);
      EvaluateAllFolds(t, flow, req, current, items[1..], after, k);
      if k.flow == flow {
        HardRejectionsMeaning(t, req, items[0]);
        var first := if items[0].path == k.path && Admissible(t, req, items[0]) then [Violations(items[0], req.sla)]
          else [];
        FoldAppend(t, Lookup(table, k), first, Samples(t, req, items[1..], k.path));
        assert Lookup(after, k) == FoldFrom(t, Lookup(table, k), first);
      }
    }
  }

  /** After any run, each flow-and-path record is the fold of exactly its evaluated samples. */
  lemma {:induction false} RecordIsItsHistory(t: Tuning, calls: seq<Call>, flow: FlowKey, path: Name)
    requires ValidCalls(calls)
    ensures Lookup(RunState(t, calls).sla, SlaKey(flow, path)) == FoldFrom(t, FRESH, History(t, calls, flow, path))
  {
    if calls != [] {
      var n := |calls| - 1;
      var init, c := calls[..n], calls[n];
      RecordIsItsHistory(t, init, flow, path);
      var st := RunState(t, init);
      if !c.Refused() {
        EvaluateAllFolds(t, c.flow, c.req, PathOf(Selected(st, c.flow)), c.req.measurements, st.sla,
          SlaKey(flow, path));
      }
      FoldAppend(t, FRESH, History(t, init, flow, path), CallSamples(t, c, flow, path));
    }
  }

  /** Over every run, a path is degraded for a flow exactly when its evaluated samples say so. */
  lemma DegradedOverRuns(t: Tuning, calls: seq<Call>, flow: FlowKey, path: Name)
    requires t.Valid() && ValidCalls(calls)
    ensures var s := Lookup(RunState(t, calls).sla, SlaKey(flow, path));
            && (s.degraded <==> DegradedHistory(t, History(t, calls, flow, path)))
            && (s.degraded ==> s.violations != [])
  {
    RecordIsItsHistory(t, calls, flow, path);
    DegradedFromHistory(t, History(t, calls, flow, path));
  }

  // ----- what a verdict says about its measurement

  predicate Soft(r: Reason) { r.SlaViolation? || r.MeasurementUnavailable? }

  ghost predicate AllSoft(rs: seq<Reason>) {
    forall k :: 0 <= k < |rs| ==> Soft(rs[k])
  }

  ghost predicate RecordInv(s: SlaState) {
    (s.degraded ==> s.violations != []) && AllSoft(s.violations)
  }

  /** Records hold only SLA violations, and a degraded record holds at least one. */
  ghost predicate TableInv(table: SlaTable) {
    forall k :: k in table ==> RecordInv(table[k])
  }

  /** What a candidate's verdict says about the measurement it judges. */
  ghost predicate VerdictFacts(t: Tuning, req: Request, current: Option<Name>, c: Scored) {
    && (NotHardRejected(c) <==> Admissible(t, req, c.m))
    && (c.verdict.standing == PendingDegradation ==> IsEligible(c))
    && (IsEligible(c) && c.verdict.standing != PendingDegradation ==>
          Admissible(t, req, c.m) && c.verdict.standing == Eligible && MeetsSla(c.m, req.sla))
    && (IsEligible(c) && c.verdict.standing == PendingDegradation ==>
          Admissible(t, req, c.m) && !MeetsSla(c.m, req.sla) && current == Some(c.m.path))
    && (Admissible(t, req, c.m) ==> AllSoft(c.verdict.rejections))
    && RecoveryHysteresis !in c.verdict.rejections
  }

  lemma ViolationsSoft(item: Measurement, sla: Sla)
    ensures AllSoft(Violations(item, sla))
  {
    ViolationsMeaning(item, sla);
    var v := Violations(item, sla);
    forall k | 0 <= k < |v|
      ensures Soft(v[k])
    {
      assert v[k] in v;
    }
  }

  lemma AdvanceKeepsInv(t: Tuning, s: SlaState, violations: seq<Reason>)
    requires RecordInv(s) && AllSoft(violations)
    ensures RecordInv(Advance(t, s, violations))
  {
  }

  lemma HardAreHard(t: Tuning, req: Request, item: Measurement)
    ensures forall k :: 0 <= k < |HardRejections(t, req, item)| ==> Hard(HardRejections(t, req, item)[k])
  {
  }

  lemma EvaluatedFacts(t: Tuning, flow: FlowKey, req: Request, item: Measurement, table: SlaTable,
                       current: Option<Name>, score: real)
    requires TableInv(table)
    ensures TableInv(EvaluatedTable(t, flow, req, item, table))
    ensures VerdictFacts(t, req, current, Scored(item, score,
            Evaluated(t, flow, req, item, table, current == Some(item.path))))
  {
    HardIsEmptyIffAdmissible(t, req, item);
    ViolationsSoft(item, req.sla);
    AdvanceKeepsInv(t, Lookup(table, SlaKey(flow, item.path)), Violations(item, req.sla));
    var v := Evaluated(t, flow, req, item, table, current == Some(item.path));
    if HardRejections(t, req, item) != [] {
      HardAreHard(t, req, item);
      assert Hard(v.rejections[0]);
    } else {
      ViolationsMeaning(item, req.sla);
      JudgeFacts(t, req, item, Advance(t, Lookup(table, SlaKey(flow, item.path)), Violations(item, req.sla)), current,
        score);
    }
  }

  lemma HardIsEmptyIffAdmissible(t: Tuning, req: Request, item: Measurement)
    ensures HardRejections(t, req, item) == [] <==> Admissible(t, req, item)
  {
    HardRejectionsMeaning(t, req, item);
  }

  lemma JudgeFacts(t: Tuning, req: Request, item: Measurement, after: SlaState, current: Option<Name>, score: real)
    requires Admissible(t, req, item) && RecordInv(after) && AllSoft(Violations(item, req.sla))
    requires Violations(item, req.sla) == [] <==> MeetsSla(item, req.sla)
    ensures VerdictFacts(t, req, current, Scored(item, score,
            Judge(after, Violations(item, req.sla), current == Some(item.path))))
  {
    assert AllSoft(Judge(after, Violations(item, req.sla), current == Some(item.path)).rejections);
  }

  lemma {:induction false} EvaluateAllFacts(t: Tuning, flow: FlowKey, req: Request, current: Option<Name>,
                                            items: seq<Measurement>, table: SlaTable)
    requires req.weights.Valid() && TableInv(table)
    ensures var (cs, after) := EvaluateAll(t, flow, req, current, items, table);
            && TableInv(after) && |cs| == |items|
            && forall k :: 0 <= k < |cs| ==>
                             cs[k].m == items[k] && cs[k].score == Score(items[k], req.sla, req.weights) &&
                             VerdictFacts(t, req, current, cs[k])
  {
    if items != [] {
      var mid := EvaluatedTable(t, flow, req, items[0], table);
      EvaluatedFacts(t, flow, req, items[0], table, current, Score(items[0], req.sla, req.weights));
      EvaluateAllFacts(t, flow, req, current, items[1..], mid);
      var cs, rest := EvaluateAll(t, flow, req, current, items, table).0,
        EvaluateAll(t, flow, req, current, items[1..], mid).0;
      forall k | 0 <= k < |cs|
        ensures cs[k].m == items[k] && cs[k].score == Score(items[k], req.sla, req.weights) &&
                VerdictFacts(t, req, current, cs[k])
      {
        if k > 0 {
          assert cs[k] == rest[k - 1] && items[k] == items[1..][k - 1];
        }
      }
    }
  }

  lemma {:induction false} RunKeepsTableInv(t: Tuning, calls: seq<Call>)
    requires ValidCalls(calls)
    ensures TableInv(RunState(t, calls).sla)
  {
    if calls != [] {
      var n := |calls| - 1;
      RunKeepsTableInv(t, calls[..n]);
      var st, c := RunState(t, calls[..n]), calls[n];
      if !c.Refused() {
        EvaluateAllFacts(t, c.flow, c.req, PathOf(Selected(st, c.flow)), c.req.measurements, st.sla);
      }
    }
  }

  /** Each violation by its own limit. */
  lemma ViolationsNamed(item: Measurement, sla: Sla)
    ensures var v := Violations(item, sla);
            && (SlaViolation(Rtt) in v <==> sla.maxRtt.Some? && item.rtt.Some? && item.rtt.value > sla.maxRtt.value)
            && (SlaViolation(Jitter) in v <==>
                sla.maxJitter.Some? && item.jitter.Some? && item.jitter.value > sla.maxJitter.value)
            && (SlaViolation(Loss) in v <==>
                sla.maxLoss.Some? && item.loss.Some? && item.loss.value > sla.maxLoss.value)
            && (SlaViolation(Bandwidth) in v <==>
                sla.minBandwidth.Some? && item.bandwidth.Some? && item.bandwidth.value < sla.minBandwidth.value)
            && (MeasurementUnavailable(Rtt) in v <==> sla.maxRtt.Some? && item.rtt.None?)
            && (MeasurementUnavailable(Jitter) in v <==> sla.maxJitter.Some? && item.jitter.None?)
            && (MeasurementUnavailable(Loss) in v <==> sla.maxLoss.Some? && item.loss.None?)
            && (MeasurementUnavailable(Bandwidth) in v <==> sla.minBandwidth.Some? && item.bandwidth.None?)
  {
    LimitNamed(sla.maxRtt, item.rtt, Rtt);
    LimitNamed(sla.maxJitter, item.jitter, Jitter);
    LimitNamed(sla.maxLoss, item.loss, Loss);
    LimitNamed(sla.minBandwidth, item.bandwidth, Bandwidth);
    var a, b := Above(sla.maxRtt, item.rtt, Rtt), Above(sla.maxJitter, item.jitter, Jitter);
    var c, d := Above(sla.maxLoss, item.loss, Loss), Below(sla.minBandwidth, item.bandwidth, Bandwidth);
    assert forall r :: r in Violations(item, sla) <==> r in a || r in b || r in c || r in d;
  }

  lemma LimitNamed(limit: Option<real>, value: Option<real>, m: Metric)
    ensures forall r :: r in Above(limit, value, m) <==>
              limit.Some? && ((value.None? && r == MeasurementUnavailable(m)) ||
              (value.Some? && value.value > limit.value && r == SlaViolation(m)))
    ensures forall r :: r in Below(limit, value, m) <==>
              limit.Some? && ((value.None? && r == MeasurementUnavailable(m)) ||
              (value.Some? && value.value < limit.value && r == SlaViolation(m)))
  {
  }

  /** A verdict's standing by the measurement and the path's record after it; its counters are the record's. */
  lemma StandingMeaning(t: Tuning, flow: FlowKey, req: Request, item: Measurement, table: SlaTable, isCurrent: bool)
    ensures var v := Evaluated(t, flow, req, item, table, isCurrent);
            var after := Lookup(EvaluatedTable(t, flow, req, item, table), SlaKey(flow, item.path));
            var ok, meets := Admissible(t, req, item), MeetsSla(item, req.sla);
            && (v.standing == Unavailable <==> !ok)
            && (v.standing == Degraded <==> ok && after.degraded && !meets)
            && (v.standing == PendingRecovery <==> ok && after.degraded && meets)
            && (v.standing == PendingDegradation <==> ok && !after.degraded && !meets && isCurrent)
            && (v.standing == SlaIneligible <==> ok && !after.degraded && !meets && !isCurrent)
            && (v.standing == Eligible <==> ok && !after.degraded && meets)
            && (ok ==> v.bad == after.bad && v.good == after.good && v.violations == Violations(item, req.sla))
  {
    HardIsEmptyIffAdmissible(t, req, item);
    ViolationsMeaning(item, req.sla);
  }

  // ----- what one decision promises

  ghost predicate CandidateFacts(t: Tuning, req: Request, current: Option<Name>, m: Measurement, c: Scored)
    requires req.weights.Valid()
  {
    c.m == m && c.score == Score(m, req.sla, req.weights) && VerdictFacts(t, req, current, c)
  }

  /** There is one candidate for each measurement, in the same order. */
  ghost predicate Facts(t: Tuning, req: Request, d: Decision)
    requires req.weights.Valid()
  {
    |d.candidates| == |req.measurements| &&
    forall k :: 0 <= k < |d.candidates| ==>
                  CandidateFacts(t, req, d.previous, req.measurements[k], d.candidates[k])
  }

  lemma DecisionFacts(t: Tuning, st: State, flow: FlowKey, req: Request)
    requires req.weights.Valid() && TableInv(st.sla)
    ensures Facts(t, req, Decide(t, st, flow, req))
  {
    EvaluateAllFacts(t, flow, req, PathOf(Selected(st, flow)), req.measurements, st.sla);
  }

  lemma CandidateHasFacts(t: Tuning, req: Request, d: Decision, c: Scored)
    requires req.weights.Valid() && Facts(t, req, d) && c in d.candidates
    ensures c.m in req.measurements && CandidateFacts(t, req, d.previous, c.m, c)
  {
    var k :| 0 <= k < |d.candidates| && d.candidates[k] == c;
    assert CandidateFacts(t, req, d.previous, req.measurements[k], c);
  }

  lemma MeasurementHasCandidate(t: Tuning, req: Request, d: Decision, m: Measurement) returns (c: Scored)
    requires req.weights.Valid() && Facts(t, req, d) && m in req.measurements
    ensures c in d.candidates && CandidateFacts(t, req, d.previous, m, c)
  {
    var k :| 0 <= k < |req.measurements| && req.measurements[k] == m;
    c := d.candidates[k];
  }

  ghost predicate NoneEligible(d: Decision) { forall c :: c in d.candidates ==> !IsEligible(c) }

  /** What the choice is made from: the eligible candidates or, under best effort, if there are none, all admissible
      ones. */
  ghost predicate InPool(t: Tuning, req: Request, d: Decision, c: Scored) {
    c in d.candidates && (IsEligible(c) || (NoneEligible(d) && req.sla.bestEffort && Admissible(t, req, c.m)))
  }

  lemma PoolMeaning(t: Tuning, req: Request, d: Decision)
    requires req.weights.Valid() && Facts(t, req, d)
    ensures forall c :: c in Pool(d.candidates, req.sla.bestEffort).0 <==> InPool(t, req, d, c)
  {
    var eligible := Filter(d.candidates, IsEligible);
    if eligible != [] {
      assert eligible[0] in eligible;
    }
    forall c | c in d.candidates
      ensures NotHardRejected(c) <==> Admissible(t, req, c.m)
    {
      CandidateHasFacts(t, req, d, c);
    }
  }

  /** No candidate of the pool is ahead of `best`. */
  ghost predicate LeadsPool(t: Tuning, req: Request, d: Decision, best: Scored) {
    InPool(t, req, d, best) && forall e :: InPool(t, req, d, e) ==> NoWorse(best, e)
  }

  /** Of the pool's candidates on the path, none is ahead of `current`. */
  ghost predicate LeadsPath(t: Tuning, req: Request, d: Decision, path: Name, current: Scored) {
    InPool(t, req, d, current) && current.m.path == path &&
    forall e :: InPool(t, req, d, e) && e.m.path == path ==> NoWorse(current, e)
  }

  predicate Beats(t: Tuning, current: real, best: real) {
    if current <= 0.0 then 100.0 >= t.minImprovement else 100.0 * (current - best) / current >= t.minImprovement
  }

  /** The flow leaves its path: the path's violations are not just pending, another path leads, the hold-down is over,
      and that path's score beats the current one by the required percentage. */
  predicate Moves(t: Tuning, req: Request, previous: Chosen, current: Scored, best: Scored) {
    (IsEligible(current) ==> MeetsSla(current.m, req.sla)) && best.m.path != previous.path &&
    req.now - previous.switchedAt >= t.holdDown && Beats(t, current.score, best.score)
  }

  /** What the request selects, given the pool's leader and its leader on the path in force. */
  ghost predicate Selects(t: Tuning, req: Request, previous: Option<Chosen>, d: Decision, best: Scored,
                          current: Option<Scored>) {
    && LeadsPool(t, req, d, best)
    && (current.None? ==> previous.None? || forall e :: InPool(t, req, d, e) ==> e.m.path != previous.value.path)
    && (current.Some? ==> previous.Some? && LeadsPath(t, req, d, previous.value.path, current.value))
    && d.choice.selected == Some(if current.None? || Moves(t, req, previous.value, current.value, best) then best
                                 else current.value)
  }

  lemma LeaderLeads(cs: seq<Scored>, e: Scored)
    requires e in cs
    ensures NoWorse(Leader(cs), e)
  {
    OrderKeyMeaning(Leader(cs), e);
  }

  lemma PoolLeader(t: Tuning, req: Request, d: Decision)
    requires req.weights.Valid() && Facts(t, req, d) && Pool(d.candidates, req.sla.bestEffort).0 != []
    ensures LeadsPool(t, req, d, Leader(Pool(d.candidates, req.sla.bestEffort).0))
  {
    var pool := Pool(d.candidates, req.sla.bestEffort).0;
    PoolMeaning(t, req, d);
    forall e | e in pool
      ensures NoWorse(Leader(pool), e)
    {
      LeaderLeads(pool, e);
    }
  }

  lemma PathLeader(t: Tuning, req: Request, d: Decision, path: Name)
    requires req.weights.Valid() && Facts(t, req, d)
    ensures var same := OnPath(Pool(d.candidates, req.sla.bestEffort).0, path);
            if same == [] then forall e :: InPool(t, req, d, e) ==> e.m.path != path
            else LeadsPath(t, req, d, path, Leader(same))
  {
    var pool := Pool(d.candidates, req.sla.bestEffort).0;
    var same := OnPath(pool, path);
    PoolMeaning(t, req, d);
    if same == [] {
      forall e | InPool(t, req, d, e)
        ensures e.m.path != path
      {
        assert e in pool && e !in same;
      }
    } else {
      forall e | e in same
        ensures NoWorse(Leader(same), e)
      {
        LeaderLeads(same, e);
      }
    }
  }

  lemma PendingMeaning(t: Tuning, req: Request, d: Decision, c: Scored)
    requires req.weights.Valid() && Facts(t, req, d) && c in d.candidates
    ensures c.verdict.standing == PendingDegradation <==> IsEligible(c) && !MeetsSla(c.m, req.sla)
  {
    CandidateHasFacts(t, req, d, c);
  }

  /** The choice by its three cases: nothing to choose from; no path in force, or none that is still available; a path
      in force that is kept or left. */
  lemma ChooseAnew(t: Tuning, previous: Option<Chosen>, pool: seq<Scored>, fallback: bool, now: real)
    requires pool != [] && (previous.None? || OnPath(pool, previous.value.path) == [])
    ensures ChooseFrom(t, previous, pool, fallback, now).selected == Some(Leader(pool))
  {
  }

  lemma WhyAnew(t: Tuning, previous: Option<Chosen>, pool: seq<Scored>, fallback: bool, now: real)
    requires pool != [] && (previous.None? || OnPath(pool, previous.value.path) == [])
    ensures ChooseFrom(t, previous, pool, fallback, now).why ==
            if fallback then BestEffortFallback else if previous.None? then InitialBest else CurrentLost
  {
  }

  lemma WhyAgain(t: Tuning, previous: Chosen, pool: seq<Scored>, fallback: bool, now: real, best: Scored,
                 current: Scored)
    requires pool != [] && OnPath(pool, previous.path) != []
    requires best == Leader(pool) && current == Leader(OnPath(pool, previous.path))
    ensures var why := ChooseFrom(t, Some(previous), pool, fallback, now).why;
            var pending, same := current.verdict.standing == PendingDegradation, best.m.path == previous.path;
            var held := now - previous.switchedAt < t.holdDown;
            && (why == PendingHysteresis <==> pending)
            && (why == RetainCurrent <==> !pending && same)
            && (why == HoldDownRetained <==> !pending && !same && held)
            && (why == MinimumImprovementNotMet <==>
                !pending && !same && !held && !Beats(t, current.score, best.score))
            && (why == BetterScore <==> !pending && !same && !held && Beats(t, current.score, best.score))
  {
    ImprovementMeaning(t, current.score, best.score);
  }

  /** The reasons for a choice with no path in force, or none that is available, each by its own condition. */
  lemma WhyMeaning(t: Tuning, previous: Option<Chosen>, pool: seq<Scored>, fallback: bool, now: real)
    ensures var why := ChooseFrom(t, previous, pool, fallback, now).why;
            var anew := pool != [] && (previous.None? || OnPath(pool, previous.value.path) == []);
            && (why == NoEligiblePath <==> pool == [])
            && (why == BestEffortFallback <==> anew && fallback)
            && (why == InitialBest <==> anew && !fallback && previous.None?)
            && (why == CurrentLost <==> anew && !fallback && previous.Some?)
  {
    if pool != [] {
      if previous.None? || OnPath(pool, previous.value.path) == [] {
        WhyAnew(t, previous, pool, fallback, now);
      } else {
        WhyAgain(t, previous.value, pool, fallback, now, Leader(pool), Leader(OnPath(pool, previous.value.path)));
      }
    }
  }

  lemma ImprovementMeaning(t: Tuning, current: real, best: real)
    ensures Improvement(current, best) >= t.minImprovement <==> Beats(t, current, best)
  {
  }

  lemma ChooseAgain(t: Tuning, previous: Chosen, pool: seq<Scored>, fallback: bool, now: real, best: Scored,
                    current: Scored)
    requires pool != [] && OnPath(pool, previous.path) != []
    requires best == Leader(pool) && current == Leader(OnPath(pool, previous.path))
    ensures var moves := current.verdict.standing != PendingDegradation && best.m.path != previous.path &&
                         now - previous.switchedAt >= t.holdDown && Beats(t, current.score, best.score);
            ChooseFrom(t, Some(previous), pool, fallback, now).selected == Some(if moves then best else current)
  {
    ImprovementMeaning(t, current.score, best.score);
  }

  /** The whole decision, in the measurements' own fields: nothing is selected exactly if the pool is empty; a flow with
      no path in force, or with one that is no longer available, gets the pool's leader; and another one leaves its path
      exactly if that path's violations are not just pending, another path leads, the hold-down is over and the
      improvement suffices. */
  lemma DecisionMeaning(t: Tuning, st: State, flow: FlowKey, req: Request)
    returns (best: Option<Scored>, current: Option<Scored>)
    requires req.weights.Valid() && TableInv(st.sla)
    ensures var d := Decide(t, st, flow, req);
            && Facts(t, req, d) && d.previous == PathOf(Selected(st, flow))
            && (d.choice.selected.None? <==> forall c :: !InPool(t, req, d, c))
            && (best.Some? <==> d.choice.selected.Some?)
            && (best.Some? ==> Selects(t, req, Selected(st, flow), d, best.value, current))
  {
    var d, previous := Decide(t, st, flow, req), Selected(st, flow);
    var pool := Pool(d.candidates, req.sla.bestEffort).0;
    DecisionFacts(t, st, flow, req);
    PoolMeaning(t, req, d);
    var fallback := Pool(d.candidates, req.sla.bestEffort).1;
    best, current := None, None;
    if pool != [] {
      assert pool[0] in pool;
      PoolLeader(t, req, d);
      best := Some(Leader(pool));
      if previous.Some? {
        PathLeader(t, req, d, previous.value.path);
      }
      if previous.None? || OnPath(pool, previous.value.path) == [] {
        ChooseAnew(t, previous, pool, fallback, req.now);
      } else {
        current := Some(Leader(OnPath(pool, previous.value.path)));
        PendingMeaning(t, req, d, current.value);
        ChooseAgain(t, previous.value, pool, fallback, req.now, best.value, current.value);
      }
    }
  }

  // ----- soundness of what is selected

  /** The selected path is policy-permitted, enabled, reachable and freshly measured. If any candidate is eligible, so
      is the selected one; and if the flow was not on it, it meets every SLA limit now and no eligible candidate is
      ahead of it by score and path. */
  ghost predicate SoundChoice(t: Tuning, req: Request, d: Decision, c: Scored)
    requires req.weights.Valid()
  {
    && c in d.candidates && c.m in req.measurements && c.score == Score(c.m, req.sla, req.weights)
    && c.m.egress in req.allowed && c.m.transport in req.transports && c.m.enabled && c.m.reachable
    && req.now - c.m.measuredAt <= t.staleAfter
    && (!NoneEligible(d) ==> IsEligible(c))
    && (!NoneEligible(d) && d.previous != Some(c.m.path) ==>
          MeetsSla(c.m, req.sla) && forall e :: e in d.candidates && IsEligible(e) ==> NoWorse(c, e))
  }

  /** A path is selected exactly when some candidate is eligible or best effort has an admissible measurement, and what
      is selected is sound. */
  lemma SelectionIsSound(t: Tuning, st: State, flow: FlowKey, req: Request)
    requires req.weights.Valid() && TableInv(st.sla)
    ensures var d := Decide(t, st, flow, req);
            && (d.choice.selected.None? <==>
                NoneEligible(d) &&
                (req.sla.bestEffort ==> forall m :: m in req.measurements ==> !Admissible(t, req, m)))
            && (d.choice.selected.Some? ==> SoundChoice(t, req, d, d.choice.selected.value))
  {
    var d := Decide(t, st, flow, req);
    var best, current := DecisionMeaning(t, st, flow, req);
    forall c | c in d.candidates
      ensures c.m in req.measurements && CandidateFacts(t, req, d.previous, c.m, c)
    {
      CandidateHasFacts(t, req, d, c);
    }
    if m :| m in req.measurements && Admissible(t, req, m) {
      var c := MeasurementHasCandidate(t, req, d, m);
      assert NoneEligible(d) && req.sla.bestEffort ==> InPool(t, req, d, c);
    }
    if !NoneEligible(d) {
      var c :| c in d.candidates && IsEligible(c);
      assert InPool(t, req, d, c);
    }
  }

  // ----- leaving and keeping a path

  /** The request moves the flow off a path that was still available to it. */
  ghost predicate LeavesAvailable(t: Tuning, req: Request, previous: Option<Chosen>, d: Decision) {
    previous.Some? && d.choice.selected.Some? && d.choice.selected.value.m.path != previous.value.path &&
    exists e :: InPool(t, req, d, e) && e.m.path == previous.value.path
  }

  /** A flow leaves an available path only after the hold-down, for a score that beats it by the required
      percentage, and not while the path's violations are still pending. */
  lemma LeavingNeedsHoldDownAndImprovement(t: Tuning, st: State, flow: FlowKey, req: Request) returns (current: Scored)
    requires req.weights.Valid() && TableInv(st.sla)
    requires LeavesAvailable(t, req, Selected(st, flow), Decide(t, st, flow, req))
    ensures var previous, d := Selected(st, flow).value, Decide(t, st, flow, req);
            && LeadsPath(t, req, d, previous.path, current)
            && (IsEligible(current) ==> MeetsSla(current.m, req.sla))
            && req.now - previous.switchedAt >= t.holdDown
            && Beats(t, current.score, d.choice.selected.value.score)
  {
    var best, c := DecisionMeaning(t, st, flow, req);
    current := c.value;
  }

  ghost predicate WithinMargin(t: Tuning, kept: Scored, e: Scored) {
    kept.score <= e.score || 100.0 * (kept.score - e.score) < t.minImprovement * kept.score
  }

  lemma MarginArithmetic(kept: real, best: real, e: real, margin: real)
    requires best <= e && 0.0 <= e < kept && 100.0 * (kept - best) / kept < margin
    ensures 100.0 * (kept - e) < margin * kept
  {
    var q := 100.0 * (kept - best) / kept;
    assert q * kept == 100.0 * (kept - best);
    assert (margin - q) * kept > 0.0;
  }

  lemma MarginHolds(t: Tuning, kept: Scored, best: Scored, e: Scored)
    requires kept.score <= best.score || !Beats(t, kept.score, best.score)
    requires best.score <= e.score && e.score >= 0.0
    ensures WithinMargin(t, kept, e)
  {
    if kept.score > e.score {
      MarginArithmetic(kept.score, best.score, e.score, t.minImprovement);
    }
  }

  /** A path kept for any other reason than hold-down or pending violations is within the margin of every
      alternative. */
  lemma KeptPathIsWithinMargin(t: Tuning, st: State, flow: FlowKey, req: Request, e: Scored)
    requires req.weights.Valid() && TableInv(st.sla) && Selected(st, flow).Some?
    requires var d, previous := Decide(t, st, flow, req), Selected(st, flow).value;
             && d.choice.selected.Some? && d.choice.selected.value.m.path == previous.path
             && req.now - previous.switchedAt >= t.holdDown && InPool(t, req, d, e)
             && var kept := d.choice.selected.value; IsEligible(kept) ==> MeetsSla(kept.m, req.sla)
    ensures WithinMargin(t, Decide(t, st, flow, req).choice.selected.value, e)
  {
    var d := Decide(t, st, flow, req);
    var best, current := DecisionMeaning(t, st, flow, req);
    KeptNotBeaten(t, req, Selected(st, flow).value, d, best.value, current);
    CandidateHasFacts(t, req, d, e);
    ScoreNonNegative(e.m, req.sla, req.weights);
    MarginHolds(t, d.choice.selected.value, best.value, e);
  }

  lemma KeptNotBeaten(t: Tuning, req: Request, previous: Chosen, d: Decision, best: Scored, current: Option<Scored>)
    requires Selects(t, req, Some(previous), d, best, current) && d.choice.selected.value.m.path == previous.path
    requires req.now - previous.switchedAt >= t.holdDown
    requires var kept := d.choice.selected.value; IsEligible(kept) ==> MeetsSla(kept.m, req.sla)
    ensures d.choice.selected.value.score <= best.score || !Beats(t, d.choice.selected.value.score, best.score)
  {
  }

  lemma ScoreNonNegative(item: Measurement, sla: Sla, w: Weights)
    requires w.Valid()
    ensures Score(item, sla, w) >= 0.0
  {
    MeanNonNegative(w, Ratio(item.rtt, sla.maxRtt, 100.0), Ratio(item.jitter, sla.maxJitter, 20.0),
      Ratio(item.loss, sla.maxLoss, 1.0),
                    Ratio(Some(BandwidthReference(item, sla)), item.bandwidth, 1.0), Max(0.0, item.cost));
  }

  lemma MeanNonNegative(w: Weights, rtt: real, jitter: real, loss: real, bandwidth: real, cost: real)
    requires w.Valid() && rtt >= 0.0 && jitter >= 0.0 && loss >= 0.0 && bandwidth >= 0.0 && cost >= 0.0
    ensures WeightedMean(w, rtt, jitter, loss, bandwidth, cost) >= 0.0
  {
    var total := w.rtt * rtt + w.jitter * jitter + w.loss * loss + w.bandwidth * bandwidth + w.cost * cost;
    assert w.rtt * rtt >= 0.0 && w.jitter * jitter >= 0.0 && w.loss * loss >= 0.0;
    assert w.bandwidth * bandwidth >= 0.0 && w.cost * cost >= 0.0;
    DividedOrder(0.0, total, w.Sum());
  }

  /** The `changed` flag is the change of the stored path, except that a refusal to choose always reports a change
      while it leaves the stored selection alone. */
  lemma ChangedReport(t: Tuning, st: State, flow: FlowKey, req: Request)
    requires req.weights.Valid()
    ensures var d, next := Decide(t, st, flow, req), Next(t, st, flow, req);
            && (d.choice.selected.None? ==> next.selection == st.selection && d.changed == Selected(st, flow).Some?)
            && (d.choice.selected.Some? ==>
                  PathOf(Selected(next, flow)) == Some(d.choice.selected.value.m.path) &&
                  Selected(next, flow).value.score == d.choice.selected.value.score &&
                  (d.changed <==>
                    Selected(st, flow).Some? && PathOf(Selected(next, flow)) != PathOf(Selected(st, flow))))
            && forall other :: other != flow ==> Selected(next, other) == Selected(st, other)
  {
  }

  // ----- whole runs

  /** Decision taken at request `k` of a run. */
  function DecisionAt(t: Tuning, calls: seq<Call>, k: nat): Decision
    requires ValidCalls(calls) && k < |calls|
  {
    Decide(t, RunState(t, calls[..k]), calls[k].flow, calls[k].req)
  }

  function ChosenAt(t: Tuning, calls: seq<Call>, k: nat, flow: FlowKey): Option<Chosen>
    requires ValidCalls(calls) && k <= |calls|
  {
    Selected(RunState(t, calls[..k]), flow)
  }

  /** Request `k` of a run as one step. */
  lemma RunStep(t: Tuning, calls: seq<Call>, k: nat)
    requires ValidCalls(calls) && k < |calls|
    ensures RunState(t, calls[..k + 1]) == StepCall(t, RunState(t, calls[..k]), calls[k])
  {
    var now := calls[..k + 1];
    assert now[..|now| - 1] == calls[..k] && now[|now| - 1] == calls[k];
  }

  /** Request `k` put the flow on a path it was not on. */
  ghost predicate SwitchesAt(t: Tuning, calls: seq<Call>, k: nat, flow: FlowKey)
    requires ValidCalls(calls) && k < |calls|
  {
    calls[k].flow == flow && !calls[k].Refused() && DecisionAt(t, calls, k).choice.selected.Some? &&
    PathOf(ChosenAt(t, calls, k, flow)) != Some(DecisionAt(t, calls, k).choice.selected.value.m.path)
  }

  /** Request `k` moved the flow off a path that was still available. */
  ghost predicate LeavesAt(t: Tuning, calls: seq<Call>, k: nat, flow: FlowKey)
    requires ValidCalls(calls) && k < |calls|
  {
    calls[k].flow == flow && !calls[k].Refused() &&
    LeavesAvailable(t, calls[k].req, ChosenAt(t, calls, k, flow), DecisionAt(t, calls, k))
  }

  ghost predicate TimeOrdered(calls: seq<Call>, flow: FlowKey) {
    forall i, j ::
      0 <= i < j < |calls| && calls[i].flow == flow && calls[j].flow == flow ==> calls[i].req.now <= calls[j].req.now
  }

  /** The last of the first `k` requests that put the flow on a path it was not on. */
  ghost function LastSwitch(t: Tuning, calls: seq<Call>, k: nat, flow: FlowKey): Option<nat>
    requires ValidCalls(calls) && k <= |calls|
  {
    if k == 0 then None
    else if SwitchesAt(t, calls, k - 1, flow) then Some(k - 1)
    else LastSwitch(t, calls, k - 1, flow)
  }

  lemma {:induction false} SwitchIsNotLater(t: Tuning, calls: seq<Call>, i: nat, k: nat, flow: FlowKey)
    requires ValidCalls(calls) && i < k <= |calls| && SwitchesAt(t, calls, i, flow)
    ensures LastSwitch(t, calls, k, flow).Some? && i <= LastSwitch(t, calls, k, flow).value < k
    decreases k
  {
    if !SwitchesAt(t, calls, k - 1, flow) {
      SwitchIsNotLater(t, calls, i, k - 1, flow);
    }
  }

  /** In every run the remembered switch time is that of the flow's last switch. */
  lemma {:induction false} SwitchTimeIsLastSwitch(t: Tuning, calls: seq<Call>, k: nat, flow: FlowKey)
    requires ValidCalls(calls) && k <= |calls|
    ensures var i, chosen := LastSwitch(t, calls, k, flow), ChosenAt(t, calls, k, flow);
            (chosen.Some? <==> i.Some?) &&
            (chosen.Some? ==> i.value < k && chosen.value.switchedAt == calls[i.value].req.now)
    decreases k
  {
    if k > 0 {
      SwitchTimeIsLastSwitch(t, calls, k - 1, flow);
      TimeAfterRequest(t, calls, k - 1, flow);
    }
  }

  lemma TimeAfterRequest(t: Tuning, calls: seq<Call>, j: nat, flow: FlowKey)
    requires ValidCalls(calls) && j < |calls|
    ensures var before, after := ChosenAt(t, calls, j, flow), ChosenAt(t, calls, j + 1, flow);
            if SwitchesAt(t, calls, j, flow) then after.Some? && after.value.switchedAt == calls[j].req.now
            else (after.Some? <==> before.Some?) &&
                 (after.Some? ==> after.value.switchedAt == before.value.switchedAt)
  {
    RunStep(t, calls, j);
    if SwitchesAt(t, calls, j, flow) {
      SwitchStampsTime(t, RunState(t, calls[..j]), calls[j]);
    } else {
      NoSwitchKeepsTime(t, RunState(t, calls[..j]), calls[j], flow);
    }
  }

  lemma {:induction false} LastSwitchIsOwn(t: Tuning, calls: seq<Call>, k: nat, flow: FlowKey)
    requires ValidCalls(calls) && k <= |calls| && LastSwitch(t, calls, k, flow).Some?
    ensures LastSwitch(t, calls, k, flow).value < k && calls[LastSwitch(t, calls, k, flow).value].flow == flow
    decreases k
  {
    if !SwitchesAt(t, calls, k - 1, flow) {
      LastSwitchIsOwn(t, calls, k - 1, flow);
    }
  }

  lemma SwitchStampsTime(t: Tuning, st: State, c: Call)
    requires c.req.weights.Valid() && !c.Refused()
    requires var choice := Decide(t, st, c.flow, c.req).choice;
             choice.selected.Some? && PathOf(Selected(st, c.flow)) != Some(choice.selected.value.m.path)
    ensures var after := Selected(StepCall(t, st, c), c.flow); after.Some? && after.value.switchedAt == c.req.now
  {
  }

  lemma NoSwitchKeepsTime(t: Tuning, st: State, c: Call, flow: FlowKey)
    requires c.req.weights.Valid()
    requires c.flow == flow && !c.Refused() ==>
               var choice := Decide(t, st, c.flow, c.req).choice;
               choice.selected.Some? ==> PathOf(Selected(st, c.flow)) == Some(choice.selected.value.m.path)
    ensures var before, after := Selected(st, flow), Selected(StepCall(t, st, c), flow);
            (after.Some? <==> before.Some?) && (after.Some? ==> after.value.switchedAt == before.value.switchedAt)
  {
  }

  lemma SwitchedNotBefore(t: Tuning, calls: seq<Call>, i: nat, j: nat, flow: FlowKey)
    requires ValidCalls(calls) && TimeOrdered(calls, flow) && i < j < |calls| && SwitchesAt(t, calls, i, flow)
    ensures ChosenAt(t, calls, j, flow).Some? && ChosenAt(t, calls, j, flow).value.switchedAt >= calls[i].req.now
  {
    SwitchIsNotLater(t, calls, i, j, flow);
    SwitchTimeIsLastSwitch(t, calls, j, flow);
    LastSwitchIsOwn(t, calls, j, flow);
    var last := LastSwitch(t, calls, j, flow).value;
    assert calls[last].req.now >= calls[i].req.now;
  }

  /** Over every run in time order, a flow that leaves a path still available to it has not switched or been first
      placed within the hold-down: such moves are at least the hold-down apart. */
  lemma VoluntarySwitchesAreSpaced(t: Tuning, calls: seq<Call>, i: nat, j: nat, flow: FlowKey)
    requires ValidCalls(calls) && TimeOrdered(calls, flow) && i < j < |calls|
    requires SwitchesAt(t, calls, i, flow) && LeavesAt(t, calls, j, flow)
    ensures calls[j].req.now - calls[i].req.now >= t.holdDown
  {
    SwitchedNotBefore(t, calls, i, j, flow);
    LeavesAfterHoldDown(t, calls, j, flow);
  }

  lemma LeavesAfterHoldDown(t: Tuning, calls: seq<Call>, j: nat, flow: FlowKey)
    requires ValidCalls(calls) && j < |calls| && LeavesAt(t, calls, j, flow)
    ensures ChosenAt(t, calls, j, flow).Some? &&
            calls[j].req.now - ChosenAt(t, calls, j, flow).value.switchedAt >= t.holdDown
  {
    RunKeepsTableInv(t, calls[..j]);
    var current := LeavingNeedsHoldDownAndImprovement(t, RunState(t, calls[..j]), flow, calls[j].req);
  }

  ghost predicate DistinctPaths(items: seq<Measurement>) {
    forall a, b :: 0 <= a < b < |items| ==> items[a].path != items[b].path
  }

  lemma {:induction false} OtherPathsKeepRecord(t: Tuning, flow: FlowKey, req: Request, current: Option<Name>,
                                                items: seq<Measurement>, table: SlaTable, path: Name)
    requires req.weights.Valid() && forall k :: 0 <= k < |items| ==> items[k].path != path
    ensures Lookup(EvaluateAll(t, flow, req, current, items, table).1, SlaKey(flow, path)) == Lookup(table,
            SlaKey(flow, path))
  {
    if items != [] {
      assert forall k :: 0 <= k < |items[1..]| ==> items[1..][k] == items[k + 1];
      OtherPathsKeepRecord(t, flow, req, current, items[1..], EvaluatedTable(t, flow, req, items[0], table), path);
    }
  }

  /** A candidate is eligible exactly if it is admissible, its record is not degraded after this request, and it meets
      the SLA or is the path in force. */
  lemma {:induction false} EligibleMeaning(t: Tuning, flow: FlowKey, req: Request, current: Option<Name>,
                                           items: seq<Measurement>, table: SlaTable, k: nat)
    requires req.weights.Valid() && DistinctPaths(items) && k < |items|
    ensures var r := EvaluateAll(t, flow, req, current, items, table);
            IsEligible(r.0[k]) <==>
            Admissible(t, req, items[k]) && !Lookup(r.1, SlaKey(flow, items[k].path)).degraded &&
            (MeetsSla(items[k], req.sla) || current == Some(items[k].path))
  {
    var after := EvaluatedTable(t, flow, req, items[0], table);
    assert forall j :: 0 <= j < |items[1..]| ==> items[1..][j] == items[j + 1];
    if k == 0 {
      OtherPathsKeepRecord(t, flow, req, current, items[1..], after, items[0].path);
      FirstIsEligible(t, flow, req, current, items[0], table);
    } else {
      assert EvaluateAll(t, flow, req, current, items, table).0[k] == EvaluateAll(t, flow, req, current, items[1..],
        after).0[k - 1];
      EligibleMeaning(t, flow, req, current, items[1..], after, k - 1);
    }
  }

  lemma FirstIsEligible(t: Tuning, flow: FlowKey, req: Request, current: Option<Name>, item: Measurement,
                        table: SlaTable)
    ensures Evaluated(t, flow, req, item, table, current == Some(item.path)).rejections == [] <==>
            Admissible(t, req, item) &&
            !Lookup(EvaluatedTable(t, flow, req, item, table), SlaKey(flow, item.path)).degraded &&
            (MeetsSla(item, req.sla) || current == Some(item.path))
  {
    HardIsEmptyIffAdmissible(t, req, item);
    ViolationsMeaning(item, req.sla);
  }

  /** Whether a measurement makes its path eligible at request `k`: it is admissible, the path's whole evaluated
      history, this sample included, leaves it not degraded, and it meets the SLA or the flow is on the path. */
  ghost predicate EligibleAt(t: Tuning, calls: seq<Call>, k: nat, m: Measurement)
    requires ValidCalls(calls) && k < |calls|
  {
    && m in calls[k].req.measurements && Admissible(t, calls[k].req, m)
    && !DegradedHistory(t, History(t, calls[..k + 1], calls[k].flow, m.path))
    && (MeetsSla(m, calls[k].req.sla) || PathOf(ChosenAt(t, calls, k, calls[k].flow)) == Some(m.path))
  }

  lemma EligibleInRun(t: Tuning, calls: seq<Call>, k: nat, c: Scored)
    requires t.Valid() && ValidCalls(calls) && k < |calls| && !calls[k].Refused() &&
             DistinctPaths(calls[k].req.measurements)
    requires c in DecisionAt(t, calls, k).candidates
    ensures IsEligible(c) <==> EligibleAt(t, calls, k, c.m)
  {
    var st, call := RunState(t, calls[..k]), calls[k];
    var d, req := DecisionAt(t, calls, k), call.req;
    RunKeepsTableInv(t, calls[..k]);
    DecisionFacts(t, st, call.flow, req);
    CandidateHasFacts(t, req, d, c);
    var j :| 0 <= j < |d.candidates| && d.candidates[j] == c;
    assert CandidateFacts(t, req, d.previous, req.measurements[j], c);
    EligibleMeaning(t, call.flow, req, d.previous, req.measurements, st.sla, j);
    RunStep(t, calls, k);
    DegradedOverRuns(t, calls[..k + 1], call.flow, c.m.path);
  }

  /** Over every run: request `k` selects nothing exactly if no measurement makes its path eligible and, under best
      effort, none is admissible. What it selects is sound, and eligible by its whole history unless nothing is. */
  lemma EverySelectionIsSound(t: Tuning, calls: seq<Call>, k: nat)
    requires t.Valid() && ValidCalls(calls) && k < |calls| && !calls[k].Refused() &&
             DistinctPaths(calls[k].req.measurements)
    ensures var d, req := DecisionAt(t, calls, k), calls[k].req;
            var none := forall m :: !EligibleAt(t, calls, k, m);
            && (d.choice.selected.None? <==>
                none && (req.sla.bestEffort ==> forall m :: m in req.measurements ==> !Admissible(t, req, m)))
            && (d.choice.selected.Some? ==>
                  && SoundChoice(t, req, d, d.choice.selected.value)
                  && (EligibleAt(t, calls, k, d.choice.selected.value.m) || (none && req.sla.bestEffort)))
  {
    var d, req := DecisionAt(t, calls, k), calls[k].req;
    RunKeepsTableInv(t, calls[..k]);
    SelectionIsSound(t, RunState(t, calls[..k]), calls[k].flow, req);
    DecisionFacts(t, RunState(t, calls[..k]), calls[k].flow, req);
    forall c | c in d.candidates
      ensures IsEligible(c) <==> EligibleAt(t, calls, k, c.m)
    {
      EligibleInRun(t, calls, k, c);
    }
    if m :| EligibleAt(t, calls, k, m) {
      var c := MeasurementHasCandidate(t, req, d, m);
      assert IsEligible(c);
    }
  }

  /** Over every run, no candidate of any request is rejected for recovery hysteresis alone: a degraded path always has
      a recorded violation to name. */
  lemma HysteresisReasonIsUnreachable(t: Tuning, calls: seq<Call>, k: nat, c: Scored)
    requires ValidCalls(calls) && k < |calls| && c in DecisionAt(t, calls, k).candidates
    ensures RecoveryHysteresis !in c.verdict.rejections
  {
    RunKeepsTableInv(t, calls[..k]);
    DecisionFacts(t, RunState(t, calls[..k]), calls[k].flow, calls[k].req);
    CandidateHasFacts(t, calls[k].req, DecisionAt(t, calls, k), c);
  }
}
