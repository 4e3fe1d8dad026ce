/** The SLA-aware path selector: scoring, hysteresis, hold-down and minimum improvement. */
module PathSelection {
  import opened Basics

  datatype Metric = Rtt | Jitter | Loss | Bandwidth

  datatype Reason =
    | EgressNotAllowed | TransportNotCandidate | AdministrativelyDisabled | PathDown | MeasurementStale
    | SlaViolation(metric: Metric) | MeasurementUnavailable(metric: Metric) | RecoveryHysteresis

  datatype Sla = Sla(maxRtt: Option<real>, maxJitter: Option<real>, maxLoss: Option<real>, minBandwidth: Option<real>,
                     bestEffort: bool)

  datatype Weights = Weights(rtt: real, jitter: real, loss: real, bandwidth: real, cost: real)
  {
    function Sum(): real { rtt + jitter + loss + bandwidth + cost }

    predicate Valid() {
      rtt >= 0.0 && jitter >= 0.0 && loss >= 0.0 && bandwidth >= 0.0 && cost >= 0.0 && Sum() > 0.0
    }
  }

  datatype Tuning = Tuning(badSamples: nat, goodSamples: nat, minImprovement: real, holdDown: real, staleAfter: real)
  {
    predicate Valid() {
      badSamples >= 1 && goodSamples >= 1 && minImprovement >= 0.0 && holdDown >= 0.0 && staleAfter > 0.0
    }
  }

  datatype Measurement = Measurement(
    path: Name, transport: Name, egress: EgressMode, capacity: real, cost: real, measuredAt: real,
    enabled: bool, reachable: bool,
    rtt: Option<real>, jitter: Option<real>, loss: Option<real>, bandwidth: Option<real>)

  // ----- SLA limits and scores

  function Above(limit: Option<real>, value: Option<real>, m: Metric): seq<Reason> {
    if limit.None? then []
    else if value.None? then [MeasurementUnavailable(m)]
    else if value.value > limit.value then [SlaViolation(m)] else []
  }

  function Below(limit: Option<real>, value: Option<real>, m: Metric): seq<Reason> {
    if limit.None? then []
    else if value.None? then [MeasurementUnavailable(m)]
    else if value.value < limit.value then [SlaViolation(m)] else []
  }

  function Violations(item: Measurement, sla: Sla): seq<Reason> {
    Above(sla.maxRtt, item.rtt, Rtt) + Above(sla.maxJitter, item.jitter, Jitter) +
    Above(sla.maxLoss, item.loss, Loss) + Below(sla.minBandwidth, item.bandwidth, Bandwidth)
  }

  predicate AtMost(limit: Option<real>, value: Option<real>) {
    limit.Some? ==> value.Some? && value.value <= limit.value
  }

  /** Every configured limit is met by a present measurement. */
  predicate MeetsSla(item: Measurement, sla: Sla) {
    AtMost(sla.maxRtt, item.rtt) && AtMost(sla.maxJitter, item.jitter) && AtMost(sla.maxLoss, item.loss) &&
    (sla.minBandwidth.Some? ==> item.bandwidth.Some? && item.bandwidth.value >= sla.minBandwidth.value)
  }

  lemma ViolationsMeaning(item: Measurement, sla: Sla)
    ensures Violations(item, sla) == [] <==> MeetsSla(item, sla)
    ensures forall r :: r in Violations(item, sla) ==> r.SlaViolation? || r.MeasurementUnavailable?
  {
  }

  function Ratio(value: Option<real>, reference: Option<real>, fallback: real): real
    requires fallback > 0.0
  {
    if value.None? then 2.0
    else
      var denominator := if reference.Some? && reference.value > 0.0 then reference.value else fallback;
      Max(0.0, value.value / denominator)
  }

  function WeightedMean(w: Weights, rtt: real, jitter: real, loss: real, bandwidth: real, cost: real): real
    requires w.Sum() > 0.0
  {
    (w.rtt * rtt + w.jitter * jitter + w.loss * loss + w.bandwidth * bandwidth + w.cost * cost) / w.Sum()
  }

  function BandwidthReference(item: Measurement, sla: Sla): real {
    if sla.minBandwidth.Some? && sla.minBandwidth.value != 0.0 then sla.minBandwidth.value else item.capacity
  }

  /** Lower is better. */
  function Score(item: Measurement, sla: Sla, w: Weights): real
    requires w.Valid()
  {
    WeightedMean(w, Ratio(item.rtt, sla.maxRtt, 100.0), Ratio(item.jitter, sla.maxJitter, 20.0),
      Ratio(item.loss, sla.maxLoss, 1.0),
                 Ratio(Some(BandwidthReference(item, sla)), item.bandwidth, 1.0), Max(0.0, item.cost))
  }

  // ----- hysteresis

  datatype SlaState = SlaState(degraded: bool, bad: nat, good: nat, violations: seq<Reason>)

  const FRESH := SlaState(false, 0, 0, [])

  /** The counters after one evaluated sample with the given violations. */
  function Advance(t: Tuning, s: SlaState, violations: seq<Reason>): SlaState {
    if violations != [] then
      SlaState(s.degraded || s.bad + 1 >= t.badSamples, s.bad + 1, 0, violations)
    else if s.degraded then
      if s.good + 1 >= t.goodSamples then FRESH else SlaState(true, 0, s.good + 1, s.violations)
    else
      SlaState(false, 0, if s.good + 1 <= t.goodSamples then s.good + 1 else t.goodSamples, [])
  }

  datatype Standing = Unavailable | Degraded | PendingRecovery | PendingDegradation | SlaIneligible | Eligible

  datatype Verdict = Verdict(rejections: seq<Reason>, violations: seq<Reason>, standing: Standing, bad: nat, good: nat)

  /** What one selection request asks: the policy limits, and the measurements of this round. */
  datatype Request = Request(
    allowed: seq<EgressMode>, transports: seq<Name>, measurements: seq<Measurement>, sla: Sla, weights: Weights,
      now: real)

  function HardRejections(t: Tuning, req: Request, item: Measurement): seq<Reason> {
    (if item.egress !in req.allowed then [EgressNotAllowed] else [])
    + (if item.transport !in req.transports then [TransportNotCandidate] else [])
    + (if !item.enabled then [AdministrativelyDisabled] else [])
    + (if !item.reachable then [PathDown] else [])
    + (if req.now - item.measuredAt > t.staleAfter then [MeasurementStale] else [])
  }

  predicate Hard(r: Reason) {
    r.EgressNotAllowed? || r.TransportNotCandidate? || r.AdministrativelyDisabled? || r.PathDown? || r.MeasurementStale?
  }

  function Judge(after: SlaState, violations: seq<Reason>, isCurrent: bool): Verdict {
    if after.degraded then
      var reasons := if violations != [] then violations else if after.violations != [] then after.violations
        else [RecoveryHysteresis];
      Verdict(reasons, violations, if violations != [] then Degraded else PendingRecovery, after.bad, after.good)
    else if violations != [] then
      if isCurrent then Verdict([], violations, PendingDegradation, after.bad, after.good)
      else Verdict(violations, violations, SlaIneligible, after.bad, after.good)
    else Verdict([], [], Eligible, after.bad, after.good)
  }

  // ----- the selector's state

  datatype FlowKey = FlowKey(application: Name, source: Name, destination: Name)

  datatype SlaKey = SlaKey(flow: FlowKey, path: Name)

  datatype Chosen = Chosen(path: Name, score: real, switchedAt: real)

  type SlaTable = map<SlaKey, SlaState>

  datatype State = State(selection: map<FlowKey, Chosen>, sla: SlaTable)

  function Lookup(table: SlaTable, k: SlaKey): SlaState {
    if k in table then table[k] else FRESH
  }

  function Selected(st: State, flow: FlowKey): Option<Chosen> {
    if flow in st.selection then Some(st.selection[flow]) else None
  }

  function EvaluatedTable(t: Tuning, flow: FlowKey, req: Request, item: Measurement, table: SlaTable): SlaTable {
    if HardRejections(t, req, item) != [] then table
    else
      var k := SlaKey(flow, item.path);
      table[k := Advance(t, Lookup(table, k), Violations(item, req.sla))]
  }

  function Evaluated(t: Tuning, flow: FlowKey, req: Request, item: Measurement, table: SlaTable,
                     isCurrent: bool): Verdict {
    var hard := HardRejections(t, req, item);
    if hard != [] then Verdict(hard, [], Unavailable, 0, 0)
    else
      var violations := Violations(item, req.sla);
      Judge(Advance(t, Lookup(table, SlaKey(flow, item.path)), violations), violations, isCurrent)
  }

  datatype Scored = Scored(m: Measurement, score: real, verdict: Verdict)

  function EvaluateAll(t: Tuning, flow: FlowKey, req: Request, current: Option<Name>, items: seq<Measurement>,
                       table: SlaTable): (r: (seq<Scored>, SlaTable))
    requires req.weights.Valid()
    ensures |r.0| == |items|
  {
    if items == [] then ([], table)
    else
      var item := items[0];
      var first := Scored(item, Score(item, req.sla, req.weights),
        Evaluated(t, flow, req, item, table, current == Some(item.path)));
      var (rest, final) := EvaluateAll(t, flow, req, current, items[1..], EvaluatedTable(t, flow, req, item, table));
      ([first] + rest, final)
  }

  /** The candidate at position `k` moves from the pending ones to the evaluated ones. */
  lemma EvaluateOne(t: Tuning, flow: FlowKey, req: Request, current: Option<Name>, items: seq<Measurement>, k: nat,
                    table: SlaTable,
                    done: seq<Scored>)
    requires req.weights.Valid() && k < |items|
    ensures var item := items[k];
            var first := Scored(item, Score(item, req.sla, req.weights),
              Evaluated(t, flow, req, item, table, current == Some(item.path)));
            var all, rest := EvaluateAll(t, flow, req, current, items[k..], table),
                             EvaluateAll(t, flow, req, current, items[k + 1..],
                               EvaluatedTable(t, flow, req, item, table));
            done + all.0 == (done + [first]) + rest.0 && all.1 == rest.1
  {
    assert items[k..][0] == items[k] && items[k..][1..] == items[k + 1..];
  }

  // ----- the choice

  function OrderKey(c: Scored): seq<real> { [c.score, c.m.path as real] }

  function Filter(cs: seq<Scored>, keep: Scored -> bool): (r: seq<Scored>)
    ensures forall c :: c in r <==> c in cs && keep(c)
  {
    if cs == [] then []
    else
      assert cs == [cs[0]] + cs[1..];
      (if keep(cs[0]) then [cs[0]] else []) + Filter(cs[1..], keep)
  }

  /** Head of the stable sort by score, then path. */
  function Leader(cs: seq<Scored>): (b: Scored)
    requires cs != []
    ensures b in cs
    ensures forall c :: c in cs ==> LexLe(OrderKey(b), OrderKey(c))
  {
    var last := cs[|cs| - 1];
    assert cs == cs[..|cs| - 1] + [last];
    LexTotal(OrderKey(last), OrderKey(last));
    if |cs| == 1 then last
    else
      var b := Leader(cs[..|cs| - 1]);
      LexTotal(OrderKey(b), OrderKey(last));
      if LexLe(OrderKey(b), OrderKey(last)) then b
      else
        (forall c | c in cs[..|cs| - 1]
           ensures LexLe(OrderKey(last), OrderKey(c)) {
           LexTransitive(OrderKey(last), OrderKey(b), OrderKey(c));
         }
         last)
  }

  predicate IsEligible(c: Scored) { c.verdict.rejections == [] }

  predicate NotHardRejected(c: Scored) {
    forall k :: 0 <= k < |c.verdict.rejections| ==> !Hard(c.verdict.rejections[k])
  }

  /** The paths the choice is made from, and whether they are only a best-effort fallback. */
  function Pool(candidates: seq<Scored>, bestEffort: bool): (seq<Scored>, bool) {
    var eligible := Filter(candidates, IsEligible);
    if eligible == [] && bestEffort then
      var fallback := Filter(candidates, NotHardRejected);
      (fallback, fallback != [])
    else (eligible, false)
  }

  function OnPath(cs: seq<Scored>, path: Name): (r: seq<Scored>)
    ensures forall c :: c in r <==> c in cs && c.m.path == path
  {
    Filter(cs, (c: Scored) => c.m.path == path)
  }

  datatype Why = NoEligiblePath | BestEffortFallback | InitialBest | PendingHysteresis | CurrentLost
               | RetainCurrent | HoldDownRetained | MinimumImprovementNotMet | BetterScore

  datatype Choice = Choice(selected: Option<Scored>, why: Why)

  function Improvement(current: real, best: real): real {
    if current <= 0.0 then 100.0 else 100.0 * (current - best) / current
  }

  function Choose(t: Tuning, previous: Option<Chosen>, candidates: seq<Scored>, bestEffort: bool, now: real): Choice {
    var (pool, fallback) := Pool(candidates, bestEffort);
    ChooseFrom(t, previous, pool, fallback, now)
  }

  function ChooseFrom(t: Tuning, previous: Option<Chosen>, pool: seq<Scored>, fallback: bool, now: real): Choice {
    if pool == [] then Choice(None, NoEligiblePath)
    else
      var best := Leader(pool);
      if previous.None? then Choice(Some(best), if fallback then BestEffortFallback else InitialBest)
      else
        var same := OnPath(pool, previous.value.path);
        if same == [] then Choice(Some(best), if fallback then BestEffortFallback else CurrentLost)
        else
          var current := Leader(same);
          if current.verdict.standing == PendingDegradation then Choice(Some(current), PendingHysteresis)
          else if best.m.path == previous.value.path then Choice(Some(current), RetainCurrent)
          else if now - previous.value.switchedAt < t.holdDown then Choice(Some(current), HoldDownRetained)
          else if Improvement(current.score, best.score) < t.minImprovement then Choice(Some(current),
            MinimumImprovementNotMet)
          else Choice(Some(best), BetterScore)
  }

  datatype Decision = Decision(candidates: seq<Scored>, choice: Choice, changed: bool, previous: Option<Name>)

  function Recorded(previous: Option<Chosen>, c: Scored, now: real): Chosen {
    Chosen(c.m.path, c.score, if previous.None? || previous.value.path != c.m.path then now
      else previous.value.switchedAt)
  }

  function PathOf(c: Option<Chosen>): Option<Name> {
    if c.Some? then Some(c.value.path) else None
  }

  function Decide(t: Tuning, st: State, flow: FlowKey, req: Request): Decision
    requires req.weights.Valid()
  {
    var previous := Selected(st, flow);
    var candidates := EvaluateAll(t, flow, req, PathOf(previous), req.measurements, st.sla).0;
    var choice := Choose(t, previous, candidates, req.sla.bestEffort, req.now);
    var changed := previous.Some? && (choice.selected.None? || choice.selected.value.m.path != previous.value.path);
    Decision(candidates, choice, changed, PathOf(previous))
  }

  function Next(t: Tuning, st: State, flow: FlowKey, req: Request): State
    requires req.weights.Valid()
  {
    var previous := Selected(st, flow);
    var table := EvaluateAll(t, flow, req, PathOf(previous), req.measurements, st.sla).1;
    var choice := Decide(t, st, flow, req).choice;
    State(if choice.selected.None? then st.selection
          else st.selection[flow := Recorded(previous, choice.selected.value, req.now)], table)
  }

  datatype SelectResult = PolicyError | Decided(decision: Decision)

  class PathSelector {
    const tuning: Tuning
    var selection: map<FlowKey, Chosen>
    var slaState: SlaTable

    ghost function View(): State
      reads this
    {
      State(selection, slaState)
    }

    constructor (tuning: Tuning)
      requires tuning.Valid()
      ensures this.tuning == tuning && View() == State(map[], map[])
    {
      this.tuning := tuning;
      selection := map[];
      slaState := map[];
    }

    method EvaluateCandidate(flow: FlowKey, req: Request, item: Measurement, isCurrent: bool) returns (v: Verdict)
      modifies this`slaState
      ensures v == Evaluated(tuning, flow, req, item, old(slaState), isCurrent)
      ensures slaState == EvaluatedTable(tuning, flow, req, item, old(slaState))
    {
      var immediate := HardRejections(tuning, req, item);
      if immediate != [] {
        return Verdict(immediate, [], Unavailable, 0, 0);
      }
      var violations := Violations(item, req.sla);
      var key := SlaKey(flow, item.path);
      var s := Lookup(slaState, key);
      var degraded, bad, good, recorded := s.degraded, s.bad, s.good, s.violations;
      if violations != [] {
        bad, good, recorded := bad + 1, 0, violations;
        if bad >= tuning.badSamples {
          degraded := true;
        }
      } else {
        bad := 0;
        if degraded {
          good := good + 1;
          if good >= tuning.goodSamples {
            degraded, good, recorded := false, 0, [];
          }
        } else {
          good := if good + 1 <= tuning.goodSamples then good + 1 else tuning.goodSamples;
          recorded := [];
        }
      }
      slaState := slaState[key := SlaState(degraded, bad, good, recorded)];
      return Judge(SlaState(degraded, bad, good, recorded), violations, isCurrent);
    }

    method EvaluateCandidates(flow: FlowKey, req: Request, current: Option<Name>) returns (candidates: seq<Scored>)
      requires req.weights.Valid()
      modifies this`slaState
      ensures candidates == EvaluateAll(tuning, flow, req, current, req.measurements, old(slaState)).0
      ensures slaState == EvaluateAll(tuning, flow, req, current, req.measurements, old(slaState)).1
    {
      candidates := [];
      ghost var goal := EvaluateAll(tuning, flow, req, current, req.measurements, slaState);
      ghost var items := req.measurements;
      assert items[0..] == items;
      for k := 0 to |req.measurements|
        invariant goal.0 == candidates + EvaluateAll(tuning, flow, req, current, items[k..], slaState).0
        invariant goal.1 == EvaluateAll(tuning, flow, req, current, items[k..], slaState).1
      {
        var item := req.measurements[k];
        EvaluateOne(tuning, flow, req, current, items, k, slaState, candidates);
        var v := EvaluateCandidate(flow, req, item, current == Some(item.path));
        var scored := Scored(item, Score(item, req.sla, req.weights), v);
        candidates := candidates + [scored];
      }
      assert items[|items|..] == [] && candidates + [] == candidates;
    }

    method Select(flow: FlowKey, req: Request) returns (r: SelectResult)
      requires req.weights.Valid()
      modifies this
      ensures r.PolicyError? <==> req.allowed == [] || req.transports == []
      ensures r.PolicyError? ==> View() == old(View())
      ensures r.Decided? ==>
              r.decision == Decide(tuning, old(View()), flow, req) && View() == Next(tuning, old(View()), flow, req)
    {
      if req.allowed == [] || req.transports == [] {
        return PolicyError;
      }
      var previous := if flow in selection then Some(selection[flow]) else None;
      var candidates := EvaluateCandidates(flow, req, PathOf(previous));
      var choice := Choose(tuning, previous, candidates, req.sla.bestEffort, req.now);
      if choice.selected.None? {
        return Decided(Decision(candidates, choice, previous.Some?, PathOf(previous)));
      }
      var selected := choice.selected.value;
      var changed := previous.Some? && previous.value.path != selected.m.path;
      var switchedAt := if changed || previous.None? then req.now else previous.value.switchedAt;
      selection := selection[flow := Chosen(selected.m.path, selected.score, switchedAt)];
      return Decided(Decision(candidates, choice, changed, PathOf(previous)));
    }
  }
}
