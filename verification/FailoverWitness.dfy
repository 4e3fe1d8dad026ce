/** A run, probe by probe, in which failback puts a slot on a target that was never configured for it. */
module FailoverWitness {
  import opened Basics
  import opened TunnelHealth
  import opened RouteResolver
  import opened LocalFailover
  import opened FailoverRuntime
  import opened FailoverRuns

  const SLOT: Name := 0
  const OTHER: Name := 1
  const FIRST: Name := 0
  const SECOND: Name := 1
  const THIRD: Name := 2

  const LIMITS := Thresholds(1, 2, 1, 0.0, 10.0)

  /** Which tunnels answer their probe in round `k`. */
  predicate Answers(k: nat, n: Name) {
    match n
    case 1 => k < 2 || k >= 4
    case 2 => k >= 2
    case _ => false
  }

  function NoMetrics(): Metrics { Metrics(None, None, None, None, 0.0) }

  function Input(k: nat): RoundInput {
    RoundInput(map[FIRST := Probe(k, Answers(k, FIRST)), SECOND := Probe(k, Answers(k, SECOND)),
      THIRD := Probe(k, Answers(k, THIRD))],
               map[FIRST := NoMetrics(), SECOND := NoMetrics(), THIRD := NoMetrics()], [],
               map[SLOT := SlotInput(k as real, 0, 2 * k), OTHER := SlotInput(k as real, 0, 2 * k + 1)])
  }

  function Inputs(k: nat): (r: seq<RoundInput>)
    ensures |r| == k && forall j :: 0 <= j < k ==> r[j] == Input(j)
  {
    if k == 0 then [] else Inputs(k - 1) + [Input(k - 1)]
  }

  lemma SmallConfigIsValid(cfg: Config, a: Name, b: Name, c: Name, x: Name, y: Name)
    requires cfg.names == [a, b, c] && cfg.tunnels.Keys == {a, b, c} && cfg.transports == [x, y] &&
             cfg.routeTable.Keys == {x, y}
    requires cfg.thresholds.Valid() && cfg.drainTimeout > 0.0 && forall n ::
             n in cfg.tunnels ==> cfg.tunnels[n].transport in {x, y}
    ensures cfg.Valid()
  {
    ThreeNames(a, b, c);
    TwoNames(x, y);
  }

  lemma SmallOrderFits(order: seq<Name>, targets: map<Name, SlotTarget>, x: Name, y: Name)
    requires order == [x, y] && x != y && targets.Keys == {x, y}
    ensures Distinct(order) && ToSet(order) == targets.Keys
  {
    TwoNames(x, y);
  }

  /** One spoke with two hubs, two transports, three tunnels and two slots. */
  lemma SmallSite(a: Name, b: Name, c: Name, x: Name, y: Name)
    returns (cfg: Config, order: seq<Name>, targets: map<Name, SlotTarget>)
    requires a != b && a != c && b != c && x != y
    ensures Configured(cfg, order, targets) && order == [x, y] && cfg.thresholds == LIMITS && cfg.drainTimeout == 30.0
    ensures cfg.tunnels.Keys == {a, b, c} && x in targets && targets[x].interface == a
  {
    var tunnels := map[a := Tunnel(0, x), b := Tunnel(1, x), c := Tunnel(0, y)];
    cfg := Config([a, b, c], tunnels, [x, y], map[x := 100, y := 101], Preference(0, 1), LIMITS, 30.0);
    order, targets := [x, y], map[x := SlotTarget(0, x, a, 100), y := SlotTarget(0, y, c, 101)];
    SmallConfigIsValid(cfg, a, b, c, x, y);
    SmallOrderFits(order, targets, x, y);
  }

  lemma ThreeNames(a: Name, b: Name, c: Name)
    ensures ToSet([a, b, c]) == {a, b, c}
  {
    ToSetMeaning([a, b, c]);
  }

  lemma TwoNames(a: Name, b: Name)
    ensures ToSet([a, b]) == {a, b}
  {
    ToSetMeaning([a, b]);
  }

  lemma InputsAreFit(cfg: Config, order: seq<Name>, k: nat)
    requires cfg.tunnels.Keys == {FIRST, SECOND, THIRD} && order == [SLOT, OTHER]
    ensures InputsFit(cfg, order, Inputs(k))
  {
  }

  // ----- health, tunnel by tunnel

  /** The health of tunnel `n` before round `k`. */
  function HealthAt(k: nat, n: Name): Health {
    if k == 0 then INITIAL
    else Observe(LIMITS, HealthAt(k - 1, n), Probe(k - 1, Answers(k - 1, n)).sample, (k - 1) as real)
  }

  lemma FirstTunnel()
    ensures HealthAt(1, FIRST).state == Suspect && HealthAt(2, FIRST).state == Failed &&
            HealthAt(3, FIRST).state == Failed
    ensures HealthAt(4, FIRST).state == Failed
  {
    assert HealthAt(1, FIRST) == Health(Suspect, 0, 1, 0, 0.0, None);
    assert HealthAt(2, FIRST) == Health(Failed, 0, 2, 1, 1.0, None);
    assert HealthAt(3, FIRST) == Health(Failed, 0, 3, 2, 2.0, None);
    assert HealthAt(4, FIRST) == Health(Failed, 0, 4, 3, 3.0, None);
  }

  lemma SecondTunnel()
    ensures HealthAt(2, SECOND).state == Healthy && HealthAt(3, SECOND).state == Suspect &&
            HealthAt(4, SECOND).state == Failed
    ensures HealthAt(5, SECOND).state == Recovering && HealthAt(6, SECOND).state == Healthy &&
            HealthAt(7, SECOND).state == Healthy
  {
    assert HealthAt(1, SECOND) == Health(Healthy, 1, 0, 0, 0.0, Some(0.0));
    assert HealthAt(2, SECOND) == Health(Healthy, 2, 0, 1, 0.0, Some(1.0));
    assert HealthAt(3, SECOND) == Health(Suspect, 0, 1, 2, 2.0, Some(1.0));
    assert HealthAt(4, SECOND) == Health(Failed, 0, 2, 3, 3.0, Some(1.0));
    assert HealthAt(5, SECOND) == Health(Recovering, 1, 0, 4, 3.0, Some(4.0));
    assert HealthAt(6, SECOND) == Health(Healthy, 2, 0, 5, 3.0, Some(5.0));
    assert HealthAt(7, SECOND) == Health(Healthy, 3, 0, 6, 3.0, Some(6.0));
  }

  lemma ThirdTunnel()
    ensures HealthAt(2, THIRD).state == Failed && HealthAt(4, THIRD).state == Healthy &&
            HealthAt(5, THIRD).state == Healthy
    ensures HealthAt(6, THIRD).state == Healthy && HealthAt(7, THIRD).state == Healthy
  {
    assert HealthAt(1, THIRD) == Health(Suspect, 0, 1, 0, 0.0, None);
    assert HealthAt(2, THIRD) == Health(Failed, 0, 2, 1, 1.0, None);
    assert HealthAt(3, THIRD) == Health(Recovering, 1, 0, 2, 1.0, Some(2.0));
    assert HealthAt(4, THIRD) == Health(Healthy, 2, 0, 3, 1.0, Some(3.0));
    assert HealthAt(5, THIRD) == Health(Healthy, 3, 0, 4, 1.0, Some(4.0));
    assert HealthAt(6, THIRD) == Health(Healthy, 4, 0, 5, 1.0, Some(5.0));
    assert HealthAt(7, THIRD) == Health(Healthy, 5, 0, 6, 1.0, Some(6.0));
  }

  // ----- the slot, round by round

  ghost predicate Healths(health: map<Name, Health>, k: nat) {
    health.Keys == {FIRST, SECOND, THIRD} &&
    health[FIRST] == HealthAt(k, FIRST) && health[SECOND] == HealthAt(k, SECOND) && health[THIRD] == HealthAt(k, THIRD)
  }

  /** Round `k` takes the slot from `l` to `next`, on the health that the probes give. */
  ghost predicate Turn(k: nat, l: Lane, health: map<Name, Health>, r: Option<SlotTarget>, next: Lane) {
    Healths(health, k + 1) && HasHealth(l, health) && HonestOffer(r, health) &&
    next == StepLane(30.0, health, r, SlotInput(k as real, 0, 2 * k), l)
  }

  /** The only healthy tunnel is what the resolver offers. */
  lemma OnlyOffer(r: Option<SlotTarget>, health: map<Name, Health>, n: Name)
    requires HonestOffer(r, health) && n in health && health[n].state == Healthy
    requires forall m :: m in health && m != n ==> health[m].state != Healthy
    ensures r.Some? && r.value.interface == n
  {
  }

  ghost predicate Normal(l: Lane, n: Name) {
    l.slot.current == l.slot.previous && l.slot.current.interface == n && !l.slot.emergency && !l.marked
  }

  ghost predicate Away(l: Lane, saved: Name, n: Name) {
    l.slot.emergency && !l.marked && l.slot.current.interface == n && l.slot.previous.interface == saved
  }

  lemma StaysPut(l: Lane, health: map<Name, Health>, r: Option<SlotTarget>, next: Lane)
    requires Turn(0, l, health, r, next) && Normal(l, FIRST)
    ensures Normal(next, FIRST)
  {
    FirstTunnel();
  }

  lemma FirstRemap(l: Lane, health: map<Name, Health>, r: Option<SlotTarget>, next: Lane)
    requires Turn(1, l, health, r, next) && Normal(l, FIRST)
    ensures Away(next, FIRST, SECOND)
  {
    FirstTunnel();
    SecondTunnel();
    ThirdTunnel();
    OnlyOffer(r, health, SECOND);
  }

  lemma StaysAway(l: Lane, health: map<Name, Health>, r: Option<SlotTarget>, next: Lane)
    requires Turn(2, l, health, r, next) && Away(l, FIRST, SECOND)
    ensures Away(next, FIRST, SECOND)
  {
    FirstTunnel();
    SecondTunnel();
  }

  lemma SecondRemap(l: Lane, health: map<Name, Health>, r: Option<SlotTarget>, next: Lane)
    requires Turn(3, l, health, r, next) && Away(l, FIRST, SECOND)
    ensures Away(next, SECOND, THIRD)
  {
    FirstTunnel();
    SecondTunnel();
    ThirdTunnel();
    OnlyOffer(r, health, THIRD);
  }

  lemma StillAway(l: Lane, health: map<Name, Health>, r: Option<SlotTarget>, next: Lane)
    requires Turn(4, l, health, r, next) && Away(l, SECOND, THIRD)
    ensures Away(next, SECOND, THIRD)
  {
    SecondTunnel();
    ThirdTunnel();
  }

  lemma StartsDraining(l: Lane, health: map<Name, Health>, r: Option<SlotTarget>, next: Lane)
    requires Turn(5, l, health, r, next) && Away(l, SECOND, THIRD)
    ensures next.slot.emergency && next.marked && next.slot.drainDeadline.Some?
    ensures next.slot.current.interface == THIRD && next.slot.previous.interface == SECOND
  {
    SecondTunnel();
    ThirdTunnel();
  }

  lemma FailsBackToSecond(l: Lane, health: map<Name, Health>, r: Option<SlotTarget>, next: Lane)
    requires Turn(6, l, health, r, next) && l.slot.emergency && l.marked && l.slot.drainDeadline.Some?
    requires l.slot.current.interface == THIRD && l.slot.previous.interface == SECOND
    ensures FailsBack(l, next) && next.slot.current.interface == SECOND
  {
    SecondTunnel();
    ThirdTunnel();
  }

  // ----- the run

  /** What the story needs to know about configuration and inputs. */
  ghost predicate Told(cfg: Config, targets: map<Name, SlotTarget>, inputs: seq<RoundInput>) {
    cfg.thresholds == LIMITS && cfg.drainTimeout == 30.0 && cfg.tunnels.Keys == {FIRST, SECOND, THIRD} &&
    SLOT in targets && targets[SLOT].interface == FIRST && |inputs| == 7 &&
    forall k :: 0 <= k < 7 ==> Asked(k, inputs[k])
  }

  ghost predicate Asked(k: nat, i: RoundInput) {
    {FIRST, SECOND, THIRD} <= i.samples.Keys && i.samples[FIRST] == Probe(k, Answers(k, FIRST)) &&
    i.samples[SECOND] == Probe(k, Answers(k, SECOND)) && i.samples[THIRD] == Probe(k, Answers(k, THIRD)) &&
    SLOT in i.slots && i.slots[SLOT] == SlotInput(k as real, 0, 2 * k)
  }

  lemma {:induction false} HealthInRun(cfg: Config, order: seq<Name>, targets: map<Name, SlotTarget>,
                                       states: seq<State>, inputs: seq<RoundInput>, k: nat, n: Name)
    requires IsRun(cfg, order, targets, states, inputs) && Told(cfg, targets, inputs) && k <= 7 &&
             n in {FIRST, SECOND, THIRD}
    ensures n in states[k].health && states[k].health[n] == HealthAt(k, n)
  {
    if k > 0 {
      var j := k - 1;
      HealthInRun(cfg, order, targets, states, inputs, j, n);
      RoundFeeds(cfg, order, targets, states, inputs, j, n);
      assert Asked(j, inputs[j]);
    }
  }

  lemma OneRound(cfg: Config, order: seq<Name>, targets: map<Name, SlotTarget>, states: seq<State>,
                 inputs: seq<RoundInput>, k: nat)
    returns (r: Option<SlotTarget>)
    requires IsRun(cfg, order, targets, states, inputs) && Told(cfg, targets, inputs) && k < 7
    ensures InSlots(states[k]) && InSlots(states[k + 1])
    ensures Turn(k, LaneOf(states[k], SLOT), states[k + 1].health, r, LaneOf(states[k + 1], SLOT))
  {
    r := RunStep(cfg, order, targets, states, inputs, k, SLOT);
    RunKeepsInv(cfg, order, targets, states, inputs, k + 1);
    HealthInRun(cfg, order, targets, states, inputs, k + 1, FIRST);
    HealthInRun(cfg, order, targets, states, inputs, k + 1, SECOND);
    HealthInRun(cfg, order, targets, states, inputs, k + 1, THIRD);
    assert Asked(k, inputs[k]);
  }

  ghost predicate InSlots(st: State) { SLOT in st.manager.slots && SLOT in st.programmed }

  lemma StartsNormal(cfg: Config, order: seq<Name>, targets: map<Name, SlotTarget>, states: seq<State>,
                     inputs: seq<RoundInput>)
    requires IsRun(cfg, order, targets, states, inputs) && Told(cfg, targets, inputs)
    ensures InSlots(states[0]) && Normal(LaneOf(states[0], SLOT), FIRST)
  {
  }

  lemma AfterOne(cfg: Config, order: seq<Name>, targets: map<Name, SlotTarget>, states: seq<State>,
                 inputs: seq<RoundInput>)
    requires IsRun(cfg, order, targets, states, inputs) && Told(cfg, targets, inputs)
    ensures InSlots(states[1]) && Normal(LaneOf(states[1], SLOT), FIRST)
  {
    StartsNormal(cfg, order, targets, states, inputs);
    var r := OneRound(cfg, order, targets, states, inputs, 0);
    StaysPut(LaneOf(states[0], SLOT), states[1].health, r, LaneOf(states[1], SLOT));
  }

  lemma AfterTwo(cfg: Config, order: seq<Name>, targets: map<Name, SlotTarget>, states: seq<State>,
                 inputs: seq<RoundInput>)
    requires IsRun(cfg, order, targets, states, inputs) && Told(cfg, targets, inputs)
    ensures InSlots(states[2]) && Away(LaneOf(states[2], SLOT), FIRST, SECOND)
  {
    AfterOne(cfg, order, targets, states, inputs);
    var r := OneRound(cfg, order, targets, states, inputs, 1);
    FirstRemap(LaneOf(states[1], SLOT), states[2].health, r, LaneOf(states[2], SLOT));
  }

  lemma AfterThree(cfg: Config, order: seq<Name>, targets: map<Name, SlotTarget>, states: seq<State>,
                   inputs: seq<RoundInput>)
    requires IsRun(cfg, order, targets, states, inputs) && Told(cfg, targets, inputs)
    ensures InSlots(states[3]) && Away(LaneOf(states[3], SLOT), FIRST, SECOND)
  {
    AfterTwo(cfg, order, targets, states, inputs);
    var r := OneRound(cfg, order, targets, states, inputs, 2);
    StaysAway(LaneOf(states[2], SLOT), states[3].health, r, LaneOf(states[3], SLOT));
  }

  lemma AfterFour(cfg: Config, order: seq<Name>, targets: map<Name, SlotTarget>, states: seq<State>,
                  inputs: seq<RoundInput>)
    requires IsRun(cfg, order, targets, states, inputs) && Told(cfg, targets, inputs)
    ensures InSlots(states[4]) && Away(LaneOf(states[4], SLOT), SECOND, THIRD)
  {
    AfterThree(cfg, order, targets, states, inputs);
    var r := OneRound(cfg, order, targets, states, inputs, 3);
    SecondRemap(LaneOf(states[3], SLOT), states[4].health, r, LaneOf(states[4], SLOT));
  }

  lemma AfterFive(cfg: Config, order: seq<Name>, targets: map<Name, SlotTarget>, states: seq<State>,
                  inputs: seq<RoundInput>)
    requires IsRun(cfg, order, targets, states, inputs) && Told(cfg, targets, inputs)
    ensures InSlots(states[5]) && Away(LaneOf(states[5], SLOT), SECOND, THIRD)
  {
    AfterFour(cfg, order, targets, states, inputs);
    var r := OneRound(cfg, order, targets, states, inputs, 4);
    StillAway(LaneOf(states[4], SLOT), states[5].health, r, LaneOf(states[5], SLOT));
  }

  lemma EndsOnSecond(cfg: Config, order: seq<Name>, targets: map<Name, SlotTarget>, states: seq<State>,
                     inputs: seq<RoundInput>)
    requires IsRun(cfg, order, targets, states, inputs) && Told(cfg, targets, inputs)
    ensures InSlots(states[6]) && InSlots(states[7]) && FailsBack(LaneOf(states[6], SLOT), LaneOf(states[7], SLOT))
    ensures LaneOf(states[7], SLOT).slot.current.interface == SECOND
  {
    AfterFive(cfg, order, targets, states, inputs);
    var r5 := OneRound(cfg, order, targets, states, inputs, 5);
    StartsDraining(LaneOf(states[5], SLOT), states[6].health, r5, LaneOf(states[6], SLOT));
    var r6 := OneRound(cfg, order, targets, states, inputs, 6);
    FailsBackToSecond(LaneOf(states[6], SLOT), states[7].health, r6, LaneOf(states[7], SLOT));
  }

  /** Seven rounds of probes, all accepted: two remaps, then a failback that leaves the slot on a target that was never
      configured for it. */
  lemma SecondRemapForgetsBaseline()
    returns (cfg: Config, order: seq<Name>, targets: map<Name, SlotTarget>, states: seq<State>,
      inputs: seq<RoundInput>, s: Name)
    ensures IsRun(cfg, order, targets, states, inputs) && |inputs| == 7 && s in targets
    ensures s in states[6].manager.slots && s in states[7].manager.slots
    ensures states[6].manager.slots[s].emergency && !states[7].manager.slots[s].emergency
    ensures states[7].manager.slots[s].current != targets[s]
  {
    s := SLOT;
    cfg, order, targets := SmallSite(FIRST, SECOND, THIRD, SLOT, OTHER);
    inputs := Inputs(7);
    InputsAreFit(cfg, order, 7);
    states := EveryInputHasARun(cfg, order, targets, inputs);
    InputsAsk(inputs);
    EndsOnSecond(cfg, order, targets, states, inputs);
  }

  lemma InputAsks(k: nat)
    ensures Asked(k, Input(k))
  {
  }

  lemma InputsAsk(inputs: seq<RoundInput>)
    requires inputs == Inputs(7)
    ensures forall k :: 0 <= k < 7 ==> Asked(k, inputs[k])
  {
    forall k | 0 <= k < 7
      ensures Asked(k, inputs[k])
    {
      InputAsks(k);
    }
  }
}
