/** One monitoring round of a spoke: probe every tunnel, aggregate the hubs, then move each route slot between normal,
    emergency, draining and failback. */
module FailoverRuntime {
  import opened Basics
  import opened TunnelHealth
  import opened HubHealth
  import opened RouteResolver
  import opened LocalFailover

  datatype Tunnel = Tunnel(hub: Name, transport: Name)

  /** `names` lists the interfaces in iteration order; `tunnels` describes each of them. */
  datatype Config = Config(
    names: seq<Name>, tunnels: map<Name, Tunnel>,
    transports: seq<Name>, routeTable: map<Name, int>,
    preference: Preference, thresholds: Thresholds, drainTimeout: real)
  {
    ghost predicate Valid() {
      thresholds.Valid() && drainTimeout > 0.0 &&
      ToSet(names) == tunnels.Keys && ToSet(transports) == routeTable.Keys &&
      forall n :: n in tunnels ==> tunnels[n].transport in routeTable
    }
  }

  datatype Metrics = Metrics(rtt: Option<real>, jitter: Option<real>, loss: Option<real>, available: Option<real>,
                             cost: real)

  /** What one slot's turn reads from outside: the clock, the conntrack flow count, a fresh event id. */
  datatype SlotInput = SlotInput(now: real, flows: int, eventId: Name)

  /** Everything one round reads from outside. */
  datatype RoundInput = RoundInput(
    samples: map<Name, Observation>, metrics: map<Name, Metrics>, direct: seq<Target>, slots: map<Name, SlotInput>)

  /** `programmed` is the device each slot's generic route table points at. */
  datatype State = State(
    health: map<Name, Health>, manager: ManagerState, recovering: set<Name>, programmed: map<Name, Name>)

  ghost predicate InputFor(cfg: Config, i: RoundInput) {
    cfg.tunnels.Keys <= i.samples.Keys && cfg.tunnels.Keys <= i.metrics.Keys &&
    forall k :: 0 <= k < |i.direct| ==> i.direct[k].egress == DirectInternet
  }

  /** Every slot's targets have health records, and every slot's table has been programmed. */
  ghost predicate WellFormed(st: State) {
    st.programmed.Keys == st.manager.slots.Keys &&
    forall s :: s in st.manager.slots ==>
                  st.manager.slots[s].current.interface in st.health &&
                  st.manager.slots[s].previous.interface in st.health
  }

  /** The state belongs to this configuration: the records are those of its tunnels, slots are transports. */
  ghost predicate Fits(cfg: Config, st: State) {
    WellFormed(st) && st.health.Keys == cfg.tunnels.Keys && st.manager.slots.Keys <= cfg.routeTable.Keys
  }

  // ----- the round as a function

  function ObserveAll(cfg: Config, health: map<Name, Health>, i: RoundInput): (r: map<Name, Health>)
    requires health.Keys == cfg.tunnels.Keys <= i.samples.Keys
    ensures r.Keys == cfg.tunnels.Keys
  {
    map n | n in cfg.tunnels :: Observe(cfg.thresholds, health[n], i.samples[n].sample, i.samples[n].now)
  }

  function HubTunnels(cfg: Config, observed: map<Name, Health>, hub: Name): map<Name, Health>
    requires observed.Keys == cfg.tunnels.Keys
  {
    map n | n in cfg.tunnels && cfg.tunnels[n].hub == hub :: observed[n]
  }

  function TargetOf(cfg: Config, observed: map<Name, Health>, i: RoundInput, n: Name): Target
    requires observed.Keys == cfg.tunnels.Keys <= i.metrics.Keys && n in cfg.tunnels
  {
    var m := i.metrics[n];
    var hub := cfg.tunnels[n].hub;
    Target(Some(hub), cfg.tunnels[n].transport, n, HubOverlay, observed[n].state,
           Some(AggregateHub(HubTunnels(cfg, observed, hub)).state), m.rtt, m.jitter, m.loss, m.available, m.cost)
  }

  function Targets(cfg: Config, observed: map<Name, Health>, i: RoundInput, names: seq<Name>): (r: seq<Target>)
    requires observed.Keys == cfg.tunnels.Keys <= i.metrics.Keys
    requires ToSet(names) <= cfg.tunnels.Keys
    ensures |r| == |names|
    ensures forall k :: 0 <= k < |names| ==> names[k] in cfg.tunnels && r[k] == TargetOf(cfg, observed, i, names[k])
  {
    if names == [] then [] else [TargetOf(cfg, observed, i, names[0])] + Targets(cfg, observed, i, names[1..])
  }

  function Without(names: seq<Name>, out: Name): (r: seq<Name>)
    ensures forall n :: n in r <==> n in names && n != out
  {
    if names == [] then []
    else
      assert names == [names[0]] + names[1..];
      (if names[0] != out then [names[0]] else []) + Without(names[1..], out)
  }

  /** The slot's own transport first, then the others in configured order. */
  function Ranked(cfg: Config, slot: Name): seq<Name> {
    [slot] + Without(cfg.transports, slot)
  }

  function RoundTargets(cfg: Config, observed: map<Name, Health>, i: RoundInput): seq<Target>
    requires cfg.Valid() && observed.Keys == cfg.tunnels.Keys && InputFor(cfg, i)
  {
    Targets(cfg, observed, i, cfg.names) + i.direct
  }

  // ----- the replacement, in terms of tunnels

  /** A tunnel is rated by its hub and this round's measurements. */
  function TunnelRating(cfg: Config, i: RoundInput, n: Name): Rating
    requires n in cfg.tunnels && n in i.metrics
  {
    var m := i.metrics[n];
    Rating(Some(cfg.tunnels[n].hub), m.loss, m.jitter, m.rtt, m.available, m.cost, n)
  }

  predicate Up(cfg: Config, observed: map<Name, Health>, transport: Name, n: Name) {
    n in cfg.tunnels && n in observed && observed[n].state == Healthy && cfg.tunnels[n].transport == transport
  }

  /** No tunnel that is up on the transport is ahead of `n`. */
  ghost predicate BestTunnel(cfg: Config, observed: map<Name, Health>, i: RoundInput, transport: Name, n: Name)
    requires cfg.tunnels.Keys <= i.metrics.Keys
  {
    Up(cfg, observed, transport, n) &&
    forall m :: Up(cfg, observed, transport, m) ==>
                  NoWorse(TunnelRating(cfg, i, n), TunnelRating(cfg, i, m), cfg.preference)
  }

  ghost predicate AllDown(cfg: Config, observed: map<Name, Health>, transport: Name) {
    forall n :: !Up(cfg, observed, transport, n)
  }

  /** The slot's own transport, or the first configured one, with none before it, that has a tunnel up. */
  ghost predicate FirstWithTunnel(cfg: Config, observed: map<Name, Health>, slot: Name, transport: Name) {
    transport == slot ||
    (AllDown(cfg, observed, slot) &&
     exists p :: 0 <= p < |cfg.transports| && cfg.transports[p] == transport &&
                 forall k :: 0 <= k < p ==> AllDown(cfg, observed, cfg.transports[k]))
  }

  lemma HealthyTargetServes(cfg: Config, observed: map<Name, Health>, i: RoundInput, n: Name)
    requires observed.Keys == cfg.tunnels.Keys <= i.metrics.Keys && n in cfg.tunnels && observed[n].state == Healthy
    ensures ServesOn(TargetOf(cfg, observed, i, n), HubOverlay, cfg.tunnels[n].transport)
  {
    HealthyTunnelKeepsHubUsable(HubTunnels(cfg, observed, cfg.tunnels[n].hub), n);
  }

  /** The targets that serve on a transport are exactly the tunnels that are up there. */
  lemma ServingTargets(cfg: Config, observed: map<Name, Health>, i: RoundInput, transport: Name, t: Target)
    requires cfg.Valid() && observed.Keys == cfg.tunnels.Keys && InputFor(cfg, i)
    ensures t in RoundTargets(cfg, observed, i) && ServesOn(t, HubOverlay, transport) <==>
            Up(cfg, observed, transport, t.interface) && t == TargetOf(cfg, observed, i, t.interface)
  {
    var overlay := Targets(cfg, observed, i, cfg.names);
    if t in RoundTargets(cfg, observed, i) && ServesOn(t, HubOverlay, transport) {
      assert t !in i.direct;
      var k :| 0 <= k < |overlay| && overlay[k] == t;
      assert overlay[k] == TargetOf(cfg, observed, i, cfg.names[k]);
    }
    if Up(cfg, observed, transport, t.interface) {
      HealthyTargetServes(cfg, observed, i, t.interface);
      TargetIsListed(cfg, observed, i, t.interface);
    }
  }

  lemma NoneServes(cfg: Config, observed: map<Name, Health>, i: RoundInput, transport: Name)
    requires cfg.Valid() && observed.Keys == cfg.tunnels.Keys && InputFor(cfg, i)
    ensures NoneOn(RoundTargets(cfg, observed, i), HubOverlay, transport) <==> AllDown(cfg, observed, transport)
  {
    forall n | Up(cfg, observed, transport, n)
      ensures TargetOf(cfg, observed, i, n) in RoundTargets(cfg, observed, i)
      ensures ServesOn(TargetOf(cfg, observed, i, n), HubOverlay, transport)
    {
      ServingTargets(cfg, observed, i, transport, TargetOf(cfg, observed, i, n));
    }
    forall t | t in RoundTargets(cfg, observed, i) && ServesOn(t, HubOverlay, transport)
      ensures Up(cfg, observed, transport, t.interface)
    {
      ServingTargets(cfg, observed, i, transport, t);
    }
  }

  lemma LeaderIsBestTunnel(cfg: Config, observed: map<Name, Health>, i: RoundInput, transport: Name, t: Target)
    requires cfg.Valid() && observed.Keys == cfg.tunnels.Keys && InputFor(cfg, i)
    requires LeadsOn(t, RoundTargets(cfg, observed, i), HubOverlay, transport, cfg.preference)
    ensures BestTunnel(cfg, observed, i, transport, t.interface) && t == TargetOf(cfg, observed, i, t.interface)
  {
    ServingTargets(cfg, observed, i, transport, t);
    forall m | Up(cfg, observed, transport, m)
      ensures NoWorse(TunnelRating(cfg, i, t.interface), TunnelRating(cfg, i, m), cfg.preference)
    {
      ServingTargets(cfg, observed, i, transport, TargetOf(cfg, observed, i, m));
    }
  }

  /** What precedes a name in the shortened list: the one left out, and nothing else new. */
  lemma {:induction false} WithoutOrder(names: seq<Name>, out: Name, j: nat) returns (p: nat)
    requires j < |Without(names, out)|
    ensures p < |names| && names[p] == Without(names, out)[j]
    ensures forall k :: 0 <= k < p ==> names[k] == out || names[k] in Without(names, out)[..j]
  {
    var w, rest := Without(names, out), Without(names[1..], out);
    if names[0] != out && j == 0 {
      p := 0;
    } else {
      var i := if names[0] != out then j - 1 else j;
      var q := WithoutOrder(names[1..], out, i);
      p := q + 1;
      assert w[j] == rest[i];
      forall k | 0 <= k < p
        ensures names[k] == out || names[k] in w[..j]
      {
        if k > 0 {
          assert names[k] == names[1..][k - 1];
          if names[k] != out {
            var l :| 0 <= l < i && rest[l] == names[k];
            assert w[..j][if names[0] != out then l + 1 else l] == names[k];
          }
        } else if names[0] != out {
          assert w[..j][0] == names[0];
        }
      }
    }
  }

  lemma LeaderIsOnFirstTransport(cfg: Config, observed: map<Name, Health>, i: RoundInput, slot: Name, j: nat, t: Target)
    requires cfg.Valid() && observed.Keys == cfg.tunnels.Keys && InputFor(cfg, i)
    requires LeadsAt(t, j, HubOverlay, Ranked(cfg, slot), cfg.preference, RoundTargets(cfg, observed, i))
    ensures FirstWithTunnel(cfg, observed, slot, t.transport)
  {
    var ranked := Ranked(cfg, slot);
    forall k | 0 <= k < j
      ensures AllDown(cfg, observed, ranked[k])
    {
      NoneServes(cfg, observed, i, ranked[k]);
    }
    if j > 0 {
      assert ranked[0] == slot;
      var p := WithoutOrder(cfg.transports, slot, j - 1);
      forall k | 0 <= k < p
        ensures AllDown(cfg, observed, cfg.transports[k])
      {
        if cfg.transports[k] != slot {
          var l :| 0 <= l < j - 1 && Without(cfg.transports, slot)[l] == cfg.transports[k];
          assert ranked[l + 1] == cfg.transports[k];
        }
      }
    }
  }

  lemma NoTransportServes(cfg: Config, observed: map<Name, Health>, i: RoundInput, slot: Name)
    requires cfg.Valid() && observed.Keys == cfg.tunnels.Keys && InputFor(cfg, i)
    ensures NoCandidate(HubOverlay, Ranked(cfg, slot), RoundTargets(cfg, observed, i)) <==>
            forall n :: n in cfg.tunnels ==> observed[n].state != Healthy ||
                                             cfg.tunnels[n].transport !in Ranked(cfg, slot)
  {
    var ranked := Ranked(cfg, slot);
    forall j | 0 <= j < |ranked|
      ensures NoneOn(RoundTargets(cfg, observed, i), HubOverlay, ranked[j]) <==> AllDown(cfg, observed, ranked[j])
    {
      NoneServes(cfg, observed, i, ranked[j]);
    }
    forall n | n in cfg.tunnels && observed[n].state == Healthy && cfg.tunnels[n].transport in ranked
      ensures !NoCandidate(HubOverlay, ranked, RoundTargets(cfg, observed, i))
    {
      var j :| 0 <= j < |ranked| && ranked[j] == cfg.tunnels[n].transport;
      assert Up(cfg, observed, ranked[j], n);
    }
  }

  lemma TargetIsListed(cfg: Config, observed: map<Name, Health>, i: RoundInput, n: Name)
    requires cfg.Valid() && observed.Keys == cfg.tunnels.Keys && InputFor(cfg, i) && n in cfg.tunnels
    ensures TargetOf(cfg, observed, i, n) in RoundTargets(cfg, observed, i)
  {
    ToSetMeaning(cfg.names);
    var overlay := Targets(cfg, observed, i, cfg.names);
    var k :| 0 <= k < |cfg.names| && cfg.names[k] == n;
    assert overlay[k] == TargetOf(cfg, observed, i, n);
  }

  lemma EveryTransportIsRanked(cfg: Config, slot: Name, transport: Name)
    requires cfg.Valid() && transport in cfg.routeTable
    ensures transport in Ranked(cfg, slot)
  {
    ToSetMeaning(cfg.transports);
  }

  function LeaderFor(cfg: Config, observed: map<Name, Health>, i: RoundInput, slot: Name): Option<Target>
    requires cfg.Valid() && observed.Keys == cfg.tunnels.Keys && InputFor(cfg, i)
  {
    FirstEgress([HubOverlay], Ranked(cfg, slot), cfg.preference, RoundTargets(cfg, observed, i))
  }

  lemma NoLeaderMeaning(cfg: Config, observed: map<Name, Health>, i: RoundInput, slot: Name)
    requires cfg.Valid() && observed.Keys == cfg.tunnels.Keys && InputFor(cfg, i)
    ensures LeaderFor(cfg, observed, i, slot).None? <==> forall n :: n in cfg.tunnels ==> observed[n].state != Healthy
  {
    var ranked := Ranked(cfg, slot);
    OneEgress(HubOverlay, ranked, cfg.preference, RoundTargets(cfg, observed, i));
    FirstTransportMeaning(HubOverlay, ranked, cfg.preference, RoundTargets(cfg, observed, i));
    NoTransportServes(cfg, observed, i, slot);
    forall n | n in cfg.tunnels
      ensures cfg.tunnels[n].transport in ranked
    {
      EveryTransportIsRanked(cfg, slot, cfg.tunnels[n].transport);
    }
  }

  lemma LeaderMeaning(cfg: Config, observed: map<Name, Health>, i: RoundInput, slot: Name)
    requires cfg.Valid() && observed.Keys == cfg.tunnels.Keys && InputFor(cfg, i)
    ensures var r := LeaderFor(cfg, observed, i, slot);
            r.Some? ==>
              && r.value.interface in cfg.tunnels && r.value == TargetOf(cfg, observed, i, r.value.interface)
              && BestTunnel(cfg, observed, i, r.value.transport, r.value.interface)
              && FirstWithTunnel(cfg, observed, slot, r.value.transport)
  {
    var r := LeaderFor(cfg, observed, i, slot);
    if r.Some? {
      var j := LeaderLeads(cfg, observed, i, slot, r.value);
      LeaderIsBestTunnel(cfg, observed, i, Ranked(cfg, slot)[j], r.value);
      LeaderIsOnFirstTransport(cfg, observed, i, slot, j, r.value);
    }
  }

  lemma LeaderLeads(cfg: Config, observed: map<Name, Health>, i: RoundInput, slot: Name, t: Target) returns (j: nat)
    requires cfg.Valid() && observed.Keys == cfg.tunnels.Keys && InputFor(cfg, i)
    requires LeaderFor(cfg, observed, i, slot) == Some(t)
    ensures LeadsAt(t, j, HubOverlay, Ranked(cfg, slot), cfg.preference, RoundTargets(cfg, observed, i))
  {
    var candidates, ranked := RoundTargets(cfg, observed, i), Ranked(cfg, slot);
    OneEgress(HubOverlay, ranked, cfg.preference, candidates);
    FirstTransportMeaning(HubOverlay, ranked, cfg.preference, candidates);
    j :| LeadsAt(t, j, HubOverlay, ranked, cfg.preference, candidates);
  }

  function Replacement(cfg: Config, observed: map<Name, Health>, i: RoundInput, slot: Name): (r: Option<SlotTarget>)
    requires cfg.Valid() && observed.Keys == cfg.tunnels.Keys && InputFor(cfg, i) && slot in cfg.routeTable
    ensures r.Some? ==> r.value.interface in cfg.tunnels && observed[r.value.interface].state == Healthy
  {
    LeaderMeaning(cfg, observed, i, slot);
    match LeaderFor(cfg, observed, i, slot)
    case None => None
    case Some(t) => Some(SlotTarget(t.hub.value, t.transport, t.interface, cfg.routeTable[slot]))
  }

  /** There is a replacement exactly if some tunnel is HEALTHY. It is on the slot's own transport if a tunnel is up
      there, and else on the first configured one that has any; on that transport it is on the preferred hub if a tunnel
      is up there, and else on the standby if one is, and among equals the best by this round's measurements. It keeps
      the slot's route table. */
  lemma ReplacementMeaning(cfg: Config, observed: map<Name, Health>, i: RoundInput, slot: Name)
    requires cfg.Valid() && observed.Keys == cfg.tunnels.Keys && InputFor(cfg, i) && slot in cfg.routeTable
    ensures var r := Replacement(cfg, observed, i, slot);
            && (r.None? <==> forall n :: n in cfg.tunnels ==> observed[n].state != Healthy)
            && (r.Some? ==>
              var n, transport := r.value.interface, r.value.transport;
              && BestTunnel(cfg, observed, i, transport, n) && FirstWithTunnel(cfg, observed, slot, transport)
              && r.value.hub == cfg.tunnels[n].hub && r.value.routeTable == cfg.routeTable[slot]
              && (!AllDown(cfg, observed, slot) ==> transport == slot)
              && (forall m :: Up(cfg, observed, transport, m) && cfg.tunnels[m].hub == cfg.preference.preferred ==>
                    r.value.hub == cfg.preference.preferred)
              && (forall m :: Up(cfg, observed, transport, m) && cfg.tunnels[m].hub == cfg.preference.standby ==>
                    r.value.hub in {cfg.preference.preferred, cfg.preference.standby}))
  {
    NoLeaderMeaning(cfg, observed, i, slot);
    LeaderMeaning(cfg, observed, i, slot);
  }

  /** What a slot's turn does. */
  datatype Move = Stay | RemapTo(target: SlotTarget) | ClearMark | StartDrain | FailBack

  function Decide(current: TunnelState, previous: TunnelState, s: SlotState, marked: bool,
                  replacement: Option<SlotTarget>, i: SlotInput): Move {
    if current == Failed then
      if replacement.None? || replacement.value.interface == s.current.interface then Stay
      else RemapTo(replacement.value)
    else if !s.emergency then Stay
    else if previous != Healthy then ClearMark
    else if !marked then StartDrain
    else if CanComplete(s, i.flows, i.now) then FailBack
    else Stay
  }

  function Apply(drain: real, slot: Name, move: Move, i: SlotInput, st: State): State
    requires slot in st.manager.slots
  {
    match move
    case Stay => st
    case RemapTo(target) =>
      st.(manager := Remap(st.manager, i.eventId, slot, target, i.now),
        programmed := st.programmed[slot := target.interface])
    case ClearMark => st.(recovering := st.recovering - {slot})
    case StartDrain => st.(manager := Begin(st.manager, slot, drain, i.now), recovering := st.recovering + {slot})
    case FailBack =>
      st.(manager := Complete(st.manager, slot, i.flows, i.now), recovering := st.recovering - {slot},
          programmed := st.programmed[slot := st.manager.slots[slot].previous.interface])
  }

  /** One slot's turn, on a state whose health records are this round's; `r` is what the resolver offers. */
  function StepSlot(drain: real, slot: Name, r: Option<SlotTarget>, i: SlotInput, st: State): State
    requires WellFormed(st) && slot in st.manager.slots
  {
    var s := st.manager.slots[slot];
    var move := Decide(st.health[s.current.interface].state, st.health[s.previous.interface].state,
                       s, slot in st.recovering, r, i);
    Apply(drain, slot, move, i, st)
  }

  /** The resolver's offer to each slot. */
  type Offers = map<Name, Option<SlotTarget>>

  ghost predicate GoodOffer(r: Option<SlotTarget>, health: map<Name, Health>) {
    r.Some? ==> r.value.interface in health && health[r.value.interface].state == Healthy
  }

  /** A slot's turn leaves the other slots, the health records and all other events alone. */
  ghost predicate OnlySlotChanges(st: State, next: State, slot: Name, id: Name) {
    WellFormed(next) && next.manager.slots.Keys == st.manager.slots.Keys && next.health == st.health &&
    next.manager.events.Keys <= st.manager.events.Keys + {id} && OthersKept(st, next, slot)
  }

  ghost predicate OthersKept(st: State, next: State, slot: Name) {
    forall s :: s in st.manager.slots && s != slot ==>
                  s in next.manager.slots && next.manager.slots[s] == st.manager.slots[s] &&
                  s in st.programmed && s in next.programmed && next.programmed[s] == st.programmed[s] &&
                  (s in next.recovering <==> s in st.recovering)
  }

  lemma RemapKeeps(drain: real, slot: Name, target: SlotTarget, i: SlotInput, st: State)
    requires WellFormed(st) && slot in st.manager.slots && target.interface in st.health
    ensures OnlySlotChanges(st, Apply(drain, slot, RemapTo(target), i, st), slot, i.eventId)
  {
  }

  lemma MarkKeeps(drain: real, slot: Name, move: Move, i: SlotInput, st: State)
    requires WellFormed(st) && slot in st.manager.slots && move in {Stay, ClearMark, StartDrain}
    ensures OnlySlotChanges(st, Apply(drain, slot, move, i, st), slot, i.eventId)
  {
  }

  lemma FailBackKeeps(drain: real, slot: Name, i: SlotInput, st: State)
    requires WellFormed(st) && slot in st.manager.slots
    ensures OnlySlotChanges(st, Apply(drain, slot, FailBack, i, st), slot, i.eventId)
  {
  }

  lemma StepSlotKeeps(drain: real, slot: Name, r: Option<SlotTarget>, i: SlotInput, st: State)
    requires WellFormed(st) && slot in st.manager.slots && GoodOffer(r, st.health)
    ensures OnlySlotChanges(st, StepSlot(drain, slot, r, i, st), slot, i.eventId)
  {
    var s := st.manager.slots[slot];
    var move := Decide(st.health[s.current.interface].state, st.health[s.previous.interface].state, s,
      slot in st.recovering, r, i);
    match move
    case RemapTo(target) => RemapKeeps(drain, slot, target, i, st);
    case FailBack => FailBackKeeps(drain, slot, i, st);
    case _ => MarkKeeps(drain, slot, move, i, st);
  }

  ghost predicate CanStep(order: seq<Name>, offers: Offers, i: RoundInput, st: State) {
    WellFormed(st) &&
    forall k :: 0 <= k < |order| ==>
                  order[k] in st.manager.slots && order[k] in i.slots &&
                  order[k] in offers && GoodOffer(offers[order[k]], st.health)
  }

  function StepSlots(drain: real, offers: Offers, i: RoundInput, order: seq<Name>, st: State): State
    requires CanStep(order, offers, i, st)
    decreases |order|
  {
    if order == [] then st
    else
      StepSlotKeeps(drain, order[0], offers[order[0]], i.slots[order[0]], st);
      StepSlots(drain, offers, i, order[1..], StepSlot(drain, order[0], offers[order[0]], i.slots[order[0]], st))
  }

  lemma NoMoreTurns(drain: real, offers: Offers, i: RoundInput, order: seq<Name>, st: State)
    requires order == [] && CanStep(order, offers, i, st)
    ensures StepSlots(drain, offers, i, order, st) == st
  {
  }

  function Offered(cfg: Config, observed: map<Name, Health>, i: RoundInput): (r: Offers)
    requires cfg.Valid() && observed.Keys == cfg.tunnels.Keys && InputFor(cfg, i)
    ensures r.Keys == cfg.routeTable.Keys
    ensures forall s :: s in r ==> GoodOffer(r[s], observed)
  {
    map s | s in cfg.routeTable :: Replacement(cfg, observed, i, s)
  }

  ghost predicate CanRound(cfg: Config, order: seq<Name>, st: State, i: RoundInput) {
    cfg.Valid() && Fits(cfg, st) && InputFor(cfg, i) &&
    forall k :: 0 <= k < |order| ==> order[k] in st.manager.slots && order[k] in i.slots
  }

  function Round(cfg: Config, order: seq<Name>, st: State, i: RoundInput): State
    requires CanRound(cfg, order, st, i)
  {
    var observed := ObserveAll(cfg, st.health, i);
    StepSlots(cfg.drainTimeout, Offered(cfg, observed, i), i, order, st.(health := observed))
  }

  /** After the observations every slot can take its turn. */
  lemma RoundStarts(cfg: Config, order: seq<Name>, st: State, i: RoundInput)
    requires cfg.Valid() && Fits(cfg, st) && InputFor(cfg, i) && forall s :: s in order ==> s in st.manager.slots
    requires forall k :: 0 <= k < |order| ==> order[k] in i.slots
    ensures CanRound(cfg, order, st, i)
    ensures var observed := ObserveAll(cfg, st.health, i);
            CanStep(order, Offered(cfg, observed, i), i, st.(health := observed))
  {
    assert forall k :: 0 <= k < |order| ==> order[k] in order;
  }

  function InitialState(cfg: Config, targets: map<Name, SlotTarget>): State {
    State(map n | n in cfg.tunnels :: INITIAL, Initial(targets), {}, map s | s in targets :: targets[s].interface)
  }

  // ----- the running monitor

  /** Event identifiers are UUIDs: never seen before, and different from slot to slot. */
  ghost predicate FreshIds(i: RoundInput, order: seq<Name>, events: map<Name, Event>) {
    (forall k :: 0 <= k < |order| ==> order[k] in i.slots && i.slots[order[k]].eventId !in events) &&
    forall a, b :: 0 <= a < b < |order| ==> i.slots[order[a]].eventId != i.slots[order[b]].eventId
  }

  lemma FreshTail(i: RoundInput, order: seq<Name>, before: map<Name, Event>, after: map<Name, Event>)
    requires order != [] && FreshIds(i, order, before)
    requires after.Keys <= before.Keys + {i.slots[order[0]].eventId}
    ensures FreshIds(i, order[1..], after)
  {
    var rest := order[1..];
    forall k | 0 <= k < |rest|
      ensures rest[k] in i.slots && i.slots[rest[k]].eventId !in after
    {
      assert rest[k] == order[k + 1];
    }
    forall a, b | 0 <= a < b < |rest|
      ensures i.slots[rest[a]].eventId != i.slots[rest[b]].eventId
    {
      assert rest[a] == order[a + 1] && rest[b] == order[b + 1];
    }
  }

  lemma CanStepTail(order: seq<Name>, offers: Offers, i: RoundInput, st: State, next: State)
    requires order != [] && CanStep(order, offers, i, st)
    requires WellFormed(next) && next.health == st.health && next.manager.slots.Keys == st.manager.slots.Keys
    ensures CanStep(order[1..], offers, i, next)
  {
    assert forall k :: 0 <= k < |order[1..]| ==> order[1..][k] == order[k + 1];
  }

  lemma OfferOnlyMattersWhenFailed(drain: real, slot: Name, a: Option<SlotTarget>, b: Option<SlotTarget>, i: SlotInput,
                                   st: State)
    requires WellFormed(st) && slot in st.manager.slots
    requires a == b || st.health[st.manager.slots[slot].current.interface].state != Failed
    ensures StepSlot(drain, slot, a, i, st) == StepSlot(drain, slot, b, i, st)
  {
  }

  /** One slot's turn leaves a state in which the remaining slots can take theirs. */
  lemma SlotTurn(cfg: Config, rest: seq<Name>, offers: Offers, i: RoundInput, offer: Option<SlotTarget>, st: State)
    requires rest != [] && CanStep(rest, offers, i, st) && Fits(cfg, st) && FreshIds(i, rest, st.manager.events)
    requires offer == offers[rest[0]] || (offer.None? &&
             st.health[st.manager.slots[rest[0]].current.interface].state != Failed)
    ensures var next := StepSlot(cfg.drainTimeout, rest[0], offer, i.slots[rest[0]], st);
            && next == StepSlot(cfg.drainTimeout, rest[0], offers[rest[0]], i.slots[rest[0]], st)
            && CanStep(rest[1..], offers, i, next) && Fits(cfg, next) && FreshIds(i, rest[1..], next.manager.events)
            && StepSlots(cfg.drainTimeout, offers, i, rest, st) == StepSlots(cfg.drainTimeout, offers, i, rest[1..],
              next)
  {
    var slot := rest[0];
    StepSlotKeeps(cfg.drainTimeout, slot, offers[slot], i.slots[slot], st);
    OfferOnlyMattersWhenFailed(cfg.drainTimeout, slot, offer, offers[slot], i.slots[slot], st);
    FreshTail(i, rest, st.manager.events, StepSlot(cfg.drainTimeout, slot, offers[slot], i.slots[slot],
      st).manager.events);
    CanStepTail(rest, offers, i, st, StepSlot(cfg.drainTimeout, slot, offers[slot], i.slots[slot], st));
  }

  class LocalFailoverRuntime {
    const cfg: Config
    const manager: LocalFailoverManager
    var health: map<Name, Health>
    var recoveryStarted: set<Name>
    var programmed: map<Name, Name>

    ghost predicate Valid()
      reads this, manager
    {
      cfg.Valid() && manager.Valid() && manager.drainTimeout == cfg.drainTimeout && Fits(cfg, View())
    }

    ghost function View(): State
      reads this, manager
    {
      State(health, manager.View(), recoveryStarted, programmed)
    }

    constructor (cfg: Config, order: seq<Name>, targets: map<Name, SlotTarget>)
      requires cfg.Valid() && targets.Keys <= cfg.routeTable.Keys && ToSet(order) == targets.Keys
      requires forall s :: s in targets ==> targets[s].interface in cfg.tunnels
      ensures Valid() && this.cfg == cfg && manager.order == order && fresh(manager)
      ensures View() == InitialState(cfg, targets)
    {
      this.cfg := cfg;
      manager := new LocalFailoverManager(order, targets, cfg.drainTimeout);
      health := map n | n in cfg.tunnels :: INITIAL;
      recoveryStarted := {};
      programmed := map s | s in targets :: targets[s].interface;
    }

    method ObserveTunnels(i: RoundInput) returns (observed: map<Name, Health>)
      requires ToSet(cfg.names) == cfg.tunnels.Keys == health.Keys <= i.samples.Keys
      ensures observed == ObserveAll(cfg, health, i)
    {
      observed := map[];
      ghost var goal := ObserveAll(cfg, health, i);
      for k := 0 to |cfg.names|
        invariant ToSet(cfg.names[k..]) + observed.Keys == goal.Keys
        invariant forall n :: n in observed ==> observed[n] == goal[n]
      {
        var n := cfg.names[k];
        assert cfg.names[k..][0] == n && cfg.names[k..][1..] == cfg.names[k + 1..];
        var h := Observe(cfg.thresholds, health[n], i.samples[n].sample, i.samples[n].now);
        observed := observed[n := h];
      }
    }

    method RunOnce(i: RoundInput)
      requires Valid() && InputFor(cfg, i) && FreshIds(i, manager.order, manager.events)
      modifies this, manager
      ensures Valid() && CanRound(cfg, manager.order, old(View()), i)
      ensures View() == Round(cfg, manager.order, old(View()), i)
    {
      ToSetMeaning(manager.order);
      RoundStarts(cfg, manager.order, View(), i);
      ghost var was, order, events := View(), manager.order, manager.events;
      health := ObserveTunnels(i);
      assert View() == was.(health := health) && manager.order == order && manager.events == events;
      RunSlots(i, Offered(cfg, health, i));
    }

    method RunSlots(i: RoundInput, ghost offers: Offers)
      requires Valid() && InputFor(cfg, i) && FreshIds(i, manager.order, manager.events)
      requires CanStep(manager.order, offers, i, View()) && offers == Offered(cfg, health, i)
      modifies this`recoveryStarted, this`programmed, manager
      ensures Valid() && View() == StepSlots(cfg.drainTimeout, offers, i, manager.order, old(View()))
    {
      ghost var goal := StepSlots(cfg.drainTimeout, offers, i, manager.order, View());
      ghost var rest := manager.order;
      for k := 0 to |manager.order|
        invariant Valid() && rest == manager.order[k..] && CanStep(rest, offers, i, View())
        invariant FreshIds(i, rest, manager.events)
        invariant goal == StepSlots(cfg.drainTimeout, offers, i, rest, View())
      {
        assert rest[0] == manager.order[k] && rest[0] in manager.slots;
        var offer := OfferFor(i, offers, manager.order[k]);
        TakeTurn(i, offers, manager.order[k], rest, offer);
        rest := rest[1..];
      }
      NoMoreTurns(cfg.drainTimeout, offers, i, rest, View());
    }

    /** The resolver is asked only if the slot's target has failed. */
    method OfferFor(i: RoundInput, ghost offers: Offers, slot: Name) returns (offer: Option<SlotTarget>)
      requires Valid() && InputFor(cfg, i) && offers == Offered(cfg, health, i) && slot in manager.slots
      ensures slot in offers
      ensures offer == offers[slot] || (offer.None? && health[manager.slots[slot].current.interface].state != Failed)
    {
      offer := None;
      if health[manager.slots[slot].current.interface].state == Failed {
        offer := FindReplacement(slot, i);
      }
    }

    /** The turn of the first of the remaining slots. */
    method TakeTurn(i: RoundInput, ghost offers: Offers, slot: Name, ghost rest: seq<Name>, offer: Option<SlotTarget>)
      requires Valid() && rest != [] && rest[0] == slot && CanStep(rest, offers, i, View()) &&
               FreshIds(i, rest, manager.events)
      requires offer == offers[slot] || (offer.None? && health[manager.slots[slot].current.interface].state != Failed)
      modifies this`recoveryStarted, this`programmed, manager
      ensures Valid() && CanStep(rest[1..], offers, i, View()) && FreshIds(i, rest[1..], manager.events)
      ensures StepSlots(cfg.drainTimeout, offers, i, rest, old(View())) == StepSlots(cfg.drainTimeout, offers, i,
              rest[1..], View())
    {
      SlotTurn(cfg, rest, offers, i, offer, View());
      RunSlot(slot, i.slots[slot], offer);
    }

    method FindReplacement(slot: Name, i: RoundInput) returns (r: Option<SlotTarget>)
      requires cfg.Valid() && health.Keys == cfg.tunnels.Keys && InputFor(cfg, i) && slot in cfg.routeTable
      ensures r == Offered(cfg, health, i)[slot]
    {
      LeaderMeaning(cfg, health, i, slot);
      var found := Resolve(Ranked(cfg, slot), [HubOverlay], cfg.preference, RoundTargets(cfg, health, i), None, true);
      if found.None? {
        return None;
      }
      var t := found.value;
      return Some(SlotTarget(t.hub.value, t.transport, t.interface, cfg.routeTable[slot]));
    }

    method RunSlot(slot: Name, i: SlotInput, offer: Option<SlotTarget>)
      requires manager.Valid() && WellFormed(View()) && slot in manager.slots
      requires GoodOffer(offer, health) && i.eventId !in manager.events
      modifies this`recoveryStarted, this`programmed, manager
      ensures manager.Valid()
      ensures View() == StepSlot(manager.drainTimeout, slot, offer, i, old(View()))
    {
      var state := manager.slots[slot];
      if health[state.current.interface].state == Failed {
        FailOver(slot, i, offer);
        return;
      }
      if !state.emergency {
        return;
      }
      if health[state.previous.interface].state != Healthy {
        recoveryStarted := recoveryStarted - {slot};
        return;
      }
      if slot !in recoveryStarted {
        manager.BeginRecovery(slot, i.now);
        recoveryStarted := recoveryStarted + {slot};
        return;
      }
      FinishDrain(slot, i);
    }

    /** Moves a slot off its failed target, if the resolver offers another tunnel. */
    method FailOver(slot: Name, i: SlotInput, offer: Option<SlotTarget>)
      requires manager.Valid() && slot in manager.slots && slot in programmed && i.eventId !in manager.events
      modifies this`programmed, manager
      ensures manager.Valid()
      ensures View() == if offer.None? || offer.value.interface ==
              old(manager.slots)[slot].current.interface then old(View())
                        else Apply(manager.drainTimeout, slot, RemapTo(offer.value), i, old(View()))
    {
      if offer.Some? && offer.value.interface != manager.slots[slot].current.interface {
        var event := manager.EmergencyRemap(i.eventId, slot, offer.value, None, i.now);
        programmed := programmed[slot := offer.value.interface];
      }
    }

    /** Restores the saved target once the drain is over. */
    method FinishDrain(slot: Name, i: SlotInput)
      requires manager.Valid() && slot in manager.slots && slot in programmed
      modifies this`recoveryStarted, this`programmed, manager
      ensures manager.Valid()
      ensures View() == if CanComplete(old(manager.slots)[slot], i.flows, i.now)
                        then Apply(manager.drainTimeout, slot, FailBack, i, old(View())) else old(View())
    {
      var restored := manager.CompleteRecovery(slot, i.flows, i.now);
      if restored.Some? {
        programmed := programmed[slot := restored.value.interface];
        recoveryStarted := recoveryStarted - {slot};
      }
    }
  }
}
