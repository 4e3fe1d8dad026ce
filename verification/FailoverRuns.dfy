/** What every run of the failover loop keeps, whatever the probes report. */
module FailoverRuns {
  import opened Basics
  import opened TunnelHealth
  import opened LocalFailover
  import opened FailoverRuntime

  // ----- one slot seen on its own

  datatype Lane = Lane(slot: SlotState, marked: bool, device: Name)

  function LaneOf(st: State, s: Name): Lane
    requires s in st.manager.slots && s in st.programmed
  {
    Lane(st.manager.slots[s], s in st.recovering, st.programmed[s])
  }

  ghost predicate HasHealth(l: Lane, health: map<Name, Health>) {
    l.slot.current.interface in health && l.slot.previous.interface in health
  }

  function LaneMove(health: map<Name, Health>, r: Option<SlotTarget>, i: SlotInput, l: Lane): Move
    requires HasHealth(l, health)
  {
    Decide(health[l.slot.current.interface].state, health[l.slot.previous.interface].state, l.slot, l.marked, r, i)
  }

  function StepLane(drain: real, health: map<Name, Health>, r: Option<SlotTarget>, i: SlotInput, l: Lane): Lane
    requires HasHealth(l, health)
  {
    match LaneMove(health, r, i, l)
    case Stay => l
    case RemapTo(t) => Lane(SlotState(t, l.slot.current, true, None), l.marked, t.interface)
    case ClearMark => l.(marked := false)
    case StartDrain => Lane(l.slot.(drainDeadline := Some(i.now + drain)), true, l.device)
    case FailBack => Lane(SlotState(l.slot.previous, l.slot.previous, false, None), false, l.slot.previous.interface)
  }

  lemma StepSlotIsStepLane(drain: real, s: Name, r: Option<SlotTarget>, i: SlotInput, st: State)
    requires WellFormed(st) && s in st.manager.slots && GoodOffer(r, st.health)
    ensures WellFormed(StepSlot(drain, s, r, i, st)) &&
            StepSlot(drain, s, r, i, st).manager.slots.Keys == st.manager.slots.Keys
    ensures LaneOf(StepSlot(drain, s, r, i, st), s) == StepLane(drain, st.health, r, i, LaneOf(st, s))
  {
    StepSlotKeeps(drain, s, r, i, st);
  }

  lemma {:induction false} OtherSlotsKeepTheirLane(drain: real, offers: Offers, i: RoundInput, order: seq<Name>,
      st: State, s: Name)
    requires CanStep(order, offers, i, st) && s in st.manager.slots
    requires forall k :: 0 <= k < |order| ==> order[k] != s
    ensures var next := StepSlots(drain, offers, i, order, st);
            WellFormed(next) && next.health == st.health && next.manager.slots.Keys == st.manager.slots.Keys &&
            LaneOf(next, s) == LaneOf(st, s)
    decreases |order|
  {
    if order != [] {
      StepSlotKeeps(drain, order[0], offers[order[0]], i.slots[order[0]], st);
      var mid := StepSlot(drain, order[0], offers[order[0]], i.slots[order[0]], st);
      CanStepTail(order, offers, i, st, mid);
      OtherSlotsKeepTheirLane(drain, offers, i, order[1..], mid, s);
    }
  }

  lemma {:induction false} StepSlotsIsStepLane(drain: real, offers: Offers, i: RoundInput, order: seq<Name>, st: State,
      j: nat)
    requires CanStep(order, offers, i, st) && Distinct(order) && j < |order|
    ensures var next := StepSlots(drain, offers, i, order, st);
            WellFormed(next) && next.health == st.health && next.manager.slots.Keys == st.manager.slots.Keys &&
            LaneOf(next, order[j]) == StepLane(drain, st.health, offers[order[j]], i.slots[order[j]],
              LaneOf(st, order[j]))
    decreases |order|
  {
    var head, rest := order[0], order[1..];
    var mid := StepSlot(drain, head, offers[head], i.slots[head], st);
    StepSlotKeeps(drain, head, offers[head], i.slots[head], st);
    StepSlotIsStepLane(drain, head, offers[head], i.slots[head], st);
    CanStepTail(order, offers, i, st, mid);
    assert forall k :: 0 <= k < |rest| ==> rest[k] == order[k + 1];
    if j == 0 {
      OtherSlotsKeepTheirLane(drain, offers, i, rest, mid, head);
    } else {
      assert rest[j - 1] == order[j];
      SameLane(st, mid, head, order[j]);
      StepSlotsIsStepLane(drain, offers, i, rest, mid, j - 1);
    }
  }

  lemma SameLane(st: State, next: State, slot: Name, s: Name)
    requires OthersKept(st, next, slot) && s in st.manager.slots && s != slot
    ensures s in next.manager.slots && s in st.programmed && s in next.programmed && LaneOf(next, s) == LaneOf(st, s)
  {
  }

  lemma {:induction false} StepSlotsKeepsShape(drain: real, offers: Offers, i: RoundInput, order: seq<Name>, st: State)
    requires CanStep(order, offers, i, st)
    ensures var next := StepSlots(drain, offers, i, order, st);
            WellFormed(next) && next.health == st.health && next.manager.slots.Keys == st.manager.slots.Keys
    decreases |order|
  {
    if order != [] {
      StepSlotKeeps(drain, order[0], offers[order[0]], i.slots[order[0]], st);
      var mid := StepSlot(drain, order[0], offers[order[0]], i.slots[order[0]], st);
      CanStepTail(order, offers, i, st, mid);
      StepSlotsKeepsShape(drain, offers, i, order[1..], mid);
    }
  }

  /** What the resolver's offer to any slot says about the tunnels. */
  ghost predicate HonestOffer(r: Option<SlotTarget>, health: map<Name, Health>) {
    GoodOffer(r, health) && (r.None? ==> forall n :: n in health ==> health[n].state != Healthy)
  }

  ghost predicate InOrder(order: seq<Name>, st: State) {
    Distinct(order) && ToSet(order) == st.manager.slots.Keys
  }

  /** A round treats every slot on its own: its lane makes one `StepLane` on the freshly observed health. */
  lemma RoundIsStepLane(cfg: Config, order: seq<Name>, st: State, i: RoundInput, s: Name)
    returns (r: Option<SlotTarget>)
    requires CanRound(cfg, order, st, i) && InOrder(order, st) && s in st.manager.slots
    ensures var next := Round(cfg, order, st, i);
            && WellFormed(next) && s in next.manager.slots && s in i.slots && HasHealth(LaneOf(st, s), next.health)
            && next.health == ObserveAll(cfg, st.health, i) && HonestOffer(r, next.health)
            && LaneOf(next, s) == StepLane(cfg.drainTimeout, next.health, r, i.slots[s], LaneOf(st, s))
            && r == Replacement(cfg, next.health, i, s)
  {
    var observed := ObserveAll(cfg, st.health, i);
    ToSetMeaning(order);
    var j :| 0 <= j < |order| && order[j] == s;
    StepSlotsIsStepLane(cfg.drainTimeout, Offered(cfg, observed, i), i, order, st.(health := observed), j);
    r := Offered(cfg, observed, i)[s];
    ReplacementMeaning(cfg, observed, i, s);
  }

  lemma RoundKeepsShape(cfg: Config, order: seq<Name>, st: State, i: RoundInput)
    requires CanRound(cfg, order, st, i)
    ensures var next := Round(cfg, order, st, i);
            Fits(cfg, next) && next.health == ObserveAll(cfg, st.health, i) &&
              next.manager.slots.Keys == st.manager.slots.Keys
  {
    var observed := ObserveAll(cfg, st.health, i);
    StepSlotsKeepsShape(cfg.drainTimeout, Offered(cfg, observed, i), i, order, st.(health := observed));
  }

  // ----- the route version

  type Slots = map<Name, SlotState>

  predicate HasMoved(before: Slots, after: Slots, s: Name) {
    s in before && s in after && before[s].current != after[s].current
  }

  /** The slots that have another target than before. */
  ghost function Moved(before: Slots, after: Slots, slots: set<Name>): set<Name> {
    set s | s in slots && HasMoved(before, after, s)
  }

  /** A slot in emergency is not on its saved target. */
  ghost predicate Displaced(all: Slots, slots: set<Name>) {
    forall s :: s in slots && s in all && all[s].emergency ==> all[s].current != all[s].previous
  }

  lemma TurnCounts(drain: real, slot: Name, r: Option<SlotTarget>, i: SlotInput, st: State)
    requires WellFormed(st) && slot in st.manager.slots && Displaced(st.manager.slots, {slot})
    ensures var next := StepSlot(drain, slot, r, i, st);
            next.manager.routeVersion == st.manager.routeVersion +
              if HasMoved(st.manager.slots, next.manager.slots, slot) then 1 else 0
  {
    assert slot in {slot};
  }

  lemma MovedSplits(start: Slots, mid: Slots, next: Slots, head: Name, rest: set<Name>)
    requires head !in rest && forall s :: s in rest ==> s in start && s in mid && mid[s] == start[s]
    requires head in mid && head in next && next[head] == mid[head]
    ensures |Moved(start, next, {head} + rest)| ==
            |Moved(mid, next, rest)| + if HasMoved(start, mid, head) then 1 else 0
  {
    var all, tail := Moved(start, next, {head} + rest), Moved(mid, next, rest);
    forall s | s in rest
      ensures HasMoved(start, next, s) <==> HasMoved(mid, next, s)
    {
    }
    assert HasMoved(start, next, head) <==> HasMoved(start, mid, head);
    if HasMoved(start, mid, head) {
      assert all == {head} + tail;
    } else {
      assert all == tail;
    }
  }

  lemma RestKept(st: State, mid: State, head: Name, order: seq<Name>)
    requires OthersKept(st, mid, head) && head !in order
    requires forall k :: 0 <= k < |order| ==> order[k] in st.manager.slots
    ensures forall s :: s in ToSet(order) ==>
                          s in st.manager.slots && s in mid.manager.slots && mid.manager.slots[s] == st.manager.slots[s]
  {
    ToSetMeaning(order);
  }

  lemma {:induction false} TurnsCount(drain: real, offers: Offers, i: RoundInput, order: seq<Name>, st: State)
    requires CanStep(order, offers, i, st) && Distinct(order) && Displaced(st.manager.slots, ToSet(order))
    ensures var next := StepSlots(drain, offers, i, order, st);
            next.manager.routeVersion == st.manager.routeVersion +
              |Moved(st.manager.slots, next.manager.slots, ToSet(order))|
    decreases |order|
  {
    if order != [] {
      var head, rest := order[0], order[1..];
      var mid := StepSlot(drain, head, offers[head], i.slots[head], st);
      var next := StepSlots(drain, offers, i, order, st);
      StepSlotKeeps(drain, head, offers[head], i.slots[head], st);
      TurnCounts(drain, head, offers[head], i.slots[head], st);
      CanStepTail(order, offers, i, st, mid);
      assert forall k :: 0 <= k < |rest| ==> rest[k] == order[k + 1];
      RestKept(st, mid, head, rest);
      ToSetMeaning(rest);
      OtherSlotsKeepTheirLane(drain, offers, i, rest, mid, head);
      TurnsCount(drain, offers, i, rest, mid);
      MovedSplits(st.manager.slots, mid.manager.slots, next.manager.slots, head, ToSet(rest));
    }
  }

  lemma NormalOrDisplaced(cfg: Config, order: seq<Name>, st: State)
    requires StateInv(cfg, order, st)
    ensures Displaced(st.manager.slots, ToSet(order))
  {
    forall s | s in st.manager.slots
      ensures LaneInv(LaneOf(st, s), st.health)
    {
    }
  }

  /** A round advances the route version by exactly the number of slots whose target it changes. */
  lemma RouteVersionCountsMoves(cfg: Config, order: seq<Name>, st: State, i: RoundInput)
    requires CanRound(cfg, order, st, i) && InOrder(order, st) && StateInv(cfg, order, st)
    ensures var next := Round(cfg, order, st, i);
            next.manager.routeVersion == st.manager.routeVersion +
              |Moved(st.manager.slots, next.manager.slots, st.manager.slots.Keys)|
  {
    var observed := ObserveAll(cfg, st.health, i);
    NormalOrDisplaced(cfg, order, st);
    TurnsCount(cfg.drainTimeout, Offered(cfg, observed, i), i, order, st.(health := observed));
  }

  // ----- runs

  /** `states` is a run over `inputs` from the configured targets. */
  ghost predicate IsRun(cfg: Config, order: seq<Name>, targets: map<Name, SlotTarget>, states: seq<State>,
                        inputs: seq<RoundInput>) {
    cfg.Valid() && Distinct(order) && ToSet(order) == targets.Keys <= cfg.routeTable.Keys &&
    (forall s :: s in targets ==> targets[s].interface in cfg.tunnels) &&
    |states| == |inputs| + 1 && states[0] == InitialState(cfg, targets) &&
    forall k: nat :: RoundAt(cfg, order, states, inputs, k)
  }

  ghost predicate RoundAt(cfg: Config, order: seq<Name>, states: seq<State>, inputs: seq<RoundInput>, k: nat) {
    k < |inputs| && k + 1 < |states| ==> Follows(cfg, order, states[k], inputs[k], states[k + 1])
  }

  ghost predicate Follows(cfg: Config, order: seq<Name>, st: State, i: RoundInput, next: State) {
    CanRound(cfg, order, st, i) && next == Round(cfg, order, st, i)
  }

  /** What one slot's bookkeeping keeps. */
  ghost predicate LaneInv(l: Lane, health: map<Name, Health>) {
    HasHealth(l, health) &&
    (l.slot.emergency <==> l.slot.current != l.slot.previous) &&
    (l.marked ==> l.slot.emergency) &&
    (!l.slot.emergency ==> l.slot.drainDeadline.None?) &&
    (l.marked && l.slot.drainDeadline.None? ==>
       health[l.slot.previous.interface].state == Failed && health[l.slot.current.interface].state == Healthy) &&
    l.device == l.slot.current.interface
  }

  ghost predicate AllConsistent(cfg: Config, health: map<Name, Health>) {
    health.Keys == cfg.tunnels.Keys && forall n :: n in health ==> Consistent(cfg.thresholds, health[n])
  }

  ghost predicate StateInv(cfg: Config, order: seq<Name>, st: State) {
    Fits(cfg, st) && ToSet(order) == st.manager.slots.Keys && AllConsistent(cfg, st.health) &&
    forall s :: s in st.manager.slots ==> LaneInv(LaneOf(st, s), st.health)
  }

  lemma ObserveAllNoJump(cfg: Config, health: map<Name, Health>, i: RoundInput)
    requires cfg.Valid() && AllConsistent(cfg, health) && cfg.tunnels.Keys <= i.samples.Keys
    ensures AllConsistent(cfg, ObserveAll(cfg, health, i))
    ensures NoJumps(health, ObserveAll(cfg, health, i))
  {
    forall n | n in health
      ensures Consistent(cfg.thresholds, ObserveAll(cfg, health, i)[n])
      ensures health[n].state == Failed ==> ObserveAll(cfg, health, i)[n].state != Healthy
      ensures health[n].state == Healthy ==> ObserveAll(cfg, health, i)[n].state != Failed
    {
      NoJump(cfg.thresholds, health[n], i.samples[n].sample, i.samples[n].now);
    }
  }

  /** One round preserves the slot bookkeeping, because health cannot jump between HEALTHY and FAILED. */
  lemma LaneInvStep(drain: real, before: map<Name, Health>, after: map<Name, Health>, r: Option<SlotTarget>,
                    i: SlotInput, l: Lane)
    requires LaneInv(l, before) && GoodOffer(r, after) && NoJumps(before, after)
    ensures LaneInv(StepLane(drain, after, r, i, l), after)
    ensures l.marked && l.slot.drainDeadline.None? ==> LaneMove(after, r, i, l) == ClearMark
  {
  }

  ghost predicate NoJumps(before: map<Name, Health>, after: map<Name, Health>) {
    before.Keys == after.Keys &&
    forall n :: n in before ==>
                  && (before[n].state == Failed ==> after[n].state != Healthy)
                  && (before[n].state == Healthy ==> after[n].state != Failed)
  }

  lemma RoundKeepsInv(cfg: Config, order: seq<Name>, st: State, i: RoundInput)
    requires CanRound(cfg, order, st, i) && Distinct(order) && StateInv(cfg, order, st)
    ensures StateInv(cfg, order, Round(cfg, order, st, i))
    ensures Round(cfg, order, st, i).manager.slots.Keys == st.manager.slots.Keys
    ensures NoJumps(st.health, Round(cfg, order, st, i).health)
  {
    RoundKeepsShape(cfg, order, st, i);
    ObserveAllNoJump(cfg, st.health, i);
    forall s | s in st.manager.slots
      ensures LaneInv(LaneOf(Round(cfg, order, st, i), s), ObserveAll(cfg, st.health, i))
    {
      var r := RoundIsStepLane(cfg, order, st, i, s);
      LaneInvStep(cfg.drainTimeout, st.health, ObserveAll(cfg, st.health, i), r, i.slots[s], LaneOf(st, s));
    }
  }

  lemma InitialInv(cfg: Config, order: seq<Name>, targets: map<Name, SlotTarget>)
    requires cfg.Valid() && ToSet(order) == targets.Keys <= cfg.routeTable.Keys
    requires forall s :: s in targets ==> targets[s].interface in cfg.tunnels
    ensures StateInv(cfg, order, InitialState(cfg, targets))
    ensures InitialState(cfg, targets).manager.slots.Keys == targets.Keys
  {
  }

  lemma StartsWithInv(cfg: Config, order: seq<Name>, targets: map<Name, SlotTarget>, states: seq<State>,
                      inputs: seq<RoundInput>)
    requires IsRun(cfg, order, targets, states, inputs)
    ensures StateInv(cfg, order, states[0]) && states[0].manager.slots.Keys == targets.Keys
  {
    InitialInv(cfg, order, targets);
  }

  lemma StepKeepsInv(cfg: Config, order: seq<Name>, targets: map<Name, SlotTarget>, states: seq<State>,
                     inputs: seq<RoundInput>, k: nat)
    requires IsRun(cfg, order, targets, states, inputs) && k < |inputs| && StateInv(cfg, order, states[k])
    ensures StateInv(cfg, order, states[k + 1]) && states[k + 1].manager.slots.Keys == states[k].manager.slots.Keys
    ensures NoJumps(states[k].health, states[k + 1].health)
  {
    assert RoundAt(cfg, order, states, inputs, k);
    FollowsKeepsInv(cfg, order, states[k], inputs[k], states[k + 1]);
  }

  /** Every state of every run keeps the slot bookkeeping. */
  lemma {:induction false} RunKeepsInv(cfg: Config, order: seq<Name>, targets: map<Name, SlotTarget>,
                                       states: seq<State>, inputs: seq<RoundInput>, k: nat)
    requires IsRun(cfg, order, targets, states, inputs) && k < |states|
    ensures StateInv(cfg, order, states[k]) && states[k].manager.slots.Keys == targets.Keys
  {
    if k == 0 {
      StartsWithInv(cfg, order, targets, states, inputs);
    } else {
      var j := k - 1;
      RunKeepsInv(cfg, order, targets, states, inputs, j);
      StepKeepsInv(cfg, order, targets, states, inputs, j);
    }
  }

  lemma FollowsKeepsInv(cfg: Config, order: seq<Name>, st: State, i: RoundInput, next: State)
    requires Follows(cfg, order, st, i, next) && Distinct(order) && StateInv(cfg, order, st)
    ensures StateInv(cfg, order, next) && next.manager.slots.Keys == st.manager.slots.Keys
    ensures NoJumps(st.health, next.health)
  {
    RoundKeepsInv(cfg, order, st, i);
  }

  /** The lane of slot `s` in state `k` of a run. */
  function At(states: seq<State>, k: nat, s: Name): Lane
    requires k < |states| && s in states[k].manager.slots && s in states[k].programmed
  {
    LaneOf(states[k], s)
  }

  /** Round `k` of a run, seen from one slot. */
  lemma RunStep(cfg: Config, order: seq<Name>, targets: map<Name, SlotTarget>,
                states: seq<State>, inputs: seq<RoundInput>, k: nat, s: Name) returns (r: Option<SlotTarget>)
    requires IsRun(cfg, order, targets, states, inputs) && k < |inputs| && s in targets
    ensures s in states[k].manager.slots && s in states[k].programmed && LaneInv(At(states, k, s), states[k].health)
    ensures s in states[k + 1].manager.slots && s in states[k + 1].programmed
    ensures LaneInv(At(states, k + 1, s), states[k + 1].health)
    ensures NoJumps(states[k].health, states[k + 1].health)
    ensures s in inputs[k].slots && HonestOffer(r, states[k + 1].health)
    ensures At(states, k + 1, s) == StepLane(cfg.drainTimeout, states[k + 1].health, r, inputs[k].slots[s],
            At(states, k, s))
  {
    RunKeepsInv(cfg, order, targets, states, inputs, k);
    StepKeepsInv(cfg, order, targets, states, inputs, k);
    assert RoundAt(cfg, order, states, inputs, k);
    r := FollowsIsStepLane(cfg, order, states[k], inputs[k], states[k + 1], s);
  }

  lemma FollowsIsStepLane(cfg: Config, order: seq<Name>, st: State, i: RoundInput, next: State, s: Name)
    returns (r: Option<SlotTarget>)
    requires Follows(cfg, order, st, i, next) && InOrder(order, st) && s in st.manager.slots
    ensures WellFormed(next) && s in next.manager.slots && s in i.slots && HasHealth(LaneOf(st, s), next.health)
    ensures HonestOffer(r, next.health)
    ensures LaneOf(next, s) == StepLane(cfg.drainTimeout, next.health, r, i.slots[s], LaneOf(st, s))
  {
    r := RoundIsStepLane(cfg, order, st, i, s);
  }

  // ----- safety over whole runs

  /** The bookkeeping of every slot in every state of every run. */
  lemma EmergencyBookkeeping(cfg: Config, order: seq<Name>, targets: map<Name, SlotTarget>,
                             states: seq<State>, inputs: seq<RoundInput>, k: nat, s: Name)
    requires IsRun(cfg, order, targets, states, inputs) && k < |states| && s in targets
    ensures s in states[k].manager.slots && s in states[k].programmed
    ensures var l, health := At(states, k, s), states[k].health;
            && HasHealth(l, health)
            && (l.slot.emergency <==> l.slot.current != l.slot.previous)
            && (l.marked ==> l.slot.emergency)
            && (l.marked && l.slot.drainDeadline.None? ==> health[l.slot.previous.interface].state == Failed)
            && l.device == l.slot.current.interface
  {
    RunKeepsInv(cfg, order, targets, states, inputs, k);
    assert LaneInv(At(states, k, s), states[k].health);
  }

  /** A mark without a deadline never outlives the next round, so a drain is only ever completed against a deadline. */
  lemma MarkWithoutDeadlineIsCleared(cfg: Config, order: seq<Name>, targets: map<Name, SlotTarget>,
                                     states: seq<State>, inputs: seq<RoundInput>, k: nat, s: Name)
    requires IsRun(cfg, order, targets, states, inputs) && k < |inputs| && s in targets
    ensures s in states[k].manager.slots && s in states[k].programmed
    ensures s in states[k + 1].manager.slots && s in states[k + 1].programmed
    ensures At(states, k, s).marked && At(states, k, s).slot.drainDeadline.None? ==>
              !At(states, k + 1, s).marked && At(states, k + 1, s).slot == At(states, k, s).slot
  {
    var r := RunStep(cfg, order, targets, states, inputs, k, s);
    LaneInvStep(cfg.drainTimeout, states[k].health, states[k + 1].health, r, inputs[k].slots[s], At(states, k, s));
  }

  /** After any round, a slot still points at a FAILED tunnel only if no tunnel at all is HEALTHY. */
  lemma NoFailedTargetWhileAnyTunnelHealthy(cfg: Config, order: seq<Name>, targets: map<Name, SlotTarget>,
                                            states: seq<State>, inputs: seq<RoundInput>, k: nat, s: Name, n: Name)
    requires IsRun(cfg, order, targets, states, inputs) && k < |inputs| && s in targets
    requires n in cfg.tunnels && n in states[k + 1].health && states[k + 1].health[n].state == Healthy
    ensures s in states[k + 1].manager.slots && s in states[k + 1].programmed
    ensures HasHealth(At(states, k + 1, s), states[k + 1].health)
    ensures states[k + 1].health[At(states, k + 1, s).slot.current.interface].state != Failed
    ensures At(states, k + 1, s).device == At(states, k + 1, s).slot.current.interface
  {
    var r := RunStep(cfg, order, targets, states, inputs, k, s);
  }

  // ----- failback

  ghost predicate FailsBack(before: Lane, after: Lane) {
    before.slot.emergency && !after.slot.emergency
  }

  /** A slot leaves emergency only by restoring its saved target, in a round that sees that target HEALTHY, with no flow
      left or with the deadline of a started drain reached. */
  lemma FailbackIsSafe(cfg: Config, order: seq<Name>, targets: map<Name, SlotTarget>,
                       states: seq<State>, inputs: seq<RoundInput>, k: nat, s: Name)
    requires IsRun(cfg, order, targets, states, inputs) && k < |inputs| && s in targets
    ensures s in states[k].manager.slots && s in states[k].programmed
    ensures s in states[k + 1].manager.slots && s in states[k + 1].programmed && s in inputs[k].slots
    ensures var before, after := At(states, k, s), At(states, k + 1, s);
            FailsBack(before, after) ==>
              && after == Lane(SlotState(before.slot.previous, before.slot.previous, false, None), false,
                before.slot.previous.interface)
              && before.slot.previous.interface in states[k + 1].health
              && states[k + 1].health[before.slot.previous.interface].state == Healthy
              && before.marked && before.slot.drainDeadline.Some?
              && (inputs[k].slots[s].flows <= 0 || inputs[k].slots[s].now >= before.slot.drainDeadline.value)
  {
    var r := RunStep(cfg, order, targets, states, inputs, k, s);
  }

  /** In rounds `a` to `b`, the slot's saved target is seen HEALTHY and its current one not FAILED. */
  ghost predicate StaysRecoverable(states: seq<State>, slot: SlotState, a: nat, b: nat) {
    b < |states| &&
    forall k :: a < k <= b ==>
                  slot.previous.interface in states[k].health && slot.current.interface in states[k].health &&
                  states[k].health[slot.previous.interface].state == Healthy &&
                  states[k].health[slot.current.interface].state != Failed
  }

  ghost predicate FailedBackTo(states: seq<State>, k: nat, s: Name, target: SlotTarget) {
    k < |states| && s in states[k].manager.slots && states[k].manager.slots[s] == SlotState(target, target, false, None)
  }

  /** A started drain completes by the first round at or after its deadline, as long as the saved target stays
      HEALTHY and the current one does not fail. */
  lemma {:induction false} DrainCompletes(cfg: Config, order: seq<Name>, targets: map<Name, SlotTarget>,
                                          states: seq<State>, inputs: seq<RoundInput>, a: nat, b: nat, s: Name)
    requires IsRun(cfg, order, targets, states, inputs) && a < b <= |inputs| && s in targets
    requires s in states[a].manager.slots && s in states[a].programmed
    requires At(states, a, s).marked && At(states, a, s).slot.drainDeadline.Some?
    requires StaysRecoverable(states, At(states, a, s).slot, a, b)
    requires s in inputs[b - 1].slots && inputs[b - 1].slots[s].now >= At(states, a, s).slot.drainDeadline.value
    ensures exists k :: a < k <= b && FailedBackTo(states, k, s, At(states, a, s).slot.previous)
    decreases b - a
  {
    var r := RunStep(cfg, order, targets, states, inputs, a, s);
    assert states[a + 1].health[At(states, a, s).slot.previous.interface].state == Healthy;
    if CanComplete(At(states, a, s).slot, inputs[a].slots[s].flows, inputs[a].slots[s].now) {
      assert FailedBackTo(states, a + 1, s, At(states, a, s).slot.previous);
    } else {
      assert At(states, a + 1, s) == At(states, a, s);
      DrainCompletes(cfg, order, targets, states, inputs, a + 1, b, s);
    }
  }

  /** At round `j` slot `s` was moved off `saved`, seen FAILED, onto a HEALTHY target. */
  ghost predicate RemappedAt(states: seq<State>, j: nat, s: Name, saved: SlotTarget, replacement: SlotTarget) {
    j + 1 < |states| && s in states[j].manager.slots && s in states[j + 1].manager.slots &&
    states[j].manager.slots[s].current == saved && states[j + 1].manager.slots[s].current == replacement &&
    saved.interface in states[j + 1].health && states[j + 1].health[saved.interface].state == Failed &&
    replacement.interface in states[j + 1].health && states[j + 1].health[replacement.interface].state == Healthy
  }

  ghost predicate HeldSince(states: seq<State>, j: nat, k: nat, s: Name) {
    k < |states| &&
    forall m :: j < m <= k ==>
                  s in states[m].manager.slots && s in states[k].manager.slots &&
                    states[m].manager.slots[s].emergency &&
                  states[m].manager.slots[s].current == states[k].manager.slots[s].current &&
                  states[m].manager.slots[s].previous == states[k].manager.slots[s].previous
  }

  /** `l` was moved off a FAILED target onto a HEALTHY one. */
  ghost predicate JustRemapped(l: Lane, next: Lane, health: map<Name, Health>)
    requires HasHealth(l, health)
  {
    next.slot.previous == l.slot.current && health[l.slot.current.interface].state == Failed &&
    next.slot.current.interface in health && health[next.slot.current.interface].state == Healthy
  }

  /** An emergency is either new in this round or carried over unchanged. */
  lemma EmergencyOrigin(drain: real, health: map<Name, Health>, r: Option<SlotTarget>, i: SlotInput, l: Lane)
    requires HasHealth(l, health) && HonestOffer(r, health) && StepLane(drain, health, r, i, l).slot.emergency
    ensures var next := StepLane(drain, health, r, i, l);
            JustRemapped(l, next, health) ||
            (l.slot.emergency && next.slot.current == l.slot.current && next.slot.previous == l.slot.previous)
  {
  }

  lemma EmergencyStep(cfg: Config, order: seq<Name>, targets: map<Name, SlotTarget>,
                      states: seq<State>, inputs: seq<RoundInput>, k: nat, s: Name)
    requires IsRun(cfg, order, targets, states, inputs) && k < |inputs| && s in targets
    requires s in states[k + 1].manager.slots && states[k + 1].manager.slots[s].emergency
    ensures s in states[k].manager.slots
    ensures var a, b := states[k].manager.slots[s], states[k + 1].manager.slots[s];
            RemappedAt(states, k, s, b.previous, b.current) ||
            (a.emergency && a.current == b.current && a.previous == b.previous)
  {
    var r := RunStep(cfg, order, targets, states, inputs, k, s);
    EmergencyOrigin(cfg.drainTimeout, states[k + 1].health, r, inputs[k].slots[s], At(states, k, s));
  }

  lemma HeldOneMore(states: seq<State>, j: nat, k: nat, s: Name)
    requires HeldSince(states, j, k, s) && j < k && k + 1 < |states| && s in states[k].manager.slots &&
             s in states[k + 1].manager.slots
    requires var a, b := states[k].manager.slots[s], states[k + 1].manager.slots[s];
             b.emergency && a.current == b.current && a.previous == b.previous
    ensures HeldSince(states, j, k + 1, s)
  {
  }

  /** The saved target of a slot in emergency is the one in force just before the last remap: not, in general,
      the configured one. */
  lemma {:induction false} SavedTargetIsLastBeforeRemap(cfg: Config, order: seq<Name>, targets: map<Name, SlotTarget>,
                                                        states: seq<State>, inputs: seq<RoundInput>, k: nat, s: Name)
    returns (j: nat)
    requires IsRun(cfg, order, targets, states, inputs) && k < |states| && s in targets
    requires s in states[k].manager.slots && states[k].manager.slots[s].emergency
    ensures j < k && HeldSince(states, j, k, s)
    ensures RemappedAt(states, j, s, states[k].manager.slots[s].previous, states[k].manager.slots[s].current)
  {
    if k == 0 {
      InitialInv(cfg, order, targets);
      assert false;
    }
    EmergencyStep(cfg, order, targets, states, inputs, k - 1, s);
    if RemappedAt(states, k - 1, s, states[k].manager.slots[s].previous, states[k].manager.slots[s].current) {
      j := k - 1;
    } else {
      j := SavedTargetIsLastBeforeRemap(cfg, order, targets, states, inputs, k - 1, s);
      HeldOneMore(states, j, k - 1, s);
    }
  }

  /** A failback restores the configured target exactly when the slot was still on it at the last remap. */
  lemma FailbackRestoresConfigured(cfg: Config, order: seq<Name>, targets: map<Name, SlotTarget>,
                                   states: seq<State>, inputs: seq<RoundInput>, k: nat, s: Name) returns (j: nat)
    requires IsRun(cfg, order, targets, states, inputs) && k < |inputs| && s in targets
    requires s in states[k].manager.slots && s in states[k].programmed
    requires s in states[k + 1].manager.slots && s in states[k + 1].programmed
    requires FailsBack(At(states, k, s), At(states, k + 1, s))
    ensures j < k && HeldSince(states, j, k, s) && s in states[j].manager.slots
    ensures RemappedAt(states, j, s, states[k].manager.slots[s].previous, states[k].manager.slots[s].current)
    ensures states[k + 1].manager.slots[s].current == targets[s] <==> states[j].manager.slots[s].current == targets[s]
  {
    j := SavedTargetIsLastBeforeRemap(cfg, order, targets, states, inputs, k, s);
    FailbackIsSafe(cfg, order, targets, states, inputs, k, s);
  }

  // ----- every input has a run

  /** What a round needs of its inputs. */
  ghost predicate InputsFit(cfg: Config, order: seq<Name>, inputs: seq<RoundInput>) {
    forall k :: 0 <= k < |inputs| ==> InputFor(cfg, inputs[k]) && SlotsGiven(order, inputs[k])
  }

  ghost predicate SlotsGiven(order: seq<Name>, i: RoundInput) {
    forall j :: 0 <= j < |order| ==> order[j] in i.slots
  }

  ghost predicate Configured(cfg: Config, order: seq<Name>, targets: map<Name, SlotTarget>) {
    cfg.Valid() && Distinct(order) && ToSet(order) == targets.Keys <= cfg.routeTable.Keys &&
    forall s :: s in targets ==> targets[s].interface in cfg.tunnels
  }

  lemma RunExtends(cfg: Config, order: seq<Name>, targets: map<Name, SlotTarget>, states: seq<State>,
                   inputs: seq<RoundInput>,
                   i: RoundInput) returns (next: State)
    requires IsRun(cfg, order, targets, states, inputs) && InputFor(cfg, i) && SlotsGiven(order, i)
    ensures IsRun(cfg, order, targets, states + [next], inputs + [i])
  {
    var n := |inputs|;
    RunKeepsInv(cfg, order, targets, states, inputs, n);
    ToSetMeaning(order);
    assert CanRound(cfg, order, states[n], i);
    next := Round(cfg, order, states[n], i);
    RoundsExtend(cfg, order, states, inputs, i, next);
  }

  lemma RoundsExtend(cfg: Config, order: seq<Name>, states: seq<State>, inputs: seq<RoundInput>, i: RoundInput,
                     next: State)
    requires |states| == |inputs| + 1 && Follows(cfg, order, states[|inputs|], i, next)
    requires forall k: nat :: RoundAt(cfg, order, states, inputs, k)
    ensures forall k: nat :: RoundAt(cfg, order, states + [next], inputs + [i], k)
  {
    forall k: nat
      ensures RoundAt(cfg, order, states + [next], inputs + [i], k)
    {
      RoundExtends(cfg, order, states, inputs, i, next, k);
    }
  }

  lemma RoundExtends(cfg: Config, order: seq<Name>, states: seq<State>, inputs: seq<RoundInput>, i: RoundInput,
                     next: State, k: nat)
    requires |states| == |inputs| + 1 && Follows(cfg, order, states[|inputs|], i, next) &&
             RoundAt(cfg, order, states, inputs, k)
    ensures RoundAt(cfg, order, states + [next], inputs + [i], k)
  {
    var longer, more := states + [next], inputs + [i];
    if k < |inputs| {
      assert longer[k] == states[k] && longer[k + 1] == states[k + 1] && more[k] == inputs[k];
    } else if k == |inputs| {
      assert longer[k] == states[k] && longer[k + 1] == next && more[k] == i;
    }
  }

  /** Whatever the probes, clocks and flow counts are, there is a run on them. */
  lemma {:induction false} EveryInputHasARun(cfg: Config, order: seq<Name>, targets: map<Name, SlotTarget>,
                                             inputs: seq<RoundInput>)
    returns (states: seq<State>)
    requires Configured(cfg, order, targets) && InputsFit(cfg, order, inputs)
    ensures IsRun(cfg, order, targets, states, inputs)
    decreases |inputs|
  {
    if inputs == [] {
      states := [InitialState(cfg, targets)];
    } else {
      var n := |inputs| - 1;
      var init := inputs[..n];
      forall k | 0 <= k < |init|
        ensures InputFor(cfg, init[k]) && SlotsGiven(order, init[k])
      {
        assert init[k] == inputs[k];
      }
      var shorter := EveryInputHasARun(cfg, order, targets, init);
      var next := RunExtends(cfg, order, targets, shorter, init, inputs[n]);
      states := shorter + [next];
      assert inputs == init + [inputs[n]];
    }
  }

  /** The probes of one tunnel in the first `k` rounds of a run. */
  function ProbesOf(inputs: seq<RoundInput>, k: nat, n: Name): seq<Observation>
    requires k <= |inputs| && forall j :: 0 <= j < k ==> n in inputs[j].samples
  {
    if k == 0 then [] else ProbesOf(inputs, k - 1, n) + [inputs[k - 1].samples[n]]
  }

  lemma FollowsFeeds(cfg: Config, order: seq<Name>, st: State, i: RoundInput, next: State, n: Name)
    requires Follows(cfg, order, st, i, next) && n in cfg.tunnels
    ensures n in i.samples && n in st.health && n in next.health
    ensures next.health[n] == Observe(cfg.thresholds, st.health[n], i.samples[n].sample, i.samples[n].now)
  {
    RoundKeepsShape(cfg, order, st, i);
  }

  lemma RoundFeeds(cfg: Config, order: seq<Name>, targets: map<Name, SlotTarget>, states: seq<State>,
                   inputs: seq<RoundInput>, k: nat, n: Name)
    requires IsRun(cfg, order, targets, states, inputs) && k < |inputs| && n in cfg.tunnels
    ensures n in inputs[k].samples && n in states[k].health && n in states[k + 1].health
    ensures states[k + 1].health[n] == Observe(cfg.thresholds, states[k].health[n], inputs[k].samples[n].sample,
            inputs[k].samples[n].now)
  {
    assert RoundAt(cfg, order, states, inputs, k);
    FollowsFeeds(cfg, order, states[k], inputs[k], states[k + 1], n);
  }

  lemma SamplesGiven(cfg: Config, order: seq<Name>, targets: map<Name, SlotTarget>, states: seq<State>,
                     inputs: seq<RoundInput>, n: Name)
    requires IsRun(cfg, order, targets, states, inputs) && n in cfg.tunnels
    ensures forall k :: 0 <= k < |inputs| ==> n in inputs[k].samples
  {
    forall k: nat | k < |inputs|
      ensures n in inputs[k].samples
    {
      assert RoundAt(cfg, order, states, inputs, k);
    }
  }

  /** In every run, each tunnel's health is what its own machine makes of its own probes. */
  lemma {:induction false} HealthIsFed(cfg: Config, order: seq<Name>, targets: map<Name, SlotTarget>,
                                       states: seq<State>, inputs: seq<RoundInput>, k: nat, n: Name)
    requires IsRun(cfg, order, targets, states, inputs) && k < |states| && n in cfg.tunnels
    ensures forall j :: 0 <= j < |inputs| ==> n in inputs[j].samples
    ensures n in states[k].health && states[k].health[n] == Feed(cfg.thresholds, ProbesOf(inputs, k, n))
  {
    SamplesGiven(cfg, order, targets, states, inputs, n);
    if k > 0 {
      var j := k - 1;
      HealthIsFed(cfg, order, targets, states, inputs, j, n);
      RoundFeeds(cfg, order, targets, states, inputs, j, n);
      FeedOne(cfg.thresholds, ProbesOf(inputs, j, n), inputs[j].samples[n]);
    }
  }

  /** That is: what it makes of those probes that were newer than any before and fresh on arrival. */
  lemma HealthIsReplay(cfg: Config, order: seq<Name>, targets: map<Name, SlotTarget>, states: seq<State>,
                       inputs: seq<RoundInput>, k: nat, n: Name)
    requires IsRun(cfg, order, targets, states, inputs) && k < |states| && n in cfg.tunnels
    ensures forall j :: 0 <= j < |inputs| ==> n in inputs[j].samples
    ensures n in states[k].health
    ensures states[k].health[n] == Replay(cfg.thresholds, Kept(cfg.thresholds, ProbesOf(inputs, k, n)))
  {
    HealthIsFed(cfg, order, targets, states, inputs, k, n);
    OfferedIsFiltered(cfg.thresholds, ProbesOf(inputs, k, n));
  }
}
