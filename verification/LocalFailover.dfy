/** Serialized route-slot transitions: emergency remap, drain and failback. */
module LocalFailover {
  import opened Basics

  datatype SlotTarget = SlotTarget(hub: Name, transport: Name, interface: Name, routeTable: int)

  datatype SlotState = SlotState(
    current: SlotTarget, previous: SlotTarget, emergency: bool, drainDeadline: Option<real>)

  datatype Event = Event(
    id: Name, slot: Name, oldTarget: SlotTarget, newTarget: SlotTarget, routeVersion: nat, timestamp: real)

  datatype ManagerState = ManagerState(
    slots: map<Name, SlotState>, routeVersion: nat, events: map<Name, Event>)

  function Initial(targets: map<Name, SlotTarget>): ManagerState {
    ManagerState(map s | s in targets :: SlotState(targets[s], targets[s], false, None), 0, map[])
  }

  datatype RemapResult = Remapped(event: Event) | StaleRouteVersion | UnchangedTarget

  function RemapEvent(m: ManagerState, id: Name, slot: Name, replacement: SlotTarget, now: real): Event
    requires slot in m.slots
  {
    Event(id, slot, m.slots[slot].current, replacement, m.routeVersion + 1, now)
  }

  /** The state after an accepted, not yet recorded remap. */
  function Remap(m: ManagerState, id: Name, slot: Name, replacement: SlotTarget, now: real): ManagerState
    requires slot in m.slots
  {
    ManagerState(
      m.slots[slot := SlotState(replacement, m.slots[slot].current, true, None)],
      m.routeVersion + 1,
      m.events[id := RemapEvent(m, id, slot, replacement, now)])
  }

  function Begin(m: ManagerState, slot: Name, drainTimeout: real, now: real): ManagerState
    requires slot in m.slots
  {
    if !m.slots[slot].emergency then m
    else m.(slots := m.slots[slot := m.slots[slot].(drainDeadline := Some(now + drainTimeout))])
  }

  predicate CanComplete(s: SlotState, activeFlows: int, now: real) {
    s.emergency && s.drainDeadline.Some? && (activeFlows <= 0 || now >= s.drainDeadline.value)
  }

  function Complete(m: ManagerState, slot: Name, activeFlows: int, now: real): ManagerState
    requires slot in m.slots
  {
    var s := m.slots[slot];
    if !CanComplete(s, activeFlows, now) then m
    else m.(slots := m.slots[slot := SlotState(s.previous, s.previous, false, None)],
      routeVersion := m.routeVersion + 1)
  }

  class LocalFailoverManager {
    const order: seq<Name>
    const drainTimeout: real
    var slots: map<Name, SlotState>
    var routeVersion: nat
    var events: map<Name, Event>

    ghost predicate Valid()
      reads this
    {
      drainTimeout > 0.0 && ToSet(order) == slots.Keys
    }

    ghost function View(): ManagerState
      reads this
    {
      ManagerState(slots, routeVersion, events)
    }

    constructor (order: seq<Name>, targets: map<Name, SlotTarget>, drainTimeout: real)
      requires drainTimeout > 0.0
      requires ToSet(order) == targets.Keys
      ensures Valid() && View() == Initial(targets)
      ensures this.order == order && this.drainTimeout == drainTimeout
    {
      this.order := order;
      this.drainTimeout := drainTimeout;
      slots := map s | s in targets :: SlotState(targets[s], targets[s], false, None);
      routeVersion := 0;
      events := map[];
    }

    method EmergencyRemap(id: Name, slot: Name, replacement: SlotTarget, expectedVersion: Option<nat>, now: real)
      returns (r: RemapResult)
      requires Valid() && slot in slots
      modifies this
      ensures Valid()
      ensures id in old(events) ==> r == Remapped(old(events)[id]) && View() == old(View())
      ensures id !in old(events) ==>
                if expectedVersion.Some? && expectedVersion.value != old(routeVersion) then
                  r == StaleRouteVersion && View() == old(View())
                else if old(slots)[slot].current == replacement then
                  r == UnchangedTarget && View() == old(View())
                else
                  r == Remapped(RemapEvent(old(View()), id, slot, replacement, now)) &&
                  View() == Remap(old(View()), id, slot, replacement, now)
      ensures id !in old(events) && r.Remapped? ==>
                && r.event.oldTarget == old(slots)[slot].current == slots[slot].previous
                && r.event.newTarget == replacement == slots[slot].current && slots[slot].emergency
                && r.event.routeVersion == routeVersion == old(routeVersion) + 1 && r.event.timestamp == now
    {
      if id in events {
        return Remapped(events[id]);
      }
      if expectedVersion.Some? && expectedVersion.value != routeVersion {
        return StaleRouteVersion;
      }
      var state := slots[slot];
      if state.current == replacement {
        return UnchangedTarget;
      }
      slots := slots[slot := SlotState(replacement, state.current, true, None)];
      routeVersion := routeVersion + 1;
      var event := Event(id, slot, state.current, replacement, routeVersion, now);
      events := events[id := event];
      return Remapped(event);
    }

    method BeginRecovery(slot: Name, now: real)
      requires Valid() && slot in slots
      modifies this
      ensures Valid() && View() == Begin(old(View()), slot, drainTimeout, now)
    {
      var state := slots[slot];
      if !state.emergency {
        return;
      }
      slots := slots[slot := state.(drainDeadline := Some(now + drainTimeout))];
    }

    method CompleteRecovery(slot: Name, activeFlows: int, now: real) returns (r: Option<SlotTarget>)
      requires Valid() && slot in slots
      modifies this
      ensures Valid() && View() == Complete(old(View()), slot, activeFlows, now)
      ensures r == if CanComplete(old(slots)[slot], activeFlows, now) then Some(old(slots)[slot].previous) else None
      ensures r.Some? ==> slots[slot].current == r.value && !slots[slot].emergency && routeVersion > old(routeVersion)
    {
      var state := slots[slot];
      if !state.emergency || state.drainDeadline.None? {
        return None;
      }
      if activeFlows > 0 && now < state.drainDeadline.value {
        return None;
      }
      slots := slots[slot := SlotState(state.previous, state.previous, false, None)];
      routeVersion := routeVersion + 1;
      return Some(state.previous);
    }
  }
}
