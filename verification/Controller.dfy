/** The underlay controller: event handlers, the fingerprint cache that skips reprogramming, and its coherence. */
module Controller {
  import opened Basics
  import opened Underlay
  import opened UnderlayMeaning
  import opened OpenFlow
  import opened UnderlayProgram
  import opened UnderlayPipeline
  import opened UnderlayTheorems

  datatype Mode = Disabled | Audit | Enforce

  /** The policy-owned site inventory as one reconciliation reads it. */
  datatype Inventory = Inventory(cfg: Config, authorized: set<Name>)

  /** The dataplane input a switch was last programmed with, order of attachments and routes forgotten. */
  datatype Fingerprint = Fingerprint(mode: Mode, slot: nat, ports: map<PortName, nat>,
                                     attachments: multiset<Attachment>, routes: multiset<Route>)

  function CurrentInputs(mode: Mode, t: Transport, ports: map<PortName, nat>, inv: Inventory): Inputs {
    InputsFor(inv.cfg, t, inv.authorized, mode == Enforce, ports)
  }

  function FingerprintOf(mode: Mode, t: Transport, inp: Inputs): Fingerprint {
    Fingerprint(mode, t.slot, inp.ports, multiset(inp.attached), multiset(inp.routes))
  }

  predicate InputsOf(mode: Mode, t: Transport, inp: Inputs) {
    inp.enforce == (mode == Enforce) && inp.gateway == GatewayMac(t.slot)
  }

  // ----- the fingerprint determines the program

  ghost predicate GoodInputs(inp: Inputs) {
    DistinctPorts(inp) && RoutesAgree(inp) && forall r :: r in inp.routes ==> r.destination.size > 0
  }

  lemma ValidInputsAreGood(mode: Mode, t: Transport, ports: map<PortName, nat>, inv: Inventory)
    requires Validated(inv.cfg, t) && GoodPorts(inv.cfg, t, ports)
    ensures GoodInputs(CurrentInputs(mode, t, ports, inv))
  {
    var atts := Attachments(inv.cfg, t, inv.authorized);
    var inp := InputsOver(inv.cfg, t, atts, mode == Enforce, ports);
    ValidatedIsGood(inv.cfg, t, inv.authorized, ports);
    InputsAreGood(inv.cfg, t, atts, mode == Enforce, ports);
    forall r | r in inp.routes
      ensures r.destination.size > 0
    {
      RouteNotEmpty(inv.cfg, t, atts, r);
    }
  }

  lemma RouteNotEmpty(cfg: Config, t: Transport, atts: seq<Attachment>, r: Route)
    requires WellWired(atts, t.network) && HasGateway(cfg, t.internet, atts) && r in Fib(cfg, t.internet, atts)
    ensures r.destination.size > 0
  {
    var auth := Authorized(atts);
    RoutesOfMembers(cfg, t.internet, auth, auth, r);
    var s :| s in auth && JustifiedBy(cfg, t.internet, s, auth, r);
    if IsBreakout(cfg, t.internet, s, r) {
      var g :| g in atts && IsGateway(cfg, g);
      FactsOf(atts, t.network, cfg, t.internet, g);
    } else {
      var u :| u in auth && IsRoute(cfg, t.internet, s, u, r);
      FactsOf(atts, t.network, cfg, t.internet, u);
    }
  }

  /** Two messages for the same entry never disagree, so their order does not matter. */
  lemma ProgrammedAgrees(inp: Inputs, m: FlowMod, n: FlowMod)
    requires GoodInputs(inp) && Programmed(inp, m) && Programmed(inp, n) && m.key == n.key
    ensures m.action == n.action
  {
    if m.key.table == 30 && m.key.priority == 300 {
      var r, s, t :| FromRoute(inp, r, s, t, m);
      var r', s', t' :| FromRoute(inp, r', s', t', n);
      SamePortSameAttachment(inp, s, s');
      assert r.destination == r'.destination && r.destination.Contains(r.destination.base);
      SamePortSameAttachment(inp, t, t');
    }
  }

  ghost predicate SameMembers(a: Inputs, b: Inputs) {
    a.enforce == b.enforce && a.gateway == b.gateway && a.ports == b.ports &&
    (forall x :: x in a.attached <==> x in b.attached) && (forall r :: r in a.routes <==> r in b.routes)
  }

  lemma SameMembersSameEntries(a: Inputs, b: Inputs, m: FlowMod)
    requires SameMembers(a, b) && Programmed(a, m)
    ensures Programmed(b, m)
  {
    if x :| FromAttachment(a, x, m) {
      assert FromAttachment(b, x, m);
    }
    if r, s, t :| FromRoute(a, r, s, t, m) {
      assert FromRoute(b, r, s, t, m);
    }
  }

  lemma SameMembersSameFlows(a: Inputs, b: Inputs)
    requires GoodInputs(a) && GoodInputs(b) && SameMembers(a, b)
    ensures Compiled(a) == Compiled(b)
  {
    var fa, fb := Compiled(a), Compiled(b);
    forall k | k in fa
      ensures k in fb && fb[k] == fa[k]
    {
      EntryCarriesOver(a, b, k);
    }
    forall k | k in fb
      ensures k in fa
    {
      EntryCarriesOver(b, a, k);
    }
  }

  lemma EntryCarriesOver(a: Inputs, b: Inputs, k: FlowKey)
    requires GoodInputs(a) && GoodInputs(b) && SameMembers(a, b) && k in Compiled(a)
    ensures k in Compiled(b) && Compiled(b)[k] == Compiled(a)[k]
  {
    CompiledMeaning(a);
    CompiledMeaning(b);
    var m := FlowMod(k, Compiled(a)[k]);
    SameMembersSameEntries(a, b, m);
    ProgrammedAgrees(b, m, FlowMod(k, Compiled(b)[k]));
  }

  lemma MultisetMembers<T>(a: seq<T>, b: seq<T>)
    requires multiset(a) == multiset(b)
    ensures forall x :: x in a <==> x in b
  {
    assert forall x :: x in a <==> x in multiset(a);
    assert forall x :: x in b <==> x in multiset(b);
  }

  /** Equal fingerprints compile to equal flows, although attachments and routes may come in another order. */
  lemma FingerprintDeterminesFlows(mode: Mode, t: Transport, a: Inputs, b: Inputs)
    requires GoodInputs(a) && GoodInputs(b) && InputsOf(mode, t, a) && InputsOf(mode, t, b)
    requires FingerprintOf(mode, t, a) == FingerprintOf(mode, t, b)
    ensures Compiled(a) == Compiled(b)
  {
    MultisetMembers(a.attached, b.attached);
    MultisetMembers(a.routes, b.routes);
    SameMembersSameFlows(a, b);
  }

  // ----- events

  datatype State = State(
    datapaths: set<nat>, portNames: map<nat, map<PortName, nat>>, fingerprints: map<nat, Fingerprint>,
    switches: map<nat, Flows>)

  datatype Event =
    | SwitchFeatures(dpid: nat, flows: Flows)
    | PortDescription(dpid: nat, ports: map<PortName, nat>, inventory: Inventory)
    | PortStatus(dpid: nat)
    | DatapathDead(dpid: nat)
    | Reconcile(dpid: nat, inventory: Inventory)

  function PortsOf(st: State, dpid: nat): map<PortName, nat> {
    if dpid in st.portNames then st.portNames[dpid] else map[]
  }

  function ReconcileStep(mode: Mode, transports: map<nat, Transport>, st: State, dpid: nat, inv: Inventory): State {
    if dpid !in transports then st
    else if mode == Disabled then
      if dpid !in st.fingerprints then st
      else st.(fingerprints := st.fingerprints - {dpid}, switches := st.switches[dpid := map[]])
    else
      Reprogram(mode, transports[dpid], st, dpid, CurrentInputs(mode, transports[dpid], PortsOf(st, dpid), inv))
  }

  /** Skip if the fingerprint is the cached one; otherwise replace all owned flows. */
  function Reprogram(mode: Mode, t: Transport, st: State, dpid: nat, inp: Inputs): State {
    var fp := FingerprintOf(mode, t, inp);
    if dpid in st.fingerprints && st.fingerprints[dpid] == fp then st
    else st.(fingerprints := st.fingerprints[dpid := fp], switches := st.switches[dpid := Compiled(inp)])
  }

  /** A connecting switch comes with whatever flows it holds; the environment's part of each event is in the event. */
  function Step(mode: Mode, transports: map<nat, Transport>, st: State, e: Event): State {
    match e
    case SwitchFeatures(d, flows) =>
      st.(datapaths := st.datapaths + {d}, fingerprints := st.fingerprints - {d}, switches := st.switches[d := flows])
    case PortDescription(d, ports, inv) =>
      var dropped := st.(datapaths := st.datapaths + {d}, fingerprints := st.fingerprints - {d},
        portNames := st.portNames[d := ports]);
      ReconcileStep(mode, transports, dropped, d, inv)
    case PortStatus(d) => st.(fingerprints := st.fingerprints - {d})
    case DatapathDead(d) =>
      st.(datapaths := st.datapaths - {d}, portNames := st.portNames - {d}, fingerprints := st.fingerprints - {d})
    case Reconcile(d, inv) => ReconcileStep(mode, transports, st, d, inv)
  }

  class UnderlayController {
    const mode: Mode
    const transports: map<nat, Transport>
    var datapaths: set<nat>
    var portNames: map<nat, map<PortName, nat>>
    var fingerprints: map<nat, Fingerprint>
    /** The owned flows each switch holds: the controller only writes them, by sending messages. */
    var switches: map<nat, Flows>

    ghost function View(): State
      reads this
    {
      State(datapaths, portNames, fingerprints, switches)
    }

    constructor (mode: Mode, transports: map<nat, Transport>)
      ensures this.mode == mode && this.transports == transports && View() == State({}, map[], map[], map[])
    {
      this.mode, this.transports := mode, transports;
      datapaths, portNames, fingerprints, switches := {}, map[], map[], map[];
    }

    static method ProgramSwitch(inp: Inputs) returns (flows: Flows)
      ensures flows == Compiled(inp)
    {
      flows := Send(DEFAULTS, map[]);
      flows := ProgramAttachments(inp, flows);
      flows := ProgramRoutes(inp, flows);
      InstallAppend(map[], DEFAULTS, AllAttachmentMods(inp, inp.attached));
      InstallAppend(map[], DEFAULTS + AllAttachmentMods(inp, inp.attached), AllRouteMods(inp, inp.routes));
    }

    static method ProgramAttachments(inp: Inputs, before: Flows) returns (flows: Flows)
      ensures flows == Install(before, AllAttachmentMods(inp, inp.attached))
    {
      flows := before;
      for k := 0 to |inp.attached|
        invariant flows == Install(before, AllAttachmentMods(inp, inp.attached[..k]))
      {
        assert inp.attached[..k + 1][..k] == inp.attached[..k];
        InstallAppend(before, AllAttachmentMods(inp, inp.attached[..k]), AttachmentMods(inp, inp.attached[k]));
        flows := Send(AttachmentMods(inp, inp.attached[k]), flows);
      }
      assert inp.attached[..|inp.attached|] == inp.attached;
    }

    static method ProgramRoutes(inp: Inputs, before: Flows) returns (flows: Flows)
      ensures flows == Install(before, AllRouteMods(inp, inp.routes))
    {
      flows := before;
      for k := 0 to |inp.routes|
        invariant flows == Install(before, AllRouteMods(inp, inp.routes[..k]))
      {
        assert inp.routes[..k + 1][..k] == inp.routes[..k];
        InstallAppend(before, AllRouteMods(inp, inp.routes[..k]), RouteMods(inp, inp.routes[k]));
        flows := Send(RouteMods(inp, inp.routes[k]), flows);
      }
      assert inp.routes[..|inp.routes|] == inp.routes;
    }

    static method Send(mods: seq<FlowMod>, before: Flows) returns (flows: Flows)
      ensures flows == Install(before, mods)
    {
      flows := before;
      for k := 0 to |mods|
        invariant flows == Install(before, mods[..k])
      {
        assert mods[..k + 1][..k] == mods[..k];
        flows := flows[mods[k].key := mods[k].action];
      }
      assert mods[..|mods|] == mods;
    }

    method ReconcileDatapath(dpid: nat, inv: Inventory)
      modifies this`fingerprints, this`switches
      ensures View() == ReconcileStep(mode, transports, old(View()), dpid, inv)
    {
      if dpid !in transports {
        return;
      }
      var t := transports[dpid];
      if mode == Disabled {
        if dpid in fingerprints {
          fingerprints := fingerprints - {dpid};
          switches := switches[dpid := map[]];
        }
        return;
      }
      var ports := if dpid in portNames then portNames[dpid] else map[];
      var inp := CurrentInputs(mode, t, ports, inv);
      var fp := FingerprintOf(mode, t, inp);
      if dpid in fingerprints && fingerprints[dpid] == fp {
        return;
      }
      var flows := ProgramSwitch(inp);
      switches := switches[dpid := flows];
      fingerprints := fingerprints[dpid := fp];
    }

    method Handle(e: Event)
      modifies this
      ensures View() == Step(mode, transports, old(View()), e)
    {
      match e
      case SwitchFeatures(d, flows) =>
        datapaths := datapaths + {d};
        fingerprints := fingerprints - {d};
        switches := switches[d := flows];
      case PortDescription(d, ports, inv) =>
        datapaths := datapaths + {d};
        fingerprints := fingerprints - {d};
        portNames := portNames[d := ports];
        ReconcileDatapath(d, inv);
      case PortStatus(d) =>
        fingerprints := fingerprints - {d};
      case DatapathDead(d) =>
        datapaths := datapaths - {d};
        portNames := portNames - {d};
        fingerprints := fingerprints - {d};
      case Reconcile(d, inv) =>
        ReconcileDatapath(d, inv);
    }
  }

  // ----- coherence over every interleaving

  ghost predicate EventOk(mode: Mode, transports: map<nat, Transport>, st: State, e: Event) {
    match e
    case PortDescription(d, ports, inv) => d in transports ==>
      GoodInputs(CurrentInputs(mode, transports[d], ports, inv))
    case Reconcile(d, inv) => d in transports ==> GoodInputs(CurrentInputs(mode, transports[d], PortsOf(st, d), inv))
    case _ => true
  }

  /** The cached fingerprint describes some good input whose flows the switch holds. */
  ghost predicate CachedBy(mode: Mode, t: Transport, fp: Fingerprint, flows: Flows, inp: Inputs) {
    GoodInputs(inp) && InputsOf(mode, t, inp) && fp == FingerprintOf(mode, t, inp) && flows == Compiled(inp)
  }

  ghost predicate CacheOk(mode: Mode, t: Transport, fp: Fingerprint, flows: Flows) {
    exists inp :: CachedBy(mode, t, fp, flows, inp)
  }

  ghost predicate Coherent(mode: Mode, transports: map<nat, Transport>, st: State) {
    forall d :: d in st.fingerprints ==> CoherentAt(mode, transports, st, d)
  }

  ghost predicate CoherentAt(mode: Mode, transports: map<nat, Transport>, st: State, d: nat)
    requires d in st.fingerprints
  {
    d in transports && d in st.switches && CacheOk(mode, transports[d], st.fingerprints[d], st.switches[d])
  }

  lemma ReprogramIsFresh(mode: Mode, t: Transport, st: State, d: nat, inp: Inputs)
    requires GoodInputs(inp) && InputsOf(mode, t, inp)
    requires d in st.fingerprints ==> d in st.switches && CacheOk(mode, t, st.fingerprints[d], st.switches[d])
    ensures var next := Reprogram(mode, t, st, d, inp);
            d in next.fingerprints && d in next.switches && next.switches[d] == Compiled(inp) &&
            CacheOk(mode, t, next.fingerprints[d], next.switches[d])
  {
    var fp := FingerprintOf(mode, t, inp);
    if d in st.fingerprints && st.fingerprints[d] == fp {
      var cached :| CachedBy(mode, t, fp, st.switches[d], cached);
      FingerprintDeterminesFlows(mode, t, inp, cached);
    }
    assert CachedBy(mode, t, fp, Compiled(inp), inp);
  }

  /** Reprogramming touches one switch. */
  lemma ReprogramIsLocal(mode: Mode, transports: map<nat, Transport>, st: State, d: nat, inp: Inputs)
    requires Coherent(mode, transports, st) && d in transports
    requires var next := Reprogram(mode, transports[d], st, d, inp);
             d in next.fingerprints && CoherentAt(mode, transports, next, d)
    ensures Coherent(mode, transports, Reprogram(mode, transports[d], st, d, inp))
  {
    var next := Reprogram(mode, transports[d], st, d, inp);
    forall x | x in next.fingerprints && x != d
      ensures CoherentAt(mode, transports, next, x)
    {
      assert CoherentAt(mode, transports, st, x);
    }
  }

  /** After a reconciliation the switch holds a fresh compile of its current inputs, whether or not it was
      reprogrammed. */
  lemma ReconcileIsFresh(mode: Mode, transports: map<nat, Transport>, st: State, d: nat, inv: Inventory)
    requires Coherent(mode, transports, st) && d in transports && mode != Disabled
    requires GoodInputs(CurrentInputs(mode, transports[d], PortsOf(st, d), inv))
    ensures var next := ReconcileStep(mode, transports, st, d, inv);
            && Coherent(mode, transports, next) && d in next.switches &&
              next.switches[d] == Compiled(CurrentInputs(mode, transports[d], PortsOf(st, d), inv))
  {
    var inp := CurrentInputs(mode, transports[d], PortsOf(st, d), inv);
    assert d in st.fingerprints ==> CoherentAt(mode, transports, st, d);
    ReprogramIsFresh(mode, transports[d], st, d, inp);
    ReprogramIsLocal(mode, transports, st, d, inp);
  }

  lemma StepKeepsCoherence(mode: Mode, transports: map<nat, Transport>, st: State, e: Event)
    requires Coherent(mode, transports, st) && EventOk(mode, transports, st, e)
    ensures Coherent(mode, transports, Step(mode, transports, st, e))
  {
    if e.PortDescription? {
      var dropped := st.(datapaths := st.datapaths + {e.dpid}, fingerprints := st.fingerprints - {e.dpid},
                         portNames := st.portNames[e.dpid := e.ports]);
      assert Coherent(mode, transports, dropped);
      if e.dpid in transports && mode != Disabled {
        ReconcileIsFresh(mode, transports, dropped, e.dpid, e.inventory);
      }
    } else if e.Reconcile? && e.dpid in transports && mode != Disabled {
      ReconcileIsFresh(mode, transports, st, e.dpid, e.inventory);
    }
  }

  function Run(mode: Mode, transports: map<nat, Transport>, events: seq<Event>): State {
    if events == [] then State({}, map[], map[], map[])
    else Step(mode, transports, Run(mode, transports, events[..|events| - 1]), events[|events| - 1])
  }

  /** The ports that the switch described last, if it has not died since. */
  function Described(events: seq<Event>, d: nat): map<PortName, nat> {
    if events == [] then map[]
    else
      match events[|events| - 1]
      case PortDescription(u, ports, _) => if u == d then ports else Described(events[..|events| - 1], d)
      case DatapathDead(u) => if u == d then map[] else Described(events[..|events| - 1], d)
      case _ => Described(events[..|events| - 1], d)
  }

  /** Over every interleaving of events, a reconcile uses the ports described last. */
  lemma {:induction false} PortsAreDescribed(mode: Mode, transports: map<nat, Transport>, events: seq<Event>, d: nat)
    ensures PortsOf(Run(mode, transports, events), d) == Described(events, d)
  {
    if events != [] {
      var n := |events| - 1;
      PortsAreDescribed(mode, transports, events[..n], d);
      PortsAfter(mode, transports, Run(mode, transports, events[..n]), events[n], d);
    }
  }

  lemma PortsAfter(mode: Mode, transports: map<nat, Transport>, st: State, e: Event, d: nat)
    ensures PortsOf(Step(mode, transports, st, e), d) ==
            match e
            case PortDescription(u, ports, _) => if u == d then ports else PortsOf(st, d)
            case DatapathDead(u) => if u == d then map[] else PortsOf(st, d)
            case _ => PortsOf(st, d)
  {
  }

  /** Events after which what a switch holds is not known: the next reconcile replaces all its flows. */
  predicate Forgets(e: Event, d: nat) {
    match e
    case SwitchFeatures(u, _) => u == d
    case PortStatus(u) => u == d
    case DatapathDead(u) => u == d
    case _ => false
  }

  lemma ForgottenIsReprogrammed(mode: Mode, transports: map<nat, Transport>, st: State, e: Event, d: nat)
    requires Forgets(e, d)
    ensures d !in Step(mode, transports, st, e).fingerprints
    ensures forall u :: u != d ==> (u in Step(mode, transports, st, e).fingerprints <==> u in st.fingerprints)
  {
  }

  /** While the controller is disabled it caches nothing, and a switch holds what it connected with. */
  lemma {:induction false} DisabledIsInert(transports: map<nat, Transport>, events: seq<Event>, e: Event, d: nat)
    ensures var before, after := Run(Disabled, transports, events), Run(Disabled, transports, events + [e]);
            && before.fingerprints == after.fingerprints == map[]
            && (d in after.switches <==> d in before.switches || (e.SwitchFeatures? && e.dpid == d))
            && (d in after.switches ==>
                  after.switches[d] == if e.SwitchFeatures? && e.dpid == d then e.flows else before.switches[d])
  {
    assert (events + [e])[..|events|] == events;
    NothingCached(transports, events);
  }

  lemma {:induction false} NothingCached(transports: map<nat, Transport>, events: seq<Event>)
    ensures Run(Disabled, transports, events).fingerprints == map[]
  {
    if events != [] {
      NothingCached(transports, events[..|events| - 1]);
    }
  }

  // ----- validated inventories

  /** No two nodes, and not the gateway either, share an attachment suffix; validation does not check this. */
  ghost predicate DistinctSuffixes(cfg: Config) {
    var all := Suffixes(cfg);
    forall i, j :: 0 <= i < j < |all| ==> all[i] != all[j]
  }

  function Suffixes(cfg: Config): seq<Name> {
    seq(|cfg.hubs|, i requires 0 <= i < |cfg.hubs| => cfg.hubs[i].suffix) +
    seq(|cfg.branches|, i requires 0 <= i < |cfg.branches| => cfg.branches[i].node.suffix) + [cfg.gatewaySuffix]
  }

  lemma SuffixesNamePorts(cfg: Config, t: Transport)
    requires DistinctSuffixes(cfg)
    ensures DistinctPortNames(Attachments(cfg, t, {}))
  {
    var atts, all := Attachments(cfg, t, {}), Suffixes(cfg);
    forall i | 0 <= i < |atts|
      ensures i < |all| && atts[i].port == PortName(t.switch, all[i])
    {
    }
  }

  /** The inventory passes validation for every transport, with distinct suffixes. */
  ghost predicate SoundInventory(transports: map<nat, Transport>, inv: Inventory) {
    DistinctSuffixes(inv.cfg) && forall d :: d in transports ==> Validated(inv.cfg, transports[d])
  }

  /** What each event brings from outside: validated inventories, and port lists in which no number occurs twice. */
  ghost predicate SoundEvent(transports: map<nat, Transport>, e: Event) {
    match e
    case PortDescription(d, ports, inv) => Injective(ports) && SoundInventory(transports, inv)
    case Reconcile(d, inv) => SoundInventory(transports, inv)
    case _ => true
  }

  ghost predicate SoundEvents(transports: map<nat, Transport>, events: seq<Event>) {
    forall k :: 0 <= k < |events| ==> SoundEvent(transports, events[k])
  }

  ghost predicate PortsInjective(st: State) {
    forall d :: d in st.portNames ==> Injective(st.portNames[d])
  }

  lemma StepKeepsPortsInjective(mode: Mode, transports: map<nat, Transport>, st: State, e: Event)
    requires PortsInjective(st) && SoundEvent(transports, e)
    ensures PortsInjective(Step(mode, transports, st, e))
  {
  }

  /** Whatever is stored about ports stays injective. */
  lemma {:induction false} PortsStayInjective(mode: Mode, transports: map<nat, Transport>, events: seq<Event>)
    requires SoundEvents(transports, events)
    ensures PortsInjective(Run(mode, transports, events))
  {
    if events != [] {
      var n := |events| - 1;
      PortsStayInjective(mode, transports, events[..n]);
      StepKeepsPortsInjective(mode, transports, Run(mode, transports, events[..n]), events[n]);
    }
  }

  lemma SoundInputsAreGood(mode: Mode, transports: map<nat, Transport>, d: nat, ports: map<PortName, nat>,
                           inv: Inventory)
    requires d in transports && SoundInventory(transports, inv) && Injective(ports)
    ensures GoodInputs(CurrentInputs(mode, transports[d], ports, inv))
  {
    SuffixesNamePorts(inv.cfg, transports[d]);
    ValidInputsAreGood(mode, transports[d], ports, inv);
  }

  lemma SoundEventIsOk(mode: Mode, transports: map<nat, Transport>, st: State, e: Event)
    requires PortsInjective(st) && SoundEvent(transports, e)
    ensures EventOk(mode, transports, st, e)
  {
    match e
    case PortDescription(d, ports, inv) =>
      if d in transports {
        SoundInputsAreGood(mode, transports, d, ports, inv);
      }
    case Reconcile(d, inv) =>
      if d in transports {
        SoundInputsAreGood(mode, transports, d, PortsOf(st, d), inv);
      }
    case _ =>
  }

  // ----- the end theorems

  /** Every interleaving of events, with any validated inventories, keeps the cache coherent. */
  lemma {:induction false} RunIsCoherent(mode: Mode, transports: map<nat, Transport>, events: seq<Event>)
    requires SoundEvents(transports, events)
    ensures Coherent(mode, transports, Run(mode, transports, events))
  {
    if events != [] {
      var n := |events| - 1;
      var init := events[..n];
      RunIsCoherent(mode, transports, init);
      PortsStayInjective(mode, transports, init);
      SoundEventIsOk(mode, transports, Run(mode, transports, init), events[n]);
      StepKeepsCoherence(mode, transports, Run(mode, transports, init), events[n]);
    }
  }

  /** Over every interleaving of events, a reconciled switch holds exactly the flows of a fresh compile. */
  lemma EveryReconcileIsFresh(mode: Mode, transports: map<nat, Transport>, events: seq<Event>, d: nat, inv: Inventory)
    requires mode != Disabled && d in transports && SoundEvents(transports, events) && SoundInventory(transports, inv)
    ensures var before, after := Run(mode, transports, events), Run(mode, transports, events + [Reconcile(d, inv)]);
            d in after.switches && after.switches[d] == Compiled(CurrentInputs(mode, transports[d], PortsOf(before, d),
              inv))
  {
    var all := events + [Reconcile(d, inv)];
    assert all[..|events|] == events;
    RunIsCoherent(mode, transports, events);
    PortsStayInjective(mode, transports, events);
    SoundInputsAreGood(mode, transports, d, PortsOf(Run(mode, transports, events), d), inv);
    ReconcileIsFresh(mode, transports, Run(mode, transports, events), d, inv);
  }
}
