/** Flow tables with highest-priority-match semantics (section 5.3 of the OpenFlow Switch Specification 1.3). */
module OpenFlow {
  import opened Basics
  import opened Underlay

  datatype EthType = Arp | Ip | OtherType

  datatype Packet = Packet(inPort: nat, ethType: EthType, ethSrc: Mac, src: Addr, dst: Addr)

  datatype Match = Match(inPort: Option<nat>, ethType: Option<EthType>, ethSrc: Option<Mac>, ipSrc: Option<Net>,
                         ipDst: Option<Net>)
  {
    predicate Matches(p: Packet) {
      (inPort.Some? ==> inPort.value == p.inPort) && (ethType.Some? ==> ethType.value == p.ethType) &&
      (ethSrc.Some? ==> ethSrc.value == p.ethSrc) && (ipSrc.Some? ==> ipSrc.value.Contains(p.src)) &&
      (ipDst.Some? ==> ipDst.value.Contains(p.dst))
    }
  }

  datatype Action = GotoTable(table: nat) | ToController | Forward(ethSrc: Mac, ethDst: Mac, port: nat)

  datatype FlowKey = FlowKey(table: nat, priority: nat, pattern: Match)

  /** Entries are identified by table, priority and match: adding the same one again replaces its action. */
  type Flows = map<FlowKey, Action>

  datatype FlowMod = FlowMod(key: FlowKey, action: Action)

  function Install(flows: Flows, mods: seq<FlowMod>): Flows {
    if mods == [] then flows
    else
      var last := mods[|mods| - 1];
      Install(flows, mods[..|mods| - 1])[last.key := last.action]
  }

  lemma {:induction false} InstallAppend(flows: Flows, a: seq<FlowMod>, b: seq<FlowMod>)
    ensures Install(flows, a + b) == Install(Install(flows, a), b)
  {
    if b == [] {
      assert a + b == a;
    } else {
      var n := |b| - 1;
      assert (a + b)[..|a + b| - 1] == a + b[..n];
      InstallAppend(flows, a, b[..n]);
    }
  }

  /** Whatever the order of the messages, an installed entry comes from one of them, and each leaves its key
      installed. */
  lemma {:induction false} InstallMeaning(mods: seq<FlowMod>)
    ensures forall k :: k in Install(map[], mods) ==> FlowMod(k, Install(map[], mods)[k]) in mods
    ensures forall m :: m in mods ==> m.key in Install(map[], mods)
  {
    if mods != [] {
      var init, last := mods[..|mods| - 1], mods[|mods| - 1];
      assert mods == init + [last];
      InstallMeaning(init);
    }
  }

  /** Entry `k` may be the one table `table` applies to packet `p`: it matches, and nothing matching outranks it. */
  ghost predicate Selected(flows: Flows, table: nat, p: Packet, k: FlowKey) {
    k in flows && k.table == table && k.pattern.Matches(p) &&
    forall o :: o in flows && o.table == table && o.pattern.Matches(p) ==> o.priority <= k.priority
  }

  datatype Result = Dropped | Controller(table: nat) | Sent(port: nat, ethSrc: Mac, ethDst: Mac)

  /** Some choice among equally ranked entries takes packet `p` from `table` to result `r`. */
  ghost predicate MayEnd(flows: Flows, table: nat, p: Packet, r: Result)
    decreases 100 - table
  {
    (r == Dropped && forall k :: k in flows && k.table == table ==> !k.pattern.Matches(p)) ||
    exists k :: Selected(flows, table, p, k) && MayEndBy(flows, table, p, r, flows[k])
  }

  ghost predicate MayEndBy(flows: Flows, table: nat, p: Packet, r: Result, action: Action)
    decreases 100 - table, 0
  {
    match action
    case ToController => r == Controller(table)
    case Forward(s, d, port) => r == Sent(port, s, d)
    case GotoTable(next) => table < next <= 100 && MayEnd(flows, next, p, r)
  }

  /** If every entry a table may select takes the same action, that action decides. */
  lemma SingleAction(flows: Flows, table: nat, p: Packet, r: Result, k: FlowKey, action: Action)
    requires Selected(flows, table, p, k)
    requires forall o :: Selected(flows, table, p, o) ==> flows[o] == action
    ensures MayEnd(flows, table, p, r) <==> MayEndBy(flows, table, p, r, action)
  {
  }
}
