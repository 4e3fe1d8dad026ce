/** The provider underlay: attachments of one transport and the forwarding entries between them. */
module Underlay {
  import opened Basics

  /** An IPv4 address as its number. */
  type Addr = nat

  /** An IPv4 network as the interval of its addresses; matching on the netmask is membership in it. */
  datatype Net = Net(base: Addr, size: nat)
  {
    predicate Contains(a: Addr) { base <= a < base + size }

    /** The overlap test on first and last addresses. */
    predicate Overlaps(other: Net) {
      size > 0 && other.size > 0 &&
      (Contains(other.base) || Contains(other.base + other.size - 1) || other.Contains(base) ||
        other.Contains(base + size - 1))
    }
  }

  function Host(a: Addr): Net { Net(a, 1) }

  /** A hardware address derived from the transport slot and the endpoint's number, or a provider gateway's. */
  datatype Mac = EndpointMac(slot: nat, identity: nat) | GatewayMac(slot: nat)

  datatype Role = Hub | Spoke | InternetGateway

  datatype PortName = PortName(switch: Name, suffix: Name)

  /** `extra` is what may be routed from the attachment besides its own address: a spoke's LAN, the gateway's public
      network. */
  datatype Attachment = Attachment(
    site: Name, port: PortName, address: Addr, mac: Mac, role: Role, authorized: bool, extra: Option<Net>)

  datatype Route = Route(source: Name, destination: Net, egress: Name)

  // ----- configuration

  datatype Node = Node(name: Name, suffix: Name, addressId: nat)

  datatype Branch = Branch(node: Node, lan: Net)

  datatype Transport = Transport(switch: Name, slot: nat, network: Net, internet: bool, gatewayAddress: Addr)

  datatype Config = Config(hubs: seq<Node>, branches: seq<Branch>, gateway: Name, gatewaySuffix: Name, saas: Net)

  function HubAttachment(t: Transport, authorized: set<Name>, n: Node): Attachment {
    Attachment(n.name, PortName(t.switch, n.suffix), t.network.base + n.addressId,
               EndpointMac(t.slot, n.addressId % 0x1_0000), Hub, n.name in authorized, None)
  }

  function SpokeAttachment(t: Transport, authorized: set<Name>, b: Branch): Attachment {
    HubAttachment(t, authorized, b.node).(role := Spoke, extra := Some(b.lan))
  }

  function GatewayAttachment(cfg: Config, t: Transport): Attachment {
    Attachment(cfg.gateway, PortName(t.switch, cfg.gatewaySuffix), t.gatewayAddress,
               EndpointMac(t.slot, t.gatewayAddress % 0x1_0000), InternetGateway, true, Some(cfg.saas))
  }

  function HubAttachments(t: Transport, authorized: set<Name>, hubs: seq<Node>): seq<Attachment> {
    seq(|hubs|, i requires 0 <= i < |hubs| => HubAttachment(t, authorized, hubs[i]))
  }

  function SpokeAttachments(t: Transport, authorized: set<Name>, branches: seq<Branch>): seq<Attachment> {
    seq(|branches|, i requires 0 <= i < |branches| => SpokeAttachment(t, authorized, branches[i]))
  }

  function Attachments(cfg: Config, t: Transport, authorized: set<Name>): seq<Attachment> {
    HubAttachments(t, authorized, cfg.hubs) + SpokeAttachments(t, authorized, cfg.branches)
    + (if t.internet then [GatewayAttachment(cfg, t)] else [])
  }

  method BuildAttachments(cfg: Config, t: Transport, authorized: set<Name>) returns (result: seq<Attachment>)
    ensures result == Attachments(cfg, t, authorized)
  {
    result := [];
    for i := 0 to |cfg.hubs|
      invariant result == HubAttachments(t, authorized, cfg.hubs)[..i]
    {
      result := result + [HubAttachment(t, authorized, cfg.hubs[i])];
    }
    var hubs := result;
    for i := 0 to |cfg.branches|
      invariant result == hubs + SpokeAttachments(t, authorized, cfg.branches)[..i]
    {
      result := result + [SpokeAttachment(t, authorized, cfg.branches[i])];
    }
    if t.internet {
      result := result + [GatewayAttachment(cfg, t)];
    }
  }

  /** What the configuration check guarantees for one transport: distinct names, distinct underlay addresses inside
      the transport network, and pairwise non-overlapping LAN, public and transport networks. */
  ghost predicate Validated(cfg: Config, t: Transport) {
    var all := Attachments(cfg, t, {});
    (forall i, j :: 0 <= i < j < |all| ==>
                      all[i].site != all[j].site && all[i].address != all[j].address &&
                        SeparateExtras(all[i], all[j])) &&
    forall i :: 0 <= i < |all| ==> InTransport(all[i], t.network)
  }

  ghost predicate SeparateExtras(a: Attachment, b: Attachment) {
    a.extra.Some? && b.extra.Some? ==> !a.extra.value.Overlaps(b.extra.value)
  }

  ghost predicate InTransport(a: Attachment, network: Net) {
    network.Contains(a.address) && (a.extra.Some? ==> a.extra.value.size > 0 && !network.Overlaps(a.extra.value))
  }

  /** The same facts for a list of attachments, whatever their authorization. */
  ghost predicate WellWired(atts: seq<Attachment>, network: Net) {
    (forall i, j :: 0 <= i < j < |atts| ==>
                      atts[i].site != atts[j].site && atts[i].address != atts[j].address &&
                        SeparateExtras(atts[i], atts[j])) &&
    forall i :: 0 <= i < |atts| ==> InTransport(atts[i], network)
  }

  lemma ValidatedIsWellWired(cfg: Config, t: Transport, authorized: set<Name>)
    requires Validated(cfg, t)
    ensures WellWired(Attachments(cfg, t, authorized), t.network)
  {
    var all, atts := Attachments(cfg, t, {}), Attachments(cfg, t, authorized);
    assert |all| == |atts|;
    forall i | 0 <= i < |all|
      ensures atts[i].site == all[i].site && atts[i].address == all[i].address && atts[i].extra == all[i].extra
    {
    }
  }

  // ----- forwarding entries

  predicate Allowed(internet: bool, source: Role, target: Role) {
    match source
    case Spoke => target == Hub || (internet && target == InternetGateway)
    case Hub => target == Spoke || target == Hub || (internet && target == InternetGateway)
    case InternetGateway => internet && target != InternetGateway
  }

  function RoutesTo(internet: bool, source: Attachment, target: Attachment): seq<Route> {
    if source.site == target.site || !Allowed(internet, source.role, target.role) then []
    else
      [Route(source.site, Host(target.address), target.site)]
      + (if internet && source.role == InternetGateway && target.role == Spoke && target.extra.Some?
         then [Route(source.site, target.extra.value, target.site)] else [])
  }

  function RoutesToAll(internet: bool, source: Attachment, targets: seq<Attachment>): seq<Route> {
    if targets == [] then []
    else RoutesToAll(internet, source, targets[..|targets| - 1]) + RoutesTo(internet, source, targets[|targets| - 1])
  }

  function Breakout(cfg: Config, internet: bool, source: Attachment): seq<Route> {
    if internet && source.role != InternetGateway then [Route(source.site, cfg.saas, cfg.gateway)] else []
  }

  function RoutesOf(cfg: Config, internet: bool, sources: seq<Attachment>, targets: seq<Attachment>): seq<Route> {
    if sources == [] then []
    else
      var source := sources[|sources| - 1];
      RoutesOf(cfg, internet, sources[..|sources| - 1], targets) + RoutesToAll(internet, source,
        targets) + Breakout(cfg, internet, source)
  }

  function Authorized(atts: seq<Attachment>): (r: seq<Attachment>)
    ensures forall a :: a in r <==> a in atts && a.authorized
  {
    if atts == [] then []
    else
      assert atts == atts[..|atts| - 1] + [atts[|atts| - 1]];
      Authorized(atts[..|atts| - 1]) + (if atts[|atts| - 1].authorized then [atts[|atts| - 1]] else [])
  }

  function Fib(cfg: Config, internet: bool, atts: seq<Attachment>): seq<Route> {
    RoutesOf(cfg, internet, Authorized(atts), Authorized(atts))
  }

  lemma RoutesOfOneMore(cfg: Config, internet: bool, atts: seq<Attachment>, i: nat)
    requires i < |atts|
    ensures RoutesOf(cfg, internet, atts[..i + 1], atts) ==
            RoutesOf(cfg, internet, atts[..i], atts) + RoutesToAll(internet, atts[i], atts) + Breakout(cfg, internet,
              atts[i])
  {
    assert atts[..i + 1][..i] == atts[..i];
  }

  lemma RoutesToAllOneMore(internet: bool, source: Attachment, targets: seq<Attachment>, j: nat)
    requires j < |targets|
    ensures RoutesToAll(internet, source, targets[..j + 1]) ==
            RoutesToAll(internet, source, targets[..j]) + RoutesTo(internet, source, targets[j])
  {
    assert targets[..j + 1][..j] == targets[..j];
  }

  method BuildFibFrom(internet: bool, source: Attachment, targets: seq<Attachment>) returns (routes: seq<Route>)
    ensures routes == RoutesToAll(internet, source, targets)
  {
    routes := [];
    for j := 0 to |targets|
      invariant routes == RoutesToAll(internet, source, targets[..j])
    {
      RoutesToAllOneMore(internet, source, targets, j);
      ghost var before := routes;
      var target := targets[j];
      if source.site != target.site && Allowed(internet, source.role, target.role) {
        routes := routes + [Route(source.site, Host(target.address), target.site)];
        if internet && source.role == InternetGateway && target.role == Spoke && target.extra.Some? {
          routes := routes + [Route(source.site, target.extra.value, target.site)];
        }
      }
      assert routes == before + RoutesTo(internet, source, target);
    }
    assert targets[..|targets|] == targets;
  }

  method BuildFib(cfg: Config, t: Transport, authorized: set<Name>) returns (routes: seq<Route>)
    ensures routes == Fib(cfg, t.internet, Attachments(cfg, t, authorized))
  {
    var all := BuildAttachments(cfg, t, authorized);
    var atts := Authorized(all);
    routes := [];
    for i := 0 to |atts|
      invariant routes == RoutesOf(cfg, t.internet, atts[..i], atts)
    {
      RoutesOfOneMore(cfg, t.internet, atts, i);
      var more := BuildFibFrom(t.internet, atts[i], atts);
      var breakout := [];
      if t.internet && atts[i].role != InternetGateway {
        breakout := [Route(atts[i].site, cfg.saas, cfg.gateway)];
      }
      routes := routes + more + breakout;
    }
    assert atts[..|atts|] == atts;
  }
}
