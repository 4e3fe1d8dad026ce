/** What the compiled forwarding entries mean: who can send where, uniquely and symmetrically. */
module UnderlayMeaning {
  import opened Basics
  import opened Underlay

  /** Who may talk to whom, in either direction: any two but two spokes or the gateway and itself, and anyone with the
      gateway only over an Internet transport. */
  predicate MayTalk(internet: bool, a: Role, b: Role) {
    !(a == Spoke && b == Spoke) && !(a == InternetGateway && b == InternetGateway) &&
    (a == InternetGateway || b == InternetGateway ==> internet)
  }

  lemma AllowedMeaning(internet: bool, source: Role, target: Role)
    ensures Allowed(internet, source, target) <==> MayTalk(internet, source, target)
  {
  }

  /** From `s`, address `d` is reached at `t`: the peer's own address, a spoke's LAN on the way back from the
      Internet gateway, or the public network behind that gateway. */
  predicate Delivers(internet: bool, s: Attachment, t: Attachment, d: Addr) {
    s.site != t.site && MayTalk(internet, s.role, t.role) &&
    (d == t.address ||
     (internet && t.extra.Some? && t.extra.value.Contains(d) &&
       (t.role == InternetGateway || (t.role == Spoke && s.role == InternetGateway))))
  }

  ghost predicate IsRoute(cfg: Config, internet: bool, s: Attachment, t: Attachment, r: Route) {
    r.source == s.site && r.egress == t.site && s.site != t.site && MayTalk(internet, s.role, t.role) &&
    (r.destination == Host(t.address) ||
     (internet && s.role == InternetGateway && t.role == Spoke && t.extra == Some(r.destination)))
  }

  ghost predicate IsBreakout(cfg: Config, internet: bool, s: Attachment, r: Route) {
    internet && s.role != InternetGateway && r == Route(s.site, cfg.saas, cfg.gateway)
  }

  lemma {:induction false} RoutesToAllMembers(cfg: Config, internet: bool, s: Attachment, targets: seq<Attachment>,
                                              r: Route)
    ensures r in RoutesToAll(internet, s, targets) <==> exists t :: t in targets && IsRoute(cfg, internet, s, t, r)
  {
    if targets != [] {
      var init, last := targets[..|targets| - 1], targets[|targets| - 1];
      assert targets == init + [last];
      RoutesToAllMembers(cfg, internet, s, init, r);
      AllowedMeaning(internet, s.role, last.role);
      assert r in RoutesTo(internet, s, last) <==> IsRoute(cfg, internet, s, last, r);
      if r in RoutesToAll(internet, s, targets) && r !in RoutesTo(internet, s, last) {
        var t :| t in init && IsRoute(cfg, internet, s, t, r);
        assert t in targets;
      }
    }
  }

  ghost predicate Justified(cfg: Config, internet: bool, sources: seq<Attachment>, targets: seq<Attachment>, r: Route) {
    exists s :: s in sources && JustifiedBy(cfg, internet, s, targets, r)
  }

  ghost predicate JustifiedBy(cfg: Config, internet: bool, s: Attachment, targets: seq<Attachment>, r: Route) {
    IsBreakout(cfg, internet, s, r) || exists t :: t in targets && IsRoute(cfg, internet, s, t, r)
  }

  lemma {:induction false} RoutesOfMembers(cfg: Config, internet: bool, sources: seq<Attachment>,
                                           targets: seq<Attachment>, r: Route)
    ensures r in RoutesOf(cfg, internet, sources, targets) <==> Justified(cfg, internet, sources, targets, r)
  {
    if sources != [] {
      var init, last := sources[..|sources| - 1], sources[|sources| - 1];
      assert sources == init + [last];
      RoutesOfMembers(cfg, internet, init, targets, r);
      RoutesToAllMembers(cfg, internet, last, targets, r);
      assert r in Breakout(cfg, internet, last) <==> IsBreakout(cfg, internet, last, r);
      assert r in RoutesOf(cfg, internet, sources, targets) <==>
             r in RoutesOf(cfg, internet, init, targets) || r in RoutesToAll(internet, last, targets) ||
               r in Breakout(cfg, internet, last);
      assert JustifiedBy(cfg, internet, last, targets, r) ==> last in sources;
      if Justified(cfg, internet, init, targets, r) {
        var s :| s in init && JustifiedBy(cfg, internet, s, targets, r);
        assert s in sources;
      }
    }
  }

  // ----- attachments, by the node they come from

  predicate IsNodeAt(t: Transport, a: Attachment, n: Node) {
    a.site == n.name && a.port == PortName(t.switch, n.suffix) && a.address == t.network.base + n.addressId &&
    a.mac == EndpointMac(t.slot, n.addressId % 0x1_0000)
  }

  /** The attachment of a configured hub, of a spoke with its LAN, or of the gateway with the public network. */
  ghost predicate Placed(cfg: Config, t: Transport, a: Attachment) {
    match a.role
    case Hub => a.extra.None? && exists n :: n in cfg.hubs && IsNodeAt(t, a, n)
    case Spoke => exists b :: b in cfg.branches && IsNodeAt(t, a, b.node) && a.extra == Some(b.lan)
    case InternetGateway =>
      t.internet && a.site == cfg.gateway && a.port == PortName(t.switch, cfg.gatewaySuffix) &&
      a.address == t.gatewayAddress && a.mac == EndpointMac(t.slot, t.gatewayAddress % 0x1_0000) &&
      a.extra == Some(cfg.saas)
  }

  /** The gateway needs no authorization. */
  predicate Admitted(authorized: set<Name>, a: Attachment) { a.role == InternetGateway || a.site in authorized }

  /** The attachments are exactly those of the configured nodes, authorized exactly if they are admitted. */
  lemma AttachmentsMeaning(cfg: Config, t: Transport, authorized: set<Name>, a: Attachment)
    ensures a in Attachments(cfg, t, authorized) <==> Placed(cfg, t, a) && (a.authorized <==> Admitted(authorized, a))
  {
    var hubs, spokes := HubAttachments(t, authorized, cfg.hubs), SpokeAttachments(t, authorized, cfg.branches);
    if Placed(cfg, t, a) && (a.authorized <==> Admitted(authorized, a)) {
      if a.role == Hub {
        var i :| 0 <= i < |cfg.hubs| && IsNodeAt(t, a, cfg.hubs[i]);
        assert a == hubs[i];
      } else if a.role == Spoke {
        var i :| 0 <= i < |cfg.branches| && IsNodeAt(t, a, cfg.branches[i].node) &&
          a.extra == Some(cfg.branches[i].lan);
        assert a == spokes[i];
      }
    }
    if i :| 0 <= i < |hubs| && a == hubs[i] {
      assert IsNodeAt(t, a, cfg.hubs[i]);
    }
    if i :| 0 <= i < |spokes| && a == spokes[i] {
      assert IsNodeAt(t, a, cfg.branches[i].node);
    }
  }

  /** The only attachment in the gateway role is the configured gateway, present on every Internet transport;
      and spokes and the gateway are the ones with a network behind them. */
  ghost predicate HasGateway(cfg: Config, internet: bool, atts: seq<Attachment>) {
    (internet ==> exists g :: g in atts && IsGateway(cfg, g)) &&
    forall k :: 0 <= k < |atts| ==>
                  (atts[k].role == InternetGateway ==> IsGateway(cfg, atts[k])) &&
                    (atts[k].role == Hub <==> atts[k].extra.None?)
  }

  predicate IsGateway(cfg: Config, g: Attachment) {
    g.site == cfg.gateway && g.role == InternetGateway && g.authorized && g.extra == Some(cfg.saas)
  }

  lemma AttachmentsHaveGateway(cfg: Config, t: Transport, authorized: set<Name>)
    ensures HasGateway(cfg, t.internet, Attachments(cfg, t, authorized))
  {
    var atts := Attachments(cfg, t, authorized);
    if t.internet {
      assert atts[|atts| - 1] == GatewayAttachment(cfg, t);
      assert IsGateway(cfg, GatewayAttachment(cfg, t));
    }
  }

  lemma SameSiteSameAttachment(atts: seq<Attachment>, network: Net, a: Attachment, b: Attachment)
    requires WellWired(atts, network) && a in atts && b in atts && a.site == b.site
    ensures a == b
  {
    var i :| 0 <= i < |atts| && atts[i] == a;
    var j :| 0 <= j < |atts| && atts[j] == b;
  }

  ghost predicate CarriesTo(cfg: Config, internet: bool, atts: seq<Attachment>, s: Attachment, t: Attachment, d: Addr,
                            r: Route) {
    r in Fib(cfg, internet, atts) && r.source == s.site && r.egress == t.site && r.destination.Contains(d)
  }

  /** Who an entry from `s` to `t` can come from. */
  lemma EntryOrigin(cfg: Config, internet: bool, atts: seq<Attachment>, network: Net, s: Attachment, t: Attachment,
                    r: Route)
    requires WellWired(atts, network) && HasGateway(cfg, internet, atts) && s in atts && t in atts
    requires r in Fib(cfg, internet, atts) && r.source == s.site && r.egress == t.site
    ensures IsBreakout(cfg, internet, s, r) || IsRoute(cfg, internet, s, t, r)
  {
    var auth := Authorized(atts);
    RoutesOfMembers(cfg, internet, auth, auth, r);
    var s' :| s' in auth && JustifiedBy(cfg, internet, s', auth, r);
    SameSiteSameAttachment(atts, network, s, s');
    if !IsBreakout(cfg, internet, s, r) {
      var t' :| t' in auth && IsRoute(cfg, internet, s, t', r);
      SameSiteSameAttachment(atts, network, t, t');
    }
  }

  lemma EntryDelivers(cfg: Config, internet: bool, atts: seq<Attachment>, network: Net, s: Attachment, t: Attachment,
                      d: Addr, r: Route)
    requires WellWired(atts, network) && HasGateway(cfg, internet, atts) && s in atts && t in atts
    requires CarriesTo(cfg, internet, atts, s, t, d, r)
    ensures Delivers(internet, s, t, d)
  {
    EntryOrigin(cfg, internet, atts, network, s, t, r);
    if IsBreakout(cfg, internet, s, r) {
      var g :| g in atts && IsGateway(cfg, g);
      SameSiteSameAttachment(atts, network, t, g);
    }
  }

  lemma DeliveryHasEntry(cfg: Config, internet: bool, atts: seq<Attachment>, network: Net, s: Attachment,
                         t: Attachment, d: Addr)
    returns (r: Route)
    requires WellWired(atts, network) && HasGateway(cfg, internet, atts)
    requires s in atts && t in atts && s.authorized && t.authorized && Delivers(internet, s, t, d)
    ensures CarriesTo(cfg, internet, atts, s, t, d, r)
  {
    var auth := Authorized(atts);
    r := if d == t.address then Route(s.site, Host(t.address), t.site) else Route(s.site, t.extra.value, t.site);
    RoutesOfMembers(cfg, internet, auth, auth, r);
    if d != t.address && t.role == InternetGateway {
      assert IsGateway(cfg, t);
      assert IsBreakout(cfg, internet, s, r);
    } else {
      assert IsRoute(cfg, internet, s, t, r);
    }
    assert JustifiedBy(cfg, internet, s, auth, r);
  }

  /** The FIB has an entry from `s` to `t` covering `d` exactly when `d` is delivered to `t`. */
  lemma FibMeaning(cfg: Config, internet: bool, atts: seq<Attachment>, network: Net, s: Attachment, t: Attachment,
                   d: Addr)
    requires WellWired(atts, network) && HasGateway(cfg, internet, atts)
    requires s in atts && t in atts && s.authorized && t.authorized
    ensures (exists r :: CarriesTo(cfg, internet, atts, s, t, d, r)) <==> Delivers(internet, s, t, d)
  {
    if r :| CarriesTo(cfg, internet, atts, s, t, d, r) {
      EntryDelivers(cfg, internet, atts, network, s, t, d, r);
    }
    if Delivers(internet, s, t, d) {
      var r := DeliveryHasEntry(cfg, internet, atts, network, s, t, d);
    }
  }

  /** Of two authorized sites, one has a route to the other's underlay address exactly unless both are spokes, or one is
      the gateway and the transport is private. */
  lemma AddressIsRouted(cfg: Config, internet: bool, atts: seq<Attachment>, network: Net, s: Attachment,
                        t: Attachment)
    requires WellWired(atts, network) && HasGateway(cfg, internet, atts) && s.site != t.site
    requires s in atts && t in atts && s.authorized && t.authorized
    ensures (exists r :: CarriesTo(cfg, internet, atts, s, t, t.address, r)) <==>
            !(s.role == Spoke && t.role == Spoke) &&
            !((s.role == InternetGateway || t.role == InternetGateway) && !internet)
  {
    FibMeaning(cfg, internet, atts, network, s, t, t.address);
    FactsOf(atts, network, cfg, internet, s);
    FactsOf(atts, network, cfg, internet, t);
  }

  lemma FactsOf(atts: seq<Attachment>, network: Net, cfg: Config, internet: bool, a: Attachment)
    requires WellWired(atts, network) && HasGateway(cfg, internet, atts) && a in atts
    ensures InTransport(a, network) && (a.role == InternetGateway ==> IsGateway(cfg, a)) &&
            (a.role == Hub <==> a.extra.None?)
  {
    var k :| 0 <= k < |atts| && atts[k] == a;
  }

  lemma NoCommonAddress(x: Net, y: Net, a: Addr)
    requires !x.Overlaps(y)
    ensures !(x.Contains(a) && y.Contains(a))
  {
  }

  lemma OutsideExtra(atts: seq<Attachment>, network: Net, a: Attachment, b: Attachment)
    requires WellWired(atts, network) && a in atts && b in atts && b.extra.Some?
    ensures !b.extra.value.Contains(a.address)
    ensures a.site != b.site ==> a.address != b.address
    ensures a.site != b.site && a.extra.Some? ==> forall d :: !(a.extra.value.Contains(d) && b.extra.value.Contains(d))
  {
    var i :| 0 <= i < |atts| && atts[i] == a;
    var j :| 0 <= j < |atts| && atts[j] == b;
    assert InTransport(atts[i], network) && InTransport(atts[j], network);
    NoCommonAddress(network, b.extra.value, a.address);
    if a.site != b.site {
      assert if i < j then SeparateExtras(atts[i], atts[j]) else SeparateExtras(atts[j], atts[i]);
    }
  }

  lemma DistinctAddresses(atts: seq<Attachment>, network: Net, a: Attachment, b: Attachment)
    requires WellWired(atts, network) && a in atts && b in atts && a.address == b.address
    ensures a == b
  {
    var i :| 0 <= i < |atts| && atts[i] == a;
    var j :| 0 <= j < |atts| && atts[j] == b;
  }

  /** From one attachment, an address is delivered to at most one other. */
  lemma DeliveryIsUnique(internet: bool, atts: seq<Attachment>, network: Net, s: Attachment, t: Attachment,
                         u: Attachment, d: Addr)
    requires WellWired(atts, network) && s in atts && t in atts && u in atts
    requires Delivers(internet, s, t, d) && Delivers(internet, s, u, d)
    ensures t == u
  {
    if t.site == u.site {
      SameSiteSameAttachment(atts, network, t, u);
    } else {
      if t.extra.Some? {
        OutsideExtra(atts, network, u, t);
      }
      if u.extra.Some? {
        OutsideExtra(atts, network, t, u);
      }
      if d == t.address == u.address {
        DistinctAddresses(atts, network, t, u);
      }
    }
  }

  /** The addresses an attachment may send from. */
  predicate MaySendFrom(a: Attachment, src: Addr) {
    src == a.address || (a.extra.Some? && a.extra.value.Contains(src))
  }

  /** Spokes never reach each other through the underlay. */
  lemma SpokesAreIsolated(internet: bool, s: Attachment, t: Attachment, d: Addr)
    requires s.role == Spoke && t.role == Spoke
    ensures !Delivers(internet, s, t, d)
  {
  }

  /** A delivered packet has a legitimate source at the far end, and its reply is delivered back, except for a
      spoke's LAN traffic to a hub, which is never answered over the underlay. */
  lemma RepliesComeBack(cfg: Config, internet: bool, atts: seq<Attachment>, network: Net, s: Attachment, t: Attachment,
                        src: Addr, d: Addr)
    requires WellWired(atts, network) && HasGateway(cfg, internet, atts) && s in atts && t in atts
    requires Delivers(internet, s, t, d) && MaySendFrom(s, src)
    ensures MaySendFrom(t, d)
    ensures Delivers(internet, t, s, src) <==> !(s.role == Spoke && t.role == Hub && src != s.address)
  {
    FactsOf(atts, network, cfg, internet, s);
    FactsOf(atts, network, cfg, internet, t);
  }
}
