/** The pipeline compiled from a validated configuration: exact forwarding, isolation and reply symmetry. */
module UnderlayTheorems {
  import opened Basics
  import opened Underlay
  import opened UnderlayMeaning
  import opened OpenFlow
  import opened UnderlayProgram
  import opened UnderlayPipeline

  function Attached(atts: seq<Attachment>, ports: map<PortName, nat>): (r: seq<Attachment>)
    ensures forall a :: a in r <==> a in atts && a.port in ports
  {
    if atts == [] then []
    else
      assert atts == atts[..|atts| - 1] + [atts[|atts| - 1]];
      Attached(atts[..|atts| - 1], ports) + (if atts[|atts| - 1].port in ports then [atts[|atts| - 1]] else [])
  }

  function InputsOver(cfg: Config, t: Transport, atts: seq<Attachment>, enforce: bool, ports: map<PortName,
                      nat>): Inputs {
    Inputs(enforce, GatewayMac(t.slot), ports, Attached(atts, ports), Fib(cfg, t.internet, atts))
  }

  /** What the controller compiles for a transport's switch. */
  function InputsFor(cfg: Config, t: Transport, authorized: set<Name>, enforce: bool, ports: map<PortName,
                     nat>): Inputs {
    InputsOver(cfg, t, Attachments(cfg, t, authorized), enforce, ports)
  }

  ghost predicate DistinctPortNames(atts: seq<Attachment>) {
    forall i, j :: 0 <= i < j < |atts| ==> atts[i].port != atts[j].port
  }

  ghost predicate Injective(ports: map<PortName, nat>) {
    forall m, n :: m in ports && n in ports && m != n ==> ports[m] != ports[n]
  }

  /** Interface suffixes are unique, so port names are; and a switch numbers its ports injectively. */
  ghost predicate GoodPorts(cfg: Config, t: Transport, ports: map<PortName, nat>) {
    DistinctPortNames(Attachments(cfg, t, {})) && Injective(ports)
  }

  ghost predicate GoodAttachments(cfg: Config, t: Transport, atts: seq<Attachment>, ports: map<PortName, nat>) {
    WellWired(atts, t.network) && HasGateway(cfg, t.internet, atts) && DistinctPortNames(atts) && Injective(ports)
  }

  lemma ValidatedIsGood(cfg: Config, t: Transport, authorized: set<Name>, ports: map<PortName, nat>)
    requires Validated(cfg, t) && GoodPorts(cfg, t, ports)
    ensures GoodAttachments(cfg, t, Attachments(cfg, t, authorized), ports)
  {
    ValidatedIsWellWired(cfg, t, authorized);
    AttachmentsHaveGateway(cfg, t, authorized);
    var a, b := Attachments(cfg, t, {}), Attachments(cfg, t, authorized);
    assert |a| == |b| && forall i :: 0 <= i < |a| ==> a[i].port == b[i].port;
  }

  ghost predicate DistinctSitesAndNames(atts: seq<Attachment>) {
    forall i, j :: 0 <= i < j < |atts| ==> Different(atts[i], atts[j])
  }

  predicate Different(a: Attachment, b: Attachment) { a.site != b.site && a.port != b.port }

  lemma {:induction false} AttachedDistinct(atts: seq<Attachment>, ports: map<PortName, nat>)
    requires DistinctSitesAndNames(atts)
    ensures DistinctSitesAndNames(Attached(atts, ports))
  {
    if atts != [] {
      var n := |atts| - 1;
      var init, last := atts[..n], atts[n];
      AttachedDistinct(init, ports);
      var rest, r := Attached(init, ports), Attached(atts, ports);
      forall i, j | 0 <= i < j < |r|
        ensures Different(r[i], r[j])
      {
        assert r[i] == rest[i] && rest[i] in rest;
        if j < |rest| {
          assert Different(rest[i], rest[j]);
        } else {
          var k :| 0 <= k < |init| && init[k] == rest[i];
          assert Different(atts[k], atts[n]);
        }
      }
    }
  }

  lemma PortsAreGood(cfg: Config, t: Transport, atts: seq<Attachment>, enforce: bool, ports: map<PortName, nat>)
    requires GoodAttachments(cfg, t, atts, ports)
    ensures DistinctPorts(InputsOver(cfg, t, atts, enforce, ports))
  {
    AttachedDistinct(atts, ports);
    var r := Attached(atts, ports);
    forall k | 0 <= k < |r|
      ensures r[k].port in ports
    {
      assert r[k] in r;
    }
    forall i, j | 0 <= i < j < |r|
      ensures r[i].site != r[j].site && ports[r[i].port] != ports[r[j].port]
    {
      assert Different(r[i], r[j]);
    }
  }

  lemma EgressAgrees(cfg: Config, t: Transport, atts: seq<Attachment>, q: Route, r: Route, d: Addr)
    requires WellWired(atts, t.network) && HasGateway(cfg, t.internet, atts)
    requires q in Fib(cfg, t.internet, atts) && r in Fib(cfg, t.internet, atts) && q.source == r.source
    requires q.destination.Contains(d) && r.destination.Contains(d)
    ensures q.egress == r.egress
  {
    var s, u := RouteEnds(cfg, t.internet, atts, t.network, q);
    var s', v := RouteEnds(cfg, t.internet, atts, t.network, r);
    SameSiteSameAttachment(atts, t.network, s, s');
    assert CarriesTo(cfg, t.internet, atts, s, u, d, q) && CarriesTo(cfg, t.internet, atts, s, v, d, r);
    FibMeaning(cfg, t.internet, atts, t.network, s, u, d);
    FibMeaning(cfg, t.internet, atts, t.network, s, v, d);
    DeliveryIsUnique(t.internet, atts, t.network, s, u, v, d);
  }

  /** Attachments of a validated configuration satisfy the pipeline theorem's conditions. */
  lemma InputsAreGood(cfg: Config, t: Transport, atts: seq<Attachment>, enforce: bool, ports: map<PortName, nat>)
    requires GoodAttachments(cfg, t, atts, ports)
    ensures var inp := InputsOver(cfg, t, atts, enforce, ports); DistinctPorts(inp) && RoutesAgree(inp)
  {
    var inp := InputsOver(cfg, t, atts, enforce, ports);
    PortsAreGood(cfg, t, atts, enforce, ports);
    forall r, s | r in inp.routes && s in inp.attached && s.site == r.source
      ensures s.authorized
    {
      var s', t' := RouteEnds(cfg, t.internet, atts, t.network, r);
      SameSiteSameAttachment(atts, t.network, s, s');
    }
    forall q, r, d | q in inp.routes && r in inp.routes && q.source == r.source && q.destination.Contains(d) &&
      r.destination.Contains(d)
      ensures q.egress == r.egress
    {
      EgressAgrees(cfg, t, atts, q, r, d);
    }
  }

  /** Both ends of a forwarding entry are authorized attachments. */
  lemma RouteEnds(cfg: Config, internet: bool, atts: seq<Attachment>, network: Net, r: Route)
    returns (s: Attachment, t: Attachment)
    requires WellWired(atts, network) && HasGateway(cfg, internet, atts) && r in Fib(cfg, internet, atts)
    ensures s in atts && s.authorized && s.site == r.source && t in atts && t.authorized && t.site == r.egress
  {
    var auth := Authorized(atts);
    RoutesOfMembers(cfg, internet, auth, auth, r);
    s :| s in auth && JustifiedBy(cfg, internet, s, auth, r);
    if IsBreakout(cfg, internet, s, r) {
      t :| t in atts && IsGateway(cfg, t);
    } else {
      t :| t in auth && IsRoute(cfg, internet, s, t, r);
    }
  }

  /** The packet enters at `s` with a valid source and is delivered to `t`, which has port `port` here. */
  ghost predicate Forwards(cfg: Config, t: Transport, inp: Inputs, p: Packet, s: Attachment, u: Attachment) {
    p.ethType == Ip && EntersAt(inp, p, s) && SourceValid(inp, p, s) &&
    u in inp.attached && u.authorized && u.port in inp.ports && Delivers(t.internet, s, u, p.dst)
  }

  lemma RoutedIsDelivered(cfg: Config, t: Transport, atts: seq<Attachment>, inp: Inputs, p: Packet, s: Attachment,
                          u: Attachment)
    requires GoodAttachments(cfg, t, atts, inp.ports) && inp == InputsOver(cfg, t, atts, inp.enforce, inp.ports) &&
             EntersAt(inp, p, s)
    ensures (exists q :: RoutedBy(inp, p, s, u, q)) <==>
            u in inp.attached && u.authorized && Delivers(t.internet, s, u, p.dst)
  {
    if q :| RoutedBy(inp, p, s, u, q) {
      var s', u' := RouteEnds(cfg, t.internet, atts, t.network, q);
      SameSiteSameAttachment(atts, t.network, u, u');
      assert CarriesTo(cfg, t.internet, atts, s, u, p.dst, q);
      FibMeaning(cfg, t.internet, atts, t.network, s, u, p.dst);
    }
    if u in inp.attached && u.authorized && Delivers(t.internet, s, u, p.dst) {
      FibMeaning(cfg, t.internet, atts, t.network, s, u, p.dst);
      var q :| CarriesTo(cfg, t.internet, atts, s, u, p.dst, q);
      assert RoutedBy(inp, p, s, u, q);
    }
  }

  /** In the configuration's own terms: the packet enters on the port of an admitted node, with that node's source
      address (and hardware address when enforced), and is destined to the address or network of another admitted node
      that may talk to it. */
  ghost predicate Passes(cfg: Config, t: Transport, authorized: set<Name>, enforce: bool, ports: map<PortName, nat>,
                         p: Packet, s: Attachment, u: Attachment) {
    && p.ethType == Ip && Endpoint(cfg, t, authorized, ports, s) && Endpoint(cfg, t, authorized, ports, u)
    && ports[s.port] == p.inPort && MaySendFrom(s, p.src) && (enforce ==> p.ethSrc == s.mac)
    && Delivers(t.internet, s, u, p.dst)
  }

  ghost predicate Endpoint(cfg: Config, t: Transport, authorized: set<Name>, ports: map<PortName, nat>, a: Attachment) {
    a.authorized && Placed(cfg, t, a) && Admitted(authorized, a) && a.port in ports
  }

  lemma PassesMeansForwards(cfg: Config, t: Transport, authorized: set<Name>, enforce: bool, ports: map<PortName, nat>,
                            p: Packet, s: Attachment, u: Attachment)
    ensures Passes(cfg, t, authorized, enforce, ports, p, s, u) <==>
            Forwards(cfg, t, InputsFor(cfg, t, authorized, enforce, ports), p, s, u)
  {
    AttachmentsMeaning(cfg, t, authorized, s);
    AttachmentsMeaning(cfg, t, authorized, u);
  }

  /** The compiled switch sends a packet out of a port exactly when it passes to the node on that port. */
  lemma SwitchForwardsExactly(cfg: Config, t: Transport, authorized: set<Name>, enforce: bool,
                              ports: map<PortName, nat>, p: Packet, port: nat, src: Mac, dst: Mac)
    requires Validated(cfg, t) && GoodPorts(cfg, t, ports)
    ensures MayEnd(Compiled(InputsFor(cfg, t, authorized, enforce, ports)), 0, p, Sent(port, src, dst)) <==>
            exists s, u ::
              Passes(cfg, t, authorized, enforce, ports, p, s, u) && port == ports[u.port] &&
              src == GatewayMac(t.slot) && dst == u.mac
  {
    var inp := InputsFor(cfg, t, authorized, enforce, ports);
    ValidatedIsGood(cfg, t, authorized, ports);
    ForwardsExactly(cfg, t, Attachments(cfg, t, authorized), inp, p, port, src, dst);
    forall s, u
      ensures Passes(cfg, t, authorized, enforce, ports, p, s, u) <==> Forwards(cfg, t, inp, p, s, u)
    {
      PassesMeansForwards(cfg, t, authorized, enforce, ports, p, s, u);
    }
  }

  lemma SamePlacePort(cfg: Config, t: Transport, authorized: set<Name>, a: Attachment, b: Attachment)
    requires Validated(cfg, t) && DistinctPortNames(Attachments(cfg, t, {}))
    requires Placed(cfg, t, a) && Placed(cfg, t, b) && a.port == b.port
    ensures a.site == b.site && a.role == b.role
  {
    var x, y := a.(authorized := Admitted({}, a)), b.(authorized := Admitted({}, b));
    AttachmentsMeaning(cfg, t, {}, x);
    AttachmentsMeaning(cfg, t, {}, y);
    var i :| 0 <= i < |Attachments(cfg, t, {})| && Attachments(cfg, t, {})[i] == x;
    var j :| 0 <= j < |Attachments(cfg, t, {})| && Attachments(cfg, t, {})[j] == y;
  }

  /** A hub or spoke outside the authorized set neither sends through the switch nor receives from it. */
  lemma UnauthorizedIsCutOff(cfg: Config, t: Transport, authorized: set<Name>, enforce: bool,
                             ports: map<PortName, nat>, p: Packet, a: Attachment, port: nat, src: Mac, dst: Mac)
    requires Validated(cfg, t) && GoodPorts(cfg, t, ports) && Placed(cfg, t, a) && a.port in ports
    requires a.role != InternetGateway && a.site !in authorized
    ensures p.inPort == ports[a.port] || port == ports[a.port] ==>
            !MayEnd(Compiled(InputsFor(cfg, t, authorized, enforce, ports)), 0, p, Sent(port, src, dst))
  {
    SwitchForwardsExactly(cfg, t, authorized, enforce, ports, p, port, src, dst);
    if s, u :| Passes(cfg, t, authorized, enforce, ports, p, s, u) && port == ports[u.port] {
      if p.inPort == ports[a.port] {
        SamePlacePort(cfg, t, authorized, a, s);
      }
      if port == ports[a.port] {
        SamePlacePort(cfg, t, authorized, a, u);
      }
    }
  }

  lemma ForwardsExactly(cfg: Config, t: Transport, atts: seq<Attachment>, inp: Inputs, p: Packet, port: nat, src: Mac,
                        dst: Mac)
    requires GoodAttachments(cfg, t, atts, inp.ports) && inp == InputsOver(cfg, t, atts, inp.enforce, inp.ports)
    ensures MayEnd(Compiled(inp), 0, p, Sent(port, src, dst)) <==>
            exists s, u ::
              Forwards(cfg, t, inp, p, s, u) && port == inp.ports[u.port] && src == GatewayMac(t.slot) && dst == u.mac
  {
    InputsAreGood(cfg, t, atts, inp.enforce, inp.ports);
    PipelineMeaning(inp, p, Sent(port, src, dst));
    if Meaning(inp, p, Sent(port, src, dst)) {
      var s, u := MeaningForwards(cfg, t, atts, inp, p, Sent(port, src, dst));
    }
    if s, u :| Forwards(cfg, t, inp, p, s, u) && port == inp.ports[u.port] && src == GatewayMac(t.slot) &&
               dst == u.mac {
      ForwardsMeans(cfg, t, atts, inp, p, s, u);
    }
  }

  lemma MeaningForwards(cfg: Config, t: Transport, atts: seq<Attachment>, inp: Inputs, p: Packet, r: Result)
    returns (s: Attachment, u: Attachment)
    requires GoodAttachments(cfg, t, atts, inp.ports) && inp == InputsOver(cfg, t, atts, inp.enforce, inp.ports)
    requires Meaning(inp, p, r) && r.Sent?
    ensures Forwards(cfg, t, inp, p, s, u) && r == Sent(inp.ports[u.port], GatewayMac(t.slot), u.mac)
  {
    var q;
    s, u, q := SentMeansRouted(inp, p, r);
    RoutedIsDelivered(cfg, t, atts, inp, p, s, u);
  }

  lemma SentMeansRouted(inp: Inputs, p: Packet, r: Result) returns (s: Attachment, u: Attachment, q: Route)
    requires Meaning(inp, p, r) && r.Sent?
    ensures p.ethType == Ip && EntersAt(inp, p, s) && SourceValid(inp, p, s) && RoutedBy(inp, p, s, u, q)
    ensures u.port in inp.ports && r == Sent(inp.ports[u.port], inp.gateway, u.mac)
  {
    s :| EntersAt(inp, p, s) && MeaningAt(inp, p, s, r);
    u, q :| RoutedBy(inp, p, s, u, q) && r == Sent(inp.ports[u.port], inp.gateway, u.mac);
  }

  lemma ForwardsMeans(cfg: Config, t: Transport, atts: seq<Attachment>, inp: Inputs, p: Packet, s: Attachment,
                      u: Attachment)
    requires GoodAttachments(cfg, t, atts, inp.ports) && inp == InputsOver(cfg, t, atts, inp.enforce, inp.ports)
    requires Forwards(cfg, t, inp, p, s, u)
    ensures Meaning(inp, p, Sent(inp.ports[u.port], GatewayMac(t.slot), u.mac))
  {
    RoutedIsDelivered(cfg, t, atts, inp, p, s, u);
    var q :| RoutedBy(inp, p, s, u, q);
    assert MeaningAt(inp, p, s, Sent(inp.ports[u.port], inp.gateway, u.mac));
  }

  function Reply(p: Packet, from: Attachment, port: nat): Packet {
    Packet(port, Ip, from.mac, p.dst, p.src)
  }

  /** No packet from one spoke's port leaves by another spoke's port. */
  lemma SpokePortsAreIsolated(cfg: Config, t: Transport, authorized: set<Name>, enforce: bool,
                              ports: map<PortName, nat>, p: Packet, a: Attachment, b: Attachment, src: Mac, dst: Mac)
    requires Validated(cfg, t) && GoodPorts(cfg, t, ports)
    requires var inp := InputsFor(cfg, t, authorized, enforce, ports);
             EntersAt(inp, p, a) && a.role == Spoke && b in inp.attached && b.role == Spoke
    ensures var inp := InputsFor(cfg, t, authorized, enforce, ports);
            b.port in ports && !MayEnd(Compiled(inp), 0, p, Sent(ports[b.port], src, dst))
  {
    var inp := InputsFor(cfg, t, authorized, enforce, ports);
    ValidatedIsGood(cfg, t, authorized, ports);
    InputsAreGood(cfg, t, Attachments(cfg, t, authorized), enforce, ports);
    SwitchForwardsExactly(cfg, t, authorized, enforce, ports, p, ports[b.port], src, dst);
    if s, u :| Passes(cfg, t, authorized, enforce, ports, p, s, u) && ports[b.port] == ports[u.port] {
      PassesMeansForwards(cfg, t, authorized, enforce, ports, p, s, u);
      SamePortSameAttachment(inp, s, a);
      SamePortSameAttachment(inp, u, b);
      SpokesAreIsolated(t.internet, a, b, p.dst);
      assert false;
    }
  }

  /** The reply to a forwarded packet is forwarded back to the original port, unless the packet carried a spoke's
      LAN address to a hub: then the reply is not forwarded anywhere. */
  lemma RepliesAreForwardedBack(cfg: Config, t: Transport, authorized: set<Name>, enforce: bool,
                                ports: map<PortName, nat>, p: Packet, s: Attachment, u: Attachment)
    requires Validated(cfg, t) && GoodPorts(cfg, t, ports)
    requires Passes(cfg, t, authorized, enforce, ports, p, s, u)
    ensures var flows := Compiled(InputsFor(cfg, t, authorized, enforce, ports));
            var back := Reply(p, u, ports[u.port]);
            var lanToHub := s.role == Spoke && u.role == Hub && p.src != s.address;
            && (!lanToHub ==> MayEnd(flows, 0, back, Sent(p.inPort, GatewayMac(t.slot), s.mac)))
            && (lanToHub ==> forall port, src, dst :: !MayEnd(flows, 0, back, Sent(port, src, dst)))
  {
    var inp := InputsFor(cfg, t, authorized, enforce, ports);
    var atts := Attachments(cfg, t, authorized);
    var back := Reply(p, u, ports[u.port]);
    PassesMeansForwards(cfg, t, authorized, enforce, ports, p, s, u);
    ValidatedIsGood(cfg, t, authorized, ports);
    InputsAreGood(cfg, t, atts, enforce, ports);
    RepliesComeBack(cfg, t.internet, atts, t.network, s, u, p.src, p.dst);
    if s.role == Spoke && u.role == Hub && p.src != s.address {
      forall port, src, dst
        ensures !MayEnd(Compiled(inp), 0, back, Sent(port, src, dst))
      {
        SwitchForwardsExactly(cfg, t, authorized, enforce, ports, back, port, src, dst);
        if u', v :| Passes(cfg, t, authorized, enforce, ports, back, u', v) {
          PassesMeansForwards(cfg, t, authorized, enforce, ports, back, u', v);
          SamePortSameAttachment(inp, u', u);
          LanIsUnreachableFromHub(cfg, t.internet, atts, t.network, s, u, v, p.src);
          assert false;
        }
      }
    } else {
      SwitchForwardsExactly(cfg, t, authorized, enforce, ports, back, p.inPort, GatewayMac(t.slot), s.mac);
      assert Passes(cfg, t, authorized, enforce, ports, back, u, s);
    }
  }

  lemma LanIsUnreachableFromHub(cfg: Config, internet: bool, atts: seq<Attachment>, network: Net, s: Attachment,
                                hub: Attachment, v: Attachment, a: Addr)
    requires WellWired(atts, network) && HasGateway(cfg, internet, atts) && s in atts && hub in atts && v in atts
    requires s.role == Spoke && hub.role == Hub && s.extra.Some? && s.extra.value.Contains(a)
    ensures !Delivers(internet, hub, v, a)
  {
    OutsideExtra(atts, network, v, s);
    FactsOf(atts, network, cfg, internet, v);
    if v.site == s.site {
      SameSiteSameAttachment(atts, network, v, s);
    }
  }
}
