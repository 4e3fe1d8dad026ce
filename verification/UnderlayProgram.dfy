/** The four-table pipeline a provider switch is programmed with, and its meaning. */
module UnderlayProgram {
  import opened Basics
  import opened Underlay
  import opened OpenFlow

  /** What one switch is programmed from: validation mode, provider gateway address, ports by name, the attachments
      that have a port here, and the forwarding entries. */
  datatype Inputs = Inputs(enforce: bool, gateway: Mac, ports: map<PortName, nat>, attached: seq<Attachment>,
                           routes: seq<Route>)

  const ANY := Match(None, None, None, None, None)

  function FromPort(port: nat, e: EthType): Match { ANY.(inPort := Some(port), ethType := Some(e)) }

  function FromSource(port: nat, n: Net,
                      mac: Option<Mac>): Match { FromPort(port, Ip).(ipSrc := Some(n), ethSrc := mac) }

  function ToNetwork(port: nat, n: Net): Match { FromPort(port, Ip).(ipDst := Some(n)) }

  function SourceNetworks(a: Attachment): seq<Net> {
    [Host(a.address)] + (if a.extra.Some? then [a.extra.value] else [])
  }

  function ExpectedMac(inp: Inputs, a: Attachment): Option<Mac> {
    if inp.enforce then Some(a.mac) else None
  }

  const DEFAULTS: seq<FlowMod> := [
    FlowMod(FlowKey(0, 0, ANY), ToController), FlowMod(FlowKey(10, 0, ANY), ToController),
    FlowMod(FlowKey(20, 0, ANY), ToController), FlowMod(FlowKey(30, 0, ANY), ToController)]

  function SourceMods(inp: Inputs, a: Attachment, port: nat): seq<FlowMod> {
    var nets := SourceNetworks(a);
    seq(|nets|, i requires 0 <= i < |nets| => FlowMod(FlowKey(10, 400, FromSource(port, nets[i], ExpectedMac(inp, a))),
      GotoTable(20)))
  }

  ghost predicate HasPorts(inp: Inputs) {
    forall k :: 0 <= k < |inp.attached| ==> inp.attached[k].port in inp.ports
  }

  function AttachmentMods(inp: Inputs, a: Attachment): seq<FlowMod> {
    if !a.authorized || a.port !in inp.ports then []
    else
      var port := inp.ports[a.port];
      [FlowMod(FlowKey(0, 400, FromPort(port, Arp)), ToController),
        FlowMod(FlowKey(0, 400, FromPort(port, Ip)), GotoTable(10))]
      + SourceMods(inp, a, port)
  }

  function BySite(atts: seq<Attachment>, site: Name): (r: Option<Attachment>)
    ensures r.Some? ==> r.value in atts && r.value.site == site
    ensures r.None? ==> forall a :: a in atts ==> a.site != site
  {
    if atts == [] then None
    else
      var last := atts[|atts| - 1];
      assert atts == atts[..|atts| - 1] + [last];
      if last.site == site then Some(last) else BySite(atts[..|atts| - 1], site)
  }

  function RouteMods(inp: Inputs, r: Route): seq<FlowMod> {
    var s, t := BySite(inp.attached, r.source), BySite(inp.attached, r.egress);
    if s.None? || t.None? || s.value.port !in inp.ports || t.value.port !in inp.ports then []
    else
      var pattern := ToNetwork(inp.ports[s.value.port], r.destination);
      [FlowMod(FlowKey(20, 300, pattern), GotoTable(30)),
       FlowMod(FlowKey(30, 300, pattern), Forward(inp.gateway, t.value.mac, inp.ports[t.value.port]))]
  }

  function AllAttachmentMods(inp: Inputs, atts: seq<Attachment>): seq<FlowMod> {
    if atts == [] then [] else AllAttachmentMods(inp, atts[..|atts| - 1]) + AttachmentMods(inp, atts[|atts| - 1])
  }

  function AllRouteMods(inp: Inputs, routes: seq<Route>): seq<FlowMod> {
    if routes == [] then [] else AllRouteMods(inp, routes[..|routes| - 1]) + RouteMods(inp, routes[|routes| - 1])
  }

  function Program(inp: Inputs): seq<FlowMod> {
    DEFAULTS + AllAttachmentMods(inp, inp.attached) + AllRouteMods(inp, inp.routes)
  }

  /** The owned flows after a full reprogramming. */
  function Compiled(inp: Inputs): Flows { Install(map[], Program(inp)) }

  // ----- which entries a program holds, independently of order

  ghost predicate FromAttachment(inp: Inputs, a: Attachment, m: FlowMod) {
    a in inp.attached && a.authorized && a.port in inp.ports &&
    (m == FlowMod(FlowKey(0, 400, FromPort(inp.ports[a.port], Arp)), ToController) ||
     m == FlowMod(FlowKey(0, 400, FromPort(inp.ports[a.port], Ip)), GotoTable(10)) ||
     exists n ::
       n in SourceNetworks(a) && m == FlowMod(FlowKey(10, 400, FromSource(inp.ports[a.port], n, ExpectedMac(inp, a))),
         GotoTable(20)))
  }

  ghost predicate FromRoute(inp: Inputs, r: Route, s: Attachment, t: Attachment, m: FlowMod) {
    r in inp.routes && s in inp.attached && t in inp.attached && s.site == r.source && t.site == r.egress &&
    s.port in inp.ports && t.port in inp.ports &&
    (m == FlowMod(FlowKey(20, 300, ToNetwork(inp.ports[s.port], r.destination)), GotoTable(30)) ||
     m == FlowMod(FlowKey(30, 300, ToNetwork(inp.ports[s.port], r.destination)),
       Forward(inp.gateway, t.mac, inp.ports[t.port])))
  }

  ghost predicate Programmed(inp: Inputs, m: FlowMod) {
    m in DEFAULTS || (exists a :: FromAttachment(inp, a, m)) || exists r, s, t :: FromRoute(inp, r, s, t, m)
  }

  /** No two attachments of the switch share a site or a port number. */
  ghost predicate DistinctPorts(inp: Inputs) {
    HasPorts(inp) &&
    forall i, j :: 0 <= i < j < |inp.attached| ==>
                     inp.attached[i].site != inp.attached[j].site &&
                     inp.ports[inp.attached[i].port] != inp.ports[inp.attached[j].port]
  }

  lemma SamePortSameAttachment(inp: Inputs, a: Attachment, b: Attachment)
    requires DistinctPorts(inp) && a in inp.attached && b in inp.attached
    ensures a.port in inp.ports && b.port in inp.ports
    ensures a.site == b.site || inp.ports[a.port] == inp.ports[b.port] ==> a == b
  {
    var i :| 0 <= i < |inp.attached| && inp.attached[i] == a;
    var j :| 0 <= j < |inp.attached| && inp.attached[j] == b;
  }

  lemma {:induction false} AttachmentModsMembers(inp: Inputs, atts: seq<Attachment>, m: FlowMod)
    ensures m in AllAttachmentMods(inp, atts) <==> exists a :: a in atts && m in AttachmentMods(inp, a)
  {
    if atts != [] {
      var init, last := atts[..|atts| - 1], atts[|atts| - 1];
      assert atts == init + [last];
      AttachmentModsMembers(inp, init, m);
      if a :| a in init && m in AttachmentMods(inp, a) {
        assert a in atts;
      }
    }
  }

  lemma {:induction false} RouteModsMembers(inp: Inputs, routes: seq<Route>, m: FlowMod)
    ensures m in AllRouteMods(inp, routes) <==> exists r :: r in routes && m in RouteMods(inp, r)
  {
    if routes != [] {
      var init, last := routes[..|routes| - 1], routes[|routes| - 1];
      assert routes == init + [last];
      RouteModsMembers(inp, init, m);
      if r :| r in init && m in RouteMods(inp, r) {
        assert r in routes;
      }
    }
  }

  lemma AttachmentModsMeaning(inp: Inputs, a: Attachment, m: FlowMod)
    requires a in inp.attached
    ensures m in AttachmentMods(inp, a) <==> FromAttachment(inp, a, m)
  {
    if a.authorized && a.port in inp.ports {
      var port, nets := inp.ports[a.port], SourceNetworks(a);
      var mods := SourceMods(inp, a, port);
      if n :| n in nets && m == FlowMod(FlowKey(10, 400, FromSource(port, n, ExpectedMac(inp, a))), GotoTable(20)) {
        var i :| 0 <= i < |nets| && nets[i] == n;
        assert mods[i] == m;
      }
      if m in mods {
        var i :| 0 <= i < |mods| && mods[i] == m;
        assert nets[i] in nets;
      }
    }
  }

  lemma RouteModsMeaning(inp: Inputs, r: Route, m: FlowMod)
    requires DistinctPorts(inp) && r in inp.routes
    ensures m in RouteMods(inp, r) <==> exists s, t :: FromRoute(inp, r, s, t, m)
  {
    var s, t := BySite(inp.attached, r.source), BySite(inp.attached, r.egress);
    if m in RouteMods(inp, r) {
      assert FromRoute(inp, r, s.value, t.value, m);
    }
    if s', t' :| FromRoute(inp, r, s', t', m) {
      SamePortSameAttachment(inp, s', s.value);
      SamePortSameAttachment(inp, t', t.value);
    }
  }

  /** The messages of a reprogramming are exactly the entries justified by an attachment or a route. */
  lemma ProgramMeaning(inp: Inputs, m: FlowMod)
    requires DistinctPorts(inp)
    ensures m in Program(inp) <==> Programmed(inp, m)
  {
    AttachmentModsMembers(inp, inp.attached, m);
    RouteModsMembers(inp, inp.routes, m);
    if a :| a in inp.attached && m in AttachmentMods(inp, a) {
      AttachmentModsMeaning(inp, a, m);
    }
    if a :| FromAttachment(inp, a, m) {
      AttachmentModsMeaning(inp, a, m);
    }
    if r :| r in inp.routes && m in RouteMods(inp, r) {
      RouteModsMeaning(inp, r, m);
    }
    if r, s, t :| FromRoute(inp, r, s, t, m) {
      RouteModsMeaning(inp, r, m);
    }
  }
}
