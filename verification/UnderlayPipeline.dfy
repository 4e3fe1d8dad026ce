/** The compiled pipeline forwards exactly what the forwarding entries allow. */
module UnderlayPipeline {
  import opened Underlay
  import opened UnderlayMeaning
  import opened OpenFlow
  import opened UnderlayProgram

  /** Matching entries of `table` other than its default. */
  ghost predicate Hits(inp: Inputs, table: nat, p: Packet, m: FlowMod) {
    Programmed(inp, m) && m.key.table == table && m.key.priority > 0 && m.key.pattern.Matches(p)
  }

  function Default(table: nat): FlowMod { FlowMod(FlowKey(table, 0, ANY), ToController) }

  predicate IsTable(table: nat) { table in {0, 10, 20, 30} }

  lemma CompiledMeaning(inp: Inputs)
    requires DistinctPorts(inp)
    ensures forall k :: k in Compiled(inp) ==> Programmed(inp, FlowMod(k, Compiled(inp)[k]))
    ensures forall m :: Programmed(inp, m) ==> m.key in Compiled(inp)
  {
    InstallMeaning(Program(inp));
    forall k | k in Compiled(inp)
      ensures Programmed(inp, FlowMod(k, Compiled(inp)[k]))
    {
      ProgramMeaning(inp, FlowMod(k, Compiled(inp)[k]));
    }
    forall m | Programmed(inp, m)
      ensures m.key in Compiled(inp)
    {
      ProgramMeaning(inp, m);
    }
  }

  lemma PositiveOrDefault(inp: Inputs, m: FlowMod)
    requires Programmed(inp, m) && m.key.priority == 0
    ensures m == Default(m.key.table)
  {
  }

  /** A packet that hits nothing in a table goes to the controller from there. */
  lemma MissGoesToController(inp: Inputs, table: nat, p: Packet, r: Result)
    requires DistinctPorts(inp) && IsTable(table) && forall m :: !Hits(inp, table, p, m)
    ensures MayEnd(Compiled(inp), table, p, r) <==> r == Controller(table)
  {
    CompiledMeaning(inp);
    var flows, d := Compiled(inp), Default(table);
    assert d in DEFAULTS;
    assert Programmed(inp, d);
    forall k | k in flows && k.table == table && k.pattern.Matches(p)
      ensures k == d.key && flows[k] == ToController
    {
      var m := FlowMod(k, flows[k]);
      assert !Hits(inp, table, p, m);
      PositiveOrDefault(inp, m);
    }
    SingleAction(flows, table, p, r, d.key, ToController);
  }

  /** If all hits of a packet in a table have one priority and one action, that action decides. */
  lemma HitDecides(inp: Inputs, table: nat, p: Packet, r: Result, hit: FlowMod)
    requires DistinctPorts(inp) && Hits(inp, table, p, hit)
    requires forall m :: Hits(inp, table, p, m) ==> m.key.priority == hit.key.priority && m.action == hit.action
    ensures MayEnd(Compiled(inp), table, p, r) <==> MayEndBy(Compiled(inp), table, p, r, hit.action)
  {
    CompiledMeaning(inp);
    var flows := Compiled(inp);
    forall k | k in flows && k.table == table && k.pattern.Matches(p)
      ensures k.priority <= hit.key.priority
      ensures k.priority > 0 ==> flows[k] == hit.action
    {
      var m := FlowMod(k, flows[k]);
      assert k.priority > 0 ==> Hits(inp, table, p, m);
    }
    SingleAction(flows, table, p, r, hit.key, hit.action);
  }

  // ----- the four tables

  /** `s` is the authorized attachment the packet came in on. */
  ghost predicate EntersAt(inp: Inputs, p: Packet, s: Attachment) {
    s in inp.attached && s.authorized && s.port in inp.ports && inp.ports[s.port] == p.inPort
  }

  /** The packet's source address belongs to the attachment, and so does its hardware address when enforced. */
  predicate SourceValid(inp: Inputs, p: Packet, s: Attachment) {
    MaySendFrom(s, p.src) && (inp.enforce ==> p.ethSrc == s.mac)
  }

  ghost predicate RoutedBy(inp: Inputs, p: Packet, s: Attachment, t: Attachment, r: Route) {
    r in inp.routes && r.source == s.site && r.egress == t.site && r.destination.Contains(p.dst) &&
      t in inp.attached && t.port in inp.ports
  }

  /** At most one egress for each source and address, and only authorized attachments are sources. */
  ghost predicate RoutesAgree(inp: Inputs) {
    (forall r, s :: r in inp.routes && s in inp.attached && s.site == r.source ==> s.authorized) &&
    forall q, r, d ::
      q in inp.routes && r in inp.routes && q.source == r.source && q.destination.Contains(d) &&
        r.destination.Contains(d) ==>
                        q.egress == r.egress
  }

  lemma Table0Hits(inp: Inputs, p: Packet, m: FlowMod)
    requires Hits(inp, 0, p, m)
    ensures exists s :: EntersAt(inp, p, s)
    ensures m.key.priority == 400 && ((p.ethType == Arp && m.action == ToController) ||
            (p.ethType == Ip && m.action == GotoTable(10)))
  {
    var a :| FromAttachment(inp, a, m);
    assert EntersAt(inp, p, a);
  }

  lemma Table10Hits(inp: Inputs, p: Packet, s: Attachment, m: FlowMod)
    requires DistinctPorts(inp) && EntersAt(inp, p, s) && Hits(inp, 10, p, m)
    ensures SourceValid(inp, p, s) && m.key.priority == 400 && m.action == GotoTable(20)
  {
    var a :| FromAttachment(inp, a, m);
    SamePortSameAttachment(inp, a, s);
  }

  lemma Table10Admits(inp: Inputs, p: Packet, s: Attachment) returns (m: FlowMod)
    requires EntersAt(inp, p, s) && SourceValid(inp, p, s) && p.ethType == Ip
    ensures Hits(inp, 10, p, m) && m.key.priority == 400 && m.action == GotoTable(20)
  {
    var n := if p.src == s.address then Host(s.address) else s.extra.value;
    assert SourceNetworks(s)[0] == Host(s.address);
    assert n in SourceNetworks(s) && n.Contains(p.src);
    m := FlowMod(FlowKey(10, 400, FromSource(p.inPort, n, ExpectedMac(inp, s))), GotoTable(20));
    assert FromAttachment(inp, s, m);
  }

  lemma RouteHits(inp: Inputs, table: nat, p: Packet, s: Attachment, m: FlowMod)
    requires DistinctPorts(inp) && EntersAt(inp, p, s) && (table == 20 || table == 30) && Hits(inp, table, p, m)
    ensures m.key.priority == 300
    ensures exists t, r :: RoutedBy(inp, p, s, t, r) &&
              m.action == if table == 20 then GotoTable(30) else Forward(inp.gateway, t.mac, inp.ports[t.port])
  {
    var r, s', t :| FromRoute(inp, r, s', t, m);
    SamePortSameAttachment(inp, s, s');
    assert RoutedBy(inp, p, s, t, r);
  }

  lemma RouteAdmits(inp: Inputs, table: nat, p: Packet, s: Attachment, t: Attachment, r: Route) returns (m: FlowMod)
    requires EntersAt(inp, p, s) && RoutedBy(inp, p, s, t, r) && p.ethType == Ip && (table == 20 || table == 30)
    ensures Hits(inp, table, p, m) && m.key.priority == 300
    ensures m.action == if table == 20 then GotoTable(30) else Forward(inp.gateway, t.mac, inp.ports[t.port])
  {
    m := FlowMod(FlowKey(table, 300, ToNetwork(p.inPort, r.destination)),
                 if table == 20 then GotoTable(30) else Forward(inp.gateway, t.mac, inp.ports[t.port]));
    assert FromRoute(inp, r, s, t, m);
  }

  lemma SameEgress(inp: Inputs, p: Packet, s: Attachment, t: Attachment, r: Route, t': Attachment, r': Route)
    requires DistinctPorts(inp) && RoutesAgree(inp) && RoutedBy(inp, p, s, t, r) && RoutedBy(inp, p, s, t', r')
    ensures t == t'
  {
    SamePortSameAttachment(inp, t, t');
  }

  // ----- the whole pipeline

  /** What the switch does with packet `p`, said without tables. */
  ghost predicate Meaning(inp: Inputs, p: Packet, r: Result) {
    if p.ethType != Ip || !exists s :: EntersAt(inp, p, s) then r == Controller(0)
    else
      exists s :: EntersAt(inp, p, s) && MeaningAt(inp, p, s, r)
  }

  ghost predicate MeaningAt(inp: Inputs, p: Packet, s: Attachment, r: Result) {
    if !SourceValid(inp, p, s) then r == Controller(10)
    else if !exists t, q :: RoutedBy(inp, p, s, t, q) then r == Controller(20)
    else exists t, q :: RoutedBy(inp, p, s, t, q) && r == Sent(inp.ports[t.port], inp.gateway, t.mac)
  }

  lemma Tables20And30(inp: Inputs, p: Packet, s: Attachment, r: Result)
    requires DistinctPorts(inp) && RoutesAgree(inp) && EntersAt(inp, p, s) && SourceValid(inp, p, s) && p.ethType == Ip
    ensures MayEnd(Compiled(inp), 20, p, r) <==> MeaningAt(inp, p, s, r)
  {
    if t, q :| RoutedBy(inp, p, s, t, q) {
      forall t', q' | RoutedBy(inp, p, s, t', q')
        ensures t' == t
      {
        SameEgress(inp, p, s, t, q, t', q');
      }
      forall table, m | (table == 20 || table == 30) && Hits(inp, table, p, m)
        ensures m.key.priority == 300 && m.action == if table == 20 then GotoTable(30)
                else Forward(inp.gateway, t.mac, inp.ports[t.port])
      {
        RouteHits(inp, table, p, s, m);
      }
      var m20 := RouteAdmits(inp, 20, p, s, t, q);
      var m30 := RouteAdmits(inp, 30, p, s, t, q);
      HitDecides(inp, 20, p, r, m20);
      HitDecides(inp, 30, p, r, m30);
    } else {
      forall m
        ensures !Hits(inp, 20, p, m)
      {
        if Hits(inp, 20, p, m) {
          RouteHits(inp, 20, p, s, m);
        }
      }
      MissGoesToController(inp, 20, p, r);
    }
  }

  lemma Tables10To30(inp: Inputs, p: Packet, s: Attachment, r: Result)
    requires DistinctPorts(inp) && RoutesAgree(inp) && EntersAt(inp, p, s) && p.ethType == Ip
    ensures MayEnd(Compiled(inp), 10, p, r) <==> MeaningAt(inp, p, s, r)
  {
    forall m | Hits(inp, 10, p, m)
      ensures SourceValid(inp, p, s) && m.key.priority == 400 && m.action == GotoTable(20)
    {
      Table10Hits(inp, p, s, m);
    }
    if SourceValid(inp, p, s) {
      var hit := Table10Admits(inp, p, s);
      HitDecides(inp, 10, p, r, hit);
      Tables20And30(inp, p, s, r);
    } else {
      MissGoesToController(inp, 10, p, r);
    }
  }

  /** Whichever of the equally ranked entries a switch picks, every packet ends exactly as `Meaning` says. */
  lemma PipelineMeaning(inp: Inputs, p: Packet, r: Result)
    requires DistinctPorts(inp) && RoutesAgree(inp)
    ensures MayEnd(Compiled(inp), 0, p, r) <==> Meaning(inp, p, r)
  {
    forall m | Hits(inp, 0, p, m)
      ensures exists s :: EntersAt(inp, p, s)
      ensures m.key.priority == 400 && ((p.ethType == Arp && m.action == ToController) ||
              (p.ethType == Ip && m.action == GotoTable(10)))
    {
      Table0Hits(inp, p, m);
    }
    if (p.ethType == Arp || p.ethType == Ip) && exists s :: EntersAt(inp, p, s) {
      var s :| EntersAt(inp, p, s);
      var hit := FlowMod(FlowKey(0, 400, FromPort(p.inPort, p.ethType)), if p.ethType == Arp then ToController
        else GotoTable(10));
      assert FromAttachment(inp, s, hit);
      HitDecides(inp, 0, p, r, hit);
      if p.ethType == Ip {
        Tables10To30(inp, p, s, r);
        forall s' | EntersAt(inp, p, s')
          ensures s' == s
        {
          SamePortSameAttachment(inp, s, s');
        }
      }
    } else {
      MissGoesToController(inp, 0, p, r);
    }
  }

  /** No packet's fate depends on how the switch breaks ties, and none is left undefined. */
  lemma PipelineIsDeterministic(inp: Inputs, p: Packet) returns (r: Result)
    requires DistinctPorts(inp) && RoutesAgree(inp)
    ensures forall o :: MayEnd(Compiled(inp), 0, p, o) <==> o == r
  {
    if s :| p.ethType == Ip && EntersAt(inp, p, s) {
      if !SourceValid(inp, p, s) {
        r := Controller(10);
      } else if t, q :| RoutedBy(inp, p, s, t, q) {
        r := Sent(inp.ports[t.port], inp.gateway, t.mac);
        forall t', q' | RoutedBy(inp, p, s, t', q')
          ensures t' == t
        {
          SameEgress(inp, p, s, t, q, t', q');
        }
      } else {
        r := Controller(20);
      }
      forall s' | EntersAt(inp, p, s')
        ensures s' == s
      {
        SamePortSameAttachment(inp, s, s');
      }
    } else {
      r := Controller(0);
    }
    forall o
      ensures MayEnd(Compiled(inp), 0, p, o) <==> o == r
    {
      PipelineMeaning(inp, p, o);
    }
  }
}
