/** Desired-state documents, built from what varies in them, and when two of them compare as equal. */
module DesiredStates {
  import opened Basics
  import opened Json
  import opened PolicyDatabase

  predicate IsLeast(n: Name, s: set<Name>) { n in s && forall m :: m in s ==> n <= m }

  lemma {:induction false} LeastExists(s: set<Name>) returns (n: Name)
    requires s != {}
    ensures IsLeast(n, s)
    decreases |s|
  {
    var x :| x in s;
    var rest := s - {x};
    assert forall m :: m in s ==> m == x || m in rest;
    n := x;
    if rest != {} {
      var least := LeastExists(rest);
      n := if least < x then least else x;
    }
  }

  function Least(s: set<Name>): (n: Name)
    requires s != {}
    ensures IsLeast(n, s)
  {
    assert exists n :: IsLeast(n, s) by {
      var n := LeastExists(s);
    }
    var n :| IsLeast(n, s);
    n
  }

  /** Sites in the order in which the inventory lists them. */
  function Ascending(s: set<Name>): (r: seq<Name>)
    ensures forall n :: n in r <==> n in s
    ensures forall i, j :: 0 <= i < j < |r| ==> r[i] < r[j]
    decreases |s|
  {
    if s == {} then []
    else
      var n := Least(s);
      var rest := Ascending(s - {n});
      assert forall m :: m in s <==> m == n || m in s - {n};
      assert forall j :: 0 <= j < |rest| ==> rest[j] in s - {n};
      [n] + rest
  }

  // ----- documents

  function PrivateNetworks(sites: set<Name>): seq<Json> {
    var names := Ascending(sites);
    seq(|names|, k requires 0 <= k < |names| => Setting(Prefix, [names[k]]))
  }

  function PeerEntry(id: Name, key: Name, endpoint: Json, allowed: seq<Json>): Json {
    Object(map[PeerId := Text(id), PublicKey := Text(key), Endpoint := endpoint, AllowedIps := Tuple(allowed),
               Keepalive := Setting(Keepalive, [])])
  }

  function InterfaceEntry(name: Json, site: Name, hub: Name, t: nat, peers: seq<Json>, routes: seq<Json>): Json {
    Object(map[InterfaceName := name, Address := Setting(Address, [site, hub, t]),
               ListenPort := Setting(ListenPort, [site, hub, t]), RouteTable := Setting(RouteTable, [site, hub, t]),
               TransportSlot := Setting(TransportSlot, [t]), Hub := Text(hub), Peers := Tuple(peers),
               Routes := Tuple(routes)])
  }

  function SpokePeers(hub: Name, t: nat, peers: map<Name, Name>): seq<Json> {
    var names := Ascending(peers.Keys);
    seq(|names|, k requires 0 <= k < |names| =>
      PeerEntry(names[k], peers[names[k]], Null, [Setting(Address, [names[k], hub, t]), Setting(Prefix, [names[k]])]))
  }

  function HubPeer(site: Name, hub: Name, t: nat, key: Name, routes: seq<Json>): Json {
    PeerEntry(hub, key, Setting(Endpoint, [hub, t]), [Setting(Address, [hub, site, t])] + routes)
  }

  function HubInterface(hub: Name, i: Interface): Json {
    match i
    case ToSpokes(t, peers, routes) =>
      InterfaceEntry(Setting(Spoke, [t]), hub, hub, t, SpokePeers(hub, t, peers), PrivateNetworks(routes))
    case ToHub(t, key) =>
      var other := OtherHub(hub);
      InterfaceEntry(Setting(Hub, [t]), hub, other, t, [HubPeer(hub, other, t, key, [])], [])
  }

  function SpokeInterface(site: Name, hub: Name, t: nat, key: Name, others: set<Name>): Json {
    var routes := PrivateNetworks(others) + [Setting(Routes, [])];
    InterfaceEntry(Setting(InterfaceName, [hub, t]), site, hub, t, [HubPeer(site, hub, t, key, routes)], routes)
  }

  function InterfaceEntries(site: Name, body: Body): seq<Json> {
    match body
    case HubBody(interfaces, _) =>
      seq(|interfaces|, k requires 0 <= k < |interfaces| => HubInterface(site, interfaces[k]))
    case SpokeBody(k1, k2, others) =>
      seq(6, k requires 0 <= k < 6 =>
        SpokeInterface(site, if k < 3 then HUB1 else HUB2, k % 3, if k < 3 then k1 else k2, others))
  }

  /** A row of the ownership table; the time of its last transfer is settled by the site and the epoch. */
  function OwnershipRow(s: Name, epoch: nat): Json {
    Object(map[Prefix := Setting(Prefix, [s]), Spoke := Text(s), PreferredHub := Setting(PreferredHub, [s]),
               StandbyHub := Setting(StandbyHub, [s]), CurrentOwnerHub := Setting(PreferredHub, [s]),
               PreviousOwnerHub := if epoch <= 1 then Null else Setting(PreferredHub, [s]),
               OwnerEpoch := Number(epoch), PolicyVersion := Number(epoch), RouteVersion := Number(epoch),
               RowState := Setting(RowState, []), Reason := Setting(Reason, []),
               UpdatedAt := Setting(UpdatedAt, [s, epoch]), ValidUntil := Null, PendingReconciliation := Number(0)])
  }

  function OwnershipRows(body: Body): seq<Json> {
    match body
    case HubBody(_, ownership) =>
      var names := Ascending(ownership.Keys);
      seq(|names|, k requires 0 <= k < |names| => OwnershipRow(names[k], ownership[names[k]]))
    case SpokeBody(_, _, _) => []
  }

  function ActiveTarget(site: Name, t: nat): Json {
    Object(map[Hub := Setting(PreferredHub, [site]), InterfaceName := Setting(InterfaceName, [site, t])])
  }

  function ActiveTargets(site: Name, body: Body): Json {
    if body.HubBody? then Object(map[])
    else
      Object(map[Slot(0) := ActiveTarget(site, 0), Slot(1) := ActiveTarget(site, 1), Slot(2) := ActiveTarget(site, 2)])
  }

  predicate IsContent(f: Field) {
    f.SchemaVersion? || f.Site? || f.PreferredHub? || f.StandbyHub? || f.ActiveTargetBySlot? || f.Interfaces? ||
    f.RouteOwnership? || f.EgressPolicy?
  }

  function ContentOf(site: Name, body: Body, f: Field): Json
    requires IsContent(f)
  {
    match f
    case SchemaVersion => Number(5)
    case Site => Text(site)
    case PreferredHub => if body.HubBody? then Null else Setting(PreferredHub, [site])
    case StandbyHub => if body.HubBody? then Null else Setting(StandbyHub, [site])
    case ActiveTargetBySlot => ActiveTargets(site, body)
    case Interfaces => Tuple(InterfaceEntries(site, body))
    case RouteOwnership => Tuple(OwnershipRows(body))
    case EgressPolicy => Object(map[PrivatePrefixes := List([Setting(PrivatePrefixes, [])])])
  }

  /** The fields that the comparison keeps. */
  function Content(site: Name, body: Body): (c: map<Field, Json>)
    ensures forall f :: f in c <==> IsContent(f)
    ensures forall f :: f in c ==> c[f] == ContentOf(site, body, f)
  {
    var fields := {SchemaVersion, Site, PreferredHub, StandbyHub, ActiveTargetBySlot, Interfaces, RouteOwnership,
                   EgressPolicy};
    map f | f in fields :: ContentOf(site, body, f)
  }

  function Stamps(d: Desired, generation: Json): map<Field, Json> {
    map[Generation := generation, DesiredStateVersion := Number(d.version), RouteVersion := Number(d.routeVersion),
        OwnershipEpoch := Number(d.routeVersion)]
  }

  /** The published form of a desired state: the record's fields as a mapping, and the digest over its text. */
  function DocumentOf(d: Desired, generation: Json): Json {
    var state := Content(d.site, d.body) + Stamps(d, generation);
    Object(state[ConfigurationDigest := Digest(Written(Object(state)))])
  }

  /** The document as it was published, and as the compiler builds it for the comparison. */
  function PublishedDocument(d: Desired): Json { DocumentOf(d, Setting(Generation, [d.site, d.version])) }

  function ProvisionalDocument(s: Name, body: Body): Json {
    DocumentOf(Desired(s, 1, 1, body), Setting(Generation, []))
  }

  // ----- what the entries tell

  lemma NetworksTellSites(a: set<Name>, b: set<Name>)
    requires Written(Tuple(PrivateNetworks(a))) == Written(Tuple(PrivateNetworks(b)))
    ensures a == b
  {
    var x, y := Ascending(a), Ascending(b);
    assert |x| == |Written(Tuple(PrivateNetworks(a))).items| == |y|;
    forall k | 0 <= k < |x|
      ensures x[k] == y[k]
    {
      assert Written(Tuple(PrivateNetworks(a))).items[k] == Setting(Prefix, [x[k]]);
      assert Written(Tuple(PrivateNetworks(b))).items[k] == Setting(Prefix, [y[k]]);
      assert [x[k]][0] == [y[k]][0];
    }
    assert x == y;
  }

  lemma PeerTells(id: Name, key: Name, endpoint: Json, allowed: seq<Json>)
    ensures var w := Written(PeerEntry(id, key, endpoint, allowed));
            w.Object? && PeerId in w.fields && PublicKey in w.fields && w.fields[PeerId] == Text(id) &&
            w.fields[PublicKey] == Text(key)
  {
  }

  lemma SpokePeerTells(hub: Name, t: nat, peers: map<Name, Name>, w: Json, k: nat)
    requires w == Written(Tuple(SpokePeers(hub, t, peers))) && k < |Ascending(peers.Keys)|
    ensures var n := Ascending(peers.Keys)[k];
            && w.List? && |w.items| == |Ascending(peers.Keys)| && w.items[k].Object? && PeerId in w.items[k].fields
            && PublicKey in w.items[k].fields && w.items[k].fields[PeerId] == Text(n)
            && w.items[k].fields[PublicKey] == Text(peers[n])
  {
    var n := Ascending(peers.Keys)[k];
    assert w.items[k] == Written(SpokePeers(hub, t, peers)[k]);
    PeerTells(n, peers[n], Null, [Setting(Address, [n, hub, t]), Setting(Prefix, [n])]);
  }

  lemma PeersTellKeys(hub: Name, t: nat, a: map<Name, Name>, b: map<Name, Name>)
    requires Written(Tuple(SpokePeers(hub, t, a))) == Written(Tuple(SpokePeers(hub, t, b)))
    ensures a == b
  {
    var x, y := Ascending(a.Keys), Ascending(b.Keys);
    var w := Written(Tuple(SpokePeers(hub, t, a)));
    assert |x| == |w.items| == |y|;
    forall k | 0 <= k < |x|
      ensures x[k] == y[k] && a[x[k]] == b[y[k]]
    {
      SpokePeerTells(hub, t, a, w, k);
      SpokePeerTells(hub, t, b, w, k);
    }
    SameMap(a, b, x, y);
  }

  lemma SameMap(a: map<Name, Name>, b: map<Name, Name>, x: seq<Name>, y: seq<Name>)
    requires (forall n :: n in x <==> n in a.Keys) && (forall n :: n in y <==> n in b.Keys) && |x| == |y|
    requires forall k :: 0 <= k < |x| ==> x[k] == y[k] && a[x[k]] == b[y[k]]
    ensures a == b
  {
    assert x == y;
    forall n | n in a
      ensures a[n] == b[n]
    {
      var k :| 0 <= k < |x| && x[k] == n;
    }
    assert a.Keys == b.Keys;
  }

  lemma InterfaceTells(name: Json, site: Name, hub: Name, t: nat, peers: seq<Json>, routes: seq<Json>)
    ensures var w := Written(InterfaceEntry(name, site, hub, t, peers, routes));
            && w.Object? && InterfaceName in w.fields && Peers in w.fields && Routes in w.fields
            && w.fields[InterfaceName] == Written(name) && w.fields[Peers] == Written(Tuple(peers))
            && w.fields[Routes] == Written(Tuple(routes))
  {
  }

  lemma HubPeerTells(site: Name, hub: Name, t: nat, key: Name, routes: seq<Json>)
    ensures var w := Written(Tuple([HubPeer(site, hub, t, key, routes)]));
            w.List? && |w.items| == 1 && w.items[0].Object? && PublicKey in w.items[0].fields &&
            w.items[0].fields[PublicKey] == Text(key)
  {
    PeerTells(hub, key, Setting(Endpoint, [hub, t]), [Setting(Address, [hub, site, t])] + routes);
  }

  /** A hub's interface entry determines the interface. */
  lemma HubInterfaceTells(hub: Name, i: Interface, j: Interface)
    requires Written(HubInterface(hub, i)) == Written(HubInterface(hub, j))
    ensures i == j
  {
    NameTells(hub, i);
    NameTells(hub, j);
    assert [i.transport][0] == [j.transport][0];
    if i.ToSpokes? {
      InterfaceTells(Setting(Spoke, [i.transport]), hub, hub, i.transport, SpokePeers(hub, i.transport, i.peers),
        PrivateNetworks(i.routes));
      InterfaceTells(Setting(Spoke, [j.transport]), hub, hub, j.transport, SpokePeers(hub, j.transport, j.peers),
        PrivateNetworks(j.routes));
      PeersTellKeys(hub, i.transport, i.peers, j.peers);
      NetworksTellSites(i.routes, j.routes);
    } else {
      var o, t := OtherHub(hub), i.transport;
      InterfaceTells(Setting(Hub, [t]), hub, o, t, [HubPeer(hub, o, t, i.key, [])], []);
      InterfaceTells(Setting(Hub, [t]), hub, o, t, [HubPeer(hub, o, t, j.key, [])], []);
      HubPeerTells(hub, o, t, i.key, []);
      HubPeerTells(hub, o, t, j.key, []);
    }
  }

  lemma NameTells(hub: Name, i: Interface)
    ensures var w := Written(HubInterface(hub, i));
            w.Object? && InterfaceName in w.fields &&
            w.fields[InterfaceName] == Setting(if i.ToSpokes? then Spoke else Hub, [i.transport])
  {
  }

  lemma SpokeInterfaceTells(site: Name, hub: Name, t: nat, k1: Name, k2: Name, o1: set<Name>, o2: set<Name>)
    requires Written(SpokeInterface(site, hub, t, k1, o1)) == Written(SpokeInterface(site, hub, t, k2, o2))
    ensures k1 == k2 && o1 == o2
  {
    var r1, r2 := PrivateNetworks(o1) + [Setting(Routes, [])], PrivateNetworks(o2) + [Setting(Routes, [])];
    InterfaceTells(Setting(InterfaceName, [hub, t]), site, hub, t, [HubPeer(site, hub, t, k1, r1)], r1);
    InterfaceTells(Setting(InterfaceName, [hub, t]), site, hub, t, [HubPeer(site, hub, t, k2, r2)], r2);
    HubPeerTells(site, hub, t, k1, r1);
    HubPeerTells(site, hub, t, k2, r2);
    WrittenFront(PrivateNetworks(o1), Setting(Routes, []), PrivateNetworks(o2));
    NetworksTellSites(o1, o2);
  }

  lemma WrittenFront(a: seq<Json>, x: Json, b: seq<Json>)
    requires Written(Tuple(a + [x])) == Written(Tuple(b + [x]))
    ensures Written(Tuple(a)) == Written(Tuple(b))
  {
    assert |a + [x]| == |Written(Tuple(a + [x])).items| == |b + [x]|;
    forall k | 0 <= k < |a|
      ensures Written(a[k]) == Written(b[k])
    {
      assert Written(Tuple(a + [x])).items[k] == Written((a + [x])[k]);
      assert Written(Tuple(b + [x])).items[k] == Written((b + [x])[k]);
    }
  }

  // ----- comparing whole documents

  lemma WrittenItem(x: seq<Json>, y: seq<Json>, k: nat)
    requires Written(Tuple(x)) == Written(Tuple(y)) && k < |x|
    ensures |x| == |y| && Written(x[k]) == Written(y[k])
  {
    assert |x| == |Written(Tuple(x)).items| == |y|;
    assert Written(Tuple(x)).items[k] == Written(x[k]) && Written(Tuple(y)).items[k] == Written(y[k]);
  }

  lemma HubEntriesTell(site: Name, a: Body, b: Body)
    requires a.HubBody? && b.HubBody?
    requires Written(Tuple(InterfaceEntries(site, a))) == Written(Tuple(InterfaceEntries(site, b)))
    ensures a.interfaces == b.interfaces
  {
    var x, y := InterfaceEntries(site, a), InterfaceEntries(site, b);
    assert |x| == |Written(Tuple(x)).items| == |y|;
    forall k | 0 <= k < |x|
      ensures a.interfaces[k] == b.interfaces[k]
    {
      WrittenItem(x, y, k);
      HubInterfaceTells(site, a.interfaces[k], b.interfaces[k]);
    }
  }

  lemma SpokeEntry(site: Name, a: Body)
    requires a.SpokeBody?
    ensures var x := InterfaceEntries(site, a);
            |x| == 6 && x[0] == SpokeInterface(site, HUB1, 0, a.hub1Key, a.others) &&
            x[3] == SpokeInterface(site, HUB2, 0, a.hub2Key, a.others)
  {
  }

  lemma SpokeEntriesTell(site: Name, a: Body, b: Body, x: seq<Json>, y: seq<Json>)
    requires a.SpokeBody? && b.SpokeBody? && x == InterfaceEntries(site, a) && y == InterfaceEntries(site, b)
    requires Written(Tuple(x)) == Written(Tuple(y))
    ensures a == b
  {
    SpokeEntry(site, a);
    SpokeEntry(site, b);
    WrittenItem(x, y, 0);
    WrittenItem(x, y, 3);
    SpokeInterfaceTells(site, HUB1, 0, a.hub1Key, b.hub1Key, a.others, b.others);
    SpokeInterfaceTells(site, HUB2, 0, a.hub2Key, b.hub2Key, a.others, b.others);
  }

  lemma PeerHasNoVersion(id: Name, key: Name, endpoint: Json, allowed: seq<Json>)
    requires !HasVersionField(endpoint) && forall k :: 0 <= k < |allowed| ==> !HasVersionField(allowed[k])
    ensures !HasVersionField(PeerEntry(id, key, endpoint, allowed))
  {
  }

  lemma InterfaceHasNoVersion(name: Json, site: Name, hub: Name, t: nat, peers: seq<Json>, routes: seq<Json>)
    requires !HasVersionField(name) && forall k :: 0 <= k < |peers| ==> !HasVersionField(peers[k])
    requires forall k :: 0 <= k < |routes| ==> !HasVersionField(routes[k])
    ensures !HasVersionField(InterfaceEntry(name, site, hub, t, peers, routes))
  {
  }

  lemma HubPeerHasNoVersion(site: Name, hub: Name, t: nat, key: Name, routes: seq<Json>)
    requires forall k :: 0 <= k < |routes| ==> !HasVersionField(routes[k])
    ensures !HasVersionField(HubPeer(site, hub, t, key, routes))
  {
    PeerHasNoVersion(hub, key, Setting(Endpoint, [hub, t]), [Setting(Address, [hub, site, t])] + routes);
  }

  lemma HubInterfaceHasNoVersion(hub: Name, i: Interface)
    ensures !HasVersionField(HubInterface(hub, i))
  {
    if i.ToSpokes? {
      var names, peers := Ascending(i.peers.Keys), SpokePeers(hub, i.transport, i.peers);
      forall k | 0 <= k < |peers|
        ensures !HasVersionField(peers[k])
      {
        PeerHasNoVersion(names[k], i.peers[names[k]], Null, [Setting(Address, [names[k], hub, i.transport]),
          Setting(Prefix, [names[k]])]);
      }
      InterfaceHasNoVersion(Setting(Spoke, [i.transport]), hub, hub, i.transport, peers, PrivateNetworks(i.routes));
    } else {
      var o := OtherHub(hub);
      HubPeerHasNoVersion(hub, o, i.transport, i.key, []);
      InterfaceHasNoVersion(Setting(Hub, [i.transport]), hub, o, i.transport,
        [HubPeer(hub, o, i.transport, i.key, [])], []);
    }
  }

  lemma SpokeInterfaceHasNoVersion(site: Name, hub: Name, t: nat, key: Name, others: set<Name>)
    ensures !HasVersionField(SpokeInterface(site, hub, t, key, others))
  {
    var routes := PrivateNetworks(others) + [Setting(Routes, [])];
    HubPeerHasNoVersion(site, hub, t, key, routes);
    InterfaceHasNoVersion(Setting(InterfaceName, [hub, t]), site, hub, t, [HubPeer(site, hub, t, key, routes)], routes);
  }

  lemma EntriesHaveNoVersion(site: Name, body: Body)
    ensures !HasVersionField(Tuple(InterfaceEntries(site, body)))
  {
    if body.HubBody? {
      forall k | 0 <= k < |body.interfaces|
        ensures !HasVersionField(InterfaceEntries(site, body)[k])
      {
        HubInterfaceHasNoVersion(site, body.interfaces[k]);
      }
    } else {
      forall hub, t, key
        ensures !HasVersionField(SpokeInterface(site, hub, t, key, body.others))
      {
        SpokeInterfaceHasNoVersion(site, hub, t, key, body.others);
      }
    }
  }

  lemma RowHasVersion(s: Name, epoch: nat)
    ensures HasVersionField(OwnershipRow(s, epoch))
  {
    var row := OwnershipRow(s, epoch);
    assert RouteVersion in row.fields && IsVersionField(RouteVersion);
  }

  lemma RowsHaveVersions(body: Body)
    ensures HasVersionField(Tuple(OwnershipRows(body))) <==> HasOwnership(body)
    ensures OwnershipRows(body) == [] <==> !HasOwnership(body)
  {
    if HasOwnership(body) {
      var n :| n in body.ownership;
      var names := Ascending(body.ownership.Keys);
      assert n in names;
      RowHasVersion(names[0], body.ownership[names[0]]);
      assert HasVersionField(OwnershipRows(body)[0]);
    }
  }

  lemma ContentShields(site: Name, body: Body, f: Field)
    requires IsContent(f)
    ensures Shielded(ContentOf(site, body, f)) <==> f == RouteOwnership && HasOwnership(body)
  {
    if f == Interfaces {
      EntriesHaveNoVersion(site, body);
    } else if f == RouteOwnership {
      RowsHaveVersions(body);
    } else if f == ActiveTargetBySlot {
      TargetsShieldNothing(site, body);
    }
  }

  lemma TargetsShieldNothing(site: Name, body: Body)
    ensures !Shielded(ActiveTargets(site, body))
  {
    var j := ActiveTargets(site, body);
    forall f | f in j.fields
      ensures !Shielded(j.fields[f])
    {
      assert exists t :: j.fields[f] == ActiveTarget(site, t);
      var t :| j.fields[f] == ActiveTarget(site, t);
    }
  }

  lemma StampsAreVersions(d: Desired, generation: Json, f: Field)
    requires f in Stamps(d, generation)
    ensures IsVersionField(f)
  {
  }

  /** A document's fields are its content and its version fields. */
  lemma ContentIsKept(d: Desired, generation: Json, f: Field)
    ensures var j := DocumentOf(d, generation);
            (f in j.fields && !IsVersionField(f) <==> IsContent(f)) &&
            (IsContent(f) ==> j.fields[f] == ContentOf(d.site, d.body, f))
  {
    if f in Stamps(d, generation) {
      StampsAreVersions(d, generation, f);
    }
  }

  /** A tuple shields a version field exactly in the documents with ownership rows: interfaces have none, and each row
      carries its route version. */
  lemma RowsAreShielded(d: Desired, generation: Json)
    ensures Shielded(DocumentOf(d, generation)) <==> HasOwnership(d.body)
  {
    var j := DocumentOf(d, generation);
    forall f | f in j.fields && !IsVersionField(f)
      ensures Shielded(j.fields[f]) <==> f == RouteOwnership && HasOwnership(d.body)
    {
      ContentIsKept(d, generation, f);
      ContentShields(d.site, d.body, f);
    }
    ContentIsKept(d, generation, RouteOwnership);
    ShieldedAt(j, RouteOwnership, HasOwnership(d.body));
  }

  lemma SameContent(d: Desired, e: Desired, g: Json, h: Json)
    requires d.site == e.site && d.body == e.body
    ensures Stripped(DocumentOf(d, g)) == Stripped(DocumentOf(e, h))
  {
    var a, b := DocumentOf(d, g), DocumentOf(e, h);
    forall f | f in a.fields && !IsVersionField(f)
      ensures f in b.fields && a.fields[f] == b.fields[f]
    {
      ContentIsKept(d, g, f);
      ContentIsKept(e, h, f);
    }
    assert a.fields.Keys == b.fields.Keys;
    StrippedEqual(a, b);
  }

  lemma ContentTells(d: Desired, e: Desired, g: Json, h: Json, f: Field)
    requires Stripped(DocumentOf(d, g)) == Stripped(DocumentOf(e, h))
    requires IsContent(f)
    ensures Stripped(ContentOf(d.site, d.body, f)) == Stripped(ContentOf(e.site, e.body, f))
  {
    ContentIsKept(d, g, f);
    ContentIsKept(e, h, f);
    StrippedField(DocumentOf(d, g), f);
    StrippedField(DocumentOf(e, h), f);
  }

  lemma BodyTold(site: Name, a: Body, b: Body)
    requires Stripped(Tuple(InterfaceEntries(site, a))) == Stripped(Tuple(InterfaceEntries(site, b)))
    requires (a.HubBody? <==> b.HubBody?) && !HasOwnership(a) && !HasOwnership(b)
    ensures a == b
  {
    EntriesHaveNoVersion(site, a);
    EntriesHaveNoVersion(site, b);
    WrittenKeepsVersionFields(Tuple(InterfaceEntries(site, a)));
    WrittenKeepsVersionFields(Tuple(InterfaceEntries(site, b)));
    if a.HubBody? {
      HubEntriesTell(site, a, b);
    } else {
      SpokeEntriesTell(site, a, b, InterfaceEntries(site, a), InterfaceEntries(site, b));
    }
  }

  lemma StrippedRows(a: Body, b: Body)
    requires Stripped(Tuple(OwnershipRows(a))) == Stripped(Tuple(OwnershipRows(b)))
    ensures HasOwnership(a) <==> HasOwnership(b)
  {
    RowsHaveVersions(a);
    RowsHaveVersions(b);
    assert |OwnershipRows(a)| == |Stripped(Tuple(OwnershipRows(a))).items| == |OwnershipRows(b)|;
  }

  lemma SiteTold(d: Desired, e: Desired, g: Json, h: Json)
    requires Stripped(DocumentOf(d, g)) == Stripped(DocumentOf(e, h))
    ensures d.site == e.site
  {
    ContentTells(d, e, g, h, Site);
    assert Stripped(Text(d.site)) == Text(d.site);
  }

  lemma KindTold(d: Desired, e: Desired, g: Json, h: Json)
    requires Stripped(DocumentOf(d, g)) == Stripped(DocumentOf(e, h))
    ensures d.body.HubBody? <==> e.body.HubBody?
  {
    ContentTells(d, e, g, h, PreferredHub);
    assert Stripped(Null) == Null;
  }

  lemma TuplesTold(d: Desired, e: Desired, g: Json, h: Json)
    requires Stripped(DocumentOf(d, g)) == Stripped(DocumentOf(e, h))
    ensures Stripped(Tuple(InterfaceEntries(d.site, d.body))) == Stripped(Tuple(InterfaceEntries(e.site, e.body)))
    ensures Stripped(Tuple(OwnershipRows(d.body))) == Stripped(Tuple(OwnershipRows(e.body)))
  {
    ContentTells(d, e, g, h, Interfaces);
    ContentTells(d, e, g, h, RouteOwnership);
  }

  /** Without ownership rows, two documents are compared as equal exactly when they say the same for the same site. */
  lemma StrippedTellsBody(d: Desired, e: Desired, g: Json, h: Json)
    requires !HasOwnership(e.body)
    ensures Stripped(DocumentOf(d, g)) == Stripped(DocumentOf(e, h)) <==> d.site == e.site && d.body == e.body
  {
    if d.site == e.site && d.body == e.body {
      SameContent(d, e, g, h);
    } else if Stripped(DocumentOf(d, g)) == Stripped(DocumentOf(e, h)) {
      SiteTold(d, e, g, h);
      KindTold(d, e, g, h);
      TuplesTold(d, e, g, h);
      StrippedRows(d.body, e.body);
      BodyTold(d.site, d.body, e.body);
      assert false;
    }
  }

  /** The compiler publishes a site again exactly when its document says something else -- or when it lists ownership
      rows, even if nothing at all has changed. */
  lemma PublishedAgain(d: Desired, s: Name, body: Body)
    ensures Differs(PublishedDocument(d), ProvisionalDocument(s, body)) <==>
            d.site != s || d.body != body || HasOwnership(body)
  {
    ComparisonIsExact(PublishedDocument(d), ProvisionalDocument(s, body));
    RowsAreShielded(Desired(s, 1, 1, body), Setting(Generation, []));
    if !HasOwnership(body) {
      StrippedTellsBody(d, Desired(s, 1, 1, body), Setting(Generation, [d.site, d.version]), Setting(Generation, []));
    }
  }

  // ----- what a document tells the edge

  function At(j: Json, f: Field): Json { if j.Object? && f in j.fields then j.fields[f] else Null }

  function Items(j: Json): seq<Json> { if j.Tuple? then j.items else [] }

  /** A peer entry for this node with this key. */
  predicate IsPeer(j: Json, id: Name, key: Name) { At(j, PeerId) == Text(id) && At(j, PublicKey) == Text(key) }

  /** The sites whose networks a list names. */
  function SitesNamed(networks: seq<Json>): set<Name> {
    if networks == [] then {}
    else
      var j := networks[0];
      (if j.Setting? && j.what == Prefix && |j.about| == 1 then {j.about[0]} else {}) + SitesNamed(networks[1..])
  }

  /** The nodes that a list of peers names, with their keys. */
  function KeysNamed(peers: seq<Json>): map<Name, Name> {
    if peers == [] then map[]
    else
      var id, key := At(peers[0], PeerId), At(peers[0], PublicKey);
      KeysNamed(peers[1..]) + (if id.Text? && key.Text? then map[id.name := key.name] else map[])
  }

  /** Each peer may use its own site's network, and no other site's. */
  predicate OwnNetworks(peers: seq<Json>) {
    forall k :: 0 <= k < |peers| ==>
                  At(peers[k], PeerId).Text? &&
                  SitesNamed(Items(At(peers[k], AllowedIps))) == {At(peers[k], PeerId).name}
  }

  /** The owned sites that a list of ownership rows names, with their epochs. */
  function EpochsNamed(rows: seq<Json>): map<Name, nat> {
    if rows == [] then map[]
    else
      var spoke, epoch := At(rows[0], Spoke), At(rows[0], OwnerEpoch);
      EpochsNamed(rows[1..]) + (if spoke.Text? && epoch.Number? then map[spoke.name := epoch.value] else map[])
  }

  /** An interface with one peer: that node, with that key, reached at its own endpoint. */
  predicate SinglePeer(j: Json, name: Json, node: Name, t: nat, key: Name) {
    At(j, InterfaceName) == name && At(j, Hub) == Text(node) && |Items(At(j, Peers))| == 1 &&
    IsPeer(Items(At(j, Peers))[0], node, key) &&
    At(Items(At(j, Peers))[0], Endpoint) == Setting(Endpoint, [node, t])
  }

  /** A spoke's tunnel to a hub: the hub is its peer, with this key, and it carries the routes to the other sites, all
      of which the peer may use. */
  predicate TunnelTo(j: Json, hub: Name, t: nat, key: Name, others: set<Name>) {
    SinglePeer(j, Setting(InterfaceName, [hub, t]), hub, t, key) && SitesNamed(Items(At(j, Routes))) == others &&
    SitesNamed(Items(At(Items(At(j, Peers))[0], AllowedIps))) == others
  }

  /** A hub's interface to the spokes: its peers are exactly these sites with these keys, and its routes lead to exactly
      the configured sites. */
  predicate SpokesAt(j: Json, t: nat, peers: map<Name, Name>, sites: set<Name>) {
    At(j, InterfaceName) == Setting(Spoke, [t]) && SitesNamed(Items(At(j, Routes))) == sites &&
    KeysNamed(Items(At(j, Peers))) == peers && |Items(At(j, Peers))| == |peers| && OwnNetworks(Items(At(j, Peers)))
  }

  /** On each of the three transports a tunnel to the first hub, and then one to the second, with that hub's key. */
  predicate SpokeTunnels(items: seq<Json>, key1: Name, key2: Name, others: set<Name>) {
    |items| == 6 &&
    forall k :: 0 <= k < 6 ==>
                  TunnelTo(items[k], if k < 3 then HUB1 else HUB2, k % 3, if k < 3 then key1 else key2, others)
  }

  /** On each of the three transports the spokes, and the other hub with its key. */
  predicate HubTunnels(items: seq<Json>, other: Name, key: Name, peers: map<Name, Name>, sites: set<Name>) {
    |items| == 6 &&
    forall k :: 0 <= k < 6 ==>
                  if k % 2 == 0 then SpokesAt(items[k], k / 2, peers, sites)
                  else SinglePeer(items[k], Setting(Hub, [k / 2]), other, k / 2, key)
  }

  /** The interfaces of the published document. */
  function InterfacesIn(d: Desired): seq<Json> { Items(At(PublishedDocument(d), Interfaces)) }

  lemma InterfacesOf(d: Desired)
    ensures InterfacesIn(d) == InterfaceEntries(d.site, d.body)
  {
    ContentIsKept(d, Setting(Generation, [d.site, d.version]), Interfaces);
  }

  lemma PeerSays(id: Name, key: Name, endpoint: Json, allowed: seq<Json>)
    ensures var p := PeerEntry(id, key, endpoint, allowed);
            IsPeer(p, id, key) && At(p, Endpoint) == endpoint && Items(At(p, AllowedIps)) == allowed
  {
  }

  lemma InterfaceSays(name: Json, site: Name, hub: Name, t: nat, peers: seq<Json>, routes: seq<Json>)
    ensures var i := InterfaceEntry(name, site, hub, t, peers, routes);
            && At(i, InterfaceName) == name && At(i, Hub) == Text(hub)
            && Items(At(i, Peers)) == peers && Items(At(i, Routes)) == routes
  {
  }

  lemma {:induction false} SitesNamedMeaning(networks: seq<Json>, n: Name)
    ensures n in SitesNamed(networks) <==> Setting(Prefix, [n]) in networks
  {
    if networks != [] {
      SitesNamedMeaning(networks[1..], n);
      assert networks == [networks[0]] + networks[1..];
      var j := networks[0];
      assert j.Setting? && |j.about| == 1 ==> j.about == [j.about[0]];
      assert [n][0] == n;
    }
  }

  lemma NetworksNameSites(sites: set<Name>, before: seq<Json>, after: seq<Json>)
    requires forall n :: Setting(Prefix, [n]) !in before && Setting(Prefix, [n]) !in after
    ensures SitesNamed(before + PrivateNetworks(sites) + after) == sites
  {
    var names, all := Ascending(sites), before + PrivateNetworks(sites) + after;
    forall n
      ensures n in SitesNamed(all) <==> n in sites
    {
      SitesNamedMeaning(all, n);
      if n in sites {
        var k :| 0 <= k < |names| && names[k] == n;
        assert all[|before| + k] == Setting(Prefix, [n]);
      }
      if Setting(Prefix, [n]) in all {
        var k :| 0 <= k < |all| && all[k] == Setting(Prefix, [n]);
        var i := k - |before|;
        assert 0 <= i < |names|;
        assert all[k] == Setting(Prefix, [names[i]]);
        assert [names[i]][0] == [n][0];
      }
    }
  }

  lemma SpokeRoutes(others: set<Name>, address: Json)
    requires forall n :: address != Setting(Prefix, [n])
    ensures SitesNamed(PrivateNetworks(others) + [Setting(Routes, [])]) == others
    ensures SitesNamed([address] + (PrivateNetworks(others) + [Setting(Routes, [])])) == others
  {
    var last := [Setting(Routes, [])];
    NetworksNameSites(others, [], last);
    assert [] + PrivateNetworks(others) + last == PrivateNetworks(others) + last;
    NetworksNameSites(others, [address], last);
    assert [address] + PrivateNetworks(others) + last == [address] + (PrivateNetworks(others) + last);
  }

  lemma SpokeInterfaceSays(site: Name, hub: Name, t: nat, key: Name, others: set<Name>)
    ensures TunnelTo(SpokeInterface(site, hub, t, key, others), hub, t, key, others)
  {
    var routes, address := PrivateNetworks(others) + [Setting(Routes, [])], Setting(Address, [hub, site, t]);
    SpokeRoutes(others, address);
    PeerSays(hub, key, Setting(Endpoint, [hub, t]), [address] + routes);
    InterfaceSays(Setting(InterfaceName, [hub, t]), site, hub, t, [HubPeer(site, hub, t, key, routes)], routes);
  }

  lemma ToHubSays(hub: Name, t: nat, key: Name)
    ensures SinglePeer(HubInterface(hub, ToHub(t, key)), Setting(Hub, [t]), OtherHub(hub), t, key)
  {
    var other := OtherHub(hub);
    PeerSays(other, key, Setting(Endpoint, [other, t]), [Setting(Address, [other, hub, t])] + []);
    InterfaceSays(Setting(Hub, [t]), hub, other, t, [HubPeer(hub, other, t, key, [])], []);
  }

  /** A list of peers with increasing identifiers names each with its own key. */
  lemma {:induction false} KeysNamedMeaning(peers: seq<Json>, names: seq<Name>, keys: map<Name, Name>)
    requires |peers| == |names| && (forall i, j :: 0 <= i < j < |names| ==> names[i] < names[j])
    requires forall k :: 0 <= k < |names| ==> names[k] in keys && IsPeer(peers[k], names[k], keys[names[k]])
    ensures forall n :: n in KeysNamed(peers) <==> n in names
    ensures forall n :: n in KeysNamed(peers) ==> n in keys && KeysNamed(peers)[n] == keys[n]
  {
    if peers != [] {
      assert names == [names[0]] + names[1..];
      KeysNamedMeaning(peers[1..], names[1..], keys);
      assert IsPeer(peers[0], names[0], keys[names[0]]);
      OneMore(KeysNamed(peers[1..]), names, keys);
    }
  }

  lemma OneMore(rest: map<Name, nat>, names: seq<Name>, values: map<Name, nat>)
    requires names != [] && names[0] in values && names[0] !in rest && forall n :: n in rest <==> n in names[1..]
    requires forall n :: n in rest ==> n in values && rest[n] == values[n]
    ensures var all := rest + map[names[0] := values[names[0]]];
            (forall n :: n in all <==> n in names) && forall n :: n in all ==> n in values && all[n] == values[n]
  {
    assert names == [names[0]] + names[1..];
  }

  lemma SpokePeerSays(hub: Name, t: nat, peers: map<Name, Name>, k: nat)
    requires k < |Ascending(peers.Keys)|
    ensures var n := Ascending(peers.Keys)[k]; IsPeer(SpokePeers(hub, t, peers)[k], n, peers[n])
  {
    var n := Ascending(peers.Keys)[k];
    PeerSays(n, peers[n], Null, [Setting(Address, [n, hub, t]), Setting(Prefix, [n])]);
  }

  lemma SpokePeersSay(hub: Name, t: nat, peers: map<Name, Name>, entries: seq<Json>)
    requires entries == SpokePeers(hub, t, peers)
    ensures KeysNamed(entries) == peers && |entries| == |peers|
  {
    var names := Ascending(peers.Keys);
    forall k | 0 <= k < |names|
      ensures IsPeer(entries[k], names[k], peers[names[k]])
    {
      SpokePeerSays(hub, t, peers, k);
    }
    KeysNamedMeaning(entries, names, peers);
    SameKeys(KeysNamed(entries), peers);
    AscendingCounts(peers.Keys);
    assert |peers| == |peers.Keys|;
  }

  lemma SpokePeersOwn(hub: Name, t: nat, peers: map<Name, Name>, entries: seq<Json>)
    requires entries == SpokePeers(hub, t, peers)
    ensures OwnNetworks(entries)
  {
    var names := Ascending(peers.Keys);
    forall k | 0 <= k < |entries|
      ensures At(entries[k], PeerId).Text? &&
              SitesNamed(Items(At(entries[k], AllowedIps))) == {At(entries[k], PeerId).name}
    {
      var n := names[k];
      var allowed := [Setting(Address, [n, hub, t]), Setting(Prefix, [n])];
      PeerSays(n, peers[n], Null, allowed);
      OneSiteNamed(Setting(Address, [n, hub, t]), n);
    }
  }

  lemma OneSiteNamed(address: Json, n: Name)
    requires address.Setting? && address.what == Address
    ensures SitesNamed([address, Setting(Prefix, [n])]) == {n}
  {
    var last: seq<Json> := [Setting(Prefix, [n])];
    assert last[1..] == [] && [n][0] == n;
    assert SitesNamed(last) == {n};
    assert [address, Setting(Prefix, [n])][1..] == last;
  }

  /** The ownership rows of the published document. */
  function RowsIn(d: Desired): seq<Json> { Items(At(PublishedDocument(d), RouteOwnership)) }

  lemma {:induction false} EpochsNamedMeaning(rows: seq<Json>, names: seq<Name>, epochs: map<Name, nat>)
    requires |rows| == |names| && (forall i, j :: 0 <= i < j < |names| ==> names[i] < names[j])
    requires forall k :: 0 <= k < |names| ==>
                           names[k] in epochs && At(rows[k], Spoke) == Text(names[k]) &&
                           At(rows[k], OwnerEpoch) == Number(epochs[names[k]])
    ensures forall n :: n in EpochsNamed(rows) <==> n in names
    ensures forall n :: n in EpochsNamed(rows) ==> n in epochs && EpochsNamed(rows)[n] == epochs[n]
  {
    if rows != [] {
      assert names == [names[0]] + names[1..];
      EpochsNamedMeaning(rows[1..], names[1..], epochs);
      OneMore(EpochsNamed(rows[1..]), names, epochs);
    }
  }

  lemma RowSays(s: Name, epoch: nat)
    ensures At(OwnershipRow(s, epoch), Spoke) == Text(s) && At(OwnershipRow(s, epoch), OwnerEpoch) == Number(epoch)
  {
  }

  /** A hub's document has one ownership row for each owned site, with its epoch. */
  lemma OwnershipSays(d: Desired)
    requires d.body.HubBody?
    ensures EpochsNamed(RowsIn(d)) == d.body.ownership && |RowsIn(d)| == |d.body.ownership|
  {
    RowsAreEntries(d);
    RowsSay(d.body, RowsIn(d));
  }

  lemma RowsAreEntries(d: Desired)
    ensures RowsIn(d) == OwnershipRows(d.body)
  {
    ContentIsKept(d, Setting(Generation, [d.site, d.version]), RouteOwnership);
  }

  lemma RowsSay(body: Body, rows: seq<Json>)
    requires body.HubBody? && rows == OwnershipRows(body)
    ensures EpochsNamed(rows) == body.ownership && |rows| == |body.ownership|
  {
    var names := Ascending(body.ownership.Keys);
    forall k | 0 <= k < |names|
      ensures At(rows[k], Spoke) == Text(names[k]) && At(rows[k], OwnerEpoch) == Number(body.ownership[names[k]])
    {
      RowSays(names[k], body.ownership[names[k]]);
    }
    EpochsNamedMeaning(rows, names, body.ownership);
    SameKeys(EpochsNamed(rows), body.ownership);
    AscendingCounts(body.ownership.Keys);
    assert |body.ownership| == |body.ownership.Keys|;
  }

  lemma SameKeys(a: map<Name, Name>, b: map<Name, Name>)
    requires (forall n :: n in a <==> n in b) && forall n :: n in a ==> a[n] == b[n]
    ensures a == b
  {
  }

  lemma {:induction false} AscendingCounts(s: set<Name>)
    ensures |Ascending(s)| == |s|
    decreases |s|
  {
    if s != {} {
      AscendingCounts(s - {Least(s)});
    }
  }

  lemma ToSpokesSays(hub: Name, t: nat, peers: map<Name, Name>, sites: set<Name>)
    ensures SpokesAt(HubInterface(hub, ToSpokes(t, peers, sites)), t, peers, sites)
  {
    NetworksNameSites(sites, [], []);
    assert [] + PrivateNetworks(sites) + [] == PrivateNetworks(sites);
    InterfaceSays(Setting(Spoke, [t]), hub, hub, t, SpokePeers(hub, t, peers), PrivateNetworks(sites));
    SpokePeersSay(hub, t, peers, SpokePeers(hub, t, peers));
    SpokePeersOwn(hub, t, peers, SpokePeers(hub, t, peers));
  }

  lemma SpokeItem(site: Name, body: Body, k: nat)
    requires body.SpokeBody? && k < 6
    ensures var items := InterfaceEntries(site, body);
            |items| == 6 &&
            items[k] == SpokeInterface(site, if k < 3 then HUB1 else HUB2, k % 3,
              if k < 3 then body.hub1Key else body.hub2Key, body.others)
  {
  }

  lemma SpokeItemSays(j: Json, site: Name, hub: Name, t: nat, key: Name, others: set<Name>)
    requires j == SpokeInterface(site, hub, t, key, others)
    ensures TunnelTo(j, hub, t, key, others)
  {
    SpokeInterfaceSays(site, hub, t, key, others);
  }

  lemma SpokeEntriesSay(site: Name, body: Body, items: seq<Json>)
    requires body.SpokeBody? && items == InterfaceEntries(site, body)
    ensures SpokeTunnels(items, body.hub1Key, body.hub2Key, body.others)
  {
    SpokeItem(site, body, 0);
    forall k | 0 <= k < 6
      ensures TunnelTo(items[k], if k < 3 then HUB1 else HUB2, k % 3, if k < 3 then body.hub1Key else body.hub2Key,
                       body.others)
    {
      SpokeItem(site, body, k);
      SpokeItemSays(items[k], site, if k < 3 then HUB1 else HUB2, k % 3, if k < 3 then body.hub1Key else body.hub2Key,
        body.others);
    }
  }

  /** A spoke's document, read field by field. */
  lemma SpokeDocumentSays(d: Desired)
    requires d.body.SpokeBody?
    ensures SpokeTunnels(InterfacesIn(d), d.body.hub1Key, d.body.hub2Key, d.body.others)
  {
    InterfacesOf(d);
    SpokeEntriesSay(d.site, d.body, InterfacesIn(d));
  }

  predicate SixInterfaces(b: Body, key: Name, peers: map<Name, Name>, sites: set<Name>) {
    b.HubBody? && b.interfaces == [ToSpokes(0, peers, sites), ToHub(0, key), ToSpokes(1, peers, sites), ToHub(1, key),
                                   ToSpokes(2, peers, sites), ToHub(2, key)]
  }

  lemma HubItem(site: Name, body: Body, key: Name, peers: map<Name, Name>, sites: set<Name>, k: nat)
    requires SixInterfaces(body, key, peers, sites) && k < 6
    ensures var items := InterfaceEntries(site, body);
            |items| == 6 &&
            items[k] == HubInterface(site, if k % 2 == 0 then ToSpokes(k / 2, peers, sites) else ToHub(k / 2, key))
  {
    assert body.interfaces[k] == if k % 2 == 0 then ToSpokes(k / 2, peers, sites) else ToHub(k / 2, key);
  }

  lemma HubItemSays(j: Json, site: Name, i: Interface)
    requires j == HubInterface(site, i)
    ensures i.ToSpokes? ==> SpokesAt(j, i.transport, i.peers, i.routes)
    ensures i.ToHub? ==> SinglePeer(j, Setting(Hub, [i.transport]), OtherHub(site), i.transport, i.key)
  {
    match i
    case ToSpokes(t, peers, routes) => ToSpokesSays(site, t, peers, routes);
    case ToHub(t, key) => ToHubSays(site, t, key);
  }

  lemma HubEntriesSay(site: Name, body: Body, key: Name, peers: map<Name, Name>, sites: set<Name>, items: seq<Json>)
    requires SixInterfaces(body, key, peers, sites) && items == InterfaceEntries(site, body)
    ensures HubTunnels(items, OtherHub(site), key, peers, sites)
  {
    HubItem(site, body, key, peers, sites, 0);
    forall k | 0 <= k < 6
      ensures if k % 2 == 0 then SpokesAt(items[k], k / 2, peers, sites)
              else SinglePeer(items[k], Setting(Hub, [k / 2]), OtherHub(site), k / 2, key)
    {
      HubItem(site, body, key, peers, sites, k);
      HubItemSays(items[k], site, if k % 2 == 0 then ToSpokes(k / 2, peers, sites) else ToHub(k / 2, key));
    }
  }

  /** A hub's document, read field by field. */
  lemma HubDocumentSays(d: Desired, key: Name, peers: map<Name, Name>, sites: set<Name>)
    requires SixInterfaces(d.body, key, peers, sites)
    ensures HubTunnels(InterfacesIn(d), OtherHub(d.site), key, peers, sites)
  {
    InterfacesOf(d);
    HubEntriesSay(d.site, d.body, key, peers, sites, InterfacesIn(d));
  }
}
