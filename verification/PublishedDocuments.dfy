/** What a published document tells its edge, and of which state it speaks. */
module PublishedDocuments {
  import opened Basics
  import opened Json
  import opened DesiredStates
  import opened PolicyDatabase
  import opened PolicyControl
  import opened ControlPlane
  import opened ControlPlaneRuns

  predicate HasKey(sys: System, s: Name, key: Name) { ActiveKey(sys.service.db, s) == Some(key) }

  // ----- spokes

  /** On each of the three transports the first hub is the peer with its active key, and so is the second with its own,
      and the routes lead to exactly the other configured sites. */
  ghost predicate SpokeSays(d: Desired, sys: System, s: Name) {
    exists key1, key2 ::
      HasKey(sys, HUB1, key1) && HasKey(sys, HUB2, key2) &&
      SpokeTunnels(InterfacesIn(d), key1, key2, SitesOf(sys) - {s})
  }

  /** The events that build a spoke's document: a compilation while it is ACTIVE, and its activation. */
  predicate BuildsSpoke(sys: System, e: Event, s: Name) {
    var sv := sys.service;
    (e == CompileOne(s) && HubsKnown(sv.db) && ActiveKey(sv.db, s).Some? && IsActive(sys, s)) ||
    (e.ActivateSpoke? && e.site == s && e.stop >= 3 && ActivationOutcome(sv, s, e.reserved) == Activated)
  }

  /** How much of the run had passed when the spoke's document was last built; zero if it never was. */
  function LastBuilt(base: set<Name>, events: seq<Event>, s: Name): (p: nat)
    ensures p <= |events|
  {
    if events == [] then 0
    else
      var init := events[..|events| - 1];
      if BuildsSpoke(Run(base, init), events[|events| - 1], s) then |events| else LastBuilt(base, init, s)
  }

  lemma BodySays(d: Desired, sys: System, s: Name)
    requires HubsKnown(sys.service.db) && d.body == SpokeState(sys.service.db, SitesOf(sys), s)
    ensures SpokeSays(d, sys, s)
  {
    SpokeDocumentSays(d);
    assert HasKey(sys, HUB1, d.body.hub1Key) && HasKey(sys, HUB2, d.body.hub2Key);
  }

  lemma SpokeIsCompiled(sys: System, s: Name)
    requires SystemInv(sys) && !IsHub(s) && BuildsSpoke(sys, CompileOne(s), s)
    ensures var next := Step(sys, CompileOne(s));
            Published(next, s) != [] && SpokeSays(Latest(next, s), sys, s)
  {
    var vs, body := Published(sys, s), SpokeState(sys.service.db, SitesOf(sys), s);
    assert Ordered(vs, s);
    ExtendedOrdered(vs, s, body);
    BodySays(Latest(Step(sys, CompileOne(s)), s), sys, s);
  }

  lemma SpokeIsStarted(sys: System, e: Event, s: Name)
    requires e.ActivateSpoke? && BuildsSpoke(sys, e, s)
    ensures Published(Step(sys, e), s) == [FirstDocument(sys.service, s)]
    ensures SpokeSays(FirstDocument(sys.service, s), sys, s)
  {
    BodySays(FirstDocument(sys.service, s), sys, s);
  }

  lemma NotBuiltIsKept(sys: System, e: Event, s: Name)
    requires !IsHub(s) && !BuildsSpoke(sys, e, s)
    ensures Published(Step(sys, e), s) == Published(sys, s)
  {
    if !Publishes(e, s) {
      OthersKeepDocuments(sys, e, s);
    }
  }

  /** Building a document changes neither keys nor configured sites. */
  lemma BuildingIsQuiet(sys: System, e: Event, s: Name, d: Desired)
    requires BuildsSpoke(sys, e, s) && SpokeSays(d, sys, s)
    ensures SpokeSays(d, Step(sys, e), s)
  {
    var next := Step(sys, e);
    assert SitesOf(next) == SitesOf(sys);
    var key1, key2 :| HasKey(sys, HUB1, key1) && HasKey(sys, HUB2, key2) &&
      SpokeTunnels(InterfacesIn(d), key1, key2, SitesOf(sys) - {s});
    assert HasKey(next, HUB1, key1) && HasKey(next, HUB2, key2);
  }

  lemma BuiltSays(base: set<Name>, events: seq<Event>, e: Event, s: Name)
    requires SpokesOnly(base) && !IsHub(s) && BuildsSpoke(Run(base, events), e, s)
    ensures var next := Run(base, events + [e]);
            Published(next, s) != [] && SpokeSays(Latest(next, s), next, s)
  {
    var sys := Run(base, events);
    RunKeepsInv(base, events);
    RunSnoc(base, events, e);
    if e.ActivateSpoke? {
      SpokeIsStarted(sys, e, s);
    } else {
      SpokeIsCompiled(sys, s);
    }
    BuildingIsQuiet(sys, e, s, Latest(Step(sys, e), s));
  }

  /** What is known about a spoke's documents after `events`. */
  ghost predicate SpokeDocumentIs(base: set<Name>, events: seq<Event>, s: Name, p: nat)
    requires p <= |events|
  {
    var sys := Run(base, events);
    if p == 0 then Published(sys, s) == []
    else Published(sys, s) != [] && SpokeSays(Latest(sys, s), Run(base, events[..p]), s)
  }

  lemma SpokeDocumentBuilt(base: set<Name>, events: seq<Event>, e: Event, s: Name)
    requires SpokesOnly(base) && !IsHub(s) && BuildsSpoke(Run(base, events), e, s)
    ensures SpokeDocumentIs(base, events + [e], s, |events| + 1)
  {
    BuiltSays(base, events, e, s);
    assert (events + [e])[..|events| + 1] == events + [e];
  }

  lemma SpokeDocumentKept(base: set<Name>, events: seq<Event>, e: Event, s: Name, p: nat)
    requires !IsHub(s) && !BuildsSpoke(Run(base, events), e, s) && p <= |events| && SpokeDocumentIs(base, events, s, p)
    ensures SpokeDocumentIs(base, events + [e], s, p)
  {
    RunSnoc(base, events, e);
    NotBuiltIsKept(Run(base, events), e, s);
    assert Published(Run(base, events + [e]), s) == Published(Run(base, events), s);
    if p > 0 {
      SaysSince(base, events, e, s, p, Latest(Run(base, events), s));
    }
  }

  lemma SaysSince(base: set<Name>, events: seq<Event>, e: Event, s: Name, p: nat, d: Desired)
    requires p <= |events| && SpokeSays(d, Run(base, events[..p]), s)
    ensures SpokeSays(d, Run(base, (events + [e])[..p]), s)
  {
    assert (events + [e])[..p] == events[..p];
  }

  /** In every run a spoke's latest document speaks of the state in which it was last built. */
  lemma {:induction false} SpokeDocument(base: set<Name>, events: seq<Event>, s: Name)
    requires SpokesOnly(base) && !IsHub(s)
    ensures SpokeDocumentIs(base, events, s, LastBuilt(base, events, s))
  {
    if events != [] {
      var n := |events| - 1;
      var init, e := events[..n], events[n];
      assert events == init + [e];
      if BuildsSpoke(Run(base, init), e, s) {
        SpokeDocumentBuilt(base, init, e, s);
      } else {
        SpokeDocument(base, init, s);
        SpokeDocumentKept(base, init, e, s, LastBuilt(base, init, s));
      }
    }
  }

  /** In every run in which nobody requests ACTIVE, a spoke's first document carries both hubs' keys of that moment,
      each with its own hub, and routes to exactly the other configured sites. */
  lemma FirstDocumentSays(base: set<Name>, events: seq<Event>, e: Event, s: Name) returns (d: Desired)
    requires AllAllowed(base, events) && !IsHub(s)
    requires Published(Run(base, events), s) == [] && Published(Run(base, events + [e]), s) != []
    ensures Published(Run(base, events + [e]), s) == [d] && SpokeSays(d, Run(base, events), s)
  {
    HubFirst(base, events, e, s);
    RunSnoc(base, events, e);
    d := FirstDocument(Run(base, events).service, s);
    SpokeIsStarted(Run(base, events), e, s);
  }

  // ----- hubs

  /** On each of the three transports the other hub is a peer with its active key, and the spokes with active keys are
      exactly the peers of the spokes' interface, each allowed its own network, with routes to exactly the configured
      sites. There is one ownership row for each owned site, with its epoch. */
  ghost predicate HubSays(d: Desired, sys: System, hub: Name, other: Name, key: Name, peers: map<Name, Name>) {
    && IsHub(other) && other != hub && HasKey(sys, other, key)
    && (forall n, k :: n in peers && peers[n] == k <==> n in SitesOf(sys) && HasKey(sys, n, k))
    && HubTunnels(InterfacesIn(d), other, key, peers, SitesOf(sys))
    && EpochsNamed(RowsIn(d)) == sys.service.db.ownership && |RowsIn(d)| == |sys.service.db.ownership|
  }

  /** In every run a hub's latest document speaks of the state at its last compilation. */
  lemma HubDocumentIsCurrent(base: set<Name>, events: seq<Event>, hub: Name)
    returns (other: Name, key: Name, peers: map<Name, Name>)
    requires SpokesOnly(base) && IsHub(hub) && Published(Run(base, events), hub) != []
    ensures var p := LastCompile(base, events, hub);
            p > 0 && HubSays(Latest(Run(base, events), hub), Run(base, events[..p]), hub, other, key, peers)
  {
    HubDocument(base, events, hub);
    RunKeepsInv(base, events);
    var p, d := LastCompile(base, events, hub), Latest(Run(base, events), hub);
    var sys := Run(base, events[..p]);
    assert Ordered(Published(Run(base, events), hub), hub);
    other := OtherHub(hub);
    key, peers := ActiveKey(sys.service.db, other).value, PeersOf(sys.service.db, SitesOf(sys));
    HubDocumentSays(d, key, peers, SitesOf(sys));
    OwnershipSays(d);
  }
}
