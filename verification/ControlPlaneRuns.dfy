/** Hub-first activation and version safety over every run of the control plane. */
module ControlPlaneRuns {
  import opened Basics
  import opened PolicyDatabase
  import opened PolicyControl
  import opened EdgeAgent
  import opened ControlPlane

  function Start(base: set<Name>): System {
    System(Service(EMPTY_DB, map s | s in base :: ZtpStaged, base), map[], {}, {})
  }

  function Run(base: set<Name>, events: seq<Event>): System {
    if events == [] then Start(base) else Step(Run(base, events[..|events| - 1]), events[|events| - 1])
  }

  /** No spoke of the static topology has a hub's name. */
  predicate SpokesOnly(base: set<Name>) { HUB1 !in base && HUB2 !in base }

  lemma StartInv(base: set<Name>)
    requires SpokesOnly(base)
    ensures SystemInv(Start(base))
  {
    var sys := Start(base);
    assert forall s :: Published(sys, s) == [];
  }

  lemma {:induction false} RunKeepsInv(base: set<Name>, events: seq<Event>)
    requires SpokesOnly(base)
    ensures SystemInv(Run(base, events))
  {
    if events == [] {
      StartInv(base);
    } else {
      RunKeepsInv(base, events[..|events| - 1]);
      StepKeepsInv(Run(base, events[..|events| - 1]), events[|events| - 1]);
    }
  }

  lemma RunSnoc(base: set<Name>, events: seq<Event>, e: Event)
    ensures Run(base, events + [e]) == Step(Run(base, events), e)
  {
    assert (events + [e])[..|events|] == events;
  }

  // ----- version safety

  /** Nothing about site `s` is older in `late`: published documents are only appended to, the record's versions only
      grow, and no applied document is forgotten. */
  ghost predicate NotOlder(early: System, late: System, s: Name) {
    Published(early, s) <= Published(late, s) && early.mail <= late.mail &&
    EdgeOf(early, s).record.version <= EdgeOf(late, s).record.version &&
    EdgeOf(early, s).record.routeVersion <= EdgeOf(late, s).record.routeVersion &&
    EdgeOf(early, s).applied <= EdgeOf(late, s).applied
  }

  lemma NotOlderTransitive(a: System, b: System, c: System, s: Name)
    requires NotOlder(a, b, s) && NotOlder(b, c, s)
    ensures NotOlder(a, c, s)
  {
    assert Published(a, s) <= Published(b, s) <= Published(c, s);
  }

  lemma ServiceStepAppends(sys: System, e: Event, s: Name)
    requires SystemInv(sys)
    ensures NotOlder(sys, sys.(service := ServiceStep(sys.service, e)), s)
  {
    ServiceStepQuiet(sys.service, e);
  }

  lemma EdgeStepAppends(sys: System, u: Name, e: Edge, s: Name)
    requires EdgeMoves(EdgeOf(sys, u), e, Published(sys, u))
    ensures NotOlder(sys, WithEdge(sys, u, e), s)
  {
  }

  predicate OfEdge(e: Event) { e.Apply? || e.Persist? || e.SendAck? || e.Crash? }

  lemma MessageAppends(sys: System, e: Event, s: Name)
    requires SystemInv(sys) && (e.AckArrives? || e.Fetch? || e.Deliver?)
    ensures NotOlder(sys, Step(sys, e), s)
  {
    match e
    case AckArrives(m, promoted) => OthersKeepDocuments(sys, e, s);
    case Fetch(u) => OthersKeepDocuments(sys, e, s);
    case Deliver(d) =>
      if d in sys.mail {
        StartedMoves(EdgeOf(sys, d.site), Published(sys, d.site), d);
        EdgeStepAppends(sys, d.site, Started(EdgeOf(sys, d.site), d), s);
      }
  }

  lemma StepAppends(sys: System, e: Event, s: Name)
    requires SystemInv(sys)
    ensures NotOlder(sys, Step(sys, e), s)
  {
    if e.AckArrives? || e.Fetch? || e.Deliver? {
      MessageAppends(sys, e, s);
    } else if OfEdge(e) {
      OfEdgeAppends(sys, e, s);
    } else {
      ServiceStepAppends(sys, e, s);
    }
  }

  lemma OfEdgeAppends(sys: System, e: Event, s: Name)
    requires SystemInv(sys) && OfEdge(e)
    ensures NotOlder(sys, Step(sys, e), s)
  {
    match e
    case Apply(u) => EdgeEventAppends(sys, u, AppliedInFull(EdgeOf(sys, u)), false, s);
    case Persist(u) => EdgeEventAppends(sys, u, Persisted(EdgeOf(sys, u)), false, s);
    case SendAck(u) => EdgeEventAppends(sys, u, Acknowledged(EdgeOf(sys, u)), false, s);
    case Crash(u, rebooted) => EdgeEventAppends(sys, u, Crashed(EdgeOf(sys, u), rebooted), rebooted, s);
  }

  lemma EdgeEventAppends(sys: System, u: Name, after: Edge, rebooted: bool, s: Name)
    requires SystemInv(sys)
    requires var e := EdgeOf(sys, u); after in {AppliedInFull(e), Persisted(e), Acknowledged(e), Crashed(e, rebooted)}
    ensures NotOlder(sys, WithEdge(sys, u, after), s)
  {
    assert Ordered(Published(sys, u), u) && EdgeInv(EdgeOf(sys, u), Published(sys, u));
    EdgeStepsMove(EdgeOf(sys, u), Published(sys, u), u, rebooted);
    EdgeStepAppends(sys, u, after, s);
  }

  /** Over every run, an edge's recorded version and route version never decrease, and published documents are never
      changed or withdrawn, whatever the network does and wherever the service and the edges stop. */
  lemma {:induction false} NothingGoesBack(base: set<Name>, events: seq<Event>, k: nat, s: Name)
    requires SpokesOnly(base) && k <= |events|
    ensures NotOlder(Run(base, events[..k]), Run(base, events), s)
    decreases |events|
  {
    if k == |events| {
      assert events[..k] == events;
    } else {
      var n := |events| - 1;
      var init := events[..n];
      assert init[..k] == events[..k];
      NothingGoesBack(base, init, k, s);
      RunKeepsInv(base, init);
      StepAppends(Run(base, init), events[n], s);
      NotOlderTransitive(Run(base, events[..k]), Run(base, init), Run(base, events), s);
    }
  }

  /** Two deliveries of one version of one site, however far apart, carry the same document. */
  lemma RedeliveryIsIdentical(base: set<Name>, events: seq<Event>, k: nat, a: Desired, b: Desired)
    requires SpokesOnly(base) && k <= |events|
    requires a in Run(base, events[..k]).mail && b in Run(base, events).mail && a.site == b.site &&
             a.version == b.version
    ensures a == b
  {
    NothingGoesBack(base, events, k, a.site);
    RunKeepsInv(base, events);
    SameVersionSame(Published(Run(base, events), a.site), a.site, a, b);
  }

  /** Whatever the store marks VERIFIED, the edge has applied, with exactly the stored contents, and its durable record
      is at that version or a later one. */
  lemma VerifiedWasApplied(base: set<Name>, events: seq<Event>, s: Name, number: nat) returns (d: Desired)
    requires SpokesOnly(base)
    requires var db := Run(base, events).service.db; var id := VersionId(s, number);
             id in db.verified || (id in db.acks && db.acks[id].status == Verified)
    ensures var sys := Run(base, events);
            d in EdgeOf(sys, s).applied && number <= EdgeOf(sys, s).record.version && d.version == number &&
            Find(Published(sys, s), number) == Some(d)
  {
    RunKeepsInv(base, events);
    var sys := Run(base, events);
    var db, id, vs := sys.service.db, VersionId(s, number), Published(sys, s);
    assert EdgeInv(EdgeOf(sys, s), vs) && Ordered(vs, s);
    if id in db.verified {
      assert AppliedVersion(EdgeOf(sys, s), vs, number);
      d :| d in EdgeOf(sys, s).applied && d in vs && d.version == number;
    } else {
      assert AckInv(EdgeOf(sys, s), s, number, db.acks[id]);
      d := db.acks[id].digest;
    }
    var k :| 0 <= k < |vs| && vs[k] == d;
    SameVersionSame(vs, s, d, Find(vs, number).value);
  }

  // ----- version numbers

  /** A site's versions are numbered from one, without gaps. */
  ghost predicate Numbered(vs: seq<Desired>) {
    forall k :: 0 <= k < |vs| ==> vs[k].version == k + 1
  }

  lemma ExtendedIsNumbered(vs: seq<Desired>, s: Name, body: Body)
    requires Numbered(vs)
    ensures Numbered(Extended(vs, s, body))
  {
  }

  lemma CompiledIsNumbered(db: Db, inventory: map<Name, Lifecycle>, base: set<Name>, s: Name)
    requires Numbered(Versions(db.desired, s))
    ensures Numbered(CompiledFor(db, inventory, base, s))
  {
    if HubsKnown(db) {
      if IsHub(s) {
        ExtendedIsNumbered(Versions(db.desired, s), s, HubState(db, Topology(inventory, base), s));
      } else {
        ExtendedIsNumbered(Versions(db.desired, s), s, SpokeState(db, Topology(inventory, base), s));
      }
    }
  }

  lemma StepKeepsNumbers(sys: System, e: Event, s: Name)
    requires Numbered(Published(sys, s))
    ensures Numbered(Published(Step(sys, e), s))
  {
    if Publishes(e, s) {
      CompiledIsNumbered(sys.service.db, sys.service.inventory, sys.service.base, s);
    } else {
      OthersKeepDocuments(sys, e, s);
    }
  }

  /** In every run a site's documents are numbered from one, without gaps, and each is for that site, with its own
      number as its route version. */
  lemma {:induction false} VersionsAreNumbered(base: set<Name>, events: seq<Event>, s: Name)
    requires SpokesOnly(base)
    ensures var vs := Published(Run(base, events), s);
            forall k :: 0 <= k < |vs| ==> vs[k].version == vs[k].routeVersion == k + 1 && vs[k].site == s
  {
    NumbersInRun(base, events, s);
    RunKeepsInv(base, events);
    assert Ordered(Published(Run(base, events), s), s);
  }

  lemma {:induction false} NumbersInRun(base: set<Name>, events: seq<Event>, s: Name)
    ensures Numbered(Published(Run(base, events), s))
  {
    if events != [] {
      NumbersInRun(base, events[..|events| - 1], s);
      StepKeepsNumbers(Run(base, events[..|events| - 1]), events[|events| - 1], s);
    }
  }

  /** Among a site's versions, a document is stored exactly if it is newer than all, a repetition exactly if it is the
      latest itself, and otherwise a conflict: it is older, or the latest with other contents. */
  lemma PutMeaning(vs: seq<Desired>, s: Name, d: Desired)
    requires Ordered(vs, s)
    ensures PutOutcome(vs, d) == Stored <==> vs == [] || d.version > vs[|vs| - 1].version
    ensures PutOutcome(vs, d) == Repeated <==> vs != [] && d == vs[|vs| - 1]
    ensures PutOutcome(vs, d) == VersionConflict <==>
            vs != [] && (d.version < vs[|vs| - 1].version || (d.version == vs[|vs| - 1].version && d != vs[|vs| - 1]))
  {
  }

  // ----- ACTIVE

  predicate IsActive(sys: System, s: Name) {
    s in sys.service.inventory && sys.service.inventory[s] == Active
  }

  /** Every ACTIVE site has applied a document. */
  ghost predicate ActiveHasApplied(sys: System) {
    forall s :: IsActive(sys, s) ==> EdgeOf(sys, s).applied != {}
  }

  /** Operators drive sites through the lifecycle but leave ACTIVE to the acknowledgement. */
  predicate Allowed(e: Event) { e.CommitLifecycle? ==> e.to != Active }

  ghost predicate AllAllowed(base: set<Name>, events: seq<Event>) {
    SpokesOnly(base) && forall k :: 0 <= k < |events| ==> Allowed(events[k])
  }

  lemma StepKeepsActive(sys: System, e: Event)
    requires SystemInv(sys) && ActiveHasApplied(sys) && Allowed(e)
    ensures ActiveHasApplied(Step(sys, e))
  {
    forall s | IsActive(Step(sys, e), s)
      ensures EdgeOf(Step(sys, e), s).applied != {}
    {
      StepAppends(sys, e, s);
      if !IsActive(sys, s) {
        BecomingActive(sys, e, s);
      }
    }
  }

  lemma {:induction false} RunKeepsActive(base: set<Name>, events: seq<Event>)
    requires AllAllowed(base, events)
    ensures ActiveHasApplied(Run(base, events))
  {
    if events != [] {
      var n := |events| - 1;
      RunKeepsActive(base, events[..n]);
      RunKeepsInv(base, events[..n]);
      StepKeepsActive(Run(base, events[..n]), events[n]);
    }
  }

  /** In every state of every run, an ACTIVE spoke has applied one of its published documents. */
  lemma ActiveSpokeHasApplied(base: set<Name>, events: seq<Event>, s: Name) returns (d: Desired)
    requires AllAllowed(base, events)
    requires s in Run(base, events).service.inventory && Run(base, events).service.inventory[s] == Active
    ensures d in EdgeOf(Run(base, events), s).applied && d in Published(Run(base, events), s)
  {
    RunKeepsInv(base, events);
    RunKeepsActive(base, events);
    var sys := Run(base, events);
    assert EdgeInv(EdgeOf(sys, s), Published(sys, s));
    d :| d in EdgeOf(sys, s).applied;
  }

  /** A site becomes ACTIVE exactly by an explicit request that the lifecycle table permits, or when the service acts on
      an accepted VERIFIED acknowledgement for a site that waits for it; that document the edge has applied. */
  lemma BecomingActive(sys: System, e: Event, s: Name)
    requires SystemInv(sys) && !IsActive(sys, s)
    ensures IsActive(Step(sys, e), s) <==>
            (e == CommitLifecycle(s, Active) && CanTransition(sys.service, s, Active)) ||
            (e.AckArrives? && e.promoted && e.message in sys.ackMail && e.message.site == s &&
              Promotes(sys.service, e.message))
    ensures IsActive(Step(sys, e), s) && e.AckArrives? ==>
              e.message.ack.digest in EdgeOf(sys, s).applied && e.message.ack.digest in Published(sys, s)
  {
    if e.AckArrives? {
      if e.message in sys.ackMail {
        AckActivates(sys, e.message, e.promoted, s);
      }
    } else {
      ServiceActivates(sys.service, e, s);
    }
  }

  lemma AckActivates(sys: System, m: AckMessage, promoted: bool, s: Name)
    requires SystemInv(sys) && m in sys.ackMail && !IsActive(sys, s)
    ensures var after := AckTaken(sys.service, m, promoted);
            s in after.inventory && after.inventory[s] == Active <==>
              promoted && m.site == s && Promotes(sys.service, m)
    ensures Promotes(sys.service, m) ==>
              m.ack.digest in EdgeOf(sys, m.site).applied && m.ack.digest in Published(sys, m.site)
  {
    assert AckInv(EdgeOf(sys, m.site), m.site, m.number, m.ack);
  }

  lemma ServiceActivates(sv: Service, e: Event, s: Name)
    requires !(s in sv.inventory && sv.inventory[s] == Active)
    ensures var after := ServiceStep(sv, e);
            s in after.inventory && after.inventory[s] == Active <==>
              e == CommitLifecycle(s, Active) && CanTransition(sv, s, Active)
  {
  }

  // ----- hub-first activation

  /** A hub document has all three transports, each listing the spoke with this key. */
  predicate ListsPeer(b: Body, s: Name, key: Name) {
    b.HubBody? && |b.interfaces| == 6 && Carries(b.interfaces[0], 0, s, key) && Carries(b.interfaces[2], 1, s, key) &&
    Carries(b.interfaces[4], 2, s, key)
  }

  predicate Carries(i: Interface, transport: nat, s: Name, key: Name) {
    i.ToSpokes? && i.transport == transport && s in i.peers && i.peers[s] == key && s in i.routes
  }

  function Latest(sys: System, s: Name): Desired
    requires Published(sys, s) != []
  {
    Published(sys, s)[|Published(sys, s)| - 1]
  }

  /** The hub's latest document is verified, and the hub itself has applied and recorded it. */
  ghost predicate HubHolds(sys: System, hub: Name) {
    Published(sys, hub) != [] && LatestIsVerified(sys.service.db, hub) &&
      Latest(sys, hub) in EdgeOf(sys, hub).applied &&
    Latest(sys, hub).version <= EdgeOf(sys, hub).record.version
  }

  /** It also lists the spoke with its current key on all three transports. */
  ghost predicate HubReady(sys: System, hub: Name, s: Name) {
    HubHolds(sys, hub) && ActiveKey(sys.service.db, s).Some? &&
    ListsPeer(Latest(sys, hub).body, s, ActiveKey(sys.service.db, s).value)
  }

  lemma VerifiedHubHolds(sys: System, hub: Name)
    requires SystemInv(sys) && LatestIsVerified(sys.service.db, hub)
    ensures HubHolds(sys, hub)
  {
    var vs, last := Published(sys, hub), Latest(sys, hub);
    var a := sys.service.db.acks[VersionId(hub, last.version)];
    assert AckInv(EdgeOf(sys, hub), hub, last.version, a);
    assert EdgeInv(EdgeOf(sys, hub), vs) && Ordered(vs, hub);
    SameVersionSame(vs, hub, a.digest, last);
  }

  lemma SameVersionSame(vs: seq<Desired>, s: Name, a: Desired, b: Desired)
    requires Ordered(vs, s) && a in vs && b in vs && a.version == b.version
    ensures a == b
  {
    var i :| 0 <= i < |vs| && vs[i] == a;
    var j :| 0 <= j < |vs| && vs[j] == b;
  }

  /** A site's documents change only by its own compilation or activation. */
  predicate Publishes(e: Event, s: Name) {
    (e.CompileOne? || e.ActivateSpoke?) && e.site == s
  }

  lemma OthersKeepDocuments(sys: System, e: Event, s: Name)
    requires !Publishes(e, s)
    ensures Published(Step(sys, e), s) == Published(sys, s)
  {
  }

  /** From any state with the invariant, only a completed activation publishes a spoke's first document. */
  lemma FirstPublication(sys: System, e: Event, s: Name)
    requires SystemInv(sys) && ActiveHasApplied(sys) && !IsHub(s)
    requires Published(sys, s) == [] && Published(Step(sys, e), s) != []
    ensures e.ActivateSpoke? && e.site == s && e.reserved && e.stop >= 3
    ensures ActivationOutcome(sys.service, s, true) == Activated
  {
    assert EdgeInv(EdgeOf(sys, s), Published(sys, s));
    assert !IsActive(sys, s);
    if !Publishes(e, s) {
      OthersKeepDocuments(sys, e, s);
      assert false;
    }
    CompiledForFacts(sys.service.db, sys.service.inventory, sys.service.base, s);
  }

  // ----- what the hubs' documents say

  /** How much of the run had passed when the hub was last compiled with both hubs known; zero if it never was. */
  function LastCompile(base: set<Name>, events: seq<Event>, hub: Name): (p: nat)
    ensures p <= |events|
  {
    if events == [] then 0
    else
      var init := events[..|events| - 1];
      if events[|events| - 1] == CompileOne(hub) && HubsKnown(Run(base, init).service.db) then |events|
      else LastCompile(base, init, hub)
  }

  function SitesOf(sys: System): set<Name> {
    Topology(sys.service.inventory, sys.service.base)
  }

  lemma HubStateLists(db: Db, sites: set<Name>, hub: Name, s: Name, key: Name)
    requires ActiveKey(db, OtherHub(hub)).Some?
    ensures ListsPeer(HubState(db, sites, hub), s, key) <==> s in sites && ActiveKey(db, s) == Some(key)
  {
    var b := HubState(db, sites, hub);
    assert b.interfaces[0] == ToSpokes(0, PeersOf(db, sites), sites);
  }

  lemma SamePeers(a: Db, b: Db, sites: set<Name>, hub: Name)
    requires a.keys == b.keys && a.ownership == b.ownership && ActiveKey(a, OtherHub(hub)).Some?
    ensures ActiveKey(b, OtherHub(hub)).Some? && HubState(a, sites, hub) == HubState(b, sites, hub)
  {
    assert forall s :: ActiveKey(a, s) == ActiveKey(b, s);
    assert PeersOf(a, sites) == PeersOf(b, sites);
  }

  /** The body a hub gets when it is compiled in the state after `p` events. */
  ghost predicate BuiltAt(base: set<Name>, events: seq<Event>, p: nat, hub: Name, body: Body)
    requires p <= |events|
  {
    var sys := Run(base, events[..p]);
    HubsKnown(sys.service.db) && body == HubState(sys.service.db, SitesOf(sys), hub)
  }

  lemma HubStepKeepsDocument(sys: System, e: Event, hub: Name)
    requires IsHub(hub) && !(e == CompileOne(hub) && HubsKnown(sys.service.db))
    ensures Published(Step(sys, e), hub) == Published(sys, hub)
  {
    if !Publishes(e, hub) {
      OthersKeepDocuments(sys, e, hub);
    }
  }

  lemma HubCompiled(sys: System, hub: Name)
    requires SystemInv(sys) && IsHub(hub) && HubsKnown(sys.service.db)
    ensures var next := Step(sys, CompileOne(hub));
            Published(next, hub) != [] && HubsKnown(next.service.db) &&
            Latest(next, hub).body == HubState(next.service.db, SitesOf(next), hub)
  {
    var next := Step(sys, CompileOne(hub));
    assert Ordered(Published(sys, hub), hub);
    CompiledForFacts(sys.service.db, sys.service.inventory, sys.service.base, hub);
    SamePeers(sys.service.db, next.service.db, SitesOf(sys), hub);
  }

  /** What is known about a hub's documents after `events`. */
  ghost predicate DocumentIs(base: set<Name>, events: seq<Event>, hub: Name, p: nat)
    requires p <= |events|
  {
    var sys := Run(base, events);
    if p == 0 then Published(sys, hub) == []
    else Published(sys, hub) != [] && BuiltAt(base, events, p, hub, Latest(sys, hub).body)
  }

  lemma DocumentCompiled(base: set<Name>, events: seq<Event>, hub: Name)
    requires SpokesOnly(base) && IsHub(hub) && HubsKnown(Run(base, events).service.db)
    ensures DocumentIs(base, events + [CompileOne(hub)], hub, |events| + 1)
  {
    var all := events + [CompileOne(hub)];
    RunSnoc(base, events, CompileOne(hub));
    RunKeepsInv(base, events);
    HubCompiled(Run(base, events), hub);
    BuiltNow(base, all, hub);
  }

  lemma BuiltNow(base: set<Name>, all: seq<Event>, hub: Name)
    requires HubsKnown(Run(base, all).service.db)
    ensures BuiltAt(base, all, |all|, hub, HubState(Run(base, all).service.db, SitesOf(Run(base, all)), hub))
  {
    assert all[..|all|] == all;
  }

  lemma DocumentKept(base: set<Name>, events: seq<Event>, hub: Name, e: Event, p: nat)
    requires IsHub(hub) && p <= |events| && DocumentIs(base, events, hub, p)
    requires !(e == CompileOne(hub) && HubsKnown(Run(base, events).service.db))
    ensures DocumentIs(base, events + [e], hub, p)
  {
    var sys, next := Run(base, events), Run(base, events + [e]);
    RunSnoc(base, events, e);
    HubStepKeepsDocument(sys, e, hub);
    assert Published(next, hub) == Published(sys, hub);
    if p > 0 {
      BuiltBefore(base, events, e, p, hub, Latest(sys, hub).body);
    }
  }

  lemma BuiltBefore(base: set<Name>, events: seq<Event>, e: Event, p: nat, hub: Name, body: Body)
    requires p <= |events| && BuiltAt(base, events, p, hub, body)
    ensures BuiltAt(base, events + [e], p, hub, body)
  {
    assert (events + [e])[..p] == events[..p];
  }

  /** A hub's latest document is the one built at its last compilation. */
  lemma {:induction false} HubDocument(base: set<Name>, events: seq<Event>, hub: Name)
    requires SpokesOnly(base) && IsHub(hub)
    ensures DocumentIs(base, events, hub, LastCompile(base, events, hub))
  {
    if events != [] {
      var n := |events| - 1;
      var init, e := events[..n], events[n];
      assert events == init + [e];
      if e == CompileOne(hub) && HubsKnown(Run(base, init).service.db) {
        DocumentCompiled(base, init, hub);
      } else {
        HubDocument(base, init, hub);
        DocumentKept(base, init, hub, e, LastCompile(base, init, hub));
      }
    }
  }

  /** When the hub was last compiled, the spoke was configured and already had the key it has now. */
  ghost predicate Seen(base: set<Name>, events: seq<Event>, hub: Name, s: Name) {
    var p := LastCompile(base, events, hub);
    p > 0 && s in SitesOf(Run(base, events[..p])) &&
    ActiveKey(Run(base, events[..p]).service.db, s) == ActiveKey(Run(base, events).service.db, s)
  }

  lemma ListsIffSeen(base: set<Name>, events: seq<Event>, hub: Name, s: Name)
    requires SpokesOnly(base) && IsHub(hub) && ActiveKey(Run(base, events).service.db, s).Some?
    requires Published(Run(base, events), hub) != []
    ensures var sys := Run(base, events);
            ListsPeer(Latest(sys, hub).body, s, ActiveKey(sys.service.db, s).value) <==> Seen(base, events, hub, s)
  {
    HubDocument(base, events, hub);
    var past := Run(base, events[..LastCompile(base, events, hub)]);
    HubStateLists(past.service.db, SitesOf(past), hub, s, ActiveKey(Run(base, events).service.db, s).value);
  }

  /** Over every run, a spoke's first document appears only by a completed activation, when both hubs hold a verified
      latest document. That document lists the spoke's current key exactly for the hubs whose last compilation saw the
      spoke with that key: an operation that stopped before its compilation breaks the hub-first rule. */
  lemma HubFirst(base: set<Name>, events: seq<Event>, e: Event, s: Name)
    requires AllAllowed(base, events) && !IsHub(s)
    requires Published(Run(base, events), s) == [] && Published(Run(base, events + [e]), s) != []
    ensures e.ActivateSpoke? && e.site == s && e.reserved && e.stop >= 3
    ensures ActivationOutcome(Run(base, events).service, s, true) == Activated
    ensures HubHolds(Run(base, events), HUB1) && HubHolds(Run(base, events), HUB2)
    ensures HubReady(Run(base, events), HUB1, s) <==> Seen(base, events, HUB1, s)
    ensures HubReady(Run(base, events), HUB2, s) <==> Seen(base, events, HUB2, s)
  {
    RunKeepsInv(base, events);
    RunKeepsActive(base, events);
    RunSnoc(base, events, e);
    var sys := Run(base, events);
    FirstPublication(sys, e, s);
    VerifiedHubHolds(sys, HUB1);
    VerifiedHubHolds(sys, HUB2);
    ListsIffSeen(base, events, HUB1, s);
    ListsIffSeen(base, events, HUB2, s);
  }
}
