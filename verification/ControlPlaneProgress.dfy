/** What can still happen: catching up after any interruption, reaching ACTIVE, and the two ways in which a stop of the
    service between transactions does lasting harm. */
module ControlPlaneProgress {
  import opened Basics
  import opened PolicyDatabase
  import opened PolicyControl
  import opened EdgeAgent
  import opened ControlPlane
  import opened ControlPlaneRuns
  import opened ControlPlaneWhole

  ghost predicate AllowedAll(events: seq<Event>) {
    forall k :: 0 <= k < |events| ==> Allowed(events[k])
  }

  lemma AllowedConcat(base: set<Name>, events: seq<Event>, more: seq<Event>)
    requires AllAllowed(base, events) && AllowedAll(more)
    ensures AllAllowed(base, events + more)
  {
    forall k | 0 <= k < |events + more|
      ensures Allowed((events + more)[k])
    {
      if k >= |events| {
        assert (events + more)[k] == more[k - |events|];
      }
    }
  }

  lemma AllowedPrefix(base: set<Name>, events: seq<Event>, more: seq<Event>)
    requires AllAllowed(base, events + more)
    ensures AllAllowed(base, events)
  {
    forall k | 0 <= k < |events|
      ensures Allowed(events[k])
    {
      assert (events + more)[k] == events[k];
    }
  }

  lemma {:induction false} PlayKeepsInv(sys: System, events: seq<Event>)
    requires SystemInv(sys) && AllowedAll(events)
    ensures SystemInv(Play(sys, events))
    decreases |events|
  {
    if events != [] {
      StepKeepsInv(sys, events[0]);
      PlayKeepsInv(Step(sys, events[0]), events[1..]);
    }
  }

  // ----- one site catching up with its latest document

  /** No record is ahead of the latest published document. */
  lemma LatestIsNotRejected(sys: System, s: Name)
    requires SystemInv(sys) && Published(sys, s) != []
    ensures !Rejects(EdgeOf(sys, s).record, Latest(sys, s))
  {
    var r, vs := EdgeOf(sys, s).record, Published(sys, s);
    assert EdgeInv(EdgeOf(sys, s), vs) && Ordered(vs, s);
    if r.digest.Some? {
      var k :| 0 <= k < |vs| && vs[k] == r.digest.value;
    }
  }

  function VerifiedAck(d: Desired): AckMessage { AckMessage(d.site, d.version, Ack(d, d.routeVersion, Verified)) }

  /** Whatever the edge was doing stops; it fetches its latest document, applies and records it, and answers. */
  function Reconciliation(d: Desired): seq<Event> {
    [Crash(d.site, false), Fetch(d.site), Deliver(d), Apply(d.site), Persist(d.site), SendAck(d.site)]
  }

  function CatchUp(sys: System, s: Name): seq<Event>
    requires Published(sys, s) != []
  {
    Reconciliation(Latest(sys, s)) + [AckArrives(VerifiedAck(Latest(sys, s)), true)]
  }

  lemma EdgeReconciles(e: Edge, d: Desired)
    requires !Rejects(e.record, d)
    ensures var after := Persisted(AppliedInFull(Started(Crashed(e, false), d)));
            after.stage == Finished(d, Verified) && Matches(after.record, d) && after.kernel == Runs(d) &&
              d in after.applied
  {
  }

  /** Where an edge stands after an uninterrupted reconciliation. */
  ghost predicate Reconciles(sys: System, next: System, d: Desired) {
    next.service == sys.service && VerifiedAck(d) in next.ackMail && next.edges.Keys == sys.edges.Keys + {d.site} &&
    (forall u :: u != d.site && u in sys.edges ==> next.edges[u] == sys.edges[u]) &&
    EdgeOf(next, d.site).kernel == Runs(d) && Matches(EdgeOf(next, d.site).record, d)
  }

  /** Interruption, fetch and start. */
  lemma StartsReconciling(sys: System, d: Desired) returns (next: System)
    requires Published(sys, d.site) != [] && d == Latest(sys, d.site)
    ensures next == Step(Step(Step(sys, Crash(d.site, false)), Fetch(d.site)), Deliver(d))
    ensures next == WithEdge(sys, d.site, Started(Crashed(EdgeOf(sys, d.site), false), d)).(mail := sys.mail + {d})
  {
    var s := d.site;
    var s1 := Step(sys, Crash(s, false));
    var s2 := Step(s1, Fetch(s));
    assert Published(s1, s) == Published(sys, s);
    next := Step(s2, Deliver(d));
  }

  /** Application, record and answer. */
  lemma FinishesReconciling(sys: System, s: Name) returns (next: System)
    requires s in sys.edges
    ensures next == Step(Step(Step(sys, Apply(s)), Persist(s)), SendAck(s))
    ensures var e := Persisted(AppliedInFull(sys.edges[s]));
            next == WithEdge(sys, s, Acknowledged(e)).(ackMail := sys.ackMail + AnswerOf(e))
  {
    var s1 := Step(sys, Apply(s));
    var s2 := Step(s1, Persist(s));
    next := Step(s2, SendAck(s));
  }

  lemma ReconciliationPlays(sys: System, d: Desired)
    requires Published(sys, d.site) != [] && d == Latest(sys, d.site) && !Rejects(EdgeOf(sys, d.site).record, d)
    ensures Reconciles(sys, Play(sys, Reconciliation(d)), d)
  {
    var s := d.site;
    var mid := StartsReconciling(sys, d);
    var next := FinishesReconciling(mid, s);
    EdgeReconciles(EdgeOf(sys, s), d);
    PlaySix(sys, Crash(s, false), Fetch(s), Deliver(d), Apply(s), Persist(s), SendAck(s));
    assert Play(sys, Reconciliation(d)) == next;
  }

  lemma PlaySix(sys: System, a: Event, b: Event, c: Event, d: Event, e: Event, f: Event)
    ensures Play(sys, [a, b, c, d, e, f]) == Step(Step(Step(Step(Step(Step(sys, a), b), c), d), e), f)
  {
    assert [a, b, c, d, e, f] == [a] + ([b] + ([c] + ([d] + ([e] + [f]))));
    PlayCons(sys, a, [b] + ([c] + ([d] + ([e] + [f]))));
    PlayCons(Step(sys, a), b, [c] + ([d] + ([e] + [f])));
    PlayCons(Step(Step(sys, a), b), c, [d] + ([e] + [f]));
    PlayCons(Step(Step(Step(sys, a), b), c), d, [e] + [f]);
    PlayCons(Step(Step(Step(Step(sys, a), b), c), d), e, [f]);
    PlayOne(Step(Step(Step(Step(Step(sys, a), b), c), d), e), f);
  }

  lemma PlayCons(sys: System, e: Event, rest: seq<Event>)
    ensures Play(sys, [e] + rest) == Play(Step(sys, e), rest)
  {
    assert ([e] + rest)[1..] == rest;
  }

  /** From any state with the invariant, a site that reconciles ends up running and having recorded its latest document,
      and the service takes its acknowledgement as VERIFIED. */
  lemma CatchUpAcknowledges(sys: System, s: Name)
    requires SystemInv(sys) && Published(sys, s) != []
    ensures var d, next := Latest(sys, s), Play(sys, CatchUp(sys, s));
            && next.service == AckTaken(sys.service, VerifiedAck(d), true) && AllowedAll(CatchUp(sys, s))
            && EdgeOf(next, s).kernel == Runs(d) && Matches(EdgeOf(next, s).record, d)
            && forall u :: u != s ==> EdgeOf(next, u) == EdgeOf(sys, u)
  {
    var d := Latest(sys, s);
    assert Ordered(Published(sys, s), s);
    LatestIsNotRejected(sys, s);
    ReconciliationPlays(sys, d);
    var e := AckArrives(VerifiedAck(d), true);
    PlayConcat(sys, Reconciliation(d), [e]);
    PlayOne(Play(sys, Reconciliation(d)), e);
  }

  /** `after` differs from `before` in acknowledgements alone, and verified documents stay verified. */
  ghost predicate OnlyAcks(before: Service, after: Service) {
    after == before.(db := before.db.(acks := after.db.acks, verified := after.db.verified)) &&
    forall h :: LatestIsVerified(before.db, h) ==> LatestIsVerified(after.db, h)
  }

  lemma HubAckOnly(sv: Service, hub: Name)
    requires ServiceInv(sv) && IsHub(hub) && Versions(sv.db.desired, hub) != []
    ensures var d := Versions(sv.db.desired, hub)[|Versions(sv.db.desired, hub)| - 1];
            var after := AckTaken(sv, VerifiedAck(d), true);
            OnlyAcks(sv, after) && LatestIsVerified(after.db, hub)
  {
    assert Ordered(Versions(sv.db.desired, hub), hub);
  }

  lemma HubCatchesUp(sys: System, hub: Name)
    requires SystemInv(sys) && IsHub(hub) && Published(sys, hub) != []
    ensures var next := Play(sys, CatchUp(sys, hub));
            && OnlyAcks(sys.service, next.service) && LatestIsVerified(next.service.db, hub) &&
              AllowedAll(CatchUp(sys, hub))
            && forall u :: u != hub ==> EdgeOf(next, u) == EdgeOf(sys, u)
  {
    CatchUpAcknowledges(sys, hub);
    HubAckOnly(sys.service, hub);
  }

  lemma OnlyAcksTransitive(a: Service, b: Service, c: Service)
    requires OnlyAcks(a, b) && OnlyAcks(b, c)
    ensures OnlyAcks(a, c)
  {
  }

  lemma BothHubsCatchUp(sys: System) returns (more: seq<Event>)
    requires SystemInv(sys) && Published(sys, HUB1) != [] && Published(sys, HUB2) != []
    ensures AllowedAll(more) && OnlyAcks(sys.service, Play(sys, more).service)
    ensures LatestIsVerified(Play(sys, more).service.db, HUB1) && LatestIsVerified(Play(sys, more).service.db, HUB2)
    ensures forall u :: !IsHub(u) ==> EdgeOf(Play(sys, more), u) == EdgeOf(sys, u)
  {
    var first := CatchUp(sys, HUB1);
    HubCatchesUp(sys, HUB1);
    PlayKeepsInv(sys, first);
    var mid := Play(sys, first);
    assert Published(mid, HUB2) == Published(sys, HUB2);
    var second := CatchUp(mid, HUB2);
    HubCatchesUp(mid, HUB2);
    PlayConcat(sys, first, second);
    OnlyAcksTransitive(sys.service, mid.service, Play(mid, second).service);
    more := first + second;
  }

  // ----- activation

  /** The site and both hubs have keys, and the site is configured but has no document yet. */
  ghost predicate CanStart(sys: System, s: Name) {
    !IsHub(s) && HubsKnown(sys.service.db) && ActiveKey(sys.service.db, s).Some? && s in SitesOf(sys) &&
      Published(sys, s) == []
  }

  /** Two services that agree on everything activation looks at except documents and acknowledgements. */
  ghost predicate SameInputs(a: Service, b: Service) {
    b.inventory == a.inventory && b.base == a.base && b.db.keys == a.db.keys && b.db.leases == a.db.leases
  }

  /** Both hubs are compiled, and nothing else changes. */
  ghost predicate HubsCompiledFrom(sys: System, next: System) {
    SystemInv(next) && SameInputs(sys.service, next.service) && HubsKnown(next.service.db) && next.edges == sys.edges &&
    (forall u :: !IsHub(u) ==> Published(next, u) == Published(sys, u)) &&
    Published(next, HUB1) != [] && Latest(next, HUB1).body == HubState(next.service.db, SitesOf(next), HUB1) &&
    Published(next, HUB2) != [] && Latest(next, HUB2).body == HubState(next.service.db, SitesOf(next), HUB2)
  }

  lemma HubsCompile(sys: System) returns (plan: seq<Event>)
    requires SystemInv(sys) && HubsKnown(sys.service.db)
    ensures AllowedAll(plan) && HubsCompiledFrom(sys, Play(sys, plan))
  {
    var a, b := CompileOne(HUB1), CompileOne(HUB2);
    BothCompiled(sys, Step(sys, a));
    PlayCons(sys, a, [b]);
    PlayOne(Step(sys, a), b);
    plan := [a] + [b];
  }

  lemma BothCompiled(sys: System, mid: System)
    requires SystemInv(sys) && HubsKnown(sys.service.db) && mid == Step(sys, CompileOne(HUB1))
    ensures HubsCompiledFrom(sys, Step(mid, CompileOne(HUB2)))
  {
    var a, b := CompileOne(HUB1), CompileOne(HUB2);
    var next := Step(mid, b);
    StepKeepsInv(sys, a);
    StepKeepsInv(mid, b);
    HubCompiled(sys, HUB1);
    HubCompiled(mid, HUB2);
    OthersKeepDocuments(mid, b, HUB1);
    SamePeers(mid.service.db, next.service.db, SitesOf(mid), HUB1);
    SpokesKept(sys, mid, next);
  }

  lemma SpokesKept(sys: System, mid: System, next: System)
    requires mid == Step(sys, CompileOne(HUB1)) && next == Step(mid, CompileOne(HUB2))
    ensures forall u :: !IsHub(u) ==> Published(next, u) == Published(sys, u)
  {
    forall u | !IsHub(u)
      ensures Published(next, u) == Published(sys, u)
    {
      OthersKeepDocuments(sys, CompileOne(HUB1), u);
      OthersKeepDocuments(mid, CompileOne(HUB2), u);
    }
  }

  lemma ReadyIsActivated(sys: System, s: Name)
    requires CanStart(sys, s) && s !in sys.service.db.leases
    requires LatestIsVerified(sys.service.db, HUB1) && LatestIsVerified(sys.service.db, HUB2)
    ensures var next := Step(sys, ActivateSpoke(s, true, 3));
            Published(next, s) != [] && next.service.inventory == sys.service.inventory && next.edges == sys.edges &&
            s in next.service.db.ownership
  {
  }

  lemma NothingAppliedBefore(sys: System, s: Name)
    requires SystemInv(sys) && Published(sys, s) == []
    ensures EdgeOf(sys, s).applied == {}
  {
    assert EdgeInv(EdgeOf(sys, s), Published(sys, s));
    forall d | d in EdgeOf(sys, s).applied
      ensures false
    {
    }
  }

  lemma StillCanStart(a: System, b: System, s: Name)
    requires CanStart(a, s) && OnlyAcks(a.service, b.service)
    ensures CanStart(b, s) && SameInputs(a.service, b.service)
  {
  }

  /** Compile both hubs, let them catch up, activate. */
  lemma SpokeIsActivated(sys: System, s: Name) returns (more: seq<Event>)
    requires SystemInv(sys) && CanStart(sys, s) && s !in sys.service.db.leases
    ensures AllowedAll(more) && Published(Play(sys, more), s) != [] && EdgeOf(Play(sys, more), s).applied == {}
    ensures Play(sys, more).service.inventory == sys.service.inventory && s in Play(sys, more).service.db.ownership
  {
    var first := HubsMadeReady(sys, s);
    var ready, e := Play(sys, first), ActivateSpoke(s, true, 3);
    ReadyIsActivated(ready, s);
    PlayConcat(sys, first, [e]);
    PlayOne(ready, e);
    NothingAppliedBefore(sys, s);
    more := first + [e];
  }

  lemma HubsMadeReady(sys: System, s: Name) returns (more: seq<Event>)
    requires SystemInv(sys) && CanStart(sys, s)
    ensures var ready := Play(sys, more);
            && AllowedAll(more) && CanStart(ready, s) && SameInputs(sys.service, ready.service) &&
              EdgeOf(ready, s) == EdgeOf(sys, s)
            && LatestIsVerified(ready.service.db, HUB1) && LatestIsVerified(ready.service.db, HUB2)
  {
    var compile := HubsCompile(sys);
    var compiled := Play(sys, compile);
    assert CanStart(compiled, s);
    var hubs := BothHubsCatchUp(compiled);
    StillCanStart(compiled, Play(compiled, hubs), s);
    PlayConcat(sys, compile, hubs);
    more := compile + hubs;
  }

  // ----- leases

  /** Leases are never given back. */
  lemma {:induction false} LeasesStay(base: set<Name>, events: seq<Event>, more: seq<Event>, s: Name)
    requires AllAllowed(base, events + more) && !IsHub(s)
    requires s in Run(base, events).service.db.leases && Published(Run(base, events), s) == []
    ensures s in Run(base, events + more).service.db.leases && Published(Run(base, events + more), s) == []
    decreases |more|
  {
    if more == [] {
      assert events + more == events;
    } else {
      var n := |more| - 1;
      var init, e := more[..n], more[n];
      assert events + more == (events + init) + [e];
      AllowedPrefix(base, events + init, [e]);
      LeasesStay(base, events, init, s);
      var sys := Run(base, events + init);
      RunSnoc(base, events + init, e);
      RunKeepsInv(base, events + init);
      RunKeepsActive(base, events + init);
      StuckStep(sys, e, s);
    }
  }

  lemma StuckStep(sys: System, e: Event, s: Name)
    requires SystemInv(sys) && ActiveHasApplied(sys) && !IsHub(s) && s in sys.service.db.leases &&
             Published(sys, s) == []
    ensures s in Step(sys, e).service.db.leases && Published(Step(sys, e), s) == []
  {
    if Published(Step(sys, e), s) != [] {
      FirstPublication(sys, e, s);
    }
  }

  /** From a state in which a site could start, some continuation publishes its first document exactly if it holds no
      leases: an activation that stopped after reserving them blocks the site for good. */
  lemma ActivationIsReachable(base: set<Name>, events: seq<Event>, s: Name)
    requires AllAllowed(base, events) && CanStart(Run(base, events), s)
    ensures (exists more :: AllAllowed(base, events + more) && Published(Run(base, events + more), s) != []) <==>
            s !in Run(base, events).service.db.leases
  {
    var sys := Run(base, events);
    if s !in sys.service.db.leases {
      RunKeepsInv(base, events);
      var more := SpokeIsActivated(sys, s);
      RunThenPlay(base, events, more);
      AllowedConcat(base, events, more);
    } else {
      forall more | AllAllowed(base, events + more)
        ensures Published(Run(base, events + more), s) == []
      {
        LeasesStay(base, events, more, s);
      }
    }
  }

  // ----- ACTIVE is reachable

  lemma WaitingSpokeBecomesActive(sys: System, s: Name)
    requires SystemInv(sys) && Published(sys, s) != []
    requires s in sys.service.inventory && sys.service.inventory[s] in {Provisioning, Reconciling}
    ensures IsActive(Play(sys, CatchUp(sys, s)), s) && AllowedAll(CatchUp(sys, s))
  {
    CatchUpAcknowledges(sys, s);
    LatestAckPromotes(sys.service, s);
  }

  lemma LatestAckPromotes(sv: Service, s: Name)
    requires ServiceInv(sv) && Versions(sv.db.desired, s) != [] && s in sv.inventory &&
             sv.inventory[s] in {Provisioning, Reconciling}
    ensures var vs := Versions(sv.db.desired, s);
            var after := AckTaken(sv, VerifiedAck(vs[|vs| - 1]), true);
            s in after.inventory && after.inventory[s] == Active
  {
    var vs := Versions(sv.db.desired, s);
    assert Ordered(vs, s);
    assert AckAccepted(sv.db, s, vs[|vs| - 1].version, vs[|vs| - 1]);
  }

  /** From every state of every run, wherever service and edges were interrupted, a provisioned spoke that could start
      and holds no leases can be taken to ACTIVE. */
  lemma ActiveIsReachable(base: set<Name>, events: seq<Event>, s: Name) returns (more: seq<Event>)
    requires AllAllowed(base, events) && CanStart(Run(base, events), s) && s !in Run(base, events).service.db.leases
    requires s in Run(base, events).service.inventory
    requires Run(base, events).service.inventory[s] in {Provisioning, Reconciling}
    ensures AllAllowed(base, events + more) && IsActive(Run(base, events + more), s)
  {
    RunKeepsInv(base, events);
    var sys := Run(base, events);
    var first := SpokeIsActivated(sys, s);
    PlayKeepsInv(sys, first);
    var mid := Play(sys, first);
    var second := CatchUp(mid, s);
    WaitingSpokeBecomesActive(mid, s);
    more := first + second;
    PlayConcat(sys, first, second);
    RunThenPlay(base, events, more);
    AllowedConcat(base, events, more);
  }

  // ----- from a fresh start

  /** Keys and lifecycle after the hubs' keys have been committed. */
  ghost predicate HubsRegistered(base: set<Name>, sys: System) {
    HubsKnown(sys.service.db) && sys.service.base == base &&
      sys.service.inventory == (map u | u in base :: ZtpStaged) &&
    (forall s :: !IsHub(s) ==> RowsOf(sys.service.db, s) == NO_KEYS) &&
    (forall s :: Published(sys, s) == []) && sys.service.db.leases == {} && sys.edges == map[]
  }

  lemma RegisterHubs(base: set<Name>, a: Name, b: Name) returns (events: seq<Event>)
    requires SpokesOnly(base)
    ensures AllAllowed(base, events) && HubsRegistered(base, Run(base, events))
  {
    var e1, e2 := CommitKey(HUB1, a), CommitKey(HUB2, b);
    RunSnoc(base, [], e1);
    RunSnoc(base, [e1], e2);
    assert [] + [e1] == [e1] && [e1] + [e2] == [e1, e2];
    events := [e1, e2];
  }

  lemma StagedIsKnown(base: set<Name>, inventory: map<Name, Lifecycle>, s: Name)
    requires s in base && s in inventory && IsConfigured(inventory[s])
    ensures s in Topology(inventory, base)
  {
  }

  /** What registering a spoke's first key does, if the service stops right after committing it. */
  lemma KeyOnly(base: set<Name>, sys: System, s: Name, key: Name)
    requires HubsRegistered(base, sys) && s in base && !IsHub(s)
    ensures var next := Step(sys, CommitKey(s, key));
            && next == sys.(service := sys.service.(db := sys.service.db.(keys := next.service.db.keys)))
            && next.service.db.keys == sys.service.db.keys[s := KeyRows(Some(KeyRow(1, key)), None)]
            && CanStart(next, s)
  {
    StagedIsKnown(base, sys.service.inventory, s);
    assert Published(Step(sys, CommitKey(s, key)), s) == Published(sys, s);
  }

  /** A configured site of the static topology that can start and stands at `at`. */
  ghost predicate StandsAt(sys: System, s: Name, at: Lifecycle) {
    CanStart(sys, s) && s in sys.service.base && s in sys.service.inventory && sys.service.inventory[s] == at
  }

  lemma MoveOn(base: set<Name>, events: seq<Event>, s: Name, from: Lifecycle, to: Lifecycle)
    returns (longer: seq<Event>)
    requires AllAllowed(base, events) && StandsAt(Run(base, events), s, from)
    requires InTransitionTable(from, to) && IsConfigured(to) && to != Active
    ensures AllAllowed(base, longer) && StandsAt(Run(base, longer), s, to)
    ensures Run(base, longer).service.db == Run(base, events).service.db
  {
    var e := CommitLifecycle(s, to);
    longer := events + [e];
    RunSnoc(base, events, e);
    AllowedConcat(base, events, [e]);
    StagedIsKnown(Run(base, longer).service.base, Run(base, longer).service.inventory, s);
  }

  lemma Provision(base: set<Name>, events: seq<Event>, s: Name) returns (longer: seq<Event>)
    requires AllAllowed(base, events) && StandsAt(Run(base, events), s, ZtpStaged)
    ensures AllAllowed(base, longer) && StandsAt(Run(base, longer), s, Provisioning)
    ensures Run(base, longer).service.db == Run(base, events).service.db
  {
    longer := MoveOn(base, events, s, ZtpStaged, Enrolling);
    longer := MoveOn(base, longer, s, Enrolling, Enrolled);
    longer := MoveOn(base, longer, s, Enrolled, Registering);
    longer := MoveOn(base, longer, s, Registering, Provisioning);
  }

  lemma RegisterSpoke(base: set<Name>, s: Name, a: Name, b: Name, c: Name) returns (events: seq<Event>)
    requires SpokesOnly(base) && s in base
    ensures AllAllowed(base, events) && CanStart(Run(base, events), s) && s !in Run(base, events).service.db.leases
    ensures s in Run(base, events).service.inventory && Run(base, events).service.inventory[s] == Provisioning
  {
    var hubs := RegisterHubs(base, a, b);
    var e := CommitKey(s, c);
    RunSnoc(base, hubs, e);
    KeyOnly(base, Run(base, hubs), s, c);
    AllowedConcat(base, hubs, [e]);
    events := Provision(base, hubs + [e], s);
  }

  /** So every site of the topology can be taken from a fresh start to ACTIVE. */
  lemma EverySiteCanBecomeActive(base: set<Name>, s: Name, a: Name, b: Name, c: Name) returns (events: seq<Event>)
    requires SpokesOnly(base) && s in base
    ensures AllAllowed(base, events) && IsActive(Run(base, events), s)
  {
    var first := RegisterSpoke(base, s, a, b, c);
    var more := ActiveIsReachable(base, first, s);
    events := first + more;
  }

  // ----- the two failures

  /** The hubs are verified on documents that do not list the spoke, which has no key yet. */
  ghost predicate SettledWithout(base: set<Name>, sys: System, s: Name) {
    LatestIsVerified(sys.service.db, HUB1) && LatestIsVerified(sys.service.db, HUB2) && HubsKnown(sys.service.db) &&
    sys.service.base == base && sys.service.inventory == (map u | u in base :: ZtpStaged) &&
    RowsOf(sys.service.db, s) == NO_KEYS && Published(sys, s) == [] && s !in sys.service.db.leases && NotListed(sys, s)
  }

  ghost predicate NotListed(sys: System, s: Name)
    requires Published(sys, HUB1) != [] && Published(sys, HUB2) != []
  {
    Omits(Latest(sys, HUB1).body, s) && Omits(Latest(sys, HUB2).body, s)
  }

  ghost predicate Omits(b: Body, s: Name) {
    forall key :: !ListsPeer(b, s, key)
  }

  lemma SettleHubs(base: set<Name>, sys: System, s: Name) returns (more: seq<Event>)
    requires SystemInv(sys) && HubsRegistered(base, sys) && s in base && !IsHub(s)
    ensures AllowedAll(more) && SettledWithout(base, Play(sys, more), s)
  {
    var compile := HubsCompile(sys);
    var compiled := Play(sys, compile);
    CompiledWithout(compiled, s);
    var hubs := BothHubsCatchUp(compiled);
    PlayConcat(sys, compile, hubs);
    SettledAfterAcks(base, sys, compiled, Play(compiled, hubs), s);
    more := compile + hubs;
  }

  lemma SettledAfterAcks(base: set<Name>, sys: System, compiled: System, after: System, s: Name)
    requires HubsRegistered(base, sys) && SameInputs(sys.service, compiled.service) && !IsHub(s)
    requires Published(compiled, s) == Published(sys, s) && Published(compiled, HUB1) != [] &&
             Published(compiled, HUB2) != []
    requires NotListed(compiled, s) && OnlyAcks(compiled.service, after.service)
    requires LatestIsVerified(after.service.db, HUB1) && LatestIsVerified(after.service.db, HUB2)
    ensures SettledWithout(base, after, s)
  {
    assert RowsOf(sys.service.db, s) == NO_KEYS;
    assert Published(after, HUB1) == Published(compiled, HUB1) && Published(after, HUB2) == Published(compiled, HUB2);
  }

  lemma HubsSettled(base: set<Name>, a: Name, b: Name, s: Name) returns (events: seq<Event>)
    requires SpokesOnly(base) && s in base
    ensures AllAllowed(base, events) && SettledWithout(base, Run(base, events), s)
  {
    var first := RegisterHubs(base, a, b);
    RunKeepsInv(base, first);
    var more := SettleHubs(base, Run(base, first), s);
    RunThenPlay(base, first, more);
    AllowedConcat(base, first, more);
    events := first + more;
  }

  /** Documents compiled while a site has no key do not list it. */
  lemma CompiledWithout(sys: System, s: Name)
    requires HubsKnown(sys.service.db) && RowsOf(sys.service.db, s) == NO_KEYS
    requires Published(sys, HUB1) != [] && Latest(sys, HUB1).body == HubState(sys.service.db, SitesOf(sys), HUB1)
    requires Published(sys, HUB2) != [] && Latest(sys, HUB2).body == HubState(sys.service.db, SitesOf(sys), HUB2)
    ensures NotListed(sys, s)
  {
    forall key
      ensures !ListsPeer(Latest(sys, HUB1).body, s, key) && !ListsPeer(Latest(sys, HUB2).body, s, key)
    {
      HubStateLists(sys.service.db, SitesOf(sys), HUB1, s, key);
      HubStateLists(sys.service.db, SitesOf(sys), HUB2, s, key);
    }
  }

  /** The service commits the spoke's key, stops, and restarts, which compiles nothing. */
  lemma StopAfterKey(base: set<Name>, s: Name, a: Name, b: Name, c: Name) returns (events: seq<Event>)
    requires SpokesOnly(base) && s in base
    ensures AllAllowed(base, events) && CanStart(Run(base, events), s) && s !in Run(base, events).service.db.leases
    ensures LatestIsVerified(Run(base, events).service.db, HUB1) && LatestIsVerified(Run(base, events).service.db, HUB2)
    ensures NotListed(Run(base, events), s)
  {
    var first := HubsSettled(base, a, b, s);
    var keyed := first + [CommitKey(s, c)];
    RunSnoc(base, first, CommitKey(s, c));
    events := keyed + [RestartService];
    RunSnoc(base, keyed, RestartService);
    StoppedRegistration(base, Run(base, first), s, c);
    AllowedConcat(base, first, [CommitKey(s, c)]);
    AllowedConcat(base, keyed, [RestartService]);
  }

  lemma StoppedRegistration(base: set<Name>, sys: System, s: Name, c: Name)
    requires s in base && !IsHub(s) && SettledWithout(base, sys, s)
    ensures var next := Step(Step(sys, CommitKey(s, c)), RestartService);
            && CanStart(next, s) && s !in next.service.db.leases
            && LatestIsVerified(next.service.db, HUB1) && LatestIsVerified(next.service.db, HUB2)
            && NotListed(next, s)
  {
    StagedIsKnown(base, sys.service.inventory, s);
    var next := Step(Step(sys, CommitKey(s, c)), RestartService);
    assert next.service.inventory == sys.service.inventory;
    assert Published(next, HUB1) == Published(sys, HUB1) && Published(next, HUB2) == Published(sys, HUB2);
    assert Published(next, s) == Published(sys, s);
  }

  /** A run that breaks the hub-first rule: after that stop both hubs are still verified, on documents without the
      spoke, and activation publishes. */
  lemma StoppedRegistrationBreaksHubFirst(base: set<Name>, s: Name, a: Name, b: Name, c: Name)
    returns (events: seq<Event>, e: Event)
    requires SpokesOnly(base) && s in base
    ensures AllAllowed(base, events) && Published(Run(base, events), s) == [] &&
            Published(Run(base, events + [e]), s) != []
    ensures !HubReady(Run(base, events), HUB1, s) && !HubReady(Run(base, events), HUB2, s)
  {
    events := StopAfterKey(base, s, a, b, c);
    e := ActivateSpoke(s, true, 3);
    ReadyIsActivated(Run(base, events), s);
    RunSnoc(base, events, e);
  }

  lemma StoppedActivation(sys: System, s: Name)
    requires CanStart(sys, s) && s !in sys.service.db.leases
    requires LatestIsVerified(sys.service.db, HUB1) && LatestIsVerified(sys.service.db, HUB2)
    ensures var next := Step(sys, ActivateSpoke(s, true, 1)); CanStart(next, s) && s in next.service.db.leases
  {
  }

  /** A run that blocks a site for good: the service stops after reserving the site's leases. */
  lemma StoppedActivationBlocks(base: set<Name>, s: Name, a: Name, b: Name, c: Name) returns (events: seq<Event>)
    requires SpokesOnly(base) && s in base
    ensures AllAllowed(base, events) && CanStart(Run(base, events), s)
    ensures forall more :: AllAllowed(base, events + more) ==> Published(Run(base, events + more), s) == []
  {
    var keyed := StopAfterKey(base, s, a, b, c);
    var e := ActivateSpoke(s, true, 1);
    StoppedActivation(Run(base, keyed), s);
    RunSnoc(base, keyed, e);
    AllowedConcat(base, keyed, [e]);
    events := keyed + [e];
    forall more | AllAllowed(base, events + more)
      ensures Published(Run(base, events + more), s) == []
    {
      LeasesStay(base, events, more, s);
    }
  }

  /** Why ACTIVE must be left to the acknowledgement: a run in which an explicit request, which the lifecycle table
      permits, makes a spoke ACTIVE with nothing published. */
  lemma TableAloneAllowsBareActivation(base: set<Name>, s: Name, a: Name, b: Name, c: Name) returns (events: seq<Event>)
    requires SpokesOnly(base) && s in base
    ensures IsActive(Run(base, events), s) && Published(Run(base, events), s) == []
  {
    var first := RegisterSpoke(base, s, a, b, c);
    var e := CommitLifecycle(s, Active);
    RunSnoc(base, first, e);
    OthersKeepDocuments(Run(base, first), e, s);
    events := first + [e];
  }
}
