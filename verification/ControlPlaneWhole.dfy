/** Operations of the service as sequences of transactions, and what completed operations guarantee. */
module ControlPlaneWhole {
  import opened Basics
  import opened PolicyDatabase
  import opened PolicyControl
  import opened ControlPlane
  import opened ControlPlaneRuns

  function Play(sys: System, events: seq<Event>): System
    decreases |events|
  {
    if events == [] then sys else Play(Step(sys, events[0]), events[1..])
  }

  lemma {:induction false} RunThenPlay(base: set<Name>, events: seq<Event>, more: seq<Event>)
    ensures Run(base, events + more) == Play(Run(base, events), more)
    decreases |more|
  {
    if more == [] {
      assert events + more == events;
    } else {
      assert events + more == (events + [more[0]]) + more[1..];
      RunThenPlay(base, events + [more[0]], more[1..]);
      RunSnoc(base, events, more[0]);
    }
  }

  lemma {:induction false} PlayConcat(sys: System, a: seq<Event>, b: seq<Event>)
    ensures Play(sys, a + b) == Play(Play(sys, a), b)
    decreases |a|
  {
    if a == [] {
      assert a + b == b;
    } else {
      assert (a + b)[0] == a[0] && (a + b)[1..] == a[1..] + b;
      PlayConcat(Step(sys, a[0]), a[1..], b);
    }
  }

  lemma PlayOne(sys: System, e: Event)
    ensures Play(sys, [e]) == Step(sys, e)
  {
    assert [e][1..] == [];
  }

  // ----- compilation is one transaction per site

  function CompilePlan(order: seq<Name>): (plan: seq<Event>)
    ensures |plan| == |order|
  {
    if order == [] then [] else [CompileOne(order[0])] + CompilePlan(order[1..])
  }

  function CompiledSites(sv: Service): set<Name> {
    sv.db.desired.Keys + sv.inventory.Keys + {HUB1, HUB2}
  }

  /** `order` lists every site that compilation visits, once. */
  ghost predicate Visits(order: seq<Name>, sv: Service) {
    ToSet(order) == CompiledSites(sv) && Distinct(order)
  }

  lemma DistinctTail(order: seq<Name>)
    requires order != [] && Distinct(order)
    ensures order[0] !in ToSet(order[1..]) && Distinct(order[1..])
  {
    ToSetMeaning(order[1..]);
  }

  /** Compiling one site leaves what compilation makes of the others. */
  lemma CompileOneIsLocal(sv: Service, a: Name, s: Name)
    requires s != a
    ensures var next := CompileOneOf(sv, a);
            CompiledFor(next.db, next.inventory, next.base, s) == CompiledFor(sv.db, sv.inventory, sv.base, s)
  {
    var next := CompileOneOf(sv, a);
    if HubsKnown(sv.db) {
      SamePeers(sv.db, next.db, Topology(sv.inventory, sv.base), HUB1);
      SamePeers(sv.db, next.db, Topology(sv.inventory, sv.base), HUB2);
    }
  }

  function CompiledMap(sv: Service, sites: set<Name>): map<Name, seq<Desired>> {
    map s | s in sites :: CompiledFor(sv.db, sv.inventory, sv.base, s)
  }

  function WithCompiled(sv: Service, sites: set<Name>): Service {
    sv.(db := sv.db.(desired := sv.db.desired + CompiledMap(sv, sites)))
  }

  lemma CompiledMapIsLocal(sv: Service, a: Name, sites: set<Name>)
    requires a !in sites
    ensures CompiledMap(CompileOneOf(sv, a), sites) == CompiledMap(sv, sites)
  {
    forall s | s in sites
      ensures CompiledMap(CompileOneOf(sv, a), sites)[s] == CompiledMap(sv, sites)[s]
    {
      CompileOneIsLocal(sv, a, s);
    }
  }

  lemma CompiledMapAdds(sv: Service, a: Name, sites: set<Name>)
    ensures CompiledMap(sv, {a} + sites) == CompiledMap(sv, sites)[a := CompiledFor(sv.db, sv.inventory, sv.base, a)]
  {
  }

  lemma WithCompiledStep(sv: Service, a: Name, sites: set<Name>)
    requires a !in sites
    ensures WithCompiled(CompileOneOf(sv, a), sites) == WithCompiled(sv, {a} + sites)
  {
    CompiledMapIsLocal(sv, a, sites);
    CompiledMapAdds(sv, a, sites);
    PutThenMerge(sv.db.desired, a, CompiledFor(sv.db, sv.inventory, sv.base, a), CompiledMap(sv, sites));
  }

  lemma PutThenMerge(m: map<Name, seq<Desired>>, a: Name, vs: seq<Desired>, n: map<Name, seq<Desired>>)
    requires a !in n
    ensures m[a := vs] + n == m + n[a := vs]
  {
  }

  lemma {:induction false} CompilePlanPlays(sys: System, order: seq<Name>)
    requires Distinct(order)
    ensures Play(sys, CompilePlan(order)) == sys.(service := WithCompiled(sys.service, ToSet(order)))
    decreases |order|
  {
    if order == [] {
      assert WithCompiled(sys.service, {}).db.desired == sys.service.db.desired;
    } else {
      var plan := CompilePlan(order);
      assert plan[0] == CompileOne(order[0]) && plan[1..] == CompilePlan(order[1..]);
      DistinctTail(order);
      CompilePlanPlays(Step(sys, plan[0]), order[1..]);
      WithCompiledStep(sys.service, order[0], ToSet(order[1..]));
    }
  }

  /** A compilation that nothing interrupts is the compile function. */
  lemma CompileIsPlan(sys: System, order: seq<Name>)
    requires Visits(order, sys.service)
    ensures Play(sys, CompilePlan(order)) == sys.(service := Compile(sys.service))
  {
    CompilePlanPlays(sys, order);
    assert WithCompiled(sys.service, ToSet(order)).db.desired == Compile(sys.service).db.desired;
  }

  // ----- lifecycle changes and registration

  function MovePlan(s: Name, to: Lifecycle, order: seq<Name>): seq<Event> {
    [CommitLifecycle(s, to)] + CompilePlan(order)
  }

  lemma MoveVisits(sv: Service, s: Name, to: Lifecycle)
    requires CanTransition(sv, s, to)
    ensures CompiledSites(CommitLifecycleOf(sv, s, to)) == CompiledSites(sv)
    ensures CompiledSites(Transition(sv, s, to)) == CompiledSites(sv)
  {
  }

  lemma TransitionIsPlan(sys: System, s: Name, to: Lifecycle, order: seq<Name>)
    requires Visits(order, sys.service) && CanTransition(sys.service, s, to)
    ensures Play(sys, MovePlan(s, to, order)) == sys.(service := Transition(sys.service, s, to))
    ensures CompiledSites(Transition(sys.service, s, to)) == CompiledSites(sys.service)
  {
    MoveVisits(sys.service, s, to);
    var e := CommitLifecycle(s, to);
    PlayConcat(sys, [e], CompilePlan(order));
    PlayOne(sys, e);
    CompileIsPlan(Step(sys, e), order);
  }

  function AdvancePlan(sv: Service, s: Name, from: Lifecycle, to: Lifecycle, order: seq<Name>): seq<Event> {
    if s in sv.inventory && sv.inventory[s] == from then MovePlan(s, to, order) else []
  }

  lemma AdvanceIsPlan(sys: System, s: Name, from: Lifecycle, to: Lifecycle, order: seq<Name>)
    requires Visits(order, sys.service) && InTransitionTable(from, to)
    ensures Play(sys, AdvancePlan(sys.service, s, from, to, order)) ==
            sys.(service := Advance(sys.service, s, from, to))
    ensures Visits(order, Advance(sys.service, s, from, to))
  {
    if s in sys.service.inventory && sys.service.inventory[s] == from {
      TransitionIsPlan(sys, s, to, order);
    }
  }

  /** The transactions of a registration: the key, up to four lifecycle changes with a compilation each, and a last
      compilation. */
  function RegisterPlan(sv: Service, s: Name, key: Name, order: seq<Name>): seq<Event> {
    if !CanCommitKey(sv, s, key) then []
    else
      var s1 := CommitKeyOf(sv, s, key);
      var s2 := Advance(s1, s, ZtpStaged, Enrolling);
      var s3 := Advance(s2, s, Enrolling, Enrolled);
      var s4 := Advance(s3, s, Enrolled, Registering);
      [CommitKey(s, key)] +
      (AdvancePlan(s1, s, ZtpStaged, Enrolling, order) +
       (AdvancePlan(s2, s, Enrolling, Enrolled, order) +
        (AdvancePlan(s3, s, Enrolled, Registering, order) +
         (AdvancePlan(s4, s, Registering, Provisioning, order) + CompilePlan(order)))))
  }

  lemma AdvanceThen(sys: System, s: Name, from: Lifecycle, to: Lifecycle, order: seq<Name>, rest: seq<Event>)
    requires Visits(order, sys.service) && InTransitionTable(from, to)
    ensures var after := Advance(sys.service, s, from, to);
            Play(sys, AdvancePlan(sys.service, s, from, to, order) + rest) == Play(sys.(service := after), rest) &&
              Visits(order, after)
  {
    AdvanceIsPlan(sys, s, from, to, order);
    PlayConcat(sys, AdvancePlan(sys.service, s, from, to, order), rest);
  }

  /** A registration that nothing interrupts is the registration of the service object. */
  lemma RegisterIsPlan(sys: System, s: Name, key: Name, order: seq<Name>)
    requires Visits(order, sys.service)
    ensures Play(sys, RegisterPlan(sys.service, s, key, order)) == sys.(service := RegisterEdge(sys.service, s, key))
  {
    var sv := sys.service;
    if CanCommitKey(sv, s, key) {
      var s1 := CommitKeyOf(sv, s, key);
      var s2 := Advance(s1, s, ZtpStaged, Enrolling);
      var s3 := Advance(s2, s, Enrolling, Enrolled);
      var s4 := Advance(s3, s, Enrolled, Registering);
      var s5 := Advance(s4, s, Registering, Provisioning);
      var c := CompilePlan(order);
      var p4 := AdvancePlan(s4, s, Registering, Provisioning, order) + c;
      var p3 := AdvancePlan(s3, s, Enrolled, Registering, order) + p4;
      var p2 := AdvancePlan(s2, s, Enrolling, Enrolled, order) + p3;
      var p1 := AdvancePlan(s1, s, ZtpStaged, Enrolling, order) + p2;
      PlayConcat(sys, [CommitKey(s, key)], p1);
      PlayOne(sys, CommitKey(s, key));
      AdvanceThen(sys.(service := s1), s, ZtpStaged, Enrolling, order, p2);
      AdvanceThen(sys.(service := s2), s, Enrolling, Enrolled, order, p3);
      AdvanceThen(sys.(service := s3), s, Enrolled, Registering, order, p4);
      AdvanceThen(sys.(service := s4), s, Registering, Provisioning, order, c);
      CompileIsPlan(sys.(service := s5), order);
    }
  }

  /** A completed registration gives the site the key and takes it on to PROVISIONING from any earlier stage of its
      enrollment; it moves no other site. */
  lemma RegistrationProvisions(sv: Service, s: Name, key: Name)
    requires CanCommitKey(sv, s, key)
    ensures var after := RegisterEdge(sv, s, key);
            && ActiveKey(after.db, s) == Some(key) && after.inventory.Keys == sv.inventory.Keys
            && forall u :: u in sv.inventory ==>
                             after.inventory[u] ==
                             if u == s && sv.inventory[u] in {ZtpStaged, Enrolling, Enrolled, Registering} then
                               Provisioning
                             else sv.inventory[u]
  {
    var s1 := CommitKeyOf(sv, s, key);
    var s5 := Advance(Advance(Advance(Advance(s1, s, ZtpStaged, Enrolling), s, Enrolling, Enrolled), s, Enrolled,
      Registering), s, Registering, Provisioning);
    FourAdvances(s1, s);
    KeyIsActive(sv, s, key, s5);
    assert RegisterEdge(sv, s, key) == Compile(s5);
  }

  lemma FourAdvances(sv: Service, s: Name)
    ensures var s2 := Advance(sv, s, ZtpStaged, Enrolling);
            var s3 := Advance(s2, s, Enrolling, Enrolled);
            var s4 := Advance(s3, s, Enrolled, Registering);
            var s5 := Advance(s4, s, Registering, Provisioning);
            s5.db.keys == sv.db.keys &&
            s5.inventory ==
              if s in sv.inventory && sv.inventory[s] in {ZtpStaged, Enrolling, Enrolled, Registering} then
                sv.inventory[s := Provisioning]
              else sv.inventory
  {
    var s2 := Advance(sv, s, ZtpStaged, Enrolling);
    var s3 := Advance(s2, s, Enrolling, Enrolled);
    var s4 := Advance(s3, s, Enrolled, Registering);
    AdvanceMoves(sv, s, ZtpStaged, Enrolling);
    AdvanceMoves(s2, s, Enrolling, Enrolled);
    AdvanceMoves(s3, s, Enrolled, Registering);
    AdvanceMoves(s4, s, Registering, Provisioning);
  }

  lemma AdvanceMoves(sv: Service, s: Name, from: Lifecycle, to: Lifecycle)
    requires InTransitionTable(from, to)
    ensures var after := Advance(sv, s, from, to);
            after.db.keys == sv.db.keys &&
            after.inventory == if s in sv.inventory && sv.inventory[s] == from then sv.inventory[s := to]
                               else sv.inventory
  {
  }

  lemma KeyIsActive(sv: Service, s: Name, key: Name, last: Service)
    requires CanCommitKey(sv, s, key) && last.db.keys == CommitKeyOf(sv, s, key).db.keys
    ensures ActiveKey(Compile(last).db, s) == Some(key)
  {
  }

  /** An acknowledgement, and the compilation after a promotion, are the acknowledgement of the service object. */
  lemma AcknowledgementIsPlan(sys: System, m: AckMessage, order: seq<Name>)
    requires m in sys.ackMail && Visits(order, AckTaken(sys.service, m, true))
    ensures Play(sys, [AckArrives(m, true)] + (if Promotes(sys.service, m) then CompilePlan(order) else [])) ==
            sys.(service := AcknowledgeEdge(sys.service, m.site, m.number, m.ack))
  {
    var e, next := AckArrives(m, true), Step(sys, AckArrives(m, true));
    PlayOne(sys, e);
    AcknowledgementIsTaken(sys.service, m);
    if Promotes(sys.service, m) {
      PlayConcat(sys, [e], CompilePlan(order));
      CompileIsPlan(next, order);
    } else {
      assert [e] + [] == [e];
    }
  }

  lemma AcknowledgementIsTaken(sv: Service, m: AckMessage)
    ensures AcknowledgeEdge(sv, m.site, m.number, m.ack) ==
            if Promotes(sv, m) then Compile(AckTaken(sv, m, true)) else AckTaken(sv, m, true)
  {
  }

  // ----- completed operations are hub-first

  /** The transactions that change a key or the set of configured sites. */
  predicate Commits(e: Event) { e.CommitKey? || e.CommitLifecycle? || e.CommitRow? }

  lemma {:induction false} BaseStays(base: set<Name>, events: seq<Event>)
    ensures Run(base, events).service.base == base <= Run(base, events).service.inventory.Keys
  {
    if events != [] {
      BaseStays(base, events[..|events| - 1]);
    }
  }

  /** Any other event leaves the configured sites, and the key of every site that still has one. */
  lemma QuietStep(sys: System, e: Event, s: Name)
    requires !Commits(e) && sys.service.base <= sys.service.inventory.Keys
    ensures QuietChange(sys.service, Step(sys, e).service, s)
  {
    match e
    case AckArrives(m, promoted) => QuietAck(sys.service, m, promoted, s);
    case Fetch(u) =>
    case Deliver(d) =>
    case Apply(u) =>
    case Persist(u) =>
    case SendAck(u) =>
    case Crash(u, rebooted) =>
    case _ => QuietServiceStep(sys.service, e, s);
  }

  ghost predicate QuietChange(sv: Service, after: Service, s: Name) {
    Topology(after.inventory, after.base) == Topology(sv.inventory, sv.base) &&
    (ActiveKey(after.db, s).Some? ==> ActiveKey(sv.db, s) == ActiveKey(after.db, s))
  }

  lemma QuietTransitive(a: Service, b: Service, c: Service, s: Name)
    requires QuietChange(a, b, s) && QuietChange(b, c, s)
    ensures QuietChange(a, c, s)
  {
  }

  lemma QuietServiceStep(sv: Service, e: Event, s: Name)
    requires !Commits(e) && sv.base <= sv.inventory.Keys
    ensures QuietChange(sv, ServiceStep(sv, e), s)
  {
    if e.RestartService? {
      assert Restarted(sv).inventory == sv.inventory;
    }
  }

  lemma QuietAck(sv: Service, m: AckMessage, promoted: bool, s: Name)
    ensures QuietChange(sv, AckTaken(sv, m, promoted), s)
  {
    if promoted && Promotes(sv, m) {
      SameTopology(sv, m.site, Active);
    }
  }

  lemma SameTopology(sv: Service, s: Name, to: Lifecycle)
    requires s in sv.inventory && IsConfigured(sv.inventory[s]) && IsConfigured(to)
    ensures Topology(sv.inventory[s := to], sv.base) == Topology(sv.inventory, sv.base)
  {
    var moved := sv.inventory[s := to];
    assert (set u | u in moved && IsConfigured(moved[u])) == set u | u in sv.inventory && IsConfigured(sv.inventory[u]);
  }

  lemma {:induction false} QuietSince(base: set<Name>, events: seq<Event>, p: nat, s: Name)
    requires p <= |events| && forall k :: p <= k < |events| ==> !Commits(events[k])
    ensures QuietChange(Run(base, events[..p]).service, Run(base, events).service, s)
    decreases |events|
  {
    if p == |events| {
      assert events[..p] == events;
    } else {
      var n := |events| - 1;
      var init := events[..n];
      assert init[..p] == events[..p];
      BaseStays(base, init);
      QuietSince(base, init, p, s);
      QuietStep(Run(base, init), events[n], s);
      QuietTransitive(Run(base, events[..p]).service, Run(base, init).service, Run(base, events).service, s);
    }
  }

  /** The hub has been compiled since the last change of a key or of the configured sites. */
  ghost predicate CompiledSince(base: set<Name>, events: seq<Event>, hub: Name) {
    LastCompile(base, events, hub) > 0 &&
    forall k :: LastCompile(base, events, hub) <= k < |events| ==> !Commits(events[k])
  }

  /** If every operation that committed something also completed its compilation, activation is hub-first. */
  lemma CompletedOperationsAreHubFirst(base: set<Name>, events: seq<Event>, e: Event, s: Name)
    requires AllAllowed(base, events) && !IsHub(s) && CompiledSince(base, events, HUB1) &&
             CompiledSince(base, events, HUB2)
    requires Published(Run(base, events), s) == [] && Published(Run(base, events + [e]), s) != []
    ensures HubReady(Run(base, events), HUB1, s) && HubReady(Run(base, events), HUB2, s)
  {
    HubFirst(base, events, e, s);
    QuietSince(base, events, LastCompile(base, events, HUB1), s);
    QuietSince(base, events, LastCompile(base, events, HUB2), s);
  }
}
