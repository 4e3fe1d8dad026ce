/** When compiling again publishes again: the compiler's comparison seen from the outside. */
module Recompilation {
  import opened Basics
  import opened PolicyDatabase
  import opened PolicyControl
  import opened ControlPlane
  import opened ControlPlaneRuns
  import opened ControlPlaneWhole
  import opened ControlPlaneProgress

  lemma ExtendedEnds(vs: seq<Desired>, s: Name, body: Body)
    ensures var next := Extended(vs, s, body);
            next != [] && next[|next| - 1].site == s && next[|next| - 1].body == body
  {
    EffectiveChangedMeaning(vs, s, body);
  }

  /** The same body offered twice is published once -- or twice, if it lists ownership rows. */
  lemma ExtendedAgain(vs: seq<Desired>, s: Name, body: Body)
    ensures var next := Extended(vs, s, body);
            |Extended(next, s, body)| == (if HasOwnership(body) then |next| + 1 else |next|) &&
            (Extended(next, s, body) == next <==> !HasOwnership(body))
  {
    ExtendedEnds(vs, s, body);
    EffectiveChangedMeaning(Extended(vs, s, body), s, body);
  }

  // ----- whole compilations

  lemma CompileVersions(sv: Service, s: Name)
    ensures Versions(Compile(sv).db.desired, s) == CompiledFor(sv.db, sv.inventory, sv.base, s)
  {
  }

  lemma RecompileOne(sv: Service, s: Name)
    requires HubsKnown(sv.db)
    ensures var once := Compile(sv);
            CompiledFor(once.db, once.inventory, once.base, s) == CompiledFor(sv.db, sv.inventory, sv.base, s) <==>
            !(IsHub(s) && sv.db.ownership != map[])
  {
    var once, sites := Compile(sv), Topology(sv.inventory, sv.base);
    CompileVersions(sv, s);
    if IsHub(s) {
      SamePeers(sv.db, once.db, sites, s);
      ExtendedAgain(Versions(sv.db.desired, s), s, HubState(sv.db, sites, s));
    } else {
      ExtendedAgain(Versions(sv.db.desired, s), s, SpokeState(sv.db, sites, s));
    }
  }

  lemma CompileIsMap(sv: Service)
    ensures Compile(sv) == sv.(db := sv.db.(desired := CompiledMap(sv, CompiledSites(sv))))
    ensures CompiledSites(Compile(sv)) == CompiledSites(sv)
  {
  }

  lemma RecompiledMap(sv: Service, sites: set<Name>)
    requires HubsKnown(sv.db) && HUB1 in sites
    ensures CompiledMap(Compile(sv), sites) == CompiledMap(sv, sites) <==> sv.db.ownership == map[]
  {
    var x, y := CompiledMap(Compile(sv), sites), CompiledMap(sv, sites);
    forall s | s in sites
      ensures x[s] == y[s] <==> !(IsHub(s) && sv.db.ownership != map[])
    {
      RecompileOne(sv, s);
    }
    assert x.Keys == y.Keys;
  }

  /** Compiling twice publishes nothing new exactly while there are no ownership rows. */
  lemma RecompilationIsIdempotent(sv: Service)
    requires HubsKnown(sv.db)
    ensures Compile(Compile(sv)) == Compile(sv) <==> sv.db.ownership == map[]
  {
    CompileIsMap(sv);
    CompileIsMap(Compile(sv));
    RecompiledMap(sv, CompiledSites(sv));
  }

  // ----- over runs

  /** There are ownership rows, and both hubs have keys. */
  predicate Owned(db: Db) { db.ownership != map[] && HubsKnown(db) }

  lemma OwnedStays(sys: System, e: Event)
    requires Owned(sys.service.db)
    ensures Owned(Step(sys, e).service.db)
  {
  }

  /** Rows appear only by an activation, which needs both hubs' keys, and those are never retired. */
  lemma {:induction false} RowsNeedHubs(base: set<Name>, events: seq<Event>)
    requires Run(base, events).service.db.ownership != map[]
    ensures Owned(Run(base, events).service.db)
  {
    if events != [] {
      var n := |events| - 1;
      var init := Run(base, events[..n]);
      if init.service.db.ownership != map[] {
        RowsNeedHubs(base, events[..n]);
        OwnedStays(init, events[n]);
      } else {
        RowsAppear(init, events[n]);
      }
    }
  }

  lemma RowsAppear(sys: System, e: Event)
    requires sys.service.db.ownership == map[] && Step(sys, e).service.db.ownership != map[]
    ensures Owned(Step(sys, e).service.db)
  {
  }

  /** How often the hub was compiled. */
  function Compilations(events: seq<Event>, hub: Name): nat {
    if events == [] then 0
    else Compilations(events[..|events| - 1], hub) + if events[|events| - 1] == CompileOne(hub) then 1 else 0
  }

  lemma OwnedCompilePublishes(sys: System, hub: Name)
    requires Owned(sys.service.db) && IsHub(hub)
    ensures var vs, body := Published(sys, hub), HubState(sys.service.db, SitesOf(sys), hub);
            Published(Step(sys, CompileOne(hub)), hub) == vs + [Desired(hub, NextVersion(vs), NextVersion(vs), body)]
  {
    EffectiveChangedMeaning(Published(sys, hub), hub, HubState(sys.service.db, SitesOf(sys), hub));
  }

  /** Once there are ownership rows, which are never deleted, every compilation of a hub publishes a new version of its
      document, whether anything has changed or not. */
  lemma {:induction false} EveryCompilationPublishes(base: set<Name>, events: seq<Event>, more: seq<Event>, hub: Name)
    requires IsHub(hub) && Run(base, events).service.db.ownership != map[]
    ensures Owned(Run(base, events + more).service.db)
    ensures |Published(Run(base, events + more), hub)| ==
            |Published(Run(base, events), hub)| + Compilations(more, hub)
    decreases |more|
  {
    if more == [] {
      assert events + more == events;
      RowsNeedHubs(base, events);
    } else {
      var init, e := more[..|more| - 1], more[|more| - 1];
      assert events + more == events + init + [e];
      EveryCompilationPublishes(base, events, init, hub);
      RunSnoc(base, events + init, e);
      var sys := Run(base, events + init);
      OwnedStays(sys, e);
      if e == CompileOne(hub) {
        OwnedCompilePublishes(sys, hub);
      } else {
        HubStepKeepsDocument(sys, e, hub);
      }
    }
  }

  lemma NoAnswerAhead(sys: System, s: Name)
    requires SystemInv(sys)
    ensures var id := VersionId(s, NextVersion(Published(sys, s)));
            id in sys.service.db.acks ==> sys.service.db.acks[id].status != Verified
  {
    var vs := Published(sys, s);
    var id := VersionId(s, NextVersion(vs));
    assert EdgeInv(EdgeOf(sys, s), vs) && Ordered(vs, s);
    assert forall d :: d in vs ==> d.version != NextVersion(vs);
    if id in sys.service.db.acks {
      assert AckInv(EdgeOf(sys, s), s, id.number, sys.service.db.acks[id]);
    }
  }

  lemma NewVersionIsUnverified(sys: System, hub: Name)
    requires SystemInv(sys) && IsHub(hub) && Owned(sys.service.db)
    ensures !LatestIsVerified(Step(sys, CompileOne(hub)).service.db, hub)
  {
    OwnedCompilePublishes(sys, hub);
    NoAnswerAhead(sys, hub);
  }

  /** So each of those compilations, though nothing has changed, takes the hub's verified status away, and no spoke can
      be activated until the hub has applied and acknowledged the new version. */
  lemma RecompilationBlocksActivation(base: set<Name>, events: seq<Event>, hub: Name, s: Name)
    requires SpokesOnly(base) && IsHub(hub) && Run(base, events).service.db.ownership != map[]
    ensures ActivationOutcome(Run(base, events + [CompileOne(hub)]).service, s, true) != Activated
  {
    RowsNeedHubs(base, events);
    RunKeepsInv(base, events);
    RunSnoc(base, events, CompileOne(hub));
    NewVersionIsUnverified(Run(base, events), hub);
  }

  /** A run: a spoke is registered and activated, and two compilations of the first hub publish two versions with the
      same body. */
  lemma CompiledTwicePublishedTwice(base: set<Name>, s: Name, a: Name, b: Name, c: Name) returns (events: seq<Event>)
    requires SpokesOnly(base) && s in base
    ensures AllAllowed(base, events)
    ensures var e := CompileOne(HUB1);
            var once, twice := Published(Run(base, events + [e]), HUB1), Published(Run(base, events + [e] + [e]), HUB1);
            once != [] && |twice| == |once| + 1 == |Published(Run(base, events), HUB1)| + 2 &&
            twice[|twice| - 1].body == once[|once| - 1].body
  {
    var first := RegisterSpoke(base, s, a, b, c);
    RunKeepsInv(base, first);
    var more := SpokeIsActivated(Run(base, first), s);
    RunThenPlay(base, first, more);
    AllowedConcat(base, first, more);
    events := first + more;
    var e := CompileOne(HUB1);
    RowsNeedHubs(base, events);
    TwoCompilations(base, events);
  }

  lemma TwoCompilations(base: set<Name>, events: seq<Event>)
    requires SpokesOnly(base) && Owned(Run(base, events).service.db)
    ensures var e := CompileOne(HUB1);
            var once, twice := Published(Run(base, events + [e]), HUB1), Published(Run(base, events + [e] + [e]), HUB1);
            once != [] && |twice| == |once| + 1 == |Published(Run(base, events), HUB1)| + 2 &&
            twice[|twice| - 1].body == once[|once| - 1].body
  {
    var e := CompileOne(HUB1);
    var sys := Run(base, events);
    var mid := Step(sys, e);
    RunKeepsInv(base, events);
    RunSnoc(base, events, e);
    RunSnoc(base, events + [e], e);
    OwnedStays(sys, e);
    OwnedCompilePublishes(sys, HUB1);
    OwnedCompilePublishes(mid, HUB1);
    StepKeepsInv(sys, e);
    HubCompiled(sys, HUB1);
    HubCompiled(mid, HUB1);
    SamePeers(mid.service.db, Step(mid, e).service.db, SitesOf(mid), HUB1);
  }
}
