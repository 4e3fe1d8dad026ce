/** What an edge that stops between applying, recording and acknowledging leaves behind. */
module ControlPlaneCrashes {
  import opened Basics
  import opened PolicyDatabase
  import opened PolicyControl
  import opened EdgeAgent
  import opened ControlPlane
  import opened ControlPlaneRuns
  import opened ControlPlaneProgress

  /** A stop between applying and recording leaves the kernel on the new document (or empty, after a reboot) and the
      record on an older one or the same; nothing is acknowledged, and the document is accepted when it comes again. */
  lemma StopBeforeRecord(base: set<Name>, events: seq<Event>, s: Name, rebooted: bool)
    requires SpokesOnly(base) && EdgeOf(Run(base, events), s).stage.Applied?
    ensures var before, after := Run(base, events), Run(base, events + [Crash(s, rebooted)]);
            var d := EdgeOf(before, s).stage.document;
            && EdgeOf(after, s).record == EdgeOf(before, s).record && EdgeOf(after, s).record.version <= d.version
            && EdgeOf(after, s).kernel == (if rebooted then Empty else Runs(d)) && EdgeOf(after, s).stage == Idle
            && after.ackMail == before.ackMail && after.service == before.service
            && !Rejects(EdgeOf(after, s).record, d)
  {
    RunKeepsInv(base, events);
    RunSnoc(base, events, Crash(s, rebooted));
    assert EdgeInv(EdgeOf(Run(base, events), s), Published(Run(base, events), s));
  }

  // ----- when the kernel runs what the record does not name

  /** The edge starts to apply the document when it arrives. */
  predicate Accepts(sys: System, d: Desired) {
    d in sys.mail && EdgeOf(sys, d.site).stage == Idle && !Rejects(EdgeOf(sys, d.site).record, d)
  }

  predicate UnrecordedAfter(sys: System, e: Event, s: Name, before: bool) {
    match e
    case Crash(u, rebooted) => if u != s then before else !rebooted && (before || EdgeOf(sys, s).stage.Applied?)
    case Deliver(d) => before && !(d.site == s && Accepts(sys, d))
    case _ => before
  }

  /** The edge stopped between applying a document and recording it, and has neither rebooted nor accepted a document
      since. */
  predicate Unrecorded(base: set<Name>, events: seq<Event>, s: Name) {
    events != [] &&
    var init := events[..|events| - 1];
    UnrecordedAfter(Run(base, init), events[|events| - 1], s, Unrecorded(base, init, s))
  }

  /** Outside the moment between applying and recording, the kernel runs in full a document that is not the recorded
      one. */
  predicate Differing(e: Edge) {
    e.kernel.Runs? && !e.stage.Applied? && e.record.digest != Some(e.kernel.document)
  }

  /** A document on its way into the record is not the recorded one, and one that differs is not below the record. */
  ghost predicate PendingInv(e: Edge) {
    (e.stage.Applying? ==> e.kernel == Mixed && (e.record.digest == Some(e.stage.document) ==> e.stage.matched)) &&
    (e.stage.Applied? ==> e.record.digest != Some(e.stage.document)) &&
    (Differing(e) ==> e.record.version <= e.kernel.document.version)
  }

  lemma EdgeKeepsPending(e: Edge, vs: seq<Desired>)
    requires PendingInv(e) && EdgeInv(e, vs)
    ensures PendingInv(AppliedInFull(e)) && (Differing(AppliedInFull(e)) <==> Differing(e))
    ensures PendingInv(Persisted(e)) && (Differing(Persisted(e)) <==> Differing(e))
    ensures PendingInv(Acknowledged(e)) && (Differing(Acknowledged(e)) <==> Differing(e))
    ensures PendingInv(Crashed(e, true)) && !Differing(Crashed(e, true))
    ensures PendingInv(Crashed(e, false)) && (Differing(Crashed(e, false)) <==> Differing(e) || e.stage.Applied?)
  {
  }

  lemma StartedKeepsPending(e: Edge, vs: seq<Desired>, d: Desired)
    requires PendingInv(e) && EdgeInv(e, vs)
    ensures PendingInv(Started(e, d))
    ensures Differing(Started(e, d)) <==> Differing(e) && !(e.stage == Idle && !Rejects(e.record, d))
  {
  }

  lemma DeliverKeepsPending(sys: System, d: Desired, s: Name)
    requires SystemInv(sys) && PendingInv(EdgeOf(sys, s))
    ensures var next := EdgeOf(Step(sys, Deliver(d)), s);
            PendingInv(next) && (Differing(next) <==> Differing(EdgeOf(sys, s)) && !(d.site == s && Accepts(sys, d)))
  {
    assert EdgeInv(EdgeOf(sys, s), Published(sys, s));
    StartedKeepsPending(EdgeOf(sys, s), Published(sys, s), d);
  }

  lemma EdgeOfOther(sys: System, e: Event, s: Name)
    requires !e.Deliver? && !(OfEdge(e) && e.site == s)
    ensures EdgeOf(Step(sys, e), s) == EdgeOf(sys, s)
  {
  }

  lemma StepKeepsPending(sys: System, e: Event, s: Name)
    requires SystemInv(sys) && PendingInv(EdgeOf(sys, s))
    ensures PendingInv(EdgeOf(Step(sys, e), s))
    ensures Differing(EdgeOf(Step(sys, e), s)) <==> UnrecordedAfter(sys, e, s, Differing(EdgeOf(sys, s)))
  {
    if e.Deliver? {
      DeliverKeepsPending(sys, e.document, s);
    } else if OfEdge(e) && e.site == s {
      assert EdgeInv(EdgeOf(sys, s), Published(sys, s));
      EdgeKeepsPending(EdgeOf(sys, s), Published(sys, s));
    } else {
      EdgeOfOther(sys, e, s);
    }
  }

  /** Over every run, exactly then does the kernel run in full a document that is not the recorded one. */
  lemma {:induction false} KernelDiffersFromRecord(base: set<Name>, events: seq<Event>, s: Name)
    requires SpokesOnly(base)
    ensures Differing(EdgeOf(Run(base, events), s)) <==> Unrecorded(base, events, s)
    ensures PendingInv(EdgeOf(Run(base, events), s))
  {
    if events != [] {
      var n := |events| - 1;
      KernelDiffersFromRecord(base, events[..n], s);
      RunKeepsInv(base, events[..n]);
      StepKeepsPending(Run(base, events[..n]), events[n], s);
    }
  }

  // ----- a kernel can go back, a record cannot

  /** Whatever an edge has applied or is about to apply was sent to it, and may come again. */
  ghost predicate Sent(sys: System, s: Name) {
    var e := EdgeOf(sys, s);
    e.applied <= sys.mail && (e.stage.Applying? ==> e.stage.document in sys.mail)
  }

  lemma StepKeepsSent(sys: System, e: Event, s: Name)
    requires Sent(sys, s)
    ensures Sent(Step(sys, e), s)
  {
  }

  lemma {:induction false} EverythingWasSent(base: set<Name>, events: seq<Event>, s: Name)
    ensures Sent(Run(base, events), s)
  {
    if events != [] {
      EverythingWasSent(base, events[..|events| - 1], s);
      StepKeepsSent(Run(base, events[..|events| - 1]), events[|events| - 1], s);
    }
  }

  /** A document under way to the site that is older than the one its kernel runs. */
  ghost predicate OlderUnderWay(sys: System, s: Name, a: Desired) {
    a in sys.mail && a.site == s && EdgeOf(sys, s).kernel.Runs? && a.version < EdgeOf(sys, s).kernel.document.version
  }

  /** Delivered now, the document ends up in the kernel. */
  ghost predicate TakesOver(sys: System, s: Name, a: Desired) {
    EdgeOf(Step(Step(sys, Deliver(a)), Apply(s)), s).kernel == Runs(a)
  }

  lemma TakesOverIfAccepted(sys: System, s: Name, a: Desired)
    requires OlderUnderWay(sys, s, a) && EdgeOf(sys, s).stage == Idle
    ensures TakesOver(sys, s, a) <==> Accepts(sys, a)
  {
    var e := EdgeOf(sys, s);
    var mid := Step(sys, Deliver(a));
    assert EdgeOf(mid, s) == Started(e, a);
    assert EdgeOf(Step(mid, Apply(s)), s) == AppliedInFull(Started(e, a));
  }

  /** A late older document takes over the kernel exactly if the edge stopped before recording the newer one, and the
      older one is not below the record. */
  lemma OlderTakesOver(base: set<Name>, events: seq<Event>, s: Name, a: Desired)
    requires SpokesOnly(base) && OlderUnderWay(Run(base, events), s, a) && EdgeOf(Run(base, events), s).stage == Idle
    ensures TakesOver(Run(base, events), s, a) <==>
            Unrecorded(base, events, s) && EdgeOf(Run(base, events), s).record.version <= a.version
  {
    var sys := Run(base, events);
    var e := EdgeOf(sys, s);
    TakesOverIfAccepted(sys, s, a);
    KernelDiffersFromRecord(base, events, s);
    RunKeepsInv(base, events);
    assert EdgeInv(e, Published(sys, s)) && Ordered(Published(sys, s), s);
    assert a in Published(sys, s) && a.routeVersion == a.version;
    assert e.record.routeVersion == e.record.version;
  }

  lemma RecordIsOlder(base: set<Name>, events: seq<Event>, s: Name)
    requires SpokesOnly(base) && Unrecorded(base, events, s) && EdgeOf(Run(base, events), s).record.digest.Some?
    ensures var e := EdgeOf(Run(base, events), s);
            OlderUnderWay(Run(base, events), s, e.record.digest.value) &&
            e.record.version == e.record.digest.value.version
  {
    var sys := Run(base, events);
    var e, vs := EdgeOf(sys, s), Published(sys, s);
    KernelDiffersFromRecord(base, events, s);
    EverythingWasSent(base, events, s);
    RunKeepsInv(base, events);
    assert EdgeInv(e, vs) && Ordered(vs, s);
    var r, b := e.record.digest.value, e.kernel.document;
    assert r in vs && b in vs;
    if r.version == b.version {
      SameVersionSame(vs, s, r, b);
    }
  }

  /** Some older document can take over a kernel exactly if the edge stopped before recording the newer one and any
      older document was ever sent: the recorded one, if there is a record, is accepted again. */
  lemma KernelGoesBackExactly(base: set<Name>, events: seq<Event>, s: Name)
    requires SpokesOnly(base) && EdgeOf(Run(base, events), s).stage == Idle
    ensures (exists a :: OlderUnderWay(Run(base, events), s, a) && TakesOver(Run(base, events), s, a)) <==>
            Unrecorded(base, events, s) && exists a :: OlderUnderWay(Run(base, events), s, a)
  {
    var sys := Run(base, events);
    var e := EdgeOf(sys, s);
    forall a | OlderUnderWay(sys, s, a)
      ensures TakesOver(sys, s, a) <==> Unrecorded(base, events, s) && e.record.version <= a.version
    {
      OlderTakesOver(base, events, s, a);
    }
    RunKeepsInv(base, events);
    assert EdgeInv(e, Published(sys, s));
    if Unrecorded(base, events, s) && e.record.digest.Some? {
      RecordIsOlder(base, events, s);
      assert TakesOver(sys, s, e.record.digest.value);
    }
  }

  /** Two documents of the first hub are under way to it, and it has not seen any. */
  ghost predicate TwoUnderWay(sys: System, a: Desired, b: Desired) {
    a.site == b.site == HUB1 && a.version < b.version && a in sys.mail && b in sys.mail && EdgeOf(sys, HUB1) == NEW_EDGE
  }

  lemma CompileAndFetch(base: set<Name>, events: seq<Event>) returns (longer: seq<Event>, d: Desired)
    requires AllAllowed(base, events) && HubsKnown(Run(base, events).service.db)
    ensures var sys, next := Run(base, events), Run(base, longer);
            && AllAllowed(base, longer) && next.service == CompileOneOf(sys.service, HUB1) && next.edges == sys.edges
            && Published(next, HUB1) != [] && d == Latest(next, HUB1) && next.mail == sys.mail + {d}
            && d.body == HubState(sys.service.db, SitesOf(sys), HUB1)
  {
    var a, b := CompileOne(HUB1), Fetch(HUB1);
    var sys := Run(base, events);
    RunKeepsInv(base, events);
    HubCompiled(sys, HUB1);
    var mid := Step(sys, a);
    SamePeers(sys.service.db, mid.service.db, SitesOf(sys), HUB1);
    longer, d := events + [a] + [b], Latest(mid, HUB1);
    RunSnoc(base, events, a);
    RunSnoc(base, events + [a], b);
    AllowedConcat(base, events, [a]);
    AllowedConcat(base, events + [a], [b]);
  }

  lemma KeyedAfterCompile(base: set<Name>, sys: System, once: System, s: Name, key: Name)
    requires HubsRegistered(base, sys) && once.service == CompileOneOf(sys.service, HUB1) && s in base && !IsHub(s)
    ensures var next := Step(once, CommitKey(s, key));
            && ActiveKey(next.service.db, s) == Some(key) && s in SitesOf(next) && HubsKnown(next.service.db)
            && next.edges == once.edges && next.mail == once.mail
  {
    StagedIsKnown(base, once.service.inventory, s);
  }

  /** Two documents of one site, one of which lists a spoke that the other omits, differ in version. */
  lemma LaterDocument(sys: System, a: Desired, s: Name, key: Name)
    requires SystemInv(sys) && a in sys.mail && a.site == HUB1 && Published(sys, HUB1) != []
    requires Omits(a.body, s) && ListsPeer(Latest(sys, HUB1).body, s, key)
    ensures a.version < Latest(sys, HUB1).version
  {
    var vs := Published(sys, HUB1);
    assert a in vs && Ordered(vs, HUB1);
    var k :| 0 <= k < |vs| && vs[k] == a;
  }

  lemma TwoDocuments(base: set<Name>, s: Name, k1: Name, k2: Name, k3: Name)
    returns (events: seq<Event>, a: Desired, b: Desired)
    requires SpokesOnly(base) && s in base
    ensures AllAllowed(base, events) && TwoUnderWay(Run(base, events), a, b)
  {
    var first := RegisterHubs(base, k1, k2);
    var once;
    once, a := CompileAndFetch(base, first);
    OmittedBefore(base, Run(base, first), a.body, s);
    var e := CommitKey(s, k3);
    var keyed := once + [e];
    RunSnoc(base, once, e);
    AllowedConcat(base, once, [e]);
    KeyedAfterCompile(base, Run(base, first), Run(base, once), s, k3);
    events, b := CompileAndFetch(base, keyed);
    HubStateLists(Run(base, keyed).service.db, SitesOf(Run(base, keyed)), HUB1, s, k3);
    RunKeepsInv(base, once);
    RunKeepsInv(base, events);
    OfHubOne(Run(base, once), a);
    LaterDocument(Run(base, events), a, s, k3);
    OfHubOne(Run(base, events), b);
  }

  lemma OmittedBefore(base: set<Name>, sys: System, body: Body, s: Name)
    requires HubsRegistered(base, sys) && !IsHub(s) && body == HubState(sys.service.db, SitesOf(sys), HUB1)
    ensures Omits(body, s)
  {
    assert RowsOf(sys.service.db, s) == NO_KEYS;
    forall key
      ensures !ListsPeer(body, s, key)
    {
      HubStateLists(sys.service.db, SitesOf(sys), HUB1, s, key);
    }
  }

  lemma OfHubOne(sys: System, d: Desired)
    requires SystemInv(sys) && Published(sys, HUB1) != [] && d == Latest(sys, HUB1)
    ensures d.site == HUB1
  {
    assert Ordered(Published(sys, HUB1), HUB1);
  }

  /** The newer document is applied, and the edge stops before recording it. */
  lemma StopOnNewer(base: set<Name>, first: seq<Event>, a: Desired, b: Desired) returns (events: seq<Event>)
    requires AllAllowed(base, first) && TwoUnderWay(Run(base, first), a, b)
    ensures AllAllowed(base, events) && a in Run(base, events).mail
    ensures EdgeOf(Run(base, events), HUB1) == Edge(NO_RECORD, Runs(b), Idle, {b})
  {
    var d, e, f := Deliver(b), Apply(HUB1), Crash(HUB1, false);
    events := first + [d] + [e] + [f];
    RunSnoc(base, first, d);
    RunSnoc(base, first + [d], e);
    RunSnoc(base, first + [d] + [e], f);
    AllowedConcat(base, first, [d]);
    AllowedConcat(base, first + [d], [e]);
    AllowedConcat(base, first + [d] + [e], [f]);
    assert EdgeOf(Run(base, first + [d]), HUB1) == Started(NEW_EDGE, b);
    assert EdgeOf(Run(base, first + [d] + [e]), HUB1) == AppliedInFull(Started(NEW_EDGE, b));
  }

  /** A run in which a kernel goes back: the newer document is applied, the edge stops before recording it, and the
      older one, delivered late, takes over. The record, which a VERIFIED answer rests on, never goes back. */
  lemma KernelCanGoBack(base: set<Name>, s: Name, k1: Name, k2: Name, k3: Name)
    returns (events: seq<Event>, more: seq<Event>, a: Desired, b: Desired)
    requires SpokesOnly(base) && s in base
    ensures AllAllowed(base, events + more) && Unrecorded(base, events, HUB1) && a.version < b.version
    ensures EdgeOf(Run(base, events), HUB1).kernel == Runs(b) &&
            EdgeOf(Run(base, events + more), HUB1).kernel == Runs(a)
  {
    var first;
    first, a, b := TwoDocuments(base, s, k1, k2, k3);
    events := StopOnNewer(base, first, a, b);
    KernelDiffersFromRecord(base, events, HUB1);
    TakesOverIfAccepted(Run(base, events), HUB1, a);
    var x, y := Deliver(a), Apply(HUB1);
    more := [x] + [y];
    assert events + more == events + [x] + [y];
    RunSnoc(base, events, x);
    RunSnoc(base, events + [x], y);
    AllowedConcat(base, events, more);
  }
}
