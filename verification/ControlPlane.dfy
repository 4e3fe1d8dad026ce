/** The versioned control plane end to end: the service and its store, one transaction at a time; edges, one effect at a
    time; and a network that may delay, duplicate and reorder. Service and edges may stop between any two steps. */
module ControlPlane {
  import opened Basics
  import opened PolicyDatabase
  import opened PolicyControl
  import opened EdgeAgent

  datatype AckMessage = AckMessage(site: Name, number: nat, ack: Ack)

  /** `mail` and `ackMail` hold every message ever sent: any of them may still arrive, any number of times. */
  datatype System = System(service: Service, edges: map<Name, Edge>, mail: set<Desired>, ackMail: set<AckMessage>)

  function EdgeOf(sys: System, s: Name): Edge {
    if s in sys.edges then sys.edges[s] else NEW_EDGE
  }

  function Published(sys: System, s: Name): seq<Desired> {
    Versions(sys.service.db.desired, s)
  }

  /** The first group are single transactions of the service: an operation that is interrupted leaves a prefix of its
      transactions. `promoted` says whether the service lived long enough to act on an acknowledgement it recorded. */
  datatype Event =
    | CommitKey(site: Name, key: Name)
    | CommitLifecycle(site: Name, to: Lifecycle)
    | CommitRow(site: Name)
    | CompileOne(site: Name)
    | RetireKey(site: Name)
    | ActivateSpoke(site: Name, reserved: bool, stop: nat)
    | RestartService
    | AckArrives(message: AckMessage, promoted: bool)
    | Fetch(site: Name)
    | Deliver(document: Desired)
    | Apply(site: Name)
    | Persist(site: Name)
    | SendAck(site: Name)
    | Crash(site: Name, rebooted: bool)

  function WithEdge(sys: System, s: Name, e: Edge): System {
    sys.(edges := sys.edges[s := e])
  }

  /** Recording an accepted acknowledgement, and then promoting a site that waits for it. */
  function AckRecorded(sv: Service, m: AckMessage): Service {
    sv.(db := Acknowledge(sv.db, m.site, m.number, m.ack))
  }

  predicate Promotes(sv: Service, m: AckMessage) {
    AckAccepted(sv.db, m.site, m.number, m.ack.digest) && m.ack.status == Verified &&
    m.site in sv.inventory && sv.inventory[m.site] in {Provisioning, Reconciling}
  }

  function AckTaken(sv: Service, m: AckMessage, promoted: bool): Service {
    if promoted && Promotes(sv, m) then CommitLifecycleOf(AckRecorded(sv, m), m.site, Active) else AckRecorded(sv, m)
  }

  /** An edge sends its answer once its process has one. */
  function AnswerOf(e: Edge): set<AckMessage> {
    match e.stage
    case Finished(d, status) => {AckMessage(d.site, d.version, Ack(d, d.routeVersion, status))}
    case _ => {}
  }

  function ServiceStep(sv: Service, e: Event): Service {
    match e
    case CommitKey(s, key) => CommitKeyOf(sv, s, key)
    case CommitLifecycle(s, to) => CommitLifecycleOf(sv, s, to)
    case CommitRow(s) => CommitRowOf(sv, s)
    case CompileOne(s) => CompileOneOf(sv, s)
    case RetireKey(s) => RetireSiteKey(sv, s)
    case ActivateSpoke(s, reserved, stop) => Activate(sv, s, reserved, stop)
    case RestartService => Restarted(sv)
    case _ => sv
  }

  function Step(sys: System, e: Event): System {
    match e
    case AckArrives(m, promoted) =>
      if m in sys.ackMail then sys.(service := AckTaken(sys.service, m, promoted)) else sys
    case Fetch(s) =>
      var vs := Published(sys, s);
      if vs == [] then sys else sys.(mail := sys.mail + {vs[|vs| - 1]})
    case Deliver(d) =>
      if d in sys.mail then WithEdge(sys, d.site, Started(EdgeOf(sys, d.site), d)) else sys
    case Apply(s) => WithEdge(sys, s, AppliedInFull(EdgeOf(sys, s)))
    case Persist(s) => WithEdge(sys, s, Persisted(EdgeOf(sys, s)))
    case SendAck(s) =>
      WithEdge(sys, s, Acknowledged(EdgeOf(sys, s))).(ackMail := sys.ackMail + AnswerOf(EdgeOf(sys, s)))
    case Crash(s, rebooted) => WithEdge(sys, s, Crashed(EdgeOf(sys, s), rebooted))
    case _ => sys.(service := ServiceStep(sys.service, e))
  }

  // ----- what every step keeps

  /** Versions of one site in increasing order; the route version is the version, also in the document of activation. */
  ghost predicate Ordered(vs: seq<Desired>, s: Name) {
    (forall k :: 0 <= k < |vs| ==> vs[k].site == s && vs[k].routeVersion == vs[k].version) &&
    forall i, j :: 0 <= i < j < |vs| ==> vs[i].version < vs[j].version
  }

  ghost predicate ServiceInv(sv: Service) {
    (forall s :: IsHub(s) ==> s !in sv.inventory && s !in sv.base) &&
    (forall s :: Ordered(Versions(sv.db.desired, s), s)) &&
    forall s :: s in sv.db.ownership ==> s in sv.db.leases
  }

  ghost predicate StageInv(e: Edge, vs: seq<Desired>) {
    match e.stage
    case Idle => true
    case Applying(d, matched) => d in vs && !Rejects(e.record, d) && (matched ==> e.record.digest == Some(d))
    case Applied(d) => d in e.applied && !Rejects(e.record, d) && e.kernel == Runs(d)
    case Finished(d, status) => d in vs && (status == Verified ==> e.record.digest == Some(d) && e.kernel == Runs(d))
  }

  ghost predicate RecordInv(r: Record, applied: set<Desired>) {
    match r.digest
    case Some(d) => d in applied && r.version == d.version && r.routeVersion == d.routeVersion
    case None => r.version == 0 && r.routeVersion == 0
  }

  ghost predicate EdgeInv(e: Edge, vs: seq<Desired>) {
    (forall d :: d in e.applied ==> d in vs) && RecordInv(e.record, e.applied) && StageInv(e, vs) &&
    (e.kernel.Runs? ==> e.kernel.document in e.applied)
  }

  /** An acknowledgement speaks of its own document; if VERIFIED, that was applied and is not above the record. */
  ghost predicate AckInv(e: Edge, s: Name, number: nat, a: Ack) {
    a.digest.site == s && a.digest.version == number &&
    (a.status == Verified ==> a.digest in e.applied && number <= e.record.version)
  }

  ghost predicate AppliedVersion(e: Edge, vs: seq<Desired>, number: nat) {
    number <= e.record.version && exists d :: d in e.applied && d in vs && d.version == number
  }

  ghost predicate MessagesInv(sys: System) {
    (forall d :: d in sys.mail ==> d in Published(sys, d.site)) &&
    (forall m :: m in sys.ackMail ==> AckInv(EdgeOf(sys, m.site), m.site, m.number, m.ack)) &&
    (forall id ::
      id in sys.service.db.acks ==> AckInv(EdgeOf(sys, id.site), id.site, id.number, sys.service.db.acks[id])) &&
    forall id ::
      id in sys.service.db.verified ==> AppliedVersion(EdgeOf(sys, id.site), Published(sys, id.site), id.number)
  }

  ghost predicate SystemInv(sys: System) {
    ServiceInv(sys.service) && MessagesInv(sys) && forall s :: EdgeInv(EdgeOf(sys, s), Published(sys, s))
  }

  // ----- the service side

  /** Versions are only ever appended, and acknowledgements stay. */
  ghost predicate Grows(before: Service, after: Service) {
    (forall s :: Versions(before.db.desired, s) <= Versions(after.db.desired, s)) &&
    after.db.acks == before.db.acks && after.db.verified == before.db.verified && after.base == before.base
  }

  ghost predicate Quiet(before: Service, after: Service) {
    ServiceInv(after) && Grows(before, after)
  }

  lemma ExtendedOrdered(vs: seq<Desired>, s: Name, body: Body)
    requires Ordered(vs, s)
    ensures Ordered(Extended(vs, s, body), s) && vs <= Extended(vs, s, body)
    ensures Extended(vs, s, body) != [] && Extended(vs, s, body)[|Extended(vs, s, body)| - 1].body == body
  {
    ExtendedCases(vs, s, body);
    AppendedOrdered(vs, s, body);
  }

  lemma ExtendedCases(vs: seq<Desired>, s: Name, body: Body)
    ensures (Extended(vs, s, body) == vs && vs != [] && vs[|vs| - 1].body == body) ||
            Extended(vs, s, body) == vs + [Desired(s, NextVersion(vs), NextVersion(vs), body)]
  {
    EffectiveChangedMeaning(vs, s, body);
  }

  lemma AppendedOrdered(vs: seq<Desired>, s: Name, body: Body)
    requires Ordered(vs, s)
    ensures Ordered(vs + [Desired(s, NextVersion(vs), NextVersion(vs), body)], s)
  {
  }

  /** What compilation does to one site: it appends or nothing, and starts no spoke that is not ACTIVE. */
  lemma CompiledForFacts(db: Db, inventory: map<Name, Lifecycle>, base: set<Name>, s: Name)
    requires Ordered(Versions(db.desired, s), s)
    ensures var vs := CompiledFor(db, inventory, base, s);
            Ordered(vs, s) && Versions(db.desired, s) <= vs &&
            (!IsHub(s) && Versions(db.desired, s) == [] && vs != [] ==> s in inventory && inventory[s] == Active) &&
            (IsHub(s) && HubsKnown(db) ==> vs != [] && vs[|vs| - 1].body == HubState(db, Topology(inventory, base), s))
  {
    if HubsKnown(db) {
      if IsHub(s) {
        ExtendedOrdered(Versions(db.desired, s), s, HubState(db, Topology(inventory, base), s));
      } else {
        ExtendedOrdered(Versions(db.desired, s), s, SpokeState(db, Topology(inventory, base), s));
      }
    }
  }

  lemma CompileOneKeeps(sv: Service, s: Name)
    requires ServiceInv(sv)
    ensures Quiet(sv, CompileOneOf(sv, s))
  {
    CompiledForFacts(sv.db, sv.inventory, sv.base, s);
    var after := CompileOneOf(sv, s);
    forall u
      ensures Ordered(Versions(after.db.desired, u), u) && Versions(sv.db.desired, u) <= Versions(after.db.desired, u)
    {
      assert Ordered(Versions(sv.db.desired, u), u);
    }
  }

  lemma ActivateKeeps(sv: Service, s: Name, reserved: bool, stop: nat)
    requires ServiceInv(sv)
    ensures Quiet(sv, Activate(sv, s, reserved, stop))
  {
    if ActivationOutcome(sv, s, reserved) == Activated {
      var after := Activate(sv, s, reserved, stop);
      assert s !in sv.db.ownership;
      forall u
        ensures Ordered(Versions(after.db.desired, u), u) && Versions(sv.db.desired, u) <= Versions(after.db.desired, u)
      {
        assert Ordered(Versions(sv.db.desired, u), u);
      }
    }
  }

  lemma ServiceStepQuiet(sv: Service, e: Event)
    requires ServiceInv(sv)
    ensures Quiet(sv, ServiceStep(sv, e))
  {
    match e
    case CompileOne(s) => CompileOneKeeps(sv, s);
    case ActivateSpoke(s, reserved, stop) => ActivateKeeps(sv, s, reserved, stop);
    case _ =>
  }

  // ----- the whole system

  lemma PrefixKeepsMembers(vs: seq<Desired>, ws: seq<Desired>)
    requires vs <= ws
    ensures forall d :: d in vs ==> d in ws
  {
    forall d | d in vs
      ensures d in ws
    {
      var k :| 0 <= k < |vs| && vs[k] == d;
      assert ws[k] == d;
    }
  }

  lemma EdgeInvGrows(e: Edge, vs: seq<Desired>, ws: seq<Desired>)
    requires EdgeInv(e, vs) && vs <= ws
    ensures EdgeInv(e, ws)
    ensures forall n :: AppliedVersion(e, vs, n) ==> AppliedVersion(e, ws, n)
  {
    PrefixKeepsMembers(vs, ws);
  }

  lemma ServiceChangeKeeps(sys: System, after: Service)
    requires SystemInv(sys) && Quiet(sys.service, after)
    ensures SystemInv(sys.(service := after))
  {
    var next := sys.(service := after);
    forall s
      ensures EdgeOf(next, s) == EdgeOf(sys, s) && EdgeInv(EdgeOf(next, s), Published(next, s))
      ensures forall d :: d in Published(sys, s) ==> d in Published(next, s)
      ensures forall n ::
              AppliedVersion(EdgeOf(sys, s), Published(sys, s), n) ==>
                AppliedVersion(EdgeOf(next, s), Published(next, s), n)
    {
      PrefixKeepsMembers(Published(sys, s), Published(next, s));
      EdgeInvGrows(EdgeOf(sys, s), Published(sys, s), Published(next, s));
    }
  }

  /** An edge's own step keeps its invariant, and takes back neither an applied document nor the record's version. */
  ghost predicate EdgeMoves(before: Edge, after: Edge, vs: seq<Desired>) {
    EdgeInv(after, vs) && before.applied <= after.applied && before.record.version <= after.record.version &&
    before.record.routeVersion <= after.record.routeVersion
  }

  lemma EdgeChangeKeeps(sys: System, s: Name, e: Edge)
    requires SystemInv(sys) && EdgeMoves(EdgeOf(sys, s), e, Published(sys, s))
    ensures SystemInv(WithEdge(sys, s, e))
  {
    var next := WithEdge(sys, s, e);
    forall u
      ensures Published(next, u) == Published(sys, u) && EdgeMoves(EdgeOf(sys, u), EdgeOf(next, u), Published(sys, u))
    {
      assert EdgeInv(EdgeOf(sys, u), Published(sys, u));
    }
    forall m | m in next.ackMail
      ensures AckInv(EdgeOf(next, m.site), m.site, m.number, m.ack)
    {
      assert AckInv(EdgeOf(sys, m.site), m.site, m.number, m.ack);
    }
    forall id | id in next.service.db.acks
      ensures AckInv(EdgeOf(next, id.site), id.site, id.number, next.service.db.acks[id])
    {
      assert AckInv(EdgeOf(sys, id.site), id.site, id.number, sys.service.db.acks[id]);
    }
    forall id | id in next.service.db.verified
      ensures AppliedVersion(EdgeOf(next, id.site), Published(next, id.site), id.number)
    {
      assert AppliedVersion(EdgeOf(sys, id.site), Published(sys, id.site), id.number);
    }
  }

  lemma StartedMoves(e: Edge, vs: seq<Desired>, d: Desired)
    requires EdgeInv(e, vs) && d in vs
    ensures EdgeMoves(e, Started(e, d), vs)
  {
  }

  lemma EdgeStepsMove(e: Edge, vs: seq<Desired>, s: Name, rebooted: bool)
    requires EdgeInv(e, vs) && Ordered(vs, s)
    ensures EdgeMoves(e, AppliedInFull(e), vs) && EdgeMoves(e, Persisted(e), vs)
    ensures EdgeMoves(e, Acknowledged(e), vs) && EdgeMoves(e, Crashed(e, rebooted), vs)
  {
  }

  lemma AnswerKeeps(sys: System, s: Name)
    requires SystemInv(sys)
    ensures SystemInv(Step(sys, SendAck(s)))
  {
    var e := EdgeOf(sys, s);
    assert Ordered(Published(sys, s), s) && EdgeInv(e, Published(sys, s));
    EdgeStepsMove(e, Published(sys, s), s, false);
    EdgeChangeKeeps(sys, s, Acknowledged(e));
    var mid, next := WithEdge(sys, s, Acknowledged(e)), Step(sys, SendAck(s));
    forall u
      ensures EdgeOf(next, u) == EdgeOf(mid, u) && Published(next, u) == Published(mid, u)
    {
    }
    forall m | m in next.ackMail
      ensures AckInv(EdgeOf(next, m.site), m.site, m.number, m.ack)
    {
      if m in AnswerOf(e) {
        assert m.site == s;
      } else {
        assert AckInv(EdgeOf(mid, m.site), m.site, m.number, m.ack);
      }
    }
  }

  lemma AckRecordKeeps(sys: System, m: AckMessage)
    requires SystemInv(sys) && m in sys.ackMail
    ensures SystemInv(sys.(service := AckRecorded(sys.service, m)))
  {
    var next := sys.(service := AckRecorded(sys.service, m));
    forall s
      ensures EdgeOf(next, s) == EdgeOf(sys, s) && Published(next, s) == Published(sys, s)
    {
    }
    assert AckInv(EdgeOf(sys, m.site), m.site, m.number, m.ack);
    forall id | id in next.service.db.acks
      ensures AckInv(EdgeOf(next, id.site), id.site, id.number, next.service.db.acks[id])
    {
      if id in sys.service.db.acks {
        assert AckInv(EdgeOf(sys, id.site), id.site, id.number, sys.service.db.acks[id]);
      }
    }
    forall id | id in next.service.db.verified
      ensures AppliedVersion(EdgeOf(next, id.site), Published(next, id.site), id.number)
    {
      if id in sys.service.db.verified {
        assert AppliedVersion(EdgeOf(sys, id.site), Published(sys, id.site), id.number);
      } else {
        assert m.ack.digest in Published(next, m.site);
      }
    }
  }

  lemma AckKeeps(sys: System, m: AckMessage, promoted: bool)
    requires SystemInv(sys) && m in sys.ackMail
    ensures SystemInv(sys.(service := AckTaken(sys.service, m, promoted)))
  {
    AckRecordKeeps(sys, m);
    if promoted && Promotes(sys.service, m) {
      var mid := sys.(service := AckRecorded(sys.service, m));
      var next := sys.(service := AckTaken(sys.service, m, promoted));
      assert AckInv(EdgeOf(sys, m.site), m.site, m.number, m.ack);
      forall s
        ensures EdgeOf(next, s) == EdgeOf(mid, s) && Published(next, s) == Published(mid, s)
      {
      }
    }
  }

  lemma FetchKeeps(sys: System, s: Name)
    requires SystemInv(sys)
    ensures SystemInv(Step(sys, Fetch(s)))
  {
    var next, vs := Step(sys, Fetch(s)), Published(sys, s);
    assert Ordered(vs, s);
    forall u
      ensures EdgeOf(next, u) == EdgeOf(sys, u) && Published(next, u) == Published(sys, u)
    {
    }
  }

  /** Every event keeps the invariant: late, repeated and reordered messages, and stops of the service or of an edge
      between any two of their steps. */
  lemma StepKeepsInv(sys: System, e: Event)
    requires SystemInv(sys)
    ensures SystemInv(Step(sys, e))
  {
    match e
    case AckArrives(m, promoted) =>
      if m in sys.ackMail {
        AckKeeps(sys, m, promoted);
      }
    case Fetch(s) => FetchKeeps(sys, s);
    case Deliver(d) =>
      if d in sys.mail {
        StartedMoves(EdgeOf(sys, d.site), Published(sys, d.site), d);
        EdgeChangeKeeps(sys, d.site, Started(EdgeOf(sys, d.site), d));
      }
    case SendAck(s) => AnswerKeeps(sys, s);
    case Apply(s) => EdgeEventKeeps(sys, s, false);
    case Persist(s) => EdgeEventKeeps(sys, s, false);
    case Crash(s, rebooted) => EdgeEventKeeps(sys, s, rebooted);
    case _ =>
      ServiceStepQuiet(sys.service, e);
      ServiceChangeKeeps(sys, ServiceStep(sys.service, e));
  }

  lemma EdgeEventKeeps(sys: System, s: Name, rebooted: bool)
    requires SystemInv(sys)
    ensures SystemInv(Step(sys, Apply(s))) && SystemInv(Step(sys, Persist(s))) &&
            SystemInv(Step(sys, Crash(s, rebooted)))
  {
    var e, vs := EdgeOf(sys, s), Published(sys, s);
    assert Ordered(vs, s) && EdgeInv(e, vs);
    EdgeStepsMove(e, vs, s, rebooted);
    EdgeChangeKeeps(sys, s, AppliedInFull(e));
    EdgeChangeKeeps(sys, s, Persisted(e));
    EdgeChangeKeeps(sys, s, Crashed(e, rebooted));
  }
}
