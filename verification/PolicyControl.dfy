/** The policy service: site lifecycle, the intent compiler, and hub-first activation. */
module PolicyControl {
  import opened Basics
  import opened Json
  import opened DesiredStates
  import opened PolicyDatabase

  datatype Lifecycle =
    | Allocating | TopologyCreated | ZtpStaged | Enrolling | Enrolled | Registering | Provisioning
    | PendingHubs | Reconciling | Active | Failed | Deleting | Deleted
    | Requested | Allocated | Decommissioning | Revoked

  predicate InTransitionTable(from: Lifecycle, to: Lifecycle) {
    match from
    case Allocating => to in {TopologyCreated, Failed, Deleting}
    case TopologyCreated => to in {ZtpStaged, Failed, Deleting}
    case ZtpStaged => to in {Enrolling, Failed, Deleting}
    case Enrolling => to in {Enrolled, Failed, Deleting}
    case Enrolled => to in {Registering, Failed, Deleting}
    case Registering => to in {Provisioning, Failed, Deleting}
    case Provisioning => to in {PendingHubs, Reconciling, Active, Failed, Deleting}
    case PendingHubs => to in {Reconciling, Failed, Deleting}
    case Reconciling => to in {Active, PendingHubs, Failed, Deleting}
    case Active => to in {Deleting, Failed}
    case Failed => to in {TopologyCreated, Provisioning, Reconciling, Deleting}
    case Deleting => to in {Deleted, Failed}
    case Deleted => to in {Allocating}
    case Requested => to in {Allocating, Failed}
    case Allocated => to in {TopologyCreated, ZtpStaged, Failed, Deleting}
    case Decommissioning => to in {Revoked, Deleted, Failed}
    case Revoked => to in {Deleted}
  }

  predicate IsConfigured(l: Lifecycle) {
    l in {TopologyCreated, ZtpStaged, Enrolling, Enrolled, Registering, Provisioning, PendingHubs, Reconciling, Active}
  }

  /** The table by its second column: from where each state can be entered. */
  lemma TransitionsByTarget(from: Lifecycle, to: Lifecycle)
    ensures InTransitionTable(from, to) <==>
            match to
            case Failed => !from.Failed? && !from.Deleted? && !from.Revoked?
            case Deleting =>
              !from.Deleting? && !from.Deleted? && !from.Requested? && !from.Decommissioning? && !from.Revoked?
            case Deleted => from in {Deleting, Decommissioning, Revoked}
            case Allocating => from in {Deleted, Requested}
            case TopologyCreated => from in {Allocating, Failed, Allocated}
            case ZtpStaged => from in {TopologyCreated, Allocated}
            case Enrolling => from == ZtpStaged
            case Enrolled => from == Enrolling
            case Registering => from == Enrolled
            case Provisioning => from in {Registering, Failed}
            case PendingHubs => from in {Provisioning, Reconciling}
            case Reconciling => from in {Provisioning, PendingHubs, Failed}
            case Active => from in {Provisioning, Reconciling}
            case Revoked => from == Decommissioning
            case _ => false
  {
  }

  /** A site belongs to the topology from the creation of its topology on, unless it failed or is going away. */
  lemma ConfiguredMeaning(l: Lifecycle)
    ensures IsConfigured(l) <==>
            !l.Allocating? && !l.Failed? && !l.Deleting? && !l.Deleted? && !l.Requested? && !l.Allocated? &&
            !l.Decommissioning? && !l.Revoked?
  {
  }

  /** `base` holds the sites of the static topology, used when no inventory row is configured. */
  datatype Service = Service(db: Db, inventory: map<Name, Lifecycle>, base: set<Name>)

  function Configured(inventory: map<Name, Lifecycle>): set<Name> {
    set s | s in inventory && IsConfigured(inventory[s])
  }

  function Topology(inventory: map<Name, Lifecycle>, base: set<Name>): set<Name> {
    if Configured(inventory) == {} then base else Configured(inventory)
  }

  /** The configured sites; the static topology's while none is. */
  lemma TopologyMeaning(inventory: map<Name, Lifecycle>, base: set<Name>, s: Name)
    ensures s in Topology(inventory, base) <==>
            (s in inventory && IsConfigured(inventory[s])) ||
            (s in base && forall u :: u in inventory ==> !IsConfigured(inventory[u]))
  {
    assert forall u :: u in Configured(inventory) <==> u in inventory && IsConfigured(inventory[u]);
  }

  // ----- the intent compiler

  function PeersOf(db: Db, sites: set<Name>): map<Name, Name> {
    map s | s in sites && ActiveKey(db, s).Some? :: ActiveKey(db, s).value
  }

  function HubState(db: Db, sites: set<Name>, hub: Name): Body
    requires ActiveKey(db, OtherHub(hub)).Some?
  {
    var peers, key := PeersOf(db, sites), ActiveKey(db, OtherHub(hub)).value;
    HubBody([ToSpokes(0, peers, sites), ToHub(0, key), ToSpokes(1, peers, sites), ToHub(1, key),
             ToSpokes(2, peers, sites), ToHub(2, key)], db.ownership)
  }

  predicate HubsKnown(db: Db) { ActiveKey(db, HUB1).Some? && ActiveKey(db, HUB2).Some? }

  function SpokeState(db: Db, sites: set<Name>, s: Name): Body
    requires HubsKnown(db)
  {
    SpokeBody(ActiveKey(db, HUB1).value, ActiveKey(db, HUB2).value, sites - {s})
  }

  /** The comparison of the latest document in the store with a provisional one. */
  predicate EffectiveChanged(vs: seq<Desired>, s: Name, body: Body) {
    vs == [] || Differs(PublishedDocument(vs[|vs| - 1]), ProvisionalDocument(s, body))
  }

  /** A site is published for the first time, with another body, or because its document lists ownership rows. */
  lemma EffectiveChangedMeaning(vs: seq<Desired>, s: Name, body: Body)
    ensures EffectiveChanged(vs, s, body) <==>
            vs == [] || vs[|vs| - 1].site != s || vs[|vs| - 1].body != body || HasOwnership(body)
  {
    if vs != [] {
      PublishedAgain(vs[|vs| - 1], s, body);
    }
  }

  function Extended(vs: seq<Desired>, s: Name, body: Body): seq<Desired> {
    if EffectiveChanged(vs, s, body) then vs + [Desired(s, NextVersion(vs), NextVersion(vs), body)] else vs
  }

  /** What compilation does to one site's versions. */
  function CompiledFor(db: Db, inventory: map<Name, Lifecycle>, base: set<Name>, s: Name): seq<Desired> {
    var vs, sites := Versions(db.desired, s), Topology(inventory, base);
    if !HubsKnown(db) then vs
    else if IsHub(s) then Extended(vs, s, HubState(db, sites, s))
    else if s in inventory && inventory[s] == Active &&
      ActiveKey(db, s).Some? then Extended(vs, s, SpokeState(db, sites, s))
    else vs
  }

  function Compile(sv: Service): Service {
    var sites := sv.db.desired.Keys + sv.inventory.Keys + {HUB1, HUB2};
    sv.(db := sv.db.(desired := map s | s in sites :: CompiledFor(sv.db, sv.inventory, sv.base, s)))
  }

  // ----- single transactions

  /** The key of a known site, or of a hub, unless the table's constraints refuse it. */
  predicate CanCommitKey(sv: Service, s: Name, key: Name) {
    (IsHub(s) || s in Topology(sv.inventory, sv.base)) && RegisterResult(RowsOf(sv.db, s), key) != ConstraintViolation
  }

  function CommitKeyOf(sv: Service, s: Name, key: Name): Service {
    if CanCommitKey(sv, s, key) then sv.(db := sv.db.(keys := sv.db.keys[s := Register(RowsOf(sv.db, s), key)])) else sv
  }

  function CommitLifecycleOf(sv: Service, s: Name, to: Lifecycle): Service {
    if CanTransition(sv, s, to) then sv.(inventory := sv.inventory[s := to]) else sv
  }

  /** A new site row, or a deleted one taken up again. */
  function CommitRowOf(sv: Service, s: Name): Service {
    if IsHub(s) || (s in sv.inventory && sv.inventory[s] != Deleted) then sv
    else sv.(inventory := sv.inventory[s := Allocating])
  }

  /** Only a spoke without a row, or with a deleted one, gets a new row; every other row stays. */
  lemma RowMeaning(sv: Service, s: Name, u: Name)
    ensures var before, after := sv.inventory, CommitRowOf(sv, s).inventory;
            var starts := u == s && !IsHub(s) && (s !in before || before[s] == Deleted);
            && (u in after <==> u in before || starts)
            && (starts ==> after[u] == Allocating)
            && (!starts && u in before ==> after[u] == before[u])
  {
  }

  function CompileOneOf(sv: Service, s: Name): Service {
    sv.(db := sv.db.(desired := sv.db.desired[s := CompiledFor(sv.db, sv.inventory, sv.base, s)]))
  }

  /** Start-up inserts the missing rows of the static topology and compiles nothing. */
  function Restarted(sv: Service): Service {
    sv.(inventory := map s | s in sv.inventory.Keys + sv.base ::
      if s in sv.inventory then sv.inventory[s] else ZtpStaged)
  }

  // ----- whole operations

  predicate CanTransition(sv: Service, s: Name, to: Lifecycle) {
    s in sv.inventory && (sv.inventory[s] == to || InTransitionTable(sv.inventory[s], to))
  }

  /** An unknown site or an invalid transition is an error and changes nothing. */
  function Transition(sv: Service, s: Name, to: Lifecycle): Service {
    if CanTransition(sv, s, to) then Compile(CommitLifecycleOf(sv, s, to)) else sv
  }

  function Advance(sv: Service, s: Name, from: Lifecycle, to: Lifecycle): Service {
    if s in sv.inventory && sv.inventory[s] == from then Transition(sv, s, to) else sv
  }

  /** Registration of an authenticated edge's key: a refused key is an error and changes nothing. */
  function RegisterEdge(sv: Service, s: Name, key: Name): Service {
    if !CanCommitKey(sv, s, key) then sv
    else
      var s1 := CommitKeyOf(sv, s, key);
      var s2 := Advance(s1, s, ZtpStaged, Enrolling);
      var s3 := Advance(s2, s, Enrolling, Enrolled);
      var s4 := Advance(s3, s, Enrolled, Registering);
      var s5 := Advance(s4, s, Registering, Provisioning);
      Compile(s5)
  }

  function RetireSiteKey(sv: Service, s: Name): Service {
    if IsHub(s) || s !in sv.inventory then sv else sv.(db := sv.db.(keys := sv.db.keys[s := Retire(RowsOf(sv.db, s))]))
  }

  function AcknowledgeEdge(sv: Service, s: Name, number: nat, a: Ack): Service {
    if !AckAccepted(sv.db, s, number, a.digest) then sv
    else
      var acked := sv.(db := Acknowledge(sv.db, s, number, a));
      if a.status == Verified && s in sv.inventory &&
        sv.inventory[s] in {Provisioning, Reconciling} then Transition(acked, s, Active)
      else acked
  }

  datatype Activation = UnknownSite | KeysMissing | HubsUnverified | AlreadyPublished | ReservationFailed | Activated

  /** `reserved` is false if reservation fails for another reason than the site's own earlier leases. */
  function ActivationOutcome(sv: Service, s: Name, reserved: bool): Activation {
    if IsHub(s) || s !in Topology(sv.inventory, sv.base) then UnknownSite
    else if !HubsKnown(sv.db) || ActiveKey(sv.db, s).None? then KeysMissing
    else if !LatestIsVerified(sv.db, HUB1) || !LatestIsVerified(sv.db, HUB2) then HubsUnverified
    else if Versions(sv.db.desired, s) != [] then AlreadyPublished
    else if !reserved || s in sv.db.leases then ReservationFailed
    else Activated
  }

  /** Each outcome by its own condition, in the order of the checks. */
  lemma ActivationMeaning(sv: Service, s: Name, reserved: bool)
    ensures var r, sites := ActivationOutcome(sv, s, reserved), Topology(sv.inventory, sv.base);
            var keyed := forall u :: u in {HUB1, HUB2, s} ==> ActiveKey(sv.db, u).Some?;
            var ready := forall u :: u in {HUB1, HUB2} ==> LatestIsVerified(sv.db, u);
            var known, published := !IsHub(s) && s in sites, Versions(sv.db.desired, s) != [];
            && (r == UnknownSite <==> !known)
            && (r == KeysMissing <==> known && !keyed)
            && (r == HubsUnverified <==> known && keyed && !ready)
            && (r == AlreadyPublished <==> known && keyed && ready && published)
            && (r == ReservationFailed <==> known && keyed && ready && !published && (!reserved || s in sv.db.leases))
            && (r == Activated <==> known && keyed && ready && !published && reserved && s !in sv.db.leases)
  {
    assert HUB1 in {HUB1, HUB2, s} && HUB2 in {HUB1, HUB2, s} && s in {HUB1, HUB2, s};
    assert HUB1 in {HUB1, HUB2} && HUB2 in {HUB1, HUB2};
  }

  /** The document that activation publishes. */
  function FirstDocument(sv: Service, s: Name): Desired
    requires HubsKnown(sv.db)
  {
    Desired(s, 1, NextEpoch(sv.db, s), SpokeState(sv.db, Topology(sv.inventory, sv.base), s))
  }

  /** Activation commits leases, then ownership, then the document; `stop` of these are committed before the service
      stops, all of them if it is at least three. */
  function Activate(sv: Service, s: Name, reserved: bool, stop: nat): Service {
    if ActivationOutcome(sv, s, reserved) != Activated then sv
    else
      var d := FirstDocument(sv, s);
      sv.(db := sv.db.(
            leases := if stop >= 1 then sv.db.leases + {s} else sv.db.leases,
            ownership := if stop >= 2 then sv.db.ownership[s := NextEpoch(sv.db, s)] else sv.db.ownership,
            desired := if stop >= 3 then sv.db.desired[s := [d]] else sv.db.desired))
  }

  // ----- the service object

  class PolicyService {
    const store: PolicyStore
    const base: set<Name>
    var inventory: map<Name, Lifecycle>

    ghost function View(): Service
      reads this, store
    {
      Service(store.View(), inventory, base)
    }

    constructor (base: set<Name>)
      ensures fresh(store) && View() == Service(EMPTY_DB, map s | s in base :: ZtpStaged, base)
    {
      store := new PolicyStore();
      this.base := base;
      inventory := map s | s in base :: ZtpStaged;
    }

    static method CompileSite(db: Db, inventory: map<Name, Lifecycle>, base: set<Name>, s: Name)
      returns (vs: seq<Desired>)
      ensures vs == CompiledFor(db, inventory, base, s)
    {
      var sites := Topology(inventory, base);
      vs := Versions(db.desired, s);
      if HubsKnown(db) && IsHub(s) {
        var body := HubState(db, sites, s);
        if EffectiveChanged(vs, s, body) {
          vs := vs + [Desired(s, NextVersion(vs), NextVersion(vs), body)];
        }
      } else if HubsKnown(db) && s in inventory && inventory[s] == Active && ActiveKey(db, s).Some? {
        var body := SpokeState(db, sites, s);
        if EffectiveChanged(vs, s, body) {
          vs := vs + [Desired(s, NextVersion(vs), NextVersion(vs), body)];
        }
      }
    }

    static method CompileSites(db: Db, inventory: map<Name, Lifecycle>, base: set<Name>, sites: set<Name>)
      returns (r: map<Name, seq<Desired>>)
      ensures r == map s | s in sites :: CompiledFor(db, inventory, base, s)
    {
      r := map[];
      var todo := sites;
      while todo != {}
        invariant todo <= sites && r.Keys == sites - todo
        invariant forall s :: s in r ==> r[s] == CompiledFor(db, inventory, base, s)
        decreases |todo|
      {
        var s :| s in todo;
        todo := todo - {s};
        var vs := CompileSite(db, inventory, base, s);
        r := r[s := vs];
      }
    }

    method CompileControlState()
      modifies store`desired
      ensures View() == Compile(old(View()))
    {
      var r := CompileSites(store.View(), inventory, base, store.desired.Keys + inventory.Keys + {HUB1, HUB2});
      store.desired := r;
    }

    method TransitionSite(s: Name, to: Lifecycle) returns (ok: bool)
      modifies this`inventory, store`desired
      ensures ok == CanTransition(old(View()), s, to) && View() == Transition(old(View()), s, to)
    {
      if s !in inventory {
        return false;
      }
      if inventory[s] != to && !InTransitionTable(inventory[s], to) {
        return false;
      }
      inventory := inventory[s := to];
      CompileControlState();
      return true;
    }

    method AdvanceSite(s: Name, from: Lifecycle, to: Lifecycle)
      modifies this`inventory, store`desired
      ensures View() == Advance(old(View()), s, from, to)
    {
      if s in inventory && inventory[s] == from {
        var ok := TransitionSite(s, to);
      }
    }

    method RegisterEdgeIdentity(s: Name, key: Name)
      modifies this`inventory, store`desired, store`keys
      ensures View() == RegisterEdge(old(View()), s, key)
    {
      if !IsHub(s) && s !in Topology(inventory, base) {
        return;
      }
      var r := store.RegisterWireguardPublicKey(s, key);
      if r == ConstraintViolation {
        return;
      }
      if r == Idempotent {
        store.keys := store.keys[s := RowsOf(store.View(), s)];
      }
      AdvanceSite(s, ZtpStaged, Enrolling);
      AdvanceSite(s, Enrolling, Enrolled);
      AdvanceSite(s, Enrolled, Registering);
      AdvanceSite(s, Registering, Provisioning);
      CompileControlState();
    }

    method AckEdge(s: Name, number: nat, a: Ack) returns (accepted: bool)
      modifies this`inventory, store`desired, store`acks, store`verified
      ensures accepted == AckAccepted(old(View()).db, s, number, a.digest)
      ensures View() == AcknowledgeEdge(old(View()), s, number, a)
    {
      accepted := store.AckDesiredState(s, number, a);
      if accepted && a.status == Verified && s in inventory && inventory[s] in {Provisioning, Reconciling} {
        var ok := TransitionSite(s, Active);
      }
    }

    method ActivateSpoke(s: Name, reserved: bool) returns (r: Activation)
      modifies store`desired, store`leases, store`ownership
      ensures r == ActivationOutcome(old(View()), s, reserved) && View() == Activate(old(View()), s, reserved, 3)
    {
      var db, sites := store.View(), Topology(inventory, base);
      if IsHub(s) || s !in sites {
        return UnknownSite;
      }
      if !HubsKnown(db) || ActiveKey(db, s).None? {
        return KeysMissing;
      }
      if !LatestIsVerified(db, HUB1) || !LatestIsVerified(db, HUB2) {
        return HubsUnverified;
      }
      if Versions(db.desired, s) != [] {
        return AlreadyPublished;
      }
      if !reserved {
        return ReservationFailed;
      }
      var leased := store.ReserveResources(s);
      if !leased {
        assert store.leases == db.leases;
        return ReservationFailed;
      }
      var epoch := store.TransferOwnership(s);
      var d := Desired(s, 1, epoch, SpokeState(db, sites, s));
      assert [] + [d] == [d];
      var put := store.PutDesiredState(d);
      return Activated;
    }
  }
}
