/** The policy database: WireGuard keys, immutable desired-state versions and their acknowledgements. */
module PolicyDatabase {
  import opened Basics

  const HUB1: Name := 0
  const HUB2: Name := 1

  predicate IsHub(s: Name) { s == HUB1 || s == HUB2 }

  function OtherHub(hub: Name): Name { if hub == HUB1 then HUB2 else HUB1 }

  // ----- WireGuard public keys

  datatype KeyRow = KeyRow(generation: nat, key: Name)

  /** A site's rows: the table's uniqueness of (site, interface, status) leaves room for one row of each status. */
  datatype KeyRows = KeyRows(active: Option<KeyRow>, retired: Option<KeyRow>)

  const NO_KEYS := KeyRows(None, None)

  datatype Registration = Idempotent | Recorded | ConstraintViolation

  function RegisterResult(rows: KeyRows, key: Name): Registration {
    if rows.active.Some? && rows.active.value.key == key then Idempotent
    else if rows.active.Some? then (if rows.retired.Some? then ConstraintViolation else Recorded)
    else if rows.retired.Some? && rows.retired.value.generation == 1 then ConstraintViolation
    else Recorded
  }

  function Register(rows: KeyRows, key: Name): KeyRows {
    if RegisterResult(rows, key) != Recorded then rows
    else if rows.active.Some? then KeyRows(Some(KeyRow(rows.active.value.generation + 1, key)), rows.active)
    else rows.(active := Some(KeyRow(1, key)))
  }

  /** Retiring a site's key on deletion; refused by the same uniqueness when one is already retired. */
  function Retire(rows: KeyRows): KeyRows {
    if rows.active.None? || rows.retired.Some? then rows else KeyRows(None, rows.active)
  }

  datatype KeyOp = RegisterOp(key: Name) | RetireOp

  function ApplyKeyOps(ops: seq<KeyOp>): KeyRows {
    if ops == [] then NO_KEYS
    else
      var rows := ApplyKeyOps(ops[..|ops| - 1]);
      match ops[|ops| - 1] case RegisterOp(k) => Register(rows, k) case RetireOp => Retire(rows)
  }

  /** The store promises a rotation history. On its schema a site gets at most one: after any operations, a key that is
      not already active is accepted exactly when no earlier key was ever retired. */
  lemma {:induction false} OnlyOneRotation(ops: seq<KeyOp>, key: Name)
    ensures var rows := ApplyKeyOps(ops);
            && (rows.retired.Some? ==> rows.retired.value.generation == 1)
            && (rows.active.Some? ==> rows.active.value.generation == if rows.retired.Some? then 2 else 1)
            && (RegisterResult(rows, key) == Recorded <==>
                rows.retired.None? && !(rows.active.Some? && rows.active.value.key == key))
  {
    if ops != [] {
      OnlyOneRotation(ops[..|ops| - 1], key);
    }
  }

  /** After a second key nothing changes any more: every other key is refused, the first one included, and the second
      is not even retired. */
  lemma {:induction false} RotationIsFinal(a: Name, b: Name, more: seq<KeyOp>)
    requires a != b
    ensures ApplyKeyOps([RegisterOp(a), RegisterOp(b)] + more) == KeyRows(Some(KeyRow(2, b)), Some(KeyRow(1, a)))
    ensures forall c ::
            c != b ==> RegisterResult(ApplyKeyOps([RegisterOp(a), RegisterOp(b)] + more), c) == ConstraintViolation
    decreases |more|
  {
    var two := [RegisterOp(a), RegisterOp(b)];
    var ops := two + more;
    if more == [] {
      assert ops == two && two[..1] == [RegisterOp(a)] && two[..1][..0] == [];
      assert ApplyKeyOps(two[..1]) == KeyRows(Some(KeyRow(1, a)), None);
    } else {
      assert ops[..|ops| - 1] == two + more[..|more| - 1];
      RotationIsFinal(a, b, more[..|more| - 1]);
    }
  }

  // ----- desired states

  /** A WireGuard interface of a hub: towards the spokes, with a peer for every keyed site and a route for every site,
      or towards the other hub. */
  datatype Interface =
    | ToSpokes(transport: nat, peers: map<Name, Name>, routes: set<Name>)
    | ToHub(transport: nat, key: Name)

  /** What varies in a hub's or a spoke's document; `others` are the sites a spoke has routes to. */
  datatype Body =
    | HubBody(interfaces: seq<Interface>, ownership: map<Name, nat>)
    | SpokeBody(hub1Key: Name, hub2Key: Name, others: set<Name>)

  predicate HasOwnership(b: Body) { b.HubBody? && b.ownership != map[] }

  /** A published document. Its digest is modelled by the document itself: equal digests, equal documents. */
  datatype Desired = Desired(site: Name, version: nat, routeVersion: nat, body: Body)

  datatype VersionId = VersionId(site: Name, number: nat)

  datatype Status = Verified | StaleStatus | EdgeAhead

  datatype Ack = Ack(digest: Desired, routeVersion: nat, status: Status)

  datatype Db = Db(
    keys: map<Name, KeyRows>, desired: map<Name, seq<Desired>>, acks: map<VersionId, Ack>,
    verified: set<VersionId>, leases: set<Name>, ownership: map<Name, nat>)

  const EMPTY_DB := Db(map[], map[], map[], {}, {}, map[])

  function RowsOf(db: Db, s: Name): KeyRows {
    if s in db.keys then db.keys[s] else NO_KEYS
  }

  function ActiveKey(db: Db, s: Name): Option<Name> {
    var a := RowsOf(db, s).active;
    if a.Some? then Some(a.value.key) else None
  }

  /** A site's versions, oldest first. */
  function Versions(desired: map<Name, seq<Desired>>, s: Name): seq<Desired> {
    if s in desired then desired[s] else []
  }

  function NextVersion(vs: seq<Desired>): nat {
    if vs == [] then 1 else vs[|vs| - 1].version + 1
  }

  function Find(vs: seq<Desired>, number: nat): (r: Option<Desired>)
    ensures r.Some? ==> r.value in vs && r.value.version == number
    ensures r.None? ==> forall k :: 0 <= k < |vs| ==> vs[k].version != number
  {
    if vs == [] then None
    else if vs[|vs| - 1].version == number then Some(vs[|vs| - 1])
    else Find(vs[..|vs| - 1], number)
  }

  datatype PutResult = Stored | Repeated | VersionConflict

  function PutOutcome(vs: seq<Desired>, d: Desired): PutResult {
    if vs != [] && d.version < vs[|vs| - 1].version then VersionConflict
    else if Find(vs, d.version).Some? then (if Find(vs, d.version).value == d then Repeated else VersionConflict)
    else Stored
  }

  function Put(db: Db, d: Desired): Db {
    var vs := Versions(db.desired, d.site);
    if PutOutcome(vs, d) == Stored then db.(desired := db.desired[d.site := vs + [d]]) else db
  }

  predicate AckAccepted(db: Db, s: Name, number: nat, digest: Desired) {
    Find(Versions(db.desired, s), number) == Some(digest)
  }

  function Acknowledge(db: Db, s: Name, number: nat, a: Ack): Db {
    if !AckAccepted(db, s, number, a.digest) then db
    else db.(acks := db.acks[VersionId(s, number) := a],
             verified := if a.status == Verified then db.verified + {VersionId(s, number)} else db.verified)
  }

  function NextEpoch(db: Db, s: Name): nat {
    if s in db.ownership then db.ownership[s] + 1 else 1
  }

  predicate LatestIsVerified(db: Db, s: Name) {
    var vs := Versions(db.desired, s);
    vs != [] && var id := VersionId(s, vs[|vs| - 1].version); id in db.acks && db.acks[id].status == Verified
  }

  class PolicyStore {
    var keys: map<Name, KeyRows>
    var desired: map<Name, seq<Desired>>
    var acks: map<VersionId, Ack>
    var verified: set<VersionId>
    var leases: set<Name>
    var ownership: map<Name, nat>

    function View(): Db
      reads this
    {
      Db(keys, desired, acks, verified, leases, ownership)
    }

    constructor ()
      ensures View() == EMPTY_DB
    {
      keys, desired, acks, verified, leases, ownership := map[], map[], map[], {}, {}, map[];
    }

    method RegisterWireguardPublicKey(s: Name, key: Name) returns (r: Registration)
      modifies this`keys
      ensures r == RegisterResult(RowsOf(old(View()), s), key)
      ensures View() == if r != Recorded then old(View())
                        else old(View()).(keys := old(keys)[s := Register(RowsOf(old(View()), s), key)])
    {
      var rows := if s in keys then keys[s] else NO_KEYS;
      var current := rows.active;
      if current.Some? && current.value.key == key {
        return Idempotent;
      }
      var generation := if current.None? then 1 else current.value.generation + 1;
      if current.Some? {
        if rows.retired.Some? {
          return ConstraintViolation;
        }
        rows := KeyRows(None, current);
      }
      if rows.retired.Some? && rows.retired.value.generation == generation {
        return ConstraintViolation;
      }
      keys := keys[s := rows.(active := Some(KeyRow(generation, key)))];
      return Recorded;
    }

    method RetireKey(s: Name)
      modifies this`keys
      ensures View() == old(View()).(keys := old(keys)[s := Retire(RowsOf(old(View()), s))])
    {
      var rows := if s in keys then keys[s] else NO_KEYS;
      if rows.active.Some? && rows.retired.None? {
        rows := KeyRows(None, rows.active);
      }
      keys := keys[s := rows];
    }

    /** A site's address and port leases are inserted once and never deleted, so a second reservation fails. */
    method ReserveResources(s: Name) returns (ok: bool)
      modifies this`leases
      ensures ok == (s !in old(leases)) && View() == old(View()).(leases := old(leases) + {s})
    {
      ok := s !in leases;
      if ok {
        leases := leases + {s};
      }
    }

    /** Ownership moves to the next epoch. */
    method TransferOwnership(s: Name) returns (epoch: nat)
      modifies this`ownership
      ensures epoch == NextEpoch(old(View()), s) && View() == old(View()).(ownership := old(ownership)[s := epoch])
      ensures epoch == if s in old(ownership) then old(ownership)[s] + 1 else 1
    {
      epoch := if s in ownership then ownership[s] + 1 else 1;
      ownership := ownership[s := epoch];
    }

    method PutDesiredState(d: Desired) returns (r: PutResult)
      modifies this`desired
      ensures r == PutOutcome(Versions(old(desired), d.site), d) && View() == Put(old(View()), d)
    {
      var vs := if d.site in desired then desired[d.site] else [];
      if vs != [] && d.version < vs[|vs| - 1].version {
        return VersionConflict;
      }
      var existing := Find(vs, d.version);
      if existing.Some? {
        return if existing.value == d then Repeated else VersionConflict;
      }
      desired := desired[d.site := vs + [d]];
      return Stored;
    }

    method AckDesiredState(s: Name, number: nat, a: Ack) returns (accepted: bool)
      modifies this`acks, this`verified
      ensures accepted == AckAccepted(old(View()), s, number, a.digest) &&
              View() == Acknowledge(old(View()), s, number, a)
      ensures var id := VersionId(s, number);
              accepted ==>
                id in acks && acks[id] == a && (id in verified <==> a.status == Verified || id in old(verified))
    {
      var state := Find(if s in desired then desired[s] else [], number);
      if state.None? || state.value != a.digest {
        return false;
      }
      acks := acks[VersionId(s, number) := a];
      if a.status == Verified {
        verified := verified + {VersionId(s, number)};
      }
      return true;
    }
  }
}
