/** The site inventory's allocator: addresses, LAN octets, WireGuard indices and datapath identifiers. */
module Inventory {
  import opened Basics

  /** A logical site name: `siteN`, or any other accepted identifier. */
  datatype SiteName = Numbered(n: nat) | Plain(id: Name)

  datatype Row = Row(device: Name, deleted: bool, addressId: nat, wireguardIndex: nat, lanOctet: nat, dpid: nat)

  type Rows = map<SiteName, Row>

  datatype Outcome =
    | Existing | Created | Reallocated
    | DeviceAssigned | NumberUnavailable | PoolExhausted | BoundToOtherDevice

  function AddressIds(rows: Rows): set<nat> { set s | s in rows :: rows[s].addressId }
  function Octets(rows: Rows): set<nat> { set s | s in rows :: rows[s].lanOctet }
  function Indices(rows: Rows): set<nat> { set s | s in rows :: rows[s].wireguardIndex }
  function Dpids(rows: Rows): set<nat> { set s | s in rows :: rows[s].dpid }

  /** First value of the range that is not used. */
  function LeastFree(lo: nat, hi: nat, used: set<nat>): (r: Option<nat>)
    ensures r.Some? ==> lo <= r.value < hi && r.value !in used && forall v :: lo <= v < r.value ==> v in used
    ensures r.None? ==> forall v :: lo <= v < hi ==> v in used
    decreases hi - lo
  {
    if lo >= hi then None else if lo !in used then Some(lo) else LeastFree(lo + 1, hi, used)
  }

  /** `m` is the largest of `floor` and the members of `s`. */
  ghost predicate IsMax(m: nat, floor: nat, s: set<nat>) {
    (m == floor || m in s) && floor <= m && forall x :: x in s ==> x <= m
  }

  method MaxOf(floor: nat, s: set<nat>) returns (m: nat)
    ensures IsMax(m, floor, s)
  {
    m := floor;
    var todo := s;
    while todo != {}
      invariant todo <= s && (m == floor || m in s) && floor <= m
      invariant forall x :: x in s && x !in todo ==> x <= m
      decreases |todo|
    {
      var x :| x in todo;
      todo := todo - {x};
      if x > m {
        m := x;
      }
    }
  }

  method FirstFree(lo: nat, hi: nat, used: set<nat>) returns (r: Option<nat>)
    ensures r == LeastFree(lo, hi, used)
  {
    var v := lo;
    while v < hi
      invariant lo <= v && LeastFree(lo, hi, used) == LeastFree(v, hi, used)
    {
      if v !in used {
        return Some(v);
      }
      v := v + 1;
    }
    return None;
  }

  // ----- allocation

  predicate DeviceElsewhere(rows: Rows, site: SiteName, device: Name) {
    exists s :: s in rows && s != site && rows[s].device == device
  }

  function PickOctet(rows: Rows, site: SiteName): Option<nat> {
    match site
    case Numbered(n) => if n >= 254 || n in Octets(rows) then None else Some(n)
    case Plain(_) => LeastFree(1, 254, Octets(rows))
  }

  function AllocationOutcome(rows: Rows, site: SiteName, device: Name): Outcome {
    if DeviceElsewhere(rows, site, device) then DeviceAssigned
    else if site.Numbered? && PickOctet(rows, site).None? then NumberUnavailable
    else if LeastFree(11, 254, AddressIds(rows)).None? || PickOctet(rows, site).None? then PoolExhausted
    else if site !in rows then Created
    else if rows[site].device != device then BoundToOtherDevice
    else if !rows[site].deleted then Existing
    else Reallocated
  }

  /** The row a new site gets: least free address identifier, its octet, and one past the largest index and dpid. */
  ghost predicate IsNewRow(rows: Rows, site: SiteName, device: Name, r: Row) {
    r.device == device && !r.deleted &&
    LeastFree(11, 254, AddressIds(rows)) == Some(r.addressId) && PickOctet(rows, site) == Some(r.lanOctet) &&
    r.wireguardIndex > 0 && IsMax(r.wireguardIndex - 1, 1, Indices(rows)) && r.dpid > 0 &&
      IsMax(r.dpid - 1, 100, Dpids(rows))
  }

  /** How one allocation request changes the table. */
  ghost predicate Allocates(rows: Rows, site: SiteName, device: Name, after: Rows) {
    match AllocationOutcome(rows, site, device)
    case Created => exists r :: IsNewRow(rows, site, device, r) && after == rows[site := r]
    case Reallocated => after == rows[site := rows[site].(deleted := false)]
    case _ => after == rows
  }

  class DynamicInventory {
    var rows: Rows

    constructor (seed: Rows)
      ensures rows == seed
    {
      rows := seed;
    }

    method Allocate(site: SiteName, device: Name) returns (r: Outcome)
      modifies this
      ensures r == AllocationOutcome(old(rows), site, device) && Allocates(old(rows), site, device, rows)
    {
      if DeviceElsewhere(rows, site, device) {
        return DeviceAssigned;
      }
      var addressId := FirstFree(11, 254, AddressIds(rows));
      var octet: Option<nat>;
      if site.Numbered? {
        if site.n >= 254 || site.n in Octets(rows) {
          return NumberUnavailable;
        }
        octet := Some(site.n);
      } else {
        octet := FirstFree(1, 254, Octets(rows));
      }
      if addressId.None? || octet.None? {
        return PoolExhausted;
      }
      var index := MaxOf(1, Indices(rows));
      var dpid := MaxOf(100, Dpids(rows));
      if site in rows {
        if rows[site].device != device {
          return BoundToOtherDevice;
        }
        if !rows[site].deleted {
          return Existing;
        }
        rows := rows[site := rows[site].(deleted := false)];
        return Reallocated;
      }
      var row := Row(device, false, addressId.value, index + 1, octet.value, dpid + 1);
      assert IsNewRow(rows, site, device, row);
      rows := rows[site := row];
      return Created;
    }

    method Delete(site: SiteName)
      modifies this
      ensures rows == Deletes(old(rows), site)
    {
      if site in rows {
        rows := rows[site := rows[site].(deleted := true)];
      }
    }
  }

  function Deletes(rows: Rows, site: SiteName): Rows {
    if site in rows then rows[site := rows[site].(deleted := true)] else rows
  }

  // ----- outcomes

  predicate AddressTaken(rows: Rows, v: nat) { exists s :: s in rows && rows[s].addressId == v }

  predicate OctetTaken(rows: Rows, v: nat) { exists s :: s in rows && rows[s].lanOctet == v }

  /** `siteN` needs octet N, which must be below 254 and not in use. */
  predicate NumberRefused(rows: Rows, site: SiteName) {
    site.Numbered? && (site.n >= 254 || OctetTaken(rows, site.n))
  }

  ghost predicate NoRoom(rows: Rows, site: SiteName) {
    (forall v :: 11 <= v < 254 ==> AddressTaken(rows, v)) ||
    (site.Plain? && forall v :: 1 <= v < 254 ==> OctetTaken(rows, v))
  }

  /** Each outcome by its own condition: another site's device, a refused number and a full pool come first, also for a
      site that has a row already. */
  lemma OutcomeMeaning(rows: Rows, site: SiteName, device: Name)
    ensures var r := AllocationOutcome(rows, site, device);
            var elsewhere := exists s :: s in rows && s != site && rows[s].device == device;
            var proceeds := !elsewhere && !NumberRefused(rows, site) && !NoRoom(rows, site);
            && (r == DeviceAssigned <==> elsewhere)
            && (r == NumberUnavailable <==> !elsewhere && NumberRefused(rows, site))
            && (r == PoolExhausted <==> !elsewhere && !NumberRefused(rows, site) && NoRoom(rows, site))
            && (r == Created <==> proceeds && site !in rows)
            && (r == BoundToOtherDevice <==> proceeds && site in rows && rows[site].device != device)
            && (r == Existing <==> proceeds && site in rows && rows[site].device == device && !rows[site].deleted)
            && (r == Reallocated <==> proceeds && site in rows && rows[site].device == device && rows[site].deleted)
  {
    AddressesMeaning(rows);
    OctetsMeaning(rows, site);
  }

  lemma AddressesMeaning(rows: Rows)
    ensures LeastFree(11, 254, AddressIds(rows)).None? <==> forall v :: 11 <= v < 254 ==> AddressTaken(rows, v)
  {
    forall v
      ensures v in AddressIds(rows) <==> AddressTaken(rows, v)
    {
    }
    var id := LeastFree(11, 254, AddressIds(rows));
    assert id.Some? ==> !AddressTaken(rows, id.value);
  }

  lemma OctetsMeaning(rows: Rows, site: SiteName)
    ensures site.Numbered? ==> (PickOctet(rows, site).None? <==> NumberRefused(rows, site))
    ensures site.Plain? ==> (PickOctet(rows, site).None? <==> forall v :: 1 <= v < 254 ==> OctetTaken(rows, v))
  {
    forall v
      ensures v in Octets(rows) <==> OctetTaken(rows, v)
    {
    }
    var octet := LeastFree(1, 254, Octets(rows));
    assert octet.Some? ==> !OctetTaken(rows, octet.value);
  }

  // ----- what every allocation keeps

  predicate Apart(a: Row, b: Row) {
    a.addressId != b.addressId && a.lanOctet != b.lanOctet && a.wireguardIndex != b.wireguardIndex && a.dpid != b.dpid
  }

  /** Rows are pairwise apart, deleted ones included, and WireGuard indices follow the hubs'. */
  ghost predicate GoodRows(rows: Rows) {
    (forall s, t :: s in rows && t in rows && s != t ==> Apart(rows[s], rows[t])) &&
    forall s :: s in rows ==> rows[s].wireguardIndex >= 2
  }

  lemma NewRowIsApart(rows: Rows, site: SiteName, device: Name, r: Row, t: SiteName)
    requires IsNewRow(rows, site, device, r) && t in rows
    ensures Apart(r, rows[t])
  {
    assert rows[t].addressId in AddressIds(rows) && rows[t].lanOctet in Octets(rows);
    assert rows[t].wireguardIndex in Indices(rows) && rows[t].dpid in Dpids(rows);
  }

  lemma AllocationKeepsRowsGood(rows: Rows, site: SiteName, device: Name, after: Rows)
    requires GoodRows(rows) && Allocates(rows, site, device, after)
    ensures GoodRows(after)
  {
    if AllocationOutcome(rows, site, device) == Created {
      var r :| IsNewRow(rows, site, device, r) && after == rows[site := r];
      forall t | t in rows
        ensures Apart(r, rows[t])
      {
        NewRowIsApart(rows, site, device, r, t);
      }
    }
  }

  datatype Request = AllocateSite(site: SiteName, device: Name) | DeleteSite(site: SiteName)

  /** `tables` is a run of requests from a seeded table. */
  ghost predicate IsRun(tables: seq<Rows>, requests: seq<Request>) {
    |tables| == |requests| + 1 && GoodRows(tables[0]) && forall k: nat :: RequestAt(tables, requests, k)
  }

  ghost predicate RequestAt(tables: seq<Rows>, requests: seq<Request>, k: nat) {
    k < |requests| && k + 1 < |tables| ==>
      match requests[k]
      case AllocateSite(site, device) => Allocates(tables[k], site, device, tables[k + 1])
      case DeleteSite(site) => tables[k + 1] == Deletes(tables[k], site)
  }

  predicate SameResources(a: Row, b: Row) {
    a.addressId == b.addressId && a.lanOctet == b.lanOctet && a.wireguardIndex == b.wireguardIndex && a.dpid == b.dpid
  }

  /** No request withdraws a row or changes its resources. */
  ghost predicate Retains(before: Rows, after: Rows) {
    forall s :: s in before ==> s in after && SameResources(before[s], after[s])
  }

  lemma AllocationRetains(rows: Rows, site: SiteName, device: Name, after: Rows)
    requires Allocates(rows, site, device, after)
    ensures Retains(rows, after)
  {
  }

  lemma DeletionKeepsRowsGood(rows: Rows, site: SiteName)
    requires GoodRows(rows)
    ensures GoodRows(Deletes(rows, site)) && Retains(rows, Deletes(rows, site))
  {
  }

  lemma RetainsTransitive(a: Rows, b: Rows, c: Rows)
    requires Retains(a, b) && Retains(b, c)
    ensures Retains(a, c)
  {
  }

  /** Over every run the rows stay pairwise apart, and a site keeps the resources it was first given. */
  lemma {:induction false} RunKeepsRowsGood(tables: seq<Rows>, requests: seq<Request>, k: nat)
    requires IsRun(tables, requests) && k < |tables|
    ensures GoodRows(tables[k])
    ensures Retains(tables[0], tables[k])
  {
    if k > 0 {
      var j := k - 1;
      RunKeepsRowsGood(tables, requests, j);
      assert RequestAt(tables, requests, j);
      match requests[j] {
        case AllocateSite(site, device) =>
          AllocationKeepsRowsGood(tables[j], site, device, tables[k]);
          AllocationRetains(tables[j], site, device, tables[k]);
        case DeleteSite(site) =>
          DeletionKeepsRowsGood(tables[j], site);
      }
      RetainsTransitive(tables[0], tables[j], tables[k]);
    }
  }

  // ----- derived addresses and ports

  function SpokeAddress(network: nat, r: Row): nat { network + r.addressId }

  datatype Listener = SpokeListener(site: SiteName, hub: nat, transport: nat) | HubListener(hub: nat,
                                    transport: nat) | InterhubListener(hub: nat, transport: nat)

  predicate Valid(rows: Rows, l: Listener) {
    l.hub < 2 && l.transport < 3 && (l.SpokeListener? ==> l.site in rows)
  }

  function PortOf(start: nat, rows: Rows, l: Listener): nat
    requires Valid(rows, l)
  {
    match l
    case SpokeListener(s, hub, t) => start + rows[s].wireguardIndex * 64 + hub * 3 + t
    case HubListener(hub, t) => start + hub * 64 + t
    case InterhubListener(hub, t) => start + hub * 64 + 3 + t
  }

  /** Block of 64 ports and place inside it. */
  lemma PortSplits(i: nat, a: nat, j: nat, b: nat)
    requires a < 64 && b < 64 && i * 64 + a == j * 64 + b
    ensures i == j && a == b
  {
  }

  /** On a good table no two listeners share a port, and no two sites an underlay or overlay address. */
  lemma ListenersAndAddressesAreDistinct(rows: Rows, start: nat, network: nat, a: Listener, b: Listener, s: SiteName,
                                         t: SiteName)
    requires GoodRows(rows) && Valid(rows, a) && Valid(rows, b) && s in rows && t in rows
    ensures PortOf(start, rows, a) == PortOf(start, rows, b) ==> a == b
    ensures SpokeAddress(network, rows[s]) == SpokeAddress(network, rows[t]) ==> s == t
  {
    var ia, oa := Block(rows, a);
    var ib, ob := Block(rows, b);
    if PortOf(start, rows, a) == PortOf(start, rows, b) {
      PortSplits(ia, oa, ib, ob);
    }
  }

  lemma Block(rows: Rows, l: Listener) returns (i: nat, o: nat)
    requires Valid(rows, l)
    ensures o < 6 && forall start: nat :: PortOf(start, rows, l) == start + (i * 64 + o)
    ensures match l
            case SpokeListener(s, hub, t) => i == rows[s].wireguardIndex && o == hub * 3 + t
            case HubListener(hub, t) => i == hub && o == t
            case InterhubListener(hub, t) => i == hub && o == 3 + t
  {
    match l
    case SpokeListener(s, hub, t) => i, o := rows[s].wireguardIndex, hub * 3 + t;
    case HubListener(hub, t) => i, o := hub, t;
    case InterhubListener(hub, t) => i, o := hub, 3 + t;
  }

  // ----- siteN is bound to LAN octet N

  /** A `siteN` that the allocator made has octet N; a seeded one may have another. */
  ghost predicate OctetsNamed(seed: Rows, rows: Rows) {
    forall s :: s in rows && s.Numbered? && !(s in seed && seed[s].lanOctet != s.n) ==> rows[s].lanOctet == s.n
  }

  lemma RequestKeepsOctets(seed: Rows, before: Rows, request: Request, after: Rows)
    requires OctetsNamed(seed, before)
    requires match request
             case AllocateSite(site, device) => Allocates(before, site, device, after)
             case DeleteSite(site) => after == Deletes(before, site)
    ensures OctetsNamed(seed, after)
  {
  }

  lemma {:induction false} RunKeepsOctets(tables: seq<Rows>, requests: seq<Request>, k: nat)
    requires IsRun(tables, requests) && k < |tables|
    ensures OctetsNamed(tables[0], tables[k])
  {
    if k > 0 {
      var j := k - 1;
      RunKeepsOctets(tables, requests, j);
      assert RequestAt(tables, requests, j);
      RequestKeepsOctets(tables[0], tables[j], requests[j], tables[k]);
    }
  }

  /** Over every run, asking again for an existing `siteN` with its own device succeeds exactly if N is in range, no row
      holds LAN octet N and an address identifier is left -- so never for a site that holds octet N itself, which is
      every `siteN` except one seeded on another octet; deleting it first does not help. */
  lemma NumberedSitesCannotBeReallocated(tables: seq<Rows>, requests: seq<Request>, k: nat, n: nat)
    requires IsRun(tables, requests) && k < |tables| && Numbered(n) in tables[k]
    requires !DeviceElsewhere(tables[k], Numbered(n), tables[k][Numbered(n)].device)
    ensures var rows, site := tables[k], Numbered(n);
            AllocationOutcome(rows, site, rows[site].device) in {Existing, Reallocated} <==>
            n < 254 && n !in Octets(rows) && exists v :: 11 <= v < 254 && v !in AddressIds(rows)
    ensures AllocationOutcome(tables[k], Numbered(n), tables[k][Numbered(n)].device) in {Existing, Reallocated} ==>
              Numbered(n) in tables[0] && tables[0][Numbered(n)].lanOctet != n
  {
    RunKeepsOctets(tables, requests, k);
    var rows, site := tables[k], Numbered(n);
    assert rows[site].lanOctet in Octets(rows);
  }

  // ----- identifiers that other nodes hold

  /** No row has the identifier of a hub or cloud gateway. */
  ghost predicate Clear(rows: Rows, reserved: set<nat>) {
    forall s :: s in rows ==> rows[s].addressId !in reserved
  }

  /** An identifier of the pool is free that lies below every reserved one of the pool. */
  ghost predicate RoomBelow(rows: Rows, reserved: set<nat>) {
    exists v :: IsRoom(rows, reserved, v)
  }

  ghost predicate IsRoom(rows: Rows, reserved: set<nat>, v: nat) {
    11 <= v < 254 && v !in AddressIds(rows) && forall r :: r in reserved && 11 <= r ==> v < r
  }

  predicate Creates(rows: Rows, request: Request) {
    request.AllocateSite? && AllocationOutcome(rows, request.site, request.device) == Created
  }

  /** A new row stays clear of the reserved identifiers exactly if there was room below them. */
  lemma NewRowStaysClear(rows: Rows, site: SiteName, device: Name, r: Row, reserved: set<nat>)
    requires Clear(rows, reserved) && IsNewRow(rows, site, device, r)
    ensures r.addressId !in reserved <==> RoomBelow(rows, reserved)
  {
    if r.addressId !in reserved {
      forall x | x in reserved && 11 <= x
        ensures r.addressId < x
      {
        assert x < r.addressId ==> x in AddressIds(rows);
      }
      assert IsRoom(rows, reserved, r.addressId);
    }
    if v :| IsRoom(rows, reserved, v) {
      assert r.addressId <= v;
    }
  }

  lemma RequestStaysClear(before: Rows, request: Request, after: Rows, reserved: set<nat>)
    requires Clear(before, reserved)
    requires match request
             case AllocateSite(site, device) => Allocates(before, site, device, after)
             case DeleteSite(site) => after == Deletes(before, site)
    ensures Clear(after, reserved) <==> (Creates(before, request) ==> RoomBelow(before, reserved))
  {
    if Creates(before, request) {
      var r :| IsNewRow(before, request.site, request.device, r) && after == before[request.site := r];
      NewRowStaysClear(before, request.site, request.device, r, reserved);
      assert after[request.site] == r;
    }
  }

  /** At every creation among the first `k` requests there was room below the reserved identifiers. */
  ghost predicate RoomUntil(tables: seq<Rows>, requests: seq<Request>, reserved: set<nat>, k: nat)
    requires k <= |requests| < |tables|
  {
    forall j :: 0 <= j < k ==> (Creates(tables[j], requests[j]) ==> RoomBelow(tables[j], reserved))
  }

  lemma {:induction false} ClearWhileThereIsRoom(tables: seq<Rows>, requests: seq<Request>, reserved: set<nat>, k: nat)
    requires IsRun(tables, requests) && k < |tables| && Clear(tables[0], reserved)
    ensures Clear(tables[k], reserved) <==> RoomUntil(tables, requests, reserved, k)
  {
    if k > 0 {
      var j := k - 1;
      ClearWhileThereIsRoom(tables, requests, reserved, j);
      assert RequestAt(tables, requests, j);
      if Clear(tables[j], reserved) {
        RequestStaysClear(tables[j], requests[j], tables[k], reserved);
      } else {
        StepRetains(tables, requests, j);
        assert !Clear(tables[k], reserved);
      }
    }
  }

  lemma StepRetains(tables: seq<Rows>, requests: seq<Request>, j: nat)
    requires IsRun(tables, requests) && j < |requests|
    ensures Retains(tables[j], tables[j + 1])
  {
    assert RequestAt(tables, requests, j);
    match requests[j] {
      case AllocateSite(site, device) => AllocationRetains(tables[j], site, device, tables[j + 1]);
      case DeleteSite(site) =>
    }
  }

  /** The validation of a topology with these configured sites: all identifiers of hubs, sites and gateways are positive
      and different. */
  ghost predicate IdsValid(others: seq<nat>, rows: Rows, configured: set<SiteName>)
    requires configured <= rows.Keys
  {
    OthersValid(others) && (forall s :: s in configured ==> rows[s].addressId > 0 && rows[s].addressId !in others) &&
    forall s, t :: s in configured && t in configured && s != t ==> rows[s].addressId != rows[t].addressId
  }

  ghost predicate OthersValid(others: seq<nat>) {
    (forall i :: 0 <= i < |others| ==> others[i] > 0) && forall i, j :: 0 <= i < j < |others| ==> others[i] != others[j]
  }

  /** Over every run from a table that is clear of the hubs' and gateways' identifiers: the topology of all sites passes
      validation exactly while every creation found room below those identifiers. Afterwards every topology that
      contains the colliding site is refused, since a site keeps its identifier. */
  lemma ValidWhileThereIsRoom(tables: seq<Rows>, requests: seq<Request>, others: seq<nat>, k: nat)
    requires IsRun(tables, requests) && k < |tables| && OthersValid(others) && Clear(tables[0], ToSet(others))
    requires forall s :: s in tables[0] ==> tables[0][s].addressId > 0
    ensures IdsValid(others, tables[k], tables[k].Keys) <==> RoomUntil(tables, requests, ToSet(others), k)
  {
    ClearWhileThereIsRoom(tables, requests, ToSet(others), k);
    RunKeepsRowsGood(tables, requests, k);
    RunKeepsIdsPositive(tables, requests, k);
    ToSetMeaning(others);
  }

  /** A topology passes exactly if none of its sites holds a reserved identifier, and a collision never goes away: every
      later topology that contains the colliding site is refused. */
  lemma {:induction false} CollisionStays(tables: seq<Rows>, requests: seq<Request>, others: seq<nat>, j: nat, k: nat,
                                          s: SiteName, configured: set<SiteName>)
    requires IsRun(tables, requests) && j <= k < |tables| && s in tables[j] && tables[j][s].addressId in others
    requires configured <= tables[k].Keys && s in configured
    ensures !IdsValid(others, tables[k], configured)
  {
    RetainedUntil(tables, requests, j, k);
  }

  lemma {:induction false} RetainedUntil(tables: seq<Rows>, requests: seq<Request>, j: nat, k: nat)
    requires IsRun(tables, requests) && j <= k < |tables|
    ensures Retains(tables[j], tables[k])
  {
    if j < k {
      RetainedUntil(tables, requests, j, k - 1);
      StepRetains(tables, requests, k - 1);
      RetainsTransitive(tables[j], tables[k - 1], tables[k]);
    }
  }

  lemma {:induction false} RunKeepsIdsPositive(tables: seq<Rows>, requests: seq<Request>, k: nat)
    requires IsRun(tables, requests) && k < |tables| && forall s :: s in tables[0] ==> tables[0][s].addressId > 0
    ensures forall s :: s in tables[k] ==> tables[k][s].addressId > 0
  {
    if k > 0 {
      var j := k - 1;
      RunKeepsIdsPositive(tables, requests, j);
      assert RequestAt(tables, requests, j);
    }
  }

  // ----- a run into a reserved identifier

  function RowOf(n: nat): Row { Row(n, false, n + 10, n + 1, n, n + 100) }

  /** Sites 1 to `c` as the shipped topology numbers them. */
  function Numbering(c: nat): Rows {
    map n: nat | 1 <= n <= c :: Numbered(n) := RowOf(n)
  }

  lemma NumberingRows(c: nat)
    ensures forall n: nat :: Numbered(n) in Numbering(c) <==> 1 <= n <= c
    ensures forall n: nat :: 1 <= n <= c ==> Numbering(c)[Numbered(n)] == RowOf(n)
    ensures forall s :: s in Numbering(c) ==> s.Numbered? && Numbering(c)[s] == RowOf(s.n)
    ensures GoodRows(Numbering(c))
  {
  }

  lemma NumberingUses(c: nat, v: nat)
    ensures v in AddressIds(Numbering(c)) <==> 11 <= v <= c + 10
    ensures v in Octets(Numbering(c)) <==> 1 <= v <= c
    ensures v in Indices(Numbering(c)) <==> 2 <= v <= c + 1
    ensures v in Dpids(Numbering(c)) <==> 101 <= v <= c + 100
  {
    NumberingRows(c);
    var rows := Numbering(c);
    if 11 <= v <= c + 10 {
      assert rows[Numbered(v - 10)].addressId == v;
    }
    if 1 <= v <= c {
      assert rows[Numbered(v)].lanOctet == v;
    }
    if 2 <= v <= c + 1 {
      assert rows[Numbered(v - 1)].wireguardIndex == v;
    }
    if 101 <= v <= c + 100 {
      assert rows[Numbered(v - 100)].dpid == v;
    }
  }

  /** Rows that use exactly the resources of the first `c` sites. */
  ghost predicate Uses(rows: Rows, c: nat) {
    (forall v: nat :: v in AddressIds(rows) <==> 11 <= v <= c + 10) &&
      (forall v: nat :: v in Octets(rows) <==> 1 <= v <= c) &&
    (forall v: nat :: v in Indices(rows) <==> 2 <= v <= c + 1) &&
      (forall v: nat :: v in Dpids(rows) <==> 101 <= v <= c + 100)
  }

  lemma LeastFreeIs(lo: nat, hi: nat, used: set<nat>, v: nat)
    requires lo <= v < hi && v !in used && forall x :: lo <= x < v ==> x in used
    ensures LeastFree(lo, hi, used) == Some(v)
  {
  }

  lemma NextRow(rows: Rows, c: nat)
    requires Uses(rows, c) && 1 <= c <= 242
    ensures IsNewRow(rows, Numbered(c + 1), c + 1, RowOf(c + 1))
  {
    LeastFreeIs(11, 254, AddressIds(rows), c + 11);
    assert c + 1 in Indices(rows) && c + 100 in Dpids(rows);
  }

  lemma AllocatesNext(rows: Rows, c: nat)
    requires Uses(rows, c) && 1 <= c <= 242 && Numbered(c + 1) !in rows && forall s :: s in rows ==> rows[s].device <= c
    ensures Allocates(rows, Numbered(c + 1), c + 1, rows[Numbered(c + 1) := RowOf(c + 1)])
  {
    NextRow(rows, c);
  }

  lemma NumberingUsesAll(c: nat)
    ensures Uses(Numbering(c), c)
  {
    forall v: nat
      ensures v in AddressIds(Numbering(c)) <==> 11 <= v <= c + 10
      ensures v in Octets(Numbering(c)) <==> 1 <= v <= c
      ensures v in Indices(Numbering(c)) <==> 2 <= v <= c + 1
      ensures v in Dpids(Numbering(c)) <==> 101 <= v <= c + 100
    {
      NumberingUses(c, v);
    }
  }

  lemma NumberingNext(c: nat)
    ensures Numbering(c + 1) == Numbering(c)[Numbered(c + 1) := RowOf(c + 1)]
  {
    NumberingRows(c);
    NumberingRows(c + 1);
  }

  ghost predicate Numbers(tables: seq<Rows>, c: nat) {
    forall j :: 0 <= j < |tables| ==> tables[j] == Numbering(c + j)
  }

  lemma RunGrows(tables: seq<Rows>, requests: seq<Request>, rows: Rows, site: SiteName, device: Name, next: Rows)
    requires IsRun(tables, requests) && tables[|requests|] == rows && Allocates(rows, site, device, next)
    ensures IsRun(tables + [next], requests + [AllocateSite(site, device)])
  {
    var longer, more := tables + [next], requests + [AllocateSite(site, device)];
    forall j: nat
      ensures RequestAt(longer, more, j)
    {
      if j < |requests| {
        assert RequestAt(tables, requests, j);
      }
    }
  }

  lemma NumbersOne(c: nat)
    ensures Numbers([Numbering(c)], c) && IsRun([Numbering(c)], [])
  {
    NumberingRows(c);
  }

  lemma NumbersMore(tables: seq<Rows>, c: nat, next: Rows)
    requires Numbers(tables, c) && next == Numbering(c + |tables|)
    ensures Numbers(tables + [next], c)
  {
  }

  lemma NumberingStep(tables: seq<Rows>, requests: seq<Request>, c: nat, n: nat)
    returns (more: seq<Rows>, longer: seq<Request>)
    requires IsRun(tables, requests) && Numbers(tables, c) && n == c + |requests| && 1 <= n <= 242
    ensures IsRun(more, longer) && |longer| == |requests| + 1 && Numbers(more, c)
  {
    assert tables[|requests|] == Numbering(n);
    more, longer := NumberingRunStep(tables, requests, n);
    NumbersMore(tables, c, Numbering(n + 1));
  }

  /** The next site in the numbering is what the allocator creates next. */
  lemma RunGrowsBy(tables: seq<Rows>, requests: seq<Request>, rows: Rows, n: nat)
    requires IsRun(tables, requests) && tables[|requests|] == rows && Uses(rows, n) && 1 <= n <= 242
    requires Numbered(n + 1) !in rows && forall s :: s in rows ==> rows[s].device <= n
    ensures IsRun(tables + [rows[Numbered(n + 1) := RowOf(n + 1)]], requests + [AllocateSite(Numbered(n + 1), n + 1)])
  {
    AllocatesNext(rows, n);
    RunGrows(tables, requests, rows, Numbered(n + 1), n + 1, rows[Numbered(n + 1) := RowOf(n + 1)]);
  }

  lemma NumberingRunStep(tables: seq<Rows>, requests: seq<Request>, n: nat)
    returns (more: seq<Rows>, longer: seq<Request>)
    requires IsRun(tables, requests) && tables[|requests|] == Numbering(n) && 1 <= n <= 242
    ensures IsRun(more, longer) && |longer| == |requests| + 1 && more == tables + [Numbering(n + 1)]
  {
    NumberingUsesAll(n);
    NumberingRows(n);
    NumberingNext(n);
    RunGrowsBy(tables, requests, Numbering(n), n);
    more, longer := tables + [Numbering(n + 1)], requests + [AllocateSite(Numbered(n + 1), n + 1)];
  }

  lemma {:induction false} NumberingRun(c: nat, k: nat) returns (tables: seq<Rows>, requests: seq<Request>)
    requires 1 <= c && c + k <= 243
    ensures IsRun(tables, requests) && |requests| == k && Numbers(tables, c)
  {
    if k == 0 {
      NumbersOne(c);
      tables, requests := [Numbering(c)], [];
    } else {
      var before, asked := NumberingRun(c, k - 1);
      tables, requests := NumberingStep(before, asked, c, c + k - 1);
    }
  }

  lemma NumberingValid(c: nat, others: seq<nat>)
    requires OthersValid(others) && forall i :: 0 <= i < |others| ==> others[i] <= 10 || others[i] > c + 10
    ensures IdsValid(others, Numbering(c), Numbering(c).Keys)
  {
    NumberingRows(c);
  }

  lemma NumberingCollides(c: nat, others: seq<nat>, i: nat)
    requires i < |others| && 11 <= others[i] <= c + 10
    ensures !IdsValid(others, Numbering(c), Numbering(c).Keys)
  {
    NumberingRows(c);
    assert Numbering(c)[Numbered(others[i] - 10)].addressId == others[i];
  }

  /** With the shipped topology, five seeded sites and cloud gateways on identifiers 21 and 22, six further sites are
      enough: the sixth gets 21, and the topology fails validation from then on. */
  lemma ReservedIdIsAllocated() returns (tables: seq<Rows>, requests: seq<Request>, others: seq<nat>)
    ensures IsRun(tables, requests) && |requests| == 6 && tables[0] == Numbering(5) && others == [1, 2, 21, 22]
    ensures IdsValid(others, tables[0], tables[0].Keys) && IdsValid(others, tables[5], tables[5].Keys)
    ensures Numbered(11) in tables[6] && tables[6][Numbered(11)].addressId == 21
    ensures !IdsValid(others, tables[6], tables[6].Keys)
  {
    others := [1, 2, 21, 22];
    tables, requests := NumberingRun(5, 6);
    NumberingValid(5, others);
    NumberingValid(10, others);
    NumberingCollides(11, others, 2);
    NumberingRows(11);
    assert tables[0] == Numbering(5) && tables[5] == Numbering(10) && tables[6] == Numbering(11);
  }
}
