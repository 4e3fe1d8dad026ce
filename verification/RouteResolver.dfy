/** Edge-local choice of a replacement target under central policy constraints. */
module RouteResolver {
  import opened Basics
  import opened TunnelHealth
  import opened HubHealth

  datatype Target = Target(
    hub: Option<Name>, transport: Name, interface: Name, egress: EgressMode,
    tunnelState: TunnelState, hubState: Option<HubState>,
    rtt: Option<real>, jitter: Option<real>, loss: Option<real>, available: Option<real>, cost: real)
  {
    predicate Usable() {
      tunnelState == Healthy &&
      (egress == HubOverlay ==> hubState.Some? && hubState.value in {HubHealthy, Degraded})
    }
  }

  /** The hubs a policy prefers, in order. */
  datatype Preference = Preference(preferred: Name, standby: Name)

  /** A missing value sorts after every number. */
  function OrInfinity(v: Option<real>): seq<real> {
    match v case Some(x) => [0.0, x] case None => [1.0, 0.0]
  }

  function SortKey(t: Target, pref: Preference): seq<real> {
    [HubRank(t, pref)] + MeasuredKeyOf(t)
  }

  function HubRank(t: Target, pref: Preference): real {
    if t.hub == Some(pref.preferred) then 0.0 else if t.hub == Some(pref.standby) then 1.0 else 2.0
  }

  function MeasuredKeyOf(t: Target): seq<real> {
    [if t.loss.Some? then t.loss.value else 101.0] + OrInfinity(t.jitter) + OrInfinity(t.rtt)
    + [-(if t.available.Some? then t.available.value else 0.0), t.cost, t.interface as real]
  }

  // ----- the order, field by field

  /** What the order looks at. */
  datatype Rating = Rating(hub: Option<Name>, loss: Option<real>, jitter: Option<real>, rtt: Option<real>,
                           available: Option<real>, cost: real, interface: Name)

  function RatingOf(t: Target): Rating { Rating(t.hub, t.loss, t.jitter, t.rtt, t.available, t.cost, t.interface) }

  /** The preferred hub comes before any other, and the standby before any third. */
  predicate BetterHub(a: Option<Name>, b: Option<Name>, pref: Preference) {
    (a == Some(pref.preferred) && b != Some(pref.preferred)) ||
    (a == Some(pref.standby) && b != Some(pref.preferred) && b != Some(pref.standby))
  }

  predicate Sooner(a: Option<real>, b: Option<real>) { a.Some? && (b.None? || a.value < b.value) }

  function LossOf(a: Rating): real { if a.loss.Some? then a.loss.value else 101.0 }

  function AvailableOf(a: Rating): real { if a.available.Some? then a.available.value else 0.0 }

  /** On hubs of equal rank: least loss, a missing one counting as 101 percent; then least jitter and least round trip,
      missing ones last; then most available bandwidth, least cost, least interface. */
  predicate NoWorseMeasured(a: Rating, b: Rating) {
    LossOf(a) < LossOf(b) ||
    (LossOf(a) == LossOf(b) &&
     (Sooner(a.jitter, b.jitter) ||
      (a.jitter == b.jitter &&
       (Sooner(a.rtt, b.rtt) ||
        (a.rtt == b.rtt &&
         (AvailableOf(a) > AvailableOf(b) ||
          (AvailableOf(a) == AvailableOf(b) &&
           (a.cost < b.cost || (a.cost == b.cost && a.interface <= b.interface)))))))))
  }

  predicate NoWorse(a: Rating, b: Rating, pref: Preference) {
    BetterHub(a.hub, b.hub, pref) || (!BetterHub(b.hub, a.hub, pref) && NoWorseMeasured(a, b))
  }

  lemma LexCons(a: real, x: seq<real>, b: real, y: seq<real>)
    ensures LexLe([a] + x, [b] + y) <==> a < b || (a == b && LexLe(x, y))
  {
    assert ([a] + x)[1..] == x && ([b] + y)[1..] == y;
  }

  lemma MeasuredKey(t: Target, u: Target)
    ensures LexLe(MeasuredKeyOf(t), MeasuredKeyOf(u)) <==> NoWorseMeasured(RatingOf(t), RatingOf(u))
  {
    var a, b := RatingOf(t), RatingOf(u);
    var i, j := [t.interface as real], [u.interface as real];
    var c, d := [t.cost] + i, [u.cost] + j;
    var v, w := [-AvailableOf(a)] + c, [-AvailableOf(b)] + d;
    var p, q := OrInfinity(t.rtt), OrInfinity(u.rtt);
    var r, s := OrInfinity(t.jitter), OrInfinity(u.jitter);
    LexCons(t.interface as real, [], u.interface as real, []);
    LexCons(t.cost, i, u.cost, j);
    LexCons(-AvailableOf(a), c, -AvailableOf(b), d);
    LexPair(p, v, q, w);
    LexPair(r, p + v, s, q + w);
    LexCons(LossOf(a), r + (p + v), LossOf(b), s + (q + w));
    assert MeasuredKeyOf(t) == [LossOf(a)] + (r + (p + v)) && MeasuredKeyOf(u) == [LossOf(b)] + (s + (q + w));
  }

  lemma LexPair(a: seq<real>, x: seq<real>, b: seq<real>, y: seq<real>)
    requires |a| == 2 && |b| == 2
    ensures LexLe(a + x, b + y) <==> a[0] < b[0] || (a[0] == b[0] && (a[1] < b[1] || (a[1] == b[1] && LexLe(x, y))))
  {
    assert a + x == [a[0]] + ([a[1]] + x) && b + y == [b[0]] + ([b[1]] + y);
    LexCons(a[0], [a[1]] + x, b[0], [b[1]] + y);
    LexCons(a[1], x, b[1], y);
  }

  /** The sort key orders targets by exactly those rules. */
  lemma SortKeyMeaning(t: Target, u: Target, pref: Preference)
    ensures LexLe(SortKey(t, pref), SortKey(u, pref)) <==> NoWorse(RatingOf(t), RatingOf(u), pref)
  {
    MeasuredKey(t, u);
    LexCons(HubRank(t, pref), MeasuredKeyOf(t), HubRank(u, pref), MeasuredKeyOf(u));
  }

  predicate IsCandidate(t: Target, egress: EgressMode, transport: Name) {
    t.egress == egress && t.transport == transport && t.Usable()
  }

  function Candidates(targets: seq<Target>, egress: EgressMode, transport: Name): (r: seq<Target>)
    ensures forall t :: t in r <==> t in targets && IsCandidate(t, egress, transport)
  {
    if targets == [] then []
    else
      assert targets == [targets[0]] + targets[1..];
      (if IsCandidate(targets[0], egress, transport) then [targets[0]] else [])
      + Candidates(targets[1..], egress, transport)
  }

  /** Head of the stable sort by `SortKey`. */
  function Best(ts: seq<Target>, pref: Preference): (b: Target)
    requires ts != []
    ensures b in ts
    ensures forall t :: t in ts ==> LexLe(SortKey(b, pref), SortKey(t, pref))
  {
    var last := ts[|ts| - 1];
    assert ts == ts[..|ts| - 1] + [last];
    LexTotal(SortKey(last, pref), SortKey(last, pref));
    if |ts| == 1 then last
    else
      var b := Best(ts[..|ts| - 1], pref);
      LexTotal(SortKey(b, pref), SortKey(last, pref));
      if LexLe(SortKey(b, pref), SortKey(last, pref)) then b
      else
        (forall t | t in ts[..|ts| - 1]
           ensures LexLe(SortKey(last, pref), SortKey(t, pref)) {
           LexTransitive(SortKey(last, pref), SortKey(b, pref), SortKey(t, pref));
         }
         last)
  }

  function FirstTransport(egress: EgressMode, ranked: seq<Name>, pref: Preference,
                          targets: seq<Target>): Option<Target> {
    if ranked == [] then None
    else
      var c := Candidates(targets, egress, ranked[0]);
      if c != [] then Some(Best(c, pref)) else FirstTransport(egress, ranked[1..], pref, targets)
  }

  function FirstEgress(allowed: seq<EgressMode>, ranked: seq<Name>, pref: Preference,
                       targets: seq<Target>): Option<Target> {
    if allowed == [] then None
    else
      var r := FirstTransport(allowed[0], ranked, pref, targets);
      if r.Some? then r else FirstEgress(allowed[1..], ranked, pref, targets)
  }

  function Resolution(ranked: seq<Name>, allowed: seq<EgressMode>, pref: Preference, targets: seq<Target>,
                      current: Option<Target>, hardFailure: bool): Option<Target> {
    if current.Some? && current.value.Usable() && !hardFailure && current.value.egress in allowed then current
    else FirstEgress(allowed, ranked, pref, targets)
  }

  method Resolve(ranked: seq<Name>, allowed: seq<EgressMode>, pref: Preference, targets: seq<Target>,
                 current: Option<Target>, hardFailure: bool) returns (r: Option<Target>)
    ensures r == Resolution(ranked, allowed, pref, targets, current, hardFailure)
  {
    if current.Some? && current.value.Usable() && !hardFailure && current.value.egress in allowed {
      return current;
    }
    for i := 0 to |allowed|
      invariant FirstEgress(allowed, ranked, pref, targets) == FirstEgress(allowed[i..], ranked, pref, targets)
    {
      for j := 0 to |ranked|
        invariant FirstTransport(allowed[i], ranked, pref, targets) == FirstTransport(allowed[i], ranked[j..], pref,
                  targets)
      {
        var c := Candidates(targets, allowed[i], ranked[j]);
        if c != [] {
          assert ranked[j..][0] == ranked[j] && allowed[i..][0] == allowed[i];
          return Some(Best(c, pref));
        }
        assert ranked[j..][1..] == ranked[j + 1..];
      }
      assert allowed[i..][0] == allowed[i] && allowed[i..][1..] == allowed[i + 1..];
    }
    return None;
  }

  /** A healthy tunnel whose hub, if it goes through one, has been seen, is reachable and is not recovering. */
  predicate Serves(t: Target) {
    t.tunnelState == Healthy &&
    (t.egress == HubOverlay ==>
      t.hubState.Some? &&
      !t.hubState.value.HubUnknown? && !t.hubState.value.Unreachable? && !t.hubState.value.HubRecovering?)
  }

  lemma UsableMeaning(t: Target)
    ensures t.Usable() <==> Serves(t)
  {
    assert t.hubState.Some? ==>
        var h := t.hubState.value; h.HubHealthy? || h.Degraded? || h.HubUnknown? || h.Unreachable? || h.HubRecovering?;
  }

  predicate ServesOn(t: Target, egress: EgressMode, transport: Name) {
    Serves(t) && t.egress == egress && t.transport == transport
  }

  ghost predicate NoneOn(targets: seq<Target>, egress: EgressMode, transport: Name) {
    forall u :: u in targets ==> !ServesOn(u, egress, transport)
  }

  /** `t` serves on `transport`, and no other target there is ahead of it. */
  ghost predicate LeadsOn(t: Target, targets: seq<Target>, egress: EgressMode, transport: Name, pref: Preference) {
    t in targets && ServesOn(t, egress, transport) &&
    forall u :: u in targets && ServesOn(u, egress, transport) ==> NoWorse(RatingOf(t), RatingOf(u), pref)
  }

  /** `t` leads the `j`-th ranked transport, and the ones ranked before it have no candidate. */
  ghost predicate LeadsAt(t: Target, j: nat, egress: EgressMode, ranked: seq<Name>, pref: Preference,
                          targets: seq<Target>) {
    j < |ranked| && LeadsOn(t, targets, egress, ranked[j], pref) &&
    forall k :: 0 <= k < j ==> NoneOn(targets, egress, ranked[k])
  }

  ghost predicate NoCandidate(egress: EgressMode, ranked: seq<Name>, targets: seq<Target>) {
    forall j :: 0 <= j < |ranked| ==> NoneOn(targets, egress, ranked[j])
  }

  ghost predicate LeadsTransport(t: Target, egress: EgressMode, ranked: seq<Name>, pref: Preference,
                                 targets: seq<Target>) {
    exists j :: LeadsAt(t, j, egress, ranked, pref, targets)
  }

  lemma CandidatesMeaning(targets: seq<Target>, egress: EgressMode, transport: Name, pref: Preference)
    ensures Candidates(targets, egress, transport) == [] <==> NoneOn(targets, egress, transport)
    ensures var c := Candidates(targets, egress, transport);
            c != [] ==> LeadsOn(Best(c, pref), targets, egress, transport, pref)
  {
    var c := Candidates(targets, egress, transport);
    forall u
      ensures IsCandidate(u, egress, transport) <==> ServesOn(u, egress, transport)
    {
      UsableMeaning(u);
    }
    if c != [] {
      assert c[0] in c;
      forall u | u in c
        ensures NoWorse(RatingOf(Best(c, pref)), RatingOf(u), pref)
      {
        SortKeyMeaning(Best(c, pref), u, pref);
      }
    }
  }

  lemma NoCandidateSplit(egress: EgressMode, ranked: seq<Name>, targets: seq<Target>)
    requires ranked != []
    ensures NoCandidate(egress, ranked, targets) <==>
              NoneOn(targets, egress, ranked[0]) && NoCandidate(egress, ranked[1..], targets)
  {
    var rest := ranked[1..];
    if NoCandidate(egress, ranked, targets) {
      forall j | 0 <= j < |rest|
        ensures NoneOn(targets, egress, rest[j])
      {
        assert rest[j] == ranked[j + 1];
      }
    }
    if NoneOn(targets, egress, ranked[0]) && NoCandidate(egress, rest, targets) {
      forall j | 0 <= j < |ranked|
        ensures NoneOn(targets, egress, ranked[j])
      {
        if j > 0 {
          assert ranked[j] == rest[j - 1];
        }
      }
    }
  }

  lemma LeadsAtShift(t: Target, j: nat, egress: EgressMode, ranked: seq<Name>, pref: Preference, targets: seq<Target>)
    requires ranked != [] && NoneOn(targets, egress, ranked[0])
    requires LeadsAt(t, j, egress, ranked[1..], pref, targets)
    ensures LeadsAt(t, j + 1, egress, ranked, pref, targets)
  {
    var rest := ranked[1..];
    assert ranked[j + 1] == rest[j];
    forall k | 0 <= k < j + 1
      ensures NoneOn(targets, egress, ranked[k])
    {
      if k > 0 {
        assert ranked[k] == rest[k - 1];
      }
    }
  }

  lemma {:induction false} FirstTransportMeaning(egress: EgressMode, ranked: seq<Name>, pref: Preference,
      targets: seq<Target>)
    ensures FirstTransport(egress, ranked, pref, targets).None? <==> NoCandidate(egress, ranked, targets)
    ensures var r := FirstTransport(egress, ranked, pref, targets);
            r.Some? ==> LeadsTransport(r.value, egress, ranked, pref, targets)
  {
    if ranked != [] {
      var rest := ranked[1..];
      CandidatesMeaning(targets, egress, ranked[0], pref);
      FirstTransportMeaning(egress, rest, pref, targets);
      NoCandidateSplit(egress, ranked, targets);
      var r := FirstTransport(egress, ranked, pref, targets);
      if r.Some? {
        if Candidates(targets, egress, ranked[0]) != [] {
          assert LeadsAt(r.value, 0, egress, ranked, pref, targets);
        } else {
          var j: nat :| LeadsAt(r.value, j, egress, rest, pref, targets);
          LeadsAtShift(r.value, j, egress, ranked, pref, targets);
        }
      }
    }
  }

  /** `t` leads the first allowed egress mode that has any candidate. */
  ghost predicate LeadsEgress(t: Target, allowed: seq<EgressMode>, ranked: seq<Name>, pref: Preference,
                              targets: seq<Target>) {
    exists i :: 0 <= i < |allowed| && LeadsTransport(t, allowed[i], ranked, pref, targets) &&
                forall k :: 0 <= k < i ==> NoCandidate(allowed[k], ranked, targets)
  }

  lemma {:induction false} FirstEgressMeaning(ranked: seq<Name>, allowed: seq<EgressMode>, pref: Preference,
                                              targets: seq<Target>)
    ensures var r := FirstEgress(allowed, ranked, pref, targets);
            && (r.None? <==> forall e :: e in allowed ==> NoCandidate(e, ranked, targets))
            && (r.Some? ==> LeadsEgress(r.value, allowed, ranked, pref, targets))
  {
    if allowed != [] {
      FirstTransportMeaning(allowed[0], ranked, pref, targets);
      FirstEgressMeaning(ranked, allowed[1..], pref, targets);
      assert allowed == [allowed[0]] + allowed[1..];
      var first := FirstTransport(allowed[0], ranked, pref, targets);
      var r := FirstEgress(allowed, ranked, pref, targets);
      if first.Some? {
        assert LeadsTransport(r.value, allowed[0], ranked, pref, targets);
      } else if r.Some? {
        var i :| 0 <= i < |allowed[1..]| && LeadsTransport(r.value, allowed[1..][i], ranked, pref, targets) &&
          forall k :: 0 <= k < i ==> NoCandidate(allowed[1..][k], ranked, targets);
        assert allowed[i + 1] == allowed[1..][i];
        forall k | 0 <= k < i + 1
          ensures NoCandidate(allowed[k], ranked, targets)
        {
          if k > 0 {
            assert allowed[k] == allowed[1..][k - 1];
          }
        }
      }
    }
  }

  lemma OneEgress(egress: EgressMode, ranked: seq<Name>, pref: Preference, targets: seq<Target>)
    ensures FirstEgress([egress], ranked, pref, targets) == FirstTransport(egress, ranked, pref, targets)
  {
    assert [egress][1..] == [];
  }

  /** The target in force stays, without a search, exactly if it still serves on a permitted egress and no hard failure
      was reported. Otherwise the resolver fails exactly when policy leaves no target that serves, and else returns the
      leader of the first egress mode, then the first transport, that has one. */
  lemma ResolutionMeaning(ranked: seq<Name>, allowed: seq<EgressMode>, pref: Preference, targets: seq<Target>,
                          current: Option<Target>, hardFailure: bool)
    ensures var r := Resolution(ranked, allowed, pref, targets, current, hardFailure);
            var stays := current.Some? && Serves(current.value) && current.value.egress in allowed && !hardFailure;
            && (stays ==> r == current)
            && (!stays ==> (r.None? <==> forall e :: e in allowed ==> NoCandidate(e, ranked, targets)))
            && (!stays && r.Some? ==> LeadsEgress(r.value, allowed, ranked, pref, targets))
  {
    FirstEgressMeaning(ranked, allowed, pref, targets);
    if current.Some? {
      UsableMeaning(current.value);
    }
  }
}
