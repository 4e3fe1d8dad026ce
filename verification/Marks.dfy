/** The packet-mark layout: encoding, decoding, and the policy rules that route by it. */
module Marks {
  import opened Basics

  /** A non-negative integer as the set of its one bits: `|` is union, `&` intersection. */
  type Bits = set<nat>

  datatype Stage = UnknownStage | Provisional | Terminal

  datatype Hub = Hub1 | Hub2

  datatype Layout = Layout(
    routeMask: Bits, terminal: Bits, provisional: Bits, emergency: Bits,
    hubMask: Bits, hub1: Bits, hub2: Bits, egressMask: Bits, direct: Bits, cloud: Bits)

  ghost predicate SingleBit(b: Bits) { exists i: nat :: b == {i} }

  function StateMask(l: Layout): Bits { l.terminal + l.provisional + l.emergency }

  /** What layout validation checks besides the transport slots. */
  ghost predicate Valid(l: Layout) {
    SingleBit(l.terminal) && SingleBit(l.provisional) && SingleBit(l.emergency) && SingleBit(l.hub1) &&
      SingleBit(l.hub2) &&
    SingleBit(l.direct) && SingleBit(l.cloud) &&
    l.terminal != l.provisional && l.terminal != l.emergency && l.provisional != l.emergency && l.hub1 != l.hub2 &&
      l.direct != l.cloud &&
    l.routeMask !! StateMask(l) && l.routeMask !! l.hubMask && l.routeMask !! l.egressMask &&
    StateMask(l) !! l.hubMask && StateMask(l) !! l.egressMask && l.hubMask !! l.egressMask &&
    l.hubMask == l.hub1 + l.hub2 && l.egressMask == l.direct + l.cloud
  }

  predicate FitsSlot(l: Layout, slot: Bits) { slot != {} && slot <= l.routeMask }

  function StageBits(l: Layout, s: Stage): Bits {
    match s case UnknownStage => {} case Provisional => l.provisional case Terminal => l.terminal
  }

  function HubBits(l: Layout, h: Option<Hub>): Bits {
    match h case None => {} case Some(Hub1) => l.hub1 case Some(Hub2) => l.hub2
  }

  function EgressBits(l: Layout, e: EgressMode): Bits {
    match e case HubOverlay => {} case DirectInternet => l.direct case CloudGateway => l.cloud
  }

  function EmergencyBits(l: Layout, urgent: bool): Bits {
    if urgent then l.emergency else {}
  }

  function Encoded(l: Layout, slot: Bits, s: Stage, urgent: bool, h: Option<Hub>, e: EgressMode): Bits {
    slot + StageBits(l, s) + EmergencyBits(l, urgent) + HubBits(l, h) + EgressBits(l, e)
  }

  method Encode(l: Layout, slot: Bits, s: Stage, urgent: bool, h: Option<Hub>, e: EgressMode) returns (r: Option<Bits>)
    ensures r == if FitsSlot(l, slot) then Some(Encoded(l, slot, s, urgent, h, e)) else None
  {
    if slot == {} || !(slot <= l.routeMask) {
      return None;
    }
    var value := slot;
    if s == Terminal {
      value := value + l.terminal;
    } else if s == Provisional {
      value := value + l.provisional;
    }
    if urgent {
      value := value + l.emergency;
    }
    if h == Some(Hub1) {
      value := value + l.hub1;
    } else if h == Some(Hub2) {
      value := value + l.hub2;
    }
    if e == DirectInternet {
      value := value + l.direct;
    } else if e == CloudGateway {
      value := value + l.cloud;
    }
    assert value == Encoded(l, slot, s, urgent, h, e);
    return Some(value);
  }

  // ----- decoding

  function TransportOf(l: Layout, mark: Bits): Bits { mark * l.routeMask }

  function StageOf(l: Layout, mark: Bits): Stage {
    if mark * l.terminal != {} then Terminal else if mark * l.provisional != {} then Provisional else UnknownStage
  }

  datatype Decoded<T> = Value(value: T) | InvalidMark

  function HubOf(l: Layout, mark: Bits): Decoded<Option<Hub>> {
    var v := mark * l.hubMask;
    if v == l.hub1 then Value(Some(Hub1)) else if v == l.hub2 then Value(Some(Hub2)) else if v != {} then InvalidMark
      else Value(None)
  }

  function EgressOf(l: Layout, mark: Bits): Decoded<EgressMode> {
    var v := mark * l.egressMask;
    if v == {} then Value(HubOverlay) else if v == l.direct then Value(DirectInternet)
      else if v == l.cloud then Value(CloudGateway) else InvalidMark
  }

  lemma FieldsSeparate(l: Layout, slot: Bits, s: Stage, urgent: bool, h: Option<Hub>, e: EgressMode)
    requires Valid(l) && FitsSlot(l, slot)
    ensures var m := Encoded(l, slot, s, urgent, h, e);
            && m * l.routeMask == slot && m * l.hubMask == HubBits(l, h) && m * l.egressMask == EgressBits(l, e)
            && m * StateMask(l) == StageBits(l, s) + EmergencyBits(l, urgent)
  {
    var state := StageBits(l, s) + EmergencyBits(l, urgent);
    assert HubBits(l, h) <= l.hubMask && EgressBits(l, e) <= l.egressMask && state <= StateMask(l);
    var m := Encoded(l, slot, s, urgent, h, e);
    assert m == slot + state + HubBits(l, h) + EgressBits(l, e);
    FourFields(l.routeMask, StateMask(l), l.hubMask, l.egressMask, slot, state, HubBits(l, h), EgressBits(l, e));
  }

  /** Four values, each inside its own field, come apart again. */
  lemma FourFields(p: Bits, q: Bits, r: Bits, s: Bits, a: Bits, b: Bits, c: Bits, d: Bits)
    requires p !! q && p !! r && p !! s && q !! r && q !! s && r !! s && a <= p && b <= q && c <= r && d <= s
    ensures (a + b + c + d) * p == a && (a + b + c + d) * q == b && (a + b + c + d) * r == c && (a + b + c + d) * s == d
  {
  }

  /** For a valid layout, every field of an encoded mark decodes to what was encoded, and the emergency bit tells
      whether it was. */
  lemma RoundTrip(l: Layout, slot: Bits, s: Stage, urgent: bool, h: Option<Hub>, e: EgressMode)
    requires Valid(l) && FitsSlot(l, slot)
    ensures var m := Encoded(l, slot, s, urgent, h, e);
            TransportOf(l, m) == slot && StageOf(l, m) == s && HubOf(l, m) == Value(h) && EgressOf(l, m) == Value(e) &&
            (l.emergency <= m <==> urgent)
  {
    var m := Encoded(l, slot, s, urgent, h, e);
    FieldsSeparate(l, slot, s, urgent, h, e);
    assert l.emergency <= StateMask(l) && (l.emergency <= m <==> l.emergency <= m * StateMask(l));
    assert m * l.terminal == (m * StateMask(l)) * l.terminal;
    assert m * l.provisional == (m * StateMask(l)) * l.provisional;
    assert l.terminal !! l.provisional && l.terminal !! l.emergency && l.provisional !! l.emergency;
    assert l.hub1 != {} && l.hub2 != {} && l.direct != {} && l.cloud != {};
  }

  // ----- policy rules

  datatype Rule = Rule(value: Bits, mask: Bits, table: nat)
  {
    predicate Matches(mark: Bits) { mark * mask == value }
  }

  /** Mark rules by priority; the lowest matching priority decides. */
  type Rules = map<nat, Rule>

  ghost predicate RoutesTo(rules: Rules, mark: Bits, table: nat) {
    exists p ::
      p in rules && rules[p].Matches(mark) && rules[p].table == table && forall q ::
        q in rules && q < p ==> !rules[q].Matches(mark)
  }

  /** Route slots and tables of the three transports, and the six hub tables: hub 1's transports, then hub 2's. */
  datatype RouteConfig = RouteConfig(slots: seq<Bits>, hubTables: seq<nat>)

  ghost predicate GoodConfig(l: Layout, c: RouteConfig) {
    |c.slots| == 3 && |c.hubTables| == 6 && (forall i :: 0 <= i < 3 ==> FitsSlot(l, c.slots[i])) &&
    (forall i, j :: 0 <= i < j < 3 ==> c.slots[i] != c.slots[j]) &&
    forall i, j :: 0 <= i < j < 6 ==> c.hubTables[i] != c.hubTables[j]
  }

  function HubAt(k: nat): Hub { if k < 3 then Hub1 else Hub2 }

  function GenericRule(l: Layout, c: RouteConfig, i: nat): Rule
    requires i < |c.slots|
  {
    Rule(c.slots[i], l.routeMask, 101 + i)
  }

  function HubRule(l: Layout, c: RouteConfig, k: nat): Rule
    requires |c.slots| == 3 && k < 6 <= |c.hubTables|
  {
    Rule(c.slots[k % 3] + HubBits(l, Some(HubAt(k))), l.routeMask + l.hubMask, c.hubTables[k])
  }

  /** The rule at priority `p` after the generic rules and the first `n` hub rules. Hub tables double as priorities, and
      installing one first deletes the priority 1000 above it. */
  function RuleAt(l: Layout, c: RouteConfig, before: Rules, n: nat, p: nat): Option<Rule>
    requires |c.slots| == 3 && |c.hubTables| == 6 && n <= 6
  {
    if n == 0 then
      if 2001 <= p <= 2003 then Some(GenericRule(l, c, p - 2001)) else if p in before then Some(before[p]) else None
    else if p == c.hubTables[n - 1] then Some(HubRule(l, c, n - 1))
    else if p == 1000 + c.hubTables[n - 1] then None
    else RuleAt(l, c, before, n - 1, p)
  }

  ghost predicate Installed(l: Layout, c: RouteConfig, before: Rules, rules: Rules, n: nat)
    requires |c.slots| == 3 && |c.hubTables| == 6 && n <= 6
  {
    forall p ::
      (p in rules <==> RuleAt(l, c, before, n, p).Some?) &&
        (p in rules ==> rules[p] == RuleAt(l, c, before, n, p).value)
  }

  method InstallPolicyRules(l: Layout, c: RouteConfig, before: Rules) returns (rules: Rules)
    requires |c.slots| == 3 && |c.hubTables| == 6
    ensures Installed(l, c, before, rules, 6)
  {
    rules := before;
    for i := 0 to 3
      invariant forall p :: p in rules <==> p in before || 2001 <= p < 2001 + i
      invariant forall p ::
                p in rules ==> rules[p] == if 2001 <= p < 2001 + i then GenericRule(l, c, p - 2001) else before[p]
    {
      rules := rules[2001 + i := GenericRule(l, c, i)];
    }
    for k := 0 to 6
      invariant Installed(l, c, before, rules, k)
    {
      rules := rules - {1000 + c.hubTables[k]};
      rules := rules - {c.hubTables[k]};
      rules := rules[c.hubTables[k] := HubRule(l, c, k)];
    }
  }

  // ----- which rules survive, and when routing is right

  predicate Survives(c: RouteConfig, k: nat, n: nat)
    requires k < n <= 6 == |c.hubTables|
  {
    forall j :: k < j < n ==> c.hubTables[k] != 1000 + c.hubTables[j]
  }

  predicate Untouched(c: RouteConfig, p: nat, n: nat)
    requires n <= 6 == |c.hubTables|
  {
    forall k :: 0 <= k < n ==> p != c.hubTables[k] && p != 1000 + c.hubTables[k]
  }

  lemma {:induction false} RuleAtMeaning(l: Layout, c: RouteConfig, before: Rules, n: nat, p: nat)
    requires GoodConfig(l, c) && n <= 6
    ensures forall k :: 0 <= k < n && p == c.hubTables[k] ==>
              RuleAt(l, c, before, n, p) == if Survives(c, k, n) then Some(HubRule(l, c, k)) else None
    ensures (forall k :: 0 <= k < n ==> p != c.hubTables[k]) && !Untouched(c, p, n) ==> RuleAt(l, c, before, n, p).None?
    ensures Untouched(c, p, n) ==> RuleAt(l, c, before, n, p) == RuleAt(l, c, before, 0, p)
  {
    if n > 0 {
      RuleAtMeaning(l, c, before, n - 1, p);
      forall k | 0 <= k < n && p == c.hubTables[k]
        ensures RuleAt(l, c, before, n, p) == if Survives(c, k, n) then Some(HubRule(l, c, k)) else None
      {
        if k < n - 1 {
          assert c.hubTables[k] != c.hubTables[n - 1];
          assert Survives(c, k, n) <==> Survives(c, k, n - 1) && c.hubTables[k] != 1000 + c.hubTables[n - 1];
        }
      }
    }
  }

  /** Nothing installed is deleted, replaced or outranked. */
  predicate NoClash(c: RouteConfig)
    requires |c.hubTables| == 6
  {
    (forall k :: 0 <= k < 6 ==> c.hubTables[k] <= 2000 && !(1001 <= c.hubTables[k] <= 1003)) &&
    forall k :: 0 <= k < 6 ==> Survives(c, k, 6)
  }

  /** Earlier installations only left rules at the priorities this one deletes or replaces. */
  ghost predicate OnlyOwned(c: RouteConfig, before: Rules)
    requires |c.hubTables| == 6
  {
    forall p :: p in before && !(2001 <= p <= 2003) ==> !Untouched(c, p, 6)
  }

  function ExpectedTable(c: RouteConfig, i: nat, h: Option<Hub>): nat
    requires i < 3 && |c.hubTables| == 6
  {
    match h case None => 101 + i case Some(Hub1) => c.hubTables[i] case Some(Hub2) => c.hubTables[3 + i]
  }

  ghost predicate AllMarksRoute(l: Layout, c: RouteConfig, rules: Rules)
    requires |c.slots| == 3 && |c.hubTables| == 6
  {
    forall i: nat, s, urgent, h, e | i < 3 ::
      RoutesTo(rules, Encoded(l, c.slots[i], s, urgent, h, e), ExpectedTable(c, i, h))
  }

  lemma RuleMatches(l: Layout, c: RouteConfig, i: nat, s: Stage, urgent: bool, h: Option<Hub>, e: EgressMode, j: nat,
                    k: nat)
    requires Valid(l) && GoodConfig(l, c) && i < 3 && j < 3 && k < 6
    ensures var m := Encoded(l, c.slots[i], s, urgent, h, e);
            && (GenericRule(l, c, j).Matches(m) <==> j == i)
            && (HubRule(l, c, k).Matches(m) <==> k % 3 == i && h == Some(HubAt(k)))
  {
    var m := Encoded(l, c.slots[i], s, urgent, h, e);
    FieldsSeparate(l, c.slots[i], s, urgent, h, e);
    assert m * (l.routeMask + l.hubMask) == c.slots[i] + HubBits(l, h);
    var a, b := c.slots[k % 3], HubBits(l, Some(HubAt(k)));
    assert (a + b) * l.routeMask == a && (a + b) * l.hubMask == b;
    assert (c.slots[i] + HubBits(l, h)) * l.routeMask == c.slots[i] &&
      (c.slots[i] + HubBits(l, h)) * l.hubMask == HubBits(l, h);
    assert l.hub1 != {} && l.hub2 != {};
  }

  /** A rule in force is an untouched generic rule or a surviving hub rule. */
  lemma InForce(l: Layout, c: RouteConfig, before: Rules, rules: Rules, p: nat)
    requires GoodConfig(l, c) && OnlyOwned(c, before) && Installed(l, c, before, rules, 6) && p in rules
    ensures (2001 <= p <= 2003 && Untouched(c, p, 6) && rules[p] == GenericRule(l, c, p - 2001)) ||
            exists k :: 0 <= k < 6 && p == c.hubTables[k] && Survives(c, k, 6) && rules[p] == HubRule(l, c, k)
  {
    RuleAtMeaning(l, c, before, 6, p);
  }

  lemma GenericInForce(l: Layout, c: RouteConfig, before: Rules, rules: Rules, i: nat)
    requires GoodConfig(l, c) && Installed(l, c, before, rules, 6) && i < 3 && Untouched(c, 2001 + i, 6)
    ensures 2001 + i in rules && rules[2001 + i] == GenericRule(l, c, i)
  {
    RuleAtMeaning(l, c, before, 6, 2001 + i);
  }

  lemma HubInForce(l: Layout, c: RouteConfig, before: Rules, rules: Rules, k: nat)
    requires GoodConfig(l, c) && Installed(l, c, before, rules, 6) && k < 6 && Survives(c, k, 6)
    ensures c.hubTables[k] in rules && rules[c.hubTables[k]] == HubRule(l, c, k)
  {
    RuleAtMeaning(l, c, before, 6, c.hubTables[k]);
  }

  function ExpectedPriority(c: RouteConfig, i: nat, h: Option<Hub>): nat
    requires i < 3 && |c.hubTables| == 6
  {
    if h == None then 2001 + i else ExpectedTable(c, i, h)
  }

  lemma NothingRanksBefore(l: Layout, c: RouteConfig, before: Rules, rules: Rules, i: nat, s: Stage, urgent: bool,
                           h: Option<Hub>, e: EgressMode, q: nat)
    requires Valid(l) && GoodConfig(l, c) && NoClash(c) && OnlyOwned(c, before) && Installed(l, c, before, rules, 6) &&
             i < 3
    requires q in rules && q < ExpectedPriority(c, i, h)
    ensures !rules[q].Matches(Encoded(l, c.slots[i], s, urgent, h, e))
  {
    InForce(l, c, before, rules, q);
    if 2001 <= q <= 2003 && rules[q] == GenericRule(l, c, q - 2001) {
      GenericBefore(l, c, i, s, urgent, h, e, q);
    } else {
      var j :| 0 <= j < 6 && q == c.hubTables[j] && rules[q] == HubRule(l, c, j);
      HubRuleBefore(l, c, i, s, urgent, h, e, j);
    }
  }

  lemma GenericBefore(l: Layout, c: RouteConfig, i: nat, s: Stage, urgent: bool, h: Option<Hub>, e: EgressMode, q: nat)
    requires Valid(l) && GoodConfig(l, c) && NoClash(c) && i < 3 && 2001 <= q <= 2003 && q < ExpectedPriority(c, i, h)
    ensures !GenericRule(l, c, q - 2001).Matches(Encoded(l, c.slots[i], s, urgent, h, e))
  {
    RuleMatches(l, c, i, s, urgent, h, e, q - 2001, 0);
  }

  lemma HubRuleBefore(l: Layout, c: RouteConfig, i: nat, s: Stage, urgent: bool, h: Option<Hub>, e: EgressMode, j: nat)
    requires Valid(l) && GoodConfig(l, c) && i < 3 && j < 6 && c.hubTables[j] < ExpectedPriority(c, i, h)
    ensures !HubRule(l, c, j).Matches(Encoded(l, c.slots[i], s, urgent, h, e))
  {
    RuleMatches(l, c, i, s, urgent, h, e, 0, j);
  }

  lemma OneMarkRoutes(l: Layout, c: RouteConfig, before: Rules, rules: Rules, i: nat, s: Stage, urgent: bool,
                      h: Option<Hub>, e: EgressMode)
    requires Valid(l) && GoodConfig(l, c) && NoClash(c) && OnlyOwned(c, before) && Installed(l, c, before, rules, 6) &&
             i < 3
    ensures RoutesTo(rules, Encoded(l, c.slots[i], s, urgent, h, e), ExpectedTable(c, i, h))
  {
    var m := Encoded(l, c.slots[i], s, urgent, h, e);
    var k := if h == Some(Hub2) then 3 + i else i;
    var p := ExpectedPriority(c, i, h);
    RuleMatches(l, c, i, s, urgent, h, e, i, k);
    if h == None {
      GenericInForce(l, c, before, rules, i);
    } else {
      HubInForce(l, c, before, rules, k);
    }
    assert p in rules && rules[p].Matches(m) && rules[p].table == ExpectedTable(c, i, h);
    forall q | q in rules && q < p
      ensures !rules[q].Matches(m)
    {
      NothingRanksBefore(l, c, before, rules, i, s, urgent, h, e, q);
    }
  }

  /** A correctly routed slot keeps its generic rule: no hub table sits on it or 1000 below it. */
  lemma GenericNeedsUntouched(l: Layout, c: RouteConfig, before: Rules, rules: Rules, i: nat)
    requires Valid(l) && GoodConfig(l, c) && OnlyOwned(c, before) && Installed(l, c, before, rules, 6) && i < 3
    requires RoutesTo(rules, Encoded(l, c.slots[i], UnknownStage, false, None, HubOverlay), 101 + i)
    ensures Untouched(c, 2001 + i, 6)
  {
    var m := Encoded(l, c.slots[i], UnknownStage, false, None, HubOverlay);
    var p :| p in rules && rules[p].Matches(m);
    InForce(l, c, before, rules, p);
    if 2001 <= p <= 2003 && Untouched(c, p, 6) && rules[p] == GenericRule(l, c, p - 2001) {
      RuleMatches(l, c, i, UnknownStage, false, None, HubOverlay, p - 2001, 0);
    } else {
      var k :| 0 <= k < 6 && p == c.hubTables[k] && rules[p] == HubRule(l, c, k);
      RuleMatches(l, c, i, UnknownStage, false, None, HubOverlay, 0, k);
    }
  }

  /** A correctly routed hub keeps its rule, ranked before the generic one. */
  lemma HubNeedsToSurvive(l: Layout, c: RouteConfig, before: Rules, rules: Rules, k: nat)
    requires Valid(l) && GoodConfig(l, c) && OnlyOwned(c, before) && Installed(l, c, before, rules, 6) && k < 6
    requires RoutesTo(rules, Encoded(l, c.slots[k % 3], UnknownStage, false, Some(HubAt(k)), HubOverlay),
             c.hubTables[k])
    requires Untouched(c, 2001 + k % 3, 6)
    ensures c.hubTables[k] < 2001 + k % 3
    ensures Survives(c, k, 6) || c.hubTables[k] == 101 + k % 3
  {
    var i, h := k % 3, Some(HubAt(k));
    var m := Encoded(l, c.slots[i], UnknownStage, false, h, HubOverlay);
    var p :| p in rules && rules[p].Matches(m) && rules[p].table == c.hubTables[k] && forall q ::
      q in rules && q < p ==> !rules[q].Matches(m);
    GenericInForce(l, c, before, rules, i);
    RuleMatches(l, c, i, UnknownStage, false, h, HubOverlay, i, k);
    assert p <= 2001 + i;
    InForce(l, c, before, rules, p);
    if 2001 <= p <= 2003 && Untouched(c, p, 6) && rules[p] == GenericRule(l, c, p - 2001) {
      RuleMatches(l, c, i, UnknownStage, false, h, HubOverlay, p - 2001, 0);
    } else {
      var j :| 0 <= j < 6 && p == c.hubTables[j] && Survives(c, j, 6) && rules[p] == HubRule(l, c, j);
      RuleMatches(l, c, i, UnknownStage, false, h, HubOverlay, 0, j);
      assert j == k;
      assert p != 2001 + i;
    }
  }

  /** Installed over nothing or over an earlier installation on the same hub tables, the rules send every mark to its
      hub's table for its transport, or to the generic table of its slot when no hub is set, whatever its state and
      egress bits -- exactly when the hub tables neither clash with one another's deletions nor with the generic rules'
      priorities. */
  lemma RulesRouteMarksExactlyWithoutClash(l: Layout, c: RouteConfig, before: Rules, rules: Rules)
    requires Valid(l) && GoodConfig(l, c) && OnlyOwned(c, before) && Installed(l, c, before, rules, 6)
    ensures AllMarksRoute(l, c, rules) <==> NoClash(c)
  {
    if NoClash(c) {
      forall i: nat, s, urgent, h, e | i < 3
        ensures RoutesTo(rules, Encoded(l, c.slots[i], s, urgent, h, e), ExpectedTable(c, i, h))
      {
        OneMarkRoutes(l, c, before, rules, i, s, urgent, h, e);
      }
    }
    if AllMarksRoute(l, c, rules) {
      RoutingNeedsNoClash(l, c, before, rules);
    }
  }

  lemma GenericRulesUntouched(l: Layout, c: RouteConfig, before: Rules, rules: Rules)
    requires Valid(l) && GoodConfig(l, c) && OnlyOwned(c, before) && Installed(l, c, before, rules, 6) &&
             AllMarksRoute(l, c, rules)
    ensures Untouched(c, 2001, 6) && Untouched(c, 2002, 6) && Untouched(c, 2003, 6)
  {
    assert ExpectedTable(c, 0, None) == 101 && ExpectedTable(c, 1, None) == 102 && ExpectedTable(c, 2, None) == 103;
    GenericNeedsUntouched(l, c, before, rules, 0);
    GenericNeedsUntouched(l, c, before, rules, 1);
    GenericNeedsUntouched(l, c, before, rules, 2);
  }

  lemma RoutingNeedsNoClash(l: Layout, c: RouteConfig, before: Rules, rules: Rules)
    requires Valid(l) && GoodConfig(l, c) && OnlyOwned(c, before) && Installed(l, c, before, rules, 6) &&
             AllMarksRoute(l, c, rules)
    ensures NoClash(c)
  {
    GenericRulesUntouched(l, c, before, rules);
    forall k: nat | k < 6
      ensures c.hubTables[k] <= 2000 && !(1001 <= c.hubTables[k] <= 1003) && Survives(c, k, 6)
    {
      assert ExpectedTable(c, k % 3, Some(HubAt(k))) == c.hubTables[k];
      HubNeedsToSurvive(l, c, before, rules, k);
    }
  }

  const SOME_LAYOUT := Layout({0, 1, 2}, {8}, {9}, {10}, {12, 13}, {12}, {13}, {16, 17}, {16}, {17})

  const CLASHING := RouteConfig([{0}, {1}, {2}], [1001, 1102, 1103, 1201, 1202, 1203])

  /** A configuration that misroutes: six different hub tables, the first one on 1001. Installing its rule deletes the
      generic rule of the first slot, so that slot's marks without a hub never reach its table. */
  lemma TableOn1001Misroutes(rules: Rules)
    requires Installed(SOME_LAYOUT, CLASHING, map[], rules, 6)
    ensures Valid(SOME_LAYOUT) && GoodConfig(SOME_LAYOUT, CLASHING) && !NoClash(CLASHING)
    ensures !RoutesTo(rules, Encoded(SOME_LAYOUT, CLASHING.slots[0], UnknownStage, false, None, HubOverlay), 101)
  {
    LayoutIsValid();
    var l, c := SOME_LAYOUT, CLASHING;
    assert c.hubTables[0] == 1001 && 0 in c.slots[0] && 1 in c.slots[1] && 2 in c.slots[2];
    if RoutesTo(rules, Encoded(l, c.slots[0], UnknownStage, false, None, HubOverlay), 101) {
      GenericNeedsUntouched(l, c, map[], rules, 0);
      assert false;
    }
  }

  lemma LayoutIsValid()
    ensures Valid(SOME_LAYOUT)
  {
    var l := SOME_LAYOUT;
    assert l.terminal == {8} && l.provisional == {9} && l.emergency == {10} && l.hub1 == {12} && l.hub2 == {13} &&
      l.direct == {16} && l.cloud == {17};
    assert 8 in l.terminal && 9 in l.provisional && 12 in l.hub1 && 16 in l.direct;
  }
}
