/** Aggregation of one hub's tunnel records into a hub state. */
module HubHealth {
  import opened Basics
  import opened TunnelHealth

  datatype HubState = HubUnknown | HubHealthy | Degraded | Unreachable | HubRecovering

  datatype Aggregate = Aggregate(state: HubState, healthy: nat, failed: nat, recovering: nat)

  function InState(tunnels: map<Name, Health>, s: TunnelState): set<Name> {
    set n | n in tunnels && tunnels[n].state == s
  }

  function AggregateHub(tunnels: map<Name, Health>): Aggregate {
    if |tunnels| == 0 then Aggregate(HubUnknown, 0, 0, 0)
    else
      var healthy := |InState(tunnels, Healthy)|;
      var failed := |InState(tunnels, Failed)|;
      var recovering := |InState(tunnels, Recovering)|;
      var state :=
        if failed == |tunnels| then Unreachable
        else if recovering != 0 && healthy == 0 then HubRecovering
        else if healthy == |tunnels| then HubHealthy
        else Degraded;
      Aggregate(state, healthy, failed, recovering)
  }

  lemma SubsetOfEqualSize<T>(a: set<T>, b: set<T>)
    requires a <= b
    ensures |a| == |b| <==> a == b
  {
    assert b == a + (b - a);
    assert |b| == |a| + |b - a|;
  }

  /** The counts decide exactly these quantified conditions on the hub's tunnels. */
  lemma AggregateMeaning(tunnels: map<Name, Health>)
    ensures var state := AggregateHub(tunnels).state;
            && (state == HubUnknown <==> tunnels == map[])
            && (state == Unreachable <==>
                tunnels != map[] && forall n :: n in tunnels ==> tunnels[n].state == Failed)
            && (state == HubHealthy <==>
                tunnels != map[] && forall n :: n in tunnels ==> tunnels[n].state == Healthy)
            && (state == HubRecovering <==>
                (exists n :: n in tunnels && tunnels[n].state == Recovering) &&
                forall n :: n in tunnels ==> tunnels[n].state != Healthy)
    ensures var r := AggregateHub(tunnels);
            r.healthy == |InState(tunnels, Healthy)| && r.failed == |InState(tunnels, Failed)| &&
            r.recovering == |InState(tunnels, Recovering)|
  {
    forall s: TunnelState
      ensures |InState(tunnels, s)| == |tunnels| <==> forall n :: n in tunnels ==> tunnels[n].state == s
      ensures |InState(tunnels, s)| == 0 <==> forall n :: n in tunnels ==> tunnels[n].state != s
    {
      assert |tunnels| == |tunnels.Keys|;
      SubsetOfEqualSize(InState(tunnels, s), tunnels.Keys);
      assert forall n :: n in InState(tunnels, s) <==> n in tunnels && tunnels[n].state == s;
    }
    if |tunnels| == 0 {
      assert tunnels == map[];
    } else if k :| k in tunnels {
    }
  }

  /** One healthy tunnel keeps its hub usable, whatever the others are doing. */
  lemma HealthyTunnelKeepsHubUsable(tunnels: map<Name, Health>, n: Name)
    requires n in tunnels && tunnels[n].state == Healthy
    ensures AggregateHub(tunnels).state in {HubHealthy, Degraded}
  {
    AggregateMeaning(tunnels);
  }
}
