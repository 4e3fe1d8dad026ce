# Verified model of the SD-WAN edge, underlay and control plane

A Dafny model of the decision logic of an SD-WAN system with two hubs, three transports (MPLS, broadband, LTE), a
software-defined provider underlay and a central policy service, with proofs of what that logic guarantees over every
input and every run.

| files | component |
|---|---|
| `TunnelHealth`, `HubHealth`, `RouteResolver`, `LocalFailover`, `FailoverRuntime`, `FailoverRuns`, `FailoverWitness` | the edge failover loop: probes, health machines, hub aggregation, replacement, emergency remap, drain, failback |
| `PathSelection`, `PathSelectionRuns` | the SLA path selector with hysteresis, hold-down and minimum improvement |
| `Underlay`, `UnderlayMeaning`, `OpenFlow`, `UnderlayProgram`, `UnderlayPipeline`, `UnderlayTheorems`, `Controller` | the provider underlay: FIB, compiled OpenFlow tables, the controller's fingerprint cache |
| `PolicyDatabase`, `Json`, `DesiredStates`, `PolicyControl`, `EdgeAgent`, `ControlPlane`, `ControlPlaneRuns`, `ControlPlaneWhole`, `ControlPlaneProgress`, `ControlPlaneCrashes`, `PublishedDocuments`, `Recompilation` | versioned desired state, the compiler's comparison of documents, hub-first activation and acknowledgements, one transaction and one edge effect at a time, with stops in between and an unreliable network |
| `Inventory` | the site allocator and the addresses and ports derived from it |
| `PacketParser`, `PacketRoundTrip`, `FlowTable`, `FlowRuns`, `FlowHistory` | the classifier's packet parser and flow table |
| `Marks`, `DependencyGraph` | packet marks with the policy rules that route by them; graph searches |

Objects that the program updates in place are classes whose methods are proved against pure step functions; the
theorems over whole runs are about those functions. Clocks, probe results, flow counts, random identifiers, memory
exhaustion and resource reservations are inputs and range over all values. Identifiers are interned as natural numbers
ordered as the strings are (`Basics.Name`); times, scores and measurements are reals.

Where the program does not do what its documentation or an obvious reading says, the model follows the program, and the
exact condition is proved:

- A recovering tunnel that turns SUSPECT returns to HEALTHY on one good probe, without the recovery gate
  (`TunnelHealth.HealthyEntry`, `TunnelHealth.RecoveryGateCanBeSkipped`).
- A second emergency remap overwrites the saved target, so failback restores the configured target exactly when the slot
  was still on it at the last remap (`FailoverRuns.FailbackRestoresConfigured`; a run of seven rounds in which it does
  not is `FailoverWitness.SecondRemapForgetsBaseline`).
- A refusal to select leaves the stored selection alone and reports a change every time
  (`PathSelectionRuns.ChangedReport`).
- A non-positive bandwidth estimate is scored as 1 Mbit/s (`PathSelectionRuns.BandwidthMonotone`).
- Operations of the policy service are several transactions. If the service stops after committing a spoke's key and
  before compiling, both hubs stay verified on documents without that key and activation goes through; the hub-first
  rule holds exactly for the hubs whose last compilation saw the spoke with its current key
  (`ControlPlaneRuns.HubFirst`, `ControlPlaneProgress.StoppedRegistrationBreaksHubFirst`,
  `ControlPlaneWhole.CompletedOperationsAreHubFirst`).
- If it stops in an activation after reserving the site's leases, every later attempt fails on those leases: activation
  can still be reached exactly for sites that hold none (`ControlPlaneProgress.ActivationIsReachable`,
  `ControlPlaneProgress.StoppedActivationBlocks`).
- An edge that stops between applying and recording runs a document its record does not name, until it reboots or
  accepts a document: exactly then does the kernel differ from the record, and exactly then, if any older document was
  ever sent, can one take over the kernel. The record never goes back (`ControlPlaneCrashes.KernelDiffersFromRecord`,
  `ControlPlaneCrashes.KernelGoesBackExactly`, `ControlPlaneCrashes.KernelCanGoBack`).
- The compiler drops version fields before it compares a document with the stored one, but does not enter tuples, which
  the store returns as lists: an unchanged document is recognized exactly when no tuple shields a version field in it
  (`Json.UnchangedIsRecognized`). Ownership rows are shielded, so from the first activation on every compilation of a
  hub publishes a new version and takes its verified status away (`Recompilation.RecompilationIsIdempotent`,
  `Recompilation.EveryCompilationPublishes`, `Recompilation.CompiledTwicePublishedTwice`).
- The key table's constraints allow a site one key rotation in its lifetime (`PolicyDatabase.OnlyOneRotation`,
  `PolicyDatabase.RotationIsFinal`).
- The lifecycle table alone lets a provisioned spoke become ACTIVE with nothing published; the management coordinator
  never requests ACTIVE, and the theorems about first documents and ACTIVE are about runs in which nobody does
  (`ControlPlaneProgress.TableAloneAllowsBareActivation`, `ControlPlaneRuns.BecomingActive`).
- An existing `siteN` can be allocated again only if it was seeded on another LAN octet than N
  (`Inventory.NumberedSitesCannotBeReallocated`).
- The allocator does not look at the identifiers of hubs and cloud gateways: a topology stays valid exactly while every
  new site finds room below them, which the shipped topology leaves for five new sites
  (`Inventory.ValidWhileThereIsRoom`, `Inventory.ReservedIdIsAllocated`).
- Installing a hub rule deletes whatever sits 1000 priorities above it, so marks route correctly exactly when no hub
  table clashes in this way (`Marks.RulesRouteMarksExactlyWithoutClash`, `Marks.TableOn1001Misroutes`).

## Model

| member | source | states |
|---|---|---|
| TunnelHealth.TunnelHealthMachine.ObserveSample | sdwan/tunnel_health.py:73-102 | A sample is refused, and changes nothing, exactly if its number is not above the last one taken or it is older than the limit; the record always equals the replay of the accepted samples. |
| TunnelHealth.CountersFromHistory | sdwan/tunnel_health.py:79-102 | The counters are the lengths of the trailing usable and unusable runs, and the hold-down is over exactly when every past failure is that old. |
| TunnelHealth.ThresholdStatesFromHistory | sdwan/tunnel_health.py:93-102 | FAILED, SUSPECT and UNKNOWN are each equivalent to a condition on the trailing unusable run of the accepted history. |
| TunnelHealth.RecoveringFromHistory | sdwan/tunnel_health.py:80-102 | RECOVERING holds exactly when a failure streak has ended and since then the tunnel was neither suspect nor past the gate. |
| TunnelHealth.HealthyEntry | sdwan/tunnel_health.py:80-92 | A tunnel enters HEALTHY exactly on a usable sample that opens the gate, ends a suspect streak, or comes before the first threshold. |
| TunnelHealth.InOrderIsAccepted | sdwan/tunnel_health.py:75-79 | Samples with increasing sequence numbers that are fresh on arrival are all accepted, so the machine's history is what was offered. |
| TunnelHealth.OfferedIsFiltered | sdwan/tunnel_health.py:75-78 | Whatever is offered, the record is the replay of exactly those samples that were newer than any taken before and fresh on arrival; the ones taken are in order. |
| TunnelHealth.RecoveryGateCanBeSkipped | sdwan/tunnel_health.py:84-90 | Six probes in order, all accepted, in which a recovery interrupted by SUSPECT ends on one good probe inside the hold-down. |
| TunnelHealth.ReplayConsistent | sdwan/tunnel_health.py:59-61 | With suspect below failed, state and failure count agree; this is what rules out jumps between HEALTHY and FAILED. |
| HubHealth.AggregateMeaning | sdwan/hub_health.py:29-42 | Each hub state is equivalent to a quantified condition on the hub's tunnels. |
| HubHealth.HealthyTunnelKeepsHubUsable | sdwan/hub_health.py:29-42 | One HEALTHY tunnel keeps its hub HEALTHY or DEGRADED. |
| RouteResolver.Resolve | sdwan/route_resolver.py:61-90 | The nested search returns the retained current target, or the resolution function's value, or fails with it. |
| RouteResolver.SortKeyMeaning | sdwan/route_resolver.py:80-87 | The sort orders targets by preferred hub, standby hub, others; then least loss with a missing one as 101, least jitter and round trip with missing ones last, most bandwidth, least cost, least interface. |
| RouteResolver.FirstTransportMeaning | sdwan/route_resolver.py:78-89 | For one egress, nothing is found exactly when no target serves on a ranked transport; otherwise a target on the first such transport that no other there is ahead of in those rules. |
| RouteResolver.ResolutionMeaning | sdwan/route_resolver.py:73-90 | The current target is retained if it still serves on a permitted egress without a hard failure; otherwise the resolver fails exactly when policy leaves no target that serves, and else returns the leader of the first egress and transport that has one. |
| LocalFailover.LocalFailoverManager.EmergencyRemap | sdwan/local_failover.py:65-79 | A repeated event is answered from the record; stale versions and unchanged targets are refused; otherwise the current target is saved and replaced. |
| LocalFailover.LocalFailoverManager.BeginRecovery | sdwan/local_failover.py:81-86 | Sets the drain deadline of a slot in emergency and nothing else. |
| LocalFailover.LocalFailoverManager.CompleteRecovery | sdwan/local_failover.py:88-99 | Restores the saved target exactly when the slot is in emergency, draining, and empty or past its deadline. |
| FailoverRuntime.ReplacementMeaning | sdwan/edge_failover_runtime.py:177-197 | A replacement exists exactly when some tunnel is HEALTHY; it is on the slot's own transport if a tunnel is up there, else on the first configured one; there on the preferred hub if up, else the standby; and best by this round's measurements. |
| FailoverRuntime.LocalFailoverRuntime.ObserveTunnels | sdwan/edge_failover_runtime.py:376-380 | Every machine takes its own probe, and a stale one leaves its record as it was. |
| FailoverRuntime.LocalFailoverRuntime.RunSlot | sdwan/edge_failover_runtime.py:388-430 | One slot's turn equals the step function over manager, recovery marks and programmed routes. |
| FailoverRuntime.LocalFailoverRuntime.RunSlots | sdwan/edge_failover_runtime.py:387-430 | The loop over the slots composes their turns in order. |
| FailoverRuntime.LocalFailoverRuntime.RunOnce | sdwan/edge_failover_runtime.py:357-430 | The health and slot part of one round equals the round function on which the run theorems are proved. |
| FailoverRuns.RoundIsStepLane | sdwan/edge_failover_runtime.py:387-430 | A round treats every slot independently, on the freshly observed health and an honest offer from the resolver. |
| FailoverRuns.RunKeepsInv | sdwan/edge_failover_runtime.py:357-430 | Every state of every run keeps the bookkeeping of all slots and the consistency of all health records. |
| FailoverRuns.EmergencyBookkeeping | sdwan/edge_failover_runtime.py:387-430 | In every run a slot is in emergency exactly when its target differs from the saved one, a marked slot is in emergency, and a mark without a deadline means the saved target is FAILED. |
| FailoverRuns.MarkWithoutDeadlineIsCleared | sdwan/edge_failover_runtime.py:416-425 | Such a mark is removed by the next round, which moves nothing, so no recovery ever runs without a deadline. |
| FailoverRuns.NoFailedTargetWhileAnyTunnelHealthy | sdwan/edge_failover_runtime.py:387-412 | After any round, if any tunnel is HEALTHY no slot's target is FAILED, and the programmed route is that target's. |
| FailoverRuns.FailbackIsSafe | sdwan/edge_failover_runtime.py:413-430 | A slot leaves emergency only to its saved target, seen HEALTHY in that round, with no flows left or its deadline reached. |
| FailoverRuns.DrainCompletes | sdwan/edge_failover_runtime.py:421-430 | A started drain completes by the first round at or after its deadline while the saved target stays HEALTHY and the current one does not fail. |
| FailoverRuns.SavedTargetIsLastBeforeRemap | sdwan/local_failover.py:71-79 | The saved target of a slot in emergency is the one in force, and FAILED, just before the last remap, and has been held since. |
| FailoverRuns.FailbackRestoresConfigured | sdwan/local_failover.py:71-99 | A failback restores the configured target exactly when the slot was on it at the last remap. |
| FailoverRuns.EveryInputHasARun | sdwan/edge_failover_runtime.py:357-430 | Whatever probes, clocks and flow counts are, the loop has a run on them, so no run theorem is vacuous. |
| FailoverRuns.HealthIsFed | sdwan/edge_failover_runtime.py:376-380 | In every run each tunnel's health is what its own machine makes of its own probes. |
| FailoverRuns.HealthIsReplay | sdwan/edge_failover_runtime.py:376-380 | That is the replay of those of its probes that were newer than any before and fresh on arrival. |
| FailoverRuns.RouteVersionCountsMoves | sdwan/local_failover.py:65-99 | A round advances the route version by exactly the number of slots whose target it changes. |
| FailoverWitness.SecondRemapForgetsBaseline | sdwan/local_failover.py:74-75 | A run of seven rounds of accepted probes, with two remaps, a recovery and a drain, whose failback leaves the slot on a target that was never configured for it. |
| PathSelection.ViolationsMeaning | sdwan/common/path_selection.py:283-300 | The violation list is empty exactly when every limit that is set is measured and met. |
| PathSelectionRuns.ViolationsNamed | sdwan/common/path_selection.py:283-300 | Each violation and each missing measurement is named exactly for its own limit. |
| PathSelectionRuns.HardRejectionsMeaning | sdwan/common/path_selection.py:337-349 | Nothing is rejected outright exactly if egress and transport are permitted and the path is enabled, reachable and freshly measured; each reason is given exactly for its own failure. |
| PathSelectionRuns.StandingMeaning | sdwan/common/path_selection.py:337-378 | Each of the six standings is equivalent to a condition on the measurement and the path's record after it. |
| PathSelectionRuns.ScoreMeaning | sdwan/common/path_selection.py:302-324 | The score is the weighted mean of round trip, jitter, loss, bandwidth and cost in units of the limits, or of 100 ms, 20 ms and 1 percent; a missing metric counts two units. |
| PathSelectionRuns.BetterMeasurementScoresBetter | sdwan/common/path_selection.py:302-324 | With equal bandwidth figures, a measurement that is nowhere worse never scores worse, and strictly better if better where there is weight. |
| PathSelection.PathSelector.EvaluateCandidate | sdwan/common/path_selection.py:326-378 | Verdict and new hysteresis record of one path; a hard rejection leaves the record alone. |
| PathSelection.PathSelector.Select | sdwan/common/path_selection.py:403-541 | An empty policy is an error that changes nothing; otherwise decision and new state are those of the step function. |
| PathSelectionRuns.BandwidthMonotone | sdwan/common/path_selection.py:302-324 | More bandwidth never scores worse exactly outside the step from a non-positive estimate to one below 1 Mbit/s. |
| PathSelectionRuns.DegradedFromHistory | sdwan/common/path_selection.py:351-368 | The degraded flag holds exactly when some run of B violations was not followed by a run of G clean samples, and then carries a violation. |
| PathSelectionRuns.RecordIsItsHistory | sdwan/common/path_selection.py:337-368 | After any run, each flow-and-path record is the fold of exactly its evaluated samples. |
| PathSelectionRuns.DegradedOverRuns | sdwan/common/path_selection.py:337-378 | The same equivalence over every run, and a degraded record always names a violation. |
| PathSelectionRuns.HysteresisReasonIsUnreachable | sdwan/common/path_selection.py:370-373 | Over every run no candidate is rejected with the bare hysteresis reason. |
| PathSelectionRuns.SelectionIsSound | sdwan/common/path_selection.py:428-526 | Nothing is selected exactly when nothing is eligible and best effort has no admissible measurement; what is selected is permitted, enabled, reachable and fresh, and a new path meets the SLA and is led by no eligible candidate. |
| PathSelectionRuns.EverySelectionIsSound | sdwan/common/path_selection.py:428-526 | The same in every run, with eligibility said in the measurement's fields and the path's whole sample history. |
| PathSelectionRuns.DecisionMeaning | sdwan/common/path_selection.py:449-517 | The whole decision: the pool's leader for a flow without an available path; otherwise the flow leaves its path exactly if its violations are not just pending, another path leads, the hold-down is over and the improvement suffices. |
| PathSelectionRuns.WhyMeaning | sdwan/common/path_selection.py:449-497 | Each reason of a choice with no path in force, or none available, by its own condition. |
| PathSelectionRuns.WhyAgain | sdwan/common/path_selection.py:484-517 | Each reason of a choice with a path in force by its own condition. |
| PathSelectionRuns.LeavingNeedsHoldDownAndImprovement | sdwan/common/path_selection.py:486-526 | Leaving a path that is still available needs the hold-down to be over and the best score to beat it by the minimum percentage. |
| PathSelectionRuns.KeptPathIsWithinMargin | sdwan/common/path_selection.py:505-517 | A path kept for other reasons than hold-down or pending violations is within that margin of every alternative. |
| PathSelectionRuns.ChangedReport | sdwan/common/path_selection.py:464-526 | When `changed` is reported, what is stored, and that other flows are unaffected. |
| PathSelectionRuns.SwitchTimeIsLastSwitch | sdwan/common/path_selection.py:519-521 | In every run the remembered switch time is that of the flow's last request that put it on another path. |
| PathSelectionRuns.VoluntarySwitchesAreSpaced | sdwan/common/path_selection.py:509-526 | Over every time-ordered run, voluntary moves of one flow are at least the hold-down after its last switch or first selection. |
| Underlay.BuildAttachments | sdwan/underlay_l3.py:87-117 | The loop builds one attachment per node, then the Internet gateway on Internet transports. |
| UnderlayMeaning.AttachmentsMeaning | sdwan/underlay_l3.py:87-128 | The attachments are exactly those of the configured hubs, spokes and gateway, with their own addresses, ports, MACs and networks, authorized exactly if the node is in the authorized set or is the gateway. |
| Underlay.ValidatedIsWellWired | sdwan/common/model.py:607-632 | The validated uniqueness and disjointness facts make all attachments' addresses and prefixes separate. |
| Underlay.BuildFib | sdwan/underlay_l3.py:137-171 | The nested loops build the FIB function's routes, in order. |
| UnderlayMeaning.FibMeaning | sdwan/underlay_l3.py:119-189 | Between two authorized attachments a route covers an address exactly when the service rules deliver it there. |
| UnderlayMeaning.AddressIsRouted | sdwan/underlay_l3.py:137-185 | Between two authorized sites there is a route to the underlay address exactly unless both are spokes, or one is the gateway and the transport is private. |
| UnderlayMeaning.DeliveryIsUnique | sdwan/underlay_l3.py:137-189 | From one attachment an address is delivered to at most one other. |
| UnderlayMeaning.RepliesComeBack | sdwan/underlay_l3.py:119-185 | A delivered packet's reply has a legitimate source, and is delivered back exactly unless it answers a spoke's LAN address sent to a hub. |
| OpenFlow.InstallMeaning | sdwan/controller_v5.py:181-200 | Installed entries are exactly those some message sets, whatever the order. |
| UnderlayProgram.ProgramMeaning | sdwan/controller_v5.py:264-313 | The messages of a reprogramming are exactly the entries justified by an authorized attachment or by a route. |
| UnderlayPipeline.PipelineMeaning | sdwan/controller_v5.py:264-313 | Under highest-priority matching, and whichever equal entry a switch picks, every packet ends exactly as the port, source and route conditions say. |
| UnderlayPipeline.PipelineIsDeterministic | sdwan/controller_v5.py:264-313 | Every packet has exactly one outcome, so no tie is left undefined. |
| UnderlayTheorems.InputsAreGood | sdwan/common/model.py:607-632 | A validated configuration meets the pipeline theorem's conditions. |
| UnderlayTheorems.SwitchForwardsExactly | sdwan/controller_v5.py:264-314 | In the configuration's terms: the compiled switch sends a packet out of a port exactly when it enters on an admitted node's port with that node's source (and MAC when enforcing) and is delivered to the admitted node on the outgoing port, with the rewritten MACs. |
| UnderlayTheorems.UnauthorizedIsCutOff | sdwan/underlay_l3.py:96-141 | A hub or spoke outside the authorized set neither sends through the switch nor receives from it. |
| UnderlayTheorems.SpokePortsAreIsolated | sdwan/underlay_l3.py:174-185 | No packet entering on a spoke's port leaves by another spoke's port. |
| UnderlayTheorems.RepliesAreForwardedBack | sdwan/controller_v5.py:269-313 | The reply to a forwarded packet returns to the original port, except for a spoke's LAN traffic to a hub, whose reply goes nowhere. |
| Controller.FingerprintDeterminesFlows | sdwan/controller_v5.py:225-245 | Equal fingerprints compile to equal flows, although attachments and routes may come in another order. |
| Controller.UnderlayController.ReconcileDatapath | sdwan/controller_v5.py:247-320 | Skips, clears or reprograms one switch as the reconcile step does, message by message. |
| Controller.UnderlayController.Handle | sdwan/controller_v5.py:331-370 | Each connect, port, disconnect or timer event makes the corresponding step. |
| Controller.ReconcileIsFresh | sdwan/controller_v5.py:258-315 | From a coherent cache, a reconciled switch holds a fresh compile of its current inputs, skipped or not. |
| Controller.PortsStayInjective | sdwan/controller_v5.py:345-370 | Whatever the events, the stored port lists number no two ports alike. |
| Controller.PortsAreDescribed | sdwan/controller_v5.py:345-370 | Over every interleaving, a reconcile uses the ports that the switch described last, none if it has died since. |
| Controller.ForgottenIsReprogrammed | sdwan/controller_v5.py:331-370 | After a connect, port or disconnect event the switch, and no other, has no cached fingerprint. |
| Controller.DisabledIsInert | sdwan/controller_v5.py:247-257 | A disabled controller caches nothing and leaves every switch with what it connected with. |
| Controller.ValidInputsAreGood | sdwan/common/model.py:607-632 | A validated inventory with distinct suffixes and an injective port list gives inputs whose program has one meaning. |
| Controller.RunIsCoherent | sdwan/controller_v5.py:331-370 | Every interleaving of events, with any validated inventories, keeps the cache coherent. |
| Controller.EveryReconcileIsFresh | sdwan/controller_v5.py:225-370 | After any events with validated inventories, a reconcile in a non-disabled mode leaves exactly the flows of a fresh compile. |
| PolicyDatabase.OnlyOneRotation | sdwan/persistence/policy_store.py:40-67 | After any registrations and retirements, a new key is accepted exactly when none was ever retired; generations are 1 and 2. |
| PolicyDatabase.RotationIsFinal | sdwan/persistence/migrations/policy/001_initial.sql:60-70 | After two different keys, whatever is registered or retired, the rows stay as they are and every key but the second is refused. |
| PolicyDatabase.PolicyStore.RegisterWireguardPublicKey | sdwan/persistence/policy_store.py:40-67 | Idempotent for the active key, refused by the table's constraints, otherwise retires and records. |
| PolicyDatabase.PolicyStore.ReserveResources | sdwan/persistence/policy_store.py:147-154 | Reserves a site's leases once; a second reservation fails. |
| PolicyDatabase.PolicyStore.PutDesiredState | sdwan/persistence/policy_store.py:156-180 | A version is stored once: equal contents are idempotent, other contents or an older version are refused. |
| ControlPlaneRuns.PutMeaning | sdwan/persistence/policy_store.py:163-170 | Among a site's versions, stored exactly if newer than all, a repetition exactly if the latest itself, otherwise a conflict. |
| PolicyDatabase.PolicyStore.AckDesiredState | sdwan/persistence/policy_store.py:182-189 | An acknowledgement is recorded only for a stored version with the same contents. |
| Json.ComparisonIsExact | sdwan/dynamic_control.py:301-311 | For every two documents, the published one read back from the store and the built one compare as equal exactly when they agree but for version fields and no tuple shields a version field in the built one. |
| Json.UnchangedIsRecognized | sdwan/dynamic_control.py:301-311 | For every document, building it again without a change is recognized exactly when no tuple shields a version field in it. |
| DesiredStates.RowsAreShielded | sdwan/desired_state_v5.py:39-57 | Among hub and spoke documents, exactly those with ownership rows shield a version field. |
| DesiredStates.StrippedTellsBody | sdwan/desired_state_v5.py:69-144 | Without ownership rows, documents compare as equal exactly when they are for the same site with the same keys, peers and routes. |
| DesiredStates.PublishedAgain | sdwan/dynamic_control.py:309-311 | A stored document differs from a provisional one exactly in another site, another body or the presence of ownership rows in the new one. |
| PolicyControl.PolicyService.CompileControlState | sdwan/dynamic_control.py:313-342 | Compilation appends a version for each hub, and each ACTIVE spoke with a key, whose document changed. |
| PolicyControl.PolicyService.TransitionSite | sdwan/dynamic_control.py:205-222 | Accepts exactly repeated states and table transitions, then compiles. |
| PolicyControl.TransitionsByTarget | sdwan/dynamic_control.py:28-50 | From which states each state can be entered. |
| PolicyControl.ConfiguredMeaning | sdwan/dynamic_control.py:27 | A site is configured in every state but before its topology, after a failure, and on its way out. |
| PolicyControl.TopologyMeaning | sdwan/dynamic_control.py:139-146 | The topology holds the configured sites, and the static ones while none is configured. |
| PolicyControl.RowMeaning | sdwan/dynamic_control.py:162-203 | Only a site without a row, or with a deleted one, gets a new one; every other row stays. |
| PolicyControl.PolicyService.RegisterEdgeIdentity | sdwan/policy_service_v5.py:51-84 | Unknown sites and refused keys change nothing; otherwise the uninterrupted operation advances the site step by step to PROVISIONING and compiles. |
| PolicyControl.PolicyService.AckEdge | sdwan/policy_service_v5.py:98-103 | A VERIFIED acknowledgement of a stored version makes a provisioning or reconciling site ACTIVE; nothing else does. |
| PolicyControl.PolicyService.ActivateSpoke | sdwan/policy_service_v5.py:105-148 | Reserves, takes ownership and publishes only with all keys known, both hubs verified, nothing published and no leases held, in the order of the checks. |
| PolicyControl.ActivationMeaning | sdwan/policy_service_v5.py:105-130 | Each outcome of an activation by its own condition, in the order of the checks. |
| EdgeAgent.EdgeAgent.Reconcile | sdwan/edge_agent_v5.py:494-520 | Uninterrupted, it ends with the document running and recorded, or refuses it and changes nothing; the record's versions never decrease. |
| ControlPlane.CompiledForFacts | sdwan/dynamic_control.py:313-336 | Compiling one site only appends, starts no spoke that is not ACTIVE, and makes a hub's latest document the one built from the current keys and sites. |
| ControlPlane.StepKeepsInv | sdwan/policy_service_v5.py:35-148 | Every transaction, message and edge effect keeps the system invariant, with stops of service and edges between any two and late, repeated and reordered messages. |
| ControlPlaneRuns.HubDocument | sdwan/dynamic_control.py:313-327 | In every run a hub's latest document is the one built at its last compilation. |
| ControlPlaneRuns.HubFirst | sdwan/policy_service_v5.py:105-148 | In every run in which nobody requests ACTIVE, a spoke's first document appears only by a completed activation, when both hubs hold a verified latest document; it lists the spoke's current key on all three transports exactly for the hubs whose last compilation saw the spoke with that key. |
| PublishedDocuments.FirstDocumentSays | sdwan/desired_state_v5.py:69-102 | In every run in which nobody requests ACTIVE, a spoke's first document has on all three transports a tunnel to either hub with that hub's active key at that step, and routes to exactly the other configured sites. |
| PublishedDocuments.SpokeDocument | sdwan/desired_state_v5.py:69-102 | In every run a spoke's latest document says this of the state in which it was last built. |
| PublishedDocuments.HubDocumentIsCurrent | sdwan/desired_state_v5.py:104-144 | In every run a hub's latest document lists, for the state at its last compilation, exactly the keyed spokes with their own networks, routes to exactly the configured sites, the other hub with its key, and the ownership rows. |
| ControlPlaneWhole.CompileIsPlan | sdwan/dynamic_control.py:313-342 | A compilation that nothing interrupts, one transaction per site in any order, is the compile function of the service object. |
| ControlPlaneWhole.RegisterIsPlan | sdwan/policy_service_v5.py:51-84 | The transactions of an uninterrupted registration are the registration of the service object. |
| ControlPlaneWhole.RegistrationProvisions | sdwan/policy_service_v5.py:51-84 | A completed registration gives the site the key, takes it to PROVISIONING from any earlier stage of enrollment, and moves no other site. |
| ControlPlaneWhole.AcknowledgementIsPlan | sdwan/policy_service_v5.py:98-103 | The transactions of an uninterrupted acknowledgement are the acknowledgement of the service object. |
| ControlPlaneWhole.CompletedOperationsAreHubFirst | sdwan/policy_service_v5.py:105-148 | If both hubs were compiled since the last change of a key or of the configured sites, activation is hub-first. |
| ControlPlaneRuns.FirstPublication | sdwan/policy_service_v5.py:105-148 | From any state with the invariant in which ACTIVE sites have applied something, only a successful activation publishes a spoke's first document. |
| ControlPlaneRuns.VerifiedHubHolds | sdwan/persistence/policy_store.py:85-90 | A hub whose latest document is verified has applied and recorded it. |
| ControlPlaneRuns.ActiveSpokeHasApplied | sdwan/policy_service_v5.py:98-103 | In every state of every run in which nobody requests ACTIVE, an ACTIVE spoke has applied one of its published documents. |
| ControlPlaneRuns.BecomingActive | sdwan/policy_service_v5.py:98-103 | A site becomes ACTIVE exactly by a permitted explicit request or when the service acts on an accepted VERIFIED acknowledgement for a waiting site, of a document its edge applied. |
| ControlPlaneProgress.TableAloneAllowsBareActivation | sdwan/dynamic_control.py:205-222 | A run in which an explicit request makes a spoke ACTIVE with nothing published. |
| ControlPlaneRuns.NothingGoesBack | sdwan/edge_agent_v5.py:494-520 | Between any two points of any run, wherever service and edges stop, an edge's recorded version and route version never decrease, no applied document is forgotten, and published documents are never changed or withdrawn. |
| ControlPlaneRuns.VersionsAreNumbered | sdwan/dynamic_control.py:326-335 | In every run a site's documents are numbered from one without gaps, each for that site and with its number as route version. |
| ControlPlaneRuns.RedeliveryIsIdentical | sdwan/persistence/policy_store.py:156-180 | Two deliveries of one version of one site carry the same document, however far apart. |
| ControlPlaneRuns.VerifiedWasApplied | sdwan/persistence/policy_store.py:182-189 | Whatever the store marks VERIFIED was applied by that edge with exactly the stored contents, and the edge's durable record is at that version or later. |
| Recompilation.RecompilationIsIdempotent | sdwan/dynamic_control.py:301-336 | With both hubs known, compiling twice publishes nothing new exactly while there are no ownership rows. |
| Recompilation.EveryCompilationPublishes | sdwan/dynamic_control.py:309-327 | In every run, once there is an ownership row, a hub gains exactly one version per compilation. |
| Recompilation.RecompilationBlocksActivation | sdwan/persistence/policy_store.py:85-90 | Right after such a compilation no spoke can be activated: the hub's new version is unverified. |
| Recompilation.CompiledTwicePublishedTwice | sdwan/dynamic_control.py:309-327 | A run with one activation in which two compilations of a hub publish two versions with the same body. |
| ControlPlaneCrashes.StopBeforeRecord | sdwan/edge_agent_v5.py:512-520 | A stop between applying and recording leaves the record, sends no answer, leaves the kernel on the new document or empty, and the document is accepted when it comes again. |
| ControlPlaneCrashes.KernelDiffersFromRecord | sdwan/edge_agent_v5.py:512-520 | In every run, outside the moment between applying and recording, the kernel runs in full a document other than the recorded one exactly if the edge stopped at that moment and has neither rebooted nor accepted a document since. |
| ControlPlaneCrashes.OlderTakesOver | sdwan/edge_agent_v5.py:494-520 | In every run, an older document under way takes over an idle edge's kernel exactly if the kernel's document is unrecorded and the older one is not below the record. |
| ControlPlaneCrashes.KernelGoesBackExactly | sdwan/edge_agent_v5.py:494-520 | In every run, some older document can take over an idle edge's kernel exactly if the kernel's document is unrecorded and any older one was ever sent. |
| ControlPlaneCrashes.KernelCanGoBack | sdwan/edge_agent_v5.py:499-520 | A run in which, after such a stop, a late older document replaces the newer one in the kernel. |
| ControlPlaneProgress.CatchUpAcknowledges | sdwan/edge_bootstrap.py:130-148 | From any state with the invariant, a site that reconciles its latest document is never refused, ends running and having recorded it, and is acknowledged VERIFIED. |
| ControlPlaneProgress.HubCatchesUp | sdwan/edge_agent_v5.py:494-520 | For a hub this changes acknowledgements alone and leaves its latest document verified. |
| ControlPlaneProgress.ActivationIsReachable | sdwan/policy_service_v5.py:105-148 | From every state of every run in which a site has keys and is configured but unpublished, some continuation publishes its first document exactly if it holds no leases. |
| ControlPlaneProgress.ActiveIsReachable | sdwan/policy_service_v5.py:98-148 | From every such state, wherever service and edges were interrupted, a waiting site without leases can be taken to ACTIVE. |
| ControlPlaneProgress.StoppedRegistrationBreaksHubFirst | sdwan/policy_service_v5.py:64-82 | A run in which the service stops after committing a spoke's key and restarts, and activation then publishes although neither hub lists the spoke. |
| ControlPlaneProgress.StoppedActivationBlocks | sdwan/policy_service_v5.py:125-147 | A run in which the service stops after reserving a site's leases, after which no continuation ever publishes its first document. |
| ControlPlaneProgress.EverySiteCanBecomeActive | sdwan/policy_service_v5.py:51-148 | So every site of the topology can be taken from a fresh start to ACTIVE under the hub-first rule. |
| Inventory.DynamicInventory.Allocate | sdwan/dynamic_control.py:163-203 | Each outcome in the order of the checks; a new row takes the least free identifier and octet and one past the largest index and datapath number. |
| Inventory.OutcomeMeaning | sdwan/dynamic_control.py:162-203 | Each outcome by its own condition: another site's device, a refused number and a full pool come first, also for a site that has a row. |
| Inventory.RunKeepsRowsGood | sdwan/dynamic_control.py:118-203 | Over every run of allocations and deletions from a seed that passes validation, rows stay pairwise distinct in all four resources, and a site keeps the resources it was first given. |
| Inventory.ListenersAndAddressesAreDistinct | sdwan/common/model.py:238-299 | On such a table no two listeners of spokes, hubs and inter-hub links share a port and no two sites an address. |
| Inventory.NumberedSitesCannotBeReallocated | sdwan/dynamic_control.py:171-191 | Over every run, asking again for an existing `siteN` with its own device succeeds exactly if N is in range, no row holds octet N and an identifier is left; so only if it was seeded on another octet. |
| Inventory.ClearWhileThereIsRoom | sdwan/dynamic_control.py:167-169 | Over every run, rows stay clear of the identifiers held by hubs and gateways exactly while every creation found a free one below them. |
| Inventory.ValidWhileThereIsRoom | sdwan/common/model.py:600-606 | Over every run, the topology of all sites passes the identifier check exactly while every creation found such room. |
| Inventory.CollisionStays | sdwan/common/model.py:222-226 | Once a site holds a reserved identifier, every later topology that contains the site is refused. |
| Inventory.ReservedIdIsAllocated | sdwan/config/topology.core.yaml:134-170 | A run of six allocations from the shipped topology whose last one gets the first cloud gateway's identifier 21, so that validation fails. |
| Marks.Encode | sdwan/common/marks.py:118-146 | Refuses a slot outside the route mask, otherwise combines the fields. |
| Marks.RoundTrip | sdwan/common/marks.py:68-146 | For a valid layout every field of an encoded mark decodes to what was encoded, and the emergency bit is set exactly if asked for. |
| Marks.InstallPolicyRules | sdwan/edge_agent_v5.py:436-468 | The loops of deletions and additions leave exactly the rules the installation function describes. |
| Marks.RulesRouteMarksExactlyWithoutClash | sdwan/edge_agent_v5.py:436-468 | Every mark is routed to its hub's table for its slot, or to the slot's generic table, whatever its other bits, exactly when the hub tables do not clash with one another's deletions or the generic priorities. |
| Marks.TableOn1001Misroutes | sdwan/edge_agent_v5.py:436-468 | A valid configuration with six different hub tables, one of them 1001, whose installed rules do not route the first slot's marks to its table. |
| PacketParser.EndpointOrder | sdwan/classifier/packet_parser.c:15-20 | Comparing endpoints is a total order on one address family. |
| PacketParser.ParsePacket | sdwan/classifier/packet_parser.c:22-85 | Accepts exactly the datagrams whose headers fit their declared lengths and whose transport header is not hidden, and reports key, flags, sequence number and the exact payload length. |
| PacketRoundTrip.DatagramReadsBack | sdwan/classifier/packet_parser.c:22-85 | Every well-formed IPv4 or IPv6 datagram that is no fragment and hides no transport header, with any options and padding, is accepted and read back with its own addresses, ports, flags, sequence number and payload length. |
| PacketRoundTrip.FragmentsAreRefused | sdwan/classifier/packet_parser.c:39-57 | IPv4 fragments, and IPv6 datagrams whose first extension header hides the transport header, are refused. |
| PacketParser.SameKey | sdwan/classifier/packet_parser.c:76-84 | Two packets share a key exactly when version and protocol agree and they join the same two endpoints, in either direction. |
| PacketParser.ReplyHasTheSameKey | sdwan/classifier/packet_parser.c:22-85 | Exchanging the address and port bytes of an accepted datagram gives an accepted one with the same key, seen from the other side unless both ends coincide. |
| FlowTable.FlowTable.EvictOldest | sdwan/classifier/flow_table.c:29-41 | Removes exactly one least recently used record, unless every record carries the all-ones timestamp. |
| FlowTable.FlowTable.Get | sdwan/classifier/flow_table.c:43-64 | Finds the key's record, or makes room and adds a new one at the head of its chain; the chains keep refining a map and every creation stays accounted for. |
| FlowTable.FlowTable.Observe | sdwan/classifier/nfqueue_worker.c:132-142 | One packet's effect on the map, with the caller's stamp and TCP state. |
| FlowTable.FlowTable.Expire | sdwan/classifier/flow_table.c:83-103 | Keeps exactly the records that have neither idled nor outlived their limit, and counts the others once, as outlived if both. |
| FlowTable.Unlink | sdwan/classifier/flow_table.c:37-40 | Unlinking one record from its chain removes exactly its key from the map. |
| FlowTable.Link | sdwan/classifier/flow_table.c:62-63 | Linking a record with a new key at the head of its chain adds exactly that key. |
| FlowRuns.SizeIsBounded | sdwan/classifier/flow_table.c:43-64 | Over every run whose clock stays below the all-ones value the table holds at most the configured number of records, or one if that is zero. |
| FlowRuns.EvictionNeedsAFullTable | sdwan/classifier/flow_table.c:29-49 | A flow is pushed out only after packets of at least the configured number of different flows were seen at or after its own last packet. |
| FlowRuns.ExpiryIsExact | sdwan/classifier/flow_table.c:83-103 | Under a clock that never runs back, such as the monotonic clock the worker reads, expiry removes a record exactly when it has really been idle, or lived, for its limit. |
| FlowHistory.RecordIsItsHistory | sdwan/classifier/nfqueue_worker.c:132-142 | In every run each record is the fold of its flow's packets since it was created. |
| FlowHistory.TcpStateFromHistory | sdwan/classifier/nfqueue_worker.c:138-142 | A TCP record is unanswered, closed or established exactly as its packets' flags say. |
| FlowHistory.ExpiryFromHistory | sdwan/classifier/flow_table.c:66-103 | Under a clock that never runs back, expiry removes a record exactly if its first packet is the lifetime old or its last one as old as its packets and its inspection allow. |
| FlowRuns.IdleIsExactExceptWrapped | sdwan/classifier/flow_table.c:91-92 | For one record and any clock value, the unsigned test agrees with real idleness exactly when the clock is not behind the record or the wrapped difference stays below the timeout. |
| DependencyGraph.DependencyGraph.AddEdge | sdwan/management/graph.py:104-108 | Refuses unknown ends; otherwise stores the edge in place of any with its identifier and leaves the others. |
| DependencyGraph.BallMeaning | sdwan/management/graph.py:117-136 | A node is within the depth exactly when a walk of at most that many steps in the chosen direction reaches it. |
| DependencyGraph.DependencyGraph.Expand | sdwan/management/graph.py:117-136 | Returns exactly the nodes within the clamped depth, and lists level by level, in stored order and with repetitions, exactly the edges that touch nodes nearer than that. |
| DependencyGraph.DependencyGraph.FindPath | sdwan/management/graph.py:138-150 | Terminates with a shortest chain of stored edges, or reports no path exactly when there is none, or names an unknown end. |

## Left out

- Shell, Docker, iptables, `wg`, `tc`, ping and netlink execution, and failures of those commands halfway through a round, a reconciliation or a rule installation.
- nDPI, event export, JSON and socket handling of the classifier: what inspection reports about a flow is an input.
- SQLite and its text encodings: tables are maps, each transaction is one step, a digest is the document itself, and canonical texts are compared as the values they denote.
- Races between processes that share a database or a configuration object: steps are serialized, and the cached configuration equals the recomputed one.
- TLS, certificates, tokens, claims and access control; the HTTP and MCP servers, the chat agent and rendering.
- YAML loading and most of `validate_config`: the proofs assume only the uniqueness and disjointness facts they use, unique attachment suffixes, and distinct switch port numbers.
- Floating-point rounding, human-readable reasons, and audit or status records.
- `MetricWindow.update`, `resolve_sla` and `_run_sla_selection`: what the selector measures and what the edge does with its decision.
- `hub_first_activate`, which no service calls, and failures of `reserve_resources` other than on the site's own leases, which are an input to activation.
- ARP answers, packet-in handling, LAN switch learning, IPv4 netmasks (networks are intervals of addresses) and the time-to-live underflow of forwarded packets.
- Controller.UnderlayController.Handle: flows of LAN switches are not modelled, and an event's port names and inventory are part of the event.
- FailoverRuntime.LocalFailoverRuntime.RunOnce: holds the health records in a map rather than one machine object per tunnel, assumes event identifiers are fresh, and leaves out the SLA selection call, the status files and the event queue, none of which the slots read.
- Inventory.DynamicInventory.Allocate: site-name and hub-name syntax checks are left out, and names come already split into `siteN` and others.
- Inventory.RunKeepsRowsGood: the uniqueness of switch, host and suffix names in the table is not modelled.
- PolicyControl.PolicyService.CompileControlState: texts that the configuration determines (addresses, ports, networks, endpoints) stand in documents as settings named by what they are about, distinct for distinct sites and transports; ownership rows and routes come in ascending order of sites; the builders' validation failures are left out.
- ControlPlaneRuns.NothingGoesBack: the durable record is replaced atomically and survives a stop; losing it is not modelled, and an edge runs one reconciliation at a time.
- EdgeAgent.EdgeAgent.Reconcile: a document applied in full replaces the earlier one; peers and routes that an earlier document added and that the program leaves in place are not captured.
- PolicyControl.PolicyService.ActivateSpoke: the checks and the first transaction are one step, so another request cannot come in between.
- FlowTable.FlowTable.Get: chains are sequences, so the pointer links and the freeing of records are not captured; counters are unbounded; the bucket hash is arbitrary rather than the program's own.
- FlowTable.FlowTable.Observe: packet counts, TCP payload deduplication and budgets of the caller are left out.
- Marks.Encode: marks are sets of bits, so a hub name other than the two is not expressible.
