# Verified model of the network tester

The network tester decides whether a data-centre fabric is cabled as MAAS says
it is. A CLI builds the expected topology, deploys a charm on every in-scope
machine, triggers a probe, collects one document per machine and reduces them to
one report and one exit code. This project models that pipeline and the two
concurrent protocols that feed it, in Dafny, and proves what they promise.

Run `dafny verify dfyconfig.toml` to verify everything.

## What is modelled

| file | subject |
|---|---|
| Order.dfy | Python's string order, `sorted` of lists and of sets |
| Topology.dfy, ProbeOutput.dfy | the two documents, as values |
| Sections.dfy | a section's status and the cancellation flag a validator checks |
| MaasTopology.dfy | building and pruning the topology (cli/maas_topology.py) |
| MaasRecords.dfy | what the records of a built topology say of the nodes MAAS lists |
| Representatives.dfy | rack representatives, shared by CLI and nodes (cli/representatives.py) |
| L2Edges.dfy, PeerSets.dfy | the L2 check universe as the report and as a node derives it |
| VlanSweep.dfy | phase A of the VLAN validator: the ARP sweeps |
| VlanValidator.dfy | the whole VLAN validator |
| Verdicts.dfy, ReportGenerator.dfy | the report as a mutable object and the document it builds |
| ReportAccounting.dfy | every check accounted for once |
| ExitCodeSoundness.dfy | what exit code 0 means |
| NodeAndReport.dfy | VLAN validators of two nodes composed with the report |
| CapturedNeighbors.dfy | what phase B says of each captured MAC, and what that means in the document |
| ReportEntries.dfy | every list of the finished report, entry by entry |
| ReportContents.dfy | the definitive failures, edge passes and fallback warnings of the finished report |
| Cancellation.dfy | the cancellation flag and process registry under any interleaving |
| ProbeRunner.dfy | `run_probe` as a phase machine over validator threads and a clock |
| RunIdProtocol.dfy | run-id propagation across the units of the charm |
| RunIdExactness.dfy, RunIdRepeats.dfy, RunIdSettling.dfy | which id settled units completed last; which ids can run twice in a row; that the units come to rest |
| JujuRun.dfy, JujuAndReport.dfy | deploy, wait, trigger, collect; and what the report says of who did not report |
| CrossRackRuns.dfy, CrossRackAndReport.dfy | the cross-rack record loops under cancellation; and the verdicts they lead to |
| EndToEnd.dfy | from the MAAS lists to the exit code in one statement |
| BondValidator.dfy | bond mode and cabling verdicts |
| Pcap.dfy | the two capture readers |
| MtuSearch.dfy | the DF-bit path MTU search |
| IcmpChecksum.dfy | the ICMP checksum |

What the surrounding world may do (subprocess answers, Juju, the clock, other
threads, other cancellers) is arbitrary. Where a result depends on answers they
are fixed in a value the run is given and its contract speaks of: `World` for
Juju and its clock, `Network` for pings, traceroutes and paths, `Air` for the ARP
sweeps, `Wire` for captured bytes. Elsewhere the environment is nondeterministic.

Preconditions used, each named where it is needed: MAAS ids are unique
(`DistinctIds`, from which `BuiltIsLawful` derives `UniqueIds` and
`SchemaTopology` of the built document), a MAC belongs to one interface per
fabric and VLAN (`MacsOwned`), findings that fail an edge are definitive
(`EdgeFailuresDefinitive`, which `VlanRunsAreDefinitive` derives for whatever the
VLAN validators leave behind), the clock moves between polls and `add_unit` never
hands out one unit name twice (`Lawful`), a wait not cut short takes its time
(`Timed`), and a unit's document names the machine the unit runs on
(`OwnDocuments`). Representatives and fallback targets are taken to have a data
IP, and run ids to be short enough for a command line. The Juju environment of
RunIdProtocol has one fixed leader; a hook that fails loses its databag write and
stays pending.

## What turned out otherwise

- README.md:19 and README.md:155 of the repository say that one-directional loss
  becomes an inferred link finding. The code (cli/report_generator.py:238-248)
  infers a failure only when both directions failed; one failing direction is a
  warning or an inconclusive check. The model follows the code.
- The charm reads the last-run file back with `read_text().strip()`
  (charm/src/charm.py:102-103), which drops whitespace at the ends and turns carriage
  returns into line feeds, and compares that with the run id as configured. An id that
  holds a carriage return or has whitespace at its ends is therefore run again by every
  trigger. `RepeatableIffUnclean` with `CleanMeaning` gives the exact condition,
  `UncleanRepeats` an ordinary run in which it happens.
- For the same reason a settled unit need not have run the configured id: configure
  " a", let it run, then configure "a"; the file reads back as "a", the second id is
  skipped, and the last completed one stays " a". With "a\rb" and then "a\nb" it is the
  same. This can happen exactly when some other configured id that can be run reads back
  as the configured one (`ExactIffUnmistakable`; `MistakenRun` is the run).
- An id with a NUL character can never be run, as `subprocess.run` raises on it, so the
  hook of a unit given one fails for ever; `StepIff` and `NotStuck` say when units move.
- Two folds of the ICMP checksum (charm/payload/vlan_neighbor_validator.py:211-212)
  suffice for every message of at most 65539 words, checksum word included, and
  for no larger bound (`LimitIsExact`).
- The MTU search does not see a reporting bottleneck behind a local interface of
  between 1500 and 9000 bytes that reports first (charm/payload/mtu_validator.py:83-86);
  `TwoReportsExactIff` says exactly when the result is the path MTU.

## Model

| member | source | states |
|---|---|---|
| Order.LessMeaning | cli/representatives.py:45 | the string order: a proper prefix is smaller, otherwise the smaller code point at the first difference decides |
| Order.SortByCorrect | cli/representatives.py:45 | `sorted` yields the same elements with keys that never decrease |
| Order.SortedUnique | cli/maas_topology.py:335 | two sorted arrangements of the same elements with distinct keys are equal, so sorting forgets input order |
| Order.SortKeep | cli/maas_topology.py:319-335 | dropping records and sorting them commute |
| Representatives.SelectTargets | cli/representatives.py:101-106 | the targets of a rack are every other data rack, each with its least candidate and the next; fails exactly when a needed selection block is unusable |
| Representatives.SelectRepresentatives | cli/representatives.py:87-108 | the loops fill exactly the selection dictionary the specification defines, or raise exactly when it does |
| Representatives.SelectionMeaning | cli/representatives.py:28-82 | sources are the least in-scope data id of their rack, fallbacks the least one above the representative or none, target sets are all other racks, and a rack's source is its representative everywhere |
| Representatives.SelectionPermuted | cli/representatives.py:45 | permuting the machine list never changes the selections |
| Representatives.SelectionsKeep | cli/representatives.py:28-108 | under a schema-valid rule dropping out-of-scope machines never changes the selections |
| Representatives.SelectionsRaise | cli/representatives.py:28-46 | selection raises exactly without a rule, with a data rack and an unknown source block, or with two and an unknown target or fallback block |
| L2Edges.ExpectedL2Edges | cli/report_generator.py:40-77 | the nested loops return the edge list of the specification, in order |
| L2Edges.EdgesMembers | cli/report_generator.py:64-77 | an edge is listed exactly when its ends stand in that order in the document, one is in scope, they share a segment and the rule allows them |
| L2Edges.EdgeBetween | cli/report_generator.py:64-77 | between two machines of the document there is an edge, one way round, exactly when they are expected neighbours |
| L2Edges.ExpectedSymmetric | cli/report_generator.py:54-62 | being expected neighbours is symmetric |
| L2Edges.EdgesKeep | cli/report_generator.py:64-77 | dropping machines with no expected neighbour leaves the edge list unchanged |
| Topology.AdjacencyMeaning | cli/report_generator.py:54-62 | an adjacency is ruled out exactly by a bmc-oam machine at one end that may not have the other's role, or not its rack, for a neighbour |
| PeerSets.DerivePeerSets | charm/payload/vlan_neighbor_validator.py:57-113 | the nested loops build one plan per interface, as specified |
| PeerSets.PlanMeaning | charm/payload/vlan_neighbor_validator.py:80-111 | the whole plan: its own interface, MACs and gateway, and which peer interfaces are probed, recognized or forbidden |
| PeerSets.KindMeaning | charm/payload/vlan_neighbor_validator.py:104-111 | probed, recognized and forbidden in terms of the rule, the scope and the address |
| PeerSets.MacsMeaning | charm/payload/vlan_neighbor_validator.py:50-54 | the MACs of an interface are its own and its bond members', in lower case |
| PeerSets.SetsDisjoint | charm/payload/vlan_neighbor_validator.py:104-111 | expected, out-of-scope and forbidden MACs of a plan are disjoint |
| PeerSets.UniversesAgree | charm/payload/vlan_neighbor_validator.py:90-111 | an edge is expected exactly when an in-scope node lists every MAC of the other machine on every segment they share, and not expected exactly when it lists none on any |
| PeerSets.ForbiddingSymmetric | charm/payload/vlan_neighbor_validator.py:69-77 | one machine's plan forbids the other exactly when the other's forbids it |
| PeerSets.PlansKeep | charm/payload/vlan_neighbor_validator.py:90-111 | dropping machines that share no segment with a node leaves its plans unchanged |
| MaasTopology.MachineRackMeaning | cli/maas_topology.py:133-146 | the rack is the controller named by the first boot interface that names a registered one, else by the first interface that does, else the only controller, else empty; and nothing else |
| MaasTopology.ComputeMachineRack | cli/maas_topology.py:133-146 | the derivation returns that rack |
| MaasTopology.SelectInScope | cli/maas_topology.py:238-265 | the selected ids of each scope mode, and an error exactly on an unknown rack, unknown node, node that is not Ready, or unknown mode |
| MaasTopology.ScopeIsReady | cli/maas_topology.py:240-264 | whatever the scope, only Ready machines are selected |
| MaasTopology.RetainedPeers | cli/maas_topology.py:268-293 | retained are exactly the out-of-scope data machines and those on a segment of an in-scope machine |
| MaasTopology.BuildTopology | cli/maas_topology.py:296-349 | the document is the pruned one of the specification, or an error exactly when the scope is |
| MaasTopology.PrunedIsKept | cli/maas_topology.py:319-335 | the pruned document is the unpruned one with machines removed, order kept |
| MaasTopology.DroppedIsIsolated | cli/maas_topology.py:268-293 | a removed machine is out of scope and shares no segment with an in-scope machine |
| MaasTopology.PruningPreservesMeaning | cli/maas_topology.py:268-335 | pruned and unpruned documents give the same expected edges, the same plans for every in-scope node and the same selections |
| MaasTopology.BuiltIsLawful | cli/maas_topology.py:296-349 | from lists without duplicate ids the built document has unique ids and a schema-valid rule, and its in-scope machines are exactly the selected ones |
| MaasRecords.RoleMeaning | cli/maas_topology.py:149-162 | data exactly with an interface on a fabric no rack controller has, no role exactly without any fabric, bmc-oam otherwise |
| MaasRecords.ManagementMeaning | cli/maas_topology.py:123-130 | a fabric counts as management exactly when some rack controller has an interface on it |
| MaasRecords.InterfaceMeaning | cli/maas_topology.py:182-207 | the record of an interface, field by field: class by its fabric, address and gateway of its first link that gives one, member MACs by name |
| MaasRecords.InterfacesMeaning | cli/maas_topology.py:210-226 | recorded are, in order, exactly the physical, bond and VLAN interfaces on a VLAN that are no bond members |
| MaasRecords.RecordMeaning | cli/maas_topology.py:308-334 | every record of the built document describes a rack controller, or a machine that is none, with its role, rack, scope flag and interfaces; an unclassifiable machine counts as data |
| MaasRecords.RecordedIff | cli/maas_topology.py:268-293 | a machine is recorded exactly when it is in scope, has a data-fabric interface, or is on a VLAN of a machine in scope |
| MaasRecords.ControllersRecorded | cli/maas_topology.py:308-318 | every rack controller has its record |
| MaasRecords.RecordsInOrder | cli/maas_topology.py:335 | the records come in strictly increasing order of system_id |
| MaasRecords.RulesMeaning | cli/maas_topology.py:29-66 | by the rules of the document a bmc-oam machine may only be next to the controller of its own rack, and selection never raises |
| MaasRecords.ScopeMeaning | cli/maas_topology.py:238-265 | what each scope selects and which scopes are refused, in terms of the machines' status, rack, id and host name |
| VlanValidator.Section.ClassifyCaptured | charm/payload/vlan_neighbor_validator.py:372-437 | phase B appends exactly the findings and observations of the distinct captured MACs of every plan, each stranger pinged on its own |
| VlanValidator.Section.ProbeExpected | charm/payload/vlan_neighbor_validator.py:440-493 | phase C appends the results of the probes before the flag was first seen, and then one record per probe never attempted; complete exactly when the flag was never seen |
| VlanSweep.SweepUntilClosed | charm/payload/vlan_neighbor_validator.py:338-365 | phase A ends after at most seven sweeps; a peer is attempted exactly when some sweep probed it, its ARP observed exactly when some probe of it was answered, and it is interrupted exactly when the last sweep or the wait after it met the flag |
| VlanSweep.MadeMeaning | charm/payload/vlan_neighbor_validator.py:346-356 | a sweep probes exactly the peers whose plan's checks were clear so far, up to the plan that met the flag |
| VlanSweep.ProbedMeaning | charm/payload/vlan_neighbor_validator.py:346-356 | a peer is probed exactly when all checks of its plan up to it are clear and no earlier plan met the flag; time running out ends one plan only |
| VlanSweep.SevenSweepsFit | charm/payload/vlan_neighbor_validator.py:343-365 | seven sweeps do happen, so the bound is exact |
| VlanSweep.ClearSweep | charm/payload/vlan_neighbor_validator.py:346-356 | a sweep whose checks are all clear probes every expected peer |
| VlanValidator.Section.Run | charm/payload/vlan_neighbor_validator.py:318-493 | the whole section wherever cancellation strikes: the sweeps, phase B on the parsed captures and phase C up to that probe, and one record with the reason per probe never attempted; complete exactly when never interrupted |
| VlanValidator.ArpedMeaning | charm/payload/vlan_neighbor_validator.py:357-359 | after the sweeps a probe counts as ARP-observed exactly when a probe of that peer on that interface was answered in some sweep |
| VlanValidator.CapturedMeaning | charm/payload/vlan_neighbor_validator.py:367-376 | phase B looks at what the reader makes of the bytes captured on the plan's own interface |
| CapturedNeighbors.FirstSeenMeaning | charm/payload/vlan_neighbor_validator.py:374-376 | the captured MACs phase B judges are the pairs at the positions where a MAC occurs first: all of them, in order, no other |
| CapturedNeighbors.EachMacOnce | charm/payload/vlan_neighbor_validator.py:374-376 | no MAC is judged twice, and one is judged exactly when it was captured |
| CapturedNeighbors.OneVerdict | charm/payload/vlan_neighbor_validator.py:377-437 | of every such MAC phase B says exactly one thing: own or expected and nothing recorded, forbidden, out of scope, gateway or stranger, each under its condition |
| CapturedNeighbors.CapturedPeer | charm/payload/vlan_neighbor_validator.py:104-111 | a captured MAC of another machine on the segment: a finding naming a forbidden machine, nothing for a probed one, an observation naming any other |
| CapturedNeighbors.CapturedStranger | charm/payload/vlan_neighbor_validator.py:408-437 | a captured MAC that is nobody's on the segment is the gateway when it shows the gateway's address and a stranger otherwise |
| CapturedNeighbors.CapturedIsLower | charm/payload/vlan_neighbor_validator.py:142 | a captured MAC is written as the plans write theirs, in lower case |
| CapturedNeighbors.CaptureFindingMembers | charm/payload/vlan_neighbor_validator.py:372-437 | phase B's findings are exactly those of the judged MACs of the plans |
| CapturedNeighbors.CaptureObservationMembers | charm/payload/vlan_neighbor_validator.py:372-437 | and so are its observations |
| VlanValidator.ProbeFindingMembers | charm/payload/vlan_neighbor_validator.py:450-477 | a probe finding exists exactly for a probe that lacked its ARP or its ICMP answer |
| VlanValidator.ProbeObservationMembers | charm/payload/vlan_neighbor_validator.py:478-491 | a peer observation exists exactly for a probe that got an answer |
| VlanValidator.ProbeMeaning | charm/payload/vlan_neighbor_validator.py:450-491 | one probe gives a definitive finding per answer it lacks, naming the peer, and an observation of both when it has one |
| VlanValidator.LeftMeaning | charm/payload/vlan_neighbor_validator.py:302-315 | when phase C is cut short the records left behind are exactly those of the peers tried neither in phase A nor in phase C |
| VlanValidator.CaptureFindingPeer | charm/payload/vlan_neighbor_validator.py:380-395 | a capture finding that names a peer is a forbidden neighbour of some plan |
| VlanValidator.NoProbeLost | charm/payload/vlan_neighbor_validator.py:302-315 | after an interruption every derived probe was attempted or is recorded with the reason |
| NodeAndReport.EdgeVerdict | charm/payload/vlan_neighbor_validator.py:439-493 | two finished validators make their edge a bidirectional pass exactly when every mutual probe got both answers, otherwise it has failed with a definitive finding on one end; never silent or one-way |
| NodeAndReport.EdgeReported | cli/report_generator.py:101-154 | in the finished report that edge is a bidirectional pass, or a definitive failure found by one end about the other is listed and the exit code is 1 |
| NodeAndReport.DirectionAfterRun | cli/report_generator.py:80-98 | one direction is confirmed when all its probes were answered and failed otherwise |
| NodeAndReport.RunFindingsDefinitive | charm/payload/vlan_neighbor_validator.py:292-299 | every finding in an output left by a VLAN validator run is definitive, however far the run got |
| NodeAndReport.RunOn | charm/payload/vlan_neighbor_validator.py:318-493 | deriving the plans and running the validator, interrupted anywhere, leaves such an output, and a finished section when nothing interrupted it |
| Verdicts.FindPathMeaning | cli/report_generator.py:157-165 | no record is found exactly when none is for that rack, otherwise one that is |
| Verdicts.DirectionMeaning | cli/report_generator.py:80-98 | a direction failed with one of three kinds of finding about the peer, is confirmed without one and with an answer observed, and says nothing otherwise |
| Verdicts.GatedIff | cli/report_generator.py:171-201 | a direction is gated exactly when its source representative has a definitive bond or VLAN finding |
| Verdicts.VerdictMeaning | cli/report_generator.py:183-216 | the state of a direction that is not gated, for every record its representative may have left |
| Verdicts.PairMeaning | cli/report_generator.py:236 | a link is named by its racks in increasing order |
| ReportGenerator.FileAllPartitions | cli/report_generator.py:536-540 | filing partitions the findings: each list grows by those of its classification in recorded order, the warnings by the unclassified, every finding is filed once and nothing else changes |
| ReportGenerator.Report.FileProbeOutput | cli/report_generator.py:523-540 | an output adds its incompleteness and all its findings, in order, and nothing else |
| ReportGenerator.Report.ClassifyVlanEdges | cli/report_generator.py:101-154 | the edge loop and the skip counts leave the specified document |
| ReportGenerator.Report.FallbackTargetWarning | cli/report_generator.py:331-347 | one call warns about the representative and remembers it, unless it is remembered already |
| ReportContents.OneFallbackWarning | cli/report_generator.py:331-347 | the finished report has one fallback warning for a rack and its representative if some direction into it is answered only by the fallback, and none otherwise |
| ReportContents.DefinitiveFailures | cli/report_generator.py:523-540 | the report's definitive failures are exactly the definitive findings of the outputs, and the exit code is 1 exactly when there is one |
| ReportContents.EdgePassReported | cli/report_generator.py:120-136 | an edge confirmed both ways is among the report's passed checks |
| ReportGenerator.Report.ReconcileFailures | cli/report_generator.py:238-258 | what the failing directions of a link add and which directions stay to be reported |
| ReportGenerator.Report.ReconcileBgpLink | cli/report_generator.py:227-269 | a link leaves the specified document |
| ReportGenerator.Report.ClassifyMtu | cli/report_generator.py:374-425 | MTU observations, unmeasured paths and asymmetries, in order of racks |
| ReportGenerator.Report.ClassifyCrossRack | cli/report_generator.py:428-449 | all links in order, then MTU; nothing when the selection raises |
| ReportGenerator.GenerateReport | cli/report_generator.py:495-563 | the lists of the mutable report end as those of the document of the specification |
| ReportGenerator.AllPathsMembers | cli/report_generator.py:377-381 | the MTU paths are exactly the directed pairs of the representative universe |
| ReportEntries.OutcomeMeaning | cli/report_generator.py:101-145 | an edge is skipped for the end out of scope, failed, or gives the warning, the inconclusive check or the pass of its two directions; the source of a unidirectional observation is the confirmed end |
| ReportEntries.ReportMeaning | cli/report_generator.py:495-563 | an entry is in a list of the finished report exactly when a finding, an incomplete output, a missing node, an edge, a rack link or a measurement gives it |
| ReportEntries.TableSays | cli/report_generator.py:227-269 | what each direction of a link puts into each list, given its own state and its reverse's |
| ReportEntries.PassedMeaning | cli/report_generator.py:120-128 | the passed checks are exactly the edges with an answer and no failure and the directions a representative or its fallback answered |
| ReportEntries.SkippedMeaning | cli/report_generator.py:146-154 | the skipped checks name exactly the machines out of scope with expected edges, each with their number |
| ReportEntries.ExitCodeMeaning | cli/report_generator.py:614-620 | 1, 2 or 0 by which lists hold anything |
| ReportAccounting.EdgesConserved | cli/report_generator.py:101-154 | every edge is skipped, failed, inconclusive or passed, counted once; unidirectional warnings equal unidirectional passes |
| ReportAccounting.SkipCountMeaning | cli/report_generator.py:104-107 | a peer's skip count is the number of edges skipped on its account |
| ReportAccounting.SkipCountsAddUp | cli/report_generator.py:102-107 | the skips are the expected edges with exactly one end in scope |
| ReportAccounting.UnhealthyTargetGatesReverse | cli/report_generator.py:199-201 | source and target representative of a rack coincide, so an unhealthy target means the reverse direction is gated |
| ReportAccounting.LinkTable | cli/report_generator.py:227-269 | the entries of a link for every pair of direction states |
| ReportAccounting.ReconciliationTotal | cli/report_generator.py:227-269 | one inferred failure exactly when both directions failed, one pass per healthy direction, an entry about every other direction |
| ReportAccounting.SuppressedIsGated | cli/report_generator.py:242-246 | the reverse entry dropped for an unhealthy target is always the gated one |
| ReportAccounting.MissingBecomeInconclusive | cli/report_generator.py:541-549 | one inconclusive check per missing entry, in order, whatever else the report contains |
| ExitCodeSoundness.LinksQuiet | cli/report_generator.py:331-335 | links leave no issue exactly when both directions of all reached their representative, although fallback warnings are de-duplicated across links |
| ExitCodeSoundness.ExitCodeZero | cli/report_generator.py:614-620 | exit code 0 exactly when all outputs are complete and clean, none missing, every in-scope edge confirmed both ways, every directed pair reached and measured in agreement; then the passed count is the edges plus two per link |
| EndToEnd.VlanRunsAreDefinitive | charm/payload/vlan_neighbor_validator.py:292-299 | outputs whose VLAN sections were left by VLAN validator runs meet the condition of the exit-code theorem |
| EndToEnd.NobodyMissing | cli/juju_run.py:217-254 | when nothing is missing and every document is complete, every in-scope machine has its own complete document of this run |
| EndToEnd.CleanRunCoversEveryone | cli/report_generator.py:495-620 | from the MAAS lists through deployment to the report: exit code 0 exactly when everything passed, and then every selected machine has a complete document of this run and every edge between two of them, on the unpruned topology, was confirmed both ways |
| Cancellation.NoLeakedProcess | charm/payload/probe_runner.py:75-102 | in every interleaving, once a cancel has returned every registered process has exited or been sent terminate |
| Cancellation.FlagHasReason | charm/payload/probe_runner.py:83-88 | a set flag always has a reason |
| Cancellation.FirstReasonWins | charm/payload/probe_runner.py:83-87 | reason and flag never change once set |
| Cancellation.NeverDeadlocks | charm/payload/probe_runner.py:75-94 | while a thread is inside a call some thread can advance |
| Cancellation.AloneMeaning | charm/payload/probe_runner.py:75-102 | a thread nobody interferes with takes every call to its end, with the effect the call is for: registering, terminating at once after a cancel, latching the first reason, terminating all that still runs |
| Cancellation.EnterMeaning | charm/payload/probe_runner.py:75-94 | any idle thread may make any call at any moment |
| ProbeRunner.Probe.AliveOf | charm/payload/probe_runner.py:146 | threads left out of the list have ended |
| ProbeRunner.Probe.WaitOnce | charm/payload/probe_runner.py:145-152 | a pass that is not the last outlives a thread or moves the clock 10 ms |
| ProbeRunner.Probe.WaitForPhase | charm/payload/probe_runner.py:144-152 | the wait ends by 10 ms after the deadline, with the phase finished or the flag set, and times out only when the time is up |
| ProbeRunner.Probe.FlushInterrupted | charm/payload/probe_runner.py:155-160 | at most 5 seconds over all runs, and exactly 5 when a thread outlives it |
| ProbeRunner.Probe.RunPhases | charm/payload/probe_runner.py:191-200 | every run finished or the flag set, within the bound of deadline, 10 ms and grace; a thread that outlives it was given the whole grace, and nothing starts when the flag was set before |
| ProbeRunner.Probe.RunProbe | charm/payload/probe_runner.py:163-221 | phase order over the whole log, the wall-clock bound, complete only when all ran without error, terminal statuses, and the schema's cross-field rules (cli/schemas.py:303-307): nothing in a section not started, a reason in a skipped one |
| ProbeRunner.LoggedLater | charm/payload/probe_runner.py:191-197 | a longer log is in phase order exactly when the shorter one is and the new event is not a start before an earlier phase finished or after the flag was seen |
| ProbeRunner.FinalMeaning | charm/payload/probe_runner.py:211-217 | settling changes the status only: kept by a run that ended with one of its own, otherwise not started, done, or cut short with the reason |
| ProbeRunner.ProbeNode | charm/payload/probe_runner.py:46-50 | the four validators in their three phases meet all of this |
| RunIdProtocol.Unit.MaybeRunProbe | charm/src/charm.py:99-115 | the handler's effect is the protocol's step; it fails only when it had to run and the probe failed |
| RunIdProtocol.Unit.OnConfigChanged | charm/src/charm.py:73-92 | config-changed is the protocol's step, with the leader's write |
| RunIdProtocol.Unit.OnPeerRelationChanged | charm/src/charm.py:94-97 | relation-changed is the protocol's step |
| RunIdProtocol.NextKeepsInv | charm/src/charm.py:73-115 | every step of every unit and of the environment keeps the protocol invariant |
| RunIdProtocol.Converges | charm/src/charm.py:73-115 | in every run, when nothing is pending and an id is configured, every unit's last completed id is it, up to what reads back as it |
| RunIdExactness.ConvergesExactly | charm/src/charm.py:73-115 | exactly the configured id when no other id configured so far that can be run reads back from the last-run file as it |
| RunIdExactness.ExactIffUnmistakable | charm/src/charm.py:102-104 | over a set of ids, every run that settles at an id has it completed last if and only if no other id of the set that can be run reads back as it |
| RunIdExactness.MistakenRun | charm/src/charm.py:102-104 | the run that settles on another id, for every such pair |
| RunIdProtocol.CleanMeaning | charm/src/charm.py:102-103 | an id reads back unchanged exactly when it holds no carriage return and has no whitespace at its ends |
| RunIdProtocol.ReadBackMeaning | charm/src/charm.py:102 | what the last-run file reads back as: its text with line breaks made new, between the first and the last character that is not blank |
| RunIdProtocol.NewlinesBreak | charm/src/charm.py:102 | a carriage return, alone or before a line feed, reads as a line feed, and nothing else changes |
| RunIdProtocol.BlankMeaning | charm/src/charm.py:102 | the code points stripping removes |
| RunIdRepeats.RepeatableIffUnclean | charm/src/charm.py:102-104 | an id can be completed twice in a row exactly when it can be run and does not read back unchanged |
| RunIdRepeats.UncleanRepeats | charm/src/charm.py:102-104 | a two-unit run without failures or spurious events that completes such an id twice |
| RunIdSettling.Settles | charm/src/charm.py:73-115 | a bound on the steps the units take before the environment must act again |
| RunIdSettling.StepIff | charm/src/charm.py:73-115 | some unit can take a step exactly when one has an event to handle or is not held up by an id that cannot be run |
| RunIdSettling.NotStuck | charm/src/charm.py:73-115 | until nothing is pending some unit can take a step, when every id configured so far can be run |
| JujuRun.Facade.WaitForUnits | cli/juju_run.py:80-93 | polling ends with the first poll at which no unit is late or the deadline has passed; the two sorted lists are the units on time and late at that poll |
| JujuRun.MeetsMeaning | cli/juju_run.py:96-104 | ready is active and idle; done with a run is that and the run's own completion message |
| JujuRun.StopPollMeaning | cli/juju_run.py:80-93 | a wait ends with the first poll at which every unit satisfies or the deadline has passed |
| JujuRun.PollsMeaning | cli/juju_run.py:210-254 | the two waits of a new run: for all placed units to be ready, then for the ready ones to be done, each with the full timeout from its own start |
| JujuRun.RacksInOrder | cli/juju_run.py:36-40 | racks in increasing order, each with its machines in document order |
| JujuRun.RacksVisitAll | cli/juju_run.py:36-40 | going rack by rack visits every machine once |
| JujuRun.RackByRack | cli/juju_run.py:36-40 | machines are deployed in increasing order of racks |
| JujuRun.PlacementAccounted | cli/juju_run.py:217-227 | every machine has a unit of its own or one placement-failed entry |
| JujuRun.CollectResults | cli/juju_run.py:149-180 | raises exactly when some unit's result cannot be read; otherwise what the action returned on each unit decides: a document of this run is collected, no output or another run's document gives that missing entry, in order |
| JujuRun.CollectMeaning | cli/juju_run.py:149-180 | a result is kept exactly when it is a document of this run, stale when it is of another, no output otherwise |
| JujuRun.TriggerAndCollect | cli/juju_run.py:107-182 | sets the run id once; raises exactly when a result cannot be read; otherwise the units late at the last poll are missing for probe-timeout, and the others' results are collected |
| JujuRun.TriggerAccounted | cli/juju_run.py:136-180 | every triggered unit is collected or missing, once |
| JujuRun.RunNew | cli/juju_run.py:185-254 | raises exactly when the controller lists a test model or a result cannot be read, otherwise places, waits, triggers and collects as the controller's answers determine |
| JujuRun.ReadableMeaning | cli/juju_run.py:166 | results cannot be read exactly when a unit placed, ready and done gives what does not parse |
| JujuRun.NewRunAccounted | cli/juju_run.py:203-254 | missing and collected together are the machines deployed, each once, and collected documents carry the run id |
| JujuRun.FateReported | cli/juju_run.py:139-240 | each machine is reported once, for exactly the first cause that struck it: placement, readiness, the probe, no output, stale output, or none, and then it is collected once; nothing else is said of it |
| JujuRun.RunReuse | cli/juju_run.py:257-311 | succeeds exactly when the controller lists the model, some unit's topology is readable and so are the results; the first such topology and the units of the poll determine the result |
| JujuRun.MachineForMeaning | cli/juju_run.py:282-286 | a unit stands for the last machine with its host name, and for a nameless one without any |
| JujuRun.FirstStoredAt | cli/juju_run.py:265-275 | the topology is that of the first unit, in order, whose copy can be read |
| JujuRun.ReusedRunAccounted | cli/juju_run.py:282-311 | missing and collected together are the machines of all units of that poll, each once |
| JujuRun.ExactlyOnce | cli/juju_run.py:217-254 | with unique ids every in-scope machine is in exactly one of missing and collected, once |
| JujuAndReport.NothingSilentlyDropped | cli/juju_run.py:217-254 | the report holds a machine's document of this run and no missing check, or exactly one missing check |
| CrossRackRuns.ClassifyMeaning | charm/payload/bgp_inference.py:100-134 | a fault is inferred exactly when some hop responded, and the last such hop decides which |
| CrossRackRuns.BgpRun.Probe | charm/payload/bgp_inference.py:188-203 | appends the one record the network's answers call for |
| CrossRackRuns.PathsMeaning | charm/payload/bgp_inference.py:188-203 | record by record: representative exactly when it answers, fallback exactly when there is one and only it answers, otherwise the fault the traceroute shows; the reason exactly after the cut |
| CrossRackRuns.FirstGatewayMeaning | charm/payload/bgp_inference.py:30-35 | the local gateway is that of the first data-fabric interface with an address |
| CrossRackRuns.BgpRun.Run | charm/payload/bgp_inference.py:161-205 | raises exactly on an unusable selection block it needs, skipped with its reason on all but the representative; otherwise one record per remote rack in order, with the reason from the first iteration that saw the flag, all of them if it was set before |
| CrossRackRuns.MtuRun.Run | charm/payload/mtu_validator.py:126-161 | likewise for MTU records |
| CrossRackRuns.MtusOfAt | charm/payload/mtu_validator.py:145-159 | what each MTU record of such a run says: the result of the search on that path, or the reason |
| CrossRackRuns.MtusMeaning | charm/payload/mtu_validator.py:112-159 | each MTU record, field by field: successful exactly with a result, inconclusive exactly without one, the reason exactly after the cut |
| CrossRackAndReport.RunCrossRack | charm/payload/probe_runner.py:191-197 | the last two phases on a rack's representative, cancelled anywhere: a phase before which the flag was seen, as it was when the first was cut short, is not started and leaves nothing, the others leave their records |
| CrossRackAndReport.SourceIff | charm/payload/bgp_inference.py:166-170 | exactly the machine the selection names as its rack's source probes for it; every other machine is skipped |
| CrossRackAndReport.LeftReturned | charm/payload/probe_runner.py:191-197 | those are the records the verdicts below start from |
| CrossRackAndReport.NotStarted | cli/report_generator.py:157-181 | a phase that was not started leaves every pair without a verdict of its own and without an MTU record |
| CrossRackAndReport.BgpRunDecides | cli/report_generator.py:183-216 | after a representative's BGP run returned every directed pair gets the verdict the network's answers call for, or the reason after the cut, never the one for a missing record |
| CrossRackAndReport.MtuRunRecords | cli/report_generator.py:377-402 | and every directed pair has an MTU record of the right target: what the search finds on its path, or the reason |
| BondValidator.BondRun.Judge | charm/payload/bond_validator.py:207-263 | a bond fails on mode exactly when one side negotiates and the other does not, on cabling exactly when two switches are heard |
| BondValidator.BondRun.Run | charm/payload/bond_validator.py:184-265 | one entry per bond in order, judged on the PDUs parsed from its members' captures, or all unattempted and nothing found exactly when the flag was seen |
| BondValidator.EntriesMeaning | charm/payload/bond_validator.py:177-181 | entry i speaks of bond i, judged or unattempted |
| BondValidator.VerdictMeaning | charm/payload/bond_validator.py:219-263 | a bond's verdicts in terms of the captured bytes: mode passes when PDUs are heard exactly on an LACP bond, cabling when all come from one system |
| BondValidator.FindingsMeaning | charm/payload/bond_validator.py:227-261 | each kind of finding is there, definitive, exactly when some bond fails that way |
| Pcap.ParseArpPcap | charm/payload/vlan_neighbor_validator.py:116-145 | total on all bytes; the loop returns the specified pairs |
| Pcap.ParseLacpPcap | charm/payload/bond_validator.py:96-125 | total on all bytes; the loop returns the specified PDUs |
| Pcap.ParseEncoded | charm/payload/vlan_neighbor_validator.py:127-144 | reading a written capture of either byte order decodes exactly its frames, in order |
| Pcap.TruncatedCapture | charm/payload/bond_validator.py:109-125 | any prefix of any bytes parses to a prefix of the whole result, in both readers |
| Pcap.ArpRoundTrip | charm/payload/vlan_neighbor_validator.py:135-144 | an RFC 826 message, tagged or not, gives its sender addresses |
| Pcap.LacpRoundTrip | charm/payload/bond_validator.py:72-93 | an LACPDU laid out as in clause 43.4.2.2 of IEEE 802.3ad-2000 gives its actor and partner fields |
| Pcap.StateRoundTrip | charm/payload/bond_validator.py:58-69 | the eight state flags are read back from their octet |
| Pcap.OtherFramesSkipped | charm/payload/bond_validator.py:120-121 | a frame yields nothing exactly when it is of another protocol, too short for its own, or of another slow protocol |
| Pcap.MacTextInjective | charm/payload/bond_validator.py:78 | two addresses have the same text only when they are the same |
| Pcap.MacTextMeaning | charm/payload/bond_validator.py:78 | what the text is: every octet as two lower-case hexadecimal digits, with colons between octets |
| Pcap.IpTextInjective | charm/payload/vlan_neighbor_validator.py:143 | likewise for IP addresses |
| Pcap.IpTextMeaning | charm/payload/vlan_neighbor_validator.py:143 | reading the fields between the dots back as decimal numbers gives the octets, in order |
| Pcap.EndianMeaning | charm/payload/vlan_neighbor_validator.py:118-126 | bytes are read as a capture exactly from 24 octets on and after one of four magics, which give the byte order |
| MtuSearch.MeasureMtu | charm/payload/mtu_validator.py:63-109 | at most 7 probes, no size twice, the specified result |
| MtuSearch.MeasureNone | charm/payload/mtu_validator.py:73-77 | inconclusive exactly when 1500 does not get through and no report says why |
| MtuSearch.MeasureOutright | charm/payload/mtu_validator.py:73-90 | what decides before the search: a report at 1500, a jumbo packet getting through, a report at 9000 above or up to 1500 |
| MtuSearch.SearchStep | charm/payload/mtu_validator.py:97-109 | one step of the search: above a size that passes, below one that does not, or ended by a report of more than 1500 |
| MtuSearch.SearchBound | charm/payload/mtu_validator.py:95-109 | on a silent path the search never exceeds the MTU and stays within the halved gap |
| MtuSearch.SilentBound | charm/payload/mtu_validator.py:73-109 | on a silent path that carries 1500 the result is between min(9000, MTU) - 234 and min(9000, MTU) |
| MtuSearch.SilentBoundIsTight | charm/payload/mtu_validator.py:95-109 | an MTU of 8999 is observed as 8765, so 234 is the exact bound |
| MtuSearch.ReportingExact | charm/payload/mtu_validator.py:73-90 | with one reporting bottleneck the result is exactly min(9000, MTU) |
| MtuSearch.TwoReportsExactIff | charm/payload/mtu_validator.py:83-90 | with a reporting interface before a reporting bottleneck, exact if and only if one of three conditions on the two MTUs holds |
| MtuSearch.FirstReportLostExact | charm/payload/mtu_validator.py:95-109 | when only the report of the jumbo probe is lost, a report met in the search gives the exact MTU up to 8765 |
| IcmpChecksum.OnesSumMeaning | charm/payload/vlan_neighbor_validator.py:210-212 | one's-complement addition is addition modulo 65535, zero only for zeros |
| IcmpChecksum.SignedIff | charm/payload/vlan_neighbor_validator.py:207-213 | the signed message sums to all ones exactly when the two folds leave no carry |
| IcmpChecksum.SmallMessagesRight | charm/payload/vlan_neighbor_validator.py:207-213 | every message of at most 65539 words is signed as section 1 of RFC 1071 requires |
| IcmpChecksum.LimitIsExact | charm/payload/vlan_neighbor_validator.py:211-212 | 65539 words is the exact limit of two folds |

## Left out

- VlanValidator.Section.Run: a plan's local interface name is its interface name; phase C's nested plan and peer loops run over one flattened list of probes.
- VlanValidator.Section.ProbeExpected: the flag and the answers are sets of probe positions fixed in advance instead of being read as the loop goes.
- RunIdProtocol.Unit.MaybeRunProbe: unit status, probe-timeout and probe-start-at are not modelled.
- JujuRun.TriggerAndCollect: detail texts are not modelled.
- JujuRun.RunNew: model names, deployment and the topology file are environment; facade errors other than a failed placement, which abort the run, are not modelled.
- ProbeRunner.Probe.RunProbe: validator objects are values in a sequence, so two threads never alias one section; the signal handler is an ordinary canceller; sections of live threads are taken as they are when settled.
- CrossRackRuns.BgpRun.Run: the addresses inside the target's subnet are a given set; hop numbers and round-trip times are not modelled.
- BondValidator.BondRun.Run: reading and parsing /proc/net/bonding is replaced by a list of bonds.
- PeerSets.DerivePeerSets: lower-casing covers ASCII letters, all that a MAC address contains.
- ReportGenerator.GenerateReport: messages, hints, notes, timestamps, the verbose flag and the MAC manifest are not modelled; entries keep the fields that tell them apart.
- MaasTopology.BuildTopology: the fabric list, the scope echo, unconfigured interfaces, bond modes and the unclassified-role marker are not part of the document; racks, roles, scope flags and interfaces are.
- The MAAS HTTP client, the libjuju facade, asyncio, files and logging are environment.
- status_lines, plan_checks, preflight, text_summary, save_report and per-key schema checks are formatting or follow from the datatypes.
