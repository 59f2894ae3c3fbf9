/** From the cross-rack validators' records to the report's verdicts. */
module CrossRackAndReport {
  import opened Order
  import opened Topology
  import opened Representatives
  import opened ProbeOutput
  import opened Verdicts
  import opened Sections
  import opened CrossRackRuns

  /** A representative's two cross-rack runs: what the network answered them, and
      how many remote racks each probed before it saw the flag, if it did. */
  datatype Ran = Ran(gateway: Option<string>, net: Network, bgpDone: nat, mtuDone: nat, reason: Reason)

  /** The representative of rack `a` in this topology. */
  function OriginFor(t: Topology, a: string, source: string, gateway: Option<string>): Origin
    requires t.crossRackRule.Some?
  {
    Origin(t.machines, t.crossRackRule.value, a, source, gateway)
  }

  ghost predicate BgpReturned(t: Topology, s: Selections, outputs: Outputs, a: string, r: Ran)
    requires t.crossRackRule.Some?
  {
    && a in s && s[a].source in outputs
    && PathsOf(OriginFor(t, a, s[a].source, r.gateway), r.net, RemoteRacks(t.machines, a, t.crossRackRule.value),
         r.bgpDone, r.reason, outputs[s[a].source].paths)
  }

  ghost predicate MtuReturned(t: Topology, s: Selections, outputs: Outputs, a: string, r: Ran)
    requires t.crossRackRule.Some?
  {
    && a in s && s[a].source in outputs
    && MtusOf(OriginFor(t, a, s[a].source, r.gateway), r.net, RemoteRacks(t.machines, a, t.crossRackRule.value),
         r.mtuDone, r.reason, outputs[s[a].source].mtuRecords)
  }

  /** A remote rack has one place in the list of remote racks. */
  lemma RemoteOnce(ms: seq<Machine>, a: string, rule: CrossRackRule, i: nat, j: nat)
    requires i < j < |RemoteRacks(ms, a, rule)|
    ensures RemoteRacks(ms, a, rule)[i] != RemoteRacks(ms, a, rule)[j]
  {
    WithoutIncreasing(a, DataRacks(ms, rule));
    var remotes := RemoteRacks(ms, a, rule);
    assert Less(remotes[i], remotes[j]);
    LessIrreflexive(remotes[i]);
  }

  lemma RemoteListed(ms: seq<Machine>, a: string, b: string, rule: CrossRackRule)
    requires b in RackSet(ms, rule) && b != a
    ensures b in RemoteRacks(ms, a, rule)
  {
    WithoutElements(a, DataRacks(ms, rule));
    assert b in DataRacks(ms, rule);
  }

  lemma TargetIsRemote(t: Topology, s: Selections, a: string, b: string)
    requires SchemaTopology(t) && SelectionsOf(t) == Ok(s) && Targets(s, a, b)
    ensures b in RackSet(t.machines, t.crossRackRule.value) && b != a
    ensures s[a].targets[b] == TargetOf(t.machines, b, t.crossRackRule.value)
  {
    SelectionShape(t);
  }

  /** The targets of a rack's selection are its remote racks. */
  lemma TargetPlace(t: Topology, s: Selections, a: string, b: string) returns (i: nat)
    requires SchemaTopology(t) && SelectionsOf(t) == Ok(s) && Targets(s, a, b)
    ensures i < |RemoteRacks(t.machines, a, t.crossRackRule.value)|
    ensures RemoteRacks(t.machines, a, t.crossRackRule.value)[i] == b
  {
    TargetIsRemote(t, s, a, b);
    RemoteListed(t.machines, a, b, t.crossRackRule.value);
    var remotes := RemoteRacks(t.machines, a, t.crossRackRule.value);
    i :| 0 <= i < |remotes| && remotes[i] == b;
  }

  lemma {:induction false} FindPathAt(paths: seq<PathRecord>, i: nat)
    requires i < |paths| && forall j :: 0 <= j < i ==> paths[j].targetRack != paths[i].targetRack
    ensures FindPath(paths, paths[i].targetRack) == Some(paths[i])
  {
    if i > 0 {
      assert paths[0].targetRack != paths[i].targetRack;
      FindPathAt(paths[1..], i - 1);
    }
  }

  lemma {:induction false} FindMtuAt(records: seq<MtuRecord>, i: nat)
    requires i < |records| && forall j :: 0 <= j < i ==> records[j].targetRack != records[i].targetRack
    ensures FindMtu(records, records[i].targetRack) == Some(records[i])
  {
    if i > 0 {
      assert records[0].targetRack != records[i].targetRack;
      FindMtuAt(records[1..], i - 1);
    }
  }

  // ----- the runs that leave such records -----------------------------------

  /** The machine that is the representative of a rack takes itself for it. */
  lemma RepresentativeIsSource(t: Topology, s: Selections, a: string, node: Machine)
    requires SchemaTopology(t) && UniqueIds(t.machines) && SelectionsOf(t) == Ok(s)
    requires node in t.machines && a in s && node.systemId == s[a].source
    ensures node.rack == a && IsSource(t, node)
  {
    SelectionShape(t);
    SelectionMeaning(t);
    assert InScopeData(t.machines, a, node.systemId);
    var m :| m in t.machines && m.systemId == node.systemId && m.rack == a && m.role == Data;
    SameIdSameMachine(t.machines, m, node);
  }

  /** A rack with a source has an in-scope data machine. */
  lemma SourceHasRack(ms: seq<Machine>, rack: string, rule: CrossRackRule)
    requires SchemaRule(rule) && rack != "" && SourceRepresentative(ms, rack, rule).value.Some?
    ensures rack in RackSet(ms, rule)
  {
    CandidatesCorrect(ms, rack, rule, rule.source);
    var ids := Candidates(ms, rack, rule, rule.source).value;
    assert ids[0] in ids;
  }

  /** ... and no other machine of the rack does. */
  lemma SourceIff(t: Topology, s: Selections, node: Machine)
    requires SchemaTopology(t) && UniqueIds(t.machines) && SelectionsOf(t) == Ok(s)
    requires node in t.machines && node.rack != ""
    ensures IsSource(t, node) <==> node.rack in s && s[node.rack].source == node.systemId
  {
    SelectionShape(t);
    if IsSource(t, node) { SourceHasRack(t.machines, node.rack, t.crossRackRule.value); }
    if node.rack in s && s[node.rack].source == node.systemId { RepresentativeIsSource(t, s, node.rack, node); }
  }

  /** What the two runs on a representative leave in its output: records when
      their phase was started, and none when the flag was seen before it. */
  ghost predicate LeftBy(t: Topology, node: Machine, o: ProbeOutput, r: Ran, started: nat)
    requires t.crossRackRule.Some?
  {
    var remotes := RemoteRacks(t.machines, node.rack, t.crossRackRule.value);
    && o.systemId == node.systemId && r.gateway == FirstGateway(node.interfaces)
    && (if started < 1 then o.mtuRecords == []
        else MtusOf(OriginOf(t, node), r.net, remotes, r.mtuDone, r.reason, o.mtuRecords))
    && (if started < 2 then o.paths == []
        else PathsOf(OriginOf(t, node), r.net, remotes, r.bgpDone, r.reason, o.paths))
  }

  /** Wherever the output goes, the report finds those records. */
  lemma LeftReturned(t: Topology, s: Selections, outputs: Outputs, a: string, node: Machine, r: Ran, started: nat)
    requires SchemaTopology(t) && a in s && node.rack == a && node.systemId == s[a].source
    requires node.systemId in outputs && LeftBy(t, node, outputs[node.systemId], r, started)
    ensures started >= 1 ==> MtuReturned(t, s, outputs, a, r)
    ensures started >= 2 ==> BgpReturned(t, s, outputs, a, r)
  {
  }

  lemma NothingCut(o: Origin, net: Network, remotes: seq<string>, x: Reason, y: Reason, records: seq<MtuRecord>)
    requires MtusOf(o, net, remotes, |remotes|, x, records)
    ensures MtusOf(o, net, remotes, |remotes|, y, records)
  {
    assert remotes[|remotes|..] == [];
  }

  /** The last two phases of `run_probe` on the representative of a rack:
      `mtu_validator.run` and then `bgp_inference.run`, neither of them started
      once the flag has been seen. */
  method RunCrossRack(t: Topology, s: Selections, a: string, node: Machine, net: Network, flag: Flag, base: ProbeOutput)
    returns (o: ProbeOutput, ghost r: Ran, ghost started: nat)
    requires SchemaTopology(t) && UniqueIds(t.machines) && SelectionsOf(t) == Ok(s)
    requires node in t.machines && a in s && node.systemId == s[a].source
    modifies flag
    ensures node.rack == a && LeftBy(t, node, o, r, started)
    ensures started <= 2 && (started < 2 ==> flag.isSet)
    ensures started == 2 ==> r.mtuDone == |RemoteRacks(t.machines, a, t.crossRackRule.value)|
    ensures !flag.isSet ==> r.bgpDone == r.mtuDone == |RemoteRacks(t.machines, a, t.crossRackRule.value)|
    ensures old(flag.isSet) ==> started == 0
  {
    RepresentativeIsSource(t, s, a, node);
    ghost var remotes := RemoteRacks(t.machines, a, t.crossRackRule.value);
    o := base.(systemId := node.systemId, paths := [], mtuRecords := []);
    r, started := Ran(FirstGateway(node.interfaces), net, 0, 0, flag.reason), 0;
    var cancelled := flag.IsSet();
    if cancelled { return; }
    var mtu := new MtuRun();
    var ok; ghost var n;
    ok, n := mtu.Run(t, node, net, flag);
    ghost var first := flag.reason;
    o := o.(mtuRecords := mtu.records);
    cancelled := flag.IsSet();
    if n == |remotes| { NothingCut(OriginOf(t, node), net, remotes, first, flag.reason, mtu.records); }
    r, started := r.(mtuDone := n, reason := flag.reason), 1;
    if cancelled { return; }
    var bgp := new BgpRun();
    var ran; ghost var m;
    ran, m := bgp.Run(t, node, net, flag);
    if n == |remotes| { NothingCut(OriginOf(t, node), net, remotes, first, flag.reason, mtu.records); }
    o := o.(paths := bgp.paths);
    r, started := r.(bgpDone := m, reason := flag.reason), 2;
  }

  // ----- what the report makes of them --------------------------------------

  /** What the verdict on a probed remote rack must be, from the answers. */
  function StateFrom(answer: Answer, gateway: Option<string>): State {
    match answer
    case ByRepresentative => Healthy
    case ByFallback => OnFallback
    case NoAnswer(hops, subnet) =>
      var f := Classify(hops, gateway, subnet);
      if f.classification == Inferred then FabricFailure(f) else NotDetermined(Failure)
  }

  lemma MeasuredState(p: PathRecord, a: Answer, gateway: Option<string>, reason: Reason)
    ensures PathState(Some(Measured(p, a, gateway))) == StateFrom(a, gateway)
    ensures PathState(Some(p.(status := Stopped(reason)))) == NotDetermined(Stopped(reason))
  {
  }

  /** A representative whose phases were not started leaves every pair it should
      have probed without a verdict and without an MTU record. */
  lemma NotStarted(
    t: Topology, s: Selections, outputs: Outputs, a: string, b: string, node: Machine, r: Ran, started: nat)
    requires SchemaTopology(t) && Targets(s, a, b) && node.systemId == s[a].source
    requires node.systemId in outputs && LeftBy(t, node, outputs[node.systemId], r, started)
    ensures started < 2 ==>
      BgpVerdict(s, outputs, a, b).state == if RepUnhealthy(outputs, s[a].source) then Gated else NoRecord
    ensures started < 1 ==> MtuOf(outputs, s[a].source, b) == None
  {
  }

  /** The record the report finds for a target is the one of its place. */
  lemma BgpRecordFound(t: Topology, s: Selections, outputs: Outputs, a: string, b: string, r: Ran) returns (i: nat)
    requires SchemaTopology(t) && SelectionsOf(t) == Ok(s) && Targets(s, a, b) && BgpReturned(t, s, outputs, a, r)
    ensures i < |outputs[s[a].source].paths| == |RemoteRacks(t.machines, a, t.crossRackRule.value)|
    ensures RemoteRacks(t.machines, a, t.crossRackRule.value)[i] == b
    ensures PathOf(outputs, s[a].source, b) == Some(outputs[s[a].source].paths[i])
  {
    var remotes := RemoteRacks(t.machines, a, t.crossRackRule.value);
    var paths := outputs[s[a].source].paths;
    i := TargetPlace(t, s, a, b);
    var o := OriginFor(t, a, s[a].source, r.gateway);
    PathsMeaning(o, r.net, remotes, r.bgpDone, r.reason, paths, i);
    forall j | 0 <= j < i ensures paths[j].targetRack != paths[i].targetRack {
      PathsMeaning(o, r.net, remotes, r.bgpDone, r.reason, paths, j);
      RemoteOnce(t.machines, a, t.crossRackRule.value, j, i);
    }
    FindPathAt(paths, i);
  }

  /** Once the representative's BGP run has returned, wherever cancellation
      struck it, every directed pair gets the verdict the network's answers call
      for, or carries the reason when its place comes after the cut; it never
      gets the verdict for a missing record. */
  lemma BgpRunDecides(t: Topology, s: Selections, outputs: Outputs, a: string, b: string, r: Ran) returns (i: nat)
    requires SchemaTopology(t) && SelectionsOf(t) == Ok(s) && Targets(s, a, b) && BgpReturned(t, s, outputs, a, r)
    ensures i < |RemoteRacks(t.machines, a, t.crossRackRule.value)|
    ensures RemoteRacks(t.machines, a, t.crossRackRule.value)[i] == b
    ensures BgpVerdict(s, outputs, a, b).state == (
      if RepUnhealthy(outputs, s[a].source) then Gated
      else if i < r.bgpDone then StateFrom(AnswerOf(r.net, b, s[a].targets[b].fallback), r.gateway)
      else NotDetermined(Stopped(r.reason)))
  {
    var remotes := RemoteRacks(t.machines, a, t.crossRackRule.value);
    var o := OriginFor(t, a, s[a].source, r.gateway);
    i := BgpRecordFound(t, s, outputs, a, b, r);
    TargetIsRemote(t, s, a, b);
    PathsOfAt(o, r.net, remotes, r.bgpDone, r.reason, outputs[s[a].source].paths, i);
    MeasuredState(Fresh(o, b), AnswerFor(o, r.net, b), r.gateway, r.reason);
  }

  /** Likewise every directed pair has an MTU record of the right target: what
      the search finds on its path, or the reason after the cut. */
  lemma MtuRunRecords(t: Topology, s: Selections, outputs: Outputs, a: string, b: string, r: Ran) returns (i: nat)
    requires SchemaTopology(t) && SelectionsOf(t) == Ok(s) && Targets(s, a, b) && MtuReturned(t, s, outputs, a, r)
    ensures i < |RemoteRacks(t.machines, a, t.crossRackRule.value)|
    ensures RemoteRacks(t.machines, a, t.crossRackRule.value)[i] == b
    ensures var m := MtuOf(outputs, s[a].source, b);
      && m.Some? && m.value.targetNode == s[a].targets[b].representative
      && (i < r.mtuDone ==> m.value.mtu == MtuSeen(r.net, b) && m.value.status == MtuStatus(MtuSeen(r.net, b)))
      && (i >= r.mtuDone ==> m.value.mtu == None && m.value.status == Stopped(r.reason))
  {
    var remotes := RemoteRacks(t.machines, a, t.crossRackRule.value);
    var records := outputs[s[a].source].mtuRecords;
    i := TargetPlace(t, s, a, b);
    var o := OriginFor(t, a, s[a].source, r.gateway);
    MtusOfAt(o, r.net, remotes, r.mtuDone, r.reason, records, i);
    forall j | 0 <= j < i ensures records[j].targetRack != records[i].targetRack {
      MtusOfAt(o, r.net, remotes, r.mtuDone, r.reason, records, j);
      RemoteOnce(t.machines, a, t.crossRackRule.value, j, i);
    }
    FindMtuAt(records, i);
    TargetIsRemote(t, s, a, b);
  }
}
