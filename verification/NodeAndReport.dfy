/** Node and report compose: what the VLAN validators of two machines record
    decides the report's verdict on the edge between them. */
module NodeAndReport {
  import opened Order
  import opened Topology
  import opened ProbeOutput
  import opened L2Edges
  import opened PeerSets
  import VlanSweep
  import opened VlanValidator
  import opened Verdicts
  import opened ReportGenerator
  import ReportContents

  /** What the network answered one validator run. */
  datatype Answers = Answers(sweep: Sweep, icmp: set<nat>, pings: Pings)

  /** The output's VLAN section is that of a run on `node` that finished
      uncancelled. */
  ghost predicate Finished(o: ProbeOutput, t: Topology, node: Machine, x: Answers) {
    var plans := PlansFor(t, node);
    && o.systemId == node.systemId
    && o.vlanFindings == CaptureFindings(plans, x.sweep.captured, x.pings)
      + AllProbeFindings(Probes(plans), x.sweep.arp, x.icmp)
    && o.vlanObservations == CaptureObservations(plans, x.sweep.captured)
      + AllProbeObservations(Probes(plans), x.sweep.arp, x.icmp)
  }

  ghost predicate FinishedIn(outputs: Outputs, t: Topology, node: Machine, x: Answers) {
    node.systemId in outputs && Finished(outputs[node.systemId], t, node, x)
  }

  /** How far a run of the VLAN validator got: it was interrupted before its
      section had findings, or made `probes` probes. */
  datatype VlanRun = Swept | Ran(node: Machine, answers: Answers, probes: nat)

  /** The output's VLAN findings are those of such a run. */
  ghost predicate LeftBy(t: Topology, o: ProbeOutput, run: VlanRun) {
    match run
    case Swept => o.vlanFindings == []
    case Ran(node, x, n) =>
      var plans := PlansFor(t, node);
      && n <= |Probes(plans)|
      && o.vlanFindings ==
           CaptureFindings(plans, x.sweep.captured, x.pings) + AllProbeFindings(Probes(plans)[..n], x.sweep.arp, x.icmp)
  }

  /** A run of the validator, interrupted or not, leaves such findings, and a
      finished section when no interruption was seen; its ARP answers are those of
      at most seven sweeps. */
  method RunOn(
    t: Topology, node: Machine, cancelledAtStart: bool, air: VlanSweep.Air, wire: Wire, icmp: set<nat>,
    pings: Pings, flag: set<nat>, reason: Reason, base: ProbeOutput)
    returns (o: ProbeOutput, ghost run: VlanRun, ghost sweeps: nat)
    requires VlanSweep.Timed(air)
    ensures o.systemId == node.systemId && LeftBy(t, o, run)
    ensures run.Ran? ==>
      && run.node == node && run.answers.icmp == icmp && run.answers.pings == pings
      && LeftBySweeps(air, PlansFor(t, node), PairsOf(wire), sweeps, run.answers.sweep)
    ensures !run.Ran? ==> cancelledAtStart || exists s :: 0 <= s < sweeps && SawFlag(air, PlansFor(t, node), s)
    ensures run.Ran? && flag == {} ==> Finished(o, t, node, run.answers)
  {
    var plans := DerivePeerSets(t, node);
    var section := new Section();
    var n; ghost var sweep;
    n, sweep, sweeps := section.Run(plans, cancelledAtStart, air, wire, icmp, pings, flag, reason);
    o := base.(systemId := node.systemId, vlanFindings := section.findings, vlanObservations := section.observations);
    if cancelledAtStart || sweep.interrupted {
      run := Swept;
      assert !cancelledAtStart ==> SawFlag(air, plans, sweeps - 1);
    } else {
      run := Ran(node, Answers(sweep, icmp, pings), n);
      if n == |Probes(plans)| { assert Probes(plans)[..n] == Probes(plans); }
    }
  }

  /** Sweep `s`, or the wait after it, meets the flag. */
  predicate SawFlag(air: VlanSweep.Air, plans: seq<Plan>, s: nat) {
    VlanSweep.SeesFlag(air, s, plans) || air.flagged(s)
  }

  predicate Answered(p: Probe, k: nat, x: Answers) {
    Arped(x.sweep.arp, p) && k in x.icmp
  }

  /** Every probe from `node` to `peer` got both its ARP and its ICMP answer. */
  ghost predicate AllAnswered(t: Topology, node: Machine, peer: Machine, x: Answers) {
    var ps := Probes(PlansFor(t, node));
    forall k :: 0 <= k < |ps| && ps[k].peer.systemId == peer.systemId ==> Answered(ps[k], k, x)
  }

  /** Each machine has an address on a segment they share, and the rules allow
      them to be neighbours. */
  predicate AddressedOnSharedSegment(t: Topology, a: Machine, b: Machine) {
    AdjacencyAllowed(t.bmcRule, a, b)
    && exists ia, ib ::
         ia in a.interfaces && ib in b.interfaces && SameSegment(ia, ib) && Truthy(ia.ip) && Truthy(ib.ip)
  }

  /** The node's plans never list an allowed machine as forbidden. */
  lemma AllowedNotForbidden(t: Topology, node: Machine, peer: Machine, i: Interface, mac: string)
    requires UniqueIds(t.machines) && peer in t.machines && AdjacencyAllowed(t.bmcRule, node, peer)
    requires mac in PlanFor(t, node, i).forbidden
    ensures PlanFor(t, node, i).forbidden[mac].systemId != peer.systemId
  {
    var ps := SegmentPeers(node, i, t.machines);
    ForbiddenRecords(t.bmcRule, node, i, ps, mac);
    var p :| p in ps && Forbidden(t.bmcRule, node, p) && mac in InterfaceMacs(p.1)
             && PlanFor(t, node, i).forbidden[mac] == Info(p.0, p.1);
    SegmentPeersMembers(node, i, t.machines, p);
    if p.0.systemId == peer.systemId { SameIdSameMachine(t.machines, p.0, peer); }
  }

  lemma CaptureDoesNotFail(t: Topology, node: Machine, peer: Machine, x: Answers, f: Finding)
    requires UniqueIds(t.machines) && peer in t.machines && AdjacencyAllowed(t.bmcRule, node, peer)
    requires f in CaptureFindings(PlansFor(t, node), x.sweep.captured, x.pings)
    ensures f.peer != Some(peer.systemId)
  {
    if f.peer == Some(peer.systemId) {
      var plans := PlansFor(t, node);
      CaptureFindingPeer(plans, x.sweep.captured, x.pings, f);
      var i, mac :| 0 <= i < |plans| && mac in plans[i].forbidden && plans[i].forbidden[mac].systemId == f.peer.value;
      AllowedNotForbidden(t, node, peer, node.interfaces[i], mac);
    }
  }

  lemma HasProbe(t: Topology, node: Machine, peer: Machine) returns (k: nat)
    requires UniqueIds(t.machines) && node in t.machines && peer in t.machines && node != peer && peer.inScope
    requires AddressedOnSharedSegment(t, node, peer)
    ensures k < |Probes(PlansFor(t, node))| && Probes(PlansFor(t, node))[k].peer.systemId == peer.systemId
  {
    var ia, ib :| ia in node.interfaces && ib in peer.interfaces && SameSegment(ia, ib)
      && Truthy(ia.ip) && Truthy(ib.ip);
    var i :| 0 <= i < |node.interfaces| && node.interfaces[i] == ia;
    var ps := SegmentPeers(node, ia, t.machines);
    var p := (peer, ib);
    if peer.systemId == node.systemId { SameIdSameMachine(t.machines, peer, node); }
    SegmentPeersMembers(node, ia, t.machines, p);
    ExpectedMembers(t.bmcRule, node, ia, ps, Info(peer, ib));
    var plans := PlansFor(t, node);
    assert plans[i] == PlanFor(t, node, ia);
    var probe := Probe(plans[i].interface, Info(peer, ib));
    ProbeMembers(plans, probe);
    k :| 0 <= k < |Probes(plans)| && Probes(plans)[k] == probe;
  }

  /** The node recorded a definitive finding that fails its edge to the peer. */
  ghost predicate FailedBy(outputs: Outputs, node: Machine, peer: Machine) {
    node.systemId in outputs
    && exists f ::
         f in outputs[node.systemId].vlanFindings && FailsEdge(f, peer.systemId) && f.classification == Definitive
  }

  /** The direction from a finished node: confirmed when every probe got both
      answers, failed otherwise. */
  lemma DirectionAfterRun(outputs: Outputs, t: Topology, node: Machine, peer: Machine, x: Answers)
    requires UniqueIds(t.machines) && node in t.machines && peer in t.machines && node != peer && peer.inScope
    requires AddressedOnSharedSegment(t, node, peer)
    requires FinishedIn(outputs, t, node, x)
    ensures AllAnswered(t, node, peer, x) ==> DirectionState(outputs, node, peer) == Confirmed
    ensures !AllAnswered(t, node, peer, x) ==> DirectionState(outputs, node, peer) == Failed
    ensures !AllAnswered(t, node, peer, x) ==> FailedBy(outputs, node, peer)
  {
    var o, ps := outputs[node.systemId], Probes(PlansFor(t, node));
    if AllAnswered(t, node, peer, x) {
      forall f | f in o.vlanFindings ensures !FailsEdge(f, peer.systemId) {
        if f in AllProbeFindings(ps, x.sweep.arp, x.icmp) {
          ProbeFindingMembers(ps, x.sweep.arp, x.icmp, f);
        } else {
          CaptureDoesNotFail(t, node, peer, x, f);
        }
      }
      var k := HasProbe(t, node, peer);
      var seen := PeerObserved(ps[k].interface, peer.systemId, true, true);
      assert seen in ProbeObservations(ps[k], true, true);
      ProbeObservationMembers(ps, x.sweep.arp, x.icmp, seen);
      assert seen in o.vlanObservations && ConfirmsEdge(seen, peer.systemId);
    } else {
      var k :| 0 <= k < |ps| && ps[k].peer.systemId == peer.systemId && !Answered(ps[k], k, x);
      var f := ProbeFindings(ps[k], Arped(x.sweep.arp, ps[k]), k in x.icmp)[0];
      ProbeFindingMembers(ps, x.sweep.arp, x.icmp, f);
      assert f in o.vlanFindings && FailsEdge(f, peer.systemId);
    }
  }

  /** Both machines' validators finished, and their outputs are collected. */
  ghost predicate BothFinished(outputs: Outputs, t: Topology, a: Machine, b: Machine, x: Answers, y: Answers) {
    FinishedIn(outputs, t, a, x) && FinishedIn(outputs, t, b, y)
  }

  lemma SharedSymmetric(t: Topology, a: Machine, b: Machine)
    requires AddressedOnSharedSegment(t, a, b)
    ensures AddressedOnSharedSegment(t, b, a) && ShareSegment(a, b)
  {
    var ia, ib :| ia in a.interfaces && ib in b.interfaces && SameSegment(ia, ib) && Truthy(ia.ip) && Truthy(ib.ip);
    assert SameSegment(ib, ia);
  }

  /** The edge, either way round, passes in both directions when `answered`, and
      otherwise has failed with a definitive finding on one of its ends. */
  ghost predicate Decided(outputs: Outputs, a: Machine, b: Machine, answered: bool) {
    && Outcome(outputs, Edge(a, b)) == Outcome(outputs, Edge(b, a))
    && Outcome(outputs, Edge(a, b)) == (if answered then BothWays else EdgeFailed)
    && (!answered ==> FailedBy(outputs, a, b) || FailedBy(outputs, b, a))
  }

  lemma DecidedByDirections(outputs: Outputs, a: Machine, b: Machine, there: bool, back: bool)
    requires a.inScope && b.inScope
    requires DirectionState(outputs, a, b) == (if there then Confirmed else Failed)
      && (!there ==> FailedBy(outputs, a, b))
    requires DirectionState(outputs, b, a) == (if back then Confirmed else Failed)
      && (!back ==> FailedBy(outputs, b, a))
    ensures Decided(outputs, a, b, there && back)
  {
  }

  /** If two in-scope machines have addresses on a shared allowed segment and
      both validators finish uncancelled, their edge is expected and is a
      bidirectional pass exactly when every mutual probe got both answers;
      otherwise it has failed, with a definitive finding.  It is never silent,
      unidirectional or skipped. */
  lemma EdgeVerdict(t: Topology, outputs: Outputs, a: Machine, b: Machine, x: Answers, y: Answers)
    requires UniqueIds(t.machines) && a in t.machines && b in t.machines && a != b && a.inScope && b.inScope
    requires AddressedOnSharedSegment(t, a, b)
    requires BothFinished(outputs, t, a, b, x, y)
    ensures Edge(a, b) in Edges(t.bmcRule, t.machines) || Edge(b, a) in Edges(t.bmcRule, t.machines)
    ensures Decided(outputs, a, b, AllAnswered(t, a, b, x) && AllAnswered(t, b, a, y))
  {
    SharedSymmetric(t, a, b);
    DirectionAfterRun(outputs, t, a, b, x);
    DirectionAfterRun(outputs, t, b, a, y);
    DecidedByDirections(outputs, a, b, AllAnswered(t, a, b, x), AllAnswered(t, b, a, y));
    EdgeBetween(t.bmcRule, t.machines, a, b);
  }

  /** The report's account of the edge: a bidirectional pass when `answered`, and
      otherwise a definitive failure that names one end and was found by the other,
      so that the exit code is 1. */
  ghost predicate Accounted(outputs: seq<ProbeOutput>, d: Doc, a: Machine, b: Machine, answered: bool) {
    if answered then EdgePass(SortedPair(a.hostname, b.hostname), true) in d.passed
    else ExitCode(d) == 1 && (FailureListed(outputs, d, a, b) || FailureListed(outputs, d, b, a))
  }

  ghost predicate FailureListed(outputs: seq<ProbeOutput>, d: Doc, node: Machine, peer: Machine) {
    exists o, f ::
      && o in outputs && o.systemId == node.systemId && f in o.vlanFindings && FailsEdge(f, peer.systemId)
      && Found(o.hostname, f) in d.definitive
  }

  lemma FailureReported(
    outputs: seq<ProbeOutput>, missing: seq<MissingNode>, t: Topology, node: Machine, peer: Machine)
    requires FailedBy(BySid(outputs), node, peer)
    ensures var d := ReportDoc(outputs, missing, Some(t)); ExitCode(d) == 1 && FailureListed(outputs, d, node, peer)
  {
    ReportContents.DefinitiveFailures(outputs, missing, Some(t));
    BySidMembers(outputs, node.systemId);
    var o := BySid(outputs)[node.systemId];
    var f :| f in o.vlanFindings && FailsEdge(f, peer.systemId) && f.classification == Definitive;
    assert f in AllFindings(o);
    assert ReportContents.DefinitiveIn(outputs, Found(o.hostname, f));
  }

  /** From the probes of two finished validators to the finished report: the edge
      is a bidirectional pass when every mutual probe got both answers, and
      otherwise the report lists a definitive failure and the exit code is 1. */
  lemma EdgeReported(
    t: Topology, outputs: seq<ProbeOutput>, missing: seq<MissingNode>, a: Machine, b: Machine, x: Answers, y: Answers)
    requires UniqueIds(t.machines) && a in t.machines && b in t.machines && a != b && a.inScope && b.inScope
    requires AddressedOnSharedSegment(t, a, b)
    requires BothFinished(BySid(outputs), t, a, b, x, y)
    ensures Accounted(outputs, ReportDoc(outputs, missing, Some(t)), a, b,
              AllAnswered(t, a, b, x) && AllAnswered(t, b, a, y))
  {
    EdgeVerdict(t, BySid(outputs), a, b, x, y);
    if AllAnswered(t, a, b, x) && AllAnswered(t, b, a, y) {
      var e := if Edge(a, b) in Edges(t.bmcRule, t.machines) then Edge(a, b) else Edge(b, a);
      ReportContents.EdgePassReported(outputs, missing, t, e);
      PairSymmetric(a.hostname, b.hostname);
    } else if FailedBy(BySid(outputs), a, b) {
      FailureReported(outputs, missing, t, a, b);
    } else {
      FailureReported(outputs, missing, t, b, a);
    }
  }

  /** However far a run got before an interruption, every finding it recorded is
      definitive. */
  lemma RunFindingsDefinitive(t: Topology, o: ProbeOutput, run: VlanRun)
    requires LeftBy(t, o, run)
    ensures forall f :: f in o.vlanFindings ==> f.classification == Definitive
  {
    forall f | f in o.vlanFindings ensures f.classification == Definitive {
      var plans := PlansFor(t, run.node);
      var x := run.answers;
      if f in AllProbeFindings(Probes(plans)[..run.probes], x.sweep.arp, x.icmp) {
        ProbeFindingMembers(Probes(plans)[..run.probes], x.sweep.arp, x.icmp, f);
      } else {
        CaptureDefinitive(plans, x.sweep.captured, x.pings, f);
      }
    }
  }

  lemma {:induction false} CaptureDefinitive(
    plans: seq<Plan>, captured: Captured, pings: Pings, f: Finding)
    requires f in CaptureFindings(plans, captured, pings)
    ensures f.classification == Definitive
  {
    var n := |plans| - 1;
    if f in CaptureFindings(plans[..n], captured, pings) {
      CaptureDefinitive(plans[..n], captured, pings, f);
    } else {
      SeenDefinitive(plans[n], FirstSeen(CapturedOn(captured, plans[n].interface)), pings(n), f);
    }
  }

  lemma {:induction false} SeenDefinitive(plan: Plan, seen: seq<(string, string)>, reach: set<string>, f: Finding)
    requires f in SeenFindings(plan, seen, reach)
    ensures f.classification == Definitive
  {
    var n := |seen| - 1;
    if f in SeenFindings(plan, seen[..n], reach) {
      SeenDefinitive(plan, seen[..n], reach, f);
    }
  }
}
