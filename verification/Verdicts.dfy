/** The parts of cli/report_generator.py that only read probe outputs and
    return: edge direction states, representative health, BGP verdicts. */
module Verdicts {
  import opened Order
  import opened Topology
  import opened Representatives
  import opened ProbeOutput

  type Outputs = map<string, ProbeOutput>

  // ----- VLAN edges ---------------------------------------------------------

  const VLAN_EDGE_FAIL_TYPES := {"missing-l2-neighbor", "icmp-unreachable", "forbidden-l2-neighbor"}

  datatype Direction = Failed | Confirmed | NoData

  predicate FailsEdge(f: Finding, dst: string) {
    f.ftype in VLAN_EDGE_FAIL_TYPES && f.peer == Some(dst)
  }

  predicate ConfirmsEdge(o: VlanObservation, dst: string) {
    o.PeerObserved? && o.peer == dst && (o.arpObserved || o.icmpReachable)
  }

  /** One edge direction: did src's validator fail, confirm, or stay silent. */
  function DirectionState(outputs: Outputs, src: Machine, dst: Machine): Direction {
    if src.systemId !in outputs then NoData
    else
      var output := outputs[src.systemId];
      if exists f :: f in output.vlanFindings && FailsEdge(f, dst.systemId) then Failed
      else if exists o :: o in output.vlanObservations && ConfirmsEdge(o, dst.systemId) then Confirmed
      else NoData
  }

  /** A finding of one of the three kinds that fail an edge, about that peer. */
  ghost predicate EdgeFailure(f: Finding, peer: string) {
    && f.peer == Some(peer)
    && (f.ftype == "missing-l2-neighbor" || f.ftype == "icmp-unreachable" || f.ftype == "forbidden-l2-neighbor")
  }

  ghost predicate SawPeer(outputs: Outputs, src: string, peer: string) {
    exists i, arp, icmp :: src in outputs && PeerObserved(i, peer, arp, icmp) in outputs[src].vlanObservations
      && (arp || icmp)
  }

  /** A direction failed when its node has a failure finding about the peer, is
      confirmed when it has none but saw an answer of the peer, and says nothing
      otherwise. */
  lemma DirectionMeaning(outputs: Outputs, src: Machine, dst: Machine)
    ensures var failed := exists f ::
        src.systemId in outputs && f in outputs[src.systemId].vlanFindings && EdgeFailure(f, dst.systemId);
      && (DirectionState(outputs, src, dst) == Failed <==> failed)
      && (DirectionState(outputs, src, dst) == Confirmed <==> !failed && SawPeer(outputs, src.systemId, dst.systemId))
  {
    if src.systemId in outputs {
      var output := outputs[src.systemId];
      forall f: Finding ensures FailsEdge(f, dst.systemId) <==> EdgeFailure(f, dst.systemId) { }
      if o :| o in output.vlanObservations && ConfirmsEdge(o, dst.systemId) {
        assert PeerObserved(o.interface, o.peer, o.arpObserved, o.icmpReachable) == o;
      }
      if i, arp, icmp :| PeerObserved(i, dst.systemId, arp, icmp) in output.vlanObservations && (arp || icmp) {
        assert ConfirmsEdge(PeerObserved(i, dst.systemId, arp, icmp), dst.systemId);
      }
    }
  }

  // ----- cross-rack paths ---------------------------------------------------

  function FindPath(paths: seq<PathRecord>, rack: string): Option<PathRecord> {
    if paths == [] then None
    else if paths[0].targetRack == rack then Some(paths[0])
    else FindPath(paths[1..], rack)
  }

  function FindMtu(records: seq<MtuRecord>, rack: string): Option<MtuRecord> {
    if records == [] then None
    else if records[0].targetRack == rack then Some(records[0])
    else FindMtu(records[1..], rack)
  }

  function PathOf(outputs: Outputs, sid: string, rack: string): Option<PathRecord> {
    if sid in outputs then FindPath(outputs[sid].paths, rack) else None
  }

  function MtuOf(outputs: Outputs, sid: string, rack: string): Option<MtuRecord> {
    if sid in outputs then FindMtu(outputs[sid].mtuRecords, rack) else None
  }

  predicate HasDefinitive(findings: seq<Finding>) {
    exists f :: f in findings && f.classification == Definitive
  }

  /** True when a representative has a definitive phase-1 (bond/vlan) failure. */
  predicate RepUnhealthy(outputs: Outputs, sid: string) {
    sid in outputs && (HasDefinitive(outputs[sid].bondFindings) || HasDefinitive(outputs[sid].vlanFindings))
  }

  datatype State =
    | Healthy
    | OnFallback
    | FabricFailure(finding: Finding)
    | NotDetermined(status: ObservationStatus)
    | NoRecord
    | Gated

  datatype Verdict = Verdict(srcRack: string, dstRack: string, src: string, repTarget: string, state: State)

  function PathState(rec: Option<PathRecord>): State {
    match rec
    case None => NoRecord
    case Some(r) =>
      if r.status == Success then (if r.targetRole == Some(Fallback) then OnFallback else Healthy)
      else if r.status == Failure && r.finding.Some? && r.finding.value.classification == Inferred
        then FabricFailure(r.finding.value)
      else NotDetermined(r.status)
  }

  /** Reduce one directed rack-pair BGP path to a verdict. */
  function BgpVerdict(s: Selections, outputs: Outputs, srcRack: string, dstRack: string): Verdict
    requires srcRack in s && dstRack in s[srcRack].targets
  {
    var src := s[srcRack].source;
    Verdict(srcRack, dstRack, src, s[srcRack].targets[dstRack].representative,
      if RepUnhealthy(outputs, src) then Gated else PathState(PathOf(outputs, src, dstRack)))
  }

  predicate Targets(s: Selections, src: string, dst: string) {
    src in s && dst in s[src].targets
  }

  /** The directions of a link that are part of the universe, `a` first. */
  function LinkVerdicts(s: Selections, outputs: Outputs, a: string, b: string): seq<Verdict> {
    (if Targets(s, a, b) then [BgpVerdict(s, outputs, a, b)] else [])
    + (if Targets(s, b, a) then [BgpVerdict(s, outputs, b, a)] else [])
  }

  predicate IsFailure(v: Verdict) { v.state.FabricFailure? }
  predicate IsHealthy(v: Verdict) { v.state.Healthy? || v.state.OnFallback? }
  predicate IsIndeterminate(v: Verdict) { v.state.NotDetermined? || v.state.NoRecord? || v.state.Gated? }

  function SortedPair(a: string, b: string): (string, string) {
    if Less(b, a) then (b, a) else (a, b)
  }

  /** The names in order, so that both directions of a link get one pair. */
  lemma PairMeaning(a: string, b: string)
    ensures var p := SortedPair(a, b); (p == (a, b) || p == (b, a)) && !Less(p.1, p.0)
  {
    if Less(b, a) { LessAsymmetric(b, a); }
  }

  lemma PairSymmetric(a: string, b: string)
    ensures SortedPair(a, b) == SortedPair(b, a)
  {
    LessTotal(a, b);
    if Less(a, b) { LessAsymmetric(a, b); }
    if Less(b, a) { LessAsymmetric(b, a); }
  }

  lemma {:induction false} FindPathMeaning(paths: seq<PathRecord>, rack: string)
    ensures FindPath(paths, rack) == None <==> forall p :: p in paths ==> p.targetRack != rack
    ensures FindPath(paths, rack).Some? ==>
      FindPath(paths, rack).value in paths && FindPath(paths, rack).value.targetRack == rack
  {
    if paths != [] {
      FindPathMeaning(paths[1..], rack);
      assert paths == [paths[0]] + paths[1..];
    }
  }

  /** A direction is gated exactly when its source representative has a definitive
      bond or VLAN finding. */
  lemma GatedIff(s: Selections, outputs: Outputs, a: string, b: string)
    requires Targets(s, a, b)
    ensures BgpVerdict(s, outputs, a, b).state.Gated? <==>
      && s[a].source in outputs
      && exists f: Finding :: f.classification == Definitive
           && (f in outputs[s[a].source].bondFindings || f in outputs[s[a].source].vlanFindings)
  {
  }

  /** What a direction that is not gated comes to, for each record the
      representative may have left about the remote rack. */
  lemma VerdictMeaning(s: Selections, outputs: Outputs, a: string, b: string, r: Option<PathRecord>)
    requires Targets(s, a, b) && !RepUnhealthy(outputs, s[a].source)
    requires r == (if s[a].source in outputs then FindPath(outputs[s[a].source].paths, b) else None)
    ensures var v := BgpVerdict(s, outputs, a, b);
      && (v.srcRack, v.dstRack, v.src, v.repTarget) == (a, b, s[a].source, s[a].targets[b].representative)
      && (v.state == NoRecord <==> r == None)
      && (v.state == OnFallback <==> r.Some? && r.value.status == Success && r.value.targetRole == Some(Fallback))
      && (v.state == Healthy <==> r.Some? && r.value.status == Success && r.value.targetRole != Some(Fallback))
      && (forall f :: v.state == FabricFailure(f) <==>
            r.Some? && r.value.status == Failure && r.value.finding == Some(f) && f.classification == Inferred)
      && (forall st :: v.state == NotDetermined(st) <==>
            && r.Some? && r.value.status == st && st != Success
            && !(st == Failure && r.value.finding.Some? && r.value.finding.value.classification == Inferred))
  {
  }

  lemma {:induction false} FindMtuMeaning(records: seq<MtuRecord>, rack: string)
    ensures FindMtu(records, rack) == None <==> forall p :: p in records ==> p.targetRack != rack
    ensures FindMtu(records, rack).Some? ==>
      FindMtu(records, rack).value in records && FindMtu(records, rack).value.targetRack == rack
  {
    if records != [] {
      FindMtuMeaning(records[1..], rack);
      assert records == [records[0]] + records[1..];
    }
  }
}
