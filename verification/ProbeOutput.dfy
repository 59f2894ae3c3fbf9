/** The per-unit probe-output document (cli/schemas.py), as values. */
module ProbeOutput {
  import opened Order

  datatype Reason = TimedOut | Cancelled
  datatype ProbeStatus = Complete | Interrupted(reason: Reason)
  datatype ObservationStatus = Success | Failure | Inconclusive | Stopped(reason: Reason)
  datatype TargetRole = Representative | Fallback

  /** Unclassified stands for a missing or unknown classification. */
  datatype Classification = Definitive | Inferred | Undetermined | Informational | Unclassified

  /** `peer` is the finding's details.peer_system_id. */
  datatype Finding = Finding(ftype: string, classification: Classification, peer: Option<string>)

  datatype VlanObservation =
    | PeerObserved(interface: string, peer: string, arpObserved: bool, icmpReachable: bool)
    | PeerUnattempted(interface: string, peer: string, reason: Reason)
    | OutOfScopeObserved(interface: string, peer: string, mac: string)
    | GatewayObserved(interface: string, ip: string, mac: string)

  datatype PathRecord = PathRecord(
    sourceRack: string, sourceNode: string, targetRack: string,
    representativeTarget: string, fallbackTarget: Option<string>,
    targetRole: Option<TargetRole>, status: ObservationStatus, finding: Option<Finding>)

  datatype MtuRecord = MtuRecord(
    sourceRack: string, sourceNode: string, targetRack: string, targetNode: string,
    mtu: Option<int>, status: ObservationStatus)

  datatype ProbeOutput = ProbeOutput(
    runId: string, status: ProbeStatus, systemId: string, hostname: string,
    bondFindings: seq<Finding>,
    vlanFindings: seq<Finding>, vlanObservations: seq<VlanObservation>,
    mtuFindings: seq<Finding>, mtuRecords: seq<MtuRecord>,
    bgpFindings: seq<Finding>, paths: seq<PathRecord>)

  datatype MissingReason = PlacementFailed | DeploymentTimeout | ProbeTimeout | NoProbeOutput | StaleProbeOutput
  datatype MissingNode = MissingNode(systemId: string, hostname: string, reason: MissingReason)

  /** Probe outputs by system_id; the last document of a node wins. */
  function BySid(outputs: seq<ProbeOutput>): map<string, ProbeOutput> {
    if outputs == [] then map[]
    else
      var last := outputs[|outputs| - 1];
      BySid(outputs[..|outputs| - 1])[last.systemId := last]
  }

  lemma {:induction false} BySidMembers(outputs: seq<ProbeOutput>, sid: string)
    ensures sid in BySid(outputs) <==> exists o :: o in outputs && o.systemId == sid
    ensures sid in BySid(outputs) ==> BySid(outputs)[sid] in outputs && BySid(outputs)[sid].systemId == sid
  {
    if outputs != [] {
      var n := |outputs| - 1;
      BySidMembers(outputs[..n], sid);
      assert outputs == outputs[..n] + [outputs[n]];
    }
  }
}
