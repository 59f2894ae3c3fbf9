/** The record loops of the two cross-rack validators under cancellation
    (charm/payload/bgp_inference.py and mtu_validator.py), and what the report
    makes of the records. */
module CrossRackRuns {
  import opened Order
  import opened Topology
  import opened Representatives
  import opened ProbeOutput
  import opened Sections
  import MtuSearch

  // ----- inference from a traceroute ----------------------------------------

  /** The address of a hop; None or "" for a hop that did not respond. */
  type Hop = Option<string>

  function LastResponding(hops: seq<Hop>): Hop {
    if hops == [] then None
    else if Truthy(hops[|hops| - 1]) then hops[|hops| - 1]
    else LastResponding(hops[..|hops| - 1])
  }

  /** `_classify`; `subnet` holds the addresses inside the target's subnet. */
  function Classify(hops: seq<Hop>, gateway: Option<string>, subnet: set<string>): Finding {
    var last := LastResponding(hops);
    if last == None then Finding("icmp-blocked", Undetermined, None)
    else if last == gateway then Finding("likely-bgp-failure", Inferred, None)
    else if last.value in subnet then Finding("intra-rack-routing", Inferred, None)
    else Finding("routing-failure", Inferred, None)
  }

  /** A fault is inferred exactly when some hop responded, and it is the last
      such hop that decides where traffic stops. */
  lemma {:induction false} ClassifyMeaning(hops: seq<Hop>, gateway: Option<string>, subnet: set<string>)
    ensures Classify(hops, gateway, subnet).classification == Inferred <==> exists h :: h in hops && Truthy(h)
    ensures forall i :: 0 <= i < |hops| && Truthy(hops[i]) && (forall j :: i < j < |hops| ==> !Truthy(hops[j])) ==>
      && (Classify(hops, gateway, subnet).ftype == "likely-bgp-failure" <==> hops[i] == gateway)
      && (Classify(hops, gateway, subnet).ftype == "intra-rack-routing" <==>
        hops[i] != gateway && hops[i].value in subnet)
      && (Classify(hops, gateway, subnet).ftype == "routing-failure" <==>
        hops[i] != gateway && hops[i].value !in subnet)
    ensures (forall h :: h in hops ==> !Truthy(h)) ==>
      Classify(hops, gateway, subnet) == Finding("icmp-blocked", Undetermined, None)
  {
    if hops != [] {
      var n := |hops| - 1;
      assert hops == hops[..n] + [hops[n]];
      if !Truthy(hops[n]) {
        ClassifyMeaning(hops[..n], gateway, subnet);
        forall i | 0 <= i < |hops| && Truthy(hops[i]) && (forall j :: i < j < |hops| ==> !Truthy(hops[j]))
          ensures LastResponding(hops) == hops[i]
        {
          LastIs(hops, i);
        }
      }
    }
  }

  lemma {:induction false} LastIs(hops: seq<Hop>, i: nat)
    requires i < |hops| && Truthy(hops[i]) && forall j :: i < j < |hops| ==> !Truthy(hops[j])
    ensures LastResponding(hops) == hops[i]
  {
    if i < |hops| - 1 { LastIs(hops[..|hops| - 1], i); }
  }

  // ----- records ------------------------------------------------------------

  /** What the network answers a rack's representative, by remote rack: the pings
      of the target in each role, a traceroute, which addresses are inside the
      target's subnet, and pings of every size.  A run makes each of these probes
      at most once, so functions cover every sequence of answers. */
  datatype Network = Network(
    pings: (string, TargetRole) -> bool,
    hops: string -> seq<Hop>,
    subnets: string -> set<string>,
    links: string -> MtuSearch.Path)

  /** What the probes of one remote rack answered. */
  datatype Answer = ByRepresentative | ByFallback | NoAnswer(hops: seq<Hop>, subnet: set<string>)

  /** Where the records of a run come from. */
  datatype Origin = Origin(
    machines: seq<Machine>, rule: CrossRackRule, rack: string, node: string, gateway: Option<string>)

  predicate Known(o: Origin, remote: string) {
    Usable(o.rule.target) && Usable(o.rule.fallback) && remote in RackSet(o.machines, o.rule)
  }

  predicate AllKnown(o: Origin, remotes: seq<string>) {
    forall b :: b in remotes ==> Known(o, b)
  }

  /** `_path` for a remote rack. */
  ghost function Fresh(o: Origin, remote: string): PathRecord
    requires Known(o, remote)
  {
    var target := TargetOf(o.machines, remote, o.rule);
    PathRecord(o.rack, o.node, remote, target.representative, target.fallback, None, Failure, None)
  }

  /** The answer of a remote rack whose fallback target is `fallback`. */
  function AnswerOf(net: Network, remote: string, fallback: Option<string>): Answer {
    if net.pings(remote, Representative) then ByRepresentative
    else if Truthy(fallback) && net.pings(remote, Fallback) then ByFallback
    else NoAnswer(net.hops(remote), net.subnets(remote))
  }

  function Measured(p: PathRecord, a: Answer, gateway: Option<string>): PathRecord {
    match a
    case ByRepresentative => p.(targetRole := Some(Representative), status := Success)
    case ByFallback => p.(targetRole := Some(Fallback), status := Success)
    case NoAnswer(hops, subnet) =>
      p.(targetRole := None, status := Failure, finding := Some(Classify(hops, gateway, subnet)))
  }

  ghost function AnswerFor(o: Origin, net: Network, remote: string): Answer
    requires Known(o, remote)
  {
    AnswerOf(net, remote, Fresh(o, remote).fallbackTarget)
  }

  ghost function Probed(o: Origin, net: Network, remote: string): PathRecord
    requires Known(o, remote)
  {
    Measured(Fresh(o, remote), AnswerFor(o, net, remote), o.gateway)
  }

  /** Records of the racks probed, and of the racks left when the flag was seen. */
  ghost function PathRows(o: Origin, net: Network, remotes: seq<string>): seq<PathRecord>
    requires AllKnown(o, remotes)
  {
    if remotes == [] then []
    else PathRows(o, net, remotes[..|remotes| - 1]) + [Probed(o, net, remotes[|remotes| - 1])]
  }

  ghost function PathCut(o: Origin, remotes: seq<string>, reason: Reason): seq<PathRecord>
    requires AllKnown(o, remotes)
  {
    if remotes == [] then []
    else
      var n := |remotes| - 1;
      PathCut(o, remotes[..n], reason) + [Fresh(o, remotes[n]).(status := Stopped(reason))]
  }

  /** One record per remote rack, in order: the first `n`, before the flag was
      seen, are measured, and the others carry the reason. */
  ghost predicate PathsOf(
    o: Origin, net: Network, remotes: seq<string>, n: nat, reason: Reason, records: seq<PathRecord>)
  {
    && n <= |remotes| && AllKnown(o, remotes)
    && records == PathRows(o, net, remotes[..n]) + PathCut(o, remotes[n..], reason)
  }

  lemma {:induction false} PathRowsAt(o: Origin, net: Network, remotes: seq<string>, i: nat)
    requires AllKnown(o, remotes)
    ensures |PathRows(o, net, remotes)| == |remotes|
    ensures i < |remotes| ==> PathRows(o, net, remotes)[i] == Probed(o, net, remotes[i])
  {
    if remotes != [] { PathRowsAt(o, net, remotes[..|remotes| - 1], i); }
  }

  lemma {:induction false} PathCutAt(o: Origin, remotes: seq<string>, reason: Reason, i: nat)
    requires AllKnown(o, remotes)
    ensures |PathCut(o, remotes, reason)| == |remotes|
    ensures i < |remotes| ==> PathCut(o, remotes, reason)[i] == Fresh(o, remotes[i]).(status := Stopped(reason))
  {
    if remotes != [] { PathCutAt(o, remotes[..|remotes| - 1], reason, i); }
  }

  lemma PathsOfAt(
    o: Origin, net: Network, remotes: seq<string>, n: nat, reason: Reason, records: seq<PathRecord>, i: nat)
    requires PathsOf(o, net, remotes, n, reason, records)
    ensures |records| == |remotes|
    ensures i < n ==> records[i] == Probed(o, net, remotes[i])
    ensures n <= i < |remotes| ==> records[i] == Fresh(o, remotes[i]).(status := Stopped(reason))
  {
    PathRowsAt(o, net, remotes[..n], i);
    PathCutAt(o, remotes[n..], reason, if i < n then 0 else i - n);
  }

  /** What a record of such a run says of the network: from this rack's source to
      the remote rack's representative, reached through the representative when it
      answers, through the fallback only when there is one that answers while the
      representative does not, and otherwise a failure with the fault the traceroute
      shows. */
  lemma PathsMeaning(
    o: Origin, net: Network, remotes: seq<string>, n: nat, reason: Reason, records: seq<PathRecord>, i: nat)
    requires PathsOf(o, net, remotes, n, reason, records) && i < |remotes|
    ensures |records| == |remotes| && records[i].targetRack == remotes[i] && Known(o, remotes[i])
    ensures records[i].sourceRack == o.rack && records[i].sourceNode == o.node
    ensures Target(records[i].representativeTarget, records[i].fallbackTarget)
            == TargetOf(o.machines, remotes[i], o.rule)
    ensures records[i].status == Stopped(reason) <==> n <= i
    ensures records[i].status == Success <==> i < n && records[i].targetRole.Some?
    ensures records[i].status == Failure <==> i < n && records[i].targetRole == None
    ensures records[i].targetRole == Some(Representative) <==> i < n && net.pings(remotes[i], Representative)
    ensures records[i].targetRole == Some(Fallback) <==>
      && i < n && !net.pings(remotes[i], Representative)
      && Truthy(records[i].fallbackTarget) && net.pings(remotes[i], Fallback)
    ensures records[i].finding.Some? <==> i < n && records[i].targetRole == None
    ensures records[i].finding.Some? ==>
      records[i].finding.value == Classify(net.hops(remotes[i]), o.gateway, net.subnets(remotes[i]))
  {
    PathsOfAt(o, net, remotes, n, reason, records, i);
  }

  function FirstGateway(interfaces: seq<Interface>): Option<string> {
    if interfaces == [] then None
    else if interfaces[0].fabricClass == DataFabric && Truthy(interfaces[0].ip) then interfaces[0].gatewayIp
    else FirstGateway(interfaces[1..])
  }

  /** The first data-fabric interface with an address. */
  predicate FirstDataAddress(interfaces: seq<Interface>, k: nat) {
    && k < |interfaces| && interfaces[k].fabricClass == DataFabric && interfaces[k].ip !in {None, Some("")}
    && forall j :: 0 <= j < k ==> interfaces[j].fabricClass == Management || interfaces[j].ip in {None, Some("")}
  }

  lemma {:induction false} GatewayAt(interfaces: seq<Interface>, k: nat)
    requires FirstDataAddress(interfaces, k)
    ensures FirstGateway(interfaces) == interfaces[k].gatewayIp
  {
    TruthyMeaning(interfaces[0].ip);
    if k > 0 {
      var rest := interfaces[1..];
      assert rest[k - 1] == interfaces[k] && forall j :: 0 <= j < k - 1 ==> rest[j] == interfaces[j + 1];
      GatewayAt(rest, k - 1);
    }
  }

  lemma {:induction false} NoGateway(interfaces: seq<Interface>)
    requires forall i :: i in interfaces ==> i.fabricClass == Management || i.ip in {None, Some("")}
    ensures FirstGateway(interfaces) == None
  {
    if interfaces != [] {
      TruthyMeaning(interfaces[0].ip);
      assert interfaces[0] in interfaces;
      NoGateway(interfaces[1..]);
    }
  }

  /** The local gateway is that of the first data-fabric interface with an
      address, whether or not it has one, and none without such an interface. */
  lemma FirstGatewayMeaning(interfaces: seq<Interface>, k: nat)
    ensures FirstDataAddress(interfaces, k) ==> FirstGateway(interfaces) == interfaces[k].gatewayIp
    ensures (forall i :: i in interfaces ==> i.fabricClass == Management || i.ip in {None, Some("")}) ==>
      FirstGateway(interfaces) == None
  {
    if FirstDataAddress(interfaces, k) { GatewayAt(interfaces, k); }
    if forall i :: i in interfaces ==> i.fabricClass == Management || i.ip in {None, Some("")} {
      NoGateway(interfaces);
    }
  }

  method ComputeRemotes(ms: seq<Machine>, rack: string, rule: CrossRackRule) returns (remotes: seq<string>)
    ensures remotes == RemoteRacks(ms, rack, rule)
    ensures forall b :: b in remotes <==> b in RackSet(ms, rule) && b != rack
  {
    var racks := ComputeDataRacks(ms, rule);
    WithoutElements(rack, racks);
    remotes := Without(rack, racks);
  }

  /** Whether `node` is the source representative of its rack. */
  predicate IsSource(t: Topology, node: Machine)
    requires t.crossRackRule.Some? && Usable(t.crossRackRule.value.source)
  {
    var rule := t.crossRackRule.value;
    node.role == rule.applicableRole && SourceRepresentative(t.machines, node.rack, rule).value == Some(node.systemId)
  }

  function OriginOf(t: Topology, node: Machine): Origin
    requires t.crossRackRule.Some?
  {
    Origin(t.machines, t.crossRackRule.value, node.rack, node.systemId, FirstGateway(node.interfaces))
  }

  predicate SourceUsable(t: Topology) { t.crossRackRule.Some? && Usable(t.crossRackRule.value.source) }

  const NOT_REPRESENTATIVE := "not-rack-representative"
  const NO_PEERS := "no cross-rack data peers"

  // ----- bgp_inference.run --------------------------------------------------

  class BgpRun {
    var status: SectionStatus
    var skipReason: Option<string>
    var paths: seq<PathRecord>

    constructor ()
      ensures status == NotStarted && paths == []
    {
      status, skipReason, paths := NotStarted, None, [];
    }

    /** The records of the racks left when the flag was seen. */
    method FlushFrom(o: Origin, remotes: seq<string>, reason: Reason)
      requires AllKnown(o, remotes)
      modifies `paths
      ensures paths == old(paths) + PathCut(o, remotes, reason)
    {
      for k := 0 to |remotes|
        invariant paths == old(paths) + PathCut(o, remotes[..k], reason)
      {
        assert remotes[..k + 1][..k] == remotes[..k];
        Flush(o, remotes[k], reason);
      }
      assert remotes[..|remotes|] == remotes;
    }

    method Flush(o: Origin, remote: string, reason: Reason)
      requires Known(o, remote)
      modifies `paths
      ensures paths == old(paths) + [Fresh(o, remote).(status := Stopped(reason))]
    {
      var target := TargetFor(o.machines, remote, o.rule);
      var record := PathRecord(
        o.rack, o.node, remote, target.value.representative, target.value.fallback, None, Failure, None);
      paths := paths + [record.(status := Stopped(reason))];
    }

    /** One remote rack: the representative, then the fallback, then a traceroute. */
    method Probe(o: Origin, net: Network, remote: string)
      requires Known(o, remote)
      modifies `paths
      ensures paths == old(paths) + [Probed(o, net, remote)]
    {
      var target := TargetFor(o.machines, remote, o.rule);
      var fallback := target.value.fallback;
      var record := PathRecord(o.rack, o.node, remote, target.value.representative, fallback, None, Failure, None);
      if net.pings(remote, Representative) {
        record := record.(targetRole := Some(Representative), status := Success);
      } else if Truthy(fallback) && net.pings(remote, Fallback) {
        record := record.(targetRole := Some(Fallback), status := Success);
      } else {
        var finding := Classify(net.hops(remote), o.gateway, net.subnets(remote));
        record := record.(targetRole := None, status := Failure, finding := Some(finding));
      }
      paths := paths + [record];
    }

    /** The loop of `run` over the remote racks; it first saw the flag before
        rack `n`. */
    method ProbeAll(o: Origin, net: Network, remotes: seq<string>, flag: Flag) returns (ghost n: nat)
      requires paths == [] && status == NotStarted && AllKnown(o, remotes)
      modifies `status, `paths, flag
      ensures PathsOf(o, net, remotes, n, flag.reason, paths)
      ensures if n == |remotes| then status == Done else status == NotStarted && flag.isSet
      ensures remotes != [] && flag.isSet ==> n < |remotes|
      ensures old(flag.isSet) ==> n == 0 && flag.isSet && flag.reason == old(flag.reason)
    {
      for i := 0 to |remotes|
        invariant status == NotStarted && paths == PathRows(o, net, remotes[..i])
        invariant old(flag.isSet) ==> i == 0 && flag.isSet && flag.reason == old(flag.reason)
        invariant i > 0 ==> !flag.isSet
      {
        var cancelled := flag.IsSet();
        if cancelled {
          FlushFrom(o, remotes[i..], flag.reason);
          return i;
        }
        assert remotes[..i + 1][..i] == remotes[..i];
        Probe(o, net, remotes[i]);
      }
      assert remotes[..|remotes|] == remotes && remotes[|remotes|..] == [];
      status := Done;
      n := |remotes|;
    }

    /** `run`: ok is false when it raises. */
    method Run(t: Topology, node: Machine, net: Network, flag: Flag) returns (ok: bool, ghost n: nat)
      requires paths == [] && status == NotStarted
      modifies this, flag
      ensures !ok ==> paths == [] && status == NotStarted
      ensures ok <==>
        && SourceUsable(t)
        && (IsSource(t, node) && RemoteRacks(t.machines, node.rack, t.crossRackRule.value) != [] ==>
              Usable(t.crossRackRule.value.target) && Usable(t.crossRackRule.value.fallback))
      ensures ok && !IsSource(t, node) ==>
        status == Skipped && skipReason == Some("not-rack-representative") && paths == []
      ensures ok && IsSource(t, node) ==>
        var remotes := RemoteRacks(t.machines, node.rack, t.crossRackRule.value);
        && PathsOf(OriginOf(t, node), net, remotes, n, flag.reason, paths)
        && (if n == |remotes| then status == Done else status == NotStarted && flag.isSet)
        && (remotes != [] && flag.isSet ==> n < |remotes|)
        && (old(flag.isSet) ==> n == 0)
      ensures old(flag.isSet) ==> flag.isSet && flag.reason == old(flag.reason)
    {
      n := 0;
      if !SourceUsable(t) { return false, n; }
      var rule := t.crossRackRule.value;
      if !IsSource(t, node) {
        status, skipReason := Skipped, Some(NOT_REPRESENTATIVE);
        return true, n;
      }
      var remotes := ComputeRemotes(t.machines, node.rack, rule);
      if remotes != [] && !(Usable(rule.target) && Usable(rule.fallback)) { return false, n; }
      n := ProbeAll(OriginOf(t, node), net, remotes, flag);
      ok := true;
    }
  }

  // ----- mtu_validator.run --------------------------------------------------

  predicate KnownTarget(o: Origin, remote: string) {
    Usable(o.rule.target) && remote in RackSet(o.machines, o.rule)
  }

  ghost function RepresentativeOf(o: Origin, remote: string): string
    requires KnownTarget(o, remote)
  {
    RackHasCandidates(o.machines, remote, o.rule, o.rule.target);
    TargetRepresentative(o.machines, remote, o.rule).value.value
  }

  method ComputeRepresentative(o: Origin, remote: string) returns (rep: string)
    requires KnownTarget(o, remote)
    ensures rep == RepresentativeOf(o, remote)
  {
    RackHasCandidates(o.machines, remote, o.rule, o.rule.target);
    rep := TargetRepresentative(o.machines, remote, o.rule).value.value;
  }

  /** `_record` for a remote rack. */
  ghost function MtuFor(o: Origin, remote: string, mtu: Option<int>, status: ObservationStatus): MtuRecord
    requires KnownTarget(o, remote)
  {
    MtuRecord(o.rack, o.node, remote, RepresentativeOf(o, remote), mtu, status)
  }

  predicate AllTargetsKnown(o: Origin, remotes: seq<string>) {
    forall b :: b in remotes ==> KnownTarget(o, b)
  }

  function MtuStatus(mtu: Option<int>): ObservationStatus { if mtu.Some? then Success else Inconclusive }

  function AsInt(mtu: Option<nat>): Option<int> { if mtu.Some? then Some(mtu.value) else None }

  /** What the search finds on the path to a remote rack. */
  function MtuSeen(net: Network, remote: string): Option<int> { AsInt(MtuSearch.Measure(net.links(remote))) }

  /** Records of the racks measured, and of the racks left when the flag was seen. */
  ghost function MtuRows(o: Origin, net: Network, remotes: seq<string>): seq<MtuRecord>
    requires AllTargetsKnown(o, remotes)
  {
    if remotes == [] then []
    else
      var n := |remotes| - 1;
      var mtu := MtuSeen(net, remotes[n]);
      MtuRows(o, net, remotes[..n]) + [MtuFor(o, remotes[n], mtu, MtuStatus(mtu))]
  }

  ghost function MtuCut(o: Origin, remotes: seq<string>, reason: Reason): seq<MtuRecord>
    requires AllTargetsKnown(o, remotes)
  {
    if remotes == [] then []
    else
      var n := |remotes| - 1;
      MtuCut(o, remotes[..n], reason) + [MtuFor(o, remotes[n], None, Stopped(reason))]
  }

  /** As PathsOf: the first `n` racks, before the flag was seen, are measured. */
  ghost predicate MtusOf(
    o: Origin, net: Network, remotes: seq<string>, n: nat, reason: Reason, records: seq<MtuRecord>)
  {
    && n <= |remotes| && AllTargetsKnown(o, remotes)
    && records == MtuRows(o, net, remotes[..n]) + MtuCut(o, remotes[n..], reason)
  }

  lemma {:induction false} MtuRowsAt(o: Origin, net: Network, remotes: seq<string>, i: nat)
    requires AllTargetsKnown(o, remotes)
    ensures |MtuRows(o, net, remotes)| == |remotes|
    ensures i < |remotes| ==>
      MtuRows(o, net, remotes)[i] ==
        MtuFor(o, remotes[i], MtuSeen(net, remotes[i]), MtuStatus(MtuSeen(net, remotes[i])))
  {
    if remotes != [] { MtuRowsAt(o, net, remotes[..|remotes| - 1], i); }
  }

  lemma {:induction false} MtuCutAt(o: Origin, remotes: seq<string>, reason: Reason, i: nat)
    requires AllTargetsKnown(o, remotes)
    ensures |MtuCut(o, remotes, reason)| == |remotes|
    ensures i < |remotes| ==> MtuCut(o, remotes, reason)[i] == MtuFor(o, remotes[i], None, Stopped(reason))
  {
    if remotes != [] { MtuCutAt(o, remotes[..|remotes| - 1], reason, i); }
  }

  /** One record per remote rack, in order: measured up to where the flag was
      first seen, and carrying the reason from there on. */
  lemma MtusOfAt(
    o: Origin, net: Network, remotes: seq<string>, n: nat, reason: Reason, records: seq<MtuRecord>, i: nat)
    requires MtusOf(o, net, remotes, n, reason, records)
    ensures |records| == |remotes|
    ensures i < n ==>
      records[i] == MtuFor(o, remotes[i], MtuSeen(net, remotes[i]), MtuStatus(MtuSeen(net, remotes[i])))
    ensures n <= i < |remotes| ==> records[i] == MtuFor(o, remotes[i], None, Stopped(reason))
  {
    MtuRowsAt(o, net, remotes[..n], i);
    MtuCutAt(o, remotes[n..], reason, if i < n then 0 else i - n);
  }

  /** What an MTU record of such a run says: the result of the search on the path
      to the remote rack's representative, inconclusive without one. */
  lemma MtusMeaning(
    o: Origin, net: Network, remotes: seq<string>, n: nat, reason: Reason, records: seq<MtuRecord>, i: nat)
    requires MtusOf(o, net, remotes, n, reason, records) && i < |remotes|
    ensures |records| == |remotes| && KnownTarget(o, remotes[i])
    ensures var r := records[i];
      && (r.sourceRack, r.sourceNode, r.targetRack) == (o.rack, o.node, remotes[i])
      && Ok(Some(r.targetNode)) == TargetRepresentative(o.machines, remotes[i], o.rule)
      && (r.status == Stopped(reason) <==> n <= i)
      && (r.status == Success <==> i < n && r.mtu.Some?)
      && (r.status == Inconclusive <==> i < n && r.mtu == None)
    ensures match MtuSearch.Measure(net.links(remotes[i]))
      case None => records[i].mtu == None
      case Some(m) => records[i].mtu == if i < n then Some(m as int) else None
  {
    MtusOfAt(o, net, remotes, n, reason, records, i);
    assert remotes[i] in remotes;
    RackHasCandidates(o.machines, remotes[i], o.rule, o.rule.target);
  }

  class MtuRun {
    var status: SectionStatus
    var skipReason: Option<string>
    var records: seq<MtuRecord>

    constructor ()
      ensures status == NotStarted && records == []
    {
      status, skipReason, records := NotStarted, None, [];
    }

    method FlushFrom(o: Origin, remotes: seq<string>, reason: Reason)
      requires AllTargetsKnown(o, remotes)
      modifies `records
      ensures records == old(records) + MtuCut(o, remotes, reason)
    {
      for k := 0 to |remotes|
        invariant records == old(records) + MtuCut(o, remotes[..k], reason)
      {
        assert remotes[k] in remotes && remotes[..k + 1][..k] == remotes[..k];
        var rep := ComputeRepresentative(o, remotes[k]);
        records := records + [MtuRecord(o.rack, o.node, remotes[k], rep, None, Stopped(reason))];
      }
      assert remotes[..|remotes|] == remotes;
    }

    method Probe(o: Origin, net: Network, remote: string)
      requires KnownTarget(o, remote)
      modifies `records
      ensures records == old(records) + [MtuFor(o, remote, MtuSeen(net, remote), MtuStatus(MtuSeen(net, remote)))]
    {
      var rep := ComputeRepresentative(o, remote);
      var measured; ghost var sizes;
      measured, sizes := MtuSearch.MeasureMtu(net.links(remote));
      var mtu := AsInt(measured);
      records := records + [MtuRecord(o.rack, o.node, remote, rep, mtu, if mtu.Some? then Success else Inconclusive)];
    }

    method ProbeAll(o: Origin, net: Network, remotes: seq<string>, flag: Flag) returns (ghost n: nat)
      requires records == [] && status == NotStarted && AllTargetsKnown(o, remotes)
      modifies `status, `records, flag
      ensures MtusOf(o, net, remotes, n, flag.reason, records)
      ensures if n == |remotes| then status == Done else status == NotStarted && flag.isSet
      ensures remotes != [] && flag.isSet ==> n < |remotes|
      ensures old(flag.isSet) ==> n == 0 && flag.isSet && flag.reason == old(flag.reason)
    {
      for i := 0 to |remotes|
        invariant status == NotStarted && records == MtuRows(o, net, remotes[..i])
        invariant old(flag.isSet) ==> i == 0 && flag.isSet && flag.reason == old(flag.reason)
        invariant i > 0 ==> !flag.isSet
      {
        var cancelled := flag.IsSet();
        if cancelled {
          FlushFrom(o, remotes[i..], flag.reason);
          return i;
        }
        assert remotes[i] in remotes && remotes[..i + 1][..i] == remotes[..i];
        Probe(o, net, remotes[i]);
      }
      assert remotes[..|remotes|] == remotes && remotes[|remotes|..] == [];
      status := Done;
      n := |remotes|;
    }

    method Run(t: Topology, node: Machine, net: Network, flag: Flag) returns (ok: bool, ghost n: nat)
      requires records == [] && status == NotStarted
      modifies this, flag
      ensures !ok ==> records == [] && status == NotStarted
      ensures ok <==>
        && SourceUsable(t)
        && (IsSource(t, node) && RemoteRacks(t.machines, node.rack, t.crossRackRule.value) != [] ==>
              Usable(t.crossRackRule.value.target))
      ensures ok && !IsSource(t, node) ==>
        status == Skipped && skipReason == Some("not-rack-representative") && records == []
      ensures ok && IsSource(t, node) ==>
        var remotes := RemoteRacks(t.machines, node.rack, t.crossRackRule.value);
        && MtusOf(OriginOf(t, node), net, remotes, n, flag.reason, records)
        && (remotes == [] ==> status == Skipped && skipReason == Some("no cross-rack data peers"))
        && (remotes != [] ==> if n == |remotes| then status == Done else status == NotStarted && flag.isSet)
        && (remotes != [] && flag.isSet ==> n < |remotes|)
        && (old(flag.isSet) ==> n == 0)
      ensures old(flag.isSet) ==> flag.isSet && flag.reason == old(flag.reason)
    {
      n := 0;
      if !SourceUsable(t) { return false, n; }
      var rule := t.crossRackRule.value;
      if !IsSource(t, node) {
        status, skipReason := Skipped, Some(NOT_REPRESENTATIVE);
        return true, n;
      }
      var remotes := ComputeRemotes(t.machines, node.rack, rule);
      if remotes == [] {
        status, skipReason := Skipped, Some(NO_PEERS);
        return true, n;
      }
      if !Usable(rule.target) { return false, n; }
      n := ProbeAll(OriginOf(t, node), net, remotes, flag);
      ok := true;
    }
  }
}
