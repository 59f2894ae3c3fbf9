/** What phase B of the VLAN validator makes of the captured neighbors: which MACs
    it judges, what it says of each, and what that means in the document. */
module CapturedNeighbors {
  import opened Order
  import opened Topology
  import opened ProbeOutput
  import opened PeerSets
  import opened VlanValidator
  import Pcap

  type PairList = seq<(string, string)>

  // ----- first address per MAC ----------------------------------------------

  /** The pair at `k` is the first captured with its MAC. */
  predicate IsFirst(pairs: PairList, k: nat) {
    k < |pairs| && forall j :: 0 <= j < k ==> pairs[j].0 != pairs[k].0
  }

  predicate SeesMac(seen: PairList, mac: string) { exists p :: p in seen && p.0 == mac }

  lemma {:induction false} SameMacs(pairs: PairList, mac: string)
    ensures SeesMac(FirstSeen(pairs), mac) <==> SeesMac(pairs, mac)
  {
    if pairs != [] {
      var before, last := pairs[..|pairs| - 1], pairs[|pairs| - 1];
      SameMacs(before, mac);
      assert pairs == before + [last] && last in pairs;
      assert forall p :: p in FirstSeen(before) ==> p in FirstSeen(pairs);
      if last.0 == mac && !SeesMac(FirstSeen(before), last.0) { assert last in FirstSeen(pairs); }
    }
  }

  /** A last pair is listed exactly when it is the first with its MAC. */
  lemma LastIsFirst(pairs: PairList)
    requires pairs != []
    ensures var before, last := pairs[..|pairs| - 1], pairs[|pairs| - 1];
      && (IsFirst(pairs, |pairs| - 1) <==> !SeesMac(FirstSeen(before), last.0))
      && FirstSeen(pairs) == FirstSeen(before) + if SeesMac(FirstSeen(before), last.0) then [] else [last]
  {
    var before, last := pairs[..|pairs| - 1], pairs[|pairs| - 1];
    SameMacs(before, last.0);
    if !IsFirst(pairs, |pairs| - 1) {
      var j :| 0 <= j < |before| && pairs[j].0 == last.0;
      assert before[j] in before;
    }
    if p :| p in before && p.0 == last.0 {
      var j :| 0 <= j < |before| && before[j] == p;
      assert pairs[j].0 == last.0;
    }
  }

  /** The positions of the pairs that are the first with their MAC, in order. */
  function Firsts(pairs: PairList): seq<nat> {
    if pairs == [] then []
    else Firsts(pairs[..|pairs| - 1]) + if IsFirst(pairs, |pairs| - 1) then [|pairs| - 1] else []
  }

  lemma FirstOfPrefix(pairs: PairList, k: nat)
    requires k + 1 < |pairs|
    ensures IsFirst(pairs[..|pairs| - 1], k) <==> IsFirst(pairs, k)
  {
    var before := pairs[..|pairs| - 1];
    assert before[k] == pairs[k] && forall j :: 0 <= j < k ==> before[j] == pairs[j];
  }

  lemma {:induction false} FirstsMembers(pairs: PairList)
    ensures forall k: nat :: k in Firsts(pairs) <==> IsFirst(pairs, k)
    ensures forall i, j :: 0 <= i < j < |Firsts(pairs)| ==> Firsts(pairs)[i] < Firsts(pairs)[j]
  {
    if pairs != [] {
      var n := |pairs| - 1;
      var at := Firsts(pairs[..n]);
      FirstsMembers(pairs[..n]);
      forall k: nat | k < n ensures k in at <==> IsFirst(pairs, k) { FirstOfPrefix(pairs, k); }
      forall i | 0 <= i < |at| ensures at[i] < n { assert at[i] in at && IsFirst(pairs[..n], at[i]); }
    }
  }

  lemma {:induction false} FirstsListed(pairs: PairList)
    ensures |FirstSeen(pairs)| == |Firsts(pairs)|
    ensures forall i :: 0 <= i < |Firsts(pairs)| ==>
      Firsts(pairs)[i] < |pairs| && FirstSeen(pairs)[i] == pairs[Firsts(pairs)[i]]
  {
    if pairs != [] {
      FirstsListed(pairs[..|pairs| - 1]);
      LastIsFirst(pairs);
    }
  }

  /** The distinct captured MACs are the pairs at the positions where a MAC occurs
      first: all of those positions, in increasing order, and no other. */
  lemma FirstSeenMeaning(pairs: PairList)
    ensures var at := Firsts(pairs);
      && (forall k: nat :: k in at <==> IsFirst(pairs, k))
      && (forall i, j :: 0 <= i < j < |at| ==> at[i] < at[j])
      && |FirstSeen(pairs)| == |at|
      && forall i :: 0 <= i < |at| ==> at[i] < |pairs| && FirstSeen(pairs)[i] == pairs[at[i]]
  {
    FirstsMembers(pairs);
    FirstsListed(pairs);
  }

  /** So no MAC is listed twice, and a MAC is listed exactly when it was captured. */
  lemma EachMacOnce(pairs: PairList)
    ensures var seen := FirstSeen(pairs);
      && (forall i, j :: 0 <= i < j < |seen| ==> seen[i].0 != seen[j].0)
      && forall mac :: SeesMac(seen, mac) <==> SeesMac(pairs, mac)
  {
    var seen, at := FirstSeen(pairs), Firsts(pairs);
    FirstSeenMeaning(pairs);
    forall i, j | 0 <= i < j < |seen| ensures seen[i].0 != seen[j].0 {
      assert at[i] < at[j] && at[j] in at && IsFirst(pairs, at[j]);
    }
    forall mac ensures SeesMac(seen, mac) <==> SeesMac(pairs, mac) { SameMacs(pairs, mac); }
  }

  // ----- what is said of a MAC ----------------------------------------------

  /** The verdicts on a captured MAC: the node's own or an expected peer's, a
      forbidden machine's, an out-of-scope machine's, the gateway's, a stranger's. */
  datatype Neighbor = Known | ForbiddenPeer(id: string) | OutOfScopePeer(id: string) | Gateway | Stranger

  predicate IsKnown(plan: Plan, mac: string) { mac in plan.ownMacs || mac in ExpectedMacs(plan) }

  predicate IsGateway(plan: Plan, ip: string) { Truthy(plan.gateway) && Some(ip) == plan.gateway }

  /** Phase B's entries say that much of a MAC, and nothing else. */
  predicate Says(
    v: Neighbor, plan: Plan, mac: string, ip: string, reachable: bool, fs: seq<Finding>, os: seq<VlanObservation>)
  {
    match v
    case Known => fs == [] && os == []
    case ForbiddenPeer(id) => fs == [Definite("forbidden-l2-neighbor", Some(id))] && os == []
    case OutOfScopePeer(id) => fs == [] && os == [OutOfScopeObserved(plan.interface, id, mac)]
    case Gateway => fs == [] && os == [GatewayObserved(plan.interface, ip, mac)]
    case Stranger =>
      && fs == [Definite("unexpected-l2-neighbor", None)]
               + (if reachable then [Definite("unexpected-reachability", None)] else [])
      && os == []
  }

  lemma SaysOneThing(
    v: Neighbor, w: Neighbor, plan: Plan, mac: string, ip: string, reachable: bool, fs: seq<Finding>,
    os: seq<VlanObservation>)
    requires Says(v, plan, mac, ip, reachable, fs, os) && Says(w, plan, mac, ip, reachable, fs, os)
    ensures v == w
  {
    if fs != [] {
      assert fs[0].ftype == (if v.Stranger? then "unexpected-l2-neighbor" else "forbidden-l2-neighbor");
      assert fs[0].ftype == (if w.Stranger? then "unexpected-l2-neighbor" else "forbidden-l2-neighbor");
      assert v.ForbiddenPeer? ==> fs[0].peer == Some(v.id);
      assert w.ForbiddenPeer? ==> fs[0].peer == Some(w.id);
    } else if os != [] {
      assert os[0] == (if v.Gateway? then GatewayObserved(plan.interface, ip, mac)
                       else OutOfScopeObserved(plan.interface, v.id, mac));
      assert os[0] == (if w.Gateway? then GatewayObserved(plan.interface, ip, mac)
                       else OutOfScopeObserved(plan.interface, w.id, mac));
    }
  }

  /** Of every captured MAC phase B says exactly one thing. */
  lemma OneVerdict(plan: Plan, mac: string, ip: string, reachable: bool) returns (v: Neighbor)
    ensures forall w :: w == v <==>
      Says(w, plan, mac, ip, reachable, MacFindings(plan, mac, ip, reachable), MacObservations(plan, mac, ip))
    ensures v.Known? <==> IsKnown(plan, mac)
    ensures v.ForbiddenPeer? <==> !IsKnown(plan, mac) && mac in plan.forbidden
    ensures v.OutOfScopePeer? <==> !IsKnown(plan, mac) && mac !in plan.forbidden && mac in plan.outOfScope
    ensures v.Gateway? <==>
      !IsKnown(plan, mac) && mac !in plan.forbidden && mac !in plan.outOfScope && IsGateway(plan, ip)
  {
    v := if IsKnown(plan, mac) then Known
         else if mac in plan.forbidden then ForbiddenPeer(plan.forbidden[mac].systemId)
         else if mac in plan.outOfScope then OutOfScopePeer(plan.outOfScope[mac].systemId)
         else if IsGateway(plan, ip) then Gateway
         else Stranger;
    var fs, os := MacFindings(plan, mac, ip, reachable), MacObservations(plan, mac, ip);
    forall w | Says(w, plan, mac, ip, reachable, fs, os) ensures w == v {
      SaysOneThing(v, w, plan, mac, ip, reachable, fs, os);
    }
  }

  // ----- what it means in the document --------------------------------------

  /** The record kept for a recognized MAC names a machine that has it. */
  lemma {:induction false} OutOfScopeRecords(rule: BmcRule, node: Machine, i: Interface, ps: seq<Peer>, mac: string)
    requires mac in AddPeers(rule, node, i, ps).outOfScope
    ensures exists p :: p in ps && Recognized(rule, node, p) && mac in InterfaceMacs(p.1)
              && AddPeers(rule, node, i, ps).outOfScope[mac] == Info(p.0, p.1)
  {
    var last := ps[|ps| - 1];
    var before := ps[..|ps| - 1];
    assert ps == before + [last];
    if !(Recognized(rule, node, last) && mac in InterfaceMacs(last.1)) {
      OutOfScopeRecords(rule, node, i, before, mac);
      var p :| p in before && Recognized(rule, node, p) && mac in InterfaceMacs(p.1)
               && AddPeers(rule, node, i, before).outOfScope[mac] == Info(p.0, p.1);
      assert p in ps;
    }
  }

  /** The node's own interface, seen on its own segment. */
  lemma OwnMacsApart(t: Topology, node: Machine, i: Interface, p: Peer, mac: string)
    requires MacsOwned(t.machines) && node in t.machines && i in node.interfaces
    requires PeerAt(t.machines, node, i, p) && mac in InterfaceMacs(p.1)
    ensures mac !in InterfaceMacs(i)
  {
    assert InDocument(t.machines, p) && InDocument(t.machines, (node, i));
    assert mac in InterfaceMacs(i) ==> mac in InterfaceMacs(p.1) * InterfaceMacs(i);
  }

  /** What phase B says of the MAC of another machine on the node's segment. */
  function VerdictOnPeer(rule: BmcRule, node: Machine, p: Peer): Neighbor {
    if Forbidden(rule, node, p) then ForbiddenPeer(p.0.systemId)
    else if Probed(rule, node, p) then Known
    else OutOfScopePeer(p.0.systemId)
  }

  lemma ForbiddenNamesPeer(t: Topology, node: Machine, i: Interface, p: Peer, mac: string)
    requires MacsOwned(t.machines) && PeerAt(t.machines, node, i, p) && mac in InterfaceMacs(p.1)
    requires mac in PlanFor(t, node, i).forbidden
    ensures PlanFor(t, node, i).forbidden[mac].systemId == p.0.systemId
  {
    var ps := SegmentPeers(node, i, t.machines);
    ForbiddenRecords(t.bmcRule, node, i, ps, mac);
    var q :| q in ps && Forbidden(t.bmcRule, node, q) && mac in InterfaceMacs(q.1)
             && PlanFor(t, node, i).forbidden[mac] == Info(q.0, q.1);
    SegmentPeersMembers(node, i, t.machines, q);
    SameOwner(t.machines, node, i, p, q, mac);
  }

  lemma OutOfScopeNamesPeer(t: Topology, node: Machine, i: Interface, p: Peer, mac: string)
    requires MacsOwned(t.machines) && PeerAt(t.machines, node, i, p) && mac in InterfaceMacs(p.1)
    requires mac in PlanFor(t, node, i).outOfScope
    ensures PlanFor(t, node, i).outOfScope[mac].systemId == p.0.systemId
  {
    var ps := SegmentPeers(node, i, t.machines);
    OutOfScopeRecords(t.bmcRule, node, i, ps, mac);
    var q :| q in ps && Recognized(t.bmcRule, node, q) && mac in InterfaceMacs(q.1)
             && PlanFor(t, node, i).outOfScope[mac] == Info(q.0, q.1);
    SegmentPeersMembers(node, i, t.machines, q);
    SameOwner(t.machines, node, i, p, q, mac);
  }

  /** A captured MAC of another machine on the segment: a forbidden machine gives
      a finding that names it, a probed one nothing, and any other an observation
      that names it. */
  lemma CapturedPeer(
    t: Topology, node: Machine, i: Interface, p: Peer, mac: string, ip: string, reachable: bool)
    requires MacsOwned(t.machines) && node in t.machines && i in node.interfaces
    requires PeerAt(t.machines, node, i, p) && mac in InterfaceMacs(p.1)
    ensures var plan := PlanFor(t, node, i);
      Says(VerdictOnPeer(t.bmcRule, node, p), plan, mac, ip, reachable,
        MacFindings(plan, mac, ip, reachable), MacObservations(plan, mac, ip))
  {
    OwnSide(t.bmcRule, node, i, SegmentPeers(node, i, t.machines));
    OwnMacsApart(t, node, i, p, mac);
    ListedMac(t, node, i, p, mac);
    if mac in PlanFor(t, node, i).forbidden { ForbiddenNamesPeer(t, node, i, p, mac); }
    if mac in PlanFor(t, node, i).outOfScope { OutOfScopeNamesPeer(t, node, i, p, mac); }
  }

  /** A captured MAC that is nobody's on the segment: the gateway when it shows the
      gateway's address, and otherwise a stranger. */
  lemma CapturedStranger(t: Topology, node: Machine, i: Interface, mac: string, ip: string, reachable: bool)
    requires mac !in InterfaceMacs(i) && forall p :: PeerAt(t.machines, node, i, p) ==> mac !in InterfaceMacs(p.1)
    ensures var plan := PlanFor(t, node, i);
      Says(if Truthy(i.gatewayIp) && i.gatewayIp == Some(ip) then Gateway else Stranger, plan, mac, ip, reachable,
        MacFindings(plan, mac, ip, reachable), MacObservations(plan, mac, ip))
  {
    var plan := PlanFor(t, node, i);
    OwnSide(t.bmcRule, node, i, SegmentPeers(node, i, t.machines));
    if mac in ExpectedMacs(plan) || mac in plan.outOfScope || mac in plan.forbidden { MacHasPeer(t, node, i, mac); }
  }

  /** A captured MAC is written as the plans write theirs: in lower case. */
  lemma CapturedIsLower(b: Pcap.Bytes)
    ensures Lower(Pcap.MacText(b)) == Pcap.MacText(b)
  {
    var text := Pcap.MacText(b);
    LowerMeaning(text, 0);
    forall i | 0 <= i < |text| ensures Lower(text)[i] == text[i] {
      LowerMeaning(text, i);
      LowerCaseAt(b, i);
    }
  }

  lemma LowerCaseAt(b: Pcap.Bytes, i: nat)
    requires i < |Pcap.MacText(b)|
    ensures !('A' <= Pcap.MacText(b)[i] <= 'Z')
  {
    var text, k := Pcap.MacText(b), i / 3;
    Pcap.MacTextLength(b);
    Pcap.MacTextMeaning(b, k);
    assert text[3 * k..3 * k + 2][0] == text[3 * k] && text[3 * k..3 * k + 2][1] == text[3 * k + 1];
    assert i == 3 * k || i == 3 * k + 1 || i == 3 * k + 2;
  }

  // ----- the whole section --------------------------------------------------

  lemma {:induction false} SeenFindingMembers(plan: Plan, seen: PairList, reach: set<string>, f: Finding)
    ensures f in SeenFindings(plan, seen, reach) <==>
      exists p :: p in seen && f in MacFindings(plan, p.0, p.1, p.0 in reach)
  {
    if seen != [] {
      var before, last := seen[..|seen| - 1], seen[|seen| - 1];
      SeenFindingMembers(plan, before, reach, f);
      assert seen == before + [last];
    }
  }

  lemma {:induction false} SeenObservationMembers(plan: Plan, seen: PairList, o: VlanObservation)
    ensures o in SeenObservations(plan, seen) <==> exists p :: p in seen && o in MacObservations(plan, p.0, p.1)
  {
    if seen != [] {
      var before, last := seen[..|seen| - 1], seen[|seen| - 1];
      SeenObservationMembers(plan, before, o);
      assert seen == before + [last];
    }
  }

  /** The pairs phase B judges for a plan. */
  function Judged(plan: Plan, captured: Captured): PairList { FirstSeen(CapturedOn(captured, plan.interface)) }

  ghost predicate FoundFor(plan: Plan, captured: Captured, reach: set<string>, f: Finding) {
    exists p :: p in Judged(plan, captured) && f in MacFindings(plan, p.0, p.1, p.0 in reach)
  }

  ghost predicate ObservedFor(plan: Plan, captured: Captured, o: VlanObservation) {
    exists p :: p in Judged(plan, captured) && o in MacObservations(plan, p.0, p.1)
  }

  lemma LastPlanFinds(plans: seq<Plan>, captured: Captured, pings: Pings, f: Finding)
    requires plans != []
    ensures var n := |plans| - 1;
      f in CaptureFindings(plans, captured, pings) <==>
      f in CaptureFindings(plans[..n], captured, pings) || FoundFor(plans[n], captured, pings(n), f)
  {
    var n := |plans| - 1;
    SeenFindingMembers(plans[n], Judged(plans[n], captured), pings(n), f);
  }

  /** The finding is one for the plan at `i`. */
  ghost predicate FoundAt(plans: seq<Plan>, captured: Captured, pings: Pings, i: nat, f: Finding) {
    i < |plans| && FoundFor(plans[i], captured, pings(i), f)
  }

  lemma FoundAtPrefix(plans: seq<Plan>, captured: Captured, pings: Pings, i: nat, f: Finding)
    requires i + 1 < |plans|
    ensures FoundAt(plans[..|plans| - 1], captured, pings, i, f) <==> FoundAt(plans, captured, pings, i, f)
  {
  }

  lemma {:induction false} FindingHasPlan(plans: seq<Plan>, captured: Captured, pings: Pings, f: Finding)
    returns (i: nat)
    requires f in CaptureFindings(plans, captured, pings)
    ensures FoundAt(plans, captured, pings, i, f)
  {
    LastPlanFinds(plans, captured, pings, f);
    i := |plans| - 1;
    if f in CaptureFindings(plans[..i], captured, pings) {
      i := FindingHasPlan(plans[..i], captured, pings, f);
      FoundAtPrefix(plans, captured, pings, i, f);
    }
  }

  lemma {:induction false} PlanFindingListed(plans: seq<Plan>, captured: Captured, pings: Pings, i: nat, f: Finding)
    requires FoundAt(plans, captured, pings, i, f)
    ensures f in CaptureFindings(plans, captured, pings)
  {
    LastPlanFinds(plans, captured, pings, f);
    if i + 1 < |plans| {
      FoundAtPrefix(plans, captured, pings, i, f);
      PlanFindingListed(plans[..|plans| - 1], captured, pings, i, f);
    }
  }

  /** Phase B's findings are those of the distinct captured MACs of the plans. */
  lemma CaptureFindingMembers(plans: seq<Plan>, captured: Captured, pings: Pings, f: Finding)
    ensures f in CaptureFindings(plans, captured, pings) <==> exists i: nat :: FoundAt(plans, captured, pings, i, f)
  {
    if f in CaptureFindings(plans, captured, pings) { var i := FindingHasPlan(plans, captured, pings, f); }
    if i: nat :| FoundAt(plans, captured, pings, i, f) { PlanFindingListed(plans, captured, pings, i, f); }
  }

  lemma LastPlanObserves(plans: seq<Plan>, captured: Captured, o: VlanObservation)
    requires plans != []
    ensures var n := |plans| - 1;
      o in CaptureObservations(plans, captured) <==>
      o in CaptureObservations(plans[..n], captured) || ObservedFor(plans[n], captured, o)
  {
    var n := |plans| - 1;
    SeenObservationMembers(plans[n], Judged(plans[n], captured), o);
  }

  /** The observation is one for the plan at `i`. */
  ghost predicate ObservedAt(plans: seq<Plan>, captured: Captured, i: nat, o: VlanObservation) {
    i < |plans| && ObservedFor(plans[i], captured, o)
  }

  lemma ObservedAtPrefix(plans: seq<Plan>, captured: Captured, i: nat, o: VlanObservation)
    requires i + 1 < |plans|
    ensures ObservedAt(plans[..|plans| - 1], captured, i, o) <==> ObservedAt(plans, captured, i, o)
  {
  }

  lemma {:induction false} ObservationHasPlan(plans: seq<Plan>, captured: Captured, o: VlanObservation) returns (i: nat)
    requires o in CaptureObservations(plans, captured)
    ensures ObservedAt(plans, captured, i, o)
  {
    LastPlanObserves(plans, captured, o);
    i := |plans| - 1;
    if o in CaptureObservations(plans[..i], captured) {
      i := ObservationHasPlan(plans[..i], captured, o);
      ObservedAtPrefix(plans, captured, i, o);
    }
  }

  lemma {:induction false} PlanObservationListed(plans: seq<Plan>, captured: Captured, i: nat, o: VlanObservation)
    requires ObservedAt(plans, captured, i, o)
    ensures o in CaptureObservations(plans, captured)
  {
    LastPlanObserves(plans, captured, o);
    if i + 1 < |plans| {
      ObservedAtPrefix(plans, captured, i, o);
      PlanObservationListed(plans[..|plans| - 1], captured, i, o);
    }
  }

  /** Likewise its observations. */
  lemma CaptureObservationMembers(plans: seq<Plan>, captured: Captured, o: VlanObservation)
    ensures o in CaptureObservations(plans, captured) <==> exists i: nat :: ObservedAt(plans, captured, i, o)
  {
    if o in CaptureObservations(plans, captured) { var i := ObservationHasPlan(plans, captured, o); }
    if i: nat :| ObservedAt(plans, captured, i, o) { PlanObservationListed(plans, captured, i, o); }
  }
}
