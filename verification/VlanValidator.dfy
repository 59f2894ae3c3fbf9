/** The VLAN neighbor validator (`run` in
    charm/payload/vlan_neighbor_validator.py): the sweep phase, classification of
    captured neighbors, and active probing of expected peers.

    What the network answers is arbitrary: the sweeps' `Air`, the bytes captured
    on each interface, the set of probes whose ICMP is answered, the strangers whose ping is
    answered, and the set of reads of phase C at which the cancellation flag is
    seen set. */
module VlanValidator {
  import opened Order
  import opened Topology
  import opened ProbeOutput
  import opened PeerSets
  import opened VlanSweep
  import Pcap

  type Captured = map<string, seq<(string, string)>>

  /** By position of a plan, the strangers' MACs whose ping is answered. */
  type Pings = nat -> set<string>

  /** The bytes tcpdump writes for an interface, and the (mac, ip) pairs in them. */
  type Wire = string -> Pcap.Bytes
  type Pairs = string -> seq<(string, string)>

  function PairsOf(wire: Wire): Pairs { interface => Pcap.Parse(Pcap.DecodeArp, wire(interface)) }

  /** `observed`: the pairs captured on the interface of each plan. */
  function CapturedFrom(pairs: Pairs, plans: seq<Plan>): Captured {
    if plans == [] then map[]
    else
      var plan := plans[|plans| - 1];
      CapturedFrom(pairs, plans[..|plans| - 1])[plan.interface := pairs(plan.interface)]
  }

  /** What the sweep phase leaves behind. */
  datatype Sweep = Sweep(
    interrupted: bool, attempted: set<Key>, arp: ArpAnswers, captured: Captured)

  function Definite(ftype: string, peer: Option<string>): Finding { Finding(ftype, Definitive, peer) }

  // ----- captured neighbors -------------------------------------------------

  /** First address seen per MAC, in capture order. */
  function FirstSeen(pairs: seq<(string, string)>): seq<(string, string)> {
    if pairs == [] then []
    else
      var seen := FirstSeen(pairs[..|pairs| - 1]);
      var last := pairs[|pairs| - 1];
      if exists p :: p in seen && p.0 == last.0 then seen else seen + [last]
  }

  function MacFindings(plan: Plan, mac: string, ip: string, reachable: bool): seq<Finding> {
    if mac in plan.ownMacs || mac in ExpectedMacs(plan) then []
    else if mac in plan.forbidden then [Definite("forbidden-l2-neighbor", Some(plan.forbidden[mac].systemId))]
    else if mac in plan.outOfScope || (Truthy(plan.gateway) && Some(ip) == plan.gateway) then []
    else
      [Definite("unexpected-l2-neighbor", None)]
      + if reachable then [Definite("unexpected-reachability", None)] else []
  }

  function MacObservations(plan: Plan, mac: string, ip: string): seq<VlanObservation> {
    if mac in plan.ownMacs || mac in ExpectedMacs(plan) || mac in plan.forbidden then []
    else if mac in plan.outOfScope then [OutOfScopeObserved(plan.interface, plan.outOfScope[mac].systemId, mac)]
    else if Truthy(plan.gateway) && Some(ip) == plan.gateway then [GatewayObserved(plan.interface, ip, mac)]
    else []
  }

  function SeenFindings(plan: Plan, seen: seq<(string, string)>, reach: set<string>): seq<Finding> {
    if seen == [] then []
    else
      var n := |seen| - 1;
      SeenFindings(plan, seen[..n], reach) + MacFindings(plan, seen[n].0, seen[n].1, seen[n].0 in reach)
  }

  function SeenObservations(plan: Plan, seen: seq<(string, string)>): seq<VlanObservation> {
    if seen == [] then []
    else
      var n := |seen| - 1;
      SeenObservations(plan, seen[..n]) + MacObservations(plan, seen[n].0, seen[n].1)
  }

  function CapturedOn(captured: Captured, interface: string): seq<(string, string)> {
    if interface in captured then captured[interface] else []
  }

  function CaptureFindings(plans: seq<Plan>, captured: Captured, pings: Pings): seq<Finding> {
    if plans == [] then []
    else
      var n := |plans| - 1;
      CaptureFindings(plans[..n], captured, pings)
      + SeenFindings(plans[n], FirstSeen(CapturedOn(captured, plans[n].interface)), pings(n))
  }

  function CaptureObservations(plans: seq<Plan>, captured: Captured): seq<VlanObservation> {
    if plans == [] then []
    else
      var n := |plans| - 1;
      CaptureObservations(plans[..n], captured)
      + SeenObservations(plans[n], FirstSeen(CapturedOn(captured, plans[n].interface)))
  }

  // ----- expected peers -----------------------------------------------------

  /** One active probe: a peer on an interface. */
  datatype Probe = Probe(interface: string, peer: PeerInfo)

  function KeyOf(p: Probe): Key { (p.interface, p.peer.systemId) }

  function ProbesOf(interface: string, peers: seq<PeerInfo>): seq<Probe> {
    if peers == [] then [] else ProbesOf(interface, peers[..|peers| - 1]) + [Probe(interface, peers[|peers| - 1])]
  }

  function PlanProbes(plan: Plan): seq<Probe> { ProbesOf(plan.interface, plan.expected) }

  /** All probes, in the order they are made. */
  function Probes(plans: seq<Plan>): seq<Probe> {
    if plans == [] then [] else Probes(plans[..|plans| - 1]) + PlanProbes(plans[|plans| - 1])
  }

  predicate Arped(arp: ArpAnswers, p: Probe) {
    KeyOf(p) in arp && arp[KeyOf(p)]
  }

  function ProbeFindings(p: Probe, arped: bool, reachable: bool): seq<Finding> {
    (if arped then [] else [Definite("missing-l2-neighbor", Some(p.peer.systemId))])
    + (if reachable then [] else [Definite("icmp-unreachable", Some(p.peer.systemId))])
  }

  function ProbeObservations(p: Probe, arped: bool, reachable: bool): seq<VlanObservation> {
    if arped || reachable then [PeerObserved(p.interface, p.peer.systemId, arped, reachable)] else []
  }

  /** `icmp` holds the positions of the answered probes. */
  function AllProbeFindings(ps: seq<Probe>, arp: ArpAnswers, icmp: set<nat>): seq<Finding> {
    if ps == [] then []
    else
      var n := |ps| - 1;
      AllProbeFindings(ps[..n], arp, icmp) + ProbeFindings(ps[n], Arped(arp, ps[n]), n in icmp)
  }

  function AllProbeObservations(ps: seq<Probe>, arp: ArpAnswers, icmp: set<nat>): seq<VlanObservation> {
    if ps == [] then []
    else
      var n := |ps| - 1;
      AllProbeObservations(ps[..n], arp, icmp) + ProbeObservations(ps[n], Arped(arp, ps[n]), n in icmp)
  }

  /** Probes that were derived but never attempted. */
  function Unattempted(ps: seq<Probe>, attempted: set<Key>, reason: Reason): seq<VlanObservation> {
    if ps == [] then []
    else
      var n := |ps| - 1;
      Unattempted(ps[..n], attempted, reason)
      + if KeyOf(ps[n]) in attempted then [] else [PeerUnattempted(ps[n].interface, ps[n].peer.systemId, reason)]
  }

  function Keys(ps: seq<Probe>): set<Key> {
    if ps == [] then {} else Keys(ps[..|ps| - 1]) + {KeyOf(ps[|ps| - 1])}
  }

  /** The probe before which the flag is first seen set, or all of them. */
  ghost predicate StopsAt(flag: set<nat>, n: nat, total: nat) {
    n <= total && (forall k :: 0 <= k < n ==> k !in flag) && (n < total ==> n in flag)
  }

  /** The records left behind when probe `n` is the first not made: none when
      all were, otherwise one for each probe never attempted. */
  function Left(ps: seq<Probe>, n: nat, before: set<Key>, reason: Reason): seq<VlanObservation>
    requires n <= |ps|
  {
    if n == |ps| then [] else Unattempted(ps, before + Keys(ps[..n]), reason)
  }

  // ----- the section --------------------------------------------------------

  class Section {
    var findings: seq<Finding>
    var observations: seq<VlanObservation>
    var complete: bool

    constructor ()
      ensures findings == [] && observations == [] && !complete
    {
      findings, observations, complete := [], [], false;
    }

    method FlushUnattempted(plans: seq<Plan>, attempted: set<Key>, reason: Reason)
      modifies `observations
      ensures observations == old(observations) + Unattempted(Probes(plans), attempted, reason)
    {
      var ps := Probes(plans);
      ghost var os := observations;
      for i := 0 to |ps|
        invariant observations == os + Unattempted(ps[..i], attempted, reason)
      {
        OneMoreUnattempted(os, ps, i, attempted, reason);
        if KeyOf(ps[i]) !in attempted {
          observations := observations + [PeerUnattempted(ps[i].interface, ps[i].peer.systemId, reason)];
        }
      }
      assert ps[..|ps|] == ps;
    }

    /** Phase B: classify every MAC seen in passive capture. */
    method ClassifyCaptured(plans: seq<Plan>, captured: Captured, pings: Pings)
      modifies `findings, `observations
      ensures findings == old(findings) + CaptureFindings(plans, captured, pings)
      ensures observations == old(observations) + CaptureObservations(plans, captured)
    {
      ghost var fs, os := findings, observations;
      for i := 0 to |plans|
        invariant findings == fs + CaptureFindings(plans[..i], captured, pings)
        invariant observations == os + CaptureObservations(plans[..i], captured)
      {
        OneMorePlan(fs, os, plans, i, captured, pings);
        var seen := DistinctMacs(CapturedOn(captured, plans[i].interface));
        ClassifySeen(plans[i], seen, pings(i));
      }
      assert plans[..|plans|] == plans;
    }

    /** Phase B on an empty section. */
    method ClassifyFirst(plans: seq<Plan>, captured: Captured, pings: Pings)
      requires findings == [] && observations == []
      modifies `findings, `observations
      ensures findings == CaptureFindings(plans, captured, pings)
      ensures observations == CaptureObservations(plans, captured)
    {
      ClassifyCaptured(plans, captured, pings);
    }

    method ClassifySeen(plan: Plan, seen: seq<(string, string)>, reach: set<string>)
      modifies `findings, `observations
      ensures findings == old(findings) + SeenFindings(plan, seen, reach)
      ensures observations == old(observations) + SeenObservations(plan, seen)
    {
      ghost var fs, os := findings, observations;
      for i := 0 to |seen|
        invariant findings == fs + SeenFindings(plan, seen[..i], reach)
        invariant observations == os + SeenObservations(plan, seen[..i])
      {
        OneMoreSeen(fs, os, plan, seen, i, reach);
        ClassifyMac(plan, seen[i].0, seen[i].1, reach);
      }
      assert seen[..|seen|] == seen;
    }

    method ClassifyMac(plan: Plan, mac: string, ip: string, reach: set<string>)
      modifies `findings, `observations
      ensures findings == old(findings) + MacFindings(plan, mac, ip, mac in reach)
      ensures observations == old(observations) + MacObservations(plan, mac, ip)
    {
      if mac in plan.ownMacs || mac in ExpectedMacs(plan) {
        return;
      }
      if mac in plan.forbidden {
        findings := findings + [Definite("forbidden-l2-neighbor", Some(plan.forbidden[mac].systemId))];
      } else if mac in plan.outOfScope {
        observations := observations + [OutOfScopeObserved(plan.interface, plan.outOfScope[mac].systemId, mac)];
      } else if Truthy(plan.gateway) && Some(ip) == plan.gateway {
        observations := observations + [GatewayObserved(plan.interface, ip, mac)];
      } else {
        findings := findings + [Definite("unexpected-l2-neighbor", None)];
        if mac in reach {
          findings := findings + [Definite("unexpected-reachability", None)];
        }
      }
    }

    /** Phase C: ICMP reachability for every expected in-scope peer, until the
        flag is seen set. */
    method ProbeExpected(
      plans: seq<Plan>, before: set<Key>, arp: ArpAnswers, icmp: set<nat>, flag: set<nat>, reason: Reason)
      returns (n: nat)
      requires !complete
      modifies this
      ensures StopsAt(flag, n, |Probes(plans)|)
      ensures complete <==> n == |Probes(plans)|
      ensures findings == old(findings) + AllProbeFindings(Probes(plans)[..n], arp, icmp)
      ensures observations == (old(observations) + AllProbeObservations(Probes(plans)[..n], arp, icmp))
                              + Left(Probes(plans), n, before, reason)
    {
      var ps := Probes(plans);
      var attempted;
      n, attempted := ProbeUntilSeen(ps, before, arp, icmp, flag);
      if n < |ps| {
        FlushUnattempted(plans, attempted, reason);
      } else {
        complete := true;
      }
    }

    /** The probes before the one at which the flag is first seen set. */
    method ProbeUntilSeen(ps: seq<Probe>, before: set<Key>, arp: ArpAnswers, icmp: set<nat>, flag: set<nat>)
      returns (n: nat, attempted: set<Key>)
      modifies `findings, `observations
      ensures StopsAt(flag, n, |ps|) && attempted == before + Keys(ps[..n])
      ensures findings == old(findings) + AllProbeFindings(ps[..n], arp, icmp)
      ensures observations == old(observations) + AllProbeObservations(ps[..n], arp, icmp)
    {
      attempted := before;
      ghost var fs, os := findings, observations;
      for k := 0 to |ps|
        invariant forall x :: 0 <= x < k ==> x !in flag
        invariant attempted == before + Keys(ps[..k])
        invariant findings == fs + AllProbeFindings(ps[..k], arp, icmp)
        invariant observations == os + AllProbeObservations(ps[..k], arp, icmp)
      {
        if k in flag { return k, attempted; }
        attempted := ProbeNext(ps, k, attempted, arp, icmp, before, fs, os);
      }
      n := |ps|;
    }

    /** The probe at `k`, after those before it. */
    method ProbeNext(
      ps: seq<Probe>, k: nat, attempted: set<Key>, arp: ArpAnswers, icmp: set<nat>, ghost before: set<Key>,
      ghost fs: seq<Finding>, ghost os: seq<VlanObservation>)
      returns (attempted': set<Key>)
      requires k < |ps| && attempted == before + Keys(ps[..k])
      requires findings == fs + AllProbeFindings(ps[..k], arp, icmp)
      requires observations == os + AllProbeObservations(ps[..k], arp, icmp)
      modifies `findings, `observations
      ensures attempted' == before + Keys(ps[..k + 1])
      ensures findings == fs + AllProbeFindings(ps[..k + 1], arp, icmp)
      ensures observations == os + AllProbeObservations(ps[..k + 1], arp, icmp)
    {
      OneMoreProbe(fs, os, before, ps, k, arp, icmp);
      attempted' := attempted + {KeyOf(ps[k])};
      ProbePeer(ps[k], Arped(arp, ps[k]), k in icmp);
    }

    method ProbePeer(p: Probe, arped: bool, reachable: bool)
      modifies `findings, `observations
      ensures findings == old(findings) + ProbeFindings(p, arped, reachable)
      ensures observations == old(observations) + ProbeObservations(p, arped, reachable)
    {
      if !arped {
        findings := findings + [Definite("missing-l2-neighbor", Some(p.peer.systemId))];
      }
      if !reachable {
        findings := findings + [Definite("icmp-unreachable", Some(p.peer.systemId))];
      }
      if arped || reachable {
        observations := observations + [PeerObserved(p.interface, p.peer.systemId, arped, reachable)];
      }
    }

    /** What follows phase A; `n` is the number of probes phase C made before it
        saw the flag. */
    method AfterSweep(plans: seq<Plan>, sweep: Sweep, icmp: set<nat>, pings: Pings, flag: set<nat>, reason: Reason)
      returns (n: nat)
      requires findings == [] && observations == [] && !complete
      modifies this
      ensures complete <==> !sweep.interrupted && forall k :: 0 <= k < |Probes(plans)| ==> k !in flag
      ensures Records(plans, sweep, icmp, pings, flag, reason, n, findings, observations)
    {
      n := 0;
      if sweep.interrupted {
        FlushUnattempted(plans, sweep.attempted, reason);
        return;
      }
      ClassifyFirst(plans, sweep.captured, pings);
      n := ProbeExpected(plans, sweep.attempted, sweep.arp, icmp, flag, reason);
    }

    /** The validator after its plans are derived.  `sweep` is what phase A leaves
        behind after `sweeps` sweeps, unless the flag was set at the start. */
    method Run(
      plans: seq<Plan>, cancelledAtStart: bool, air: Air, wire: Wire, icmp: set<nat>, pings: Pings,
      flag: set<nat>, reason: Reason)
      returns (n: nat, ghost sweep: Sweep, ghost sweeps: nat)
      requires findings == [] && observations == [] && !complete && Timed(air)
      modifies this
      ensures cancelledAtStart ==>
        !complete && findings == [] && observations == Unattempted(Probes(plans), {}, reason)
      ensures !cancelledAtStart ==>
        && LeftBySweeps(air, plans, PairsOf(wire), sweeps, sweep)
        && Records(plans, sweep, icmp, pings, flag, reason, n, findings, observations)
        && (complete <==> !sweep.interrupted && forall k :: 0 <= k < |Probes(plans)| ==> k !in flag)
    {
      n, sweep, sweeps := 0, Sweep(true, {}, map[], map[]), 0;
      if cancelledAtStart {
        FlushUnattempted(plans, {}, reason);
        return;
      }
      var interrupted, attempted, arp;
      interrupted, attempted, arp, sweeps := SweepUntilClosed(air, plans);
      var captured := StopCaptures(plans, wire);
      var left := Sweep(interrupted, attempted, arp, captured);
      sweep := left;
      n := AfterSweep(plans, left, icmp, pings, flag, reason);
    }
  }

  /** The section after phase A left `sweep`: when that was interrupted, nothing
      found and a record per probe never attempted; otherwise what was captured,
      the results of the `n` probes phase C made before it saw the flag, and a
      record per probe never attempted. */
  ghost predicate Records(
    plans: seq<Plan>, sweep: Sweep, icmp: set<nat>, pings: Pings, flag: set<nat>, reason: Reason, n: nat,
    findings: seq<Finding>, observations: seq<VlanObservation>)
  {
    if sweep.interrupted then findings == [] && observations == Unattempted(Probes(plans), sweep.attempted, reason)
    else
      && StopsAt(flag, n, |Probes(plans)|)
      && findings ==
           CaptureFindings(plans, sweep.captured, pings) + AllProbeFindings(Probes(plans)[..n], sweep.arp, icmp)
      && observations ==
           (CaptureObservations(plans, sweep.captured) + AllProbeObservations(Probes(plans)[..n], sweep.arp, icmp))
           + Left(Probes(plans), n, sweep.attempted, reason)
  }

  /** The captures of the plans' interfaces, stopped and parsed. */
  method StopCaptures(plans: seq<Plan>, wire: Wire) returns (captured: Captured)
    ensures captured == CapturedFrom(PairsOf(wire), plans)
  {
    captured := map[];
    for i := 0 to |plans|
      invariant captured == CapturedFrom(PairsOf(wire), plans[..i])
    {
      assert plans[..i + 1][..i] == plans[..i];
      var pairs := Pcap.ParseArpPcap(wire(plans[i].interface));
      captured := captured[plans[i].interface := pairs];
    }
    assert plans[..|plans|] == plans;
  }

  /** Phase A ended so after `n` sweeps, with these pairs captured. */
  ghost predicate LeftBySweeps(air: Air, plans: seq<Plan>, pairs: Pairs, n: nat, sweep: Sweep) {
    PhaseA(air, plans, n, sweep.interrupted, sweep.attempted, sweep.arp) && sweep.captured == CapturedFrom(pairs, plans)
  }

  /** Phase B looks at what was captured on each plan's interface. */
  lemma {:induction false} CapturedOnPlan(pairs: Pairs, plans: seq<Plan>, plan: Plan)
    requires plan in plans
    ensures CapturedOn(CapturedFrom(pairs, plans), plan.interface) == pairs(plan.interface)
  {
    var n := |plans| - 1;
    if plan.interface != plans[n].interface {
      assert plan in plans[..n];
      CapturedOnPlan(pairs, plans[..n], plan);
    }
  }

  /** ... and that is what `parse_arp_pcap` makes of the bytes of its interface. */
  lemma CapturedMeaning(air: Air, plans: seq<Plan>, wire: Wire, n: nat, sweep: Sweep, plan: Plan)
    requires LeftBySweeps(air, plans, PairsOf(wire), n, sweep) && plan in plans
    ensures CapturedOn(sweep.captured, plan.interface) == Pcap.Parse(Pcap.DecodeArp, wire(plan.interface))
  {
    CapturedOnPlan(PairsOf(wire), plans, plan);
  }

  /** A probe's ARP counts as observed exactly when, in some sweep, a probe of the
      same peer on the same interface was answered. */
  lemma ArpedMeaning(air: Air, plans: seq<Plan>, pairs: Pairs, n: nat, sweep: Sweep, p: Probe)
    requires LeftBySweeps(air, plans, pairs, n, sweep)
    ensures Arped(sweep.arp, p) <==> Answered(air, plans, n, KeyOf(p))
  {
    assert Observed(sweep.arp, KeyOf(p)) <==> Answered(air, plans, n, KeyOf(p));
  }

  method DistinctMacs(pairs: seq<(string, string)>) returns (seen: seq<(string, string)>)
    ensures seen == FirstSeen(pairs)
  {
    seen := [];
    for i := 0 to |pairs|
      invariant seen == FirstSeen(pairs[..i])
    {
      assert pairs[..i + 1][..i] == pairs[..i];
      if !exists p :: p in seen && p.0 == pairs[i].0 {
        seen := seen + [pairs[i]];
      }
    }
    assert pairs[..|pairs|] == pairs;
  }

  lemma OneMorePlan(fs: seq<Finding>, os: seq<VlanObservation>, plans: seq<Plan>, i: nat,
                    captured: Captured, pings: Pings)
    requires i < |plans|
    ensures var seen := FirstSeen(CapturedOn(captured, plans[i].interface));
      && fs + CaptureFindings(plans[..i + 1], captured, pings)
         == (fs + CaptureFindings(plans[..i], captured, pings)) + SeenFindings(plans[i], seen, pings(i))
      && os + CaptureObservations(plans[..i + 1], captured)
         == (os + CaptureObservations(plans[..i], captured)) + SeenObservations(plans[i], seen)
  {
    assert plans[..i + 1][..i] == plans[..i];
    var seen := FirstSeen(CapturedOn(captured, plans[i].interface));
    ConcatAssociative(fs, CaptureFindings(plans[..i], captured, pings), SeenFindings(plans[i], seen, pings(i)));
    ConcatAssociative(os, CaptureObservations(plans[..i], captured), SeenObservations(plans[i], seen));
  }

  lemma OneMoreSeen(
    fs: seq<Finding>, os: seq<VlanObservation>, plan: Plan, seen: seq<(string, string)>, i: nat,
    reach: set<string>)
    requires i < |seen|
    ensures fs + SeenFindings(plan, seen[..i + 1], reach)
            == (fs + SeenFindings(plan, seen[..i], reach)) + MacFindings(plan, seen[i].0, seen[i].1, seen[i].0 in reach)
    ensures os + SeenObservations(plan, seen[..i + 1])
            == (os + SeenObservations(plan, seen[..i])) + MacObservations(plan, seen[i].0, seen[i].1)
  {
    assert seen[..i + 1][..i] == seen[..i];
    ConcatAssociative(fs, SeenFindings(plan, seen[..i], reach),
      MacFindings(plan, seen[i].0, seen[i].1, seen[i].0 in reach));
    ConcatAssociative(os, SeenObservations(plan, seen[..i]), MacObservations(plan, seen[i].0, seen[i].1));
  }

  lemma ProbesUpTo(ps: seq<Probe>, k: nat, arp: ArpAnswers, icmp: set<nat>)
    requires k < |ps|
    ensures AllProbeFindings(ps[..k + 1], arp, icmp)
            == AllProbeFindings(ps[..k], arp, icmp) + ProbeFindings(ps[k], Arped(arp, ps[k]), k in icmp)
    ensures AllProbeObservations(ps[..k + 1], arp, icmp)
            == AllProbeObservations(ps[..k], arp, icmp) + ProbeObservations(ps[k], Arped(arp, ps[k]), k in icmp)
    ensures Keys(ps[..k + 1]) == Keys(ps[..k]) + {KeyOf(ps[k])}
  {
    assert ps[..k + 1][..k] == ps[..k];
  }

  lemma OneMoreProbe(
    fs: seq<Finding>, os: seq<VlanObservation>, keys: set<Key>, ps: seq<Probe>, k: nat, arp: ArpAnswers,
    icmp: set<nat>)
    requires k < |ps|
    ensures fs + AllProbeFindings(ps[..k + 1], arp, icmp)
            == (fs + AllProbeFindings(ps[..k], arp, icmp)) + ProbeFindings(ps[k], Arped(arp, ps[k]), k in icmp)
    ensures os + AllProbeObservations(ps[..k + 1], arp, icmp)
            == (os + AllProbeObservations(ps[..k], arp, icmp)) + ProbeObservations(ps[k], Arped(arp, ps[k]), k in icmp)
    ensures keys + Keys(ps[..k + 1]) == (keys + Keys(ps[..k])) + {KeyOf(ps[k])}
  {
    ProbesUpTo(ps, k, arp, icmp);
    ConcatAssociative(fs, AllProbeFindings(ps[..k], arp, icmp), ProbeFindings(ps[k], Arped(arp, ps[k]), k in icmp));
    ConcatAssociative(
      os, AllProbeObservations(ps[..k], arp, icmp), ProbeObservations(ps[k], Arped(arp, ps[k]), k in icmp));
  }

  lemma OneMoreUnattempted(os: seq<VlanObservation>, ps: seq<Probe>, i: nat, attempted: set<Key>, reason: Reason)
    requires i < |ps|
    ensures os + Unattempted(ps[..i + 1], attempted, reason)
            == (os + Unattempted(ps[..i], attempted, reason))
               + if KeyOf(ps[i]) in attempted then []
                 else [PeerUnattempted(ps[i].interface, ps[i].peer.systemId, reason)]
  {
    assert ps[..i + 1][..i] == ps[..i];
  }

  // ----- what the lists contain ---------------------------------------------

  /** A probe gives a definitive finding for each answer it lacks, and an
      observation of both when it has one. */
  lemma ProbeMeaning(p: Probe, arped: bool, reachable: bool)
    ensures forall f :: f in ProbeFindings(p, arped, reachable) <==>
      || (!arped && f == Finding("missing-l2-neighbor", Definitive, Some(p.peer.systemId)))
      || (!reachable && f == Finding("icmp-unreachable", Definitive, Some(p.peer.systemId)))
    ensures forall o :: o in ProbeObservations(p, arped, reachable) <==>
      (arped || reachable) && o == PeerObserved(p.interface, p.peer.systemId, arped, reachable)
  {
  }

  lemma {:induction false} ProbeFindingMembers(ps: seq<Probe>, arp: ArpAnswers, icmp: set<nat>, f: Finding)
    ensures f in AllProbeFindings(ps, arp, icmp) <==>
      exists k :: 0 <= k < |ps| && f in ProbeFindings(ps[k], Arped(arp, ps[k]), k in icmp)
  {
    if ps != [] {
      var n := |ps| - 1;
      ProbeFindingMembers(ps[..n], arp, icmp, f);
      assert forall k :: 0 <= k < n ==> ps[..n][k] == ps[k];
    }
  }

  lemma {:induction false} ProbeObservationMembers(ps: seq<Probe>, arp: ArpAnswers, icmp: set<nat>, o: VlanObservation)
    ensures o in AllProbeObservations(ps, arp, icmp) <==>
      exists k :: 0 <= k < |ps| && o in ProbeObservations(ps[k], Arped(arp, ps[k]), k in icmp)
  {
    if ps != [] {
      var n := |ps| - 1;
      ProbeObservationMembers(ps[..n], arp, icmp, o);
      assert forall k :: 0 <= k < n ==> ps[..n][k] == ps[k];
    }
  }

  lemma {:induction false} ProbesOfMembers(interface: string, peers: seq<PeerInfo>, p: Probe)
    ensures p in ProbesOf(interface, peers) <==> p.interface == interface && p.peer in peers
  {
    if peers != [] {
      ProbesOfMembers(interface, peers[..|peers| - 1], p);
      assert peers == peers[..|peers| - 1] + [peers[|peers| - 1]];
    }
  }

  lemma {:induction false} ProbeMembers(plans: seq<Plan>, p: Probe)
    ensures p in Probes(plans) <==>
      exists i :: 0 <= i < |plans| && plans[i].interface == p.interface && p.peer in plans[i].expected
  {
    if plans != [] {
      var n := |plans| - 1;
      ProbeMembers(plans[..n], p);
      ProbesOfMembers(plans[n].interface, plans[n].expected, p);
    }
  }

  /** A capture finding that names a peer is a forbidden neighbor of some plan. */
  lemma {:induction false} SeenFindingPeer(plan: Plan, seen: seq<(string, string)>, reach: set<string>, f: Finding)
    requires f in SeenFindings(plan, seen, reach) && f.peer.Some?
    ensures exists mac :: mac in plan.forbidden && plan.forbidden[mac].systemId == f.peer.value
  {
    var n := |seen| - 1;
    if f in SeenFindings(plan, seen[..n], reach) {
      SeenFindingPeer(plan, seen[..n], reach, f);
    } else {
      assert f in MacFindings(plan, seen[n].0, seen[n].1, seen[n].0 in reach);
      assert seen[n].0 in plan.forbidden;
    }
  }

  lemma {:induction false} CaptureFindingPeer(
    plans: seq<Plan>, captured: Captured, pings: Pings, f: Finding)
    requires f in CaptureFindings(plans, captured, pings) && f.peer.Some?
    ensures exists i, mac ::
      0 <= i < |plans| && mac in plans[i].forbidden && plans[i].forbidden[mac].systemId == f.peer.value
  {
    var n := |plans| - 1;
    if f in CaptureFindings(plans[..n], captured, pings) {
      CaptureFindingPeer(plans[..n], captured, pings, f);
      var i, mac :| 0 <= i < |plans[..n]| && mac in plans[..n][i].forbidden
        && plans[..n][i].forbidden[mac].systemId == f.peer.value;
      assert mac in plans[i].forbidden;
    } else {
      SeenFindingPeer(plans[n], FirstSeen(CapturedOn(captured, plans[n].interface)), pings(n), f);
    }
  }

  /** Peer `id` on that interface was probed before, or is among these probes. */
  predicate Tried(ps: seq<Probe>, before: set<Key>, interface: string, id: string) {
    (interface, id) in before || exists p :: p in ps && p.interface == interface && p.peer.systemId == id
  }

  lemma {:induction false} KeysMeaning(ps: seq<Probe>, key: Key)
    ensures key in Keys(ps) <==> exists p :: p in ps && p.interface == key.0 && p.peer.systemId == key.1
  {
    if ps != [] {
      KeysMeaning(ps[..|ps| - 1], key);
      assert ps == ps[..|ps| - 1] + [ps[|ps| - 1]];
    }
  }

  lemma {:induction false} UnattemptedMembers(ps: seq<Probe>, attempted: set<Key>, reason: Reason, o: VlanObservation)
    ensures o in Unattempted(ps, attempted, reason) <==>
      exists p :: p in ps && (p.interface, p.peer.systemId) !in attempted
                  && o == PeerUnattempted(p.interface, p.peer.systemId, reason)
  {
    if ps != [] {
      UnattemptedMembers(ps[..|ps| - 1], attempted, reason, o);
      assert ps == ps[..|ps| - 1] + [ps[|ps| - 1]];
    }
  }

  /** When phase C stops before probe `n`, the records it leaves behind are those of
      the peers tried neither in phase A nor by the probes made; when it makes all
      of them there are none. */
  lemma LeftMeaning(ps: seq<Probe>, n: nat, before: set<Key>, reason: Reason, o: VlanObservation)
    requires n <= |ps|
    ensures o in Left(ps, n, before, reason) <==>
      n < |ps| && exists p :: p in ps && !Tried(ps[..n], before, p.interface, p.peer.systemId)
                              && o == PeerUnattempted(p.interface, p.peer.systemId, reason)
  {
    UnattemptedMembers(ps, before + Keys(ps[..n]), reason, o);
    forall p | p in ps
      ensures (p.interface, p.peer.systemId) in before + Keys(ps[..n]) <==>
        Tried(ps[..n], before, p.interface, p.peer.systemId)
    {
      KeysMeaning(ps[..n], (p.interface, p.peer.systemId));
    }
  }

  /** After an interruption every derived probe was attempted or is recorded as
      unattempted, with the reason. */
  lemma {:induction false} NoProbeLost(ps: seq<Probe>, attempted: set<Key>, reason: Reason, p: Probe)
    requires p in ps
    ensures KeyOf(p) in attempted
      || PeerUnattempted(p.interface, p.peer.systemId, reason) in Unattempted(ps, attempted, reason)
  {
    var n := |ps| - 1;
    if p != ps[n] {
      assert p in ps[..n];
      NoProbeLost(ps[..n], attempted, reason, p);
    }
  }
}
