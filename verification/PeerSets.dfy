/** The node's view of the L2 check universe
    (`derive_peer_sets` in charm/payload/vlan_neighbor_validator.py), and its
    agreement with the report's. */
module PeerSets {
  import opened Order
  import opened Topology
  import opened L2Edges

  datatype PeerInfo = PeerInfo(systemId: string, hostname: string, ip: Option<string>, macs: set<string>)

  /** One probe plan per node interface. */
  datatype Plan = Plan(
    interface: string, mac: string, ownMacs: set<string>, gateway: Option<string>,
    expected: seq<PeerInfo>, outOfScope: map<string, PeerInfo>, forbidden: map<string, PeerInfo>)

  /** `str.lower` on the characters MAC addresses are made of. */
  function LowerChar(c: char): char {
    if 'A' <= c <= 'Z' then c - 'A' + 'a' else c
  }

  function Lower(s: string): string {
    if s == "" then "" else [LowerChar(s[0])] + Lower(s[1..])
  }

  function InterfaceMacs(i: Interface): set<string> {
    {Lower(i.mac)} + set m | m in i.memberMacs :: Lower(m)
  }

  function Info(m: Machine, i: Interface): PeerInfo {
    PeerInfo(m.systemId, m.hostname, i.ip, InterfaceMacs(i))
  }

  function EmptyPlan(i: Interface): Plan {
    Plan(i.name, Lower(i.mac), InterfaceMacs(i), i.gatewayIp, [], map[], map[])
  }

  function Entries(info: PeerInfo): map<string, PeerInfo> {
    map mac | mac in info.macs :: info
  }

  type Peer = (Machine, Interface)

  /** The interfaces of one machine on the segment of `i`. */
  function OnSegment(i: Interface, m: Machine, pis: seq<Interface>): seq<Peer> {
    if pis == [] then []
    else (if SameSegment(pis[0], i) then [(m, pis[0])] else []) + OnSegment(i, m, pis[1..])
  }

  /** Every other machine's interfaces on the segment of `i`, in document order. */
  function SegmentPeers(node: Machine, i: Interface, ms: seq<Machine>): seq<Peer> {
    if ms == [] then []
    else (if ms[0].systemId == node.systemId then [] else OnSegment(i, ms[0], ms[0].interfaces))
         + SegmentPeers(node, i, ms[1..])
  }

  predicate Probed(rule: BmcRule, node: Machine, p: Peer) {
    AdjacencyAllowed(rule, node, p.0) && p.0.inScope && Truthy(p.1.ip)
  }

  predicate Recognized(rule: BmcRule, node: Machine, p: Peer) {
    AdjacencyAllowed(rule, node, p.0) && !(p.0.inScope && Truthy(p.1.ip))
  }

  predicate Forbidden(rule: BmcRule, node: Machine, p: Peer) {
    !AdjacencyAllowed(rule, node, p.0)
  }

  function AddPeer(rule: BmcRule, node: Machine, plan: Plan, p: Peer): Plan {
    var info := Info(p.0, p.1);
    if Forbidden(rule, node, p) then plan.(forbidden := plan.forbidden + Entries(info))
    else if Probed(rule, node, p) then plan.(expected := plan.expected + [info])
    else plan.(outOfScope := plan.outOfScope + Entries(info))
  }

  function AddPeers(rule: BmcRule, node: Machine, i: Interface, ps: seq<Peer>): Plan {
    if ps == [] then EmptyPlan(i)
    else AddPeer(rule, node, AddPeers(rule, node, i, ps[..|ps| - 1]), ps[|ps| - 1])
  }

  function PlanFor(t: Topology, node: Machine, i: Interface): Plan {
    AddPeers(t.bmcRule, node, i, SegmentPeers(node, i, t.machines))
  }

  function PlansFor(t: Topology, node: Machine): seq<Plan> {
    seq(|node.interfaces|, k requires 0 <= k < |node.interfaces| => PlanFor(t, node, node.interfaces[k]))
  }

  method DerivePeerSets(t: Topology, node: Machine) returns (plans: seq<Plan>)
    ensures plans == PlansFor(t, node)
  {
    plans := [];
    for k := 0 to |node.interfaces|
      invariant |plans| == k
      invariant forall x :: 0 <= x < k ==> plans[x] == PlanFor(t, node, node.interfaces[x])
    {
      var plan := DerivePlan(t, node, node.interfaces[k]);
      plans := plans + [plan];
    }
  }

  /** The body of the interface loop. */
  method DerivePlan(t: Topology, node: Machine, i: Interface) returns (plan: Plan)
    ensures plan == PlanFor(t, node, i)
  {
    var rule, ms := t.bmcRule, t.machines;
    plan := EmptyPlan(i);
    ghost var seen: seq<Peer> := [];
    for j := 0 to |ms|
      invariant seen + SegmentPeers(node, i, ms[j..]) == SegmentPeers(node, i, ms)
      invariant plan == AddPeers(rule, node, i, seen)
    {
      var m := ms[j];
      SegmentPeersStep(node, i, ms, j, seen);
      if m.systemId == node.systemId {
        continue;
      }
      plan, seen := AddMachine(rule, node, i, m, plan, seen);
    }
    assert ms[|ms|..] == [];
    assert seen == SegmentPeers(node, i, ms);
  }

  /** The body of the machine loop. */
  method AddMachine(rule: BmcRule, node: Machine, i: Interface, m: Machine, before: Plan, ghost done: seq<Peer>)
    returns (plan: Plan, ghost seen: seq<Peer>)
    requires before == AddPeers(rule, node, i, done)
    ensures seen == done + OnSegment(i, m, m.interfaces)
    ensures plan == AddPeers(rule, node, i, done + OnSegment(i, m, m.interfaces))
  {
    plan, seen := before, done;
    var pis := m.interfaces;
    for x := 0 to |pis|
      invariant seen + OnSegment(i, m, pis[x..]) == done + OnSegment(i, m, pis)
      invariant plan == AddPeers(rule, node, i, seen)
    {
      OnSegmentStep(i, m, pis, x, seen);
      if !SameSegment(pis[x], i) {
        continue;
      }
      AddPeersStep(rule, node, i, seen, (m, pis[x]));
      plan := AddInterface(rule, node, m, pis[x], plan);
      seen := seen + [(m, pis[x])];
    }
    assert pis[|pis|..] == [];
    assert seen == done + OnSegment(i, m, pis);
  }

  /** The body of the peer interface loop, on the segment. */
  method AddInterface(rule: BmcRule, node: Machine, m: Machine, pi: Interface, before: Plan) returns (plan: Plan)
    ensures plan == AddPeer(rule, node, before, (m, pi))
  {
    var info := Info(m, pi);
    if !AdjacencyAllowed(rule, node, m) {
      plan := before.(forbidden := before.forbidden + Entries(info));
    } else if m.inScope && Truthy(info.ip) {
      plan := before.(expected := before.expected + [info]);
    } else {
      plan := before.(outOfScope := before.outOfScope + Entries(info));
    }
  }

  lemma OnSegmentStep(i: Interface, m: Machine, pis: seq<Interface>, x: nat, seen: seq<Peer>)
    requires x < |pis|
    ensures seen + OnSegment(i, m, pis[x..])
            == (if SameSegment(pis[x], i) then seen + [(m, pis[x])] else seen) + OnSegment(i, m, pis[x + 1..])
  {
    assert pis[x..][1..] == pis[x + 1..];
  }

  lemma AddPeersStep(rule: BmcRule, node: Machine, i: Interface, seen: seq<Peer>, p: Peer)
    ensures AddPeers(rule, node, i, seen + [p]) == AddPeer(rule, node, AddPeers(rule, node, i, seen), p)
  {
    assert (seen + [p])[..|seen|] == seen;
  }

  lemma SegmentPeersStep(node: Machine, i: Interface, ms: seq<Machine>, j: nat, done: seq<Peer>)
    requires j < |ms|
    ensures done + SegmentPeers(node, i, ms[j..])
            == (if ms[j].systemId == node.systemId then done else done + OnSegment(i, ms[j], ms[j].interfaces))
               + SegmentPeers(node, i, ms[j + 1..])
  {
    assert ms[j..][1..] == ms[j + 1..];
  }

  // ----- what a plan contains -----------------------------------------------

  lemma {:induction false} OnSegmentMembers(i: Interface, m: Machine, pis: seq<Interface>, p: Peer)
    ensures p in OnSegment(i, m, pis) <==> p.0 == m && p.1 in pis && SameSegment(p.1, i)
  {
    if pis != [] {
      OnSegmentMembers(i, m, pis[1..], p);
      assert pis == [pis[0]] + pis[1..];
    }
  }

  /** Interface `p.1` of another machine `p.0` is on the segment of `i`. */
  predicate PeerAt(ms: seq<Machine>, node: Machine, i: Interface, p: Peer) {
    p.0 in ms && p.0.systemId != node.systemId && p.1 in p.0.interfaces && SameSegment(p.1, i)
  }

  lemma {:induction false} SegmentPeersMembers(node: Machine, i: Interface, ms: seq<Machine>, p: Peer)
    ensures p in SegmentPeers(node, i, ms) <==> PeerAt(ms, node, i, p)
  {
    if ms != [] {
      SegmentPeersMembers(node, i, ms[1..], p);
      OnSegmentMembers(i, ms[0], ms[0].interfaces, p);
      assert ms == [ms[0]] + ms[1..];
    }
  }

  lemma {:induction false} ExpectedMembers(rule: BmcRule, node: Machine, i: Interface, ps: seq<Peer>, info: PeerInfo)
    ensures info in AddPeers(rule, node, i, ps).expected <==>
      exists p :: p in ps && Probed(rule, node, p) && info == Info(p.0, p.1)
  {
    if ps != [] {
      var n := |ps| - 1;
      ExpectedMembers(rule, node, i, ps[..n], info);
      assert ps == ps[..n] + [ps[n]];
    }
  }

  lemma AddPeerMacs(rule: BmcRule, node: Machine, plan: Plan, p: Peer, mac: string)
    ensures mac in AddPeer(rule, node, plan, p).outOfScope
            <==> mac in plan.outOfScope || (Recognized(rule, node, p) && mac in InterfaceMacs(p.1))
    ensures mac in AddPeer(rule, node, plan, p).forbidden
            <==> mac in plan.forbidden || (Forbidden(rule, node, p) && mac in InterfaceMacs(p.1))
  {
  }

  lemma {:induction false} OutOfScopeMembers(rule: BmcRule, node: Machine, i: Interface, ps: seq<Peer>, mac: string)
    ensures mac in AddPeers(rule, node, i, ps).outOfScope <==>
      exists p :: p in ps && Recognized(rule, node, p) && mac in InterfaceMacs(p.1)
  {
    if ps != [] {
      var n := |ps| - 1;
      OutOfScopeMembers(rule, node, i, ps[..n], mac);
      AddPeerMacs(rule, node, AddPeers(rule, node, i, ps[..n]), ps[n], mac);
      assert ps == ps[..n] + [ps[n]];
    }
  }

  lemma {:induction false} ForbiddenMembers(rule: BmcRule, node: Machine, i: Interface, ps: seq<Peer>, mac: string)
    ensures mac in AddPeers(rule, node, i, ps).forbidden <==>
      exists p :: p in ps && Forbidden(rule, node, p) && mac in InterfaceMacs(p.1)
  {
    if ps != [] {
      var n := |ps| - 1;
      ForbiddenMembers(rule, node, i, ps[..n], mac);
      AddPeerMacs(rule, node, AddPeers(rule, node, i, ps[..n]), ps[n], mac);
      assert ps == ps[..n] + [ps[n]];
    }
  }

  /** The record kept for a forbidden MAC names a machine the rule forbids. */
  lemma {:induction false} ForbiddenRecords(rule: BmcRule, node: Machine, i: Interface, ps: seq<Peer>, mac: string)
    requires mac in AddPeers(rule, node, i, ps).forbidden
    ensures exists p :: p in ps && Forbidden(rule, node, p) && mac in InterfaceMacs(p.1)
              && AddPeers(rule, node, i, ps).forbidden[mac] == Info(p.0, p.1)
  {
    var n := |ps| - 1;
    var last := ps[n];
    assert ps == ps[..n] + [last];
    if !(Forbidden(rule, node, last) && mac in InterfaceMacs(last.1)) {
      ForbiddenRecords(rule, node, i, ps[..n], mac);
      var p :| p in ps[..n] && Forbidden(rule, node, p) && mac in InterfaceMacs(p.1)
               && AddPeers(rule, node, i, ps[..n]).forbidden[mac] == Info(p.0, p.1);
      assert p in ps;
    }
  }

  /** The node's own side of the plan is that of the interface. */
  lemma {:induction false} OwnSide(rule: BmcRule, node: Machine, i: Interface, ps: seq<Peer>)
    ensures var plan := AddPeers(rule, node, i, ps);
      (plan.interface, plan.mac, plan.ownMacs, plan.gateway) == (i.name, Lower(i.mac), InterfaceMacs(i), i.gatewayIp)
  {
    if ps != [] { OwnSide(rule, node, i, ps[..|ps| - 1]); }
  }

  /** Probed: allowed, in scope, with an address; recognized: allowed, and not so;
      forbidden: not allowed. */
  lemma KindMeaning(rule: BmcRule, node: Machine, p: Peer)
    ensures var allowed, target := AdjacencyAllowed(rule, node, p.0), p.0.inScope && p.1.ip !in {None, Some("")};
      && (Probed(rule, node, p) <==> allowed && target)
      && (Recognized(rule, node, p) <==> allowed && !target)
      && (Forbidden(rule, node, p) <==> !allowed)
  {
  }

  lemma {:induction false} LowerMeaning(s: string, k: nat)
    ensures |Lower(s)| == |s|
    ensures k < |s| ==>
      Lower(s)[k] as int == if 65 <= s[k] as int <= 90 then s[k] as int + 32 else s[k] as int
  {
    if s != "" { LowerMeaning(s[1..], if k > 0 then k - 1 else 0); }
  }

  /** The MACs of an interface are its own and its members', in lower case. */
  lemma MacsMeaning(i: Interface, mac: string)
    ensures mac in InterfaceMacs(i) <==> exists m :: (m == i.mac || m in i.memberMacs) && mac == Lower(m)
  {
  }

  /** The whole plan, in terms of the document: which peers are probed, which
      MACs are recognized, which are forbidden. */
  lemma PlanMeaning(t: Topology, node: Machine, i: Interface)
    ensures var plan := PlanFor(t, node, i);
      && (plan.interface, plan.mac, plan.ownMacs, plan.gateway) ==
           (i.name, Lower(i.mac), InterfaceMacs(i), i.gatewayIp)
      && (forall info :: info in plan.expected <==>
            exists p :: PeerAt(t.machines, node, i, p) && Probed(t.bmcRule, node, p)
              && info == PeerInfo(p.0.systemId, p.0.hostname, p.1.ip, InterfaceMacs(p.1)))
      && (forall mac :: mac in plan.outOfScope <==>
            exists p :: PeerAt(t.machines, node, i, p) && Recognized(t.bmcRule, node, p) && mac in InterfaceMacs(p.1))
      && (forall mac :: mac in plan.forbidden <==>
            exists p :: PeerAt(t.machines, node, i, p) && Forbidden(t.bmcRule, node, p) && mac in InterfaceMacs(p.1))
  {
    var ps := SegmentPeers(node, i, t.machines);
    var plan := PlanFor(t, node, i);
    OwnSide(t.bmcRule, node, i, ps);
    forall p ensures p in ps <==> PeerAt(t.machines, node, i, p) { SegmentPeersMembers(node, i, t.machines, p); }
    forall info ensures info in plan.expected <==>
      exists p :: PeerAt(t.machines, node, i, p) && Probed(t.bmcRule, node, p) && info == Info(p.0, p.1)
    {
      ExpectedMembers(t.bmcRule, node, i, ps, info);
    }
    forall mac ensures mac in plan.outOfScope <==>
      exists p :: PeerAt(t.machines, node, i, p) && Recognized(t.bmcRule, node, p) && mac in InterfaceMacs(p.1)
    {
      OutOfScopeMembers(t.bmcRule, node, i, ps, mac);
    }
    forall mac ensures mac in plan.forbidden <==>
      exists p :: PeerAt(t.machines, node, i, p) && Forbidden(t.bmcRule, node, p) && mac in InterfaceMacs(p.1)
    {
      ForbiddenMembers(t.bmcRule, node, i, ps, mac);
    }
  }

  // ----- agreement with the report ------------------------------------------

  predicate InDocument(ms: seq<Machine>, p: Peer) {
    p.0 in ms && p.1 in p.0.interfaces
  }

  /** Within one segment a MAC belongs to one interface. */
  ghost predicate MacsOwned(ms: seq<Machine>) {
    forall p: Peer, q: Peer :: InDocument(ms, p) && InDocument(ms, q) ==>
      (SameSegment(p.1, q.1) && InterfaceMacs(p.1) * InterfaceMacs(q.1) != {} ==> p == q)
  }

  lemma SameOwner(ms: seq<Machine>, node: Machine, i: Interface, p: Peer, q: Peer, mac: string)
    requires MacsOwned(ms) && PeerAt(ms, node, i, p) && PeerAt(ms, node, i, q)
    requires mac in InterfaceMacs(p.1) && mac in InterfaceMacs(q.1)
    ensures p == q
  {
    assert InDocument(ms, p) && InDocument(ms, q);
    assert mac in InterfaceMacs(p.1) * InterfaceMacs(q.1);
  }

  function ExpectedMacs(plan: Plan): set<string> {
    set info, mac | info in plan.expected && mac in info.macs :: mac
  }

  /** The MACs the node's plan for `i` probes or recognizes. */
  function ListedMacs(t: Topology, node: Machine, i: Interface): set<string> {
    ExpectedMacs(PlanFor(t, node, i)) + PlanFor(t, node, i).outOfScope.Keys
  }

  /** The machines share a segment, and on every one they share the node lists
      all MACs of `m`. */
  ghost predicate ListedEverywhere(t: Topology, node: Machine, m: Machine) {
    && ShareSegment(node, m)
    && forall i, pi :: i in node.interfaces && pi in m.interfaces && SameSegment(pi, i) ==>
         InterfaceMacs(pi) <= ListedMacs(t, node, i)
  }

  /** On no segment the machines share does the node list a MAC of `m`. */
  ghost predicate ListedNowhere(t: Topology, node: Machine, m: Machine) {
    forall i, pi :: i in node.interfaces && pi in m.interfaces && SameSegment(pi, i) ==>
      InterfaceMacs(pi) !! ListedMacs(t, node, i)
  }

  lemma ProbedMac(t: Topology, node: Machine, i: Interface, p: Peer, mac: string)
    requires MacsOwned(t.machines) && PeerAt(t.machines, node, i, p) && mac in InterfaceMacs(p.1)
    ensures mac in ExpectedMacs(PlanFor(t, node, i)) <==> Probed(t.bmcRule, node, p)
  {
    var plan, ps := PlanFor(t, node, i), SegmentPeers(node, i, t.machines);
    if mac in ExpectedMacs(plan) {
      var info :| info in plan.expected && mac in info.macs;
      ExpectedMembers(t.bmcRule, node, i, ps, info);
      var q :| q in ps && Probed(t.bmcRule, node, q) && info == Info(q.0, q.1);
      SegmentPeersMembers(node, i, t.machines, q);
      SameOwner(t.machines, node, i, p, q, mac);
    }
    if Probed(t.bmcRule, node, p) {
      SegmentPeersMembers(node, i, t.machines, p);
      ExpectedMembers(t.bmcRule, node, i, ps, Info(p.0, p.1));
    }
  }

  lemma RecognizedMac(t: Topology, node: Machine, i: Interface, p: Peer, mac: string)
    requires MacsOwned(t.machines) && PeerAt(t.machines, node, i, p) && mac in InterfaceMacs(p.1)
    ensures mac in PlanFor(t, node, i).outOfScope <==> Recognized(t.bmcRule, node, p)
    ensures mac in PlanFor(t, node, i).forbidden <==> Forbidden(t.bmcRule, node, p)
  {
    var ps := SegmentPeers(node, i, t.machines);
    OutOfScopeMembers(t.bmcRule, node, i, ps, mac);
    ForbiddenMembers(t.bmcRule, node, i, ps, mac);
    SegmentPeersMembers(node, i, t.machines, p);
    forall q | q in ps && mac in InterfaceMacs(q.1) ensures q == p {
      SegmentPeersMembers(node, i, t.machines, q);
      SameOwner(t.machines, node, i, p, q, mac);
    }
  }

  lemma ListedMac(t: Topology, node: Machine, i: Interface, p: Peer, mac: string)
    requires MacsOwned(t.machines) && PeerAt(t.machines, node, i, p) && mac in InterfaceMacs(p.1)
    ensures var plan := PlanFor(t, node, i);
      && (mac in ExpectedMacs(plan) <==> Probed(t.bmcRule, node, p))
      && (mac in plan.outOfScope <==> Recognized(t.bmcRule, node, p))
      && (mac in plan.forbidden <==> Forbidden(t.bmcRule, node, p))
  {
    ProbedMac(t, node, i, p, mac);
    RecognizedMac(t, node, i, p, mac);
  }

  /** A MAC in any of the three sets belongs to some peer on the segment. */
  lemma MacHasPeer(t: Topology, node: Machine, i: Interface, mac: string)
    requires var plan := PlanFor(t, node, i);
      mac in ExpectedMacs(plan) || mac in plan.outOfScope || mac in plan.forbidden
    ensures exists p :: PeerAt(t.machines, node, i, p) && mac in InterfaceMacs(p.1)
  {
    var plan, ps := PlanFor(t, node, i), SegmentPeers(node, i, t.machines);
    forall p ensures p in ps <==> PeerAt(t.machines, node, i, p) { SegmentPeersMembers(node, i, t.machines, p); }
    OutOfScopeMembers(t.bmcRule, node, i, ps, mac);
    ForbiddenMembers(t.bmcRule, node, i, ps, mac);
    if info :| info in plan.expected && mac in info.macs {
      ExpectedMembers(t.bmcRule, node, i, ps, info);
    }
  }

  /** A MAC is never probed and recognized, probed and forbidden, or recognized
      and forbidden on the same interface. */
  lemma SetsDisjoint(t: Topology, node: Machine, i: Interface)
    requires MacsOwned(t.machines)
    ensures var plan := PlanFor(t, node, i);
      ExpectedMacs(plan) !! plan.outOfScope.Keys !! plan.forbidden.Keys
  {
    var plan := PlanFor(t, node, i);
    forall mac | mac in plan.outOfScope || mac in plan.forbidden || mac in ExpectedMacs(plan)
      ensures !(mac in ExpectedMacs(plan) && mac in plan.outOfScope)
      ensures !(mac in ExpectedMacs(plan) && mac in plan.forbidden)
      ensures !(mac in plan.outOfScope && mac in plan.forbidden)
    {
      MacHasPeer(t, node, i, mac);
      var p :| PeerAt(t.machines, node, i, p) && mac in InterfaceMacs(p.1);
      ListedMac(t, node, i, p, mac);
    }
  }

  /** On a segment the node shares with another machine it lists all of that
      machine's MACs or none, as the rule allows the two to be neighbours or not. */
  lemma AllOrNone(t: Topology, node: Machine, m: Machine, i: Interface, pi: Interface)
    requires MacsOwned(t.machines) && PeerAt(t.machines, node, i, (m, pi))
    ensures AdjacencyAllowed(t.bmcRule, node, m) ==> InterfaceMacs(pi) <= ListedMacs(t, node, i)
    ensures !AdjacencyAllowed(t.bmcRule, node, m) ==> InterfaceMacs(pi) !! ListedMacs(t, node, i)
  {
    forall mac | mac in InterfaceMacs(pi)
      ensures mac in ListedMacs(t, node, i) <==> AdjacencyAllowed(t.bmcRule, node, m)
    {
      ListedMac(t, node, i, (m, pi), mac);
    }
  }

  /** The two universes agree: for an in-scope node and another machine, either
      the report expects an edge and the node lists that machine's MACs on every
      segment they share, or it expects none and the node lists them on none. */
  lemma UniversesAgree(t: Topology, node: Machine, m: Machine)
    requires UniqueIds(t.machines) && MacsOwned(t.machines)
    requires node in t.machines && node.inScope && m in t.machines && m != node
    ensures var edge := Edge(node, m) in Edges(t.bmcRule, t.machines) || Edge(m, node) in Edges(t.bmcRule, t.machines);
      (edge <==> ListedEverywhere(t, node, m)) && (!edge <==> ListedNowhere(t, node, m))
  {
    EdgeBetween(t.bmcRule, t.machines, node, m);
    if m.systemId == node.systemId { SameIdSameMachine(t.machines, m, node); }
    forall i, pi | i in node.interfaces && pi in m.interfaces && SameSegment(pi, i)
      ensures AdjacencyAllowed(t.bmcRule, node, m) ==> InterfaceMacs(pi) <= ListedMacs(t, node, i)
      ensures !AdjacencyAllowed(t.bmcRule, node, m) ==> InterfaceMacs(pi) !! ListedMacs(t, node, i)
    {
      assert PeerAt(t.machines, node, i, (m, pi));
      AllOrNone(t, node, m, i, pi);
    }
    if ShareSegment(node, m) {
      var i, pi :| i in node.interfaces && pi in m.interfaces && SameSegment(i, pi);
      assert SameSegment(pi, i) && Lower(pi.mac) in InterfaceMacs(pi);
    }
    assert forall i, pi :: i in node.interfaces && pi in m.interfaces && SameSegment(pi, i) ==> SameSegment(i, pi);
  }

  /** If one node's plan forbids the other machine, the other's plan forbids
      the node; the same for being probed or recognized. */
  lemma ForbiddingSymmetric(t: Topology, a: Machine, b: Machine, ia: Interface, ib: Interface)
    requires a in t.machines && b in t.machines && a.systemId != b.systemId
    requires ia in a.interfaces && ib in b.interfaces && SameSegment(ia, ib)
    requires MacsOwned(t.machines)
    ensures Lower(ib.mac) in PlanFor(t, a, ia).forbidden <==> Lower(ia.mac) in PlanFor(t, b, ib).forbidden
  {
    ListedMac(t, a, ia, (b, ib), Lower(ib.mac));
    ListedMac(t, b, ib, (a, ia), Lower(ia.mac));
  }

  // ----- dropping machines --------------------------------------------------

  lemma {:induction false} OnSegmentNone(i: Interface, m: Machine, pis: seq<Interface>)
    requires forall pi :: pi in pis ==> !SameSegment(pi, i)
    ensures OnSegment(i, m, pis) == []
  {
    if pis != [] { OnSegmentNone(i, m, pis[1..]); }
  }

  lemma {:induction false} SegmentPeersKeep(keep: Machine -> bool, node: Machine, i: Interface, ms: seq<Machine>)
    requires forall m, pi :: m in ms && !keep(m) && pi in m.interfaces ==> !SameSegment(pi, i)
    ensures SegmentPeers(node, i, Keep(keep, ms)) == SegmentPeers(node, i, ms)
  {
    if ms != [] {
      SegmentPeersKeep(keep, node, i, ms[1..]);
      if keep(ms[0]) {
        assert ([ms[0]] + Keep(keep, ms[1..]))[1..] == Keep(keep, ms[1..]);
      } else {
        assert Keep(keep, ms) == Keep(keep, ms[1..]);
        OnSegmentNone(i, ms[0], ms[0].interfaces);
      }
    }
  }

  /** Dropping machines that share no segment with the node leaves its plans
      unchanged, order included. */
  lemma PlansKeep(keep: Machine -> bool, t: Topology, node: Machine)
    requires forall m :: m in t.machines && !keep(m) ==> !ShareSegment(node, m)
    ensures PlansFor(t.(machines := Keep(keep, t.machines)), node) == PlansFor(t, node)
  {
    forall k | 0 <= k < |node.interfaces|
      ensures PlansFor(t.(machines := Keep(keep, t.machines)), node)[k] == PlansFor(t, node)[k]
    {
      var i := node.interfaces[k];
      forall m, pi | m in t.machines && !keep(m) && pi in m.interfaces ensures !SameSegment(pi, i) {
        assert !ShareSegment(node, m);
        assert i in node.interfaces && !SameSegment(i, pi);
      }
      SegmentPeersKeep(keep, node, i, t.machines);
    }
  }
}
