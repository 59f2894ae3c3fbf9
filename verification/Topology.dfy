/** The topology document: machines, their interfaces, and the reachability
    rules every component reads. */
module Topology {
  import opened Order

  datatype Role = RackController | BmcOam | Data
  datatype FabricClass = Management | DataFabric

  /** `ip` and `gatewayIp` are None or "" when absent; both read as false. */
  datatype Interface = Interface(
    name: string, mac: string, memberMacs: seq<string>,
    fabric: string, fabricClass: FabricClass, vlanTag: Option<int>,
    ip: Option<string>, gatewayIp: Option<string>)

  datatype Machine = Machine(
    systemId: string, hostname: string, rack: string, role: Role, inScope: bool,
    interfaces: seq<Interface>)

  /** Parameters of the bmc-oam-restricted rule. */
  datatype BmcRule = BmcRule(allowedPeerRoles: set<Role>, sameRackOnly: bool)

  /** One selection block of the cross-rack-data-routing rule. */
  datatype Selection = Selection(strategy: string, field: string, inScope: bool)

  datatype CrossRackRule = CrossRackRule(
    applicableRole: Role, source: Selection, target: Selection, fallback: Selection)

  datatype Topology = Topology(
    machines: seq<Machine>, bmcRule: BmcRule, crossRackRule: Option<CrossRackRule>)

  predicate Truthy(s: Option<string>) { s.Some? && s.value != "" }

  /** Machines are told apart by system_id. */
  ghost predicate UniqueIds(ms: seq<Machine>) {
    forall i, j :: 0 <= i < j < |ms| ==> ms[i].systemId != ms[j].systemId
  }

  lemma SameIdSameMachine(ms: seq<Machine>, a: Machine, b: Machine)
    requires UniqueIds(ms) && a in ms && b in ms && a.systemId == b.systemId
    ensures a == b
  {
    var i :| 0 <= i < |ms| && ms[i] == a;
    var j :| 0 <= j < |ms| && ms[j] == b;
  }

  // ----- adjacency ----------------------------------------------------------

  predicate SameSegment(a: Interface, b: Interface) {
    a.fabric == b.fabric && a.vlanTag == b.vlanTag
  }

  /** Some interface of one machine is on the segment of one of the other's. */
  predicate ShareSegment(a: Machine, b: Machine) {
    exists ia, ib :: ia in a.interfaces && ib in b.interfaces && SameSegment(ia, ib)
  }

  /** What the rule says about a bmc-oam machine `self` next to `other`. */
  predicate Tolerates(rule: BmcRule, self: Machine, other: Machine) {
    self.role == BmcOam ==>
      other.role in rule.allowedPeerRoles && (rule.sameRackOnly ==> other.rack == self.rack)
  }

  predicate AdjacencyAllowed(rule: BmcRule, a: Machine, b: Machine) {
    Tolerates(rule, a, b) && Tolerates(rule, b, a)
  }

  /** An adjacency is ruled out exactly by a bmc-oam machine on one side of it
      that may not have the other's role, or not its rack, for a neighbour. */
  lemma AdjacencyMeaning(rule: BmcRule, a: Machine, b: Machine)
    ensures !AdjacencyAllowed(rule, a, b) <==>
      || (a.role == BmcOam && (b.role !in rule.allowedPeerRoles || (rule.sameRackOnly && a.rack != b.rack)))
      || (b.role == BmcOam && (a.role !in rule.allowedPeerRoles || (rule.sameRackOnly && a.rack != b.rack)))
  {
  }

  /** Machines share a segment exactly when they have interfaces on one fabric
      with one VLAN tag, or both untagged. */
  lemma SegmentMeaning(a: Machine, b: Machine)
    ensures ShareSegment(a, b) <==>
      exists i, j :: i in a.interfaces && j in b.interfaces && (i.fabric, i.vlanTag) == (j.fabric, j.vlanTag)
  {
    if i, j :| i in a.interfaces && j in b.interfaces && (i.fabric, i.vlanTag) == (j.fabric, j.vlanTag) {
      assert SameSegment(i, j);
    }
  }

  lemma TruthyMeaning(s: Option<string>)
    ensures Truthy(s) <==> s !in {None, Some("")}
  {
  }

  predicate SchemaSelection(s: Selection, strategy: string) {
    s.strategy == strategy && s.field == "system_id" && s.inScope
  }

  /** The rule parameters the topology schema admits. */
  predicate SchemaRule(r: CrossRackRule) {
    && r.applicableRole == Data
    && SchemaSelection(r.source, "lexicographic-lowest")
    && SchemaSelection(r.target, "lexicographic-lowest")
    && SchemaSelection(r.fallback, "next-lexicographic")
  }

  predicate SchemaTopology(t: Topology) {
    t.crossRackRule.Some? && SchemaRule(t.crossRackRule.value)
  }
}
