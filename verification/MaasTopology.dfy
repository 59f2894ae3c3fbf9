/** Building the topology document from MAAS payloads (cli/maas_topology.py):
    roles, racks, scope, and the pruning of machines no check needs. */
module MaasTopology {
  import opened Order
  import opened Topology
  import opened Representatives
  import opened L2Edges
  import opened PeerSets

  // ----- MAAS payloads ------------------------------------------------------

  datatype Vlan = Vlan(fabric: string, vid: Option<int>, primaryRack: Option<string>)
  datatype Subnet = Subnet(cidr: string, gatewayIp: Option<string>)
  datatype Link = Link(subnet: Option<Subnet>, mode: string, ip: Option<string>)
  datatype RawInterface = RawInterface(
    id: int, name: string, kind: string, mac: string, vlan: Option<Vlan>, links: seq<Link>, parents: seq<string>)
  datatype RawNode = RawNode(
    systemId: string, hostname: string, status: string, interfaces: seq<RawInterface>, bootInterface: Option<int>)

  datatype Scope = AllReady | Racks(names: set<string>) | Nodes(keys: seq<string>) | UnknownMode
  datatype Selected = Ids(ids: set<string>) | MaasError
  datatype Built = Document(topology: Topology) | BuildError

  // ----- derivation helpers -------------------------------------------------

  function InterfaceFabric(i: RawInterface): string {
    if i.vlan.Some? then i.vlan.value.fabric else ""
  }

  function ManagementFabrics(controllers: seq<RawNode>): set<string> {
    set c, i | c in controllers && i in c.interfaces && InterfaceFabric(i) != "" :: InterfaceFabric(i)
  }

  function Hostnames(controllers: seq<RawNode>): map<string, string> {
    if controllers == [] then map[]
    else
      var last := controllers[|controllers| - 1];
      Hostnames(controllers[..|controllers| - 1])[last.systemId := last.hostname]
  }

  function BootInterfaces(node: RawNode, s: seq<RawInterface>): seq<RawInterface> {
    if s == [] then []
    else (if Some(s[0].id) == node.bootInterface then [s[0]] else []) + BootInterfaces(node, s[1..])
  }

  function RackFrom(s: seq<RawInterface>, rcs: map<string, string>): Option<string> {
    if s == [] then None
    else if s[0].vlan.Some? && s[0].vlan.value.primaryRack.Some? && s[0].vlan.value.primaryRack.value in rcs
      then Some(rcs[s[0].vlan.value.primaryRack.value])
    else RackFrom(s[1..], rcs)
  }

  /** Hostname of the primary rack controller of the boot VLAN, of any VLAN, or
      the only one. */
  ghost function MachineRack(node: RawNode, rcs: map<string, string>): string {
    match RackFrom(BootInterfaces(node, node.interfaces) + node.interfaces, rcs)
    case Some(rack) => rack
    case None =>
      if |rcs| == 1 then var id :| id in rcs; rcs[id] else ""
  }

  /** The VLAN of the interface has a registered primary rack controller. */
  predicate NamesController(i: RawInterface, rcs: map<string, string>) {
    i.vlan.Some? && i.vlan.value.primaryRack.Some? && i.vlan.value.primaryRack.value in rcs
  }

  function Naming(rcs: map<string, string>): RawInterface -> bool { (i: RawInterface) => NamesController(i, rcs) }

  function NamingAtBoot(node: RawNode, rcs: map<string, string>): RawInterface -> bool {
    (i: RawInterface) => Some(i.id) == node.bootInterface && NamesController(i, rcs)
  }

  /** Interface `k` is the first of these that `p` holds of. */
  predicate IsFirst(p: RawInterface -> bool, s: seq<RawInterface>, k: nat) {
    k < |s| && p(s[k]) && forall j :: 0 <= j < k ==> !p(s[j])
  }

  lemma BootRackStep(node: RawNode, s: seq<RawInterface>, rcs: map<string, string>)
    requires s != []
    ensures RackFrom(BootInterfaces(node, s), rcs) ==
      if NamingAtBoot(node, rcs)(s[0]) then Some(rcs[s[0].vlan.value.primaryRack.value])
      else RackFrom(BootInterfaces(node, s[1..]), rcs)
  {
    var rest := BootInterfaces(node, s[1..]);
    assert [] + rest == rest && ([s[0]] + rest)[1..] == rest;
  }

  lemma {:induction false} BootRack(node: RawNode, s: seq<RawInterface>, rcs: map<string, string>, k: nat)
    requires IsFirst(NamingAtBoot(node, rcs), s, k)
    ensures RackFrom(BootInterfaces(node, s), rcs) == Some(rcs[s[k].vlan.value.primaryRack.value])
  {
    BootRackStep(node, s, rcs);
    if k > 0 {
      assert !NamingAtBoot(node, rcs)(s[0]);
      BootRack(node, s[1..], rcs, k - 1);
    }
  }

  lemma {:induction false} NoBootRack(node: RawNode, s: seq<RawInterface>, rcs: map<string, string>)
    requires forall i :: i in s ==> !NamingAtBoot(node, rcs)(i)
    ensures RackFrom(BootInterfaces(node, s), rcs) == None
  {
    if s != [] {
      BootRackStep(node, s, rcs);
      assert s[0] in s;
      NoBootRack(node, s[1..], rcs);
    }
  }

  lemma {:induction false} FirstRack(s: seq<RawInterface>, rcs: map<string, string>, k: nat)
    requires IsFirst(Naming(rcs), s, k)
    ensures RackFrom(s, rcs) == Some(rcs[s[k].vlan.value.primaryRack.value])
  {
    if k > 0 {
      assert !Naming(rcs)(s[0]);
      FirstRack(s[1..], rcs, k - 1);
    }
  }

  lemma {:induction false} NoRack(s: seq<RawInterface>, rcs: map<string, string>)
    requires forall i :: i in s ==> !Naming(rcs)(i)
    ensures RackFrom(s, rcs) == None
  {
    if s != [] {
      assert s[0] in s;
      NoRack(s[1..], rcs);
    }
  }

  lemma {:induction false} RackFromConcat(a: seq<RawInterface>, b: seq<RawInterface>, rcs: map<string, string>)
    ensures RackFrom(a + b, rcs) == if RackFrom(a, rcs).Some? then RackFrom(a, rcs) else RackFrom(b, rcs)
  {
    if a == [] {
      assert a + b == b;
    } else {
      assert (a + b)[1..] == a[1..] + b;
      RackFromConcat(a[1..], b, rcs);
    }
  }

  /** The rack of a machine: the hostname of the controller that the first boot
      interface to name a registered one names; without such an interface, the
      one that the first interface to name one names; without any, the only
      registered controller's; and "" when there are several or none. */
  ghost predicate IsMachineRack(node: RawNode, rcs: map<string, string>, rack: string) {
    var s := node.interfaces;
    && (forall k: nat :: IsFirst(NamingAtBoot(node, rcs), s, k) ==> rack == rcs[s[k].vlan.value.primaryRack.value])
    && ((forall i :: i in s ==> !NamingAtBoot(node, rcs)(i)) ==>
          forall k: nat :: IsFirst(Naming(rcs), s, k) ==> rack == rcs[s[k].vlan.value.primaryRack.value])
    && ((forall i :: i in s ==> !Naming(rcs)(i)) ==>
          && (|rcs| == 1 ==> forall id :: id in rcs ==> rack == rcs[id])
          && (|rcs| != 1 ==> rack == ""))
  }

  /** The derivation yields that rack, and it is the only one there is. */
  lemma MachineRackMeaning(node: RawNode, rcs: map<string, string>, rack: string)
    ensures IsMachineRack(node, rcs, rack) <==> rack == MachineRack(node, rcs)
  {
    var s := node.interfaces;
    var boot, any := NamingAtBoot(node, rcs), Naming(rcs);
    RackFromConcat(BootInterfaces(node, s), s, rcs);
    if i :| i in s && boot(i) {
      var k := FirstOf(boot, s);
      BootRack(node, s, rcs, k);
      assert s[k] in s && any(s[k]);
    } else {
      NoBootRack(node, s, rcs);
      if i :| i in s && any(i) {
        var k := FirstOf(any, s);
        FirstRack(s, rcs, k);
      } else {
        NoRack(s, rcs);
        if |rcs| == 1 { OnlyKey(rcs); }
      }
    }
  }

  lemma {:induction false} FirstOf(p: RawInterface -> bool, s: seq<RawInterface>) returns (k: nat)
    requires exists i :: i in s && p(i)
    ensures IsFirst(p, s, k)
    ensures forall l: nat :: IsFirst(p, s, l) ==> l == k
  {
    if p(s[0]) {
      k := 0;
    } else {
      var i :| i in s && p(i);
      assert i in s[1..];
      var l := FirstOf(p, s[1..]);
      k := l + 1;
      assert IsFirst(p, s, k);
    }
    forall l: nat | IsFirst(p, s, l) ensures l == k { assert !(l < k) && !(k < l); }
  }

  method ComputeMachineRack(node: RawNode, rcs: map<string, string>) returns (rack: string)
    ensures rack == MachineRack(node, rcs) && IsMachineRack(node, rcs, rack)
  {
    MachineRackMeaning(node, rcs, MachineRack(node, rcs));
    var found := RackFrom(BootInterfaces(node, node.interfaces) + node.interfaces, rcs);
    if found.Some? { return found.value; }
    if |rcs| == 1 {
      var id :| id in rcs;
      OnlyKey(rcs);
      return rcs[id];
    }
    rack := "";
  }

  lemma OnlyKey(m: map<string, string>)
    requires |m| == 1
    ensures forall a, b :: a in m && b in m ==> a == b
  {
    forall a, b | a in m && b in m ensures a == b {
      assert |m.Keys| == 1;
      assert m.Keys == {a} + (m.Keys - {a});
      assert |m.Keys - {a}| == 0;
    }
  }

  function ClassOf(i: RawInterface, management: set<string>): FabricClass {
    if InterfaceFabric(i) in management then Management else DataFabric
  }

  /** data with any data-fabric interface, bmc-oam with management only, None
      when no interface has a fabric. */
  function DeriveRole(node: RawNode, management: set<string>): Option<Role> {
    var classes := set i | i in node.interfaces && InterfaceFabric(i) != "" :: ClassOf(i, management);
    if DataFabric in classes then Some(Data)
    else if classes == {Management} then Some(BmcOam)
    else None
  }

  function BondMemberNames(s: seq<RawInterface>): set<string> {
    set i, p | i in s && i.kind == "bond" && p in i.parents :: p
  }

  function FirstAddressed(links: seq<Link>): Option<Link> {
    if links == [] then None
    else if links[0].subnet.Some? && links[0].mode != "link_up" then Some(links[0])
    else FirstAddressed(links[1..])
  }

  /** The MAC of the last interface of that name, "" when there is none. */
  function MacNamed(name: string, s: seq<RawInterface>): string {
    if s == [] then ""
    else if s[|s| - 1].name == name then s[|s| - 1].mac
    else MacNamed(name, s[..|s| - 1])
  }

  function MemberMacs(names: seq<string>, s: seq<RawInterface>): seq<string> {
    if names == [] then [] else [MacNamed(names[0], s)] + MemberMacs(names[1..], s)
  }

  function BuildInterface(i: RawInterface, s: seq<RawInterface>, management: set<string>): Interface
    requires i.vlan.Some?
  {
    var link := FirstAddressed(i.links);
    var ip := if link.Some? && Truthy(link.value.ip) then link.value.ip else None;
    var gateway := if link.Some? && link.value.subnet.Some? then link.value.subnet.value.gatewayIp else None;
    Interface(i.name, i.mac, if i.kind == "bond" then MemberMacs(i.parents, s) else [],
      i.vlan.value.fabric, ClassOf(i, management), i.vlan.value.vid, ip, gateway)
  }

  predicate Recorded(i: RawInterface, members: set<string>) {
    i.kind in {"physical", "bond", "vlan"} && i.name !in members && i.vlan.Some?
  }

  function BuildInterfaces(todo: seq<RawInterface>, s: seq<RawInterface>, management: set<string>): seq<Interface> {
    if todo == [] then []
    else
      (if Recorded(todo[0], BondMemberNames(s)) then [BuildInterface(todo[0], s, management)] else [])
      + BuildInterfaces(todo[1..], s, management)
  }

  function BuildMachine(node: RawNode, role: Role, rack: string, inScope: bool, management: set<string>): Machine {
    Machine(node.systemId, node.hostname, rack, role, inScope,
      BuildInterfaces(node.interfaces, node.interfaces, management))
  }

  // ----- scope --------------------------------------------------------------

  function Ready(ms: seq<RawNode>): set<string> {
    set m | m in ms && m.status == "Ready" :: m.systemId
  }

  /** The last machine with that system_id or hostname. */
  function ByKey(ms: seq<RawNode>, key: string): Option<RawNode> {
    if ms == [] then None
    else if ms[|ms| - 1].systemId == key || ms[|ms| - 1].hostname == key then Some(ms[|ms| - 1])
    else ByKey(ms[..|ms| - 1], key)
  }

  ghost predicate ReadyNode(ms: seq<RawNode>, key: string) {
    ByKey(ms, key).Some? && ByKey(ms, key).value.systemId in Ready(ms)
  }

  function IdsOfKeys(ms: seq<RawNode>, keys: seq<string>): set<string> {
    if keys == [] then {}
    else
      var node := ByKey(ms, keys[|keys| - 1]);
      IdsOfKeys(ms, keys[..|keys| - 1]) + if node.Some? then {node.value.systemId} else {}
  }

  ghost function ScopedIds(ms: seq<RawNode>, scope: Scope, rcs: map<string, string>): Selected {
    match scope
    case AllReady => Ids(Ready(ms))
    case Racks(names) =>
      if names <= rcs.Values
        then Ids(set m | m in ms && m.systemId in Ready(ms) && RackById(ms, m.systemId, rcs) in names :: m.systemId)
        else MaasError
    case Nodes(keys) =>
      if forall k :: k in keys ==> ReadyNode(ms, k)
        then Ids(IdsOfKeys(ms, keys))
        else MaasError
    case UnknownMode => MaasError
  }

  /** `racks[sid]`: the last machine with that id decides. */
  ghost function RackById(ms: seq<RawNode>, sid: string, rcs: map<string, string>): string {
    if ms == [] then ""
    else if ms[|ms| - 1].systemId == sid then MachineRack(ms[|ms| - 1], rcs)
    else RackById(ms[..|ms| - 1], sid, rcs)
  }

  function RoleById(ms: seq<RawNode>, sid: string, management: set<string>): Option<Role> {
    if ms == [] then None
    else if ms[|ms| - 1].systemId == sid then DeriveRole(ms[|ms| - 1], management)
    else RoleById(ms[..|ms| - 1], sid, management)
  }

  method SelectInScope(
    ms: seq<RawNode>, racks: map<string, string>, scope: Scope, rcs: map<string, string>) returns (r: Selected)
    requires racks.Keys == set m | m in ms :: m.systemId
    requires forall sid :: sid in racks ==> racks[sid] == RackById(ms, sid, rcs)
    ensures r == ScopedIds(ms, scope, rcs)
  {
    var ready := Ready(ms);
    match scope {
      case AllReady => r := Ids(ready);
      case Racks(names) =>
        if !(names <= rcs.Values) { return MaasError; }
        r := Ids(set sid | sid in ready && sid in racks && racks[sid] in names);
        ghost var want :=
          set m | m in ms && m.systemId in Ready(ms) && RackById(ms, m.systemId, rcs) in names :: m.systemId;
        assert r.ids == want;
      case Nodes(keys) =>
        var selected: set<string> := {};
        for i := 0 to |keys|
          invariant forall k :: k in keys[..i] ==> ReadyNode(ms, k)
          invariant selected == IdsOfKeys(ms, keys[..i])
        {
          var node := ByKey(ms, keys[i]);
          assert keys[i] in keys;
          if node.None? { return MaasError; }
          if node.value.systemId !in ready { return MaasError; }
          selected := selected + {node.value.systemId};
          assert keys[..i + 1][..i] == keys[..i];
          assert keys[..i + 1] == keys[..i] + [keys[i]];
        }
        assert keys[..|keys|] == keys;
        r := Ids(selected);
      case UnknownMode => r := MaasError;
    }
  }

  // ----- pruning ------------------------------------------------------------

  type Segment = (string, Option<int>)

  function Segments(node: RawNode): set<Segment> {
    set i | i in node.interfaces && i.vlan.Some? :: (i.vlan.value.fabric, i.vlan.value.vid)
  }

  function InScopeSegments(ms: seq<RawNode>, ids: set<string>): set<Segment> {
    set m, g | m in ms && m.systemId in ids && g in Segments(m) :: g
  }

  predicate IsRetained(ms: seq<RawNode>, ids: set<string>, management: set<string>, m: RawNode) {
    m.systemId !in ids
    && (RoleById(ms, m.systemId, management) == Some(Data) || Segments(m) * InScopeSegments(ms, ids) != {})
  }

  function Retained(ms: seq<RawNode>, ids: set<string>, management: set<string>): set<string> {
    set m | m in ms && IsRetained(ms, ids, management, m) :: m.systemId
  }

  /** The (fabric, VLAN) pairs of one machine. */
  method CollectSegments(node: RawNode) returns (segments: set<Segment>)
    ensures segments == Segments(node)
  {
    segments := {};
    var ifs := node.interfaces;
    for x := 0 to |ifs|
      invariant segments == set i | i in ifs[..x] && i.vlan.Some? :: (i.vlan.value.fabric, i.vlan.value.vid)
    {
      assert ifs[..x + 1] == ifs[..x] + [ifs[x]];
      if ifs[x].vlan.Some? {
        segments := segments + {(ifs[x].vlan.value.fabric, ifs[x].vlan.value.vid)};
      }
    }
    assert ifs[..|ifs|] == ifs;
  }

  method CollectInScopeSegments(ms: seq<RawNode>, ids: set<string>) returns (segments: set<Segment>)
    ensures segments == InScopeSegments(ms, ids)
  {
    segments := {};
    for k := 0 to |ms|
      invariant segments == InScopeSegments(ms[..k], ids)
    {
      assert ms[..k + 1] == ms[..k] + [ms[k]];
      if ms[k].systemId in ids {
        var more := CollectSegments(ms[k]);
        segments := segments + more;
      }
    }
    assert ms[..|ms|] == ms;
  }

  /** Some interface of the machine is on one of the segments. */
  method Touches(node: RawNode, segments: set<Segment>) returns (touches: bool)
    ensures touches <==> Segments(node) * segments != {}
  {
    var ifs := node.interfaces;
    for x := 0 to |ifs|
      invariant forall y :: 0 <= y < x ==>
        !(ifs[y].vlan.Some? && (ifs[y].vlan.value.fabric, ifs[y].vlan.value.vid) in segments)
    {
      if ifs[x].vlan.Some? && (ifs[x].vlan.value.fabric, ifs[x].vlan.value.vid) in segments {
        assert (ifs[x].vlan.value.fabric, ifs[x].vlan.value.vid) in Segments(node) * segments;
        return true;
      }
    }
    assert Segments(node) * segments == {};
    return false;
  }

  method RetainedPeers(
    ms: seq<RawNode>, roles: map<string, Option<Role>>, ids: set<string>, ghost management: set<string>)
    returns (retained: set<string>)
    requires forall m :: m in ms ==> m.systemId in roles && roles[m.systemId] == RoleById(ms, m.systemId, management)
    ensures retained == Retained(ms, ids, management)
  {
    var segments := CollectInScopeSegments(ms, ids);
    retained := {};
    for k := 0 to |ms|
      invariant retained == set m | m in ms[..k] && IsRetained(ms, ids, management, m) :: m.systemId
    {
      assert ms[..k + 1] == ms[..k] + [ms[k]];
      assert ms[k] in ms;
      var sid := ms[k].systemId;
      if sid in ids { continue; }
      if roles[sid] == Some(Data) {
        retained := retained + {sid};
        continue;
      }
      var touches := Touches(ms[k], segments);
      if touches {
        retained := retained + {sid};
      }
    }
    assert ms[..|ms|] == ms;
  }

  // ----- the document -------------------------------------------------------

  const MODEL_BMC_RULE := BmcRule({RackController}, true)

  const MODEL_CROSS_RACK_RULE := CrossRackRule(
    Data,
    Selection("lexicographic-lowest", "system_id", true),
    Selection("lexicographic-lowest", "system_id", true),
    Selection("next-lexicographic", "system_id", true))

  function IdOf(m: Machine): string { m.systemId }

  function ControllerRecord(c: RawNode, management: set<string>): Machine {
    BuildMachine(c, RackController, c.hostname, false, management)
  }

  function ControllerRecords(cs: seq<RawNode>, management: set<string>): seq<Machine> {
    if cs == [] then []
    else ControllerRecords(cs[..|cs| - 1], management) + [ControllerRecord(cs[|cs| - 1], management)]
  }

  /** An unclassifiable machine is recorded as data. */
  ghost function MachineRecord(
    ms: seq<RawNode>, m: RawNode, rcs: map<string, string>, ids: set<string>, management: set<string>): Machine
  {
    var role := RoleById(ms, m.systemId, management);
    BuildMachine(
      m, if role.Some? then role.value else Data, RackById(ms, m.systemId, rcs), m.systemId in ids, management)
  }

  /** Records of the machines whose id is in `kept`. */
  ghost function MachineRecords(
    ms: seq<RawNode>, todo: seq<RawNode>, rcs: map<string, string>, ids: set<string>, management: set<string>,
    kept: set<string>): seq<Machine>
  {
    if todo == [] then []
    else
      MachineRecords(ms, todo[..|todo| - 1], rcs, ids, management, kept)
      + if todo[|todo| - 1].systemId in kept then [MachineRecord(ms, todo[|todo| - 1], rcs, ids, management)] else []
  }

  function Others(controllers: seq<RawNode>, ms: seq<RawNode>): seq<RawNode> {
    if ms == [] then []
    else (if ms[0].systemId in Hostnames(controllers) then [] else [ms[0]]) + Others(controllers, ms[1..])
  }

  function AllIds(ms: seq<RawNode>): set<string> { set m | m in ms :: m.systemId }

  /** The topology over the machines whose id is in `kept`. */
  ghost function TopologyOf(
    controllers: seq<RawNode>, ms: seq<RawNode>, ids: set<string>, kept: set<string>): Topology
  {
    var management, rcs := ManagementFabrics(controllers), Hostnames(controllers);
    Topology(
      SortBy(IdOf, ControllerRecords(controllers, management) + MachineRecords(ms, ms, rcs, ids, management, kept)),
      MODEL_BMC_RULE, Some(MODEL_CROSS_RACK_RULE))
  }

  /** The document the tool builds: only in-scope and retained machines. */
  ghost function Pruned(controllers: seq<RawNode>, machines: seq<RawNode>, ids: set<string>): Topology {
    var ms := Others(controllers, machines);
    TopologyOf(controllers, ms, ids, ids + Retained(ms, ids, ManagementFabrics(controllers)))
  }

  /** The same document over every machine, with the same in-scope flags. */
  ghost function Unpruned(controllers: seq<RawNode>, machines: seq<RawNode>, ids: set<string>): Topology {
    var ms := Others(controllers, machines);
    TopologyOf(controllers, ms, ids, AllIds(ms))
  }

  ghost function BuildSpec(controllers: seq<RawNode>, machines: seq<RawNode>, scope: Scope): Built {
    match ScopedIds(Others(controllers, machines), scope, Hostnames(controllers))
    case MaasError => BuildError
    case Ids(ids) => Document(Pruned(controllers, machines, ids))
  }

  lemma MapsStep(ms: seq<RawNode>, k: nat, sid: string, rcs: map<string, string>, management: set<string>)
    requires k < |ms|
    ensures AllIds(ms[..k + 1]) == AllIds(ms[..k]) + {ms[k].systemId}
    ensures RoleById(ms[..k + 1], sid, management)
            == if sid == ms[k].systemId then DeriveRole(ms[k], management) else RoleById(ms[..k], sid, management)
    ensures RackById(ms[..k + 1], sid, rcs)
            == if sid == ms[k].systemId then MachineRack(ms[k], rcs) else RackById(ms[..k], sid, rcs)
  {
    assert ms[..k + 1] == ms[..k] + [ms[k]] && ms[..k + 1][..k] == ms[..k];
  }

  /** `{m["system_id"]: f(m) for m in machines}` for the role and rack maps. */
  method RoleAndRackMaps(ms: seq<RawNode>, rcs: map<string, string>, management: set<string>)
    returns (roles: map<string, Option<Role>>, racks: map<string, string>)
    ensures roles.Keys == racks.Keys == AllIds(ms)
    ensures forall sid :: sid in roles ==> roles[sid] == RoleById(ms, sid, management)
    ensures forall sid :: sid in racks ==> racks[sid] == RackById(ms, sid, rcs)
  {
    roles, racks := map[], map[];
    for k := 0 to |ms|
      invariant roles.Keys == racks.Keys == AllIds(ms[..k])
      invariant forall sid :: sid in roles ==> roles[sid] == RoleById(ms[..k], sid, management)
      invariant forall sid :: sid in racks ==> racks[sid] == RackById(ms[..k], sid, rcs)
    {
      assert ms[..k + 1][..k] == ms[..k];
      forall sid ensures RoleById(ms[..k + 1], sid, management)
          == if sid == ms[k].systemId then DeriveRole(ms[k], management) else RoleById(ms[..k], sid, management) {
        MapsStep(ms, k, sid, rcs, management);
      }
      forall sid ensures RackById(ms[..k + 1], sid, rcs)
          == if sid == ms[k].systemId then MachineRack(ms[k], rcs) else RackById(ms[..k], sid, rcs) {
        MapsStep(ms, k, sid, rcs, management);
      }
      var rack := ComputeMachineRack(ms[k], rcs);
      roles := roles[ms[k].systemId := DeriveRole(ms[k], management)];
      racks := racks[ms[k].systemId := rack];
    }
    assert ms[..|ms|] == ms;
  }

  method BuildTopology(controllers: seq<RawNode>, machines: seq<RawNode>, scope: Scope) returns (r: Built)
    ensures r == BuildSpec(controllers, machines, scope)
  {
    var management, rcs := ManagementFabrics(controllers), Hostnames(controllers);
    var ms := Others(controllers, machines);
    var roles, racks := RoleAndRackMaps(ms, rcs, management);
    var selected := SelectInScope(ms, racks, scope, rcs);
    if selected.MaasError? { return BuildError; }
    var ids := selected.ids;
    var retained := RetainedPeers(ms, roles, ids, management);
    var records := BuildRecords(controllers, ms, roles, racks, ids, retained, management, rcs);
    r := Document(Topology(SortBy(IdOf, records), MODEL_BMC_RULE, Some(MODEL_CROSS_RACK_RULE)));
  }

  method BuildRecords(
    controllers: seq<RawNode>, ms: seq<RawNode>, roles: map<string, Option<Role>>, racks: map<string, string>,
    ids: set<string>, retained: set<string>, management: set<string>, ghost rcs: map<string, string>)
    returns (records: seq<Machine>)
    requires roles.Keys == racks.Keys == AllIds(ms)
    requires forall sid :: sid in roles ==> roles[sid] == RoleById(ms, sid, management)
    requires forall sid :: sid in racks ==> racks[sid] == RackById(ms, sid, rcs)
    ensures records == ControllerRecords(controllers, management)
      + MachineRecords(ms, ms, rcs, ids, management, ids + retained)
  {
    records := [];
    for k := 0 to |controllers|
      invariant records == ControllerRecords(controllers[..k], management)
    {
      assert controllers[..k + 1][..k] == controllers[..k];
      records := records + [ControllerRecord(controllers[k], management)];
    }
    assert controllers[..|controllers|] == controllers;
    ghost var first := records;
    for k := 0 to |ms|
      invariant records == first + MachineRecords(ms, ms[..k], rcs, ids, management, ids + retained)
    {
      OneMoreRecord(first, ms, k, rcs, ids, management, ids + retained);
      assert ms[k] in ms;
      var sid := ms[k].systemId;
      if sid !in ids && sid !in retained {
        continue;
      }
      var role := roles[sid];
      var known := if role.Some? then role.value else Data;
      records := records + [BuildMachine(ms[k], known, racks[sid], sid in ids, management)];
    }
    assert ms[..|ms|] == ms;
  }

  lemma OneMoreRecord(
    first: seq<Machine>, ms: seq<RawNode>, k: nat, rcs: map<string, string>, ids: set<string>,
    management: set<string>, kept: set<string>)
    requires k < |ms|
    ensures first + MachineRecords(ms, ms[..k + 1], rcs, ids, management, kept)
            == (first + MachineRecords(ms, ms[..k], rcs, ids, management, kept))
               + if ms[k].systemId in kept then [MachineRecord(ms, ms[k], rcs, ids, management)] else []
  {
    assert ms[..k + 1][..k] == ms[..k];
  }

  // ----- pruning preserves meaning ------------------------------------------

  /** Interfaces are only recorded on segments the machine has. */
  lemma {:induction false} RecordedSegments(
    todo: seq<RawInterface>, s: seq<RawInterface>, management: set<string>, i: Interface)
    requires i in BuildInterfaces(todo, s, management)
    ensures exists r :: r in todo && r.vlan.Some? && r.vlan.value.fabric == i.fabric && r.vlan.value.vid == i.vlanTag
  {
    if Recorded(todo[0], BondMemberNames(s)) && i == BuildInterface(todo[0], s, management) {
      assert todo[0] in todo;
    } else {
      RecordedSegments(todo[1..], s, management, i);
      var r :| r in todo[1..] && r.vlan.Some? && r.vlan.value.fabric == i.fabric && r.vlan.value.vid == i.vlanTag;
      assert r in todo;
    }
  }

  lemma {:induction false} ControllerRecordIds(cs: seq<RawNode>, management: set<string>, m: Machine)
    requires m in ControllerRecords(cs, management)
    ensures m.systemId in Hostnames(cs) && !m.inScope
  {
    var n := |cs| - 1;
    if m != ControllerRecord(cs[n], management) { ControllerRecordIds(cs[..n], management, m); }
  }

  lemma {:induction false} OthersAreNotControllers(cs: seq<RawNode>, ms: seq<RawNode>, m: RawNode)
    ensures m in Others(cs, ms) <==> m in ms && m.systemId !in Hostnames(cs)
  {
    if ms != [] { OthersAreNotControllers(cs, ms[1..], m); }
  }

  lemma {:induction false} MachineRecordSources(
    ms: seq<RawNode>, todo: seq<RawNode>, rcs: map<string, string>, ids: set<string>, management: set<string>,
    kept: set<string>, m: Machine)
    requires m in MachineRecords(ms, todo, rcs, ids, management, kept)
    ensures exists r :: r in todo && r.systemId in kept && m == MachineRecord(ms, r, rcs, ids, management)
  {
    var n := |todo| - 1;
    if m in MachineRecords(ms, todo[..n], rcs, ids, management, kept) {
      MachineRecordSources(ms, todo[..n], rcs, ids, management, kept, m);
      var r :| r in todo[..n] && r.systemId in kept && m == MachineRecord(ms, r, rcs, ids, management);
      assert r in todo;
    } else {
      assert todo[n] in todo;
    }
  }

  function IdIn(kept: set<string>): Machine -> bool { (m: Machine) => m.systemId in kept }

  lemma {:induction false} KeepAll<T>(p: T -> bool, s: seq<T>)
    requires forall x :: x in s ==> p(x)
    ensures Keep(p, s) == s
  {
    if s != [] {
      KeepAll(p, s[1..]);
      assert s == [s[0]] + s[1..];
    }
  }

  /** Building fewer records is keeping the records with those ids. */
  lemma {:induction false} RecordsKeep(
    ms: seq<RawNode>, todo: seq<RawNode>, rcs: map<string, string>, ids: set<string>, management: set<string>,
    kept: set<string>, all: set<string>, p: Machine -> bool)
    requires forall m :: m in todo ==> m.systemId in all
    requires forall m :: m in todo ==> (p(MachineRecord(ms, m, rcs, ids, management)) <==> m.systemId in kept)
    ensures MachineRecords(ms, todo, rcs, ids, management, kept) ==
      Keep(p, MachineRecords(ms, todo, rcs, ids, management, all))
  {
    if todo != [] {
      var n := |todo| - 1;
      var r := MachineRecord(ms, todo[n], rcs, ids, management);
      assert todo[n] in todo;
      RecordsKeep(ms, todo[..n], rcs, ids, management, kept, all, p);
      KeepConcat(p, MachineRecords(ms, todo[..n], rcs, ids, management, all), [r]);
      KeepSingle(p, r);
    }
  }

  /** The machines of the pruned document. */
  ghost function KeptIds(controllers: seq<RawNode>, machines: seq<RawNode>, ids: set<string>): set<string> {
    var ms := Others(controllers, machines);
    Hostnames(controllers).Keys + ids + Retained(ms, ids, ManagementFabrics(controllers))
  }

  lemma PrunedIsKept(controllers: seq<RawNode>, machines: seq<RawNode>, ids: set<string>)
    ensures Pruned(controllers, machines, ids).machines
            == Keep(IdIn(KeptIds(controllers, machines, ids)), Unpruned(controllers, machines, ids).machines)
  {
    var ms, management, rcs := Others(controllers, machines), ManagementFabrics(controllers), Hostnames(controllers);
    var kept := ids + Retained(ms, ids, management);
    var p := IdIn(KeptIds(controllers, machines, ids));
    var cs := ControllerRecords(controllers, management);
    var all := MachineRecords(ms, ms, rcs, ids, management, AllIds(ms));
    forall m | m in cs ensures p(m) { ControllerRecordIds(controllers, management, m); }
    KeepAll(p, cs);
    forall m | m in ms ensures p(MachineRecord(ms, m, rcs, ids, management)) <==> m.systemId in kept {
      OthersAreNotControllers(controllers, machines, m);
    }
    RecordsKeep(ms, ms, rcs, ids, management, kept, AllIds(ms), p);
    KeepConcat(p, cs, all);
    SortKeep(p, IdOf, cs + all);
  }

  /** A record of the full document is a controller's, or a machine's whose
      recorded segments are the machine's own. */
  lemma RecordSource(controllers: seq<RawNode>, machines: seq<RawNode>, ids: set<string>, m: Machine)
    requires m in Unpruned(controllers, machines, ids).machines
    ensures (m.systemId in Hostnames(controllers) && !m.inScope) || FromMachine(controllers, machines, ids, m)
  {
    var ms, management, rcs := Others(controllers, machines), ManagementFabrics(controllers), Hostnames(controllers);
    var others := MachineRecords(ms, ms, rcs, ids, management, AllIds(ms));
    SortByMember(IdOf, ControllerRecords(controllers, management) + others, m);
    if m in ControllerRecords(controllers, management) { ControllerRecordIds(controllers, management, m); }
    else { MachineRecordSources(ms, ms, rcs, ids, management, AllIds(ms), m); }
  }

  ghost predicate FromMachine(controllers: seq<RawNode>, machines: seq<RawNode>, ids: set<string>, m: Machine) {
    var ms := Others(controllers, machines);
    exists r :: r in ms && m == MachineRecord(ms, r, Hostnames(controllers), ids, ManagementFabrics(controllers))
  }

  lemma RecordSegment(m: Machine, r: RawNode, role: Role, rack: string, s: bool, management: set<string>, i: Interface)
    requires m == BuildMachine(r, role, rack, s, management) && i in m.interfaces
    ensures (i.fabric, i.vlanTag) in Segments(r)
  {
    RecordedSegments(r.interfaces, r.interfaces, management, i);
  }

  /** A dropped machine is out of scope and shares no segment with a machine in
      scope. */
  lemma DroppedIsIsolated(controllers: seq<RawNode>, machines: seq<RawNode>, ids: set<string>, m: Machine, n: Machine)
    requires m in Unpruned(controllers, machines, ids).machines && m.systemId !in KeptIds(controllers, machines, ids)
    requires n in Unpruned(controllers, machines, ids).machines && n.inScope
    ensures !m.inScope && !ShareSegment(m, n)
  {
    var ms, management := Others(controllers, machines), ManagementFabrics(controllers);
    RecordSource(controllers, machines, ids, m);
    RecordSource(controllers, machines, ids, n);
    var r :| r in ms && m == MachineRecord(ms, r, Hostnames(controllers), ids, management);
    var q :| q in ms && n == MachineRecord(ms, q, Hostnames(controllers), ids, management);
    assert !IsRetained(ms, ids, management, r);
    forall im, i | im in m.interfaces && i in n.interfaces ensures !SameSegment(im, i) {
      RecordSegment(m, r, m.role, m.rack, m.inScope, management, im);
      RecordSegment(n, q, n.role, n.rack, n.inScope, management, i);
      var g := (i.fabric, i.vlanTag);
      assert g in InScopeSegments(ms, ids);
      assert g in Segments(r) ==> g in Segments(r) * InScopeSegments(ms, ids);
    }
  }

  /** Pruning preserves meaning: the report's edges, every in-scope node's plans
      and the representative selection are the same, in the same order, as on
      the list of all machines with the same in-scope flags. */
  lemma PruningPreservesMeaning(controllers: seq<RawNode>, machines: seq<RawNode>, ids: set<string>)
    ensures var t, u := Pruned(controllers, machines, ids), Unpruned(controllers, machines, ids);
      && Edges(t.bmcRule, t.machines) == Edges(u.bmcRule, u.machines)
      && (forall n :: n in u.machines && n.inScope ==> n in t.machines && PlansFor(t, n) == PlansFor(u, n))
      && SelectionsOf(t) == SelectionsOf(u)
  {
    var t, u := Pruned(controllers, machines, ids), Unpruned(controllers, machines, ids);
    var p := IdIn(KeptIds(controllers, machines, ids));
    PrunedIsKept(controllers, machines, ids);
    assert t == u.(machines := Keep(p, u.machines));
    forall m, n | m in u.machines && n in u.machines && !p(m) ensures !IsExpected(u.bmcRule, m, n) {
      if n.inScope { DroppedIsIsolated(controllers, machines, ids, m, n); }
      else { DroppedOutOfScope(controllers, machines, ids, m); }
    }
    EdgesKeep(p, u.bmcRule, u.machines);
    forall n | n in u.machines && n.inScope ensures n in t.machines && PlansFor(t, n) == PlansFor(u, n) {
      KeepMember(p, u.machines, n);
      if !p(n) { DroppedOutOfScope(controllers, machines, ids, n); }
      forall m | m in u.machines && !p(m) ensures !ShareSegment(n, m) {
        DroppedIsIsolated(controllers, machines, ids, m, n);
        ShareSegmentSymmetric(m, n);
      }
      PlansKeep(p, u, n);
    }
    forall m | m in u.machines && !p(m) ensures !m.inScope { DroppedOutOfScope(controllers, machines, ids, m); }
    SelectionsKeep(p, u);
  }

  lemma DroppedOutOfScope(controllers: seq<RawNode>, machines: seq<RawNode>, ids: set<string>, m: Machine)
    requires m in Unpruned(controllers, machines, ids).machines && m.systemId !in KeptIds(controllers, machines, ids)
    ensures !m.inScope
  {
    RecordSource(controllers, machines, ids, m);
  }

  /** Whatever the scope, only Ready machines are selected. */
  lemma ScopeIsReady(ms: seq<RawNode>, scope: Scope, rcs: map<string, string>)
    requires ScopedIds(ms, scope, rcs).Ids?
    ensures ScopedIds(ms, scope, rcs).ids <= Ready(ms)
  {
    if scope.Nodes? { KeysAreReady(ms, scope.keys); }
  }

  lemma {:induction false} KeysAreReady(ms: seq<RawNode>, keys: seq<string>)
    requires forall k :: k in keys ==> ReadyNode(ms, k)
    ensures IdsOfKeys(ms, keys) <= Ready(ms)
  {
    if keys != [] {
      assert keys[|keys| - 1] in keys;
      KeysAreReady(ms, keys[..|keys| - 1]);
    }
  }

  // ----- a built document is one the other components expect ----------------

  /** MAAS tells its nodes apart by system_id. */
  ghost predicate DistinctIds(ns: seq<RawNode>) {
    forall i, j :: 0 <= i < j < |ns| ==> ns[i].systemId != ns[j].systemId
  }

  lemma {:induction false} OthersDistinct(cs: seq<RawNode>, ms: seq<RawNode>)
    requires DistinctIds(ms)
    ensures DistinctIds(Others(cs, ms))
  {
    if ms != [] {
      var rest := Others(cs, ms[1..]);
      OthersDistinct(cs, ms[1..]);
      forall r | r in rest ensures r.systemId != ms[0].systemId { OthersAreNotControllers(cs, ms[1..], r); }
    }
  }

  lemma UniqueConcat(a: seq<Machine>, b: seq<Machine>)
    requires UniqueIds(a) && UniqueIds(b) && forall x, y :: x in a && y in b ==> x.systemId != y.systemId
    ensures UniqueIds(a + b)
  {
    var s := a + b;
    forall i, j | 0 <= i < j < |s| ensures s[i].systemId != s[j].systemId {
      if i < |a| <= j { assert s[i] in a && s[j] in b; }
    }
  }

  lemma {:induction false} ControllerRecordsUnique(cs: seq<RawNode>, management: set<string>)
    requires DistinctIds(cs)
    ensures UniqueIds(ControllerRecords(cs, management))
    ensures forall m :: m in ControllerRecords(cs, management) ==> exists c :: c in cs && c.systemId == m.systemId
  {
    if cs != [] {
      var n := |cs| - 1;
      ControllerRecordsUnique(cs[..n], management);
      UniqueConcat(ControllerRecords(cs[..n], management), [ControllerRecord(cs[n], management)]);
      assert cs[n] in cs;
    }
  }

  lemma {:induction false} MachineRecordsUnique(
    ms: seq<RawNode>, todo: seq<RawNode>, rcs: map<string, string>, ids: set<string>, management: set<string>,
    kept: set<string>)
    requires DistinctIds(todo)
    ensures UniqueIds(MachineRecords(ms, todo, rcs, ids, management, kept))
  {
    if todo != [] {
      var n := |todo| - 1;
      var r := MachineRecord(ms, todo[n], rcs, ids, management);
      var before := MachineRecords(ms, todo[..n], rcs, ids, management, kept);
      MachineRecordsUnique(ms, todo[..n], rcs, ids, management, kept);
      forall m | m in before ensures m.systemId != r.systemId {
        MachineRecordSources(ms, todo[..n], rcs, ids, management, kept, m);
      }
      UniqueConcat(before, [r]);
    }
  }

  lemma {:induction false} CountedOnce(s: seq<Machine>, x: Machine)
    requires UniqueIds(s)
    ensures multiset(s)[x] <= 1
  {
    if s != [] {
      var n := |s| - 1;
      assert s == s[..n] + [s[n]];
      CountedOnce(s[..n], x);
      assert x == s[n] ==> x !in s[..n];
    }
  }

  lemma CountedTwice(s: seq<Machine>, i: nat, j: nat)
    requires i < j < |s| && s[i] == s[j]
    ensures multiset(s)[s[i]] >= 2
  {
    assert s == s[..j] + s[j..];
    assert s[i] in s[..j] && s[j] in s[j..];
    assert s[i] in multiset(s[..j]) && s[i] in multiset(s[j..]);
  }

  lemma UniquePermuted(a: seq<Machine>, b: seq<Machine>)
    requires UniqueIds(a) && multiset(a) == multiset(b)
    ensures UniqueIds(b)
  {
    forall i, j | 0 <= i < j < |b| ensures b[i].systemId != b[j].systemId {
      if b[i].systemId == b[j].systemId {
        assert b[i] in multiset(b) && b[j] in multiset(b);
        SameIdSameMachine(a, b[i], b[j]);
        CountedTwice(b, i, j);
        CountedOnce(a, b[i]);
      }
    }
  }

  lemma BuiltIsUnique(controllers: seq<RawNode>, machines: seq<RawNode>, ids: set<string>)
    requires DistinctIds(controllers) && DistinctIds(machines)
    ensures UniqueIds(Pruned(controllers, machines, ids).machines)
  {
    var ms, management, rcs := Others(controllers, machines), ManagementFabrics(controllers), Hostnames(controllers);
    var kept := ids + Retained(ms, ids, management);
    var a, b := ControllerRecords(controllers, management), MachineRecords(ms, ms, rcs, ids, management, kept);
    OthersDistinct(controllers, machines);
    ControllerRecordsUnique(controllers, management);
    MachineRecordsUnique(ms, ms, rcs, ids, management, kept);
    forall x, y | x in a && y in b ensures x.systemId != y.systemId {
      ControllerRecordIds(controllers, management, x);
      MachineRecordSources(ms, ms, rcs, ids, management, kept, y);
      var r :| r in ms && r.systemId == y.systemId;
      OthersAreNotControllers(controllers, machines, r);
    }
    UniqueConcat(a, b);
    SortByCorrect(IdOf, a + b);
    UniquePermuted(a + b, SortBy(IdOf, a + b));
  }

  lemma {:induction false} RecordOf(
    ms: seq<RawNode>, todo: seq<RawNode>, rcs: map<string, string>, ids: set<string>, management: set<string>,
    kept: set<string>, r: RawNode)
    requires r in todo && r.systemId in kept
    ensures MachineRecord(ms, r, rcs, ids, management) in MachineRecords(ms, todo, rcs, ids, management, kept)
  {
    var n := |todo| - 1;
    if r != todo[n] {
      assert r in todo[..n];
      RecordOf(ms, todo[..n], rcs, ids, management, kept, r);
    }
  }

  /** The document has an in-scope machine for every selected id, and no other. */
  lemma ScopeIsBuilt(controllers: seq<RawNode>, machines: seq<RawNode>, scope: Scope, id: string)
    requires ScopedIds(Others(controllers, machines), scope, Hostnames(controllers)).Ids?
    ensures var ids := ScopedIds(Others(controllers, machines), scope, Hostnames(controllers)).ids;
      id in ids <==> exists m :: m in Pruned(controllers, machines, ids).machines && m.systemId == id && m.inScope
  {
    var ms, management, rcs := Others(controllers, machines), ManagementFabrics(controllers), Hostnames(controllers);
    var ids := ScopedIds(ms, scope, rcs).ids;
    var kept := ids + Retained(ms, ids, management);
    var a, b := ControllerRecords(controllers, management), MachineRecords(ms, ms, rcs, ids, management, kept);
    forall m ensures m in SortBy(IdOf, a + b) <==> m in a || m in b { SortByMember(IdOf, a + b, m); }
    if id in ids {
      ScopeIsReady(ms, scope, rcs);
      var r :| r in ms && r.systemId == id;
      RecordOf(ms, ms, rcs, ids, management, kept, r);
      assert MachineRecord(ms, r, rcs, ids, management) in b;
    }
    if m :| m in SortBy(IdOf, a + b) && m.systemId == id && m.inScope {
      if m in a { ControllerRecordIds(controllers, management, m); }
      else { MachineRecordSources(ms, ms, rcs, ids, management, kept, m); }
    }
  }

  /** What the tool builds from lists without duplicate ids is a topology every
      theorem about topologies speaks of, and its in-scope machines are the
      selected ones. */
  lemma BuiltIsLawful(controllers: seq<RawNode>, machines: seq<RawNode>, scope: Scope)
    requires BuildSpec(controllers, machines, scope).Document?
    requires DistinctIds(controllers) && DistinctIds(machines)
    ensures var t := BuildSpec(controllers, machines, scope).topology;
      && SchemaTopology(t) && UniqueIds(t.machines)
      && forall id :: id in ScopedIds(Others(controllers, machines), scope, Hostnames(controllers)).ids <==>
           exists m :: m in t.machines && m.systemId == id && m.inScope
  {
    var ids := ScopedIds(Others(controllers, machines), scope, Hostnames(controllers)).ids;
    BuiltIsUnique(controllers, machines, ids);
    forall id
      ensures id in ids <==>
        exists m :: m in Pruned(controllers, machines, ids).machines && m.systemId == id && m.inScope
    {
      ScopeIsBuilt(controllers, machines, scope, id);
    }
  }
}
