/** What a built topology document says of the nodes MAAS lists: which of them it
    records, and how each record and each interface follows from the payloads
    (cli/maas_topology.py). */
module MaasRecords {
  import opened Order
  import opened Topology
  import opened MaasTopology

  // ----- fabrics and roles --------------------------------------------------

  predicate OnFabric(i: RawInterface, fabric: string) { i.vlan.Some? && i.vlan.value.fabric == fabric }

  /** Some rack controller has an interface on the fabric. */
  ghost predicate Managed(controllers: seq<RawNode>, fabric: string) {
    fabric != "" && exists c, i :: c in controllers && i in c.interfaces && OnFabric(i, fabric)
  }

  lemma ManagementMeaning(controllers: seq<RawNode>, fabric: string)
    ensures fabric in ManagementFabrics(controllers) <==> Managed(controllers, fabric)
  {
    if fabric != "" {
      forall i ensures OnFabric(i, fabric) <==> InterfaceFabric(i) == fabric { }
    }
  }

  /** The machine has an interface on a fabric outside `management`. */
  predicate HasDataFabric(node: RawNode, management: set<string>) {
    exists i :: i in node.interfaces && i.vlan.Some?
      && i.vlan.value.fabric != "" && i.vlan.value.fabric !in management
  }

  /** None of its interfaces has a fabric. */
  predicate Unclassifiable(node: RawNode) {
    forall i :: i in node.interfaces ==> i.vlan.None? || i.vlan.value.fabric == ""
  }

  /** data with any data-fabric interface, none without a fabric, and bmc-oam on
      management fabrics only. */
  lemma RoleMeaning(node: RawNode, management: set<string>)
    ensures DeriveRole(node, management) == Some(Data) <==> HasDataFabric(node, management)
    ensures DeriveRole(node, management) == None <==> Unclassifiable(node)
    ensures DeriveRole(node, management) == Some(BmcOam) <==>
      !HasDataFabric(node, management) && !Unclassifiable(node)
  {
    var classes := set i | i in node.interfaces && InterfaceFabric(i) != "" :: ClassOf(i, management);
    assert DataFabric in classes <==> HasDataFabric(node, management) by {
      if i :| i in node.interfaces && i.vlan.Some? && i.vlan.value.fabric != "" && i.vlan.value.fabric !in management {
        assert ClassOf(i, management) == DataFabric;
      }
    }
    if Unclassifiable(node) {
      assert classes == {};
    } else {
      var i :| i in node.interfaces && i.vlan.Some? && i.vlan.value.fabric != "";
      assert ClassOf(i, management) in classes;
      assert DataFabric !in classes ==> classes == {Management};
    }
  }

  // ----- recorded interfaces ------------------------------------------------

  /** The links that give an address. */
  predicate Addresses(l: Link) { l.subnet.Some? && l.mode != "link_up" }

  predicate FirstAddress(links: seq<Link>, k: nat) {
    k < |links| && Addresses(links[k]) && forall j :: 0 <= j < k ==> !Addresses(links[j])
  }

  /** Address and gateway are those of the first link that gives one. */
  ghost predicate FromLinks(links: seq<Link>, ip: Option<string>, gateway: Option<string>) {
    && (forall k: nat :: FirstAddress(links, k) ==>
          && gateway == links[k].subnet.value.gatewayIp
          && ip == if links[k].ip == Some("") then None else links[k].ip)
    && ((forall l :: l in links ==> !Addresses(l)) ==> ip == None && gateway == None)
  }

  predicate LastOfName(s: seq<RawInterface>, name: string, k: nat) {
    k < |s| && s[k].name == name && forall j :: k < j < |s| ==> s[j].name != name
  }

  /** The MAC of the last interface of that name, or nothing. */
  ghost predicate MacOf(s: seq<RawInterface>, name: string, mac: string) {
    && (forall k: nat :: LastOfName(s, name, k) ==> mac == s[k].mac)
    && ((forall i :: i in s ==> i.name != name) ==> mac == "")
  }

  /** The record `x` of interface `i` of a node. */
  ghost predicate DescribesInterface(
    controllers: seq<RawNode>, node: RawNode, i: RawInterface, x: Interface)
  {
    && i.vlan.Some?
    && (x.name, x.mac, x.fabric, x.vlanTag) == (i.name, i.mac, i.vlan.value.fabric, i.vlan.value.vid)
    && (x.fabricClass == Management <==> Managed(controllers, i.vlan.value.fabric))
    && FromLinks(i.links, x.ip, x.gatewayIp)
    && (i.kind != "bond" ==> x.memberMacs == [])
    && (i.kind == "bond" ==>
          && |x.memberMacs| == |i.parents|
          && forall k :: 0 <= k < |i.parents| ==> MacOf(node.interfaces, i.parents[k], x.memberMacs[k]))
  }

  /** An interface that is recorded: physical, bond or VLAN, on a VLAN, and no
      member of a bond of the node. */
  function IsRecorded(node: RawNode): RawInterface -> bool {
    (i: RawInterface) =>
      && (i.kind == "physical" || i.kind == "bond" || i.kind == "vlan") && i.vlan.Some?
      && forall b :: b in node.interfaces && b.kind == "bond" ==> i.name !in b.parents
  }

  /** One record per recorded interface, in order. */
  ghost predicate DescribesInterfaces(controllers: seq<RawNode>, node: RawNode, xs: seq<Interface>) {
    var s := Keep(IsRecorded(node), node.interfaces);
    |xs| == |s| && forall k :: 0 <= k < |s| ==> DescribesInterface(controllers, node, s[k], xs[k])
  }

  lemma {:induction false} AddressMeaning(links: seq<Link>)
    ensures var l := FirstAddressed(links);
      && (forall k: nat :: FirstAddress(links, k) ==> l == Some(links[k]))
      && ((forall x :: x in links ==> !Addresses(x)) ==> l == None)
  {
    if links != [] {
      AddressMeaning(links[1..]);
      assert links == [links[0]] + links[1..] && links[0] in links;
      forall k: nat | FirstAddress(links, k) ensures FirstAddressed(links) == Some(links[k]) {
        assert k > 0 ==> FirstAddress(links[1..], k - 1);
      }
    }
  }

  lemma {:induction false} MacNamedMeaning(s: seq<RawInterface>, name: string)
    ensures MacOf(s, name, MacNamed(name, s))
  {
    if s != [] {
      var n := |s| - 1;
      MacNamedMeaning(s[..n], name);
      assert s == s[..n] + [s[n]];
      forall k: nat | LastOfName(s, name, k) ensures MacNamed(name, s) == s[k].mac {
        assert k < n ==> LastOfName(s[..n], name, k);
      }
    }
  }

  lemma {:induction false} MemberMacsMeaning(names: seq<string>, s: seq<RawInterface>, k: nat)
    ensures |MemberMacs(names, s)| == |names|
    ensures k < |names| ==> MacOf(s, names[k], MemberMacs(names, s)[k])
  {
    if names != [] {
      MacNamedMeaning(s, names[0]);
      MemberMacsMeaning(names[1..], s, if k > 0 then k - 1 else 0);
    }
  }

  lemma InterfaceMeaning(controllers: seq<RawNode>, node: RawNode, i: RawInterface)
    requires i.vlan.Some?
    ensures DescribesInterface(
      controllers, node, i, BuildInterface(i, node.interfaces, ManagementFabrics(controllers)))
  {
    var x := BuildInterface(i, node.interfaces, ManagementFabrics(controllers));
    ManagementMeaning(controllers, i.vlan.value.fabric);
    AddressMeaning(i.links);
    assert FromLinks(i.links, x.ip, x.gatewayIp);
    MemberMacsMeaning(i.parents, node.interfaces, 0);
    forall k | i.kind == "bond" && 0 <= k < |i.parents| ensures MacOf(node.interfaces, i.parents[k], x.memberMacs[k]) {
      MemberMacsMeaning(i.parents, node.interfaces, k);
    }
  }

  lemma RecordedMeaning(node: RawNode, i: RawInterface)
    ensures Recorded(i, BondMemberNames(node.interfaces)) <==> IsRecorded(node)(i)
  {
    assert i.name in BondMemberNames(node.interfaces) <==>
      exists b :: b in node.interfaces && b.kind == "bond" && i.name in b.parents;
  }

  lemma {:induction false} InterfacesMeaning(
    controllers: seq<RawNode>, node: RawNode, todo: seq<RawInterface>, k: nat)
    ensures var xs := BuildInterfaces(todo, node.interfaces, ManagementFabrics(controllers));
      var s := Keep(IsRecorded(node), todo);
      |xs| == |s| && (k < |s| ==> DescribesInterface(controllers, node, s[k], xs[k]))
  {
    if todo != [] {
      RecordedMeaning(node, todo[0]);
      if IsRecorded(node)(todo[0]) {
        InterfaceMeaning(controllers, node, todo[0]);
        InterfacesMeaning(controllers, node, todo[1..], if k > 0 then k - 1 else 0);
      } else {
        InterfacesMeaning(controllers, node, todo[1..], k);
      }
    }
  }

  lemma MachineInterfaces(
    controllers: seq<RawNode>, node: RawNode, role: Role, rack: string, inScope: bool)
    ensures DescribesInterfaces(
      controllers, node, BuildMachine(node, role, rack, inScope, ManagementFabrics(controllers)).interfaces)
  {
    InterfacesMeaning(controllers, node, node.interfaces, 0);
    forall k: nat ensures var s := Keep(IsRecorded(node), node.interfaces);
      k < |s| ==> DescribesInterface(controllers, node, s[k],
        BuildMachine(node, role, rack, inScope, ManagementFabrics(controllers)).interfaces[k])
    {
      InterfacesMeaning(controllers, node, node.interfaces, k);
    }
  }

  // ----- recorded machines --------------------------------------------------

  ghost predicate DescribesController(controllers: seq<RawNode>, c: RawNode, m: Machine) {
    && (m.systemId, m.hostname, m.rack, m.role, m.inScope) ==
         (c.systemId, c.hostname, c.hostname, RackController, false)
    && DescribesInterfaces(controllers, c, m.interfaces)
  }

  /** An unclassifiable machine counts as data. */
  ghost predicate DescribesMachine(controllers: seq<RawNode>, ids: set<string>, r: RawNode, m: Machine) {
    && (m.systemId, m.hostname, m.inScope) == (r.systemId, r.hostname, r.systemId in ids)
    && m.role == (if HasDataFabric(r, ManagementFabrics(controllers)) || Unclassifiable(r) then Data else BmcOam)
    && IsMachineRack(r, Hostnames(controllers), m.rack)
    && DescribesInterfaces(controllers, r, m.interfaces)
  }

  lemma {:induction false} HostnamesMeaning(cs: seq<RawNode>, c: RawNode)
    requires DistinctIds(cs) && c in cs
    ensures c.systemId in Hostnames(cs) && Hostnames(cs)[c.systemId] == c.hostname
  {
    var n := |cs| - 1;
    if c != cs[n] {
      assert c in cs[..n];
      HostnamesMeaning(cs[..n], c);
    }
  }

  lemma {:induction false} HostnamesKeys(cs: seq<RawNode>, id: string)
    ensures id in Hostnames(cs) <==> exists c :: c in cs && c.systemId == id
  {
    if cs != [] {
      var n := |cs| - 1;
      HostnamesKeys(cs[..n], id);
      assert cs == cs[..n] + [cs[n]];
    }
  }

  lemma {:induction false} ById(ms: seq<RawNode>, r: RawNode, rcs: map<string, string>, management: set<string>)
    requires DistinctIds(ms) && r in ms
    ensures RoleById(ms, r.systemId, management) == DeriveRole(r, management)
    ensures RackById(ms, r.systemId, rcs) == MachineRack(r, rcs)
  {
    var n := |ms| - 1;
    if r != ms[n] {
      assert r in ms[..n];
      ById(ms[..n], r, rcs, management);
    }
  }

  lemma MachineRecordMeaning(controllers: seq<RawNode>, ms: seq<RawNode>, ids: set<string>, r: RawNode)
    requires DistinctIds(ms) && r in ms
    ensures DescribesMachine(controllers, ids, r,
              MachineRecord(ms, r, Hostnames(controllers), ids, ManagementFabrics(controllers)))
  {
    var rcs, management := Hostnames(controllers), ManagementFabrics(controllers);
    var m := MachineRecord(ms, r, rcs, ids, management);
    ById(ms, r, rcs, management);
    RoleMeaning(r, management);
    MachineRackMeaning(r, rcs, m.rack);
    MachineInterfaces(controllers, r, m.role, m.rack, m.inScope);
  }

  /** MAAS lists the node as a machine, and not as a rack controller too. */
  predicate Listed(controllers: seq<RawNode>, machines: seq<RawNode>, r: RawNode) {
    r in machines && forall c :: c in controllers ==> c.systemId != r.systemId
  }

  lemma ListedOthers(controllers: seq<RawNode>, machines: seq<RawNode>, r: RawNode)
    ensures r in Others(controllers, machines) <==> Listed(controllers, machines, r)
  {
    OthersAreNotControllers(controllers, machines, r);
    HostnamesKeys(controllers, r.systemId);
  }

  lemma {:induction false} ControllerRecordSource(cs: seq<RawNode>, management: set<string>, m: Machine)
    returns (c: RawNode)
    requires m in ControllerRecords(cs, management)
    ensures c in cs && m == ControllerRecord(c, management)
  {
    var n := |cs| - 1;
    c := cs[n];
    if m != ControllerRecord(c, management) { c := ControllerRecordSource(cs[..n], management, m); }
  }

  /** Every record of the document describes a node MAAS lists: a rack controller,
      or a machine that is none. */
  lemma RecordMeaning(controllers: seq<RawNode>, machines: seq<RawNode>, ids: set<string>, m: Machine)
    returns (r: RawNode)
    requires DistinctIds(machines) && m in Pruned(controllers, machines, ids).machines
    ensures
      || (r in controllers && DescribesController(controllers, r, m))
      || (Listed(controllers, machines, r) && DescribesMachine(controllers, ids, r, m))
  {
    var ms, management, rcs := Others(controllers, machines), ManagementFabrics(controllers), Hostnames(controllers);
    var kept := ids + Retained(ms, ids, management);
    var cs := ControllerRecords(controllers, management);
    SortByMember(IdOf, cs + MachineRecords(ms, ms, rcs, ids, management, kept), m);
    if m in cs {
      r := ControllerRecordSource(controllers, management, m);
      MachineInterfaces(controllers, r, RackController, r.hostname, false);
    } else {
      MachineRecordSources(ms, ms, rcs, ids, management, kept, m);
      r :| r in ms && r.systemId in kept && m == MachineRecord(ms, r, rcs, ids, management);
      OthersDistinct(controllers, machines);
      MachineRecordMeaning(controllers, ms, ids, r);
      ListedOthers(controllers, machines, r);
    }
  }

  // ----- which nodes are recorded -------------------------------------------

  lemma {:induction false} ControllerRecorded(cs: seq<RawNode>, management: set<string>, c: RawNode)
    requires c in cs
    ensures ControllerRecord(c, management) in ControllerRecords(cs, management)
  {
    var n := |cs| - 1;
    if c != cs[n] { ControllerRecorded(cs[..n], management, c); }
  }

  /** Every rack controller has its record. */
  lemma ControllersRecorded(controllers: seq<RawNode>, machines: seq<RawNode>, ids: set<string>, c: RawNode)
    returns (m: Machine)
    requires c in controllers
    ensures m in Pruned(controllers, machines, ids).machines && DescribesController(controllers, c, m)
  {
    var ms, management, rcs := Others(controllers, machines), ManagementFabrics(controllers), Hostnames(controllers);
    var kept := ids + Retained(ms, ids, management);
    m := ControllerRecord(c, management);
    ControllerRecorded(controllers, management, c);
    SortByMember(IdOf, ControllerRecords(controllers, management)
      + MachineRecords(ms, ms, rcs, ids, management, kept), m);
    MachineInterfaces(controllers, c, RackController, c.hostname, false);
  }

  predicate SameVlan(i: RawInterface, j: RawInterface) {
    i.vlan.Some? && j.vlan.Some? && (i.vlan.value.fabric, i.vlan.value.vid) == (j.vlan.value.fabric, j.vlan.value.vid)
  }

  /** The machine has an interface on the VLAN of one of an in-scope machine. */
  ghost predicate NextToScope(controllers: seq<RawNode>, machines: seq<RawNode>, ids: set<string>, r: RawNode) {
    exists q, i, j :: Listed(controllers, machines, q) && q.systemId in ids
      && i in r.interfaces && j in q.interfaces && SameVlan(i, j)
  }

  lemma TouchesMeaning(controllers: seq<RawNode>, machines: seq<RawNode>, ids: set<string>, r: RawNode)
    ensures Segments(r) * InScopeSegments(Others(controllers, machines), ids) != {} <==>
      NextToScope(controllers, machines, ids, r)
  {
    var ms := Others(controllers, machines);
    forall q ensures q in ms <==> Listed(controllers, machines, q) { ListedOthers(controllers, machines, q); }
    if NextToScope(controllers, machines, ids, r) {
      var q, i, j :| Listed(controllers, machines, q) && q.systemId in ids && i in r.interfaces && j in q.interfaces
        && SameVlan(i, j);
      var g := (i.vlan.value.fabric, i.vlan.value.vid);
      assert g in Segments(r) && g in Segments(q);
      assert g in Segments(r) * InScopeSegments(ms, ids);
    }
    if g :| g in Segments(r) * InScopeSegments(ms, ids) {
      var i :| i in r.interfaces && i.vlan.Some? && g == (i.vlan.value.fabric, i.vlan.value.vid);
      var q :| q in ms && q.systemId in ids && g in Segments(q);
      var j :| j in q.interfaces && j.vlan.Some? && g == (j.vlan.value.fabric, j.vlan.value.vid);
      assert SameVlan(i, j);
    }
  }

  /** A machine is recorded exactly when it is in scope, has a data-fabric
      interface, or is on a VLAN of a machine in scope. */
  lemma RecordedIff(controllers: seq<RawNode>, machines: seq<RawNode>, ids: set<string>, r: RawNode)
    requires DistinctIds(machines) && Listed(controllers, machines, r)
    ensures (exists m :: m in Pruned(controllers, machines, ids).machines && m.systemId == r.systemId) <==>
      || r.systemId in ids || HasDataFabric(r, ManagementFabrics(controllers))
      || NextToScope(controllers, machines, ids, r)
  {
    var ms, management, rcs := Others(controllers, machines), ManagementFabrics(controllers), Hostnames(controllers);
    var kept := ids + Retained(ms, ids, management);
    ListedOthers(controllers, machines, r);
    OthersDistinct(controllers, machines);
    ById(ms, r, rcs, management);
    RoleMeaning(r, management);
    TouchesMeaning(controllers, machines, ids, r);
    KeptIff(ms, ids, management, r);
    var all := ControllerRecords(controllers, management) + MachineRecords(ms, ms, rcs, ids, management, kept);
    if r.systemId in kept {
      RecordOf(ms, ms, rcs, ids, management, kept, r);
      SortByMember(IdOf, all, MachineRecord(ms, r, rcs, ids, management));
    }
    if m :| m in SortBy(IdOf, all) && m.systemId == r.systemId {
      SortByMember(IdOf, all, m);
      HostnamesKeys(controllers, r.systemId);
      if m in ControllerRecords(controllers, management) { ControllerRecordIds(controllers, management, m); }
      else { MachineRecordSources(ms, ms, rcs, ids, management, kept, m); }
    }
  }

  lemma KeptIff(ms: seq<RawNode>, ids: set<string>, management: set<string>, r: RawNode)
    requires DistinctIds(ms) && r in ms
    ensures r.systemId in ids + Retained(ms, ids, management) <==>
      || r.systemId in ids || RoleById(ms, r.systemId, management) == Some(Data)
      || Segments(r) * InScopeSegments(ms, ids) != {}
  {
    forall m | m in ms && m.systemId == r.systemId ensures m == r {
      var i :| 0 <= i < |ms| && ms[i] == m;
      var j :| 0 <= j < |ms| && ms[j] == r;
    }
  }

  /** The rules of the document: a bmc-oam machine is only allowed next to the
      controller of its own rack. */
  lemma RulesMeaning(controllers: seq<RawNode>, machines: seq<RawNode>, ids: set<string>, a: Machine, b: Machine)
    ensures AdjacencyAllowed(Pruned(controllers, machines, ids).bmcRule, a, b) <==>
      && (a.role == BmcOam ==> b.role == RackController && b.rack == a.rack)
      && (b.role == BmcOam ==> a.role == RackController && a.rack == b.rack)
    ensures SchemaTopology(Pruned(controllers, machines, ids))
  {
  }

  /** The records come in increasing order of system_id. */
  lemma RecordsInOrder(controllers: seq<RawNode>, machines: seq<RawNode>, ids: set<string>, i: nat, j: nat)
    requires DistinctIds(controllers) && DistinctIds(machines)
    requires i < j < |Pruned(controllers, machines, ids).machines|
    ensures var ms := Pruned(controllers, machines, ids).machines; Less(ms[i].systemId, ms[j].systemId)
  {
    var ms, management, rcs := Others(controllers, machines), ManagementFabrics(controllers), Hostnames(controllers);
    var records := Pruned(controllers, machines, ids).machines;
    BuiltIsUnique(controllers, machines, ids);
    SortByCorrect(IdOf, ControllerRecords(controllers, management)
      + MachineRecords(ms, ms, rcs, ids, management, ids + Retained(ms, ids, management)));
    LessTotal(records[i].systemId, records[j].systemId);
    assert !Less(IdOf(records[j]), IdOf(records[i]));
  }

  // ----- scope --------------------------------------------------------------

  ghost predicate IsReady(ms: seq<RawNode>, id: string) {
    exists m :: m in ms && m.systemId == id && m.status == "Ready"
  }

  predicate HasKey(m: RawNode, key: string) { m.systemId == key || m.hostname == key }

  /** Machine `k` is the last with that system_id or host name. */
  predicate LastWithKey(ms: seq<RawNode>, key: string, k: nat) {
    k < |ms| && HasKey(ms[k], key) && forall j :: k < j < |ms| ==> !HasKey(ms[j], key)
  }

  lemma {:induction false} KeyMeaning(ms: seq<RawNode>, key: string) returns (k: nat)
    ensures ByKey(ms, key) == None <==> forall m :: m in ms ==> !HasKey(m, key)
    ensures ByKey(ms, key).Some? ==> LastWithKey(ms, key, k) && ByKey(ms, key).value == ms[k]
  {
    k := 0;
    if ms != [] {
      var n := |ms| - 1;
      assert ms == ms[..n] + [ms[n]];
      if HasKey(ms[n], key) { k := n; } else { k := KeyMeaning(ms[..n], key); }
    }
  }

  /** The key names a machine, and the one it names last is Ready. */
  ghost predicate NamesReady(ms: seq<RawNode>, key: string, id: string) {
    exists k: nat :: LastWithKey(ms, key, k) && ms[k].systemId == id && IsReady(ms, id)
  }

  lemma NamedReady(ms: seq<RawNode>, key: string)
    ensures ReadyNode(ms, key) <==> exists id :: NamesReady(ms, key, id)
    ensures ReadyNode(ms, key) ==> forall id :: NamesReady(ms, key, id) <==> ByKey(ms, key).value.systemId == id
  {
    var k := KeyMeaning(ms, key);
    forall l: nat, id | LastWithKey(ms, key, l) && ms[l].systemId == id && IsReady(ms, id)
      ensures l == k && ByKey(ms, key) == Some(ms[k])
    {
      assert ms[l] in ms;
    }
    if ReadyNode(ms, key) { assert NamesReady(ms, key, ms[k].systemId); }
  }

  lemma {:induction false} KeyIds(ms: seq<RawNode>, keys: seq<string>, id: string)
    requires forall k :: k in keys ==> ReadyNode(ms, k)
    ensures id in IdsOfKeys(ms, keys) <==> exists key :: key in keys && NamesReady(ms, key, id)
  {
    if keys != [] {
      var n := |keys| - 1;
      assert keys == keys[..n] + [keys[n]] && keys[n] in keys;
      KeyIds(ms, keys[..n], id);
      NamedReady(ms, keys[n]);
    }
  }

  lemma {:induction false} RackOf(ms: seq<RawNode>, m: RawNode, rcs: map<string, string>, rack: string)
    requires DistinctIds(ms) && m in ms
    ensures rack == RackById(ms, m.systemId, rcs) <==> IsMachineRack(m, rcs, rack)
  {
    ById(ms, m, rcs, {});
    MachineRackMeaning(m, rcs, rack);
  }

  /** Everything Ready; of the named racks, what is Ready there; or the Ready
      machines named. */
  ghost predicate Selects(ms: seq<RawNode>, scope: Scope, rcs: map<string, string>, id: string) {
    match scope
    case AllReady => IsReady(ms, id)
    case Racks(names) =>
      exists m, rack ::
        m in ms && m.systemId == id && m.status == "Ready" && IsMachineRack(m, rcs, rack) && rack in names
    case Nodes(keys) => exists key :: key in keys && NamesReady(ms, key, id)
    case UnknownMode => false
  }

  /** It is an error to name a rack no controller has for its host name, or a key
      that names no Ready machine, or to use another mode. */
  ghost predicate Refused(ms: seq<RawNode>, scope: Scope, rcs: map<string, string>) {
    match scope
    case AllReady => false
    case Racks(names) => exists rack :: rack in names && forall id :: id in rcs ==> rcs[id] != rack
    case Nodes(keys) => exists key :: key in keys && forall id :: !NamesReady(ms, key, id)
    case UnknownMode => true
  }

  lemma RacksSelected(ms: seq<RawNode>, names: set<string>, rcs: map<string, string>, id: string)
    requires DistinctIds(ms) && ScopedIds(ms, Racks(names), rcs).Ids?
    ensures id in ScopedIds(ms, Racks(names), rcs).ids <==> Selects(ms, Racks(names), rcs, id)
  {
    if m :| m in ms && m.systemId == id && m.systemId in Ready(ms) && RackById(ms, m.systemId, rcs) in names {
      var rack := RackById(ms, m.systemId, rcs);
      RackOf(ms, m, rcs, rack);
      var q :| q in ms && q.systemId == id && q.status == "Ready";
      ById(ms, q, rcs, {});
      RackOf(ms, q, rcs, rack);
    }
    if m, rack :|
      m in ms && m.systemId == id && m.status == "Ready" && IsMachineRack(m, rcs, rack) && rack in names
    {
      RackOf(ms, m, rcs, rack);
    }
  }

  /** Selection refuses exactly such scopes, and otherwise selects those machines. */
  lemma ScopeMeaning(ms: seq<RawNode>, scope: Scope, rcs: map<string, string>)
    requires DistinctIds(ms)
    ensures ScopedIds(ms, scope, rcs).MaasError? <==> Refused(ms, scope, rcs)
    ensures ScopedIds(ms, scope, rcs).Ids? ==>
      forall id :: id in ScopedIds(ms, scope, rcs).ids <==> Selects(ms, scope, rcs, id)
  {
    match scope
    case AllReady =>
    case Racks(names) =>
      assert forall rack :: rack in rcs.Values <==> exists id :: id in rcs && rcs[id] == rack;
      if ScopedIds(ms, scope, rcs).Ids? {
        forall id ensures id in ScopedIds(ms, scope, rcs).ids <==> Selects(ms, scope, rcs, id) {
          RacksSelected(ms, names, rcs, id);
        }
      }
    case Nodes(keys) =>
      forall key | key in keys ensures ReadyNode(ms, key) <==> exists id :: NamesReady(ms, key, id) {
        NamedReady(ms, key);
      }
      if ScopedIds(ms, scope, rcs).Ids? {
        forall id ensures id in ScopedIds(ms, scope, rcs).ids <==> Selects(ms, scope, rcs, id) {
          KeyIds(ms, keys, id);
        }
      }
    case UnknownMode =>
  }
}
