/** Deterministic choice of rack representatives (cli/representatives.py and its
    byte-identical copy in the charm payload). */
module Representatives {
  import opened Order
  import opened Topology

  datatype Target = Target(representative: string, fallback: Option<string>)
  datatype RackSelection = RackSelection(source: string, targets: map<string, Target>)
  type Selections = map<string, RackSelection>

  predicate Usable(s: Selection) {
    s.strategy in {"lexicographic-lowest", "next-lexicographic"} && s.field == "system_id"
  }

  predicate Eligible(m: Machine, rack: string, role: Role, inScopeOnly: bool) {
    m.rack == rack && m.role == role && (inScopeOnly ==> m.inScope)
  }

  /** system_ids of the eligible machines, in document order. */
  function EligibleIds(ms: seq<Machine>, rack: string, role: Role, inScopeOnly: bool): seq<string> {
    if ms == [] then []
    else (if Eligible(ms[0], rack, role, inScopeOnly) then [ms[0].systemId] else [])
         + EligibleIds(ms[1..], rack, role, inScopeOnly)
  }

  function Candidates(ms: seq<Machine>, rack: string, rule: CrossRackRule, s: Selection): Result<seq<string>> {
    if !Usable(s) then ValueError
    else Ok(Sort(EligibleIds(ms, rack, rule.applicableRole, s.inScope)))
  }

  function First(c: Result<seq<string>>): Result<Option<string>> {
    match c
    case ValueError => ValueError
    case Ok(ids) => Ok(if ids != [] then Some(ids[0]) else None)
  }

  function SourceRepresentative(ms: seq<Machine>, rack: string, rule: CrossRackRule): Result<Option<string>> {
    First(Candidates(ms, rack, rule, rule.source))
  }

  function TargetRepresentative(ms: seq<Machine>, rack: string, rule: CrossRackRule): Result<Option<string>> {
    First(Candidates(ms, rack, rule, rule.target))
  }

  function FallbackTarget(ms: seq<Machine>, rack: string, rule: CrossRackRule): Result<Option<string>> {
    match Candidates(ms, rack, rule, rule.fallback)
    case ValueError => ValueError
    case Ok(ids) => Ok(if |ids| > 1 then Some(ids[1]) else None)
  }

  function RackSet(ms: seq<Machine>, rule: CrossRackRule): set<string> {
    set m | m in ms && m.role == rule.applicableRole && m.inScope && m.rack != "" :: m.rack
  }

  /** The racks with an in-scope data machine, sorted. */
  ghost function DataRacks(ms: seq<Machine>, rule: CrossRackRule): seq<string> {
    SortedStrings(RackSet(ms, rule))
  }

  function Without(x: string, s: seq<string>): seq<string> {
    if s == [] then [] else (if s[0] != x then [s[0]] else []) + Without(x, s[1..])
  }

  ghost function RemoteRacks(ms: seq<Machine>, localRack: string, rule: CrossRackRule): seq<string> {
    Without(localRack, DataRacks(ms, rule))
  }

  method ComputeDataRacks(ms: seq<Machine>, rule: CrossRackRule) returns (r: seq<string>)
    ensures r == DataRacks(ms, rule)
  {
    r := SortStrings(RackSet(ms, rule));
  }

  lemma {:induction false} WithoutElements(x: string, s: seq<string>)
    ensures forall y :: y in Without(x, s) <==> y in s && y != x
  {
    if s != [] {
      WithoutElements(x, s[1..]);
      assert s == [s[0]] + s[1..];
    }
  }

  lemma {:induction false} WithoutIncreasing(x: string, s: seq<string>)
    requires Increasing(Less, s)
    ensures Increasing(Less, Without(x, s))
  {
    if s != [] {
      WithoutIncreasing(x, s[1..]);
      WithoutElements(x, s[1..]);
      var r := Without(x, s[1..]);
      forall j | 0 <= j < |r| ensures Less(s[0], r[j]) {
        assert r[j] in r;
        var i :| 0 <= i < |s[1..]| && s[1..][i] == r[j];
        assert s[i + 1] == r[j];
      }
    }
  }

  // ----- eligibility --------------------------------------------------------

  lemma {:induction false} EligibleMembers(ms: seq<Machine>, rack: string, role: Role, o: bool)
    ensures forall id :: id in EligibleIds(ms, rack, role, o) <==>
              exists m :: m in ms && Eligible(m, rack, role, o) && m.systemId == id
  {
    if ms != [] {
      var rest := EligibleIds(ms[1..], rack, role, o);
      EligibleMembers(ms[1..], rack, role, o);
      assert ms == [ms[0]] + ms[1..];
      forall id ensures id in EligibleIds(ms, rack, role, o) <==>
          exists m :: m in ms && Eligible(m, rack, role, o) && m.systemId == id
      {
        if m :| m in ms && Eligible(m, rack, role, o) && m.systemId == id {
          if m != ms[0] { assert m in ms[1..]; }
        }
        if id in rest {
          var m :| m in ms[1..] && Eligible(m, rack, role, o) && m.systemId == id;
          assert m in ms;
        }
      }
    }
  }

  lemma {:induction false} EligibleConcat(a: seq<Machine>, b: seq<Machine>, rack: string, role: Role, o: bool)
    ensures EligibleIds(a + b, rack, role, o) == EligibleIds(a, rack, role, o) + EligibleIds(b, rack, role, o)
  {
    if a == [] {
      assert a + b == b;
    } else {
      assert (a + b)[1..] == a[1..] + b;
      EligibleConcat(a[1..], b, rack, role, o);
    }
  }

  lemma EligibleAround(a: seq<Machine>, x: Machine, b: seq<Machine>, rack: string, role: Role, o: bool)
    ensures multiset(EligibleIds(a + ([x] + b), rack, role, o))
            == multiset(EligibleIds([x], rack, role, o)) + multiset(EligibleIds(a + b, rack, role, o))
  {
    EligibleConcat(a, b, rack, role, o);
    EligibleConcat(a, [x] + b, rack, role, o);
    EligibleConcat([x], b, rack, role, o);
  }

  lemma EligibleOnce(
    a: seq<Machine>, x: Machine, b: seq<Machine>, s: seq<Machine>, rack: string, role: Role, o: bool)
    requires s == a + ([x] + b)
    ensures multiset(EligibleIds(s, rack, role, o))
            == multiset(EligibleIds([x], rack, role, o)) + multiset(EligibleIds(a + b, rack, role, o))
  {
    EligibleAround(a, x, b, rack, role, o);
  }

  lemma {:induction false} EligiblePermuted(a: seq<Machine>, b: seq<Machine>, rack: string, role: Role, o: bool)
    requires multiset(a) == multiset(b)
    ensures multiset(EligibleIds(a, rack, role, o)) == multiset(EligibleIds(b, rack, role, o))
  {
    assert |multiset(a)| == |a| && |multiset(b)| == |b|;
    if a != [] {
      assert a[0] in multiset(b);
      var i :| 0 <= i < |b| && b[i] == a[0];
      RemoveHead(a, b, i);
      EligiblePermuted(a[1..], b[..i] + b[i + 1..], rack, role, o);
      EligibleOnce(b[..i], a[0], b[i + 1..], b, rack, role, o);
      EligibleOnce([], a[0], a[1..], a, rack, role, o);
      assert [] + a[1..] == a[1..];
    }
  }

  // ----- the representative universe ----------------------------------------

  lemma CandidatesCorrect(ms: seq<Machine>, rack: string, rule: CrossRackRule, s: Selection)
    requires Usable(s)
    ensures var ids := Candidates(ms, rack, rule, s).value;
            && SortedBy(Same, ids)
            && |ids| == |EligibleIds(ms, rack, rule.applicableRole, s.inScope)|
            && (forall id :: id in ids <==>
                  exists m :: m in ms && m.systemId == id
                    && m.rack == rack && m.role == rule.applicableRole && (s.inScope ==> m.inScope))
  {
    var e := EligibleIds(ms, rack, rule.applicableRole, s.inScope);
    SortByCorrect(Same, e);
    SortByElements(Same, e);
    EligibleMembers(ms, rack, rule.applicableRole, s.inScope);
  }

  /** A rack in the data-rack list always has a representative. */
  lemma RackHasCandidates(ms: seq<Machine>, rack: string, rule: CrossRackRule, s: Selection)
    requires Usable(s) && rack in RackSet(ms, rule)
    ensures Candidates(ms, rack, rule, s).value != []
  {
    CandidatesCorrect(ms, rack, rule, s);
    var m :| m in ms && m.role == rule.applicableRole && m.inScope && m.rack == rack;
    assert Eligible(m, rack, rule.applicableRole, s.inScope);
    assert m.systemId in Candidates(ms, rack, rule, s).value;
  }

  ghost function TargetOf(ms: seq<Machine>, rack: string, rule: CrossRackRule): Target
    requires Usable(rule.target) && Usable(rule.fallback) && rack in RackSet(ms, rule)
  {
    RackHasCandidates(ms, rack, rule, rule.target);
    Target(TargetRepresentative(ms, rack, rule).value.value, FallbackTarget(ms, rack, rule).value)
  }

  /** With two or more data racks the target and fallback blocks are consulted. */
  ghost predicate TargetsUsable(ms: seq<Machine>, rule: CrossRackRule) {
    (Usable(rule.target) && Usable(rule.fallback))
    || forall a, b :: a in RackSet(ms, rule) && b in RackSet(ms, rule) ==> a == b
  }

  ghost function TargetsOf(ms: seq<Machine>, rack: string, rule: CrossRackRule): map<string, Target>
    requires rack in RackSet(ms, rule) && TargetsUsable(ms, rule)
  {
    map remote | remote in RackSet(ms, rule) - {rack} :: TargetOf(ms, remote, rule)
  }

  ghost function SelectionOf(ms: seq<Machine>, rack: string, rule: CrossRackRule): RackSelection
    requires Usable(rule.source) && rack in RackSet(ms, rule) && TargetsUsable(ms, rule)
  {
    RackHasCandidates(ms, rack, rule, rule.source);
    RackSelection(SourceRepresentative(ms, rack, rule).value.value, TargetsOf(ms, rack, rule))
  }

  /** What selection yields: an entry per data rack, a target per other data
      rack, and an error exactly when a selection block is consulted and not
      usable. */
  ghost function SelectionsOf(t: Topology): Result<Selections> {
    match t.crossRackRule
    case None => ValueError
    case Some(rule) =>
      if RackSet(t.machines, rule) == {} then Ok(map[])
      else if !Usable(rule.source) || !TargetsUsable(t.machines, rule) then ValueError
      else Ok(AllSelections(t.machines, rule))
  }

  ghost function AllSelections(ms: seq<Machine>, rule: CrossRackRule): Selections
    requires Usable(rule.source) && TargetsUsable(ms, rule)
  {
    map rack | rack in RackSet(ms, rule) :: SelectionOf(ms, rack, rule)
  }

  /** The target and fallback of one remote rack. */
  method TargetFor(ms: seq<Machine>, remote: string, rule: CrossRackRule) returns (r: Result<Target>)
    requires remote in RackSet(ms, rule)
    ensures r.Ok? <==> Usable(rule.target) && Usable(rule.fallback)
    ensures r.Ok? ==> r.value == TargetOf(ms, remote, rule)
  {
    var rep := TargetRepresentative(ms, remote, rule);
    var fb := FallbackTarget(ms, remote, rule);
    if rep.ValueError? || fb.ValueError? { return ValueError; }
    RackHasCandidates(ms, remote, rule, rule.target);
    return Ok(Target(rep.value.value, fb.value));
  }

  /** The loop over the remote racks. */
  method TargetsFor(ms: seq<Machine>, remotes: seq<string>, rule: CrossRackRule)
    returns (r: Result<map<string, Target>>)
    requires forall b :: b in remotes ==> b in RackSet(ms, rule)
    ensures r.Ok? <==> remotes == [] || (Usable(rule.target) && Usable(rule.fallback))
    ensures r.Ok? ==> forall b :: b in r.value <==> b in remotes
    ensures r.Ok? ==> forall b :: b in r.value ==>
      Usable(rule.target) && Usable(rule.fallback) && r.value[b] == TargetOf(ms, b, rule)
  {
    var targets: map<string, Target> := map[];
    for i := 0 to |remotes|
      invariant forall b :: b in targets <==> b in remotes[..i]
      invariant i > 0 ==> Usable(rule.target) && Usable(rule.fallback)
      invariant forall b :: b in targets ==> b in RackSet(ms, rule) && targets[b] == TargetOf(ms, b, rule)
    {
      assert remotes[i] in remotes;
      var target := TargetFor(ms, remotes[i], rule);
      if target.ValueError? { return ValueError; }
      targets := targets[remotes[i] := target.value];
      assert remotes[..i + 1] == remotes[..i] + [remotes[i]];
    }
    assert remotes[..|remotes|] == remotes;
    return Ok(targets);
  }

  method SelectTargets(ms: seq<Machine>, racks: seq<string>, rack: string, rule: CrossRackRule)
    returns (r: Result<map<string, Target>>)
    requires racks == DataRacks(ms, rule) && rack in racks
    ensures r.Ok? <==> TargetsUsable(ms, rule)
    ensures r.Ok? ==> r.value == TargetsOf(ms, rack, rule)
  {
    var remotes := Without(rack, racks);
    RemotesOf(ms, racks, rack, rule);
    r := TargetsFor(ms, remotes, rule);
    assert r.Ok? ==> r.value.Keys == RackSet(ms, rule) - {rack};
    assert r.Ok? ==> r.value == TargetsOf(ms, rack, rule);
  }

  /** The remote racks are the other data racks; with none, this is the only one. */
  lemma RemotesOf(ms: seq<Machine>, racks: seq<string>, rack: string, rule: CrossRackRule)
    requires racks == DataRacks(ms, rule) && rack in racks
    ensures forall b :: b in Without(rack, racks) <==> b in RackSet(ms, rule) && b != rack
    ensures Without(rack, racks) == [] <==> forall a, b :: a in RackSet(ms, rule) && b in RackSet(ms, rule) ==> a == b
  {
    WithoutElements(rack, racks);
    var remotes := Without(rack, racks);
    if remotes == [] {
      forall a | a in RackSet(ms, rule) ensures a == rack { assert a in racks; assert a != rack ==> a in remotes; }
    } else {
      assert remotes[0] in remotes;
      assert remotes[0] in RackSet(ms, rule) && rack in RackSet(ms, rule) && remotes[0] != rack;
    }
  }

  method SelectRack(ms: seq<Machine>, racks: seq<string>, rack: string, rule: CrossRackRule)
    returns (r: Result<RackSelection>)
    requires racks == DataRacks(ms, rule) && rack in RackSet(ms, rule)
    ensures r.Ok? <==> Usable(rule.source) && TargetsUsable(ms, rule)
    ensures r.Ok? ==> r.value == SelectionOf(ms, rack, rule)
  {
    var source := SourceRepresentative(ms, rack, rule);
    if source.ValueError? { return ValueError; }
    RackHasCandidates(ms, rack, rule, rule.source);
    var targets := SelectTargets(ms, racks, rack, rule);
    if targets.ValueError? { return ValueError; }
    r := Ok(RackSelection(source.value.value, targets.value));
  }

  /** The dictionary after the racks in `done`. */
  ghost predicate Selected(ms: seq<Machine>, rule: CrossRackRule, done: seq<string>, s: Selections) {
    && (done != [] ==> Usable(rule.source) && TargetsUsable(ms, rule))
    && (forall b :: b in s <==> b in done)
    && (forall b :: b in done ==> b in RackSet(ms, rule) && s[b] == SelectionOf(ms, b, rule))
  }

  lemma AllSelected(ms: seq<Machine>, rule: CrossRackRule, done: seq<string>, s: Selections)
    requires Selected(ms, rule, done, s) && done == DataRacks(ms, rule)
    ensures RackSet(ms, rule) == {} ==> s == map[]
    ensures RackSet(ms, rule) != {} ==> Usable(rule.source) && TargetsUsable(ms, rule) && s == AllSelections(ms, rule)
  {
    if RackSet(ms, rule) != {} {
      var b :| b in RackSet(ms, rule);
      assert b in done;
      assert s.Keys == AllSelections(ms, rule).Keys;
    }
  }

  method SelectRepresentatives(t: Topology) returns (r: Result<Selections>)
    ensures r == SelectionsOf(t)
  {
    if t.crossRackRule.None? { return ValueError; }
    var rule, ms := t.crossRackRule.value, t.machines;
    var racks := ComputeDataRacks(ms, rule);
    var selections: Selections := map[];
    for i := 0 to |racks|
      invariant Selected(ms, rule, racks[..i], selections)
    {
      var rack := racks[i];
      assert rack in racks;
      var selection := SelectRack(ms, racks, rack, rule);
      if selection.ValueError? { return ValueError; }
      selections := selections[rack := selection.value];
      assert racks[..i + 1] == racks[..i] + [rack];
    }
    assert racks[..|racks|] == racks;
    AllSelected(ms, rule, racks, selections);
    r := Ok(selections);
  }

  // ----- what the selection means -------------------------------------------

  ghost predicate InScopeData(ms: seq<Machine>, rack: string, id: string) {
    exists m :: m in ms && m.rack == rack && m.role == Data && m.inScope && m.systemId == id
  }

  /** `id` is the least in-scope data system_id of the rack. */
  ghost predicate IsLeast(ms: seq<Machine>, rack: string, id: string) {
    InScopeData(ms, rack, id) && forall x :: InScopeData(ms, rack, x) ==> !Less(x, id)
  }

  /** `fb` is the least one strictly above `rep`, or None when there is none. */
  ghost predicate IsNext(ms: seq<Machine>, rack: string, rep: string, fb: Option<string>) {
    match fb
    case None => forall x :: InScopeData(ms, rack, x) ==> x == rep
    case Some(f) =>
      && InScopeData(ms, rack, f) && Less(rep, f)
      && forall x :: InScopeData(ms, rack, x) && Less(rep, x) ==> !Less(x, f)
  }

  lemma {:induction false} EligibleDistinct(ms: seq<Machine>, rack: string, role: Role, o: bool)
    requires UniqueIds(ms)
    ensures forall id :: multiset(EligibleIds(ms, rack, role, o))[id] <= 1
  {
    if ms != [] {
      EligibleDistinct(ms[1..], rack, role, o);
      EligibleMembers(ms[1..], rack, role, o);
      var rest := EligibleIds(ms[1..], rack, role, o);
      forall m | m in ms[1..] ensures m.systemId != ms[0].systemId {
        var k :| 0 <= k < |ms[1..]| && ms[1..][k] == m;
        assert ms[k + 1] == m;
      }
      assert ms[0].systemId !in rest;
      assert ms[0].systemId !in multiset(rest);
    }
  }

  lemma CandidatesAreInScopeData(ms: seq<Machine>, rack: string, rule: CrossRackRule, s: Selection)
    requires SchemaRule(rule) && Usable(s) && s.inScope
    ensures forall id :: id in Candidates(ms, rack, rule, s).value <==> InScopeData(ms, rack, id)
  {
    CandidatesCorrect(ms, rack, rule, s);
    forall id ensures id in Candidates(ms, rack, rule, s).value <==> InScopeData(ms, rack, id) {
      if InScopeData(ms, rack, id) {
        var m :| m in ms && m.rack == rack && m.role == Data && m.inScope && m.systemId == id;
        assert Eligible(m, rack, Data, true);
      }
    }
  }

  lemma LeastCandidate(ms: seq<Machine>, rack: string, rule: CrossRackRule, s: Selection)
    requires SchemaRule(rule) && Usable(s) && s.inScope && rack in RackSet(ms, rule)
    ensures Candidates(ms, rack, rule, s).value != []
    ensures IsLeast(ms, rack, Candidates(ms, rack, rule, s).value[0])
  {
    RackHasCandidates(ms, rack, rule, s);
    CandidatesCorrect(ms, rack, rule, s);
    CandidatesAreInScopeData(ms, rack, rule, s);
    var ids := Candidates(ms, rack, rule, s).value;
    assert ids[0] in ids;
    forall x | InScopeData(ms, rack, x) ensures !Less(x, ids[0]) {
      assert x in ids;
      var k :| 0 <= k < |ids| && ids[k] == x;
      if k > 0 { assert !Less(Same(ids[k]), Same(ids[0])); } else { LessIrreflexive(x); }
    }
  }

  lemma SecondCandidate(ids: seq<string>, x: string)
    requires SortedBy(Same, ids) && |ids| > 1 && x in ids && Less(ids[0], x)
    ensures !Less(x, ids[1])
  {
    var k :| 0 <= k < |ids| && ids[k] == x;
    LessIrreflexive(x);
    if k > 1 { assert !Less(Same(ids[k]), Same(ids[1])); }
  }

  lemma FirstTwoDiffer(ids: seq<string>, e: seq<string>)
    requires SortedBy(Same, ids) && |ids| > 1 && multiset(ids) == multiset(e)
    requires forall id :: multiset(e)[id] <= 1
    ensures Less(ids[0], ids[1])
  {
    assert ids == [ids[0]] + [ids[1]] + ids[2..];
    assert multiset(ids)[ids[0]] <= 1;
    assert multiset(ids) == multiset{ids[0]} + multiset{ids[1]} + multiset(ids[2..]);
    LessTotal(ids[0], ids[1]);
    assert !Less(Same(ids[1]), Same(ids[0]));
  }

  lemma NextCandidate(ms: seq<Machine>, rack: string, rule: CrossRackRule)
    requires UniqueIds(ms) && SchemaRule(rule) && rack in RackSet(ms, rule)
    ensures IsNext(ms, rack, TargetOf(ms, rack, rule).representative, TargetOf(ms, rack, rule).fallback)
  {
    RackHasCandidates(ms, rack, rule, rule.target);
    CandidatesAreInScopeData(ms, rack, rule, rule.fallback);
    var ids := Candidates(ms, rack, rule, rule.fallback).value;
    assert ids == Candidates(ms, rack, rule, rule.target).value;
    var e := EligibleIds(ms, rack, rule.applicableRole, true);
    if |ids| > 1 {
      SortByCorrect(Same, e);
      EligibleDistinct(ms, rack, rule.applicableRole, true);
      FirstTwoDiffer(ids, e);
      assert ids[1] in ids;
      forall x | InScopeData(ms, rack, x) && Less(ids[0], x) ensures !Less(x, ids[1]) {
        assert x in ids;
        SortByCorrect(Same, e);
        SecondCandidate(ids, x);
      }
    } else {
      forall x | InScopeData(ms, rack, x) ensures x == ids[0] { assert x in ids; }
    }
  }

  lemma SelectionShape(t: Topology)
    requires SchemaTopology(t)
    ensures SelectionsOf(t).Ok?
    ensures var s := SelectionsOf(t).value; var rule := t.crossRackRule.value;
      && s.Keys == RackSet(t.machines, rule)
      && (forall a :: a in s ==>
            s[a].targets.Keys == s.Keys - {a} && SourceRepresentative(t.machines, a, rule) == Ok(Some(s[a].source)))
      && (forall a, b :: a in s && b in s[a].targets ==> s[a].targets[b] == TargetOf(t.machines, b, rule))
  {
    var ms, rule := t.machines, t.crossRackRule.value;
    var s := SelectionsOf(t).value;
    forall a | a in s ensures SourceRepresentative(ms, a, rule) == Ok(Some(s[a].source)) {
      RackHasCandidates(ms, a, rule, rule.source);
    }
  }

  lemma RacksHaveData(ms: seq<Machine>, rule: CrossRackRule)
    requires SchemaRule(rule)
    ensures forall a :: a in RackSet(ms, rule) <==> a != "" && exists id :: InScopeData(ms, a, id)
  {
    forall a ensures a in RackSet(ms, rule) <==> a != "" && exists id :: InScopeData(ms, a, id) {
      if a in RackSet(ms, rule) {
        var m :| m in ms && m.role == Data && m.inScope && m.rack == a && m.rack != "";
        assert InScopeData(ms, a, m.systemId);
      }
      if a != "" && exists id :: InScopeData(ms, a, id) {
        var id :| InScopeData(ms, a, id);
        var m :| m in ms && m.rack == a && m.role == Data && m.inScope && m.systemId == id;
        assert m.rack in RackSet(ms, rule);
      }
    }
  }

  lemma SourceIsTarget(ms: seq<Machine>, rack: string, rule: CrossRackRule)
    requires SchemaRule(rule) && rack in RackSet(ms, rule)
    ensures var c := Candidates(ms, rack, rule, rule.source).value;
            c != [] && IsLeast(ms, rack, c[0]) && TargetOf(ms, rack, rule).representative == c[0]
  {
    LeastCandidate(ms, rack, rule, rule.source);
    RackHasCandidates(ms, rack, rule, rule.target);
  }

  /** Every source is the least eligible id, every fallback the next one or
      none; a rack is described the same way in every other rack's targets,
      and always by the id that is its own source. */
  ghost predicate Canonical(ms: seq<Machine>, s: Selections) {
    && (forall a :: a in s <==> a != "" && exists id :: InScopeData(ms, a, id))
    && (forall a :: a in s ==> s[a].targets.Keys == s.Keys - {a})
    && (forall a :: a in s ==> IsLeast(ms, a, s[a].source))
    && (forall a, b :: a in s && b in s[a].targets ==> s[a].targets[b].representative == s[b].source)
    && (forall a, b :: a in s && b in s[a].targets ==> IsNext(ms, b, s[b].source, s[a].targets[b].fallback))
    && (forall a, b, c :: a in s && b in s && c in s[a].targets && c in s[b].targets ==>
          s[a].targets[c] == s[b].targets[c])
  }

  /** Neither of the two strategies, or not over system_id. */
  predicate Unknown(s: Selection) {
    s.field != "system_id" || (s.strategy != "lexicographic-lowest" && s.strategy != "next-lexicographic")
  }

  /** Selection raises exactly without a rule, or when there is a data rack and the
      source block is unknown, or two of them and one of the other blocks is. */
  lemma SelectionsRaise(t: Topology)
    ensures SelectionsOf(t).ValueError? <==>
      t.crossRackRule.None? ||
      var rule, racks := t.crossRackRule.value, RackSet(t.machines, t.crossRackRule.value);
      || (Unknown(rule.source) && racks != {})
      || ((Unknown(rule.target) || Unknown(rule.fallback)) && exists a, b :: a in racks && b in racks && a != b)
  {
    assert forall s :: Usable(s) <==> !Unknown(s);
  }

  /** The data racks: every named rack with an in-scope machine of the role. */
  lemma RackSetMeaning(ms: seq<Machine>, rule: CrossRackRule, rack: string)
    ensures rack in RackSet(ms, rule) <==>
      rack != "" && exists m :: m in ms && m.inScope && m.role == rule.applicableRole && m.rack == rack
  {
  }

  lemma SelectedRacks(t: Topology, s: Selections)
    requires SchemaTopology(t) && SelectionsOf(t) == Ok(s)
    ensures forall a :: a in s <==> a != "" && exists id :: InScopeData(t.machines, a, id)
  {
    SelectionShape(t);
    RacksHaveData(t.machines, t.crossRackRule.value);
  }

  lemma SelectedTargets(t: Topology, s: Selections)
    requires SchemaTopology(t) && SelectionsOf(t) == Ok(s)
    ensures forall a :: a in s ==> s[a].targets.Keys == s.Keys - {a}
    ensures forall a, b, c :: a in s && b in s && c in s[a].targets && c in s[b].targets ==>
      s[a].targets[c] == s[b].targets[c]
  {
    SelectionShape(t);
  }

  lemma SourceIsLeast(t: Topology, s: Selections, a: string)
    requires SchemaTopology(t) && SelectionsOf(t) == Ok(s) && a in s
    ensures IsLeast(t.machines, a, s[a].source)
  {
    SelectionShape(t);
    SourceIsTarget(t.machines, a, t.crossRackRule.value);
  }

  lemma TargetIsSource(t: Topology, s: Selections, a: string, b: string)
    requires SchemaTopology(t) && SelectionsOf(t) == Ok(s) && a in s && b in s[a].targets
    ensures b in s && s[a].targets[b].representative == s[b].source
  {
    SelectionShape(t);
    SourceIsTarget(t.machines, b, t.crossRackRule.value);
  }

  lemma FallbackIsNext(t: Topology, s: Selections, a: string, b: string)
    requires SchemaTopology(t) && UniqueIds(t.machines) && SelectionsOf(t) == Ok(s) && a in s && b in s[a].targets
    ensures IsNext(t.machines, b, s[a].targets[b].representative, s[a].targets[b].fallback)
  {
    SelectionShape(t);
    NextCandidate(t.machines, b, t.crossRackRule.value);
  }

  lemma SelectionMeaning(t: Topology)
    requires SchemaTopology(t) && UniqueIds(t.machines)
    ensures SelectionsOf(t).Ok? && Canonical(t.machines, SelectionsOf(t).value)
  {
    SelectionShape(t);
    CanonicalParts(t, SelectionsOf(t).value);
  }

  lemma CanonicalParts(t: Topology, s: Selections)
    requires SchemaTopology(t) && UniqueIds(t.machines) && SelectionsOf(t) == Ok(s)
    ensures Canonical(t.machines, s)
  {
    SelectedRacks(t, s);
    SelectedTargets(t, s);
    forall a | a in s ensures IsLeast(t.machines, a, s[a].source) { SourceIsLeast(t, s, a); }
    forall a, b | a in s && b in s[a].targets
      ensures b in s && s[a].targets[b].representative == s[b].source
      ensures IsNext(t.machines, b, s[b].source, s[a].targets[b].fallback)
    {
      TargetIsSource(t, s, a, b);
      FallbackIsNext(t, s, a, b);
    }
  }

  lemma CandidatesPermuted(a: seq<Machine>, b: seq<Machine>, rack: string, rule: CrossRackRule, s: Selection)
    requires multiset(a) == multiset(b)
    ensures Candidates(a, rack, rule, s) == Candidates(b, rack, rule, s)
  {
    EligiblePermuted(a, b, rack, rule.applicableRole, s.inScope);
    SortCanonical(EligibleIds(a, rack, rule.applicableRole, s.inScope),
      EligibleIds(b, rack, rule.applicableRole, s.inScope));
  }

  lemma SameSelection(a: seq<Machine>, b: seq<Machine>, rack: string, rule: CrossRackRule)
    requires multiset(a) == multiset(b) && RackSet(a, rule) == RackSet(b, rule)
    requires Usable(rule.source) && rack in RackSet(a, rule) && TargetsUsable(a, rule)
    ensures SelectionOf(a, rack, rule) == SelectionOf(b, rack, rule)
  {
    CandidatesPermuted(a, b, rack, rule, rule.source);
    var x, y := TargetsOf(a, rack, rule), TargetsOf(b, rack, rule);
    forall c | c in x ensures x[c] == y[c] { SameTarget(a, b, c, rule); }
    assert x == y;
  }

  lemma SameTarget(a: seq<Machine>, b: seq<Machine>, rack: string, rule: CrossRackRule)
    requires multiset(a) == multiset(b) && rack in RackSet(a, rule) && rack in RackSet(b, rule)
    requires Usable(rule.target) && Usable(rule.fallback)
    ensures TargetOf(a, rack, rule) == TargetOf(b, rack, rule)
  {
    CandidatesPermuted(a, b, rack, rule, rule.target);
    CandidatesPermuted(a, b, rack, rule, rule.fallback);
  }

  /** The selection does not depend on the order of the machine list. */
  lemma SelectionPermuted(t: Topology, ms: seq<Machine>)
    requires multiset(ms) == multiset(t.machines)
    ensures SelectionsOf(t.(machines := ms)) == SelectionsOf(t)
  {
    if t.crossRackRule.Some? {
      var rule := t.crossRackRule.value;
      forall m ensures m in ms <==> m in t.machines {
        assert m in ms <==> m in multiset(ms);
        assert m in t.machines <==> m in multiset(t.machines);
      }
      assert RackSet(ms, rule) == RackSet(t.machines, rule);
      if SelectionsOf(t).Ok? {
        var x, y := SelectionsOf(t.(machines := ms)).value, SelectionsOf(t).value;
        forall a | a in y ensures x[a] == y[a] {
          SameSelection(ms, t.machines, a, rule);
        }
        assert x == y;
      }
    }
  }

  // ----- dropping machines --------------------------------------------------

  lemma {:induction false} EligibleKeep(keep: Machine -> bool, ms: seq<Machine>, rack: string, role: Role)
    requires forall m :: m in ms && !keep(m) ==> !m.inScope
    ensures EligibleIds(Keep(keep, ms), rack, role, true) == EligibleIds(ms, rack, role, true)
  {
    if ms != [] {
      EligibleKeep(keep, ms[1..], rack, role);
      if keep(ms[0]) { assert ([ms[0]] + Keep(keep, ms[1..]))[1..] == Keep(keep, ms[1..]); }
      else { assert Keep(keep, ms) == Keep(keep, ms[1..]); }
    }
  }

  lemma CandidatesKeep(keep: Machine -> bool, ms: seq<Machine>, rack: string, rule: CrossRackRule, s: Selection)
    requires rule.applicableRole == Data && s.inScope && forall m :: m in ms && !keep(m) ==> !m.inScope
    ensures Candidates(Keep(keep, ms), rack, rule, s) == Candidates(ms, rack, rule, s)
  {
    EligibleKeep(keep, ms, rack, Data);
  }

  lemma SelectionKeep(keep: Machine -> bool, ms: seq<Machine>, rack: string, rule: CrossRackRule)
    requires SchemaRule(rule) && forall m :: m in ms && !keep(m) ==> !m.inScope
    requires RackSet(Keep(keep, ms), rule) == RackSet(ms, rule) && rack in RackSet(ms, rule)
    ensures SelectionOf(Keep(keep, ms), rack, rule) == SelectionOf(ms, rack, rule)
  {
    var x, y := TargetsOf(Keep(keep, ms), rack, rule), TargetsOf(ms, rack, rule);
    CandidatesKeep(keep, ms, rack, rule, rule.source);
    forall c | c in x ensures x[c] == y[c] {
      CandidatesKeep(keep, ms, c, rule, rule.target);
      CandidatesKeep(keep, ms, c, rule, rule.fallback);
    }
    assert x == y;
  }

  /** Under a schema-valid rule, dropping out-of-scope machines does not change
      the selection. */
  lemma SelectionsKeep(keep: Machine -> bool, t: Topology)
    requires SchemaTopology(t)
    requires forall m :: m in t.machines && !keep(m) ==> !m.inScope
    ensures SelectionsOf(t.(machines := Keep(keep, t.machines))) == SelectionsOf(t)
  {
    var rule, a, b := t.crossRackRule.value, Keep(keep, t.machines), t.machines;
    forall m ensures m in a <==> m in b && keep(m) { KeepMember(keep, b, m); }
    assert RackSet(a, rule) == RackSet(b, rule);
    forall rack | rack in RackSet(b, rule) ensures SelectionOf(a, rack, rule) == SelectionOf(b, rack, rule) {
      SelectionKeep(keep, b, rack, rule);
    }
    assert AllSelections(a, rule) == AllSelections(b, rule);
  }
}
