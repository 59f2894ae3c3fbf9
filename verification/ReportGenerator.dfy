/** The accumulating report of cli/report_generator.py: a mutable object its
    methods append to, and the document those methods build. */
module ReportGenerator {
  import opened Order
  import opened Topology
  import opened Representatives
  import opened ProbeOutput
  import opened L2Edges
  import opened Verdicts

  datatype Entry =
    | Found(node: string, finding: Finding)
    | ProbeIncomplete(node: string, status: ProbeStatus)
    | NodeMissing(systemId: string)
    | EdgeNoData(nodes: (string, string))
    | Unidirectional(source: string, peer: string)
    | PeerSkipped(peer: string, count: nat)
    | LinkFailure(pair: (string, string), observedBy: seq<string>, finding: Finding)
    | Directional(srcRack: string, dstRack: string, node: string)
    | TargetUnhealthy(srcRack: string, dstRack: string, node: string)
    | FallbackAnswered(rack: string, node: string)
    | Unconfirmed(pair: (string, string), source: string)
    | PathUndetermined(srcRack: string, dstRack: string, source: string, state: State)
    | MtuObserved(record: MtuRecord, gated: bool)
    | MtuNotMeasured(srcRack: string, dstRack: string, source: string)
    | MtuAsymmetry(pair: (string, string))

  datatype Pass =
    | EdgePass(nodes: (string, string), bidirectional: bool)
    | PathPass(srcRack: string, dstRack: string, source: string)

  /** The report's lists, its passed checks, and the fallback targets already
      warned about. */
  datatype Doc = Doc(
    definitive: seq<Entry>, inferred: seq<Entry>, warnings: seq<Entry>, inconclusive: seq<Entry>,
    skipped: seq<Entry>, observations: seq<Entry>, missing: seq<MissingNode>,
    passed: seq<Pass>, warned: set<(string, string)>)

  const EMPTY := Doc([], [], [], [], [], [], [], [], {})

  /** 0 clean; 1 definitive failures; 2 non-definitive issues present. */
  function ExitCode(d: Doc): int {
    if d.definitive != [] then 1
    else if d.inferred != [] || d.warnings != [] || d.inconclusive != [] then 2
    else 0
  }

  // ----- findings and missing nodes -----------------------------------------

  function File(d: Doc, node: string, f: Finding): Doc {
    var e := Found(node, f);
    match f.classification
    case Definitive => d.(definitive := d.definitive + [e])
    case Inferred => d.(inferred := d.inferred + [e])
    case Undetermined => d.(inconclusive := d.inconclusive + [e])
    case Informational => d.(observations := d.observations + [e])
    case Unclassified => d.(warnings := d.warnings + [e])
  }

  function FileAll(d: Doc, node: string, fs: seq<Finding>): Doc {
    if fs == [] then d else File(FileAll(d, node, fs[..|fs| - 1]), node, fs[|fs| - 1])
  }

  /** The entries for the findings of one classification, in order. */
  function FoundOf(node: string, fs: seq<Finding>, c: Classification): seq<Entry> {
    var of := Keep((f: Finding) => f.classification == c, fs);
    seq(|of|, k requires 0 <= k < |of| => Found(node, of[k]))
  }

  lemma FoundOfLast(node: string, fs: seq<Finding>, c: Classification)
    requires fs != []
    ensures var n := |fs| - 1;
      FoundOf(node, fs, c) == FoundOf(node, fs[..n], c) + Only(fs[n].classification == c, Found(node, fs[n]))
  {
    KeepLast((f: Finding) => f.classification == c, fs);
  }

  /** The document with more of each kind of finding. */
  function Grown(
    d: Doc, definitive: seq<Entry>, inferred: seq<Entry>, inconclusive: seq<Entry>, observations: seq<Entry>,
    warnings: seq<Entry>): Doc
  {
    d.(definitive := d.definitive + definitive, inferred := d.inferred + inferred,
       inconclusive := d.inconclusive + inconclusive, observations := d.observations + observations,
       warnings := d.warnings + warnings)
  }

  function Only(b: bool, e: Entry): seq<Entry> { if b then [e] else [] }

  lemma GrowsByOne(
    d: Doc, node: string, f: Finding, a: seq<Entry>, b: seq<Entry>, c: seq<Entry>, o: seq<Entry>, w: seq<Entry>)
    ensures var e := Found(node, f); File(Grown(d, a, b, c, o, w), node, f) == Grown(d,
      a + Only(f.classification == Definitive, e), b + Only(f.classification == Inferred, e),
      c + Only(f.classification == Undetermined, e), o + Only(f.classification == Informational, e),
      w + Only(f.classification == Unclassified, e))
  {
    var e := Found(node, f);
    assert (d.definitive + a) + [e] == d.definitive + (a + [e]) && (d.inferred + b) + [e] == d.inferred + (b + [e]);
    assert (d.inconclusive + c) + [e] == d.inconclusive + (c + [e]);
    assert (d.observations + o) + [e] == d.observations + (o + [e]) && (d.warnings + w) + [e] == d.warnings + (w + [e]);
    assert forall s: seq<Entry> :: s + [] == s;
  }

  /** Filing partitions the findings: every list grows by the findings of its
      classification, in the order they were recorded, the warnings by the
      unclassified ones; each finding is filed once and nothing else changes. */
  lemma {:induction false} FileAllPartitions(d: Doc, node: string, fs: seq<Finding>)
    ensures FileAll(d, node, fs) == Grown(d, FoundOf(node, fs, Definitive), FoundOf(node, fs, Inferred),
      FoundOf(node, fs, Undetermined), FoundOf(node, fs, Informational), FoundOf(node, fs, Unclassified))
    ensures |FoundOf(node, fs, Definitive)| + |FoundOf(node, fs, Inferred)| + |FoundOf(node, fs, Undetermined)|
            + |FoundOf(node, fs, Informational)| + |FoundOf(node, fs, Unclassified)| == |fs|
  {
    if fs == [] {
      assert d == Grown(d, [], [], [], [], []);
    } else {
      var g := fs[..|fs| - 1];
      FileAllPartitions(d, node, g);
      GrowsByOne(d, node, fs[|fs| - 1], FoundOf(node, g, Definitive), FoundOf(node, g, Inferred),
        FoundOf(node, g, Undetermined), FoundOf(node, g, Informational), FoundOf(node, g, Unclassified));
      FoundOfLast(node, fs, Definitive);
      FoundOfLast(node, fs, Inferred);
      FoundOfLast(node, fs, Undetermined);
      FoundOfLast(node, fs, Informational);
      FoundOfLast(node, fs, Unclassified);
    }
  }

  /** The findings of an output's sections, in section order. */
  function AllFindings(o: ProbeOutput): seq<Finding> {
    o.bondFindings + o.vlanFindings + o.mtuFindings + o.bgpFindings
  }

  function FileOutput(d: Doc, o: ProbeOutput): Doc {
    var d' :=
      if o.status != Complete then d.(inconclusive := d.inconclusive + [ProbeIncomplete(o.hostname, o.status)]) else d;
    FileAll(d', o.hostname, AllFindings(o))
  }

  function FileOutputs(d: Doc, os: seq<ProbeOutput>): Doc {
    if os == [] then d else FileOutput(FileOutputs(d, os[..|os| - 1]), os[|os| - 1])
  }

  function MissingEntries(ms: seq<MissingNode>): seq<Entry> {
    seq(|ms|, k requires 0 <= k < |ms| => NodeMissing(ms[k].systemId))
  }

  // ----- VLAN edges ---------------------------------------------------------

  datatype EdgeOutcome =
    | SkippedFor(peer: string)
    | EdgeFailed
    | EdgeSilent
    | BothWays
    | OneWay(source: Machine, silent: Machine)

  function Outcome(outputs: Outputs, e: Edge): EdgeOutcome {
    if !(e.a.inScope && e.b.inScope) then SkippedFor(if !e.a.inScope then e.a.systemId else e.b.systemId)
    else
      var forward, backward := DirectionState(outputs, e.a, e.b), DirectionState(outputs, e.b, e.a);
      if forward.Failed? || backward.Failed? then EdgeFailed
      else if !forward.Confirmed? && !backward.Confirmed? then EdgeSilent
      else if forward.Confirmed? && backward.Confirmed? then BothWays
      else if forward.Confirmed? then OneWay(e.a, e.b) else OneWay(e.b, e.a)
  }

  function Hostnames(e: Edge): (string, string) { (e.a.hostname, e.b.hostname) }

  function EdgeWarning(o: EdgeOutcome): seq<Entry> {
    if o.OneWay? then [Unidirectional(o.source.hostname, o.silent.hostname)] else []
  }

  function EdgeUnknown(o: EdgeOutcome, e: Edge): seq<Entry> {
    if o.EdgeSilent? then [EdgeNoData(Hostnames(e))] else []
  }

  function EdgePassed(o: EdgeOutcome, e: Edge): seq<Pass> {
    if o.BothWays? || o.OneWay? then [EdgePass(SortedPair(e.a.hostname, e.b.hostname), o.BothWays?)] else []
  }

  function EdgeWarnings(outputs: Outputs, es: seq<Edge>): seq<Entry> {
    if es == [] then []
    else EdgeWarnings(outputs, es[..|es| - 1]) + EdgeWarning(Outcome(outputs, es[|es| - 1]))
  }

  function EdgeUnknowns(outputs: Outputs, es: seq<Edge>): seq<Entry> {
    if es == [] then []
    else EdgeUnknowns(outputs, es[..|es| - 1]) + EdgeUnknown(Outcome(outputs, es[|es| - 1]), es[|es| - 1])
  }

  function EdgePasses(outputs: Outputs, es: seq<Edge>): seq<Pass> {
    if es == [] then []
    else EdgePasses(outputs, es[..|es| - 1]) + EdgePassed(Outcome(outputs, es[|es| - 1]), es[|es| - 1])
  }

  function Count(m: map<string, nat>, k: string): nat { if k in m then m[k] else 0 }

  function AddSkip(counts: map<string, nat>, o: EdgeOutcome): map<string, nat> {
    if o.SkippedFor? then counts[o.peer := Count(counts, o.peer) + 1] else counts
  }

  function SkipCounts(outputs: Outputs, es: seq<Edge>): map<string, nat> {
    if es == [] then map[]
    else AddSkip(SkipCounts(outputs, es[..|es| - 1]), Outcome(outputs, es[|es| - 1]))
  }

  function SkipEntries(counts: map<string, nat>, peers: seq<string>): seq<Entry> {
    seq(|peers|, k requires 0 <= k < |peers| => PeerSkipped(peers[k], Count(counts, peers[k])))
  }

  function WithOutcomes(d: Doc, outputs: Outputs, es: seq<Edge>): Doc {
    d.(warnings := d.warnings + EdgeWarnings(outputs, es),
       inconclusive := d.inconclusive + EdgeUnknowns(outputs, es),
       passed := d.passed + EdgePasses(outputs, es))
  }

  ghost function WithEdges(d: Doc, outputs: Outputs, es: seq<Edge>): Doc {
    var counts := SkipCounts(outputs, es);
    var d' := WithOutcomes(d, outputs, es);
    d'.(skipped := d'.skipped + SkipEntries(counts, SortedStrings(counts.Keys)))
  }

  lemma OneMoreEdge(d: Doc, outputs: Outputs, es: seq<Edge>, i: nat)
    requires i < |es|
    ensures var o := Outcome(outputs, es[i]); var d' := WithOutcomes(d, outputs, es[..i]);
      WithOutcomes(d, outputs, es[..i + 1])
      == d'.(warnings := d'.warnings + EdgeWarning(o), inconclusive := d'.inconclusive + EdgeUnknown(o, es[i]),
             passed := d'.passed + EdgePassed(o, es[i]))
    ensures SkipCounts(outputs, es[..i + 1]) == AddSkip(SkipCounts(outputs, es[..i]), Outcome(outputs, es[i]))
  {
    assert es[..i + 1][..i] == es[..i];
  }

  // ----- rack links ---------------------------------------------------------

  function IsNot(src: string, dst: string): Verdict -> bool {
    (v: Verdict) => !(v.srcRack == src && v.dstRack == dst)
  }

  /** The indeterminate directions that get an entry of their own. */
  function Reported(outputs: Outputs, vs: seq<Verdict>): seq<Verdict> {
    var failures, healthy, open := Keep(IsFailure, vs), Keep(IsHealthy, vs), Keep(IsIndeterminate, vs);
    if |failures| == 1 && (RepUnhealthy(outputs, failures[0].repTarget) || healthy == [])
      then Keep(IsNot(failures[0].dstRack, failures[0].srcRack), open)
      else open
  }

  function LinkInferred(pair: (string, string), vs: seq<Verdict>): seq<Entry> {
    var failures := Keep(IsFailure, vs);
    if |failures| == 2
      then KeepElements(IsFailure, vs);
           assert failures[0] in failures;
           [LinkFailure(pair, [failures[0].src, failures[1].src], failures[0].state.finding)]
      else []
  }

  function LinkWarnings(outputs: Outputs, vs: seq<Verdict>): seq<Entry> {
    var failures := Keep(IsFailure, vs);
    if |failures| != 1 then []
    else
      var v := failures[0];
      if RepUnhealthy(outputs, v.repTarget) then [TargetUnhealthy(v.srcRack, v.dstRack, v.repTarget)]
      else if Keep(IsHealthy, vs) != [] then [Directional(v.srcRack, v.dstRack, v.src)]
      else []
  }

  function LinkUnconfirmed(pair: (string, string), outputs: Outputs, vs: seq<Verdict>): seq<Entry> {
    var failures := Keep(IsFailure, vs);
    if |failures| == 1 && !RepUnhealthy(outputs, failures[0].repTarget) && Keep(IsHealthy, vs) == []
      then [Unconfirmed(pair, failures[0].src)] else []
  }

  function Note(v: Verdict): Entry { PathUndetermined(v.srcRack, v.dstRack, v.src, v.state) }

  function Notes(vs: seq<Verdict>): seq<Entry> {
    seq(|vs|, k requires 0 <= k < |vs| => Note(vs[k]))
  }

  function PassOf(v: Verdict): Pass { PathPass(v.srcRack, v.dstRack, v.src) }

  /** A healthy direction passes; one answered by the fallback also warns about
      the representative, once per representative over the whole report. */
  function AddHealthy(d: Doc, v: Verdict): Doc {
    var d' := d.(passed := d.passed + [PassOf(v)]);
    var key := (v.dstRack, v.repTarget);
    if v.state.OnFallback? && key !in d.warned
      then d'.(warned := d.warned + {key}, warnings := d.warnings + [FallbackAnswered(v.dstRack, v.repTarget)])
      else d'
  }

  function AddAllHealthy(d: Doc, vs: seq<Verdict>): Doc {
    if vs == [] then d else AddHealthy(AddAllHealthy(d, vs[..|vs| - 1]), vs[|vs| - 1])
  }

  function WithFailures(d: Doc, pair: (string, string), outputs: Outputs, vs: seq<Verdict>): Doc {
    d.(inferred := d.inferred + LinkInferred(pair, vs),
       warnings := d.warnings + LinkWarnings(outputs, vs),
       inconclusive := d.inconclusive + LinkUnconfirmed(pair, outputs, vs))
  }

  function WithVerdicts(d: Doc, pair: (string, string), outputs: Outputs, vs: seq<Verdict>): Doc {
    var d2 := AddAllHealthy(WithFailures(d, pair, outputs, vs), Keep(IsHealthy, vs));
    d2.(inconclusive := d2.inconclusive + Notes(Reported(outputs, vs)))
  }

  function WithLink(d: Doc, s: Selections, outputs: Outputs, a: string, b: string): Doc {
    WithVerdicts(d, SortedPair(a, b), outputs, LinkVerdicts(s, outputs, a, b))
  }

  function WithLinks(d: Doc, s: Selections, outputs: Outputs, links: seq<(string, string)>): Doc {
    if links == [] then d
    else
      var n := |links| - 1;
      WithLink(WithLinks(d, s, outputs, links[..n]), s, outputs, links[n].0, links[n].1)
  }

  function LinkSet(s: Selections): set<(string, string)> {
    set src, dst | src in s && dst in s[src].targets :: SortedPair(src, dst)
  }

  // ----- MTU ----------------------------------------------------------------

  /** Successful measurements: link -> source rack -> bytes. */
  type Observed = map<(string, string), map<string, Option<int>>>

  predicate NotMeasured(m: Option<MtuRecord>) { m.None? || m.value.status.Stopped? }

  /** A directed path and the representative that measures it. */
  datatype Path = Path(src: string, dst: string, source: string)

  function WithMtu(d: Doc, outputs: Outputs, p: Path): Doc {
    var m := MtuOf(outputs, p.source, p.dst);
    d.(observations := d.observations
      + (if m.Some? then [MtuObserved(m.value, RepUnhealthy(outputs, p.source))] else []),
       inconclusive := d.inconclusive + (if NotMeasured(m) then [MtuNotMeasured(p.src, p.dst, p.source)] else []))
  }

  function Observe(obs: Observed, outputs: Outputs, p: Path): Observed {
    var m := MtuOf(outputs, p.source, p.dst);
    if m.Some? && m.value.status == Success
      then var link := SortedPair(p.src, p.dst);
           obs[link := (if link in obs then obs[link] else map[])[p.src := m.value.mtu]]
      else obs
  }

  function WithMtus(d: Doc, outputs: Outputs, ps: seq<Path>): Doc {
    if ps == [] then d else WithMtu(WithMtus(d, outputs, ps[..|ps| - 1]), outputs, ps[|ps| - 1])
  }

  function ObserveAll(outputs: Outputs, ps: seq<Path>): Observed {
    if ps == [] then map[] else Observe(ObserveAll(outputs, ps[..|ps| - 1]), outputs, ps[|ps| - 1])
  }

  /** Both directions measured, with different results. */
  predicate Asymmetric(values: map<string, Option<int>>) {
    |values| == 2 && |values.Values| > 1
  }

  function Asymmetries(obs: Observed, links: seq<(string, string)>): seq<Entry> {
    if links == [] then []
    else
      var n := |links| - 1;
      Asymmetries(obs, links[..n])
      + if links[n] in obs && Asymmetric(obs[links[n]]) then [MtuAsymmetry(links[n])] else []
  }

  /** The directed paths out of one rack. */
  function PathsFrom(src: string, source: string, dsts: seq<string>): seq<Path> {
    seq(|dsts|, k requires 0 <= k < |dsts| => Path(src, dsts[k], source))
  }

  ghost function RackPaths(s: Selections, src: string): seq<Path> {
    if src in s then PathsFrom(src, s[src].source, SortedStrings(s[src].targets.Keys)) else []
  }

  ghost function PathsFromAll(s: Selections, srcs: seq<string>): seq<Path> {
    if srcs == [] then [] else PathsFromAll(s, srcs[..|srcs| - 1]) + RackPaths(s, srcs[|srcs| - 1])
  }

  /** All directed paths of the universe, sources in order, targets in order. */
  ghost function AllPaths(s: Selections): seq<Path> {
    PathsFromAll(s, SortedStrings(s.Keys))
  }

  predicate PathOfUniverse(s: Selections, p: Path) {
    Targets(s, p.src, p.dst) && p.source == s[p.src].source
  }

  lemma RackPathsMembers(s: Selections, src: string, p: Path)
    ensures p in RackPaths(s, src) <==> p.src == src && PathOfUniverse(s, p)
  {
    if src in s && p.src == src && PathOfUniverse(s, p) {
      var dsts := SortedStrings(s[src].targets.Keys);
      assert p.dst in dsts;
      var k :| 0 <= k < |dsts| && dsts[k] == p.dst;
      assert RackPaths(s, src)[k] == p;
    }
    if p in RackPaths(s, src) {
      var dsts := SortedStrings(s[src].targets.Keys);
      assert p.dst in dsts;
    }
  }

  lemma {:induction false} PathsFromAllMembers(s: Selections, srcs: seq<string>, p: Path)
    ensures p in PathsFromAll(s, srcs) <==> p.src in srcs && PathOfUniverse(s, p)
  {
    if srcs != [] {
      var n := |srcs| - 1;
      PathsFromAllMembers(s, srcs[..n], p);
      RackPathsMembers(s, srcs[n], p);
      assert srcs == srcs[..n] + [srcs[n]];
    }
  }

  lemma AllPathsMembers(s: Selections, p: Path)
    ensures p in AllPaths(s) <==> PathOfUniverse(s, p)
  {
    PathsFromAllMembers(s, SortedStrings(s.Keys), p);
  }

  lemma OneMorePath(d: Doc, outputs: Outputs, ps: seq<Path>, p: Path)
    ensures WithMtus(d, outputs, ps + [p]) == WithMtu(WithMtus(d, outputs, ps), outputs, p)
    ensures ObserveAll(outputs, ps + [p]) == Observe(ObserveAll(outputs, ps), outputs, p)
  {
    assert (ps + [p])[..|ps|] == ps;
  }

  ghost function WithMtuSection(d: Doc, s: Selections, outputs: Outputs): Doc {
    var obs := ObserveAll(outputs, AllPaths(s));
    var d' := WithMtus(d, outputs, AllPaths(s));
    d'.(warnings := d'.warnings + Asymmetries(obs, SortedPairs(obs.Keys)))
  }

  ghost function WithCrossRack(d: Doc, t: Topology, outputs: Outputs): Doc {
    match SelectionsOf(t)
    case ValueError => d
    case Ok(s) => WithMtuSection(WithLinks(d, s, outputs, SortedPairs(LinkSet(s))), s, outputs)
  }

  // ----- the whole document -------------------------------------------------

  function Collected(outputs: seq<ProbeOutput>, missing: seq<MissingNode>): Doc {
    var d := FileOutputs(EMPTY.(missing := missing), outputs);
    d.(inconclusive := d.inconclusive + MissingEntries(missing))
  }

  ghost function ReportDoc(outputs: seq<ProbeOutput>, missing: seq<MissingNode>, topology: Option<Topology>): Doc {
    var d := Collected(outputs, missing);
    match topology
    case None => d
    case Some(t) =>
      WithCrossRack(WithEdges(d, BySid(outputs), Edges(t.bmcRule, t.machines)), t, BySid(outputs))
  }

  // ----- the mutable report -------------------------------------------------

  class Report {
    var definitive: seq<Entry>
    var inferred: seq<Entry>
    var warnings: seq<Entry>
    var inconclusive: seq<Entry>
    var skipped: seq<Entry>
    var observations: seq<Entry>
    var missing: seq<MissingNode>
    var passed: seq<Pass>
    var warned: set<(string, string)>

    function Contents(): Doc
      reads this
    {
      Doc(definitive, inferred, warnings, inconclusive, skipped, observations, missing, passed, warned)
    }

    constructor (missingNodes: seq<MissingNode>)
      ensures Contents() == EMPTY.(missing := missingNodes)
    {
      definitive, inferred, warnings, inconclusive := [], [], [], [];
      skipped, observations, missing, passed, warned := [], [], missingNodes, [], {};
    }

    method FileFinding(node: string, f: Finding)
      modifies this
      ensures Contents() == File(old(Contents()), node, f)
    {
      var e := Found(node, f);
      match f.classification {
        case Definitive => definitive := definitive + [e];
        case Inferred => inferred := inferred + [e];
        case Undetermined => inconclusive := inconclusive + [e];
        case Informational => observations := observations + [e];
        case Unclassified => warnings := warnings + [e];
      }
    }

    method FileProbeOutput(o: ProbeOutput)
      modifies this
      ensures Contents() == FileOutput(old(Contents()), o)
    {
      if o.status != Complete {
        inconclusive := inconclusive + [ProbeIncomplete(o.hostname, o.status)];
      }
      ghost var start := Contents();
      var fs := AllFindings(o);
      for i := 0 to |fs|
        invariant Contents() == FileAll(start, o.hostname, fs[..i])
      {
        FileFinding(o.hostname, fs[i]);
        assert fs[..i + 1][..i] == fs[..i];
      }
      assert fs[..|fs|] == fs;
    }

    /** The body of the edge loop. */
    method ClassifyEdge(e: Edge, outputs: Outputs, before: map<string, nat>) returns (counts: map<string, nat>)
      modifies `warnings, `inconclusive, `passed
      ensures counts == AddSkip(before, Outcome(outputs, e))
      ensures warnings == old(warnings) + EdgeWarning(Outcome(outputs, e))
      ensures inconclusive == old(inconclusive) + EdgeUnknown(Outcome(outputs, e), e)
      ensures passed == old(passed) + EdgePassed(Outcome(outputs, e), e)
    {
      counts := before;
      if !(e.a.inScope && e.b.inScope) {
        var peer := if !e.a.inScope then e.a else e.b;
        counts := counts[peer.systemId := Count(counts, peer.systemId) + 1];
        return;
      }
      var forward := DirectionState(outputs, e.a, e.b);
      var backward := DirectionState(outputs, e.b, e.a);
      if forward.Failed? || backward.Failed? {
        return;
      }
      if !forward.Confirmed? && !backward.Confirmed? {
        inconclusive := inconclusive + [EdgeNoData(Hostnames(e))];
        return;
      }
      var bidirectional := forward.Confirmed? && backward.Confirmed?;
      passed := passed + [EdgePass(SortedPair(e.a.hostname, e.b.hostname), bidirectional)];
      if !bidirectional {
        var source, silent := e.a, e.b;
        if !forward.Confirmed? { source, silent := e.b, e.a; }
        warnings := warnings + [Unidirectional(source.hostname, silent.hostname)];
      }
    }

    method ReportSkips(counts: map<string, nat>)
      modifies `skipped
      ensures skipped == old(skipped) + SkipEntries(counts, SortedStrings(counts.Keys))
    {
      var peers := SortStrings(counts.Keys);
      for i := 0 to |peers|
        invariant skipped == old(skipped) + SkipEntries(counts, peers[..i])
      {
        assert peers[i] in peers;
        skipped := skipped + [PeerSkipped(peers[i], counts[peers[i]])];
        assert SkipEntries(counts, peers[..i + 1]) ==
          SkipEntries(counts, peers[..i]) + [PeerSkipped(peers[i], counts[peers[i]])];
      }
      assert peers[..|peers|] == peers;
    }

    method ClassifyVlanEdges(t: Topology, outputs: Outputs)
      modifies this
      ensures Contents() == WithEdges(old(Contents()), outputs, Edges(t.bmcRule, t.machines))
    {
      var es := ExpectedL2Edges(t);
      var counts: map<string, nat> := map[];
      ghost var d := Contents();
      for i := 0 to |es|
        invariant counts == SkipCounts(outputs, es[..i])
        invariant Contents() == WithOutcomes(d, outputs, es[..i])
      {
        OneMoreEdge(d, outputs, es, i);
        counts := ClassifyEdge(es[i], outputs, counts);
      }
      assert es[..|es|] == es;
      ReportSkips(counts);
    }

    method FallbackTargetWarning(v: Verdict)
      modifies `warned, `warnings
      ensures warned == old(warned) + {(v.dstRack, v.repTarget)}
      ensures warnings == old(warnings)
        + if (v.dstRack, v.repTarget) in old(warned) then [] else [FallbackAnswered(v.dstRack, v.repTarget)]
    {
      var key := (v.dstRack, v.repTarget);
      if key in warned {
        assert warned == warned + {key};
        return;
      }
      warned := warned + {key};
      warnings := warnings + [FallbackAnswered(v.dstRack, v.repTarget)];
    }

    /** What the failing directions of a link add, and the indeterminate
        directions still to report. */
    method ReconcileFailures(pair: (string, string), outputs: Outputs, vs: seq<Verdict>) returns (open: seq<Verdict>)
      requires |vs| <= 2
      modifies `inferred, `warnings, `inconclusive
      ensures open == Reported(outputs, vs)
      ensures inferred == old(inferred) + LinkInferred(pair, vs)
      ensures warnings == old(warnings) + LinkWarnings(outputs, vs)
      ensures inconclusive == old(inconclusive) + LinkUnconfirmed(pair, outputs, vs)
    {
      var failures, healthy := Keep(IsFailure, vs), Keep(IsHealthy, vs);
      open := Keep(IsIndeterminate, vs);
      KeepShorter(IsFailure, vs);
      if |failures| == 2 {
        KeepElements(IsFailure, vs);
        assert failures[0] in failures;
        inferred := inferred + [LinkFailure(pair, [failures[0].src, failures[1].src], failures[0].state.finding)];
      } else if failures != [] {
        var v := failures[0];
        if RepUnhealthy(outputs, v.repTarget) {
          warnings := warnings + [TargetUnhealthy(v.srcRack, v.dstRack, v.repTarget)];
          open := Keep(IsNot(v.dstRack, v.srcRack), open);
        } else if healthy != [] {
          warnings := warnings + [Directional(v.srcRack, v.dstRack, v.src)];
        } else {
          inconclusive := inconclusive + [Unconfirmed(pair, v.src)];
          open := Keep(IsNot(v.dstRack, v.srcRack), open);
        }
      }
    }

    method ReconcileBgpLink(s: Selections, outputs: Outputs, a: string, b: string)
      modifies this
      ensures Contents() == WithLink(old(Contents()), s, outputs, a, b)
    {
      var vs := LinkVerdicts(s, outputs, a, b);
      var open := ReconcileFailures(SortedPair(a, b), outputs, vs);
      assert Contents() == WithFailures(old(Contents()), SortedPair(a, b), outputs, vs);
      PassHealthy(Keep(IsHealthy, vs));
      NoteOpen(open);
    }

    method PassHealthy(healthy: seq<Verdict>)
      modifies this
      ensures Contents() == AddAllHealthy(old(Contents()), healthy)
    {
      for i := 0 to |healthy|
        invariant Contents() == AddAllHealthy(old(Contents()), healthy[..i])
      {
        var v := healthy[i];
        assert healthy[..i + 1][..i] == healthy[..i];
        passed := passed + [PassOf(v)];
        if v.state.OnFallback? {
          FallbackTargetWarning(v);
        }
      }
      assert healthy[..|healthy|] == healthy;
    }

    method NoteOpen(open: seq<Verdict>)
      modifies `inconclusive
      ensures inconclusive == old(inconclusive) + Notes(open)
    {
      for i := 0 to |open|
        invariant inconclusive == old(inconclusive) + Notes(open[..i])
      {
        inconclusive := inconclusive + [Note(open[i])];
        assert Notes(open[..i + 1]) == Notes(open[..i]) + [Note(open[i])];
      }
      assert open[..|open|] == open;
    }

    method WarnAsymmetries(observed: Observed)
      modifies `warnings
      ensures warnings == old(warnings) + Asymmetries(observed, SortedPairs(observed.Keys))
    {
      var links := SortPairs(observed.Keys);
      WarnAsymmetriesOn(observed, links);
    }

    method WarnAsymmetriesOn(observed: Observed, links: seq<(string, string)>)
      requires forall l :: l in links ==> l in observed
      modifies `warnings
      ensures warnings == old(warnings) + Asymmetries(observed, links)
    {
      for i := 0 to |links|
        invariant warnings == old(warnings) + Asymmetries(observed, links[..i])
      {
        assert links[..i + 1][..i] == links[..i];
        assert links[i] in links;
        var values := observed[links[i]];
        if |values| == 2 && |values.Values| > 1 {
          warnings := warnings + [MtuAsymmetry(links[i])];
        }
      }
      assert links[..|links|] == links;
    }

    method ClassifyMtu(s: Selections, outputs: Outputs)
      modifies this
      ensures Contents() == WithMtuSection(old(Contents()), s, outputs)
    {
      var srcs := SortStrings(s.Keys);
      var observed := ClassifyMtuOver(s, outputs, srcs);
      WarnAsymmetries(observed);
    }

    /** The loop over the source racks. */
    method ClassifyMtuOver(s: Selections, outputs: Outputs, srcs: seq<string>) returns (observed: Observed)
      requires forall r :: r in srcs ==> r in s
      modifies this
      ensures Contents() == WithMtus(old(Contents()), outputs, PathsFromAll(s, srcs))
      ensures observed == ObserveAll(outputs, PathsFromAll(s, srcs))
    {
      observed := map[];
      ghost var d := Contents();
      for i := 0 to |srcs|
        invariant Contents() == WithMtus(d, outputs, PathsFromAll(s, srcs[..i]))
        invariant observed == ObserveAll(outputs, PathsFromAll(s, srcs[..i]))
      {
        assert srcs[i] in srcs;
        assert srcs[..i + 1][..i] == srcs[..i];
        observed := ClassifyMtuFrom(s, outputs, srcs[i], observed, d, PathsFromAll(s, srcs[..i]));
      }
      assert srcs[..|srcs|] == srcs;
    }

    method ClassifyMtuFrom(
      s: Selections, outputs: Outputs, src: string, before: Observed, ghost d: Doc, ghost done: seq<Path>)
      returns (observed: Observed)
      requires src in s
      requires Contents() == WithMtus(d, outputs, done) && before == ObserveAll(outputs, done)
      modifies this
      ensures Contents() == WithMtus(d, outputs, done + RackPaths(s, src))
      ensures observed == ObserveAll(outputs, done + RackPaths(s, src))
    {
      var dsts := SortStrings(s[src].targets.Keys);
      observed := ClassifyMtuTargets(src, s[src].source, dsts, outputs, before, d, done);
    }

    /** The loop over the targets of one source rack. */
    method ClassifyMtuTargets(src: string, source: string, dsts: seq<string>, outputs: Outputs, before: Observed,
                              ghost d: Doc, ghost done: seq<Path>)
      returns (observed: Observed)
      requires Contents() == WithMtus(d, outputs, done) && before == ObserveAll(outputs, done)
      modifies this
      ensures Contents() == WithMtus(d, outputs, done + PathsFrom(src, source, dsts))
      ensures observed == ObserveAll(outputs, done + PathsFrom(src, source, dsts))
    {
      observed := before;
      ghost var ps := PathsFrom(src, source, dsts);
      assert done + ps[..0] == done;
      for j := 0 to |dsts|
        invariant Contents() == WithMtus(d, outputs, done + ps[..j])
        invariant observed == ObserveAll(outputs, done + ps[..j])
      {
        OneMorePath(d, outputs, done + ps[..j], ps[j]);
        assert (done + ps[..j]) + [ps[j]] == done + ps[..j + 1];
        observed := ClassifyMtuPath(Path(src, dsts[j], source), outputs, observed);
      }
      assert ps[..|dsts|] == ps;
    }

    method ClassifyMtuPath(p: Path, outputs: Outputs, before: Observed) returns (observed: Observed)
      modifies this
      ensures Contents() == WithMtu(old(Contents()), outputs, p)
      ensures observed == Observe(before, outputs, p)
    {
      observed := before;
      var m := MtuOf(outputs, p.source, p.dst);
      if m.Some? {
        observations := observations + [MtuObserved(m.value, RepUnhealthy(outputs, p.source))];
        if m.value.status == Success {
          var link := SortedPair(p.src, p.dst);
          observed := observed[link := (if link in observed then observed[link] else map[])[p.src := m.value.mtu]];
        }
      }
      if m.None? || m.value.status.Stopped? {
        inconclusive := inconclusive + [MtuNotMeasured(p.src, p.dst, p.source)];
      }
    }

    method ClassifyCrossRack(t: Topology, outputs: Outputs)
      modifies this
      ensures Contents() == WithCrossRack(old(Contents()), t, outputs)
    {
      var r := SelectRepresentatives(t);
      if r.ValueError? { return; }
      var s := r.value;
      var links := SortPairs(LinkSet(s));
      ReconcileLinks(s, outputs, links);
      ClassifyMtu(s, outputs);
    }

    method ReconcileLinks(s: Selections, outputs: Outputs, links: seq<(string, string)>)
      modifies this
      ensures Contents() == WithLinks(old(Contents()), s, outputs, links)
    {
      for i := 0 to |links|
        invariant Contents() == WithLinks(old(Contents()), s, outputs, links[..i])
      {
        assert links[..i + 1][..i] == links[..i];
        ReconcileBgpLink(s, outputs, links[i].0, links[i].1);
      }
      assert links[..|links|] == links;
    }
  }

  lemma {:induction false} KeepShorter<T>(p: T -> bool, s: seq<T>)
    ensures |Keep(p, s)| <= |s|
  {
    if s != [] { KeepShorter(p, s[1..]); }
  }

  method GenerateReport(outputs: seq<ProbeOutput>, missing: seq<MissingNode>, topology: Option<Topology>)
    returns (report: Report)
    ensures fresh(report)
    ensures report.Contents() == ReportDoc(outputs, missing, topology)
    ensures var d := ReportDoc(outputs, missing, topology);
      && report.definitive == d.definitive && report.inferred == d.inferred && report.warnings == d.warnings
      && report.inconclusive == d.inconclusive && report.skipped == d.skipped
      && report.observations == d.observations && report.missing == d.missing && report.passed == d.passed
  {
    report := new Report(missing);
    for i := 0 to |outputs|
      invariant fresh(report)
      invariant report.Contents() == FileOutputs(EMPTY.(missing := missing), outputs[..i])
    {
      assert outputs[..i + 1][..i] == outputs[..i];
      report.FileProbeOutput(outputs[i]);
    }
    assert outputs[..|outputs|] == outputs;
    ghost var d := report.Contents();
    for i := 0 to |missing|
      invariant fresh(report)
      invariant report.Contents() == d.(inconclusive := d.inconclusive + MissingEntries(missing[..i]))
    {
      report.inconclusive := report.inconclusive + [NodeMissing(missing[i].systemId)];
      assert MissingEntries(missing[..i + 1]) == MissingEntries(missing[..i]) + [NodeMissing(missing[i].systemId)];
    }
    assert missing[..|missing|] == missing;
    if topology.Some? {
      var bySid := BySid(outputs);
      report.ClassifyVlanEdges(topology.value, bySid);
      report.ClassifyCrossRack(topology.value, bySid);
    }
  }
}
