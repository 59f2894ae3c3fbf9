/** The finished report, entry by entry: which entries each of its lists holds and
    which checks it passes, in terms of the outputs, the edges, and the two
    directions of every rack link (cli/report_generator.py). */
module ReportEntries {
  import opened Order
  import opened Topology
  import opened Representatives
  import opened ProbeOutput
  import opened L2Edges
  import opened Verdicts
  import opened ReportGenerator
  import opened ReportAccounting
  import ReportContents
  import opened ExitCodeSoundness

  /** The lists of a report that findings are filed in. */
  datatype List = Definitives | Inferreds | Warnings | Inconclusives | Observations

  function ListOf(d: Doc, l: List): seq<Entry> {
    match l
    case Definitives => d.definitive
    case Inferreds => d.inferred
    case Warnings => d.warnings
    case Inconclusives => d.inconclusive
    case Observations => d.observations
  }

  // ----- outputs and missing nodes ------------------------------------------

  /** A finding of that classification in some section of some output. */
  ghost predicate Filed(os: seq<ProbeOutput>, c: Classification, e: Entry) {
    exists o, f ::
      && o in os && (f in o.bondFindings || f in o.vlanFindings || f in o.mtuFindings || f in o.bgpFindings)
      && f.classification == c && e == Found(o.hostname, f)
  }

  ghost predicate Incomplete(os: seq<ProbeOutput>, e: Entry) {
    exists o :: o in os && o.status != Complete && e == ProbeIncomplete(o.hostname, o.status)
  }

  ghost predicate FromOutputs(os: seq<ProbeOutput>, l: List, e: Entry) {
    match l
    case Definitives => Filed(os, Definitive, e)
    case Inferreds => Filed(os, Inferred, e)
    case Warnings => Filed(os, Unclassified, e)
    case Inconclusives => Filed(os, Undetermined, e) || Incomplete(os, e)
    case Observations => Filed(os, Informational, e)
  }

  ghost predicate FromMissing(missing: seq<MissingNode>, l: List, e: Entry) {
    l == Inconclusives && exists m :: m in missing && e == NodeMissing(m.systemId)
  }

  function KindOf(l: List): Classification {
    match l
    case Definitives => Definitive
    case Inferreds => Inferred
    case Warnings => Unclassified
    case Inconclusives => Undetermined
    case Observations => Informational
  }

  /** Filing an output adds its findings of one kind to each list. */
  lemma OutputAppends(d: Doc, o: ProbeOutput, l: List)
    ensures ListOf(FileOutput(d, o), l)
            == (ListOf(d, l)
                + if l == Inconclusives && o.status != Complete then [ProbeIncomplete(o.hostname, o.status)] else [])
               + FoundOf(o.hostname, AllFindings(o), KindOf(l))
    ensures FileOutput(d, o).skipped == d.skipped && FileOutput(d, o).passed == d.passed
  {
    var d' :=
      if o.status != Complete then d.(inconclusive := d.inconclusive + [ProbeIncomplete(o.hostname, o.status)]) else d;
    FileAllPartitions(d', o.hostname, AllFindings(o));
    assert forall s: seq<Entry> :: s + [] == s;
  }

  lemma OutputFiled(d: Doc, o: ProbeOutput, l: List, e: Entry)
    ensures e in ListOf(FileOutput(d, o), l) <==> e in ListOf(d, l) || FromOutputs([o], l, e)
  {
    OutputAppends(d, o, l);
    ReportContents.FoundOfMembers(o.hostname, AllFindings(o), KindOf(l), e);
    assert forall f :: f in AllFindings(o) <==>
      f in o.bondFindings || f in o.vlanFindings || f in o.mtuFindings || f in o.bgpFindings;
  }

  lemma FromOneMore(os: seq<ProbeOutput>, o: ProbeOutput, l: List, e: Entry)
    ensures FromOutputs(os + [o], l, e) <==> FromOutputs(os, l, e) || FromOutputs([o], l, e)
  {
    assert forall x :: x in os + [o] <==> x in os || x in [o];
  }

  lemma {:induction false} OutputsFiled(d: Doc, os: seq<ProbeOutput>, l: List, e: Entry)
    ensures e in ListOf(FileOutputs(d, os), l) <==> e in ListOf(d, l) || FromOutputs(os, l, e)
    ensures FileOutputs(d, os).skipped == d.skipped && FileOutputs(d, os).passed == d.passed
  {
    if os != [] {
      var n := |os| - 1;
      OutputsFiled(d, os[..n], l, e);
      OutputFiled(FileOutputs(d, os[..n]), os[n], l, e);
      OutputAppends(FileOutputs(d, os[..n]), os[n], l);
      FromOneMore(os[..n], os[n], l, e);
      assert os == os[..n] + [os[n]];
    }
  }

  lemma CollectedMembers(outputs: seq<ProbeOutput>, missing: seq<MissingNode>, l: List, e: Entry)
    ensures var d := Collected(outputs, missing);
      && (e in ListOf(d, l) <==> FromOutputs(outputs, l, e) || FromMissing(missing, l, e))
      && d.skipped == [] && d.passed == []
  {
    OutputsFiled(EMPTY.(missing := missing), outputs, l, e);
    var entries := MissingEntries(missing);
    if m :| m in missing && e == NodeMissing(m.systemId) {
      var k :| 0 <= k < |missing| && missing[k] == m;
      assert entries[k] == e;
    }
  }

  // ----- edges --------------------------------------------------------------

  predicate Confirms(outputs: Outputs, a: Machine, b: Machine) { DirectionState(outputs, a, b) == Confirmed }
  predicate IsMute(outputs: Outputs, a: Machine, b: Machine) { DirectionState(outputs, a, b) == NoData }

  /** One direction of the edge is confirmed and the other is not heard of. */
  predicate OneSided(outputs: Outputs, x: Edge, e: Entry) {
    && x.a.inScope && x.b.inScope
    && ((Confirms(outputs, x.a, x.b) && IsMute(outputs, x.b, x.a) && e == Unidirectional(x.a.hostname, x.b.hostname))
        || (IsMute(outputs, x.a, x.b) && Confirms(outputs, x.b, x.a)
            && e == Unidirectional(x.b.hostname, x.a.hostname)))
  }

  predicate NotHeardOf(outputs: Outputs, x: Edge, e: Entry) {
    && x.a.inScope && x.b.inScope && IsMute(outputs, x.a, x.b) && IsMute(outputs, x.b, x.a)
    && e == EdgeNoData((x.a.hostname, x.b.hostname))
  }

  /** Neither direction failed, and one at least is confirmed. */
  predicate PassedEdge(outputs: Outputs, x: Edge, p: Pass) {
    && x.a.inScope && x.b.inScope
    && !DirectionState(outputs, x.a, x.b).Failed? && !DirectionState(outputs, x.b, x.a).Failed?
    && (Confirms(outputs, x.a, x.b) || Confirms(outputs, x.b, x.a))
    && p == EdgePass(SortedPair(x.a.hostname, x.b.hostname),
                     Confirms(outputs, x.a, x.b) && Confirms(outputs, x.b, x.a))
  }

  ghost predicate SomeEdgePasses(outputs: Outputs, es: seq<Edge>, p: Pass) {
    exists x :: x in es && PassedEdge(outputs, x, p)
  }

  ghost predicate FromEdges(outputs: Outputs, es: seq<Edge>, l: List, e: Entry) {
    match l
    case Warnings => exists x :: x in es && OneSided(outputs, x, e)
    case Inconclusives => exists x :: x in es && NotHeardOf(outputs, x, e)
    case _ => false
  }

  /** The machine left out of the edge has that id. */
  function LeftOut(id: string): Edge -> bool {
    (x: Edge) => (!x.a.inScope && x.a.systemId == id) || (x.a.inScope && !x.b.inScope && x.b.systemId == id)
  }

  /** What becomes of an edge: skipped for the end out of scope, failed in some
      direction, or as above. */
  lemma OutcomeMeaning(outputs: Outputs, x: Edge)
    ensures forall id :: Outcome(outputs, x) == SkippedFor(id) <==> LeftOut(id)(x)
    ensures Outcome(outputs, x) == EdgeFailed <==>
      && x.a.inScope && x.b.inScope
      && (DirectionState(outputs, x.a, x.b) == Failed || DirectionState(outputs, x.b, x.a) == Failed)
    ensures forall e :: e in EdgeWarning(Outcome(outputs, x)) <==> OneSided(outputs, x, e)
    ensures forall e :: e in EdgeUnknown(Outcome(outputs, x), x) <==> NotHeardOf(outputs, x, e)
    ensures forall p :: p in EdgePassed(Outcome(outputs, x), x) <==> PassedEdge(outputs, x, p)
  {
  }

  lemma {:induction false} EdgeMembers(outputs: Outputs, es: seq<Edge>, e: Entry, p: Pass)
    ensures e in EdgeWarnings(outputs, es) <==> exists x :: x in es && OneSided(outputs, x, e)
    ensures e in EdgeUnknowns(outputs, es) <==> exists x :: x in es && NotHeardOf(outputs, x, e)
    ensures p in EdgePasses(outputs, es) <==> SomeEdgePasses(outputs, es, p)
  {
    if es != [] {
      var before, last := es[..|es| - 1], es[|es| - 1];
      EdgeMembers(outputs, before, e, p);
      OutcomeMeaning(outputs, last);
      assert es == before + [last];
    }
  }

  lemma {:induction false} SkipsCounted(outputs: Outputs, es: seq<Edge>, id: string)
    ensures Count(SkipCounts(outputs, es), id) == |Keep(LeftOut(id), es)|
    ensures id in SkipCounts(outputs, es) <==> Count(SkipCounts(outputs, es), id) > 0
  {
    if es != [] {
      var n := |es| - 1;
      SkipsCounted(outputs, es[..n], id);
      OutcomeMeaning(outputs, es[n]);
      KeepLast(LeftOut(id), es);
    }
  }

  lemma SkipMembers(outputs: Outputs, es: seq<Edge>, e: Entry)
    ensures e in SkipEntries(SkipCounts(outputs, es), SortedStrings(SkipCounts(outputs, es).Keys)) <==>
      e.PeerSkipped? && e.count == |Keep(LeftOut(e.peer), es)| && e.count > 0
  {
    var counts := SkipCounts(outputs, es);
    var peers := SortedStrings(counts.Keys);
    var entries := SkipEntries(counts, peers);
    if e.PeerSkipped? {
      SkipsCounted(outputs, es, e.peer);
      if e.peer in counts {
        assert e.peer in peers;
        var k :| 0 <= k < |peers| && peers[k] == e.peer;
        assert entries[k] == PeerSkipped(e.peer, Count(counts, e.peer));
      }
    }
    if e in entries {
      var k :| 0 <= k < |entries| && entries[k] == e;
      assert peers[k] in peers;
    }
  }

  lemma EdgeStage(d: Doc, outputs: Outputs, es: seq<Edge>, l: List, e: Entry)
    ensures e in ListOf(WithEdges(d, outputs, es), l) <==> e in ListOf(d, l) || FromEdges(outputs, es, l, e)
  {
    EdgeMembers(outputs, es, e, EdgePass(("", ""), false));
  }

  // ----- rack links ---------------------------------------------------------

  predicate Answers(v: Verdict) { v.state == Healthy || v.state == OnFallback }
  predicate Open(v: Verdict) { v.state == NoRecord || v.state.NotDetermined? }

  /** What the direction `v` of a link puts into a list, when `w` is its reverse. */
  predicate VerdictSays(v: Verdict, w: Verdict, l: List, e: Entry) {
    var pair := SortedPair(v.srcRack, v.dstRack);
    match l
    case Inferreds =>
      && v.state.FabricFailure? && w.state.FabricFailure? && pair == (v.srcRack, v.dstRack)
      && e == LinkFailure(pair, [v.src, w.src], v.state.finding)
    case Warnings =>
      || (v.state.FabricFailure? && w.state == Gated && e == TargetUnhealthy(v.srcRack, v.dstRack, v.repTarget))
      || (v.state.FabricFailure? && Answers(w) && e == Directional(v.srcRack, v.dstRack, v.src))
    case Inconclusives =>
      || (v.state.FabricFailure? && Open(w) && e == Unconfirmed(pair, v.src))
      || ((v.state == Gated || Open(v)) && !w.state.FabricFailure?
          && e == PathUndetermined(v.srcRack, v.dstRack, v.src, v.state))
    case _ => false
  }

  /** What the direction from `a` to `b` puts into a list. */
  predicate DirectionSays(s: Selections, outputs: Outputs, a: string, b: string, l: List, e: Entry) {
    && Targets(s, a, b) && Targets(s, b, a)
    && VerdictSays(BgpVerdict(s, outputs, a, b), BgpVerdict(s, outputs, b, a), l, e)
  }

  /** The direction from `a` to `b` is answered by the fallback only. */
  predicate WarnsOfFallback(s: Selections, outputs: Outputs, a: string, b: string, e: Entry) {
    && Targets(s, a, b) && BgpVerdict(s, outputs, a, b).state == OnFallback
    && e == FallbackAnswered(b, s[a].targets[b].representative)
  }

  ghost predicate FallbackOnly(s: Selections, outputs: Outputs, l: List, e: Entry) {
    l == Warnings && exists a, b :: WarnsOfFallback(s, outputs, a, b, e)
  }

  ghost predicate SomeDirection(s: Selections, outputs: Outputs, l: List, e: Entry) {
    exists a, b :: DirectionSays(s, outputs, a, b, l, e)
  }

  ghost predicate FromLinks(s: Selections, outputs: Outputs, l: List, e: Entry) {
    SomeDirection(s, outputs, l, e) || FallbackOnly(s, outputs, l, e)
  }

  /** The direction from `a` to `b` passes. */
  predicate PathPasses(s: Selections, outputs: Outputs, a: string, b: string, p: Pass) {
    Targets(s, a, b) && Answers(BgpVerdict(s, outputs, a, b)) && p == PathPass(a, b, s[a].source)
  }

  function LinkList(out: LinkEntries, l: List): seq<Entry> {
    match l
    case Inferreds => out.inferred
    case Warnings => out.warnings
    case Inconclusives => out.inconclusive
    case _ => []
  }

  lemma TableSays(pair: (string, string), v: Verdict, w: Verdict, l: List, e: Entry)
    requires v.srcRack == w.dstRack && v.dstRack == w.srcRack && v.srcRack != v.dstRack
    requires SortedPair(v.srcRack, v.dstRack) == pair == SortedPair(w.srcRack, w.dstRack) == (v.srcRack, v.dstRack)
    ensures e in LinkList(LinkOutcome(pair, v, w), l) <==> VerdictSays(v, w, l, e) || VerdictSays(w, v, l, e)
  {
  }

  lemma LinkSays(s: Selections, outputs: Outputs, a: string, b: string, l: List, e: Entry)
    requires Coherent(s) && a in s && b in s && a != b && SortedPair(a, b) == (a, b)
    ensures e in LinkList(EntriesOf(s, outputs, a, b), l) <==>
      DirectionSays(s, outputs, a, b, l, e) || DirectionSays(s, outputs, b, a, l, e)
  {
    LinkTable(s, outputs, a, b);
    PairSymmetric(a, b);
    TableSays((a, b), BgpVerdict(s, outputs, a, b), BgpVerdict(s, outputs, b, a), l, e);
  }

  /** Warnings apart from those about fallbacks. */
  lemma {:induction false} HealthyWarnings(d: Doc, vs: seq<Verdict>, e: Entry)
    requires !e.FallbackAnswered?
    ensures e in AddAllHealthy(d, vs).warnings <==> e in d.warnings
  {
    if vs != [] { HealthyWarnings(d, vs[..|vs| - 1], e); }
  }

  lemma LinkStep(d: Doc, s: Selections, outputs: Outputs, a: string, b: string, l: List, e: Entry)
    requires l == Warnings ==> !e.FallbackAnswered?
    ensures e in ListOf(WithLink(d, s, outputs, a, b), l) <==>
      e in ListOf(d, l) || e in LinkList(EntriesOf(s, outputs, a, b), l)
  {
    var vs := LinkVerdicts(s, outputs, a, b);
    var d1 := WithFailures(d, SortedPair(a, b), outputs, vs);
    if l == Warnings { HealthyWarnings(d1, Keep(IsHealthy, vs), e); }
    HealthyAdds(d1, Keep(IsHealthy, vs));
  }

  ghost predicate LinkPuts(s: Selections, outputs: Outputs, k: (string, string), l: List, e: Entry) {
    e in LinkList(EntriesOf(s, outputs, k.0, k.1), l)
  }

  ghost predicate LinksPut(s: Selections, outputs: Outputs, links: seq<(string, string)>, l: List, e: Entry) {
    exists k :: k in links && LinkPuts(s, outputs, k, l, e)
  }

  lemma OneMorePuts(
    s: Selections, outputs: Outputs, links: seq<(string, string)>, k: (string, string), l: List, e: Entry)
    ensures LinksPut(s, outputs, links + [k], l, e) <==>
      LinksPut(s, outputs, links, l, e) || LinkPuts(s, outputs, k, l, e)
  {
    assert k in links + [k] && forall j :: j in links ==> j in links + [k];
  }

  /** One more link, with the documents before and after it named. */
  lemma LinksGrow(
    d: Doc, w: Doc, w': Doc, s: Selections, outputs: Outputs, before: seq<(string, string)>, k: (string, string),
    links: seq<(string, string)>, l: List, e: Entry)
    requires l == Warnings ==> !e.FallbackAnswered?
    requires links == before + [k] && w' == WithLink(w, s, outputs, k.0, k.1)
    requires e in ListOf(w, l) <==> e in ListOf(d, l) || LinksPut(s, outputs, before, l, e)
    ensures e in ListOf(w', l) <==> e in ListOf(d, l) || LinksPut(s, outputs, links, l, e)
  {
    LinkStep(w, s, outputs, k.0, k.1, l, e);
    OneMorePuts(s, outputs, before, k, l, e);
  }

  lemma {:induction false} LinksStep(
    d: Doc, s: Selections, outputs: Outputs, links: seq<(string, string)>, l: List, e: Entry)
    requires l == Warnings ==> !e.FallbackAnswered?
    ensures e in ListOf(WithLinks(d, s, outputs, links), l) <==> e in ListOf(d, l) || LinksPut(s, outputs, links, l, e)
  {
    if links != [] {
      var before, k := links[..|links| - 1], links[|links| - 1];
      assert links == before + [k];
      LinksStep(d, s, outputs, before, l, e);
      LinksGrow(
        d, WithLinks(d, s, outputs, before), WithLinks(d, s, outputs, links), s, outputs, before, k, links, l, e);
    }
  }

  lemma LinkIsSorted(s: Selections, k: (string, string))
    requires Coherent(s) && k in LinkSet(s)
    ensures k.0 in s && k.1 in s && k.0 != k.1 && SortedPair(k.0, k.1) == k
  {
    var a, b :| a in s && b in s[a].targets && k == SortedPair(a, b);
    PairSymmetric(a, b);
  }

  lemma SaysOfLink(s: Selections, outputs: Outputs, k: (string, string), l: List, e: Entry)
    requires Coherent(s) && k in LinkSet(s)
    ensures LinkPuts(s, outputs, k, l, e) <==>
      DirectionSays(s, outputs, k.0, k.1, l, e) || DirectionSays(s, outputs, k.1, k.0, l, e)
  {
    LinkIsSorted(s, k);
    LinkSays(s, outputs, k.0, k.1, l, e);
  }

  lemma DirectionOfLink(s: Selections, outputs: Outputs, k: (string, string), l: List, e: Entry)
    returns (a: string, b: string)
    requires Coherent(s) && k in LinkSet(s) && LinkPuts(s, outputs, k, l, e)
    ensures DirectionSays(s, outputs, a, b, l, e)
  {
    SaysOfLink(s, outputs, k, l, e);
    a, b := k.0, k.1;
    if !DirectionSays(s, outputs, a, b, l, e) { a, b := k.1, k.0; }
  }

  lemma LinkOfDirection(s: Selections, outputs: Outputs, a: string, b: string, l: List, e: Entry)
    requires Coherent(s) && DirectionSays(s, outputs, a, b, l, e)
    ensures SortedPair(a, b) in LinkSet(s) && LinkPuts(s, outputs, SortedPair(a, b), l, e)
  {
    assert Targets(s, a, b);
    SaysOfLink(s, outputs, SortedPair(a, b), l, e);
  }

  lemma LinksSay(s: Selections, outputs: Outputs, links: seq<(string, string)>, l: List, e: Entry)
    requires Coherent(s) && forall k :: k in links <==> k in LinkSet(s)
    ensures LinksPut(s, outputs, links, l, e) <==> SomeDirection(s, outputs, l, e)
  {
    if LinksPut(s, outputs, links, l, e) {
      var k :| k in links && LinkPuts(s, outputs, k, l, e);
      var a, b := DirectionOfLink(s, outputs, k, l, e);
    }
    if SomeDirection(s, outputs, l, e) {
      var a, b :| DirectionSays(s, outputs, a, b, l, e);
      LinkOfDirection(s, outputs, a, b, l, e);
    }
  }

  // ----- passed paths -------------------------------------------------------

  predicate PassesOf(v: Verdict, p: Pass) { IsHealthy(v) && p == PathPass(v.srcRack, v.dstRack, v.src) }

  lemma {:induction false} HealthyPasses(d: Doc, vs: seq<Verdict>, p: Pass)
    ensures p in AddAllHealthy(d, vs).passed <==>
      p in d.passed || exists v :: v in vs && p == PathPass(v.srcRack, v.dstRack, v.src)
  {
    if vs != [] {
      var n := |vs| - 1;
      HealthyPasses(d, vs[..n], p);
      assert vs == vs[..n] + [vs[n]];
    }
  }

  ghost predicate LinkPasses(s: Selections, outputs: Outputs, k: (string, string), p: Pass) {
    exists v :: v in LinkVerdicts(s, outputs, k.0, k.1) && PassesOf(v, p)
  }

  lemma LinkPassStep(d: Doc, s: Selections, outputs: Outputs, k: (string, string), p: Pass)
    ensures p in WithLink(d, s, outputs, k.0, k.1).passed <==> p in d.passed || LinkPasses(s, outputs, k, p)
    ensures WithLink(d, s, outputs, k.0, k.1).skipped == d.skipped
  {
    var vs := LinkVerdicts(s, outputs, k.0, k.1);
    var d1 := WithFailures(d, SortedPair(k.0, k.1), outputs, vs);
    HealthyPasses(d1, Keep(IsHealthy, vs), p);
    HealthyAdds(d1, Keep(IsHealthy, vs));
    KeepElements(IsHealthy, vs);
  }

  lemma {:induction false} LinksPassStep(
    d: Doc, s: Selections, outputs: Outputs, links: seq<(string, string)>, p: Pass)
    ensures p in WithLinks(d, s, outputs, links).passed <==>
      p in d.passed || SomeLinkPasses(s, outputs, links, p)
    ensures WithLinks(d, s, outputs, links).skipped == d.skipped
  {
    if links != [] {
      var before, last := links[..|links| - 1], links[|links| - 1];
      LinksPassStep(d, s, outputs, before, p);
      LinkPassStep(WithLinks(d, s, outputs, before), s, outputs, last, p);
      assert links == before + [last];
    }
  }

  lemma PassOfLink(s: Selections, outputs: Outputs, k: (string, string), p: Pass)
    ensures LinkPasses(s, outputs, k, p) <==>
      PathPasses(s, outputs, k.0, k.1, p) || PathPasses(s, outputs, k.1, k.0, p)
  {
    var vs := LinkVerdicts(s, outputs, k.0, k.1);
    if PathPasses(s, outputs, k.0, k.1, p) { assert BgpVerdict(s, outputs, k.0, k.1) in vs; }
    if PathPasses(s, outputs, k.1, k.0, p) { assert BgpVerdict(s, outputs, k.1, k.0) in vs; }
  }

  ghost predicate SomePathPasses(s: Selections, outputs: Outputs, p: Pass) {
    exists a, b :: PathPasses(s, outputs, a, b, p)
  }

  ghost predicate SomeLinkPasses(s: Selections, outputs: Outputs, links: seq<(string, string)>, p: Pass) {
    exists k :: k in links && LinkPasses(s, outputs, k, p)
  }

  lemma LinksPass(s: Selections, outputs: Outputs, links: seq<(string, string)>, p: Pass)
    requires forall k :: k in links <==> k in LinkSet(s)
    ensures SomeLinkPasses(s, outputs, links, p) <==> SomePathPasses(s, outputs, p)
  {
    if SomeLinkPasses(s, outputs, links, p) {
      var k :| k in links && LinkPasses(s, outputs, k, p);
      PassOfLink(s, outputs, k, p);
    }
    if SomePathPasses(s, outputs, p) {
      var a, b :| PathPasses(s, outputs, a, b, p);
      var k := SortedPair(a, b);
      assert k in LinkSet(s);
      PassOfLink(s, outputs, k, p);
    }
  }

  // ----- MTU ----------------------------------------------------------------

  /** What the measurement from `a` to `b` puts into a list. */
  predicate MeasurementSays(s: Selections, outputs: Outputs, a: string, b: string, l: List, e: Entry) {
    && Targets(s, a, b)
    && var m := MtuOf(outputs, s[a].source, b);
    match l
    case Observations => m.Some? && e == MtuObserved(m.value, RepUnhealthy(outputs, s[a].source))
    case Inconclusives => (m.None? || m.value.status.Stopped?) && e == MtuNotMeasured(a, b, s[a].source)
    case Warnings =>
      && Targets(s, b, a) && SortedPair(a, b) == (a, b)
      && var back := MtuOf(outputs, s[b].source, a);
      && m.Some? && back.Some? && m.value.status == Success && back.value.status == Success
      && m.value.mtu != back.value.mtu && e == MtuAsymmetry((a, b))
    case _ => false
  }

  ghost predicate FromMtus(s: Selections, outputs: Outputs, l: List, e: Entry) {
    exists a, b :: MeasurementSays(s, outputs, a, b, l, e)
  }

  predicate PathSays(outputs: Outputs, p: Path, l: List, e: Entry) {
    var m := MtuOf(outputs, p.source, p.dst);
    match l
    case Observations => m.Some? && e == MtuObserved(m.value, RepUnhealthy(outputs, p.source))
    case Inconclusives => (m.None? || m.value.status.Stopped?) && e == MtuNotMeasured(p.src, p.dst, p.source)
    case _ => false
  }

  lemma MtuStep(d: Doc, outputs: Outputs, p: Path, l: List, e: Entry)
    ensures e in ListOf(WithMtu(d, outputs, p), l) <==> e in ListOf(d, l) || PathSays(outputs, p, l, e)
  {
  }

  lemma {:induction false} MtusStep(d: Doc, outputs: Outputs, ps: seq<Path>, l: List, e: Entry)
    ensures e in ListOf(WithMtus(d, outputs, ps), l) <==>
      e in ListOf(d, l) || exists p :: p in ps && PathSays(outputs, p, l, e)
    ensures WithMtus(d, outputs, ps).skipped == d.skipped && WithMtus(d, outputs, ps).passed == d.passed
  {
    if ps != [] {
      var before, last := ps[..|ps| - 1], ps[|ps| - 1];
      MtusStep(d, outputs, before, l, e);
      MtuStep(WithMtus(d, outputs, before), outputs, last, l, e);
      assert ps == before + [last];
    }
  }

  lemma {:induction false} AsymmetryMembers(obs: Observed, links: seq<(string, string)>, e: Entry)
    ensures e in Asymmetries(obs, links) <==>
      exists k :: k in links && k in obs && Asymmetric(obs[k]) && e == MtuAsymmetry(k)
  {
    if links != [] {
      var before, last := links[..|links| - 1], links[|links| - 1];
      AsymmetryMembers(obs, before, e);
      AsymmetryStep(obs, before, last, links);
    }
  }

  lemma AsymmetriesSay(s: Selections, outputs: Outputs, e: Entry)
    requires Coherent(s)
    ensures var obs := ObserveAll(outputs, AllPaths(s));
      e in Asymmetries(obs, SortedPairs(obs.Keys)) <==> FromMtus(s, outputs, Warnings, e)
  {
    var obs := ObserveAll(outputs, AllPaths(s));
    AsymmetryMembers(obs, SortedPairs(obs.Keys), e);
    forall k ensures k in obs && Asymmetric(obs[k]) <==>
      LinkOfUniverse(s, k) && SortedPair(k.0, k.1) == k && !MtusAgree(s, outputs, k.0, k.1)
    {
      AsymmetricLink(s, outputs, k);
    }
    if a, b :| MeasurementSays(s, outputs, a, b, Warnings, e) { assert LinkOfUniverse(s, (a, b)); }
    if k :| k in SortedPairs(obs.Keys) && k in obs && Asymmetric(obs[k]) && e == MtuAsymmetry(k) {
      assert MeasurementSays(s, outputs, k.0, k.1, Warnings, e);
    }
  }

  lemma PathSaysOf(s: Selections, outputs: Outputs, a: string, b: string, l: List, e: Entry)
    requires Targets(s, a, b) && l != Warnings
    ensures PathSays(outputs, Path(a, b, s[a].source), l, e) <==> MeasurementSays(s, outputs, a, b, l, e)
  {
  }

  ghost predicate SomePathSays(s: Selections, outputs: Outputs, l: List, e: Entry) {
    exists p :: p in AllPaths(s) && PathSays(outputs, p, l, e)
  }

  lemma PathsSay(s: Selections, outputs: Outputs, l: List, e: Entry)
    requires l != Warnings
    ensures SomePathSays(s, outputs, l, e) <==> FromMtus(s, outputs, l, e)
  {
    if SomePathSays(s, outputs, l, e) {
      var p :| p in AllPaths(s) && PathSays(outputs, p, l, e);
      AllPathsMembers(s, p);
      PathSaysOf(s, outputs, p.src, p.dst, l, e);
    }
    if FromMtus(s, outputs, l, e) {
      var a, b :| MeasurementSays(s, outputs, a, b, l, e);
      PathSaysOf(s, outputs, a, b, l, e);
      AllPathsMembers(s, Path(a, b, s[a].source));
    }
  }

  lemma MtuStageMembers(d: Doc, s: Selections, outputs: Outputs, l: List, e: Entry)
    requires Coherent(s)
    ensures e in ListOf(WithMtuSection(d, s, outputs), l) <==> e in ListOf(d, l) || FromMtus(s, outputs, l, e)
    ensures WithMtuSection(d, s, outputs).skipped == d.skipped && WithMtuSection(d, s, outputs).passed == d.passed
  {
    MtusStep(d, outputs, AllPaths(s), l, e);
    if l == Warnings { AsymmetriesSay(s, outputs, e); } else { PathsSay(s, outputs, l, e); }
  }

  // ----- the whole report ---------------------------------------------------

  /** Every reason there is for an entry to be in a list of the report. */
  ghost predicate Says(
    outputs: seq<ProbeOutput>, missing: seq<MissingNode>, t: Topology, s: Selections, l: List, e: Entry)
  {
    || FromOutputs(outputs, l, e)
    || FromMissing(missing, l, e)
    || FromEdges(BySid(outputs), Edges(t.bmcRule, t.machines), l, e)
    || FromLinks(s, BySid(outputs), l, e)
    || FromMtus(s, BySid(outputs), l, e)
  }

  lemma OtherEntries(
    outputs: seq<ProbeOutput>, missing: seq<MissingNode>, t: Topology, s: Selections, l: List, e: Entry)
    requires Coherent(s) && SelectionsOf(t) == Ok(s) && (l == Warnings ==> !e.FallbackAnswered?)
    ensures e in ListOf(ReportDoc(outputs, missing, Some(t)), l) <==> Says(outputs, missing, t, s, l, e)
  {
    var bySid, es, links := BySid(outputs), Edges(t.bmcRule, t.machines), SortedPairs(LinkSet(s));
    var d := Collected(outputs, missing);
    CollectedMembers(outputs, missing, l, e);
    EdgeStage(d, bySid, es, l, e);
    LinksStep(WithEdges(d, bySid, es), s, bySid, links, l, e);
    LinksSay(s, bySid, links, l, e);
    MtuStageMembers(WithLinks(WithEdges(d, bySid, es), s, bySid, links), s, bySid, l, e);
  }

  /** No other reason gives a warning about a fallback. */
  lemma FallbackReason(
    outputs: seq<ProbeOutput>, missing: seq<MissingNode>, t: Topology, s: Selections, l: List, e: Entry)
    requires e.FallbackAnswered?
    ensures Says(outputs, missing, t, s, l, e) <==> FallbackOnly(s, BySid(outputs), l, e)
  {
  }

  lemma FallbackAgrees(s: Selections, outputs: Outputs, e: Entry)
    requires e.FallbackAnswered?
    ensures ReportContents.OnlyFallbackAnswers(s, outputs, e.rack, e.node) <==> FallbackOnly(s, outputs, Warnings, e)
  {
    if a :| Targets(s, a, e.rack) && ReportContents.FallsBack(BgpVerdict(s, outputs, a, e.rack), e.rack, e.node) {
      assert WarnsOfFallback(s, outputs, a, e.rack, e);
    }
    if a, b :| WarnsOfFallback(s, outputs, a, b, e) {
      assert ReportContents.FallsBack(BgpVerdict(s, outputs, a, b), e.rack, e.node);
    }
  }

  lemma FallbackEntries(
    outputs: seq<ProbeOutput>, missing: seq<MissingNode>, t: Topology, s: Selections, e: Entry)
    requires SelectionsOf(t) == Ok(s) && e.FallbackAnswered?
    ensures e in ReportDoc(outputs, missing, Some(t)).warnings <==> FallbackOnly(s, BySid(outputs), Warnings, e)
  {
    var ws := ReportDoc(outputs, missing, Some(t)).warnings;
    ReportContents.OneFallbackWarning(outputs, missing, t, e.rack, e.node);
    FallbackAgrees(s, BySid(outputs), e);
    assert e in ws <==> e in multiset(ws);
  }

  /** The report's lists hold exactly the entries there is a reason for. */
  lemma ReportMeaning(
    outputs: seq<ProbeOutput>, missing: seq<MissingNode>, t: Topology, s: Selections, l: List, e: Entry)
    requires SchemaTopology(t) && SelectionsOf(t) == Ok(s)
    ensures e in ListOf(ReportDoc(outputs, missing, Some(t)), l) <==> Says(outputs, missing, t, s, l, e)
  {
    SelectionsCoherent(t);
    if l == Warnings && e.FallbackAnswered? {
      FallbackReason(outputs, missing, t, s, l, e);
      FallbackEntries(outputs, missing, t, s, e);
    } else {
      OtherEntries(outputs, missing, t, s, l, e);
    }
  }

  /** What passes: edges with an answer and no failure, and directions a
      representative or its fallback answers. */
  lemma PassedMeaning(outputs: seq<ProbeOutput>, missing: seq<MissingNode>, t: Topology, s: Selections, p: Pass)
    requires SchemaTopology(t) && SelectionsOf(t) == Ok(s)
    ensures p in ReportDoc(outputs, missing, Some(t)).passed <==>
      SomeEdgePasses(BySid(outputs), Edges(t.bmcRule, t.machines), p) || SomePathPasses(s, BySid(outputs), p)
  {
    var bySid, es, links := BySid(outputs), Edges(t.bmcRule, t.machines), SortedPairs(LinkSet(s));
    var d := Collected(outputs, missing);
    CollectedMembers(outputs, missing, Warnings, NodeMissing(""));
    EdgeMembers(bySid, es, NodeMissing(""), p);
    LinksPassStep(WithEdges(d, bySid, es), s, bySid, links, p);
    LinksPass(s, bySid, links, p);
    ReportContents.MtusKeep(WithLinks(WithEdges(d, bySid, es), s, bySid, links), bySid, AllPaths(s));
  }

  /** What is skipped: a machine out of scope, with the number of its edges. */
  lemma SkippedMeaning(outputs: seq<ProbeOutput>, missing: seq<MissingNode>, t: Topology, e: Entry)
    ensures e in ReportDoc(outputs, missing, Some(t)).skipped <==>
      e.PeerSkipped? && e.count == |Keep(LeftOut(e.peer), Edges(t.bmcRule, t.machines))| && e.count > 0
  {
    var bySid, es := BySid(outputs), Edges(t.bmcRule, t.machines);
    var d := WithEdges(Collected(outputs, missing), bySid, es);
    CollectedMembers(outputs, missing, Warnings, e);
    SkipMembers(bySid, es, e);
    if SelectionsOf(t).Ok? {
      var s := SelectionsOf(t).value;
      var links := SortedPairs(LinkSet(s));
      LinksPassStep(d, s, bySid, links, PathPass("", "", ""));
      MtusStep(WithLinks(d, s, bySid, links), bySid, AllPaths(s), Warnings, e);
    }
  }

  /** 1 with a definitive failure, otherwise 2 with anything inferred, warned of or
      inconclusive, and 0 with none of them. */
  lemma ExitCodeMeaning(d: Doc)
    ensures ExitCode(d) == 1 <==> exists e :: e in d.definitive
    ensures ExitCode(d) == 0 <==> forall e ::
      e !in d.definitive && e !in d.inferred && e !in d.warnings && e !in d.inconclusive
    ensures ExitCode(d) in {0, 1, 2}
  {
    if d.definitive != [] { assert d.definitive[0] in d.definitive; }
    if d.inferred != [] { assert d.inferred[0] in d.inferred; }
    if d.warnings != [] { assert d.warnings[0] in d.warnings; }
    if d.inconclusive != [] { assert d.inconclusive[0] in d.inconclusive; }
  }
}
