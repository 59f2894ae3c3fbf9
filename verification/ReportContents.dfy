/** What the finished report holds: its definitive failures are the definitive
    findings of the outputs, and its fallback warnings the directions answered
    only by a fallback, each representative warned about once. */
module ReportContents {
  import opened Order
  import opened Topology
  import opened Representatives
  import opened ProbeOutput
  import opened L2Edges
  import opened Verdicts
  import opened ReportGenerator
  import opened ReportAccounting

  // ----- definitive failures ------------------------------------------------

  /** The entry is a definitive finding of one of the outputs. */
  ghost predicate DefinitiveIn(os: seq<ProbeOutput>, e: Entry) {
    exists o, f :: o in os && f in AllFindings(o) && f.classification == Definitive && e == Found(o.hostname, f)
  }

  lemma FoundOfMembers(node: string, fs: seq<Finding>, c: Classification, e: Entry)
    ensures e in FoundOf(node, fs, c) <==> exists f :: f in fs && f.classification == c && e == Found(node, f)
  {
    var of := Keep((f: Finding) => f.classification == c, fs);
    KeepElements((f: Finding) => f.classification == c, fs);
    if f :| f in fs && f.classification == c && e == Found(node, f) {
      assert f in of;
      var k :| 0 <= k < |of| && of[k] == f;
      assert FoundOf(node, fs, c)[k] == e;
    }
    if e in FoundOf(node, fs, c) {
      var k :| 0 <= k < |of| && FoundOf(node, fs, c)[k] == e;
      assert of[k] in of;
    }
  }

  /** What filing one output adds to the two lists of interest. */
  lemma OutputAdds(d: Doc, o: ProbeOutput)
    ensures FileOutput(d, o).definitive == d.definitive + FoundOf(o.hostname, AllFindings(o), Definitive)
    ensures FileOutput(d, o).warnings == d.warnings + FoundOf(o.hostname, AllFindings(o), Unclassified)
    ensures FileOutput(d, o).warned == d.warned
  {
    var d' :=
      if o.status != Complete then d.(inconclusive := d.inconclusive + [ProbeIncomplete(o.hostname, o.status)]) else d;
    FileAllPartitions(d', o.hostname, AllFindings(o));
  }

  lemma {:induction false} OutputsDefinitive(d: Doc, os: seq<ProbeOutput>, e: Entry)
    ensures e in FileOutputs(d, os).definitive <==> e in d.definitive || DefinitiveIn(os, e)
  {
    if os != [] {
      var n := |os| - 1;
      OutputsDefinitive(d, os[..n], e);
      OutputAdds(FileOutputs(d, os[..n]), os[n]);
      FoundOfMembers(os[n].hostname, AllFindings(os[n]), Definitive, e);
      assert os == os[..n] + [os[n]];
    }
  }

  lemma {:induction false} LinksKeepDefinitive(d: Doc, s: Selections, outputs: Outputs, links: seq<(string, string)>)
    ensures WithLinks(d, s, outputs, links).definitive == d.definitive
  {
    if links != [] {
      var n := |links| - 1;
      LinksKeepDefinitive(d, s, outputs, links[..n]);
      LinkAdds(WithLinks(d, s, outputs, links[..n]), s, outputs, links[n].0, links[n].1);
    }
  }

  lemma {:induction false} MtusKeep(d: Doc, outputs: Outputs, ps: seq<Path>)
    ensures var d' := WithMtus(d, outputs, ps);
      && d'.definitive == d.definitive && d'.warnings == d.warnings && d'.warned == d.warned
      && d'.passed == d.passed
  {
    if ps != [] { MtusKeep(d, outputs, ps[..|ps| - 1]); }
  }

  lemma CrossRackKeepsDefinitive(d: Doc, t: Topology, outputs: Outputs)
    ensures WithCrossRack(d, t, outputs).definitive == d.definitive
  {
    if SelectionsOf(t).Ok? {
      var s := SelectionsOf(t).value;
      var links := SortedPairs(LinkSet(s));
      LinksKeepDefinitive(d, s, outputs, links);
      MtusKeep(WithLinks(d, s, outputs, links), outputs, AllPaths(s));
    }
  }

  /** The definitive failures of a report are exactly the definitive findings of
      its outputs, and the exit code is 1 exactly when there is one. */
  lemma DefinitiveFailures(outputs: seq<ProbeOutput>, missing: seq<MissingNode>, t: Option<Topology>)
    ensures var d := ReportDoc(outputs, missing, t);
      && (forall e :: e in d.definitive <==> DefinitiveIn(outputs, e))
      && (ExitCode(d) == 1 <==> exists e :: DefinitiveIn(outputs, e))
  {
    var d := ReportDoc(outputs, missing, t);
    var start := EMPTY.(missing := missing);
    forall e ensures e in FileOutputs(start, outputs).definitive <==> DefinitiveIn(outputs, e) {
      OutputsDefinitive(start, outputs, e);
    }
    if t.Some? {
      var bySid := BySid(outputs);
      CrossRackKeepsDefinitive(
        WithEdges(Collected(outputs, missing), bySid, Edges(t.value.bmcRule, t.value.machines)), t.value, bySid);
    }
    assert d.definitive == FileOutputs(start, outputs).definitive;
    if d.definitive != [] { assert d.definitive[0] in d.definitive; }
  }

  // ----- edge passes --------------------------------------------------------

  lemma {:induction false} HealthyKeepsPass(d: Doc, vs: seq<Verdict>, pass: Pass)
    requires pass in d.passed
    ensures pass in AddAllHealthy(d, vs).passed
  {
    if vs != [] { HealthyKeepsPass(d, vs[..|vs| - 1], pass); }
  }

  lemma {:induction false} LinksKeepPass(
    d: Doc, s: Selections, outputs: Outputs, links: seq<(string, string)>, pass: Pass)
    requires pass in d.passed
    ensures pass in WithLinks(d, s, outputs, links).passed
  {
    if links != [] {
      var before, l := links[..|links| - 1], links[|links| - 1];
      var vs := LinkVerdicts(s, outputs, l.0, l.1);
      LinksKeepPass(d, s, outputs, before, pass);
      HealthyKeepsPass(
        WithFailures(WithLinks(d, s, outputs, before), SortedPair(l.0, l.1), outputs, vs), Keep(IsHealthy, vs), pass);
    }
  }

  lemma {:induction false} EdgePassListed(outputs: Outputs, es: seq<Edge>, e: Edge)
    requires e in es && Outcome(outputs, e).BothWays?
    ensures EdgePass(SortedPair(e.a.hostname, e.b.hostname), true) in EdgePasses(outputs, es)
  {
    var n := |es| - 1;
    if e != es[n] { EdgePassListed(outputs, es[..n], e); }
  }

  /** An edge confirmed both ways is among the report's passed checks. */
  lemma EdgePassReported(outputs: seq<ProbeOutput>, missing: seq<MissingNode>, t: Topology, e: Edge)
    requires e in Edges(t.bmcRule, t.machines) && Outcome(BySid(outputs), e).BothWays?
    ensures EdgePass(SortedPair(e.a.hostname, e.b.hostname), true) in ReportDoc(outputs, missing, Some(t)).passed
  {
    var bySid, es := BySid(outputs), Edges(t.bmcRule, t.machines);
    var pass := EdgePass(SortedPair(e.a.hostname, e.b.hostname), true);
    var d := WithEdges(Collected(outputs, missing), bySid, es);
    EdgePassListed(bySid, es, e);
    if SelectionsOf(t).Ok? {
      var s := SelectionsOf(t).value;
      var links := SortedPairs(LinkSet(s));
      LinksKeepPass(d, s, bySid, links, pass);
      MtusKeep(WithLinks(d, s, bySid, links), bySid, AllPaths(s));
    }
  }

  // ----- fallback warnings --------------------------------------------------

  /** How often the report warns that only the fallback of the rack answered. */
  function FallbackWarnings(ws: seq<Entry>, rack: string, node: string): nat {
    multiset(ws)[FallbackAnswered(rack, node)]
  }

  /** The report has warned once about the representatives it remembers, and
      about no other. */
  predicate WarnedOnce(d: Doc, rack: string, node: string) {
    FallbackWarnings(d.warnings, rack, node) == if (rack, node) in d.warned then 1 else 0
  }

  lemma WarningsAdd(ws: seq<Entry>, more: seq<Entry>, rack: string, node: string)
    ensures FallbackWarnings(ws + more, rack, node)
            == FallbackWarnings(ws, rack, node) + FallbackWarnings(more, rack, node)
    ensures (forall e :: e in more ==> !e.FallbackAnswered?) ==> FallbackWarnings(more, rack, node) == 0
  {
    assert multiset(ws + more) == multiset(ws) + multiset(more);
    assert FallbackAnswered(rack, node) in more <==> FallbackAnswered(rack, node) in multiset(more);
  }

  /** The direction is answered by the fallback of that rack, whose
      representative is `node`. */
  predicate FallsBack(v: Verdict, rack: string, node: string) {
    v.state.OnFallback? && v.dstRack == rack && v.repTarget == node
  }

  lemma HealthyWarns(d: Doc, v: Verdict, rack: string, node: string)
    requires WarnedOnce(d, rack, node)
    ensures WarnedOnce(AddHealthy(d, v), rack, node)
    ensures (rack, node) in AddHealthy(d, v).warned <==> (rack, node) in d.warned || FallsBack(v, rack, node)
  {
    WarningsAdd(d.warnings, [FallbackAnswered(v.dstRack, v.repTarget)], rack, node);
  }

  lemma {:induction false} AllHealthyWarn(d: Doc, vs: seq<Verdict>, rack: string, node: string)
    requires WarnedOnce(d, rack, node)
    ensures WarnedOnce(AddAllHealthy(d, vs), rack, node)
    ensures (rack, node) in AddAllHealthy(d, vs).warned <==>
      (rack, node) in d.warned || exists v :: v in vs && FallsBack(v, rack, node)
  {
    if vs != [] {
      var n := |vs| - 1;
      AllHealthyWarn(d, vs[..n], rack, node);
      HealthyWarns(AddAllHealthy(d, vs[..n]), vs[n], rack, node);
      assert vs == vs[..n] + [vs[n]];
    }
  }

  lemma VerdictsWarn(d: Doc, pair: (string, string), outputs: Outputs, vs: seq<Verdict>, rack: string, node: string)
    requires WarnedOnce(d, rack, node)
    ensures WarnedOnce(WithVerdicts(d, pair, outputs, vs), rack, node)
    ensures (rack, node) in WithVerdicts(d, pair, outputs, vs).warned <==>
      (rack, node) in d.warned || exists v :: v in vs && FallsBack(v, rack, node)
  {
    WarningsAdd(d.warnings, LinkWarnings(outputs, vs), rack, node);
    AllHealthyWarn(WithFailures(d, pair, outputs, vs), Keep(IsHealthy, vs), rack, node);
    KeepElements(IsHealthy, vs);
  }

  ghost predicate LinkFallsBack(
    s: Selections, outputs: Outputs, l: (string, string), rack: string, node: string)
  {
    exists v :: v in LinkVerdicts(s, outputs, l.0, l.1) && FallsBack(v, rack, node)
  }

  lemma LinkWarns(d: Doc, s: Selections, outputs: Outputs, l: (string, string), rack: string, node: string)
    requires WarnedOnce(d, rack, node)
    ensures WarnedOnce(WithLink(d, s, outputs, l.0, l.1), rack, node)
    ensures (rack, node) in WithLink(d, s, outputs, l.0, l.1).warned <==>
      (rack, node) in d.warned || LinkFallsBack(s, outputs, l, rack, node)
  {
    VerdictsWarn(d, SortedPair(l.0, l.1), outputs, LinkVerdicts(s, outputs, l.0, l.1), rack, node);
  }

  /** One direction of one of the links is answered by the fallback. */
  ghost predicate FallsBackOn(
    s: Selections, outputs: Outputs, links: seq<(string, string)>, rack: string, node: string)
  {
    exists l :: l in links && LinkFallsBack(s, outputs, l, rack, node)
  }

  lemma {:induction false} LinksWarn(
    d: Doc, s: Selections, outputs: Outputs, links: seq<(string, string)>, rack: string, node: string)
    requires WarnedOnce(d, rack, node)
    ensures WarnedOnce(WithLinks(d, s, outputs, links), rack, node)
    ensures (rack, node) in WithLinks(d, s, outputs, links).warned <==>
      (rack, node) in d.warned || FallsBackOn(s, outputs, links, rack, node)
  {
    if links != [] {
      var before, l := links[..|links| - 1], links[|links| - 1];
      LinksWarn(d, s, outputs, before, rack, node);
      LinkWarns(WithLinks(d, s, outputs, before), s, outputs, l, rack, node);
      MoreLinks(s, outputs, before, l, rack, node);
      assert links == before + [l];
    }
  }

  lemma MoreLinks(
    s: Selections, outputs: Outputs, links: seq<(string, string)>, l: (string, string), rack: string, node: string)
    ensures FallsBackOn(s, outputs, links + [l], rack, node) <==>
      FallsBackOn(s, outputs, links, rack, node) || LinkFallsBack(s, outputs, l, rack, node)
  {
    assert l in links + [l];
    if m :| m in links && LinkFallsBack(s, outputs, m, rack, node) { assert m in links + [l]; }
  }

  /** Some direction into the rack, whose representative there is `node`, is
      answered only by the fallback. */
  ghost predicate OnlyFallbackAnswers(s: Selections, outputs: Outputs, rack: string, node: string) {
    exists a :: Targets(s, a, rack) && FallsBack(BgpVerdict(s, outputs, a, rack), rack, node)
  }

  lemma LinksCoverDirections(s: Selections, outputs: Outputs, rack: string, node: string)
    ensures FallsBackOn(s, outputs, SortedPairs(LinkSet(s)), rack, node) <==>
      OnlyFallbackAnswers(s, outputs, rack, node)
  {
    var links := SortedPairs(LinkSet(s));
    if a :| Targets(s, a, rack) && FallsBack(BgpVerdict(s, outputs, a, rack), rack, node) {
      var l := SortedPair(a, rack);
      assert l in LinkSet(s) && l in links;
      assert BgpVerdict(s, outputs, a, rack) in LinkVerdicts(s, outputs, l.0, l.1);
      assert LinkFallsBack(s, outputs, l, rack, node);
    }
  }

  lemma {:induction false} OutputsWarn(d: Doc, os: seq<ProbeOutput>, rack: string, node: string)
    requires WarnedOnce(d, rack, node)
    ensures WarnedOnce(FileOutputs(d, os), rack, node) && FileOutputs(d, os).warned == d.warned
  {
    if os != [] {
      var n := |os| - 1;
      OutputsWarn(d, os[..n], rack, node);
      OutputAdds(FileOutputs(d, os[..n]), os[n]);
      WarningsAdd(
        FileOutputs(d, os[..n]).warnings, FoundOf(os[n].hostname, AllFindings(os[n]), Unclassified), rack, node);
    }
  }

  lemma {:induction false} EdgeWarningsOther(outputs: Outputs, es: seq<Edge>)
    ensures forall e :: e in EdgeWarnings(outputs, es) ==> !e.FallbackAnswered?
  {
    if es != [] { EdgeWarningsOther(outputs, es[..|es| - 1]); }
  }

  lemma {:induction false} AsymmetriesOther(obs: Observed, links: seq<(string, string)>)
    ensures forall e :: e in Asymmetries(obs, links) ==> !e.FallbackAnswered?
  {
    if links != [] { AsymmetriesOther(obs, links[..|links| - 1]); }
  }

  /** The links and what follows them, on a document that has warned of no
      fallback. */
  lemma CrossRackWarns(d: Doc, t: Topology, outputs: Outputs, rack: string, node: string)
    requires SelectionsOf(t).Ok? && d.warned == {} && WarnedOnce(d, rack, node)
    ensures FallbackWarnings(WithCrossRack(d, t, outputs).warnings, rack, node)
            == if OnlyFallbackAnswers(SelectionsOf(t).value, outputs, rack, node) then 1 else 0
  {
    var s := SelectionsOf(t).value;
    var links := SortedPairs(LinkSet(s));
    var d1 := WithLinks(d, s, outputs, links);
    LinksWarn(d, s, outputs, links, rack, node);
    LinksCoverDirections(s, outputs, rack, node);
    MtusKeep(d1, outputs, AllPaths(s));
    var obs := ObserveAll(outputs, AllPaths(s));
    AsymmetriesOther(obs, SortedPairs(obs.Keys));
    WarningsAdd(d1.warnings, Asymmetries(obs, SortedPairs(obs.Keys)), rack, node);
  }

  /** Over the whole report there is one fallback warning for a rack and its
      representative when some direction into it is answered only by the fallback,
      and none otherwise. */
  lemma OneFallbackWarning(
    outputs: seq<ProbeOutput>, missing: seq<MissingNode>, t: Topology, rack: string, node: string)
    requires SelectionsOf(t).Ok?
    ensures FallbackWarnings(ReportDoc(outputs, missing, Some(t)).warnings, rack, node)
            == if OnlyFallbackAnswers(SelectionsOf(t).value, BySid(outputs), rack, node) then 1 else 0
  {
    var d := Collected(outputs, missing);
    var es := Edges(t.bmcRule, t.machines);
    OutputsWarn(EMPTY.(missing := missing), outputs, rack, node);
    EdgeWarningsOther(BySid(outputs), es);
    WarningsAdd(d.warnings, EdgeWarnings(BySid(outputs), es), rack, node);
    CrossRackWarns(WithEdges(d, BySid(outputs), es), t, BySid(outputs), rack, node);
  }
}
