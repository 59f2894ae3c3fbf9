/** What exit code 0 means: everything in the check universe was checked, and
    passed. */
module ExitCodeSoundness {
  import opened Order
  import opened Topology
  import opened Representatives
  import opened ProbeOutput
  import opened L2Edges
  import opened Verdicts
  import opened ReportGenerator
  import opened ReportAccounting

  /** Nothing that makes the exit code nonzero, and no fallback warned about. */
  predicate Quiet(d: Doc) {
    d.definitive == [] && d.inferred == [] && d.warnings == [] && d.inconclusive == [] && d.warned == {}
  }

  /** A fallback target is only remembered together with a warning. */
  predicate Remembers(d: Doc) {
    d.warned != {} ==> d.warnings != []
  }

  // ----- findings -----------------------------------------------------------

  predicate CleanOutput(o: ProbeOutput) {
    o.status == Complete && forall f :: f in AllFindings(o) ==> f.classification == Informational
  }

  lemma {:induction false} FindingsQuiet(d: Doc, node: string, fs: seq<Finding>)
    ensures Quiet(FileAll(d, node, fs)) <==> Quiet(d) && forall f :: f in fs ==> f.classification == Informational
    ensures FileAll(d, node, fs).warned == d.warned
    ensures FileAll(d, node, fs).passed == d.passed
  {
    if fs != [] {
      var n := |fs| - 1;
      FindingsQuiet(d, node, fs[..n]);
      assert fs == fs[..n] + [fs[n]];
    }
  }

  lemma {:induction false} OutputsQuiet(d: Doc, os: seq<ProbeOutput>)
    ensures Quiet(FileOutputs(d, os)) <==> Quiet(d) && forall o :: o in os ==> CleanOutput(o)
    ensures FileOutputs(d, os).warned == d.warned
    ensures FileOutputs(d, os).passed == d.passed
  {
    if os != [] {
      var n := |os| - 1;
      var o := os[n];
      var before := FileOutputs(d, os[..n]);
      OutputsQuiet(d, os[..n]);
      assert os == os[..n] + [o];
      var d' :=
        if o.status != Complete
          then before.(inconclusive := before.inconclusive + [ProbeIncomplete(o.hostname, o.status)])
          else before;
      FindingsQuiet(d', o.hostname, AllFindings(o));
      assert FileOutputs(d, os) == FileAll(d', o.hostname, AllFindings(o));
      assert Quiet(FileOutputs(d, os)) <==> Quiet(before) && CleanOutput(o);
      assert Quiet(d') <==> Quiet(before) && o.status == Complete;
    }
  }

  // ----- L2 edges -----------------------------------------------------------

  /** Neither end is missing from the other's records. */
  predicate Settled(o: EdgeOutcome) { !o.OneWay? && !o.EdgeSilent? }

  lemma {:induction false} EdgesQuiet(outputs: Outputs, es: seq<Edge>)
    ensures EdgeWarnings(outputs, es) == [] && EdgeUnknowns(outputs, es) == []
            <==> forall e :: e in es ==> Settled(Outcome(outputs, e))
  {
    if es != [] {
      var n := |es| - 1;
      EdgesQuiet(outputs, es[..n]);
      assert es == es[..n] + [es[n]];
    }
  }

  // ----- rack links ---------------------------------------------------------

  lemma {:induction false} HealthyQuiet(d: Doc, vs: seq<Verdict>)
    requires Remembers(d)
    ensures Quiet(AddAllHealthy(d, vs)) <==> Quiet(d) && forall v :: v in vs ==> !v.state.OnFallback?
    ensures Remembers(AddAllHealthy(d, vs))
  {
    if vs != [] {
      var n := |vs| - 1;
      HealthyQuiet(d, vs[..n]);
      assert vs == vs[..n] + [vs[n]];
    }
  }

  predicate NothingFailed(e: LinkEntries) {
    e.inferred == [] && e.warnings == [] && e.inconclusive == []
  }

  lemma LinkQuiet(d: Doc, s: Selections, outputs: Outputs, a: string, b: string)
    requires Remembers(d)
    ensures Remembers(WithLink(d, s, outputs, a, b))
    ensures Quiet(WithLink(d, s, outputs, a, b)) <==>
      && Quiet(d) && NothingFailed(EntriesOf(s, outputs, a, b))
      && forall v :: v in EntriesOf(s, outputs, a, b).passed ==> !v.state.OnFallback?
    ensures |WithLink(d, s, outputs, a, b).passed| == |d.passed| + |EntriesOf(s, outputs, a, b).passed|
  {
    var vs, pair := LinkVerdicts(s, outputs, a, b), SortedPair(a, b);
    var d1 := WithFailures(d, pair, outputs, vs);
    HealthyQuiet(d1, Keep(IsHealthy, vs));
    HealthyAdds(d1, Keep(IsHealthy, vs));
  }

  /** Both directions of the link reached their representative. */
  predicate BothReached(s: Selections, outputs: Outputs, a: string, b: string) {
    && Targets(s, a, b) && Targets(s, b, a)
    && BgpVerdict(s, outputs, a, b).state.Healthy? && BgpVerdict(s, outputs, b, a).state.Healthy?
  }

  lemma QuietOutcome(pair: (string, string), v: Verdict, w: Verdict)
    ensures var out := LinkOutcome(pair, v, w);
      NothingFailed(out) && (forall x :: x in out.passed ==> !x.state.OnFallback?) <==>
        v.state.Healthy? && w.state.Healthy?
    ensures v.state.Healthy? && w.state.Healthy? ==> |LinkOutcome(pair, v, w).passed| == 2
  {
    var out := LinkOutcome(pair, v, w);
    if NothingFailed(out) { assert out.passed == [v, w] && v in out.passed && w in out.passed; }
  }

  lemma QuietLinkReached(s: Selections, outputs: Outputs, a: string, b: string)
    requires Coherent(s) && a in s && b in s && a != b
    ensures
      (NothingFailed(EntriesOf(s, outputs, a, b))
       && forall v :: v in EntriesOf(s, outputs, a, b).passed ==> !v.state.OnFallback?)
      <==> BothReached(s, outputs, a, b)
    ensures BothReached(s, outputs, a, b) ==> |EntriesOf(s, outputs, a, b).passed| == 2
  {
    LinkTable(s, outputs, a, b);
    QuietOutcome(SortedPair(a, b), BgpVerdict(s, outputs, a, b), BgpVerdict(s, outputs, b, a));
  }

  predicate LinkOfUniverse(s: Selections, l: (string, string)) {
    l.0 in s && l.1 in s && l.0 != l.1
  }

  lemma OneMoreLinkQuiet(d: Doc, s: Selections, outputs: Outputs, l: (string, string))
    requires Coherent(s) && Remembers(d) && LinkOfUniverse(s, l)
    ensures var d' := WithLink(d, s, outputs, l.0, l.1);
      && Remembers(d') && (Quiet(d') <==> Quiet(d) && BothReached(s, outputs, l.0, l.1))
      && (Quiet(d') ==> |d'.passed| == |d.passed| + 2)
  {
    LinkQuiet(d, s, outputs, l.0, l.1);
    QuietLinkReached(s, outputs, l.0, l.1);
  }

  lemma OneMoreReached(
    s: Selections, outputs: Outputs, before: seq<(string, string)>, l: (string, string), links: seq<(string, string)>)
    requires Coherent(s) && links == before + [l] && forall k :: k in links ==> LinkOfUniverse(s, k)
    ensures (forall k :: k in links ==> BothReached(s, outputs, k.0, k.1)) <==>
      BothReached(s, outputs, l.0, l.1) && forall k :: k in before ==> BothReached(s, outputs, k.0, k.1)
  {
    assert l in links && forall k :: k in before ==> k in links;
  }

  /** One more link, with the documents before and after it named. */
  lemma LinksQuietStep(
    d: Doc, w: Doc, w': Doc, s: Selections, outputs: Outputs, before: seq<(string, string)>, l: (string, string),
    links: seq<(string, string)>)
    requires Coherent(s) && links == before + [l] && forall k :: k in links ==> LinkOfUniverse(s, k)
    requires Remembers(w) && w' == WithLink(w, s, outputs, l.0, l.1)
    requires Quiet(w) <==> Quiet(d) && forall k :: k in before ==> BothReached(s, outputs, k.0, k.1)
    requires Quiet(w) ==> |w.passed| == |d.passed| + 2 * |before|
    ensures Remembers(w')
    ensures Quiet(w') <==> Quiet(d) && forall k :: k in links ==> BothReached(s, outputs, k.0, k.1)
    ensures Quiet(w') ==> |w'.passed| == |d.passed| + 2 * |links|
  {
    assert l in links;
    OneMoreLinkQuiet(w, s, outputs, l);
    OneMoreReached(s, outputs, before, l, links);
  }

  lemma {:induction false} LinksQuiet(d: Doc, s: Selections, outputs: Outputs, links: seq<(string, string)>)
    requires Coherent(s) && Remembers(d) && forall l :: l in links ==> LinkOfUniverse(s, l)
    ensures Remembers(WithLinks(d, s, outputs, links))
    ensures Quiet(WithLinks(d, s, outputs, links)) <==>
      Quiet(d) && forall l :: l in links ==> BothReached(s, outputs, l.0, l.1)
    ensures Quiet(WithLinks(d, s, outputs, links)) ==>
      |WithLinks(d, s, outputs, links).passed| == |d.passed| + 2 * |links|
  {
    if links != [] {
      var before, l := links[..|links| - 1], links[|links| - 1];
      assert links == before + [l];
      LinksQuiet(d, s, outputs, before);
      LinksQuietStep(
        d, WithLinks(d, s, outputs, before), WithLinks(d, s, outputs, links), s, outputs, before, l, links);
    }
  }

  lemma LinkSetMembers(s: Selections)
    requires Coherent(s)
    ensures forall l :: l in LinkSet(s) ==> LinkOfUniverse(s, l)
    ensures forall a, b :: Targets(s, a, b) ==> (a, b) in LinkSet(s) || (b, a) in LinkSet(s)
  {
    forall a, b | Targets(s, a, b) ensures (a, b) in LinkSet(s) || (b, a) in LinkSet(s) {
      assert SortedPair(a, b) in LinkSet(s);
    }
  }

  // ----- MTU ----------------------------------------------------------------

  lemma {:induction false} MtusQuiet(d: Doc, outputs: Outputs, ps: seq<Path>)
    ensures Quiet(WithMtus(d, outputs, ps)) <==>
      Quiet(d) && forall p :: p in ps ==> !NotMeasured(MtuOf(outputs, p.source, p.dst))
    ensures WithMtus(d, outputs, ps).passed == d.passed
    ensures WithMtus(d, outputs, ps).warned == d.warned && WithMtus(d, outputs, ps).warnings == d.warnings
  {
    if ps != [] {
      var n := |ps| - 1;
      MtusQuiet(d, outputs, ps[..n]);
      assert ps == ps[..n] + [ps[n]];
    }
  }

  predicate Measured(outputs: Outputs, p: Path) {
    var m := MtuOf(outputs, p.source, p.dst);
    m.Some? && m.value.status == Success
  }

  predicate OnLink(p: Path, link: (string, string), src: string) {
    p.src == src && SortedPair(p.src, p.dst) == link
  }

  predicate Remembered(obs: Observed, link: (string, string), src: string) {
    link in obs && src in obs[link]
  }

  /** One more path changes what is remembered of its own link and source only. */
  lemma ObserveOne(obs: Observed, outputs: Outputs, p: Path, link: (string, string), src: string)
    ensures var obs' := Observe(obs, outputs, p);
      if Measured(outputs, p) && OnLink(p, link, src)
      then Remembered(obs', link, src) && obs'[link][src] == MtuOf(outputs, p.source, p.dst).value.mtu
      else (Remembered(obs', link, src) <==> Remembered(obs, link, src))
           && (Remembered(obs, link, src) ==> obs'[link][src] == obs[link][src])
  {
  }

  /** What is remembered of the measurements: per link and source rack the value
      of the one path with that link and source. */
  lemma {:induction false} ObservedMeaning(
    s: Selections, outputs: Outputs, ps: seq<Path>, link: (string, string), src: string)
    requires Coherent(s) && forall p :: p in ps ==> PathOfUniverse(s, p)
    ensures var obs := ObserveAll(outputs, ps);
      && (link in obs && src in obs[link] <==> exists p :: p in ps && OnLink(p, link, src) && Measured(outputs, p))
      && (link in obs && src in obs[link] ==>
            exists p :: (p in ps && OnLink(p, link, src) && Measured(outputs, p)
                         && obs[link][src] == MtuOf(outputs, p.source, p.dst).value.mtu))
  {
    if ps != [] {
      var n := |ps| - 1;
      assert ps[n] in ps;
      ObservedMeaning(s, outputs, ps[..n], link, src);
      assert ps == ps[..n] + [ps[n]];
      ObserveOne(ObserveAll(outputs, ps[..n]), outputs, ps[n], link, src);
    }
  }

  lemma SamePath(s: Selections, p: Path, q: Path, link: (string, string), src: string)
    requires PathOfUniverse(s, p) && PathOfUniverse(s, q) && OnLink(p, link, src) && OnLink(q, link, src)
    ensures p == q
  {
  }

  /** The two measured directions of a link agree. */
  predicate MtusAgree(s: Selections, outputs: Outputs, a: string, b: string) {
    a in s && b in s ==>
      var there, back := MtuOf(outputs, s[a].source, b), MtuOf(outputs, s[b].source, a);
      (there.Some? && back.Some? && there.value.status == Success && back.value.status == Success
       ==> there.value.mtu == back.value.mtu)
  }

  lemma ObservedPath(s: Selections, outputs: Outputs, a: string, b: string)
    requires Coherent(s) && a in s && b in s && a != b && SortedPair(a, b) == (a, b)
    ensures var obs, p := ObserveAll(outputs, AllPaths(s)), Path(a, b, s[a].source);
      && ((a, b) in obs && a in obs[(a, b)] <==> Measured(outputs, p))
      && (Measured(outputs, p) ==> obs[(a, b)][a] == MtuOf(outputs, s[a].source, b).value.mtu)
    ensures var obs, q := ObserveAll(outputs, AllPaths(s)), Path(b, a, s[b].source);
      && ((a, b) in obs && b in obs[(a, b)] <==> Measured(outputs, q))
      && (Measured(outputs, q) ==> obs[(a, b)][b] == MtuOf(outputs, s[b].source, a).value.mtu)
  {
    var ps := AllPaths(s);
    forall p | p in ps ensures PathOfUniverse(s, p) { AllPathsMembers(s, p); }
    PairSymmetric(a, b);
    var p, q := Path(a, b, s[a].source), Path(b, a, s[b].source);
    AllPathsMembers(s, p);
    AllPathsMembers(s, q);
    ObservedMeaning(s, outputs, ps, (a, b), a);
    ObservedMeaning(s, outputs, ps, (a, b), b);
    forall x | x in ps && OnLink(x, (a, b), a) ensures x == p { SamePath(s, x, p, (a, b), a); }
    forall x | x in ps && OnLink(x, (a, b), b) ensures x == q { SamePath(s, x, q, (a, b), b); }
  }

  lemma PathLink(s: Selections, p: Path)
    requires Coherent(s) && PathOfUniverse(s, p)
    ensures var l := SortedPair(p.src, p.dst);
      LinkOfUniverse(s, l) && SortedPair(l.0, l.1) == l && (p.src == l.0 || p.src == l.1)
  {
    PairSymmetric(p.src, p.dst);
  }

  lemma ObservedLinks(s: Selections, outputs: Outputs, link: (string, string), src: string)
    requires Coherent(s)
    ensures var obs := ObserveAll(outputs, AllPaths(s));
      link in obs && src in obs[link] ==>
        LinkOfUniverse(s, link) && SortedPair(link.0, link.1) == link && (src == link.0 || src == link.1)
  {
    var ps := AllPaths(s);
    forall p | p in ps ensures PathOfUniverse(s, p) { AllPathsMembers(s, p); }
    ObservedMeaning(s, outputs, ps, link, src);
    var obs := ObserveAll(outputs, ps);
    if link in obs && src in obs[link] {
      var p :| p in ps && OnLink(p, link, src) && Measured(outputs, p);
      PathLink(s, p);
    }
  }

  lemma TwoValues(m: map<string, Option<int>>, a: string, b: string)
    requires a != b && m.Keys <= {a, b}
    ensures Asymmetric(m) <==> a in m && b in m && m[a] != m[b]
  {
    if a in m && b in m {
      assert m.Keys == {a, b};
      assert |m.Keys| == 2;
      assert m.Values == {m[a], m[b]};
    } else {
      var x := if a in m then a else b;
      assert m.Keys <= {x};
      SubsetSize(m.Keys, {x});
    }
  }

  lemma AsymmetricLink(s: Selections, outputs: Outputs, link: (string, string))
    requires Coherent(s)
    ensures var obs := ObserveAll(outputs, AllPaths(s));
      link in obs && Asymmetric(obs[link]) <==>
        LinkOfUniverse(s, link) && SortedPair(link.0, link.1) == link && !MtusAgree(s, outputs, link.0, link.1)
  {
    ObservedEnds(s, outputs, link);
    if LinkOfUniverse(s, link) && SortedPair(link.0, link.1) == link {
      AsymmetricPair(s, outputs, link.0, link.1);
    }
  }

  /** What is observed of a link is under its two racks; of anything else nothing
      is observed. */
  lemma ObservedEnds(s: Selections, outputs: Outputs, link: (string, string))
    requires Coherent(s)
    ensures var obs := ObserveAll(outputs, AllPaths(s));
      link in obs ==>
        && obs[link].Keys <= {link.0, link.1}
        && (!(LinkOfUniverse(s, link) && SortedPair(link.0, link.1) == link) ==> !Asymmetric(obs[link]))
  {
    var obs := ObserveAll(outputs, AllPaths(s));
    forall r ensures link in obs && r in obs[link] ==>
      LinkOfUniverse(s, link) && SortedPair(link.0, link.1) == link && (r == link.0 || r == link.1)
    {
      ObservedLinks(s, outputs, link, r);
    }
    if link in obs && !(LinkOfUniverse(s, link) && SortedPair(link.0, link.1) == link) {
      assert obs[link].Keys == {};
    }
  }

  lemma AsymmetricPair(s: Selections, outputs: Outputs, a: string, b: string)
    requires Coherent(s) && LinkOfUniverse(s, (a, b)) && SortedPair(a, b) == (a, b)
    ensures var obs := ObserveAll(outputs, AllPaths(s));
      (a, b) in obs && Asymmetric(obs[(a, b)]) <==> !MtusAgree(s, outputs, a, b)
  {
    var obs := ObserveAll(outputs, AllPaths(s));
    ObservedEnds(s, outputs, (a, b));
    ObservedPath(s, outputs, a, b);
    if (a, b) in obs { TwoValues(obs[(a, b)], a, b); }
  }

  lemma AsymmetryStep(
    obs: Observed, before: seq<(string, string)>, l: (string, string), links: seq<(string, string)>)
    requires links == before + [l]
    ensures Asymmetries(obs, links) == Asymmetries(obs, before)
      + if l in obs && Asymmetric(obs[l]) then [MtuAsymmetry(l)] else []
    ensures forall k :: k in links <==> k in before || k == l
  {
    assert links[..|links| - 1] == before;
  }

  lemma {:induction false} AsymmetriesQuiet(obs: Observed, links: seq<(string, string)>)
    ensures Asymmetries(obs, links) == [] <==> forall l :: l in links ==> !(l in obs && Asymmetric(obs[l]))
  {
    if links != [] {
      var before, l := links[..|links| - 1], links[|links| - 1];
      AsymmetriesQuiet(obs, before);
      AsymmetryStep(obs, before, l, links);
      if l in obs && Asymmetric(obs[l]) { assert l in links; }
    }
  }

  lemma AllAgree(s: Selections, outputs: Outputs)
    requires Coherent(s)
    ensures var obs := ObserveAll(outputs, AllPaths(s));
      Asymmetries(obs, SortedPairs(obs.Keys)) == [] <==> forall a, b :: Targets(s, a, b) ==> MtusAgree(s, outputs, a, b)
  {
    var obs := ObserveAll(outputs, AllPaths(s));
    AsymmetriesQuiet(obs, SortedPairs(obs.Keys));
    if Asymmetries(obs, SortedPairs(obs.Keys)) == [] {
      forall a, b | Targets(s, a, b) ensures MtusAgree(s, outputs, a, b) {
        var link := SortedPair(a, b);
        PairSymmetric(a, b);
        AsymmetricLink(s, outputs, link);
        assert link in obs ==> link in SortedPairs(obs.Keys);
      }
    } else {
      var l :| l in SortedPairs(obs.Keys) && l in obs && Asymmetric(obs[l]);
      AsymmetricLink(s, outputs, l);
      assert Targets(s, l.0, l.1);
    }
  }

  // ----- the theorem --------------------------------------------------------

  /** Edge-failure findings are definitive, as the VLAN validator makes them. */
  predicate EdgeFailuresDefinitive(outputs: seq<ProbeOutput>) {
    forall o, f :: o in outputs && f in o.vlanFindings && f.ftype in VLAN_EDGE_FAIL_TYPES ==>
      f.classification == Definitive
  }

  /** Both ends of the edge recorded the other. */
  predicate ConfirmedBothWays(outputs: Outputs, e: Edge) {
    DirectionState(outputs, e.a, e.b).Confirmed? && DirectionState(outputs, e.b, e.a).Confirmed?
  }

  /** The representative of `a` reported that it reached the representative of `b`. */
  predicate Reached(s: Selections, outputs: Outputs, a: string, b: string)
    requires a in s
  {
    var r := PathOf(outputs, s[a].source, b);
    r.Some? && r.value.status == Success && r.value.targetRole != Some(Fallback)
  }

  /** The representative of `a` has an MTU record for `b` that was not cut short. */
  predicate MtuRecorded(s: Selections, outputs: Outputs, a: string, b: string)
    requires a in s
  {
    var m := MtuOf(outputs, s[a].source, b);
    m.Some? && !m.value.status.Stopped?
  }

  /** Everything was checked and passed. */
  ghost predicate AllPassed(outputs: seq<ProbeOutput>, missing: seq<MissingNode>, t: Topology, s: Selections) {
    var bySid := BySid(outputs);
    && missing == []
    && (forall o :: o in outputs ==> CleanOutput(o))
    && (forall e :: e in Edges(t.bmcRule, t.machines) && e.a.inScope && e.b.inScope ==> ConfirmedBothWays(bySid, e))
    && (forall a, b :: Targets(s, a, b) ==> Reached(s, bySid, a, b))
    && (forall a, b :: Targets(s, a, b) ==> MtuRecorded(s, bySid, a, b))
    && (forall a, b :: Targets(s, a, b) ==> MtusAgree(s, bySid, a, b))
  }

  predicate BothInScope(e: Edge) { e.a.inScope && e.b.inScope }

  lemma CleanIsHealthy(outputs: seq<ProbeOutput>, sid: string)
    requires forall o :: o in outputs ==> CleanOutput(o)
    ensures !RepUnhealthy(BySid(outputs), sid)
  {
    BySidMembers(outputs, sid);
    if sid in BySid(outputs) {
      var o := BySid(outputs)[sid];
      assert CleanOutput(o);
      forall f | f in o.bondFindings || f in o.vlanFindings ensures f.classification == Informational {
        assert f in AllFindings(o);
      }
    }
  }

  /** With no definitive finding, no expected edge has failed. */
  lemma CleanNoEdgeFailed(outputs: seq<ProbeOutput>, e: Edge)
    requires EdgeFailuresDefinitive(outputs) && forall o :: o in outputs ==> CleanOutput(o)
    ensures !DirectionState(BySid(outputs), e.a, e.b).Failed? && !DirectionState(BySid(outputs), e.b, e.a).Failed?
  {
    NoDirectionFailed(outputs, e.a, e.b);
    NoDirectionFailed(outputs, e.b, e.a);
  }

  lemma NoDirectionFailed(outputs: seq<ProbeOutput>, src: Machine, dst: Machine)
    requires EdgeFailuresDefinitive(outputs) && forall o :: o in outputs ==> CleanOutput(o)
    ensures !DirectionState(BySid(outputs), src, dst).Failed?
  {
    BySidMembers(outputs, src.systemId);
    if src.systemId in BySid(outputs) {
      var o := BySid(outputs)[src.systemId];
      assert CleanOutput(o);
      forall f | f in o.vlanFindings ensures !FailsEdge(f, dst.systemId) {
        assert f in AllFindings(o);
      }
    }
  }

  lemma EdgesSettled(outputs: seq<ProbeOutput>, es: seq<Edge>)
    requires EdgeFailuresDefinitive(outputs) && forall o :: o in outputs ==> CleanOutput(o)
    ensures (forall e :: e in es ==> Settled(Outcome(BySid(outputs), e)))
            <==> forall e :: e in es && BothInScope(e) ==> ConfirmedBothWays(BySid(outputs), e)
  {
    forall e | e in es
      ensures Settled(Outcome(BySid(outputs), e)) <==> (BothInScope(e) ==> ConfirmedBothWays(BySid(outputs), e))
    {
      CleanNoEdgeFailed(outputs, e);
    }
  }

  lemma {:induction false} AllEdgesPass(outputs: Outputs, es: seq<Edge>)
    requires forall e :: e in es && BothInScope(e) ==> ConfirmedBothWays(outputs, e)
    ensures |EdgePasses(outputs, es)| == |Keep(BothInScope, es)|
  {
    if es != [] {
      var n := |es| - 1;
      assert es[n] in es;
      AllEdgesPass(outputs, es[..n]);
      KeepLast(BothInScope, es);
    }
  }

  lemma ReachedIsHealthy(outputs: seq<ProbeOutput>, s: Selections, a: string, b: string)
    requires Targets(s, a, b) && forall o :: o in outputs ==> CleanOutput(o)
    ensures BgpVerdict(s, BySid(outputs), a, b).state.Healthy? <==> Reached(s, BySid(outputs), a, b)
  {
    CleanIsHealthy(outputs, s[a].source);
  }

  lemma AllReached(outputs: seq<ProbeOutput>, s: Selections, links: seq<(string, string)>)
    requires Coherent(s) && forall o :: o in outputs ==> CleanOutput(o)
    requires forall l :: l in links <==> l in LinkSet(s)
    ensures (forall l :: l in links ==> BothReached(s, BySid(outputs), l.0, l.1))
            <==> forall a, b :: Targets(s, a, b) ==> Reached(s, BySid(outputs), a, b)
  {
    LinkSetMembers(s);
    forall a, b | Targets(s, a, b)
      ensures BgpVerdict(s, BySid(outputs), a, b).state.Healthy? <==> Reached(s, BySid(outputs), a, b)
    {
      ReachedIsHealthy(outputs, s, a, b);
    }
    if forall l :: l in links ==> BothReached(s, BySid(outputs), l.0, l.1) {
      forall a, b | Targets(s, a, b) ensures Reached(s, BySid(outputs), a, b) {
        var l := if (a, b) in LinkSet(s) then (a, b) else (b, a);
        assert l in links && BothReached(s, BySid(outputs), l.0, l.1);
      }
    }
    if forall a, b :: Targets(s, a, b) ==> Reached(s, BySid(outputs), a, b) {
      forall l | l in links ensures BothReached(s, BySid(outputs), l.0, l.1) {
        assert LinkOfUniverse(s, l);
        assert Targets(s, l.0, l.1) && Targets(s, l.1, l.0);
      }
    }
  }

  /** The intermediate documents of a report over a topology. */
  ghost function AfterEdges(outputs: seq<ProbeOutput>, missing: seq<MissingNode>, t: Topology): Doc {
    WithEdges(Collected(outputs, missing), BySid(outputs), Edges(t.bmcRule, t.machines))
  }

  ghost function AfterLinks(outputs: seq<ProbeOutput>, missing: seq<MissingNode>, t: Topology, s: Selections): Doc {
    WithLinks(AfterEdges(outputs, missing, t), s, BySid(outputs), SortedPairs(LinkSet(s)))
  }

  lemma CollectedQuiet(outputs: seq<ProbeOutput>, missing: seq<MissingNode>)
    ensures Quiet(Collected(outputs, missing)) <==> missing == [] && forall o :: o in outputs ==> CleanOutput(o)
    ensures Collected(outputs, missing).warned == {} && Collected(outputs, missing).passed == []
  {
    OutputsQuiet(EMPTY.(missing := missing), outputs);
    assert missing != [] ==> |MissingEntries(missing)| > 0;
  }

  lemma EdgesStage(outputs: seq<ProbeOutput>, missing: seq<MissingNode>, t: Topology)
    requires EdgeFailuresDefinitive(outputs)
    ensures var es := Edges(t.bmcRule, t.machines); var d := AfterEdges(outputs, missing, t);
      && d.warned == {}
      && (Quiet(d) <==> missing == [] && (forall o :: o in outputs ==> CleanOutput(o))
                        && forall e :: e in es && BothInScope(e) ==> ConfirmedBothWays(BySid(outputs), e))
      && (Quiet(d) ==> |d.passed| == |Keep(BothInScope, es)|)
  {
    var es := Edges(t.bmcRule, t.machines);
    CollectedQuiet(outputs, missing);
    EdgesQuiet(BySid(outputs), es);
    if forall o :: o in outputs ==> CleanOutput(o) {
      EdgesSettled(outputs, es);
      if forall e :: e in es && BothInScope(e) ==> ConfirmedBothWays(BySid(outputs), e) {
        AllEdgesPass(BySid(outputs), es);
      }
    }
  }

  lemma LinksStage(outputs: seq<ProbeOutput>, missing: seq<MissingNode>, t: Topology, s: Selections)
    requires EdgeFailuresDefinitive(outputs) && Coherent(s)
    ensures var d, d' := AfterEdges(outputs, missing, t), AfterLinks(outputs, missing, t, s);
      && Remembers(d')
      && (Quiet(d') <==> Quiet(d) && forall a, b :: Targets(s, a, b) ==> Reached(s, BySid(outputs), a, b))
      && (Quiet(d') ==> |d'.passed| == |d.passed| + 2 * |LinkSet(s)|)
  {
    var links := SortedPairs(LinkSet(s));
    LinkSetMembers(s);
    EdgesStage(outputs, missing, t);
    LinksQuiet(AfterEdges(outputs, missing, t), s, BySid(outputs), links);
    LessPairIsStrictOrder();
    ListingSize(LessPair, LinkSet(s), links);
    if forall o :: o in outputs ==> CleanOutput(o) { AllReached(outputs, s, links); }
  }

  lemma MtuStage(d: Doc, s: Selections, outputs: Outputs)
    requires Coherent(s) && Remembers(d)
    ensures var d' := WithMtuSection(d, s, outputs);
      && Remembers(d') && d'.passed == d.passed
      && (Quiet(d') <==> Quiet(d) && (forall a, b :: Targets(s, a, b) ==> MtuRecorded(s, outputs, a, b))
                         && forall a, b :: Targets(s, a, b) ==> MtusAgree(s, outputs, a, b))
  {
    var ps := AllPaths(s);
    MtusQuiet(d, outputs, ps);
    AllAgree(s, outputs);
    if forall p :: p in ps ==> !NotMeasured(MtuOf(outputs, p.source, p.dst)) {
      forall a, b | Targets(s, a, b) ensures MtuRecorded(s, outputs, a, b) {
        AllPathsMembers(s, Path(a, b, s[a].source));
      }
    }
    if forall a, b :: Targets(s, a, b) ==> MtuRecorded(s, outputs, a, b) {
      forall p | p in ps ensures !NotMeasured(MtuOf(outputs, p.source, p.dst)) {
        AllPathsMembers(s, p);
        assert Targets(s, p.src, p.dst);
      }
    }
  }

  /** Exit code 0 exactly when everything in the check universe was checked and
      passed; the passed count is then the in-scope edges plus two per rack
      link. */
  lemma ExitCodeZero(outputs: seq<ProbeOutput>, missing: seq<MissingNode>, t: Topology)
    requires SchemaTopology(t) && EdgeFailuresDefinitive(outputs)
    ensures SelectionsOf(t).Ok?
    ensures var d := ReportDoc(outputs, missing, Some(t)); var s := SelectionsOf(t).value;
      && (ExitCode(d) == 0 <==> AllPassed(outputs, missing, t, s))
      && (ExitCode(d) == 0 ==>
            |d.passed| == |Keep(BothInScope, Edges(t.bmcRule, t.machines))| + 2 * |LinkSet(s)|)
  {
    SelectionsCoherent(t);
    var s := SelectionsOf(t).value;
    EdgesStage(outputs, missing, t);
    LinksStage(outputs, missing, t, s);
    MtuStage(AfterLinks(outputs, missing, t, s), s, BySid(outputs));
    var d := ReportDoc(outputs, missing, Some(t));
    assert d == WithMtuSection(AfterLinks(outputs, missing, t, s), s, BySid(outputs));
    assert ExitCode(d) == 0 <==> Quiet(d);
  }
}
