/** Every check is accounted for exactly once: L2 edges, rack links, missing
    nodes. */
module ReportAccounting {
  import opened Order
  import opened Topology
  import opened Representatives
  import opened ProbeOutput
  import opened L2Edges
  import opened Verdicts
  import opened ReportGenerator

  // ----- L2 edges -----------------------------------------------------------

  function CountOutcomes(p: EdgeOutcome -> bool, outputs: Outputs, es: seq<Edge>): nat {
    if es == [] then 0
    else CountOutcomes(p, outputs, es[..|es| - 1]) + if p(Outcome(outputs, es[|es| - 1])) then 1 else 0
  }

  predicate IsSkipped(o: EdgeOutcome) { o.SkippedFor? }
  predicate IsFailed(o: EdgeOutcome) { o.EdgeFailed? }
  predicate IsSilent(o: EdgeOutcome) { o.EdgeSilent? }
  predicate IsPassed(o: EdgeOutcome) { o.BothWays? || o.OneWay? }
  function SkippedPeerIs(peer: string): EdgeOutcome -> bool { (o: EdgeOutcome) => o == SkippedFor(peer) }

  function TotalSkipped(es: seq<Entry>): nat {
    if es == [] then 0
    else TotalSkipped(es[..|es| - 1]) + if es[|es| - 1].PeerSkipped? then es[|es| - 1].count else 0
  }

  function TotalCounts(counts: map<string, nat>, peers: seq<string>): nat {
    if peers == [] then 0 else TotalCounts(counts, peers[..|peers| - 1]) + Count(counts, peers[|peers| - 1])
  }

  lemma {:induction false} TotalOfEntries(counts: map<string, nat>, peers: seq<string>)
    ensures TotalSkipped(SkipEntries(counts, peers)) == TotalCounts(counts, peers)
  {
    if peers != [] {
      var n := |peers| - 1;
      TotalOfEntries(counts, peers[..n]);
      assert SkipEntries(counts, peers)[..n] == SkipEntries(counts, peers[..n]);
    }
  }

  lemma {:induction false} TotalUnchanged(a: map<string, nat>, b: map<string, nat>, peers: seq<string>)
    requires forall k :: k in peers ==> Count(a, k) == Count(b, k)
    ensures TotalCounts(a, peers) == TotalCounts(b, peers)
  {
    if peers != [] {
      var n := |peers| - 1;
      assert peers[n] in peers;
      TotalUnchanged(a, b, peers[..n]);
    }
  }

  lemma {:induction false} TotalOneMore(counts: map<string, nat>, peer: string, peers: seq<string>)
    requires Increasing(Less, peers) && peer in peers
    ensures TotalCounts(counts[peer := Count(counts, peer) + 1], peers) == TotalCounts(counts, peers) + 1
  {
    var n := |peers| - 1;
    var more := counts[peer := Count(counts, peer) + 1];
    if peers[n] == peer {
      forall k | k in peers[..n] ensures k != peer {
        var i :| 0 <= i < n && peers[i] == k;
        assert Less(peers[i], peers[n]);
        LessIrreflexive(peer);
      }
      TotalUnchanged(counts, more, peers[..n]);
    } else {
      TotalOneMore(counts, peer, peers[..n]);
    }
  }

  lemma {:induction false} SkipTotal(outputs: Outputs, es: seq<Edge>, peers: seq<string>)
    requires Increasing(Less, peers)
    requires forall k :: k in SkipCounts(outputs, es) ==> k in peers
    ensures TotalCounts(SkipCounts(outputs, es), peers) == CountOutcomes(IsSkipped, outputs, es)
  {
    if es == [] {
      NothingCounted(peers);
    } else {
      var n := |es| - 1;
      var before := SkipCounts(outputs, es[..n]);
      var o := Outcome(outputs, es[n]);
      SkipTotal(outputs, es[..n], peers);
      if o.SkippedFor? {
        assert o.peer in SkipCounts(outputs, es);
        TotalOneMore(before, o.peer, peers);
      }
    }
  }

  lemma {:induction false} NothingCounted(peers: seq<string>)
    ensures TotalCounts(map[], peers) == 0
  {
    if peers != [] { NothingCounted(peers[..|peers| - 1]); }
  }

  lemma {:induction false} SkipCountMeaning(outputs: Outputs, es: seq<Edge>, peer: string)
    ensures Count(SkipCounts(outputs, es), peer) == CountOutcomes(SkippedPeerIs(peer), outputs, es)
  {
    if es != [] { SkipCountMeaning(outputs, es[..|es| - 1], peer); }
  }

  function CountOneWay(ps: seq<Pass>): nat {
    if ps == [] then 0
    else CountOneWay(ps[..|ps| - 1]) + if ps[|ps| - 1].EdgePass? && !ps[|ps| - 1].bidirectional then 1 else 0
  }

  lemma {:induction false} PassCounts(outputs: Outputs, es: seq<Edge>)
    ensures |EdgePasses(outputs, es)| == CountOutcomes(IsPassed, outputs, es)
    ensures |EdgeUnknowns(outputs, es)| == CountOutcomes(IsSilent, outputs, es)
  {
    if es != [] { PassCounts(outputs, es[..|es| - 1]); }
  }

  lemma {:induction false} OneWayCounts(outputs: Outputs, es: seq<Edge>)
    ensures |EdgeWarnings(outputs, es)| == CountOneWay(EdgePasses(outputs, es))
  {
    if es != [] {
      var n := |es| - 1;
      OneWayCounts(outputs, es[..n]);
      var o := Outcome(outputs, es[n]);
      var ps := EdgePasses(outputs, es);
      if IsPassed(o) { assert ps[..|ps| - 1] == EdgePasses(outputs, es[..n]); }
      else { assert ps == EdgePasses(outputs, es[..n]); }
    }
  }

  lemma {:induction false} OutcomesPartition(outputs: Outputs, es: seq<Edge>)
    ensures |es| == CountOutcomes(IsSkipped, outputs, es) + CountOutcomes(IsFailed, outputs, es)
                    + CountOutcomes(IsSilent, outputs, es) + CountOutcomes(IsPassed, outputs, es)
  {
    if es != [] { OutcomesPartition(outputs, es[..|es| - 1]); }
  }

  /** Conservation: the edges that failed, plus what the VLAN pass adds to the
      skip counts, the inconclusive list and the passed checks, is the number of
      expected edges; unidirectional warnings match unidirectional passes. */
  lemma EdgesConserved(d: Doc, outputs: Outputs, es: seq<Edge>)
    ensures var d' := WithEdges(d, outputs, es); var skips := d'.skipped[|d.skipped|..];
      && d.skipped <= d'.skipped && d.inconclusive <= d'.inconclusive
      && d.passed <= d'.passed && d.warnings <= d'.warnings
      && |es| == TotalSkipped(skips) + CountOutcomes(IsFailed, outputs, es)
                 + (|d'.inconclusive| - |d.inconclusive|) + (|d'.passed| - |d.passed|)
      && TotalSkipped(skips) == CountOutcomes(IsSkipped, outputs, es)
      && |d'.warnings| - |d.warnings| == CountOneWay(d'.passed[|d.passed|..])
  {
    var counts := SkipCounts(outputs, es);
    var peers := SortedStrings(counts.Keys);
    var d' := WithEdges(d, outputs, es);
    PassCounts(outputs, es);
    OneWayCounts(outputs, es);
    OutcomesPartition(outputs, es);
    SkipTotal(outputs, es, peers);
    TotalOfEntries(counts, peers);
    assert d'.skipped[|d.skipped|..] == SkipEntries(counts, peers);
    assert d'.passed[|d.passed|..] == EdgePasses(outputs, es);
  }

  function OneEndInScope(es: seq<Edge>): nat {
    if es == [] then 0
    else OneEndInScope(es[..|es| - 1]) + if es[|es| - 1].a.inScope != es[|es| - 1].b.inScope then 1 else 0
  }

  lemma {:induction false} SkippedAreHalfInScope(outputs: Outputs, es: seq<Edge>)
    requires forall e :: e in es ==> e.a.inScope || e.b.inScope
    ensures CountOutcomes(IsSkipped, outputs, es) == OneEndInScope(es)
  {
    if es != [] {
      var n := |es| - 1;
      assert es[n] in es;
      SkippedAreHalfInScope(outputs, es[..n]);
    }
  }

  /** Over the expected edges of a topology, the skip counts add up to the edges
      with exactly one end in scope. */
  lemma SkipCountsAddUp(t: Topology, outputs: Outputs)
    ensures var es := Edges(t.bmcRule, t.machines);
      CountOutcomes(IsSkipped, outputs, es) == OneEndInScope(es)
  {
    var es := Edges(t.bmcRule, t.machines);
    forall e | e in es ensures e.a.inScope || e.b.inScope { EdgesMembers(t.bmcRule, t.machines, e); }
    SkippedAreHalfInScope(outputs, es);
  }

  // ----- rack links ---------------------------------------------------------

  /** The selections a schema-valid topology yields: every rack targets every
      other, and a rack's source is its representative everywhere. */
  ghost predicate Coherent(s: Selections) {
    && (forall a :: a in s ==> s[a].targets.Keys == s.Keys - {a})
    && (forall a, b :: a in s && b in s[a].targets ==> s[a].targets[b].representative == s[b].source)
  }

  lemma SelectionsCoherent(t: Topology)
    requires SchemaTopology(t)
    ensures SelectionsOf(t).Ok? && Coherent(SelectionsOf(t).value)
  {
    SelectionShape(t);
    var s, ms, rule := SelectionsOf(t).value, t.machines, t.crossRackRule.value;
    forall a, b | a in s && b in s[a].targets ensures s[a].targets[b].representative == s[b].source {
      SourceIsTarget(ms, b, rule);
    }
  }

  /** What one link adds to the report. */
  datatype LinkEntries = LinkEntries(
    inferred: seq<Entry>, warnings: seq<Entry>, inconclusive: seq<Entry>, passed: seq<Verdict>)

  function EntriesFrom(pair: (string, string), outputs: Outputs, vs: seq<Verdict>): LinkEntries {
    LinkEntries(LinkInferred(pair, vs), LinkWarnings(outputs, vs),
      LinkUnconfirmed(pair, outputs, vs) + Notes(Reported(outputs, vs)), Keep(IsHealthy, vs))
  }

  function EntriesOf(s: Selections, outputs: Outputs, a: string, b: string): LinkEntries {
    EntriesFrom(SortedPair(a, b), outputs, LinkVerdicts(s, outputs, a, b))
  }

  /** The entry speaks about the direction `v` of the link. */
  predicate Covers(e: Entry, pair: (string, string), v: Verdict) {
    match e
    case LinkFailure(p, observers, _) => p == pair && v.src in observers
    case Directional(src, dst, node) => src == v.srcRack && dst == v.dstRack && node == v.src
    case TargetUnhealthy(src, dst, node) =>
      (src == v.srcRack && dst == v.dstRack) || (src == v.dstRack && dst == v.srcRack && node == v.src)
    case Unconfirmed(p, _) => p == pair
    case PathUndetermined(src, dst, source, st) =>
      src == v.srcRack && dst == v.dstRack && source == v.src && st == v.state
    case _ => false
  }

  lemma KeepTwo<T>(p: T -> bool, x: T, y: T)
    ensures Keep(p, [x, y]) == (if p(x) then [x] else []) + (if p(y) then [y] else [])
  {
    KeepSingle(p, y);
    assert [x, y][1..] == [y];
  }

  /** The states of the two directions of a link between different racks of the
      universe. */
  lemma TwoVerdicts(s: Selections, outputs: Outputs, a: string, b: string)
    requires Coherent(s) && a in s && b in s && a != b
    ensures Targets(s, a, b) && Targets(s, b, a)
    ensures LinkVerdicts(s, outputs, a, b) == [BgpVerdict(s, outputs, a, b), BgpVerdict(s, outputs, b, a)]
  {
  }

  /** Source and target representative of a rack coincide, so an unhealthy
      target means the reverse direction is gated. */
  lemma UnhealthyTargetGatesReverse(s: Selections, outputs: Outputs, a: string, b: string)
    requires Coherent(s) && a in s && b in s && a != b
    ensures Targets(s, a, b) && Targets(s, b, a)
    ensures BgpVerdict(s, outputs, a, b).repTarget == BgpVerdict(s, outputs, b, a).src
    ensures RepUnhealthy(outputs, BgpVerdict(s, outputs, a, b).repTarget) <==> BgpVerdict(s, outputs, b, a).state.Gated?
  {
    var v := BgpVerdict(s, outputs, b, a);
    assert v.src == s[b].source;
  }

  /** What the two directions of a link may look like: opposite, and an
      unhealthy target exactly when the reverse is gated. */
  ghost predicate Opposite(outputs: Outputs, v: Verdict, w: Verdict) {
    && v.srcRack == w.dstRack && v.dstRack == w.srcRack && v.srcRack != v.dstRack
    && v.repTarget == w.src && w.repTarget == v.src
    && (RepUnhealthy(outputs, v.repTarget) <==> w.state.Gated?)
    && (RepUnhealthy(outputs, w.repTarget) <==> v.state.Gated?)
  }

  /** A failing direction `v` whose reverse `w` did not fail. */
  function OneFailure(pair: (string, string), v: Verdict, w: Verdict): LinkEntries {
    if w.state.Gated? then LinkEntries([], [TargetUnhealthy(v.srcRack, v.dstRack, v.repTarget)], [], [])
    else if IsHealthy(w) then LinkEntries([], [Directional(v.srcRack, v.dstRack, v.src)], [], [w])
    else LinkEntries([], [], [Unconfirmed(pair, v.src)], [])
  }

  /** The table of link outcomes by direction states. */
  function LinkOutcome(pair: (string, string), v: Verdict, w: Verdict): LinkEntries {
    if IsFailure(v) && IsFailure(w) then LinkEntries([LinkFailure(pair, [v.src, w.src], v.state.finding)], [], [], [])
    else if IsFailure(v) then OneFailure(pair, v, w)
    else if IsFailure(w) then OneFailure(pair, w, v)
    else LinkEntries([], [],
      (if IsIndeterminate(v) then [Note(v)] else []) + (if IsIndeterminate(w) then [Note(w)] else []),
      (if IsHealthy(v) then [v] else []) + (if IsHealthy(w) then [w] else []))
  }

  /** The indeterminate reverse of the only failing direction is not reported
      on its own, unless the failing direction got a directional warning. */
  lemma ReverseNotReported(outputs: Outputs, f: Verdict, r: Verdict, vs: seq<Verdict>)
    requires Opposite(outputs, f, r) && IsFailure(f) && !IsFailure(r) && (vs == [f, r] || vs == [r, f])
    ensures Keep(IsFailure, vs) == [f] && Keep(IsHealthy, vs) == if IsHealthy(r) then [r] else []
    ensures Reported(outputs, vs) == []
  {
    KeepTwo(IsFailure, vs[0], vs[1]);
    KeepTwo(IsHealthy, vs[0], vs[1]);
    KeepTwo(IsIndeterminate, vs[0], vs[1]);
    KeepSingle(IsNot(f.dstRack, f.srcRack), r);
    var open := Keep(IsIndeterminate, vs);
    assert open == if IsIndeterminate(r) then [r] else [];
    assert !IsNot(f.dstRack, f.srcRack)(r);
    assert Keep(IsNot(f.dstRack, f.srcRack), open) == [];
  }

  lemma BothFailedTable(pair: (string, string), outputs: Outputs, v: Verdict, w: Verdict)
    requires IsFailure(v) && IsFailure(w)
    ensures EntriesFrom(pair, outputs, [v, w]) == LinkOutcome(pair, v, w)
  {
    KeepTwo(IsFailure, v, w);
    KeepTwo(IsHealthy, v, w);
    KeepTwo(IsIndeterminate, v, w);
  }

  lemma FailureTable(pair: (string, string), outputs: Outputs, v: Verdict, w: Verdict)
    requires Opposite(outputs, v, w) && (IsFailure(v) || IsFailure(w))
    ensures EntriesFrom(pair, outputs, [v, w]) == LinkOutcome(pair, v, w)
  {
    if !IsFailure(w) {
      ReverseNotReported(outputs, v, w, [v, w]);
    } else if !IsFailure(v) {
      ReverseNotReported(outputs, w, v, [v, w]);
    } else {
      BothFailedTable(pair, outputs, v, w);
    }
  }

  lemma NoFailureTable(pair: (string, string), outputs: Outputs, v: Verdict, w: Verdict)
    requires !IsFailure(v) && !IsFailure(w)
    ensures EntriesFrom(pair, outputs, [v, w]) == LinkOutcome(pair, v, w)
  {
    KeepTwo(IsFailure, v, w);
    KeepTwo(IsHealthy, v, w);
    KeepTwo(IsIndeterminate, v, w);
  }

  /** For every pair of direction states, which entries a link gets. */
  lemma LinkTable(s: Selections, outputs: Outputs, a: string, b: string)
    requires Coherent(s) && a in s && b in s && a != b
    ensures Targets(s, a, b) && Targets(s, b, a)
    ensures Opposite(outputs, BgpVerdict(s, outputs, a, b), BgpVerdict(s, outputs, b, a))
    ensures EntriesOf(s, outputs, a, b)
            == LinkOutcome(SortedPair(a, b), BgpVerdict(s, outputs, a, b), BgpVerdict(s, outputs, b, a))
  {
    TwoVerdicts(s, outputs, a, b);
    UnhealthyTargetGatesReverse(s, outputs, a, b);
    UnhealthyTargetGatesReverse(s, outputs, b, a);
    var v, w := BgpVerdict(s, outputs, a, b), BgpVerdict(s, outputs, b, a);
    if IsFailure(v) || IsFailure(w) { FailureTable(SortedPair(a, b), outputs, v, w); }
    else { NoFailureTable(SortedPair(a, b), outputs, v, w); }
  }

  /** One inferred failure exactly when both directions failed, one pass per
      healthy direction, and some entry about every other direction. */
  ghost predicate ExactlyOnce(pair: (string, string), v: Verdict, w: Verdict, out: LinkEntries) {
    && |out.inferred| == (if IsFailure(v) && IsFailure(w) then 1 else 0)
    && out.passed == (if IsHealthy(v) then [v] else []) + (if IsHealthy(w) then [w] else [])
    && (!IsHealthy(v) ==> Covered(out, pair, v))
    && (!IsHealthy(w) ==> Covered(out, pair, w))
    && |out.inferred| + |out.warnings| + |out.inconclusive| <= 2
  }

  ghost predicate Covered(out: LinkEntries, pair: (string, string), x: Verdict) {
    exists e :: e in out.inferred + out.warnings + out.inconclusive && Covers(e, pair, x)
  }

  lemma AllCovered(outputs: Outputs, pair: (string, string), v: Verdict, w: Verdict, x: Verdict)
    requires Opposite(outputs, v, w) && x in [v, w] && !IsHealthy(x)
    ensures Covered(LinkOutcome(pair, v, w), pair, x)
  {
    var out := LinkOutcome(pair, v, w);
    var all := out.inferred + out.warnings + out.inconclusive;
    if IsFailure(v) || IsFailure(w) {
      assert all[0] in all && Covers(all[0], pair, x);
    } else {
      assert Note(x) in all && Covers(Note(x), pair, x);
    }
  }

  lemma OutcomeTotal(outputs: Outputs, pair: (string, string), v: Verdict, w: Verdict)
    requires Opposite(outputs, v, w)
    ensures ExactlyOnce(pair, v, w, LinkOutcome(pair, v, w))
  {
    if !IsHealthy(v) { AllCovered(outputs, pair, v, w, v); }
    if !IsHealthy(w) { AllCovered(outputs, pair, v, w, w); }
  }

  /** Reconciliation is total: one inferred failure exactly when both directions
      failed, one pass per healthy direction and no other, and every unhealthy
      direction is covered by a failure, a warning or an inconclusive entry. */
  lemma ReconciliationTotal(s: Selections, outputs: Outputs, a: string, b: string)
    requires Coherent(s) && a in s && b in s && a != b
    ensures Targets(s, a, b) && Targets(s, b, a)
    ensures ExactlyOnce(SortedPair(a, b), BgpVerdict(s, outputs, a, b), BgpVerdict(s, outputs, b, a),
      EntriesOf(s, outputs, a, b))
  {
    LinkTable(s, outputs, a, b);
    OutcomeTotal(outputs, SortedPair(a, b), BgpVerdict(s, outputs, a, b), BgpVerdict(s, outputs, b, a));
  }

  /** In the one case where a reverse entry is dropped in favour of a warning
      about the target, that entry is the gated one. */
  lemma SuppressedIsGated(s: Selections, outputs: Outputs, a: string, b: string, x: Verdict)
    requires Coherent(s) && a in s && b in s && a != b
    requires var vs := LinkVerdicts(s, outputs, a, b);
      x in Keep(IsIndeterminate, vs) && x !in Reported(outputs, vs)
        && LinkUnconfirmed(SortedPair(a, b), outputs, vs) == []
    ensures x.state.Gated?
    ensures LinkWarnings(outputs, LinkVerdicts(s, outputs, a, b)) == [TargetUnhealthy(x.dstRack, x.srcRack, x.src)]
  {
    TwoVerdicts(s, outputs, a, b);
    UnhealthyTargetGatesReverse(s, outputs, a, b);
    UnhealthyTargetGatesReverse(s, outputs, b, a);
    var v, w := BgpVerdict(s, outputs, a, b), BgpVerdict(s, outputs, b, a);
    KeepTwo(IsFailure, v, w);
    KeepTwo(IsHealthy, v, w);
    KeepTwo(IsIndeterminate, v, w);
    if IsFailure(v) && IsIndeterminate(w) { KeepSingle(IsNot(b, a), w); }
    if IsFailure(w) && IsIndeterminate(v) { KeepSingle(IsNot(a, b), v); }
  }

  /** The document really gains those entries, plus at most one warning per
      direction answered only by the fallback. */
  lemma LinkAdds(d: Doc, s: Selections, outputs: Outputs, a: string, b: string)
    ensures var d' := WithLink(d, s, outputs, a, b); var out := EntriesOf(s, outputs, a, b);
      && d'.inferred == d.inferred + out.inferred
      && d'.inconclusive == d.inconclusive + out.inconclusive
      && d.warnings + out.warnings <= d'.warnings
      && |d'.passed| == |d.passed| + |out.passed|
      && d'.definitive == d.definitive && d'.missing == d.missing
  {
    var vs := LinkVerdicts(s, outputs, a, b);
    var unconfirmed, notes := LinkUnconfirmed(SortedPair(a, b), outputs, vs), Notes(Reported(outputs, vs));
    HealthyAdds(WithFailures(d, SortedPair(a, b), outputs, vs), Keep(IsHealthy, vs));
    ConcatAssociative(d.inconclusive, unconfirmed, notes);
  }

  lemma {:induction false} HealthyAdds(d: Doc, vs: seq<Verdict>)
    ensures var d' := AddAllHealthy(d, vs);
      && d'.(warnings := d.warnings, passed := d.passed, warned := d.warned) == d
      && d.warnings <= d'.warnings && |d'.passed| == |d.passed| + |vs| && d.warned <= d'.warned
  {
    if vs != [] { HealthyAdds(d, vs[..|vs| - 1]); }
  }

  // ----- missing nodes ------------------------------------------------------

  function MissingIds(es: seq<Entry>): seq<string> {
    if es == [] then []
    else MissingIds(es[..|es| - 1]) + if es[|es| - 1].NodeMissing? then [es[|es| - 1].systemId] else []
  }

  function Ids(ms: seq<MissingNode>): seq<string> {
    seq(|ms|, k requires 0 <= k < |ms| => ms[k].systemId)
  }

  predicate NoneMissing(es: seq<Entry>) {
    forall e :: e in es ==> !e.NodeMissing?
  }

  lemma {:induction false} NoMissingIds(es: seq<Entry>, more: seq<Entry>)
    requires NoneMissing(more)
    ensures MissingIds(es + more) == MissingIds(es)
  {
    if more == [] {
      assert es + more == es;
    } else {
      var n := |more| - 1;
      assert more[n] in more;
      assert (es + more)[..|es + more| - 1] == es + more[..n];
      NoMissingIds(es, more[..n]);
    }
  }

  lemma {:induction false} MissingIdsOfEntries(es: seq<Entry>, ms: seq<MissingNode>)
    ensures MissingIds(es + MissingEntries(ms)) == MissingIds(es) + Ids(ms)
  {
    if ms == [] {
      assert es + MissingEntries(ms) == es;
    } else {
      var n := |ms| - 1;
      var all := es + MissingEntries(ms);
      assert all[..|all| - 1] == es + MissingEntries(ms[..n]);
      MissingIdsOfEntries(es, ms[..n]);
      assert Ids(ms) == Ids(ms[..n]) + [ms[n].systemId];
    }
  }

  /** `d'` adds inconclusive entries, none of them about a missing node. */
  ghost predicate AddsNoMissing(d: Doc, d': Doc) {
    MissingIds(d'.inconclusive) == MissingIds(d.inconclusive) && d'.missing == d.missing
  }

  lemma {:induction false} FindingsAddNoMissing(d: Doc, node: string, fs: seq<Finding>)
    ensures AddsNoMissing(d, FileAll(d, node, fs))
  {
    if fs != [] {
      var n := |fs| - 1;
      FindingsAddNoMissing(d, node, fs[..n]);
      NoMissingIds(FileAll(d, node, fs[..n]).inconclusive, [Found(node, fs[n])]);
    }
  }

  lemma {:induction false} OutputsAddNoMissing(d: Doc, os: seq<ProbeOutput>)
    ensures AddsNoMissing(d, FileOutputs(d, os))
  {
    if os != [] {
      var o := os[|os| - 1];
      var before := FileOutputs(d, os[..|os| - 1]);
      OutputsAddNoMissing(d, os[..|os| - 1]);
      NoMissingIds(before.inconclusive, [ProbeIncomplete(o.hostname, o.status)]);
      var d' :=
        if o.status != Complete
          then before.(inconclusive := before.inconclusive + [ProbeIncomplete(o.hostname, o.status)])
          else before;
      FindingsAddNoMissing(d', o.hostname, AllFindings(o));
    }
  }

  lemma {:induction false} UnknownsNoneMissing(outputs: Outputs, es: seq<Edge>)
    ensures NoneMissing(EdgeUnknowns(outputs, es))
  {
    if es != [] { UnknownsNoneMissing(outputs, es[..|es| - 1]); }
  }

  lemma EntriesNoneMissing(pair: (string, string), outputs: Outputs, vs: seq<Verdict>)
    ensures NoneMissing(EntriesFrom(pair, outputs, vs).inconclusive)
  {
  }

  lemma LinkAddsNoMissing(d: Doc, s: Selections, outputs: Outputs, a: string, b: string)
    ensures AddsNoMissing(d, WithLink(d, s, outputs, a, b))
  {
    LinkAdds(d, s, outputs, a, b);
    EntriesNoneMissing(SortedPair(a, b), outputs, LinkVerdicts(s, outputs, a, b));
    NoMissingIds(d.inconclusive, EntriesOf(s, outputs, a, b).inconclusive);
  }

  lemma {:induction false} LinksAddNoMissing(d: Doc, s: Selections, outputs: Outputs, links: seq<(string, string)>)
    ensures AddsNoMissing(d, WithLinks(d, s, outputs, links))
  {
    if links != [] {
      var n := |links| - 1;
      var before := WithLinks(d, s, outputs, links[..n]);
      LinksAddNoMissing(d, s, outputs, links[..n]);
      LinkAddsNoMissing(before, s, outputs, links[n].0, links[n].1);
    }
  }

  lemma {:induction false} MtusAddNoMissing(d: Doc, outputs: Outputs, ps: seq<Path>)
    ensures AddsNoMissing(d, WithMtus(d, outputs, ps))
  {
    if ps != [] {
      var n := |ps| - 1;
      var before := WithMtus(d, outputs, ps[..n]);
      MtusAddNoMissing(d, outputs, ps[..n]);
      NoMissingIds(before.inconclusive, []);
      NoMissingIds(before.inconclusive, [MtuNotMeasured(ps[n].src, ps[n].dst, ps[n].source)]);
    }
  }

  lemma CrossRackAddsNoMissing(d: Doc, t: Topology, outputs: Outputs)
    ensures AddsNoMissing(d, WithCrossRack(d, t, outputs))
  {
    if SelectionsOf(t).Ok? {
      var s := SelectionsOf(t).value;
      var d' := WithLinks(d, s, outputs, SortedPairs(LinkSet(s)));
      LinksAddNoMissing(d, s, outputs, SortedPairs(LinkSet(s)));
      MtusAddNoMissing(d', outputs, AllPaths(s));
    }
  }

  /** Nothing is silently dropped: the report's inconclusive list has exactly one
      missing-node check per missing entry, in order, and repeats the entries. */
  lemma MissingBecomeInconclusive(outputs: seq<ProbeOutput>, missing: seq<MissingNode>, topology: Option<Topology>)
    ensures MissingIds(ReportDoc(outputs, missing, topology).inconclusive) == Ids(missing)
    ensures ReportDoc(outputs, missing, topology).missing == missing
  {
    var start := EMPTY.(missing := missing);
    var filed := FileOutputs(start, outputs);
    OutputsAddNoMissing(start, outputs);
    MissingIdsOfEntries(filed.inconclusive, missing);
    var d := Collected(outputs, missing);
    assert MissingIds(start.inconclusive) == [];
    assert MissingIds(d.inconclusive) == Ids(missing);
    if topology.Some? {
      var t, bySid := topology.value, BySid(outputs);
      var es := Edges(t.bmcRule, t.machines);
      UnknownsNoneMissing(bySid, es);
      NoMissingIds(d.inconclusive, EdgeUnknowns(bySid, es));
      CrossRackAddsNoMissing(WithEdges(d, bySid, es), t, bySid);
    }
  }
}
