/** From the Juju run to the report: no in-scope machine is silently dropped. */
module JujuAndReport {
  import opened Order
  import opened Topology
  import opened ProbeOutput
  import opened JujuRun
  import ReportGenerator
  import ReportAccounting

  function Docs(collected: seq<Collected>): seq<ProbeOutput> {
    if collected == [] then [] else Docs(collected[..|collected| - 1]) + [collected[|collected| - 1].doc]
  }

  /** Each unit's document names the machine the unit runs on. */
  ghost predicate OwnDocuments(r: RunResult) {
    forall c :: c in r.collected ==> c.unit in r.machines && c.doc.systemId == r.machines[c.unit].systemId
  }

  lemma {:induction false} DocOf(r: RunResult, collected: seq<Collected>, sid: string)
    requires forall c :: c in collected ==> c.unit in r.machines && c.doc.systemId == r.machines[c.unit].systemId
    requires forall u :: u in UnitsOf(collected) ==> u in r.machines
    ensures (exists d :: d in Docs(collected) && d.systemId == sid)
            <==> exists h :: Node(sid, h) in NodesOf(r.machines, UnitsOf(collected))
  {
    if collected != [] {
      var n := |collected| - 1;
      var last := collected[n];
      assert collected == collected[..n] + [last];
      assert UnitsOf(collected)[..n] == UnitsOf(collected[..n]) by { UnitsSize(collected[..n]); }
      DocOf(r, collected[..n], sid);
      var node := r.machines[last.unit];
      assert NodesOf(r.machines, UnitsOf(collected)) == NodesOf(r.machines, UnitsOf(collected[..n])) + multiset{node};
      assert node == Node(node.systemId, node.hostname);
      if node.systemId == sid {
        assert last.doc in Docs(collected);
        assert Node(sid, node.hostname) in NodesOf(r.machines, UnitsOf(collected));
      }
    }
  }

  lemma {:induction false} UnitsSize(collected: seq<Collected>)
    ensures |UnitsOf(collected)| == |collected|
  {
    if collected != [] { UnitsSize(collected[..|collected| - 1]); }
  }

  lemma {:induction false} DocFrom(collected: seq<Collected>, d: ProbeOutput)
    requires d in Docs(collected)
    ensures exists c :: c in collected && c.doc == d
  {
    var n := |collected| - 1;
    assert collected == collected[..n] + [collected[n]];
    if d != collected[n].doc { DocFrom(collected[..n], d); }
  }

  lemma {:induction false} FromScope(ms: seq<Machine>, n: Node)
    requires n in Identities(InScope(ms))
    ensures exists m :: m in ms && Identity(m) == n
  {
    var k := |ms| - 1;
    ScopeAppend(ms[..k], ms[k]);
    assert ms == ms[..k] + [ms[k]];
    if n != Identity(ms[k]) { FromScope(ms[..k], n); }
  }

  lemma {:induction false} IdCount(missing: seq<MissingNode>, node: Node)
    requires forall n :: n in MissingNodes(missing) && n.systemId == node.systemId ==> n == node
    ensures multiset(ReportAccounting.Ids(missing))[node.systemId] == MissingNodes(missing)[node]
  {
    if missing != [] {
      var k := |missing| - 1;
      var last := Node(missing[k].systemId, missing[k].hostname);
      assert MissingNodes(missing) == MissingNodes(missing[..k]) + multiset{last};
      IdCount(missing[..k], node);
      assert ReportAccounting.Ids(missing) == ReportAccounting.Ids(missing[..k]) + [missing[k].systemId];
      assert last in MissingNodes(missing);
    }
  }

  /** All nodes a complete run accounts for under the id of `m` are `m`. */
  lemma OnlyOne(r: RunResult, ms: seq<Machine>, runId: string, m: Machine, n: Node)
    requires UniqueIds(ms) && m in ms && AllAccountedFor(r, Identities(InScope(ms)), runId) && n.systemId == m.systemId
    requires n in MissingNodes(r.missing) || n in NodesOf(r.machines, UnitsOf(r.collected))
    ensures n == Identity(m)
  {
    assert n in Identities(InScope(ms));
    FromScope(ms, n);
    var o :| o in ms && Identity(o) == n;
    SameIdSameMachine(ms, o, m);
  }

  /** The missing-node checks of the report. */
  ghost function MissingChecks(r: RunResult, t: Option<Topology>): multiset<string> {
    multiset(ReportAccounting.MissingIds(ReportGenerator.ReportDoc(Docs(r.collected), r.missing, t).inconclusive))
  }

  ghost predicate AccountedFor(r: RunResult, runId: string, t: Option<Topology>, sid: string) {
    var outputs := BySid(Docs(r.collected));
    if sid in outputs then outputs[sid].runId == runId && MissingChecks(r, t)[sid] == 0
    else MissingChecks(r, t)[sid] == 1
  }

  /** Nothing is silently dropped: after a run, the report either holds the
      document of an in-scope machine, of the run just triggered and with no
      missing-node check beside it, or exactly one inconclusive check says that
      the machine is missing. */
  lemma NothingSilentlyDropped(r: RunResult, ms: seq<Machine>, runId: string, t: Option<Topology>, m: Machine)
    requires UniqueIds(ms) && m in ms && m.inScope
    requires AllAccountedFor(r, Identities(InScope(ms)), runId) && OwnDocuments(r)
    ensures AccountedFor(r, runId, t, m.systemId)
  {
    ReportAccounting.MissingBecomeInconclusive(Docs(r.collected), r.missing, t);
    forall n | n in MissingNodes(r.missing) && n.systemId == m.systemId ensures n == Identity(m) {
      OnlyOne(r, ms, runId, m, n);
    }
    IdCount(r.missing, Identity(m));
    ExactlyOnce(r, ms, runId, m);
    DocOf(r, r.collected, m.systemId);
    BySidMembers(Docs(r.collected), m.systemId);
    if m.systemId in BySid(Docs(r.collected)) {
      var h :| Node(m.systemId, h) in NodesOf(r.machines, UnitsOf(r.collected));
      OnlyOne(r, ms, runId, m, Node(m.systemId, h));
      DocFrom(r.collected, BySid(Docs(r.collected))[m.systemId]);
    } else {
      assert Node(m.systemId, m.hostname) !in NodesOf(r.machines, UnitsOf(r.collected));
    }
  }
}
