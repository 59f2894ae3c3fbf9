/** The pipeline from the MAAS lists to the exit code, in one statement. */
module EndToEnd {
  import opened Order
  import opened Topology
  import opened ProbeOutput
  import opened Representatives
  import opened L2Edges
  import opened MaasTopology
  import opened JujuRun
  import opened JujuAndReport
  import NodeAndReport
  import ReportGenerator
  import opened ExitCodeSoundness

  /** Every output's VLAN section was left by a run of the VLAN validator over
      this topology, whatever interrupted it. */
  ghost predicate FromVlanRuns(t: Topology, outputs: seq<ProbeOutput>, runs: ProbeOutput -> NodeAndReport.VlanRun) {
    forall o :: o in outputs ==> NodeAndReport.LeftBy(t, o, runs(o))
  }

  /** What ExitCodeZero asks of the outputs holds of whatever the validators
      leave behind. */
  lemma VlanRunsAreDefinitive(t: Topology, outputs: seq<ProbeOutput>, runs: ProbeOutput -> NodeAndReport.VlanRun)
    requires FromVlanRuns(t, outputs, runs)
    ensures EdgeFailuresDefinitive(outputs)
  {
    forall o | o in outputs ensures forall f :: f in o.vlanFindings ==> f.classification == Definitive {
      NodeAndReport.RunFindingsDefinitive(t, o, runs(o));
    }
  }

  /** A machine has a complete document of this run. */
  predicate HasDocument(outputs: seq<ProbeOutput>, id: string, runId: string) {
    && id in BySid(outputs) && BySid(outputs)[id] in outputs
    && BySid(outputs)[id].runId == runId && BySid(outputs)[id].status == Complete
  }

  /** When nothing is missing and every document is complete, every in-scope
      machine has its own. */
  lemma NobodyMissing(r: RunResult, t: Topology, runId: string, m: Machine)
    requires UniqueIds(t.machines) && m in t.machines && m.inScope
    requires AllAccountedFor(r, Identities(InScope(t.machines)), runId) && OwnDocuments(r)
    requires r.missing == [] && forall o :: o in Docs(r.collected) ==> o.status == Complete
    ensures HasDocument(Docs(r.collected), m.systemId, runId)
  {
    ExactlyOnce(r, t.machines, runId, m);
    DocOf(r, r.collected, m.systemId);
    assert Node(m.systemId, m.hostname) in NodesOf(r.machines, UnitsOf(r.collected));
    BySidMembers(Docs(r.collected), m.systemId);
    DocFrom(r.collected, BySid(Docs(r.collected))[m.systemId]);
  }

  /** Every machine the operator selected was probed in this run to the end, and
      every edge expected between two of them, among all machines MAAS knows, was
      confirmed from both ends. */
  ghost predicate EveryoneChecked(
    controllers: seq<RawNode>, machines: seq<RawNode>, ids: set<string>, outputs: seq<ProbeOutput>, runId: string)
  {
    var u := Unpruned(controllers, machines, ids);
    && (forall id :: id in ids ==> HasDocument(outputs, id, runId))
    && (forall e :: e in Edges(u.bmcRule, u.machines) && e.a.inScope && e.b.inScope ==>
          ConfirmedBothWays(BySid(outputs), e))
  }

  /** What the tool's exit code says of such a run. */
  ghost predicate ExitCodeTells(
    controllers: seq<RawNode>, machines: seq<RawNode>, ids: set<string>, t: Topology, r: RunResult, runId: string)
  {
    var outputs := Docs(r.collected);
    var clean := ReportGenerator.ExitCode(ReportGenerator.ReportDoc(outputs, r.missing, Some(t))) == 0;
    && SelectionsOf(t).Ok?
    && (clean <==> AllPassed(outputs, r.missing, t, SelectionsOf(t).value))
    && (clean ==> EveryoneChecked(controllers, machines, ids, outputs, runId))
  }

  /** Build the topology, deploy, trigger, collect and report: the exit code is 0
      exactly when the whole check universe passed, and then every selected
      machine has its own complete document of this run, and every edge between
      two of them, pruning notwithstanding, was confirmed both ways. */
  lemma CleanRunCoversEveryone(
    controllers: seq<RawNode>, machines: seq<RawNode>, scope: Scope, t: Topology, w: World, timeout: nat,
    runId: string, placed: nat, polled: nat, r: RunResult, runs: ProbeOutput -> NodeAndReport.VlanRun)
    requires DistinctIds(controllers) && DistinctIds(machines) && BuildSpec(controllers, machines, scope) == Document(t)
    requires Lawful(w) && NewRunResult(w, InScope(t.machines), timeout, runId, placed, polled) == Result.Ok(r)
    requires OwnDocuments(r) && FromVlanRuns(t, Docs(r.collected), runs)
    ensures ExitCodeTells(controllers, machines,
              ScopedIds(Others(controllers, machines), scope, Hostnames(controllers)).ids, t, r, runId)
  {
    var outputs := Docs(r.collected);
    var ids := ScopedIds(Others(controllers, machines), scope, Hostnames(controllers)).ids;
    BuiltIsLawful(controllers, machines, scope);
    VlanRunsAreDefinitive(t, outputs, runs);
    ExitCodeZero(outputs, r.missing, t);
    NewRunAccounted(w, InScope(t.machines), timeout, runId, placed, polled);
    if AllPassed(outputs, r.missing, t, SelectionsOf(t).value) {
      PruningPreservesMeaning(controllers, machines, ids);
      forall id | id in ids ensures HasDocument(outputs, id, runId) {
        var m :| m in t.machines && m.systemId == id && m.inScope;
        NobodyMissing(r, t, runId, m);
      }
    }
  }
}
