/** Whether settled units completed the configured id, or one that only reads
    back as it. */
module RunIdExactness {
  import opened Order
  import opened RunIdProtocol

  /** The ids configured by the first `n` actions. */
  function Configured(actions: seq<Action>, n: nat): set<RunId>
    requires n <= |actions|
  {
    if n == 0 then {}
    else Configured(actions, n - 1) + if actions[n - 1].ASetConfig? then {actions[n - 1].id} else {}
  }

  predicate KnownId(id: RunId, ids: set<RunId>) { id == "" || id in ids }

  predicate KnownNode(n: Node, ids: set<RunId>) {
    && KnownId(n.file, ids) && Startable(n.file)
    && (n.hook.Running? ==> KnownId(n.hook.runId, ids) && (n.hook.write.Some? ==> KnownId(n.hook.write.value, ids)))
  }

  /** Every id anywhere in the state was configured at some time, and what was run
      could be started. */
  ghost predicate KnownState(s: State, ids: set<RunId>) {
    && KnownId(s.config, ids) && KnownId(s.databag, ids)
    && forall u :: 0 <= u < |s.nodes| ==> KnownNode(s.nodes[u], ids)
  }

  lemma NextKeepsKnown(s: State, s': State, leader: nat, a: Action, ids: set<RunId>, ids': set<RunId>)
    requires KnownState(s, ids) && Next(s, s', leader, a) && ids <= ids' && (a.ASetConfig? ==> a.id in ids')
    ensures KnownState(s', ids')
  {
    forall u | 0 <= u < |s'.nodes| ensures KnownNode(s'.nodes[u], ids') { assert KnownNode(s.nodes[u], ids); }
  }

  lemma {:induction false} KnownOverRun(trace: seq<State>, actions: seq<Action>, leader: nat, i: nat)
    requires Run(trace, actions, leader) && i < |trace|
    ensures KnownState(trace[i], Configured(actions, i))
  {
    if i > 0 {
      KnownOverRun(trace, actions, leader, i - 1);
      assert StepAt(trace, actions, leader, i - 1);
      NextKeepsKnown(trace[i - 1], trace[i], leader, actions[i - 1], Configured(actions, i - 1),
        Configured(actions, i));
    }
  }

  predicate EndsWith(log: seq<RunId>, id: RunId) { log != [] && log[|log| - 1] == id }

  /** No id that can be run, but `id` itself, reads back from the last-run file as
      `id`. */
  ghost predicate Unmistakable(id: RunId, ids: set<RunId>) {
    forall d :: d in ids && Startable(d) && ReadBack(d) == id ==> d == id
  }

  /** When no other id configured so far reads back as the configured one, the last
      id every unit completed is exactly the configured one. */
  lemma ConvergesExactly(trace: seq<State>, actions: seq<Action>, leader: nat, i: nat, u: nat)
    requires Run(trace, actions, leader) && i < |trace| && u < |trace[i].nodes|
    requires Quiescent(trace[i]) && trace[i].config != ""
    requires Unmistakable(trace[i].config, Configured(actions, i))
    ensures EndsWith(trace[i].nodes[u].log, trace[i].config)
  {
    Converges(trace, actions, leader, i, u);
    KnownOverRun(trace, actions, leader, i);
    InvOverRun(trace, actions, leader, i);
    assert NodeInv(trace[i], leader, u) && KnownNode(trace[i].nodes[u], Configured(actions, i));
  }

  /** A quiescent moment, with `c` configured, of a run that configures only ids
      among `ids`. */
  ghost predicate SettledAt(
    trace: seq<State>, actions: seq<Action>, leader: nat, i: nat, u: nat, ids: set<RunId>, c: RunId)
  {
    && Run(trace, actions, leader) && i < |trace| && u < |trace[i].nodes|
    && Configured(actions, i) <= ids && Quiescent(trace[i]) && trace[i].config == c
  }

  /** Whatever ids among `ids` are configured and however the steps interleave,
      every settled unit completed `c` last. */
  ghost predicate AlwaysExact(ids: set<RunId>, c: RunId) {
    forall trace: seq<State>, actions: seq<Action>, leader: nat, i: nat, u: nat ::
      SettledAt(trace, actions, leader, i, u, ids, c) ==>
      EndsWith(trace[i].nodes[u].log, c)
  }

  /** The exact condition: settled units completed the configured id last, in
      every run over `ids`, if and only if no other id of `ids` that can be run reads
      back as it. */
  lemma ExactIffUnmistakable(ids: set<RunId>, c: RunId)
    requires c in ids && c != ""
    ensures AlwaysExact(ids, c) <==> Unmistakable(c, ids)
  {
    if Unmistakable(c, ids) {
      forall trace: seq<State>, actions: seq<Action>, leader: nat, i: nat, u: nat |
        SettledAt(trace, actions, leader, i, u, ids, c)
        ensures EndsWith(trace[i].nodes[u].log, c)
      {
        ConvergesExactly(trace, actions, leader, i, u);
      }
    } else {
      var d :| d in ids && Startable(d) && ReadBack(d) == c && d != c;
      MistakenRun(ids, d, c);
    }
  }

  /** One unit runs `d`; when `c` is configured next, it takes the file for `c`
      and never runs it. */
  function MistakenActions(d: RunId, c: RunId): seq<Action> {
    [ASetConfig(d), ABegin(0, ConfigChanged), ARunProbe(0), ACommit(0),
     ASetConfig(c), ABegin(0, ConfigChanged), ARunProbe(0), ACommit(0)]
  }

  function MistakenAt(d: RunId, c: RunId, k: nat): State {
    State(if k == 0 then "" else if k < 5 then d else c, "", false, [MistakenNode(d, c, k)])
  }

  function MistakenNode(d: RunId, c: RunId, k: nat): Node {
    if k == 0 then Node("", false, false, Idle, [])
    else if k == 1 then Node("", true, false, Idle, [])
    else if k == 2 then Node("", false, false, Running(ConfigChanged, d, None, false), [])
    else if k == 3 then Node(d, false, false, Running(ConfigChanged, d, None, true), [d])
    else if k == 4 then Node(d, false, false, Idle, [d])
    else if k == 5 then Node(d, true, false, Idle, [d])
    else if k == 6 then Node(d, false, false, Running(ConfigChanged, c, None, false), [d])
    else if k == 7 then Node(d, false, false, Running(ConfigChanged, c, None, true), [d])
    else Node(d, false, false, Idle, [d])
  }

  lemma MistakenStep(d: RunId, c: RunId, k: nat)
    requires ReadBack(d) == c && c != "" && Startable(d) && k < 8
    ensures Next(MistakenAt(d, c, k), MistakenAt(d, c, k + 1), 0, MistakenActions(d, c)[k])
  {
    assert ReadBack("") == "" && d != "";
    assert [] + [d] == [d];
    assert k == 2 ==> MistakenNode(d, c, 3) == Probe(MistakenNode(d, c, 2));
  }

  lemma MistakenRun(ids: set<RunId>, d: RunId, c: RunId)
    requires c in ids && d in ids && c != "" && Startable(d) && ReadBack(d) == c && d != c
    ensures !AlwaysExact(ids, c)
  {
    var actions, trace := MistakenActions(d, c), seq(9, k requires 0 <= k => MistakenAt(d, c, k));
    forall k | 0 <= k < 8 ensures StepAt(trace, actions, 0, k) { MistakenStep(d, c, k); }
    MistakenConfigures(d, c, 8);
    assert SettledAt(trace, actions, 0, 8, 0, ids, c);
    assert !EndsWith(trace[8].nodes[0].log, c);
  }

  lemma {:induction false} MistakenConfigures(d: RunId, c: RunId, n: nat)
    requires n <= 8
    ensures Configured(MistakenActions(d, c), n) <= {d, c}
  {
    if n > 0 { MistakenConfigures(d, c, n - 1); }
  }
}
