/** Runs of the run-id protocol that complete an id twice in a row. */
module RunIdRepeats {
  import opened Order
  import opened RunIdProtocol

  predicate RepeatsAt(log: seq<RunId>, k: nat, id: RunId) {
    0 < k < |log| && log[k - 1] == id && log[k] == id
  }

  ghost predicate NoCleanRepeat(log: seq<RunId>) {
    forall k: nat, id :: RepeatsAt(log, k, id) ==> !Clean(id) && Startable(id)
  }

  lemma NextKeepsNoRepeat(s: State, s': State, leader: nat, a: Action, u: nat)
    requires Inv(s, leader) && Next(s, s', leader, a) && u < |s.nodes| && NoCleanRepeat(s.nodes[u].log)
    ensures |s'.nodes| == |s.nodes| && NoCleanRepeat(s'.nodes[u].log)
  {
    var before, after := s.nodes[u].log, s'.nodes[u].log;
    assert NodeInv(s, leader, u);
    assert after == before || (MustRun(s.nodes[u], s.nodes[u].hook.runId) && after == before + [s.nodes[u].hook.runId]);
    forall k: nat, id | RepeatsAt(after, k, id) ensures !Clean(id) && Startable(id) {
      assert k < |before| ==> RepeatsAt(before, k, id);
    }
  }

  lemma {:induction false} NoRepeatOverRun(trace: seq<State>, actions: seq<Action>, leader: nat, i: nat, u: nat)
    requires Run(trace, actions, leader) && i < |trace| && u < |trace[0].nodes|
    ensures |trace[i].nodes| == |trace[0].nodes| && NoCleanRepeat(trace[i].nodes[u].log)
  {
    if i > 0 {
      NoRepeatOverRun(trace, actions, leader, i - 1, u);
      InvOverRun(trace, actions, leader, i - 1);
      assert StepAt(trace, actions, leader, i - 1);
      NextKeepsNoRepeat(trace[i - 1], trace[i], leader, actions[i - 1], u);
    }
  }

  /** Some run makes some unit complete `id` twice in a row. */
  ghost predicate Repeatable(id: RunId) {
    exists trace, actions, leader, i, u, k :: RepeatsIn(trace, actions, leader, i, u, k, id)
  }

  ghost predicate RepeatsIn(
    trace: seq<State>, actions: seq<Action>, leader: nat, i: nat, u: nat, k: nat, id: RunId)
  {
    Run(trace, actions, leader) && i < |trace| && u < |trace[i].nodes| && RepeatsAt(trace[i].nodes[u].log, k, id)
  }

  /** The exact condition: an id can be completed twice in a row exactly when it
      does not read back unchanged from the last-run file. */
  lemma RepeatableIffUnclean(id: RunId)
    ensures Repeatable(id) <==> !Clean(id) && Startable(id)
  {
    if trace, actions, leader, i, u, k :| RepeatsIn(trace, actions, leader, i, u, k, id) {
      InvOverRun(trace, actions, leader, i);
      NoRepeatOverRun(trace, actions, leader, i, u);
    }
    if !Clean(id) && Startable(id) {
      UncleanRepeats(id);
    }
  }

  /** In the ordinary course of one configuration change, without any spurious
      event or failure, a follower runs an id that does not read back unchanged from
      config-changed and again from the leader's relation write. */
  function OrdinaryRun(id: RunId): seq<Action> {
    [ARelate, ASetConfig(id),
     ABegin(1, ConfigChanged), ARunProbe(1), ACommit(1),
     ABegin(0, ConfigChanged), ARunProbe(0), ACommit(0),
     ABegin(1, RelationChanged), ARunProbe(1)]
  }

  /** The leader and the follower before each action of that run. */
  function LeaderAt(id: RunId, k: nat): Node {
    if k < 2 then Node("", false, false, Idle, [])
    else if k < 6 then Node("", true, false, Idle, [])
    else if k == 6 then Node("", false, false, Running(ConfigChanged, id, Some(id), false), [])
    else if k == 7 then Node(id, false, false, Running(ConfigChanged, id, Some(id), true), [id])
    else Node(id, false, false, Idle, [id])
  }

  function FollowerAt(id: RunId, k: nat): Node {
    if k < 2 then Node("", false, false, Idle, [])
    else if k == 2 then Node("", true, false, Idle, [])
    else if k == 3 then Node("", false, false, Running(ConfigChanged, id, None, false), [])
    else if k == 4 then Node(id, false, false, Running(ConfigChanged, id, None, true), [id])
    else if k < 8 then Node(id, false, false, Idle, [id])
    else if k == 8 then Node(id, false, true, Idle, [id])
    else if k == 9 then Node(id, false, false, Running(RelationChanged, id, None, false), [id])
    else Node(id, false, false, Running(RelationChanged, id, None, true), [id, id])
  }

  function StateAt(id: RunId, k: nat): State {
    State(if k < 2 then "" else id, if k < 8 then "" else id, k > 0, [LeaderAt(id, k), FollowerAt(id, k)])
  }

  lemma ProbeStage(id: RunId, k: nat)
    requires !Clean(id) && Startable(id) && (k == 3 || k == 6 || k == 9)
    ensures var u := if k == 6 then 0 else 1;
      RunProbe(StateAt(id, k), StateAt(id, k + 1), u)
  {
    assert id != "" && ReadBack("") == "";
    assert [] + [id] == [id] && [id] + [id] == [id, id];
    var u := if k == 6 then 0 else 1;
    assert StateAt(id, k + 1).nodes[u] == Probe(StateAt(id, k).nodes[u]);
  }

  lemma OrdinaryStep(id: RunId, k: nat)
    requires !Clean(id) && Startable(id) && k < 10
    ensures Next(StateAt(id, k), StateAt(id, k + 1), 0, OrdinaryRun(id)[k])
  {
    if k == 3 || k == 6 || k == 9 {
      ProbeStage(id, k);
    } else {
      assert id != "";
    }
  }

  lemma UncleanRepeats(id: RunId)
    requires !Clean(id) && Startable(id)
    ensures Repeatable(id)
  {
    var actions, trace := OrdinaryRun(id), seq(11, k requires 0 <= k => StateAt(id, k));
    forall k | 0 <= k < 10 ensures StepAt(trace, actions, 0, k) { OrdinaryStep(id, k); }
    assert RepeatsIn(trace, actions, 0, 10, 1, 1, id);
  }
}
