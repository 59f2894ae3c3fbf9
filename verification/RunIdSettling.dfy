/** Runs of the run-id protocol come to rest: the work left by hooks is bounded,
    and there is always a step until it is done. */
module RunIdSettling {
  import opened RunIdProtocol
  import opened RunIdExactness

  /** The steps the units take by themselves, with no failure. */
  predicate HookStep(a: Action) { a.ABegin? || a.ARunProbe? || a.ACommit? }

  function Work(n: Node): (w: nat) {
    (if n.configPending then 3 else 0) + (if n.relationPending then 3 else 0)
    + (if n.hook == Idle then 0 else if n.hook.probed then 1 else 2)
  }

  function TotalWork(nodes: seq<Node>): nat {
    if nodes == [] then 0 else TotalWork(nodes[..|nodes| - 1]) + Work(nodes[|nodes| - 1])
  }

  /** The leader's work weighs more than all that its commit can cause. */
  function Potential(s: State, leader: nat): nat
    requires leader < |s.nodes|
  {
    (3 * |s.nodes| + 1) * Work(s.nodes[leader]) + TotalWork(s.nodes)
  }

  lemma {:induction false} TotalAfterUpdate(nodes: seq<Node>, u: nat, n: Node)
    requires u < |nodes|
    ensures TotalWork(nodes[u := n]) == TotalWork(nodes) - Work(nodes[u]) + Work(n)
  {
    var last := |nodes| - 1;
    if u == last {
      assert nodes[u := n][..last] == nodes[..last];
    } else {
      assert nodes[u := n][..last] == nodes[..last][u := n];
      TotalAfterUpdate(nodes[..last], u, n);
    }
  }

  lemma {:induction false} TotalAfterCommit(nodes: seq<Node>, nodes': seq<Node>)
    requires |nodes'| == |nodes| && forall v :: 0 <= v < |nodes| ==> Work(nodes'[v]) <= Work(nodes[v]) + 3
    ensures TotalWork(nodes') <= TotalWork(nodes) + 3 * |nodes|
  {
    if nodes != [] {
      TotalAfterCommit(nodes[..|nodes| - 1], nodes'[..|nodes| - 1]);
    }
  }

  lemma {:induction false} Outweighs(k: nat, a: nat, b: nat)
    ensures a <= b ==> k * a <= k * b
    ensures a < b ==> k * a + k <= k * b
    decreases b
  {
    if a < b {
      Outweighs(k, a, b - 1);
      assert k * b == k * (b - 1) + k;
    }
  }

  lemma CommitWorks(s: State, s': State, leader: nat)
    requires leader < |s.nodes| && Commit(s, s', leader)
    ensures Potential(s', leader) < Potential(s, leader)
  {
    TotalAfterCommit(s.nodes, s'.nodes);
    Outweighs(3 * |s.nodes| + 1, Work(s'.nodes[leader]), Work(s.nodes[leader]));
  }

  lemma LocalWorks(s: State, s': State, leader: nat, u: nat)
    requires leader < |s.nodes| && u < |s.nodes| == |s'.nodes| && s'.nodes == s.nodes[u := s'.nodes[u]]
    requires Work(s'.nodes[u]) < Work(s.nodes[u])
    ensures Potential(s', leader) < Potential(s, leader)
  {
    TotalAfterUpdate(s.nodes, u, s'.nodes[u]);
    Outweighs(3 * |s.nodes| + 1, Work(s'.nodes[leader]), Work(s.nodes[leader]));
  }

  lemma HookStepWorks(s: State, s': State, leader: nat, a: Action)
    requires Inv(s, leader) && Next(s, s', leader, a) && HookStep(a)
    ensures |s'.nodes| == |s.nodes| && Potential(s', leader) < Potential(s, leader)
  {
    var u := a.u;
    assert NodeInv(s, leader, u);
    if a.ACommit? && u == leader {
      CommitWorks(s, s', leader);
    } else {
      assert s'.nodes == s.nodes[u := s'.nodes[u]];
      LocalWorks(s, s', leader, u);
    }
  }

  /** From any point of a run, the units can take only so many steps before they
      need the environment to raise something or to fail a hook. */
  lemma {:induction false} Settles(trace: seq<State>, actions: seq<Action>, leader: nat, i: nat, j: nat)
    requires Run(trace, actions, leader) && i <= j < |trace|
    requires forall k :: i <= k < j ==> HookStep(actions[k])
    ensures |trace[i].nodes| == |trace[j].nodes| == |trace[0].nodes| && leader < |trace[0].nodes|
    ensures Potential(trace[j], leader) + (j - i) <= Potential(trace[i], leader)
    decreases j - i
  {
    InvOverRun(trace, actions, leader, i);
    InvOverRun(trace, actions, leader, j);
    if i < j {
      Settles(trace, actions, leader, i, j - 1);
      InvOverRun(trace, actions, leader, j - 1);
      assert StepAt(trace, actions, leader, j - 1);
      HookStepWorks(trace[j - 1], trace[j], leader, actions[j - 1]);
    }
  }

  /** A unit that can take a step by itself: it has an event to handle, or is past
      `_maybe_run_probe`, or can get past it. */
  predicate CanMove(n: Node) {
    if n.hook == Idle then n.configPending || n.relationPending else n.hook.probed || CanProbe(n)
  }

  ghost predicate SomeStep(s: State, leader: nat) {
    exists a, s' :: HookStep(a) && Next(s, s', leader, a)
  }

  lemma MovesOn(s: State, leader: nat, u: nat)
    requires u < |s.nodes| && CanMove(s.nodes[u])
    ensures SomeStep(s, leader)
  {
    var n := s.nodes[u];
    if n.hook == Idle {
      var event := if n.configPending then ConfigChanged else RelationChanged;
      var n' := if n.configPending then BeginConfig(s, u == leader, n) else BeginRelation(s, n);
      assert Next(s, s.(nodes := s.nodes[u := n']), leader, ABegin(u, event));
    } else if !n.hook.probed {
      assert Next(s, s.(nodes := s.nodes[u := Probe(n)]), leader, ARunProbe(u));
    } else {
      CanCommit(s, u, leader);
    }
  }

  /** There is a step exactly when some unit can move. */
  lemma StepIff(s: State, leader: nat)
    ensures SomeStep(s, leader) <==> exists u :: 0 <= u < |s.nodes| && CanMove(s.nodes[u])
  {
    if a, s' :| HookStep(a) && Next(s, s', leader, a) { assert CanMove(s.nodes[a.u]); }
    if u :| 0 <= u < |s.nodes| && CanMove(s.nodes[u]) { MovesOn(s, leader, u); }
  }

  /** ... and until everything is quiescent some unit can take one, if no id
      configured so far is one the probe cannot be started with. */
  lemma NotStuck(trace: seq<State>, actions: seq<Action>, leader: nat, i: nat)
    requires Run(trace, actions, leader) && i < |trace| && !Quiescent(trace[i])
    requires forall id :: id in Configured(actions, i) ==> Startable(id)
    ensures SomeStep(trace[i], leader)
  {
    var s := trace[i];
    KnownOverRun(trace, actions, leader, i);
    var u: nat :| u < |s.nodes| && (s.nodes[u].configPending || s.nodes[u].relationPending || s.nodes[u].hook != Idle);
    assert KnownNode(s.nodes[u], Configured(actions, i));
    MovesOn(s, leader, u);
  }

  lemma CanCommit(s: State, u: nat, leader: nat)
    requires u < |s.nodes| && s.nodes[u].hook.Running? && s.nodes[u].hook.probed
    ensures exists s' :: Next(s, s', leader, ACommit(u))
  {
    var write := s.nodes[u].hook.write;
    var changed := write.Some? && write.value != s.databag;
    var nodes' := seq(|s.nodes|, v requires 0 <= v < |s.nodes| =>
      if v == u then s.nodes[u].(hook := Idle)
      else if changed then s.nodes[v].(relationPending := true) else s.nodes[v]);
    var s' := s.(databag := if changed then write.value else s.databag, nodes := nodes');
    assert Next(s, s', leader, ACommit(u));
  }
}
