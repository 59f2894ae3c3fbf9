/** How a probe run id reaches every unit of the application
    (charm/src/charm.py): config-changed on each unit, the leader's databag
    write committed only when its hook exits, relation-changed as the catch-up.

    The environment: one fixed leader; setting the configuration raises
    config-changed on every unit; a committed change of the databag raises
    relation-changed on every other unit; hooks of one unit run one at a time
    and see committed values; a failed hook loses its databag write and its
    event stays pending.  Spurious events may be raised at any moment. */
module RunIdProtocol {
  import opened Order

  type RunId = string

  datatype Event = ConfigChanged | RelationChanged

  /** `write` is the uncommitted databag write; `probed` tells whether
      `_maybe_run_probe` has returned. */
  datatype Hook = Idle | Running(event: Event, runId: RunId, write: Option<RunId>, probed: bool)

  /** `file` is the content of the last-run file ("" when there is none) and
      `log` the ids of the probes completed, oldest first. */
  datatype Node = Node(file: RunId, configPending: bool, relationPending: bool, hook: Hook, log: seq<RunId>)

  /** `related` tells whether the peer relation exists yet. */
  datatype State = State(config: RunId, databag: RunId, related: bool, nodes: seq<Node>)

  // ----- the code -----------------------------------------------------------

  /** The characters `str.strip` removes. */
  predicate Blank(c: char) {
    var n := c as int;
    || 9 <= n <= 13 || 28 <= n <= 32 || n == 0x85 || n == 0xA0 || n == 0x1680 || 0x2000 <= n <= 0x200A
    || n == 0x2028 || n == 0x2029 || n == 0x202F || n == 0x205F || n == 0x3000
  }

  function StripLeft(s: RunId): RunId {
    if s != [] && Blank(s[0]) then StripLeft(s[1..]) else s
  }

  function StripRight(s: RunId): RunId {
    if s != [] && Blank(s[|s| - 1]) then StripRight(s[..|s| - 1]) else s
  }

  /** Reading a text file turns carriage returns, alone or before a line feed,
      into line feeds; writing one leaves them. */
  function Newlines(s: RunId): RunId {
    if s == [] then []
    else if s[0] == '\r' then ['\n'] + Newlines(if |s| > 1 && s[1] == '\n' then s[2..] else s[1..])
    else [s[0]] + Newlines(s[1..])
  }

  /** What `read_text().strip()` makes of the last-run file. */
  function ReadBack(file: RunId): RunId { StripRight(StripLeft(Newlines(file))) }

  /** An id that reading it back from the last-run file leaves unchanged. */
  predicate Clean(id: RunId) { ReadBack(id) == id }

  /** An id the probe can be given as an argument: `subprocess.run` raises on a
      NUL character. */
  predicate Startable(id: RunId) { '\0' !in id }

  /** `_on_config_changed` up to the call of `_maybe_run_probe`. */
  function BeginConfig(s: State, leader: bool, n: Node): Node {
    var write := if s.config != "" && leader && s.related then Some(s.config) else None;
    n.(configPending := false, hook := Running(ConfigChanged, s.config, write, false))
  }

  /** `_on_peer_relation_changed` up to the call of `_maybe_run_probe`. */
  function BeginRelation(s: State, n: Node): Node {
    n.(relationPending := false, hook := Running(RelationChanged, s.databag, None, false))
  }

  /** Whether `_maybe_run_probe` goes past its two guards. */
  predicate MustRun(n: Node, runId: RunId) {
    runId != "" && runId != ReadBack(n.file)
  }

  /** `_maybe_run_probe`, when the probe succeeds. */
  function Probe(n: Node): Node
    requires n.hook.Running?
  {
    var id := n.hook.runId;
    var ran := if MustRun(n, id) then n.(file := id, log := n.log + [id]) else n;
    ran.(hook := n.hook.(probed := true))
  }

  /** The hook fails: its event is pending again and its write is gone. */
  function Fail(n: Node): Node
    requires n.hook.Running?
  {
    if n.hook.event == ConfigChanged then n.(hook := Idle, configPending := true)
    else n.(hook := Idle, relationPending := true)
  }

  // ----- which ids read back unchanged --------------------------------------

  lemma {:induction false} NewlinesMeaning(s: RunId)
    ensures '\r' !in Newlines(s) && (Newlines(s) == s <==> '\r' !in s)
  {
    if s != [] {
      var rest := if s[0] == '\r' && |s| > 1 && s[1] == '\n' then s[2..] else s[1..];
      NewlinesMeaning(rest);
      assert s == [s[0]] + s[1..];
      if s[0] != '\r' { assert Newlines(s)[1..] == Newlines(rest); }
    }
  }

  lemma {:induction false} StripLeftMeaning(s: RunId)
    ensures if s == [] || !Blank(s[0]) then StripLeft(s) == s else |StripLeft(s)| < |s|
    ensures forall c :: c in StripLeft(s) ==> c in s
  {
    if s != [] { StripLeftMeaning(s[1..]); }
  }

  lemma {:induction false} StripRightMeaning(s: RunId)
    ensures if s == [] || !Blank(s[|s| - 1]) then StripRight(s) == s else |StripRight(s)| < |s|
    ensures forall c :: c in StripRight(s) ==> c in s
  {
    if s != [] { StripRightMeaning(s[..|s| - 1]); }
  }

  /** What `str.strip` removes, by code point. */
  lemma BlankMeaning(c: char)
    ensures Blank(c) <==> c as int in {
      9, 10, 11, 12, 13, 28, 29, 30, 31, 32, 133, 160, 5760, 8192, 8193, 8194, 8195, 8196, 8197, 8198, 8199, 8200,
      8201, 8202, 8232, 8233, 8239, 8287, 12288}
  {
  }

  /** A line break of either old kind becomes a line feed, and nothing else
      changes. */
  lemma {:induction false} NewlinesBreak(a: RunId, b: RunId)
    requires '\r' !in a
    ensures Newlines(a) == a
    ensures Newlines(a + "\r\n" + b) == a + "\n" + Newlines(b)
    ensures b == "" || b[0] != '\n' ==> Newlines(a + "\r" + b) == a + "\n" + Newlines(b)
  {
    var two, one := "\r\n" + b, "\r" + b;
    assert a + "\r\n" + b == a + two && a + "\r" + b == a + one;
    if a == "" {
      assert a + two == two && a + one == one;
      assert two[2..] == b && one[1..] == b;
    } else {
      assert (a + two)[1..] == a[1..] + "\r\n" + b && (a + one)[1..] == a[1..] + "\r" + b;
      NewlinesBreak(a[1..], b);
    }
  }

  /** Only blanks at the ends go: what is left is bordered by them and has none at
      its own ends. */
  lemma {:induction false} StripLeftCut(s: RunId) returns (i: nat)
    ensures i <= |s| && StripLeft(s) == s[i..] && forall k :: 0 <= k < i ==> Blank(s[k])
    ensures i < |s| ==> !Blank(s[i])
  {
    i := 0;
    if s != [] && Blank(s[0]) {
      i := StripLeftCut(s[1..]);
      i := i + 1;
    }
  }

  lemma {:induction false} StripRightCut(s: RunId) returns (j: nat)
    ensures j <= |s| && StripRight(s) == s[..j] && forall k :: j <= k < |s| ==> Blank(s[k])
    ensures j > 0 ==> !Blank(s[j - 1])
  {
    j := |s|;
    if s != [] && Blank(s[|s| - 1]) { j := StripRightCut(s[..|s| - 1]); }
  }

  /** What reading the last-run file back yields: its text with old line breaks
      made new, between its first and its last character that is not blank. */
  lemma ReadBackMeaning(file: RunId) returns (i: nat, j: nat)
    ensures i <= j <= |Newlines(file)| && ReadBack(file) == Newlines(file)[i..j]
    ensures forall k :: 0 <= k < i || j <= k < |Newlines(file)| ==> Blank(Newlines(file)[k])
    ensures i < j ==> !Blank(Newlines(file)[i]) && !Blank(Newlines(file)[j - 1])
  {
    var text := Newlines(file);
    i := StripLeftCut(text);
    j := StripRightCut(text[i..]);
    assert forall k :: i + j <= k < |text| ==> text[k] == text[i..][k - i];
    j := i + j;
  }

  /** An id reads back unchanged exactly when it holds no carriage return and has
      no whitespace at its ends. */
  lemma CleanMeaning(id: RunId)
    ensures Clean(id) <==> '\r' !in id && (id == "" || (!Blank(id[0]) && !Blank(id[|id| - 1])))
  {
    NewlinesMeaning(id);
    StripLeftMeaning(Newlines(id));
    StripRightMeaning(StripLeft(Newlines(id)));
    if Clean(id) {
      assert forall c :: c in id ==> c in Newlines(id);
    }
  }

  // ----- the handlers, as the charm runs them --------------------------------

  /** One unit's charm: the last-run file, the probes it has completed and the
      databag write its current hook has made.  `succeeds` stands for the exit
      status of the probe subprocess, should it come to be started. */
  class Unit {
    var file: Option<RunId>
    var completed: seq<RunId>
    var write: Option<RunId>

    constructor ()
      ensures file == None && completed == [] && write == None
    {
      file, completed, write := None, [], None;
    }

    /** The unit inside a hook for `event` that has read `runId`. */
    ghost function View(event: Event, runId: RunId): Node
      reads this
    {
      Node(if file.Some? then file.value else "", false, false, Running(event, runId, write, false), completed)
    }

    method MaybeRunProbe(runId: RunId, succeeds: bool, ghost event: Event) returns (ok: bool)
      modifies `file, `completed
      ensures ok ==> View(event, runId).(hook := Running(event, runId, write, true)) == Probe(old(View(event, runId)))
      ensures !ok ==> unchanged(this)
      ensures ok <==> (succeeds && Startable(runId)) || !MustRun(old(View(event, runId)), runId)
    {
      if runId == "" { return true; }
      var last := if file.Some? then ReadBack(file.value) else "";
      assert ReadBack("") == "";
      if runId == last { return true; }
      if !Startable(runId) || !succeeds { return false; }
      file, completed := Some(runId), completed + [runId];
      return true;
    }

    method OnConfigChanged(config: RunId, leader: bool, related: bool, succeeds: bool, ghost s: State)
      returns (ok: bool)
      requires write == None && s.config == config && s.related == related
      modifies this
      ensures ok ==>
        View(ConfigChanged, config).(hook := Running(ConfigChanged, config, write, true))
        == Probe(BeginConfig(s, leader, old(View(ConfigChanged, config))))
      ensures !ok ==> file == old(file) && completed == old(completed) && !(succeeds && Startable(config))
    {
      if config == "" { return true; }
      if leader && related {
        write := Some(config);
      }
      ok := MaybeRunProbe(config, succeeds, ConfigChanged);
    }

    method OnPeerRelationChanged(databag: RunId, succeeds: bool, ghost s: State) returns (ok: bool)
      requires write == None && s.databag == databag
      modifies `file, `completed
      ensures ok ==>
        View(RelationChanged, databag).(hook := Running(RelationChanged, databag, write, true))
        == Probe(BeginRelation(s, old(View(RelationChanged, databag))))
      ensures !ok ==> file == old(file) && completed == old(completed) && !(succeeds && Startable(databag))
    {
      ok := MaybeRunProbe(databag, succeeds, RelationChanged);
    }
  }

  // ----- the transition system ----------------------------------------------

  predicate SetConfig(s: State, s': State, id: RunId) {
    && s'.config == id && s'.databag == s.databag && s'.related == s.related && |s'.nodes| == |s.nodes|
    && forall u :: 0 <= u < |s.nodes| ==> s'.nodes[u] == s.nodes[u].(configPending := true)
  }

  predicate Relate(s: State, s': State) { s' == s.(related := true) }

  predicate Spurious(s: State, s': State, u: nat, event: Event) {
    && u < |s.nodes| && (event == RelationChanged ==> s.related)
    && s' == s.(nodes := s.nodes[u := if event == ConfigChanged then s.nodes[u].(configPending := true)
                                      else s.nodes[u].(relationPending := true)])
  }

  /** Any event may be raised at any moment, except relation-changed before there is
      a relation. */
  lemma SpuriousMeaning(s: State, s': State, u: nat, event: Event)
    requires Spurious(s, s', u, event)
    ensures event == RelationChanged ==> s.related && s'.nodes[u] == s.nodes[u].(relationPending := true)
    ensures event == ConfigChanged ==> s'.nodes[u] == s.nodes[u].(configPending := true)
  {
  }

  predicate Begin(s: State, s': State, leader: nat, u: nat, event: Event) {
    && u < |s.nodes| && s.nodes[u].hook == Idle
    && (if event == ConfigChanged then s.nodes[u].configPending else s.nodes[u].relationPending)
    && s' == s.(nodes := s.nodes[u := if event == ConfigChanged then BeginConfig(s, u == leader, s.nodes[u])
                                      else BeginRelation(s, s.nodes[u])])
  }

  /** `_maybe_run_probe` can return from here: it has nothing to run, or what it
      runs can be started. */
  predicate CanProbe(n: Node) {
    n.hook.Running? && !n.hook.probed && (MustRun(n, n.hook.runId) ==> Startable(n.hook.runId))
  }

  predicate RunProbe(s: State, s': State, u: nat) {
    && u < |s.nodes| && CanProbe(s.nodes[u])
    && s' == s.(nodes := s.nodes[u := Probe(s.nodes[u])])
  }

  predicate Commit(s: State, s': State, u: nat) {
    && u < |s.nodes| && s.nodes[u].hook.Running? && s.nodes[u].hook.probed
    && var write := s.nodes[u].hook.write;
    && var changed := write.Some? && write.value != s.databag;
    && s'.config == s.config && s'.related == s.related && |s'.nodes| == |s.nodes|
    && s'.databag == (if changed then write.value else s.databag)
    && s'.nodes[u] == s.nodes[u].(hook := Idle)
    && forall v :: 0 <= v < |s.nodes| && v != u ==>
         s'.nodes[v] == if changed then s.nodes[v].(relationPending := true) else s.nodes[v]
  }

  predicate FailHook(s: State, s': State, u: nat) {
    u < |s.nodes| && s.nodes[u].hook.Running? && s' == s.(nodes := s.nodes[u := Fail(s.nodes[u])])
  }

  datatype Action =
    | ASetConfig(id: RunId)
    | ARelate
    | ASpurious(u: nat, event: Event)
    | ABegin(u: nat, event: Event)
    | ARunProbe(u: nat)
    | ACommit(u: nat)
    | AFail(u: nat)

  predicate Next(s: State, s': State, leader: nat, a: Action) {
    match a
    case ASetConfig(id) => SetConfig(s, s', id)
    case ARelate => Relate(s, s')
    case ASpurious(u, event) => Spurious(s, s', u, event)
    case ABegin(u, event) => Begin(s, s', leader, u, event)
    case ARunProbe(u) => RunProbe(s, s', u)
    case ACommit(u) => Commit(s, s', u)
    case AFail(u) => FailHook(s, s', u)
  }

  predicate Init(s: State) {
    && s.config == "" && s.databag == "" && !s.related
    && forall u :: 0 <= u < |s.nodes| ==> s.nodes[u] == Node("", false, false, Idle, [])
  }

  predicate StepAt(trace: seq<State>, actions: seq<Action>, leader: nat, i: nat)
    requires i < |actions| && |trace| == |actions| + 1
  {
    Next(trace[i], trace[i + 1], leader, actions[i])
  }

  /** A run: any interleaving of any length, over any number of units. */
  ghost predicate Run(trace: seq<State>, actions: seq<Action>, leader: nat) {
    && |trace| == |actions| + 1 && Init(trace[0]) && leader < |trace[0].nodes|
    && forall i :: 0 <= i < |actions| ==> StepAt(trace, actions, leader, i)
  }

  // ----- the invariant ------------------------------------------------------

  /** The unit is done with `id`: it ran it last, or it ran last what reads back
      as `id`. */
  predicate DoneWith(n: Node, id: RunId) { n.file == id || ReadBack(n.file) == id }

  /** Whatever the unit is in the middle of cannot move it off `id`. */
  predicate Harmless(hook: Hook, id: RunId) { hook.Running? ==> hook.runId == id || hook.runId == "" }

  /** A hook that will leave the unit done with `id`, or has. */
  predicate Handling(n: Node, id: RunId) {
    n.hook.Running? && n.hook.runId == id && (n.hook.probed ==> DoneWith(n, id))
  }

  predicate LeaderInv(s: State, n: Node) {
    || n.configPending
    || (Handling(n, s.config) && n.hook.event == ConfigChanged && LeaderWrite(s, n.hook.write))
    || (DoneWith(n, s.config) && s.databag in {s.config, ""} && Harmless(n.hook, s.config)
        && (n.hook.Running? ==> n.hook.event == RelationChanged))
  }

  /** The write that brings the databag to the configured id; nothing is written
      before the relation exists. */
  predicate LeaderWrite(s: State, write: Option<RunId>) {
    write == Some(s.config) || (write == None && s.databag == "")
  }

  predicate FollowerInv(s: State, n: Node) {
    || n.configPending
    || (n.relationPending && s.databag == s.config)
    || s.databag !in {s.config, ""}
    || Handling(n, s.config)
    || (DoneWith(n, s.config) && Harmless(n.hook, s.config))
  }

  predicate NodeInv(s: State, leader: nat, u: nat)
    requires u < |s.nodes|
  {
    var n := s.nodes[u];
    && (n.log == [] ==> n.file == "")
    && (n.log != [] ==> n.file == n.log[|n.log| - 1])
    && (n.hook.Running? && n.hook.write.Some? ==>
      u == leader && s.related && n.hook.write.value != "" && n.hook.event == ConfigChanged)
    && (n.hook.Running? && n.hook.event == RelationChanged ==> n.hook.runId == "" || s.databag != "")
    && (s.config != "" ==> if u == leader then LeaderInv(s, n) else FollowerInv(s, n))
  }

  ghost predicate Inv(s: State, leader: nat) {
    && leader < |s.nodes|
    && (s.databag != "" ==> s.related)
    && forall u :: 0 <= u < |s.nodes| ==> NodeInv(s, leader, u)
  }

  lemma SetConfigKeepsInv(s: State, s': State, leader: nat, id: RunId)
    requires Inv(s, leader) && SetConfig(s, s', id)
    ensures Inv(s', leader)
  {
    forall u | 0 <= u < |s'.nodes| ensures NodeInv(s', leader, u) { assert NodeInv(s, leader, u); }
  }

  lemma RelateKeepsInv(s: State, s': State, leader: nat)
    requires Inv(s, leader) && Relate(s, s')
    ensures Inv(s', leader)
  {
    forall u | 0 <= u < |s'.nodes| ensures NodeInv(s', leader, u) { assert NodeInv(s, leader, u); }
  }

  /** A step of one unit that touches nothing else. */
  predicate Local(s: State, s': State, u: nat, n': Node) {
    u < |s.nodes| && s' == s.(nodes := s.nodes[u := n'])
  }

  lemma LocalKeepsInv(s: State, s': State, leader: nat, u: nat, n': Node)
    requires Inv(s, leader) && Local(s, s', u, n') && NodeInv(s', leader, u)
    ensures Inv(s', leader)
  {
    forall v | 0 <= v < |s'.nodes| ensures NodeInv(s', leader, v) { assert NodeInv(s, leader, v); }
  }

  lemma SpuriousKeepsInv(s: State, s': State, leader: nat, u: nat, event: Event)
    requires Inv(s, leader) && Spurious(s, s', u, event)
    ensures Inv(s', leader)
  {
    assert NodeInv(s, leader, u);
    LocalKeepsInv(s, s', leader, u, s'.nodes[u]);
  }

  lemma BeginKeepsInv(s: State, s': State, leader: nat, u: nat, event: Event)
    requires Inv(s, leader) && Begin(s, s', leader, u, event)
    ensures Inv(s', leader)
  {
    assert NodeInv(s, leader, u);
    LocalKeepsInv(s, s', leader, u, s'.nodes[u]);
  }

  lemma ProbeKeepsInv(s: State, s': State, leader: nat, u: nat)
    requires Inv(s, leader) && RunProbe(s, s', u)
    ensures Inv(s', leader)
  {
    assert NodeInv(s, leader, u);
    LocalKeepsInv(s, s', leader, u, s'.nodes[u]);
  }

  lemma FailKeepsInv(s: State, s': State, leader: nat, u: nat)
    requires Inv(s, leader) && FailHook(s, s', u)
    ensures Inv(s', leader)
  {
    assert NodeInv(s, leader, u);
    LocalKeepsInv(s, s', leader, u, s'.nodes[u]);
  }

  lemma CommitKeepsNode(s: State, s': State, leader: nat, u: nat, v: nat)
    requires Inv(s, leader) && Commit(s, s', u) && v < |s.nodes|
    ensures NodeInv(s', leader, v)
  {
    assert NodeInv(s, leader, u) && NodeInv(s, leader, v);
  }

  lemma CommitKeepsInv(s: State, s': State, leader: nat, u: nat)
    requires Inv(s, leader) && Commit(s, s', u)
    ensures Inv(s', leader)
  {
    assert NodeInv(s, leader, u);
    forall v | 0 <= v < |s'.nodes| ensures NodeInv(s', leader, v) { CommitKeepsNode(s, s', leader, u, v); }
  }

  lemma NextKeepsInv(s: State, s': State, leader: nat, a: Action)
    requires Inv(s, leader) && Next(s, s', leader, a)
    ensures Inv(s', leader)
  {
    match a
    case ASetConfig(id) => SetConfigKeepsInv(s, s', leader, id);
    case ARelate => RelateKeepsInv(s, s', leader);
    case ASpurious(u, event) => SpuriousKeepsInv(s, s', leader, u, event);
    case ABegin(u, event) => BeginKeepsInv(s, s', leader, u, event);
    case ARunProbe(u) => ProbeKeepsInv(s, s', leader, u);
    case ACommit(u) => CommitKeepsInv(s, s', leader, u);
    case AFail(u) => FailKeepsInv(s, s', leader, u);
  }

  lemma {:induction false} InvOverRun(trace: seq<State>, actions: seq<Action>, leader: nat, i: nat)
    requires Run(trace, actions, leader) && i < |trace|
    ensures Inv(trace[i], leader) && |trace[i].nodes| == |trace[0].nodes|
  {
    if i > 0 {
      InvOverRun(trace, actions, leader, i - 1);
      assert StepAt(trace, actions, leader, i - 1);
      NextKeepsInv(trace[i - 1], trace[i], leader, actions[i - 1]);
    } else {
      forall u | 0 <= u < |trace[0].nodes| ensures NodeInv(trace[0], leader, u) { }
    }
  }

  // ----- convergence --------------------------------------------------------

  /** No event is pending and no hook is running. */
  ghost predicate Quiescent(s: State) {
    forall u :: 0 <= u < |s.nodes| ==>
      !s.nodes[u].configPending && !s.nodes[u].relationPending && s.nodes[u].hook == Idle
  }

  /** Whenever nothing is pending and an id is configured, every unit has
      completed a probe, and the last id it completed is the configured one, or
      reads back from the file as the configured one. */
  lemma Converges(trace: seq<State>, actions: seq<Action>, leader: nat, i: nat, u: nat)
    requires Run(trace, actions, leader) && i < |trace| && u < |trace[i].nodes|
    requires Quiescent(trace[i]) && trace[i].config != ""
    ensures var n := trace[i].nodes[u];
      n.log != [] && (n.log[|n.log| - 1] == trace[i].config || ReadBack(n.log[|n.log| - 1]) == trace[i].config)
  {
    InvOverRun(trace, actions, leader, i);
    assert NodeInv(trace[i], leader, leader);
    assert NodeInv(trace[i], leader, u);
  }
}
