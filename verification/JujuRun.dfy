/** Deploying, waiting, triggering and collecting (cli/juju_run.py) over a
    facade that may answer anything Juju may answer.

    What Juju and the clock will answer is fixed in a `World`: the n-th poll, the
    n-th add_unit, what collect-results gives on a unit, the topology stored on
    it.  Every result is stated about those answers. */
module JujuRun {
  import opened Order
  import opened Topology
  import opened ProbeOutput

  const MODEL_PREFIX := "network-test-"

  /** Who a missing entry speaks of. */
  datatype Node = Node(systemId: string, hostname: string)

  datatype Status = Status(workload: string, agent: string, message: string, hostname: Option<string>)
  /** What collect-results gives: nothing, text that is not a document, or one. */
  datatype ActionResult = NoOutput | Unreadable | Output(doc: ProbeOutput)
  datatype Collected = Collected(unit: string, doc: ProbeOutput)

  function Identity(m: Machine): Node { Node(m.systemId, m.hostname) }

  function Identities(ms: seq<Machine>): multiset<Node> {
    if ms == [] then multiset{} else Identities(ms[..|ms| - 1]) + multiset{Identity(ms[|ms| - 1])}
  }

  function Missing(n: Node, reason: MissingReason): MissingNode { MissingNode(n.systemId, n.hostname, reason) }

  /** The nodes the missing entries speak of, with repetitions. */
  function MissingNodes(entries: seq<MissingNode>): multiset<Node> {
    if entries == [] then multiset{}
    else
      var last := entries[|entries| - 1];
      MissingNodes(entries[..|entries| - 1]) + multiset{Node(last.systemId, last.hostname)}
  }

  // ----- statuses -----------------------------------------------------------

  predicate ActiveIdle(s: Status) { s.workload == "active" && s.agent == "idle" }

  datatype Wanted = Ready | ProbeDone(runId: string)

  predicate Meets(wanted: Wanted, s: Status) {
    ActiveIdle(s) && (wanted.ProbeDone? ==> s.message == "probe " + wanted.runId + " complete")
  }

  /** A unit is ready when it is active and idle, and done with a run when its
      message says so as well. */
  lemma MeetsMeaning(s: Status, runId: string)
    ensures Meets(Ready, s) <==> s.workload == "active" && s.agent == "idle"
    ensures Meets(ProbeDone(runId), s) <==>
      s.workload == "active" && s.agent == "idle" && s.message == "probe " + runId + " complete"
  {
  }

  predicate Satisfies(wanted: Wanted, statuses: map<string, Status>, unit: string) {
    unit in statuses && Meets(wanted, statuses[unit])
  }

  lemma EmptyListing()
    ensures SortedStrings({}) == []
  {
    LessIsStrictOrder();
    ListingSize(Less, {}, SortedStrings({}));
  }

  // ----- the facade ---------------------------------------------------------

  /** The answers of the controller and the clock.  `before` is read ahead of a
      poll, to set a deadline, and `after` behind it, in milliseconds. */
  datatype World = World(
    models: seq<string>, polls: nat -> map<string, Status>, before: nat -> int, after: nat -> int,
    placements: nat -> Result<string>, results: string -> ActionResult, stored: string -> Option<seq<Machine>>)

  /** The clock moves from poll to poll, by asyncio.sleep, and add_unit never
      hands out the same unit name twice. */
  ghost predicate Lawful(w: World) { Clocked(w) && UniqueUnits(w) }

  ghost predicate Clocked(w: World) {
    forall k: nat, l: nat :: k < l ==> w.after(k) < w.after(l)
  }

  ghost predicate UniqueUnits(w: World) {
    forall i: nat, j: nat :: i < j && w.placements(i).Ok? && w.placements(j).Ok? ==>
      w.placements(i).value != w.placements(j).value
  }

  /** `polled` and `placed` count the calls made; `triggered` holds the run ids
      configured. */
  class Facade {
    const w: World
    var polled: nat
    var placed: nat
    var triggered: seq<string>

    constructor (w: World)
      ensures this.w == w && polled == 0 && placed == 0 && triggered == []
    {
      this.w, polled, placed, triggered := w, 0, 0, [];
    }

    method UnitStatuses() returns (statuses: map<string, Status>)
      modifies `polled
      ensures statuses == w.polls(old(polled)) && polled == old(polled) + 1
    {
      statuses, polled := w.polls(polled), polled + 1;
    }

    method AddUnit(hostname: string) returns (unit: Result<string>)
      modifies `placed
      ensures unit == w.placements(old(placed)) && placed == old(placed) + 1
    {
      unit, placed := w.placements(placed), placed + 1;
    }

    method ListModels() returns (models: seq<string>)
      ensures models == w.models
    {
      models := w.models;
    }

    method RunAction(unit: string) returns (result: ActionResult)
      ensures result == w.results(unit)
    {
      result := w.results(unit);
    }

    method CatTopology(unit: string) returns (ms: Option<seq<Machine>>)
      ensures ms == w.stored(unit)
    {
      ms := w.stored(unit);
    }

    method SetConfig(runId: string)
      modifies `triggered
      ensures triggered == old(triggered) + [runId]
    {
      triggered := triggered + [runId];
    }

    /** The lists of a wait that ends with poll `poll` and nobody late. */
    method SortAll(units: set<string>, ghost wanted: Wanted, ghost poll: nat) returns (satisfied: seq<string>)
      requires Late(w, units, wanted, poll) == {}
      ensures satisfied == SortedStrings(OnTime(w, units, wanted, poll))
      ensures [] == SortedStrings(Late(w, units, wanted, poll))
    {
      AllOnTime(w, units, wanted, poll);
      satisfied := SortStrings(units);
    }

    /** The lists of a wait that ends with poll `poll` and some late. */
    method SortSplit(units: set<string>, late: set<string>, ghost wanted: Wanted, ghost poll: nat)
      returns (satisfied: seq<string>, pending: seq<string>)
      requires late == Late(w, units, wanted, poll)
      ensures satisfied == SortedStrings(OnTime(w, units, wanted, poll))
      ensures pending == SortedStrings(Late(w, units, wanted, poll))
    {
      assert units - late == OnTime(w, units, wanted, poll);
      satisfied := SortStrings(units - late);
      pending := SortStrings(late);
    }

    /** The polling: until no unit is late or the deadline has passed. */
    method Poll(units: set<string>, deadline: int, wanted: Wanted) returns (late: set<string>)
      requires Lawful(w)
      modifies `polled
      ensures polled == StopPoll(w, units, wanted, deadline, old(polled)) + 1
      ensures late == Late(w, units, wanted, polled - 1)
    {
      while true
        invariant polled >= old(polled)
        invariant StopPoll(w, units, wanted, deadline, polled) == StopPoll(w, units, wanted, deadline, old(polled))
        decreases deadline - w.after(polled)
      {
        var poll := polled;
        var answer := UnitStatuses();
        late := set u | u in units && !Satisfies(wanted, answer, u);
        if late == {} || w.after(poll) >= deadline { return late; }
        assert w.after(poll) < w.after(polled);
      }
    }

    /** Polls until every unit satisfies, or the deadline has passed. */
    method WaitForUnits(units: set<string>, deadline: int, wanted: Wanted)
      returns (satisfied: seq<string>, pending: seq<string>)
      requires Lawful(w)
      modifies `polled
      ensures var p := StopPoll(w, units, wanted, deadline, old(polled));
        && polled == p + 1
        && satisfied == SortedStrings(OnTime(w, units, wanted, p))
        && pending == SortedStrings(Late(w, units, wanted, p))
    {
      var late := Poll(units, deadline, wanted);
      if late == {} {
        satisfied := SortAll(units, wanted, polled - 1);
        pending := [];
      } else {
        satisfied, pending := SortSplit(units, late, wanted, polled - 1);
      }
    }
  }

  ghost function Late(w: World, units: set<string>, wanted: Wanted, poll: nat): set<string> {
    set u | u in units && !Satisfies(wanted, w.polls(poll), u)
  }

  ghost function OnTime(w: World, units: set<string>, wanted: Wanted, poll: nat): set<string> {
    set u | u in units && Satisfies(wanted, w.polls(poll), u)
  }

  /** The poll a wait ends with: the first at which no unit is late or the
      deadline has passed. */
  ghost function StopPoll(w: World, units: set<string>, wanted: Wanted, deadline: int, poll: nat): (p: nat)
    requires Lawful(w)
    ensures p >= poll && (Late(w, units, wanted, p) != {} ==> w.after(p) >= deadline)
    decreases deadline - w.after(poll)
  {
    if Late(w, units, wanted, poll) == {} || w.after(poll) >= deadline then poll
    else
      assert w.after(poll) < w.after(poll + 1);
      StopPoll(w, units, wanted, deadline, poll + 1)
  }

  /** No unit is late at poll `k`, or the time is up. */
  ghost predicate WaitOver(w: World, units: set<string>, wanted: Wanted, deadline: int, k: nat) {
    (forall u :: u in units ==> u in w.polls(k) && Meets(wanted, w.polls(k)[u])) || w.after(k) >= deadline
  }

  /** A wait that starts with poll `poll` ends with poll `p`. */
  ghost predicate EndsWait(w: World, units: set<string>, wanted: Wanted, deadline: int, poll: nat, p: nat) {
    && p >= poll && WaitOver(w, units, wanted, deadline, p)
    && forall k :: poll <= k < p ==> !WaitOver(w, units, wanted, deadline, k)
  }

  lemma StopPollMeaning(w: World, units: set<string>, wanted: Wanted, deadline: int, poll: nat, p: nat)
    requires Lawful(w)
    ensures p == StopPoll(w, units, wanted, deadline, poll) <==> EndsWait(w, units, wanted, deadline, poll, p)
    decreases deadline - w.after(poll)
  {
    LateMeaning(w, units, wanted, poll);
    if !WaitOver(w, units, wanted, deadline, poll) {
      assert w.after(poll) < w.after(poll + 1);
      StopPollMeaning(w, units, wanted, deadline, poll + 1, p);
    }
  }

  lemma LateMeaning(w: World, units: set<string>, wanted: Wanted, k: nat)
    ensures Late(w, units, wanted, k) == {} <==>
      forall u :: u in units ==> u in w.polls(k) && Meets(wanted, w.polls(k)[u])
  {
    forall u | u in units ensures u in Late(w, units, wanted, k) <==> !Satisfies(wanted, w.polls(k), u) { }
  }

  lemma AllOnTime(w: World, units: set<string>, wanted: Wanted, poll: nat)
    requires Late(w, units, wanted, poll) == {}
    ensures OnTime(w, units, wanted, poll) == units && SortedStrings(Late(w, units, wanted, poll)) == []
  {
    EmptyListing();
    forall u | u in units ensures Satisfies(wanted, w.polls(poll), u) { assert u !in Late(w, units, wanted, poll); }
  }

  // ----- counting machines --------------------------------------------------

  /** The machines of some units, with repetitions. */
  function NodesOf(machines: map<string, Node>, units: seq<string>): multiset<Node>
    requires forall u :: u in units ==> u in machines
  {
    if units == [] then multiset{}
    else NodesOf(machines, units[..|units| - 1]) + multiset{machines[units[|units| - 1]]}
  }

  function UnitsOf(collected: seq<Collected>): seq<string> {
    if collected == [] then [] else UnitsOf(collected[..|collected| - 1]) + [collected[|collected| - 1].unit]
  }

  lemma NodesAppend(machines: map<string, Node>, units: seq<string>, u: string)
    requires u in machines && forall v :: v in units ==> v in machines
    ensures NodesOf(machines, units + [u]) == NodesOf(machines, units) + multiset{machines[u]}
  {
    assert (units + [u])[..|units|] == units;
  }

  lemma MissingAppend(entries: seq<MissingNode>, e: MissingNode)
    ensures MissingNodes(entries + [e]) == MissingNodes(entries) + multiset{Node(e.systemId, e.hostname)}
  {
    assert (entries + [e])[..|entries|] == entries;
  }

  lemma {:induction false} NodesConcat(machines: map<string, Node>, a: seq<string>, b: seq<string>)
    requires forall v :: v in a + b ==> v in machines
    ensures NodesOf(machines, a + b) == NodesOf(machines, a) + NodesOf(machines, b)
  {
    if b == [] {
      assert a + b == a;
    } else {
      var n := |b| - 1;
      assert (a + b)[..|a + b| - 1] == a + b[..n];
      NodesConcat(machines, a, b[..n]);
    }
  }

  lemma NodesAround(machines: map<string, Node>, a: seq<string>, u: string, b: seq<string>)
    requires u in machines && forall v :: v in a || v in b ==> v in machines
    ensures NodesOf(machines, a + ([u] + b)) == multiset{machines[u]} + NodesOf(machines, a + b)
  {
    NodesConcat(machines, a, [u] + b);
    NodesConcat(machines, [u], b);
    NodesConcat(machines, a, b);
    OnlyNode(machines, u);
    InFront(NodesOf(machines, a), multiset{machines[u]}, NodesOf(machines, b));
  }

  lemma OnlyNode(machines: map<string, Node>, u: string)
    requires u in machines
    ensures NodesOf(machines, [u]) == multiset{machines[u]}
  {
    assert [] + [u] == [u];
    NodesAppend(machines, [], u);
  }

  lemma InFront<T>(a: multiset<T>, x: multiset<T>, b: multiset<T>)
    ensures a + (x + b) == x + (a + b)
  {
  }

  /** The machines of some units do not depend on the order of the units. */
  lemma {:induction false} NodesPermuted(machines: map<string, Node>, a: seq<string>, b: seq<string>)
    requires multiset(a) == multiset(b) && forall v :: v in a || v in b ==> v in machines
    ensures NodesOf(machines, a) == NodesOf(machines, b)
  {
    assert |multiset(a)| == |a| && |multiset(b)| == |b|;
    if a != [] {
      assert a[0] in multiset(b);
      var i :| 0 <= i < |b| && b[i] == a[0];
      RemoveHead(a, b, i);
      var rest := b[..i] + b[i + 1..];
      assert forall v :: v in rest ==> v in b;
      NodesPermuted(machines, a[1..], rest);
      NodesAround(machines, b[..i], a[0], b[i + 1..]);
      NodesAround(machines, [], a[0], a[1..]);
      assert [] + ([a[0]] + a[1..]) == a && [] + a[1..] == a[1..];
    }
  }

  /** A strictly increasing list holds each element once. */
  lemma ListedOnce(s: set<string>, r: seq<string>)
    requires Lists(Less, s, r)
    ensures multiset(r) == multiset(s)
  {
    forall x ensures multiset(r)[x] == multiset(s)[x] { CountOnce(s, r, x); }
  }

  lemma {:induction false} CountOnce(s: set<string>, r: seq<string>, x: string)
    requires Increasing(Less, r)
    ensures multiset(r)[x] == if x in r then 1 else 0
  {
    if r != [] {
      var n := |r| - 1;
      CountOnce(s, r[..n], x);
      assert r == r[..n] + [r[n]];
      LessIrreflexive(x);
      assert forall i :: 0 <= i < n ==> Less(r[i], r[n]);
      assert x == r[n] ==> x !in r[..n];
    }
  }

  /** A wait splits the units. */
  lemma WaitSplits(w: World, units: set<string>, wanted: Wanted, poll: nat)
    ensures multiset(SortedStrings(units))
            == multiset(SortedStrings(OnTime(w, units, wanted, poll)))
              + multiset(SortedStrings(Late(w, units, wanted, poll)))
    ensures forall u ::
      u in SortedStrings(OnTime(w, units, wanted, poll)) || u in SortedStrings(Late(w, units, wanted, poll)) ==>
      u in units
  {
    var x, y := OnTime(w, units, wanted, poll), Late(w, units, wanted, poll);
    ListedOnce(x, SortedStrings(x));
    ListedOnce(y, SortedStrings(y));
    ListedOnce(units, SortedStrings(units));
    assert x + y == units;
    assert multiset(x + y) == multiset(x) + multiset(y);
  }

  /** Splitting the units splits their machines. */
  lemma NodesSplit(machines: map<string, Node>, all: seq<string>, a: seq<string>, b: seq<string>)
    requires multiset(all) == multiset(a) + multiset(b)
    requires forall v :: v in all || v in a || v in b ==> v in machines
    ensures NodesOf(machines, all) == NodesOf(machines, a) + NodesOf(machines, b)
  {
    assert multiset(a + b) == multiset(a) + multiset(b);
    NodesPermuted(machines, all, a + b);
    NodesConcat(machines, a, b);
  }

  // ----- trigger and collect ------------------------------------------------

  /** One missing entry for each of these units, in order. */
  function Entries(machines: map<string, Node>, units: seq<string>, reason: MissingReason): seq<MissingNode>
    requires forall u :: u in units ==> u in machines
  {
    if units == [] then []
    else
      var n := |units| - 1;
      Entries(machines, units[..n], reason) + [Missing(machines[units[n]], reason)]
  }

  method MarkMissing(machines: map<string, Node>, units: seq<string>, reason: MissingReason, missing: seq<MissingNode>)
    returns (missing': seq<MissingNode>)
    requires forall u :: u in units ==> u in machines
    ensures missing' == missing + Entries(machines, units, reason)
  {
    missing' := missing;
    for i := 0 to |units|
      invariant missing' == missing + Entries(machines, units[..i], reason)
    {
      assert units[..i + 1][..i] == units[..i];
      missing' := missing' + [Missing(machines[units[i]], reason)];
    }
    assert units[..|units|] == units;
  }

  /** What becomes of a unit that is seen to have completed its probe. */
  datatype Answer = Kept(doc: ProbeOutput) | Lost(reason: MissingReason)

  function Collect(w: World, runId: string, unit: string): Answer {
    match w.results(unit)
    case Output(doc) => if doc.runId == runId then Kept(doc) else Lost(StaleProbeOutput)
    case _ => Lost(NoProbeOutput)
  }

  /** A document is kept when it is of this run, stale when it is of another, and
      anything but a document is no output. */
  lemma CollectMeaning(w: World, runId: string, unit: string)
    ensures forall doc :: Collect(w, runId, unit) == Kept(doc) <==> w.results(unit) == Output(doc) && doc.runId == runId
    ensures forall reason :: Collect(w, runId, unit) == Lost(reason) <==>
      || (reason == NoProbeOutput && !w.results(unit).Output?)
      || (reason == StaleProbeOutput && exists doc :: w.results(unit) == Output(doc) && doc.runId != runId)
  {
  }

  /** None of these units gives what `json.loads` fails on. */
  predicate Readable(w: World, done: seq<string>) {
    forall u :: u in done ==> !w.results(u).Unreadable?
  }

  function LostEntries(w: World, machines: map<string, Node>, done: seq<string>, runId: string): seq<MissingNode>
    requires forall u :: u in done ==> u in machines
  {
    if done == [] then []
    else
      var n := |done| - 1;
      var answer := Collect(w, runId, done[n]);
      LostEntries(w, machines, done[..n], runId)
      + if answer.Lost? then [Missing(machines[done[n]], answer.reason)] else []
  }

  function KeptDocs(w: World, done: seq<string>, runId: string): seq<Collected> {
    if done == [] then []
    else
      var n := |done| - 1;
      var answer := Collect(w, runId, done[n]);
      KeptDocs(w, done[..n], runId) + if answer.Kept? then [Collected(done[n], answer.doc)] else []
  }

  /** The loop over the answers of collect-results; ok is false when it raises. */
  method CollectResults(
    facade: Facade, machines: map<string, Node>, done: seq<string>, runId: string, missing: seq<MissingNode>)
    returns (ok: bool, collected: seq<Collected>, missing': seq<MissingNode>)
    requires forall u :: u in done ==> u in machines
    ensures ok <==> Readable(facade.w, done)
    ensures ok ==> collected == KeptDocs(facade.w, done, runId)
    ensures ok ==> missing' == missing + LostEntries(facade.w, machines, done, runId)
  {
    collected, missing' := [], missing;
    for i := 0 to |done|
      invariant Readable(facade.w, done[..i])
      invariant collected == KeptDocs(facade.w, done[..i], runId)
      invariant missing' == missing + LostEntries(facade.w, machines, done[..i], runId)
    {
      assert done[..i + 1][..i] == done[..i] && done[..i + 1] == done[..i] + [done[i]];
      var unit := done[i];
      var result := facade.RunAction(unit);
      if result.NoOutput? {
        missing' := missing' + [Missing(machines[unit], NoProbeOutput)];
      } else if result.Unreadable? {
        return false, collected, missing';
      } else if result.doc.runId != runId {
        missing' := missing' + [Missing(machines[unit], StaleProbeOutput)];
      } else {
        collected := collected + [Collected(unit, result.doc)];
      }
    }
    assert done[..|done|] == done;
    ok := true;
  }

  /** The entries of a triggered run whose last poll was `p`: first the units
      still at work, then those without a document of this run. */
  ghost function TriggerMissing(w: World, machines: map<string, Node>, runId: string, p: nat): seq<MissingNode> {
    var late, done := Late(w, machines.Keys, ProbeDone(runId), p), OnTime(w, machines.Keys, ProbeDone(runId), p);
    Entries(machines, SortedStrings(late), ProbeTimeout) + LostEntries(w, machines, SortedStrings(done), runId)
  }

  ghost function TriggerCollected(w: World, machines: map<string, Node>, runId: string, p: nat): seq<Collected> {
    KeptDocs(w, SortedStrings(OnTime(w, machines.Keys, ProbeDone(runId), p)), runId)
  }

  /** The results of a triggered run whose last poll was `p` can be read. */
  ghost predicate AllReadable(w: World, machines: map<string, Node>, runId: string, p: nat) {
    Readable(w, SortedStrings(OnTime(w, machines.Keys, ProbeDone(runId), p)))
  }

  /** `_trigger_and_collect` for the run `runId`; ok is false when it raises. */
  method TriggerAndCollect(
    facade: Facade, machines: map<string, Node>, deadline: int, missing: seq<MissingNode>, runId: string)
    returns (ok: bool, collected: seq<Collected>, missing': seq<MissingNode>)
    requires Lawful(facade.w)
    modifies facade`polled, facade`triggered
    ensures facade.triggered == old(facade.triggered) + [runId]
    ensures var p := StopPoll(facade.w, machines.Keys, ProbeDone(runId), deadline, old(facade.polled));
      && facade.polled == p + 1
      && (ok <==> AllReadable(facade.w, machines, runId, p))
      && (ok ==> collected == TriggerCollected(facade.w, machines, runId, p))
      && (ok ==> missing' == missing + TriggerMissing(facade.w, machines, runId, p))
  {
    facade.SetConfig(runId);
    var done, stragglers := facade.WaitForUnits(machines.Keys, deadline, ProbeDone(runId));
    missing' := MarkMissing(machines, stragglers, ProbeTimeout, missing);
    ok, collected, missing' := CollectResults(facade, machines, done, runId, missing');
  }

  // ----- every eligible unit is accounted for -------------------------------

  lemma {:induction false} MissingConcat(a: seq<MissingNode>, b: seq<MissingNode>)
    ensures MissingNodes(a + b) == MissingNodes(a) + MissingNodes(b)
  {
    if b == [] {
      assert a + b == a;
    } else {
      var n := |b| - 1;
      assert (a + b)[..|a + b| - 1] == a + b[..n];
      MissingConcat(a, b[..n]);
    }
  }

  lemma {:induction false} EntriesNodes(machines: map<string, Node>, units: seq<string>, reason: MissingReason)
    requires forall u :: u in units ==> u in machines
    ensures MissingNodes(Entries(machines, units, reason)) == NodesOf(machines, units)
  {
    if units != [] {
      var n := |units| - 1;
      EntriesNodes(machines, units[..n], reason);
      MissingAppend(Entries(machines, units[..n], reason), Missing(machines[units[n]], reason));
    }
  }

  lemma {:induction false} KeptUnits(w: World, done: seq<string>, runId: string, u: string)
    requires u in UnitsOf(KeptDocs(w, done, runId))
    ensures u in done
  {
    var n := |done| - 1;
    var answer := Collect(w, runId, done[n]);
    if answer.Kept? { CollectedAppend(KeptDocs(w, done[..n], runId), Collected(done[n], answer.doc)); }
    if u != done[n] {
      assert KeptDocs(w, done[..n], runId) + [] == KeptDocs(w, done[..n], runId);
      KeptUnits(w, done[..n], runId, u);
    }
  }

  lemma CollectedAppend(collected: seq<Collected>, c: Collected)
    ensures UnitsOf(collected + [c]) == UnitsOf(collected) + [c.unit]
  {
    assert (collected + [c])[..|collected|] == collected;
  }

  /** Each unit of the list has its document collected or one missing entry. */
  lemma {:induction false} ResultsAccounted(w: World, machines: map<string, Node>, done: seq<string>, runId: string)
    requires forall u :: u in done ==> u in machines
    ensures forall u :: u in UnitsOf(KeptDocs(w, done, runId)) ==> u in machines
    ensures MissingNodes(LostEntries(w, machines, done, runId)) + NodesOf(machines, UnitsOf(KeptDocs(w, done, runId)))
            == NodesOf(machines, done)
  {
    forall u | u in UnitsOf(KeptDocs(w, done, runId)) ensures u in machines { KeptUnits(w, done, runId, u); }
    if done != [] {
      var n := |done| - 1;
      ResultsAccounted(w, machines, done[..n], runId);
      var lost, kept := LostEntries(w, machines, done[..n], runId), KeptDocs(w, done[..n], runId);
      assert kept + [] == kept && lost + [] == lost;
      OneMoreResult(machines, lost, kept, NodesOf(machines, done[..n]), done[n], Collect(w, runId, done[n]));
    }
  }

  lemma OneMoreResult(
    machines: map<string, Node>, lost: seq<MissingNode>, kept: seq<Collected>, nodes: multiset<Node>, u: string,
    answer: Answer)
    requires u in machines && forall v :: v in UnitsOf(kept) ==> v in machines
    requires MissingNodes(lost) + NodesOf(machines, UnitsOf(kept)) == nodes
    ensures answer.Lost? ==>
      MissingNodes(lost + [Missing(machines[u], answer.reason)]) + NodesOf(machines, UnitsOf(kept))
      == nodes + multiset{machines[u]}
    ensures answer.Kept? ==>
      && UnitsOf(kept + [Collected(u, answer.doc)]) == UnitsOf(kept) + [u]
      && MissingNodes(lost) + NodesOf(machines, UnitsOf(kept) + [u]) == nodes + multiset{machines[u]}
  {
    if answer.Lost? {
      OneMoreLost(lost, NodesOf(machines, UnitsOf(kept)), nodes, machines[u], answer.reason);
    } else {
      CollectedAppend(kept, Collected(u, answer.doc));
      OneMoreKept(machines, MissingNodes(lost), UnitsOf(kept), nodes, u);
    }
  }

  lemma OneMoreLost(
    lost: seq<MissingNode>, kept: multiset<Node>, nodes: multiset<Node>, node: Node, reason: MissingReason)
    requires MissingNodes(lost) + kept == nodes
    ensures MissingNodes(lost + [Missing(node, reason)]) + kept == nodes + multiset{node}
  {
    MissingAppend(lost, Missing(node, reason));
  }

  lemma OneMoreKept(
    machines: map<string, Node>, lost: multiset<Node>, units: seq<string>, nodes: multiset<Node>, u: string)
    requires u in machines && forall v :: v in units ==> v in machines
    requires lost + NodesOf(machines, units) == nodes
    ensures lost + NodesOf(machines, units + [u]) == nodes + multiset{machines[u]}
  {
    NodesAppend(machines, units, u);
  }

  lemma BothGrow<T>(a: multiset<T>, b: multiset<T>, c: multiset<T>, d: multiset<T>, x: multiset<T>)
    requires a + b == c + d
    ensures (a + x) + b == c + (d + x)
    ensures a + (b + x) == c + (d + x)
  {
    assert (a + x) + b == (a + b) + x;
    assert a + (b + x) == (a + b) + x;
  }

  lemma Regroup<T>(a: multiset<T>, b: multiset<T>, x: multiset<T>, y: multiset<T>)
    ensures (a + x) + (b + y) == (a + b) + (x + y)
    ensures (x + a) + b == x + (a + b)
    ensures a + b == b + a
  {
  }

  /** What is true of units and entries of a triggered run. */
  ghost predicate Accounted(
    machines: map<string, Node>, units: seq<string>, missing: seq<MissingNode>, collected: seq<Collected>)
  {
    && (forall u :: u in units ==> u in machines)
    && (forall u :: u in UnitsOf(collected) ==> u in machines)
    && MissingNodes(missing) + NodesOf(machines, UnitsOf(collected)) == NodesOf(machines, units)
  }

  lemma TriggerAccounted(w: World, machines: map<string, Node>, runId: string, p: nat)
    ensures Accounted(machines, SortedStrings(machines.Keys), TriggerMissing(w, machines, runId, p),
      TriggerCollected(w, machines, runId, p))
  {
    var wanted := ProbeDone(runId);
    WaitSplits(w, machines.Keys, wanted, p);
    TriggerSplit(w, machines, runId, SortedStrings(machines.Keys), SortedStrings(OnTime(w, machines.Keys, wanted, p)),
      SortedStrings(Late(w, machines.Keys, wanted, p)));
  }

  lemma TriggerSplit(
    w: World, machines: map<string, Node>, runId: string, all: seq<string>, done: seq<string>, late: seq<string>)
    requires multiset(all) == multiset(done) + multiset(late)
    requires forall u :: u in all || u in done || u in late ==> u in machines
    ensures Accounted(machines, all,
              Entries(machines, late, ProbeTimeout) + LostEntries(w, machines, done, runId), KeptDocs(w, done, runId))
  {
    var entries, lost := Entries(machines, late, ProbeTimeout), LostEntries(w, machines, done, runId);
    NodesSplit(machines, all, done, late);
    EntriesNodes(machines, late, ProbeTimeout);
    ResultsAccounted(w, machines, done, runId);
    MissingConcat(entries, lost);
    var kept := NodesOf(machines, UnitsOf(KeptDocs(w, done, runId)));
    Regroup(MissingNodes(lost), kept, MissingNodes(entries), multiset{});
    Regroup(NodesOf(machines, done), NodesOf(machines, late), multiset{}, multiset{});
  }

  // ----- rack by rack -------------------------------------------------------

  function InScope(ms: seq<Machine>): seq<Machine> {
    if ms == [] then []
    else InScope(ms[..|ms| - 1]) + if ms[|ms| - 1].inScope then [ms[|ms| - 1]] else []
  }

  function InRack(ms: seq<Machine>, rack: string): seq<Machine> {
    if ms == [] then []
    else InRack(ms[..|ms| - 1], rack) + if ms[|ms| - 1].rack == rack then [ms[|ms| - 1]] else []
  }

  function RackNames(ms: seq<Machine>): set<string> {
    if ms == [] then {} else RackNames(ms[..|ms| - 1]) + {ms[|ms| - 1].rack}
  }

  lemma GroupOneMore(ms: seq<Machine>, m: Machine)
    ensures RackNames(ms + [m]) == RackNames(ms) + {m.rack}
    ensures forall r :: InRack(ms + [m], r) == InRack(ms, r) + if m.rack == r then [m] else []
  {
    assert (ms + [m])[..|ms|] == ms;
  }

  function IsInScope(): Machine -> bool { (m: Machine) => m.inScope }
  function IsInRack(rack: string): Machine -> bool { (m: Machine) => m.rack == rack }

  /** The in-scope machines, the machines of a rack, in the order of the topology,
      and the racks. */
  lemma {:induction false} GroupMeaning(ms: seq<Machine>, rack: string)
    ensures InScope(ms) == Keep(IsInScope(), ms) && InRack(ms, rack) == Keep(IsInRack(rack), ms)
    ensures rack in RackNames(ms) <==> exists m :: m in ms && m.rack == rack
  {
    if ms != [] {
      GroupMeaning(ms[..|ms| - 1], rack);
      KeepLast(IsInScope(), ms);
      KeepLast(IsInRack(rack), ms);
      assert ms == ms[..|ms| - 1] + [ms[|ms| - 1]];
    }
  }

  lemma {:induction false} NobodyInRack(ms: seq<Machine>, r: string)
    requires r !in RackNames(ms)
    ensures InRack(ms, r) == []
  {
    if ms != [] { NobodyInRack(ms[..|ms| - 1], r); }
  }

  /** `racks.setdefault(machine["rack"], []).append(machine)`. */
  method GroupByRack(ms: seq<Machine>) returns (racks: map<string, seq<Machine>>)
    ensures racks.Keys == RackNames(ms)
    ensures forall r :: r in racks ==> racks[r] == InRack(ms, r)
  {
    racks := map[];
    for i := 0 to |ms|
      invariant racks.Keys == RackNames(ms[..i])
      invariant forall r :: r in racks ==> racks[r] == InRack(ms[..i], r)
    {
      var m := ms[i];
      assert ms[..i + 1] == ms[..i] + [m];
      GroupOneMore(ms[..i], m);
      if m.rack !in racks { NobodyInRack(ms[..i], m.rack); }
      racks := racks[m.rack := (if m.rack in racks then racks[m.rack] else []) + [m]];
    }
    assert ms[..|ms|] == ms;
  }

  /** `racks_in_order`: the racks in increasing order, each with its machines in
      the order of the topology. */
  method RacksInOrder(ms: seq<Machine>) returns (names: seq<string>, groups: seq<seq<Machine>>)
    ensures names == SortedStrings(RackNames(ms))
    ensures |groups| == |names| && forall k :: 0 <= k < |names| ==> groups[k] == InRack(ms, names[k])
  {
    var racks := GroupByRack(ms);
    names := SortStrings(racks.Keys);
    groups := [];
    for k := 0 to |names|
      invariant |groups| == k && forall l :: 0 <= l < k ==> groups[l] == InRack(ms, names[l])
    {
      assert names[k] in names;
      groups := groups + [racks[names[k]]];
    }
  }

  /** The machines in the order they are deployed. */
  function RackOrder(ms: seq<Machine>, names: seq<string>): seq<Machine> {
    if names == [] then [] else RackOrder(ms, names[..|names| - 1]) + InRack(ms, names[|names| - 1])
  }

  /** Machines are deployed rack by rack, in increasing order of racks. */
  lemma {:induction false} RackByRack(ms: seq<Machine>, names: seq<string>, i: nat, j: nat)
    requires Increasing(Less, names) && i < j < |RackOrder(ms, names)|
    ensures RackOrder(ms, names)[i].rack in names
    ensures var a, b := RackOrder(ms, names)[i].rack, RackOrder(ms, names)[j].rack; a == b || Less(a, b)
  {
    var n := |names| - 1;
    var before := RackOrder(ms, names[..n]);
    OrderedRacks(ms, names, i);
    if j < |before| {
      RackByRack(ms, names[..n], i, j);
    } else {
      SameRack(ms, names[n], j - |before|);
      if i < |before| {
        OrderedRacks(ms, names[..n], i);
      } else {
        SameRack(ms, names[n], i - |before|);
      }
    }
  }

  lemma SameRack(ms: seq<Machine>, rack: string, i: nat)
    requires i < |InRack(ms, rack)|
    ensures InRack(ms, rack)[i].rack == rack
  {
    GroupMeaning(ms, rack);
    KeepElements(IsInRack(rack), ms);
    assert InRack(ms, rack)[i] in InRack(ms, rack);
  }

  lemma {:induction false} OrderedRacks(ms: seq<Machine>, names: seq<string>, i: nat)
    requires i < |RackOrder(ms, names)|
    ensures RackOrder(ms, names)[i].rack in names
  {
    var n := |names| - 1;
    var before := RackOrder(ms, names[..n]);
    if i < |before| { OrderedRacks(ms, names[..n], i); } else { SameRack(ms, names[n], i - |before|); }
  }

  lemma {:induction false} IdentitiesConcat(a: seq<Machine>, b: seq<Machine>)
    ensures Identities(a + b) == Identities(a) + Identities(b)
  {
    if b == [] {
      assert a + b == a;
    } else {
      var n := |b| - 1;
      assert (a + b)[..|a + b| - 1] == a + b[..n];
      IdentitiesConcat(a, b[..n]);
    }
  }

  lemma {:induction false} OrderIdentities(ms: seq<Machine>, names: seq<string>)
    ensures Identities(RackOrder(ms, names)) == RackIdentities(ms, names)
  {
    if names != [] {
      var n := |names| - 1;
      OrderIdentities(ms, names[..n]);
      IdentitiesConcat(RackOrder(ms, names[..n]), InRack(ms, names[n]));
    }
  }

  function RackIdentities(ms: seq<Machine>, names: seq<string>): multiset<Node> {
    if names == [] then multiset{}
    else RackIdentities(ms, names[..|names| - 1]) + Identities(InRack(ms, names[|names| - 1]))
  }

  lemma IdentitiesAppend(ms: seq<Machine>, m: Machine)
    ensures Identities(ms + [m]) == Identities(ms) + multiset{Identity(m)}
  {
    assert (ms + [m])[..|ms|] == ms;
  }

  predicate Distinct(names: seq<string>) {
    names == [] || (names[|names| - 1] !in names[..|names| - 1] && Distinct(names[..|names| - 1]))
  }

  lemma {:induction false} IncreasingDistinct(names: seq<string>)
    requires Increasing(Less, names)
    ensures Distinct(names)
  {
    if names != [] {
      var n := |names| - 1;
      IncreasingDistinct(names[..n]);
      LessIrreflexive(names[n]);
    }
  }

  function Only(yes: bool, n: Node): multiset<Node> { if yes then multiset{n} else multiset{} }

  lemma RackGrows(ms: seq<Machine>, m: Machine, r: string)
    ensures Identities(InRack(ms + [m], r)) == Identities(InRack(ms, r)) + Only(m.rack == r, Identity(m))
  {
    GroupOneMore(ms, m);
    if m.rack == r {
      IdentitiesAppend(InRack(ms, r), m);
    } else {
      assert InRack(ms, r) + [] == InRack(ms, r);
    }
  }

  lemma {:induction false} OneMoreMachine(ms: seq<Machine>, m: Machine, names: seq<string>)
    requires Distinct(names)
    ensures RackIdentities(ms + [m], names) == RackIdentities(ms, names) + Only(m.rack in names, Identity(m))
  {
    if names != [] {
      var n := |names| - 1;
      OneMoreMachine(ms, m, names[..n]);
      RackGrows(ms, m, names[n]);
      var x, y := Only(m.rack in names[..n], Identity(m)), Only(m.rack == names[n], Identity(m));
      Regroup(RackIdentities(ms, names[..n]), Identities(InRack(ms, names[n])), x, y);
      assert names == names[..n] + [names[n]];
      assert x + y == Only(m.rack in names, Identity(m));
    }
  }

  lemma VisitOneMore(ms: seq<Machine>, m: Machine, all: seq<Machine>, names: seq<string>)
    requires Distinct(names) && m.rack in names && RackIdentities(ms, names) == Identities(ms) && all == ms + [m]
    ensures RackIdentities(all, names) == Identities(all)
  {
    OneMoreMachine(ms, m, names);
    IdentitiesAppend(ms, m);
  }

  /** Going rack by rack visits every machine once. */
  lemma {:induction false} RacksVisitAll(ms: seq<Machine>, names: seq<string>)
    requires Distinct(names) && forall m :: m in ms ==> m.rack in names
    ensures RackIdentities(ms, names) == Identities(ms)
  {
    if ms == [] {
      NoMachines(names);
    } else {
      var before, last := ms[..|ms| - 1], ms[|ms| - 1];
      assert last in ms && ms == before + [last];
      RacksVisitAll(before, names);
      VisitOneMore(before, last, ms, names);
    }
  }

  lemma {:induction false} NoMachines(names: seq<string>)
    ensures RackIdentities([], names) == multiset{}
  {
    if names != [] { NoMachines(names[..|names| - 1]); }
  }

  lemma EveryRackListed(ms: seq<Machine>, names: seq<string>)
    requires names == SortedStrings(RackNames(ms))
    ensures RackIdentities(ms, names) == Identities(ms)
  {
    IncreasingDistinct(names);
    forall m | m in ms ensures m.rack in names { RackListed(ms, m); }
    RacksVisitAll(ms, names);
  }

  lemma {:induction false} RackListed(ms: seq<Machine>, m: Machine)
    requires m in ms
    ensures m.rack in RackNames(ms)
  {
    var n := |ms| - 1;
    if m != ms[n] { RackListed(ms[..n], m); }
  }

  // ----- placing units ------------------------------------------------------

  /** The units placed for the machines of `order`, the first of them by the
      `n`-th add_unit. */
  function PlacedMap(w: World, order: seq<Machine>, n: nat): map<string, Node> {
    if order == [] then map[]
    else
      var k := |order| - 1;
      var unit := w.placements(n + k);
      var before := PlacedMap(w, order[..k], n);
      if unit.Ok? then before[unit.value := Identity(order[k])] else before
  }

  function PlacedUnits(w: World, order: seq<Machine>, n: nat): seq<string> {
    if order == [] then []
    else
      var k := |order| - 1;
      PlacedUnits(w, order[..k], n) + if w.placements(n + k).Ok? then [w.placements(n + k).value] else []
  }

  function FailedEntries(w: World, order: seq<Machine>, n: nat): seq<MissingNode> {
    if order == [] then []
    else
      var k := |order| - 1;
      FailedEntries(w, order[..k], n)
      + if w.placements(n + k).Ok? then [] else [Missing(Identity(order[k]), PlacementFailed)]
  }

  lemma PlaceStep(w: World, order: seq<Machine>, n: nat, m: Machine)
    ensures var unit := w.placements(n + |order|);
      && PlacedMap(w, order + [m], n)
         == (if unit.Ok? then PlacedMap(w, order, n)[unit.value := Identity(m)] else PlacedMap(w, order, n))
      && PlacedUnits(w, order + [m], n) == PlacedUnits(w, order, n) + (if unit.Ok? then [unit.value] else [])
      && FailedEntries(w, order + [m], n)
         == FailedEntries(w, order, n) + (if unit.Ok? then [] else [Missing(Identity(m), PlacementFailed)])
  {
    assert (order + [m])[..|order|] == order;
  }

  /** The inner loop of the deployment: one rack, after the machines of `done`. */
  method PlaceRack(
    facade: Facade, rack: seq<Machine>, machines: map<string, Node>, missing: seq<MissingNode>,
    ghost done: seq<Machine>,
    ghost n: nat)
    returns (machines': map<string, Node>, missing': seq<MissingNode>)
    requires facade.placed == n + |done|
    requires machines == PlacedMap(facade.w, done, n) && missing == FailedEntries(facade.w, done, n)
    modifies facade`placed
    ensures facade.placed == n + |done + rack|
    ensures machines' == PlacedMap(facade.w, done + rack, n) && missing' == FailedEntries(facade.w, done + rack, n)
  {
    machines', missing' := machines, missing;
    assert done + rack[..0] == done;
    for i := 0 to |rack|
      invariant facade.placed == n + |done| + i
      invariant machines' == PlacedMap(facade.w, done + rack[..i], n)
      invariant missing' == FailedEntries(facade.w, done + rack[..i], n)
    {
      PlaceStep(facade.w, done + rack[..i], n, rack[i]);
      assert (done + rack[..i]) + [rack[i]] == done + rack[..i + 1];
      var unit := facade.AddUnit(rack[i].hostname);
      if unit.ValueError? {
        missing' := missing' + [Missing(Identity(rack[i]), PlacementFailed)];
      } else {
        machines' := machines'[unit.value := Identity(rack[i])];
      }
    }
    assert rack[..|rack|] == rack;
  }

  /** The loop over the racks. */
  method PlaceRacks(facade: Facade, ghost ms: seq<Machine>, names: seq<string>, groups: seq<seq<Machine>>)
    returns (machines: map<string, Node>, missing: seq<MissingNode>)
    requires |groups| == |names| && forall k :: 0 <= k < |names| ==> groups[k] == InRack(ms, names[k])
    modifies facade`placed
    ensures machines == PlacedMap(facade.w, RackOrder(ms, names), old(facade.placed))
    ensures missing == FailedEntries(facade.w, RackOrder(ms, names), old(facade.placed))
  {
    machines, missing := map[], [];
    ghost var n := facade.placed;
    for k := 0 to |names|
      invariant facade.placed == n + |RackOrder(ms, names[..k])|
      invariant machines == PlacedMap(facade.w, RackOrder(ms, names[..k]), n)
      invariant missing == FailedEntries(facade.w, RackOrder(ms, names[..k]), n)
    {
      assert names[..k + 1][..k] == names[..k];
      machines, missing := PlaceRack(facade, groups[k], machines, missing, RackOrder(ms, names[..k]), n);
    }
    assert names[..|names|] == names;
  }

  ghost function DeployOrder(ms: seq<Machine>): seq<Machine> { RackOrder(ms, SortedStrings(RackNames(ms))) }

  /** The whole deployment: every machine, rack by rack. */
  method PlaceAll(facade: Facade, ms: seq<Machine>) returns (machines: map<string, Node>, missing: seq<MissingNode>)
    modifies facade`placed
    ensures machines == PlacedMap(facade.w, DeployOrder(ms), old(facade.placed))
    ensures missing == FailedEntries(facade.w, DeployOrder(ms), old(facade.placed))
  {
    var names, groups := RacksInOrder(ms);
    machines, missing := PlaceRacks(facade, ms, names, groups);
  }

  /** A unit name handed out later is not among those placed. */
  lemma {:induction false} HandedOutOnce(w: World, order: seq<Machine>, n: nat, later: nat)
    requires UniqueUnits(w) && later >= n + |order| && w.placements(later).Ok?
    ensures w.placements(later).value !in PlacedUnits(w, order, n)
  {
    if order != [] {
      var k := |order| - 1;
      assert n + k < later;
      HandedOutOnce(w, order[..k], n, later);
    }
  }

  /** Every machine has a unit of its own or one placement-failed entry. */
  ghost predicate Placement(
    machines: map<string, Node>, placed: seq<string>, missing: seq<MissingNode>, handled: multiset<Node>)
  {
    && (forall u :: u in placed ==> u in machines)
    && multiset(placed) == multiset(machines.Keys)
    && MissingNodes(missing) + NodesOf(machines, placed) == handled
  }

  lemma {:induction false} NodesAgree(a: map<string, Node>, b: map<string, Node>, units: seq<string>)
    requires forall u :: u in units ==> u in a && u in b && a[u] == b[u]
    ensures NodesOf(a, units) == NodesOf(b, units)
  {
    if units != [] { NodesAgree(a, b, units[..|units| - 1]); }
  }

  lemma NodesGrow(machines: map<string, Node>, machines': map<string, Node>, units: seq<string>, unit: string)
    requires (forall u :: u in units ==> u in machines && u in machines' && machines'[u] == machines[u])
      && unit in machines'
    ensures NodesOf(machines', units + [unit]) == NodesOf(machines, units) + multiset{machines'[unit]}
  {
    NodesAgree(machines, machines', units);
    NodesAppend(machines', units, unit);
  }

  lemma UnitsGrow(units: set<string>, placed: seq<string>, unit: string)
    requires multiset(placed) == multiset(units) && unit !in units
    ensures multiset(placed + [unit]) == multiset(units + {unit})
  {
    assert multiset(placed + [unit]) == multiset(placed) + multiset{unit};
  }

  lemma PlacedOne(
    machines: map<string, Node>, machines': map<string, Node>, placed: seq<string>, missing: seq<MissingNode>,
    handled: multiset<Node>, unit: string)
    requires Placement(machines, placed, missing, handled) && unit !in machines
    requires machines'.Keys == machines.Keys + {unit} && forall u :: u in machines ==> machines'[u] == machines[u]
    ensures Placement(machines', placed + [unit], missing, handled + multiset{machines'[unit]})
  {
    NodesGrow(machines, machines', placed, unit);
    UnitsGrow(machines.Keys, placed, unit);
    BothGrow(MissingNodes(missing), NodesOf(machines, placed), handled, multiset{}, multiset{machines'[unit]});
  }

  lemma FailedOne(
    machines: map<string, Node>, placed: seq<string>, missing: seq<MissingNode>, handled: multiset<Node>, node: Node)
    requires Placement(machines, placed, missing, handled)
    ensures Placement(machines, placed, missing + [Missing(node, PlacementFailed)], handled + multiset{node})
  {
    MissingAppend(missing, Missing(node, PlacementFailed));
    BothGrow(MissingNodes(missing), NodesOf(machines, placed), handled, multiset{}, multiset{node});
  }

  lemma PlacementStep(
    machines: map<string, Node>, units: seq<string>, failed: seq<MissingNode>, handled: multiset<Node>,
    unit: Result<string>, node: Node)
    requires Placement(machines, units, failed, handled) && (unit.Ok? ==> unit.value !in units)
    ensures unit.Ok? ==>
      Placement(machines[unit.value := node], units + [unit.value], failed, handled + multiset{node})
    ensures unit.ValueError? ==>
      Placement(machines, units, failed + [Missing(node, PlacementFailed)], handled + multiset{node})
  {
    if unit.Ok? {
      assert unit.value in machines <==> unit.value in multiset(units);
      PlacedOne(machines, machines[unit.value := node], units, failed, handled, unit.value);
    } else {
      FailedOne(machines, units, failed, handled, node);
    }
  }

  ghost predicate PlacedWell(w: World, order: seq<Machine>, n: nat) {
    Placement(PlacedMap(w, order, n), PlacedUnits(w, order, n), FailedEntries(w, order, n), Identities(order))
  }

  /** One more machine, with the parts of the placement named. */
  lemma PlacementGrows(
    w: World, order: seq<Machine>, n: nat, k: nat, unit: Result<string>,
    machines: map<string, Node>, units: seq<string>, failed: seq<MissingNode>)
    requires |order| == k + 1 && unit == w.placements(n + k)
    requires machines == PlacedMap(w, order[..k], n) && units == PlacedUnits(w, order[..k], n)
    requires failed == FailedEntries(w, order[..k], n)
    ensures Identities(order) == Identities(order[..k]) + multiset{Identity(order[k])}
    ensures unit.Ok? ==>
      && PlacedMap(w, order, n) == machines[unit.value := Identity(order[k])]
      && PlacedUnits(w, order, n) == units + [unit.value] && FailedEntries(w, order, n) == failed
    ensures unit.ValueError? ==>
      && PlacedMap(w, order, n) == machines && PlacedUnits(w, order, n) == units
      && FailedEntries(w, order, n) == failed + [Missing(Identity(order[k]), PlacementFailed)]
  {
    assert failed + [] == failed && units + [] == units;
  }

  lemma {:induction false} PlacementAccounted(w: World, order: seq<Machine>, n: nat)
    requires UniqueUnits(w)
    ensures PlacedWell(w, order, n)
  {
    if order != [] {
      var k := |order| - 1;
      PlacementAccounted(w, order[..k], n);
      if w.placements(n + k).Ok? { HandedOutOnce(w, order[..k], n, n + k); }
      var machines, units := PlacedMap(w, order[..k], n), PlacedUnits(w, order[..k], n);
      var failed := FailedEntries(w, order[..k], n);
      PlacementGrows(w, order, n, k, w.placements(n + k), machines, units, failed);
      PlacementStep(machines, units, failed, Identities(order[..k]), w.placements(n + k), Identity(order[k]));
    }
  }

  // ----- from ready units to results ----------------------------------------

  datatype RunResult = RunResult(machines: map<string, Node>, collected: seq<Collected>, missing: seq<MissingNode>)

  /** Every expected machine is collected or missing, once, and what was
      collected belongs to this run. */
  ghost predicate AllAccountedFor(r: RunResult, expected: multiset<Node>, runId: string) {
    && (forall u :: u in UnitsOf(r.collected) ==> u in r.machines)
    && MissingNodes(r.missing) + NodesOf(r.machines, UnitsOf(r.collected)) == expected
    && forall c :: c in r.collected ==> c.doc.runId == runId
  }

  function Eligible(w: World, machines: map<string, Node>, p: nat): map<string, Node> {
    map u | u in machines && Satisfies(Ready, w.polls(p), u) :: machines[u]
  }

  /** The units not ready at poll `p` are missing for `reason`; the others are
      triggered, and waited for until poll `q`. */
  ghost function AfterReady(
    w: World, machines: map<string, Node>, reason: MissingReason, runId: string, p: nat, q: nat): RunResult
  {
    var eligible := Eligible(w, machines, p);
    RunResult(machines, TriggerCollected(w, eligible, runId, q),
      Entries(machines, SortedStrings(Late(w, machines.Keys, Ready, p)), reason)
        + TriggerMissing(w, eligible, runId, q))
  }

  lemma {:induction false} KeptOfRun(w: World, done: seq<string>, runId: string, c: Collected)
    requires c in KeptDocs(w, done, runId)
    ensures c.unit in done && c.doc.runId == runId && Collect(w, runId, c.unit) == Kept(c.doc)
  {
    var n := |done| - 1;
    if c in KeptDocs(w, done[..n], runId) { KeptOfRun(w, done[..n], runId, c); }
  }

  lemma AfterReadyAccounted(w: World, machines: map<string, Node>, reason: MissingReason, runId: string, p: nat, q: nat)
    ensures AllAccountedFor(AfterReady(w, machines, reason, runId, p, q),
      NodesOf(machines, SortedStrings(machines.Keys)), runId)
  {
    var eligible, r := Eligible(w, machines, p), AfterReady(w, machines, reason, runId, p, q);
    assert eligible.Keys == OnTime(w, machines.Keys, Ready, p);
    WaitSplits(w, machines.Keys, Ready, p);
    TriggerAccounted(w, eligible, runId, q);
    ReadySplit(machines, eligible, reason, SortedStrings(machines.Keys), SortedStrings(eligible.Keys),
      SortedStrings(Late(w, machines.Keys, Ready, p)), TriggerMissing(w, eligible, runId, q), r.collected);
    forall c | c in r.collected ensures c.doc.runId == runId {
      KeptOfRun(w, SortedStrings(OnTime(w, eligible.Keys, ProbeDone(runId), q)), runId, c);
    }
  }

  lemma ReadySplit(
    machines: map<string, Node>, eligible: map<string, Node>, reason: MissingReason, all: seq<string>, up: seq<string>,
    late: seq<string>, missing: seq<MissingNode>, collected: seq<Collected>)
    requires multiset(all) == multiset(up) + multiset(late)
    requires forall u :: u in all || u in up || u in late ==> u in machines
    requires forall u :: u in eligible ==> u in machines && eligible[u] == machines[u]
    requires Accounted(eligible, up, missing, collected)
    ensures forall u :: u in UnitsOf(collected) ==> u in machines
    ensures MissingNodes(Entries(machines, late, reason) + missing) + NodesOf(machines, UnitsOf(collected))
            == NodesOf(machines, all)
  {
    NodesAgree(machines, eligible, up);
    NodesAgree(machines, eligible, UnitsOf(collected));
    NodesSplit(machines, all, up, late);
    EntriesNodes(machines, late, reason);
    MissingConcat(Entries(machines, late, reason), missing);
    Regroup(MissingNodes(missing), NodesOf(machines, UnitsOf(collected)), NodesOf(machines, late), multiset{});
    Regroup(NodesOf(machines, up), NodesOf(machines, late), multiset{}, multiset{});
  }

  // ----- run_new ------------------------------------------------------------

  /** The last poll of each of the two waits of a new run. */
  ghost function ReadyPoll(w: World, machines: map<string, Node>, timeout: nat, polled: nat): (p: nat)
    requires Lawful(w)
    ensures p >= polled
  {
    StopPoll(w, machines.Keys, Ready, w.before(polled) + timeout, polled)
  }

  ghost function DonePoll(w: World, eligible: map<string, Node>, timeout: nat, runId: string, polled: nat): (q: nat)
    requires Lawful(w)
    ensures q >= polled
  {
    StopPoll(w, eligible.Keys, ProbeDone(runId), w.before(polled) + timeout, polled)
  }

  /** Units being waited for until `deadline`, from poll `polled` on, and then
      triggered, when `failed` is missing already. */
  ghost function Triggered(
    w: World, machines: map<string, Node>, reason: MissingReason, deadline: int, timeout: nat, runId: string,
    failed: seq<MissingNode>, polled: nat): RunResult
    requires Lawful(w)
  {
    var p := StopPoll(w, machines.Keys, Ready, deadline, polled);
    var rest := AfterReady(w, machines, reason, runId, p, DonePoll(w, Eligible(w, machines, p), timeout, runId, p + 1));
    rest.(missing := failed + rest.missing)
  }

  /** The results of that can be read. */
  ghost predicate TriggeredReadable(
    w: World, machines: map<string, Node>, deadline: int, timeout: nat, runId: string, polled: nat)
    requires Lawful(w)
  {
    var eligible := Eligible(w, machines, StopPoll(w, machines.Keys, Ready, deadline, polled));
    var p := StopPoll(w, machines.Keys, Ready, deadline, polled);
    AllReadable(w, eligible, runId, DonePoll(w, eligible, timeout, runId, p + 1))
  }

  ghost function TriggeredResult(
    w: World, machines: map<string, Node>, reason: MissingReason, deadline: int, timeout: nat, runId: string,
    failed: seq<MissingNode>, polled: nat): Result<RunResult>
    requires Lawful(w)
  {
    if TriggeredReadable(w, machines, deadline, timeout, runId, polled)
      then Ok(Triggered(w, machines, reason, deadline, timeout, runId, failed, polled))
      else ValueError
  }

  /** A new run on the machines `ms`, when `placed` add_unit calls and `polled`
      polls were made before it. */
  ghost function NewRun(w: World, ms: seq<Machine>, timeout: nat, runId: string, placed: nat, polled: nat): RunResult
    requires Lawful(w)
  {
    var order := DeployOrder(ms);
    Triggered(w, PlacedMap(w, order, placed), DeploymentTimeout, w.before(polled) + timeout, timeout, runId,
      FailedEntries(w, order, placed), polled)
  }

  /** The results of a new run can be read. */
  ghost predicate NewRunReadable(w: World, ms: seq<Machine>, timeout: nat, runId: string, placed: nat, polled: nat)
    requires Lawful(w)
  {
    TriggeredReadable(w, PlacedMap(w, DeployOrder(ms), placed), w.before(polled) + timeout, timeout, runId, polled)
  }

  ghost function NewRunResult(
    w: World, ms: seq<Machine>, timeout: nat, runId: string, placed: nat, polled: nat): Result<RunResult>
    requires Lawful(w)
  {
    if NewRunReadable(w, ms, timeout, runId, placed, polled) then Ok(NewRun(w, ms, timeout, runId, placed, polled))
    else ValueError
  }

  lemma NewRunIsTriggered(w: World, ms: seq<Machine>, timeout: nat, runId: string, placed: nat, polled: nat)
    requires Lawful(w)
    ensures NewRunResult(w, ms, timeout, runId, placed, polled) ==
      TriggeredResult(w, PlacedMap(w, DeployOrder(ms), placed), DeploymentTimeout, w.before(polled) + timeout, timeout,
        runId, FailedEntries(w, DeployOrder(ms), placed), polled)
  {
  }

  method Deploy(facade: Facade, ms: seq<Machine>, timeout: nat, runId: string) returns (result: Result<RunResult>)
    requires Lawful(facade.w)
    modifies facade
    ensures result == NewRunResult(facade.w, ms, timeout, runId, old(facade.placed), old(facade.polled))
    ensures facade.triggered == old(facade.triggered) + [runId]
  {
    var deadline := facade.w.before(facade.polled) + timeout;
    NewRunIsTriggered(facade.w, ms, timeout, runId, facade.placed, facade.polled);
    var machines, failed := PlaceAll(facade, ms);
    result := TriggerReady(facade, machines, DeploymentTimeout, deadline, timeout, runId, failed);
  }

  /** Waiting for the units to be ready, then triggering those that are. */
  method TriggerReady(
    facade: Facade, machines: map<string, Node>, reason: MissingReason, deadline: int, timeout: nat, runId: string,
    failed: seq<MissingNode>)
    returns (result: Result<RunResult>)
    requires Lawful(facade.w)
    modifies facade`polled, facade`triggered
    ensures facade.triggered == old(facade.triggered) + [runId]
    ensures result ==
      TriggeredResult(facade.w, machines, reason, deadline, timeout, runId, failed, old(facade.polled))
  {
    ghost var polled := facade.polled;
    ghost var p := StopPoll(facade.w, machines.Keys, Ready, deadline, polled);
    var ready, late := facade.WaitForUnits(machines.Keys, deadline, Ready);
    PickedAreEligible(facade.w, machines, p, ready, late);
    PickedIsTriggered(facade.w, machines, reason, deadline, timeout, runId, failed, polled, p, late);
    result := TriggerPicked(facade, machines, Pick(machines, ready), late, reason, timeout, runId, failed);
  }

  /** What triggering the eligible units comes to, when the `late` ones are missing. */
  ghost function PickedResult(
    w: World, machines: map<string, Node>, eligible: map<string, Node>, late: seq<string>, reason: MissingReason,
    timeout: nat, runId: string, failed: seq<MissingNode>, polled: nat): Result<RunResult>
    requires Lawful(w) && forall u :: u in late ==> u in machines
  {
    var q := DonePoll(w, eligible, timeout, runId, polled);
    if AllReadable(w, eligible, runId, q)
      then Ok(RunResult(machines, TriggerCollected(w, eligible, runId, q),
             failed + (Entries(machines, late, reason) + TriggerMissing(w, eligible, runId, q))))
      else ValueError
  }

  lemma PickedIsTriggered(
    w: World, machines: map<string, Node>, reason: MissingReason, deadline: int, timeout: nat, runId: string,
    failed: seq<MissingNode>, polled: nat, p: nat, late: seq<string>)
    requires Lawful(w) && p == StopPoll(w, machines.Keys, Ready, deadline, polled)
    requires late == SortedStrings(Late(w, machines.Keys, Ready, p)) && forall u :: u in late ==> u in machines
    ensures TriggeredResult(w, machines, reason, deadline, timeout, runId, failed, polled) ==
      PickedResult(w, machines, Eligible(w, machines, p), late, reason, timeout, runId, failed, p + 1)
  {
  }

  /** `{u: unit_machines[u] for u in ready}`. */
  function Pick(machines: map<string, Node>, units: seq<string>): map<string, Node>
    requires forall u :: u in units ==> u in machines
  {
    map u | u in units :: machines[u]
  }

  lemma PickedAreEligible(w: World, machines: map<string, Node>, p: nat, ready: seq<string>, late: seq<string>)
    requires ready == SortedStrings(OnTime(w, machines.Keys, Ready, p))
    requires late == SortedStrings(Late(w, machines.Keys, Ready, p))
    ensures forall u :: u in ready || u in late ==> u in machines
    ensures Pick(machines, ready) == Eligible(w, machines, p)
  {
  }

  method TriggerPicked(
    facade: Facade, machines: map<string, Node>, eligible: map<string, Node>, late: seq<string>, reason: MissingReason,
    timeout: nat, runId: string, failed: seq<MissingNode>)
    returns (result: Result<RunResult>)
    requires Lawful(facade.w) && forall u :: u in late ==> u in machines
    modifies facade`polled, facade`triggered
    ensures facade.triggered == old(facade.triggered) + [runId]
    ensures result ==
      PickedResult(facade.w, machines, eligible, late, reason, timeout, runId, failed, old(facade.polled))
  {
    ghost var q := DonePoll(facade.w, eligible, timeout, runId, facade.polled);
    var missing := MarkMissing(machines, late, reason, failed);
    var ok, collected;
    var deadline := facade.w.before(facade.polled) + timeout;
    ok, collected, missing := TriggerAndCollect(facade, eligible, deadline, missing, runId);
    if !ok { return ValueError; }
    ConcatAssociative(failed, Entries(machines, late, reason), TriggerMissing(facade.w, eligible, runId, q));
    result := Ok(RunResult(machines, collected, missing));
  }

  /** The controller lists a test model. */
  predicate HasTestModel(w: World) { exists m :: m in w.models && MODEL_PREFIX <= m }

  lemma TestModelMeaning(w: World)
    ensures HasTestModel(w) <==> exists m :: m in w.models && |m| >= 13 && m[..13] == "network-test-"
  {
  }

  /** `run_new`.  ValueError stands for what it raises. */
  method RunNew(facade: Facade, ms: seq<Machine>, timeout: nat, runId: string) returns (result: Result<RunResult>)
    requires Lawful(facade.w)
    modifies facade
    ensures result.Ok? <==>
      && !HasTestModel(facade.w)
      && NewRunReadable(facade.w, InScope(ms), timeout, runId, old(facade.placed), old(facade.polled))
    ensures result.Ok? ==>
      result.value == NewRun(facade.w, InScope(ms), timeout, runId, old(facade.placed), old(facade.polled))
    ensures facade.triggered == old(facade.triggered) + if HasTestModel(facade.w) then [] else [runId]
  {
    var existing := facade.ListModels();
    if exists m :: m in existing && MODEL_PREFIX <= m { return ValueError; }
    result := Deploy(facade, InScope(ms), timeout, runId);
  }

  /** A new run: what failed to be placed, and what became of the units. */
  lemma NewRunParts(
    w: World, ms: seq<Machine>, timeout: nat, runId: string, placed: nat, polled: nat, machines: map<string, Node>,
    failed: seq<MissingNode>, p: nat, q: nat)
    requires Lawful(w)
    requires machines == PlacedMap(w, DeployOrder(ms), placed) && failed == FailedEntries(w, DeployOrder(ms), placed)
    requires p == ReadyPoll(w, machines, timeout, polled)
    requires q == DonePoll(w, Eligible(w, machines, p), timeout, runId, p + 1)
    ensures var rest := AfterReady(w, machines, DeploymentTimeout, runId, p, q);
      NewRun(w, ms, timeout, runId, placed, polled) == rest.(missing := failed + rest.missing)
  {
  }

  /** What was placed and what failed to be make up the machines. */
  lemma JoinPlacement(
    machines: map<string, Node>, units: seq<string>, failed: seq<MissingNode>, handled: multiset<Node>,
    all: seq<string>, r: RunResult, runId: string)
    requires Placement(machines, units, failed, handled) && multiset(all) == multiset(machines.Keys)
    requires (forall u :: u in all ==> u in machines) && AllAccountedFor(r, NodesOf(machines, all), runId)
    ensures AllAccountedFor(r.(missing := failed + r.missing), handled, runId)
  {
    NodesPermuted(machines, units, all);
    MissingConcat(failed, r.missing);
    Regroup(MissingNodes(r.missing), NodesOf(r.machines, UnitsOf(r.collected)), MissingNodes(failed), multiset{});
  }

  lemma OrderVisitsAll(ms: seq<Machine>)
    ensures Identities(DeployOrder(ms)) == Identities(ms)
  {
    EveryRackListed(ms, SortedStrings(RackNames(ms)));
    OrderIdentities(ms, SortedStrings(RackNames(ms)));
  }

  /** After a new run every in-scope machine is collected or missing, once. */
  lemma NewRunAccounted(w: World, ms: seq<Machine>, timeout: nat, runId: string, placed: nat, polled: nat)
    requires Lawful(w)
    ensures AllAccountedFor(NewRun(w, ms, timeout, runId, placed, polled), Identities(ms), runId)
  {
    var order := DeployOrder(ms);
    var machines, failed := PlacedMap(w, order, placed), FailedEntries(w, order, placed);
    var p := ReadyPoll(w, machines, timeout, polled);
    var q := DonePoll(w, Eligible(w, machines, p), timeout, runId, p + 1);
    NewRunParts(w, ms, timeout, runId, placed, polled, machines, failed, p, q);
    AfterReadyAccounted(w, machines, DeploymentTimeout, runId, p, q);
    PlacementAccounted(w, order, placed);
    ListedOnce(machines.Keys, SortedStrings(machines.Keys));
    OrderVisitsAll(ms);
    JoinPlacement(machines, PlacedUnits(w, order, placed), failed, Identities(order), SortedStrings(machines.Keys),
      AfterReady(w, machines, DeploymentTimeout, runId, p, q), runId);
  }

  // ----- what becomes of one machine ----------------------------------------

  datatype Fate = Missed(reason: MissingReason) | Found(unit: string, doc: ProbeOutput)

  /** What the answers make of the machine placed by the `k`-th add_unit, when the
      waits ended with polls `p` and `q`. */
  function FateOf(w: World, runId: string, k: nat, p: nat, q: nat): Fate {
    var unit := w.placements(k);
    if unit.ValueError? then Missed(PlacementFailed)
    else if !Satisfies(Ready, w.polls(p), unit.value) then Missed(DeploymentTimeout)
    else if !Satisfies(ProbeDone(runId), w.polls(q), unit.value) then Missed(ProbeTimeout)
    else
      match Collect(w, runId, unit.value)
      case Lost(reason) => Missed(reason)
      case Kept(doc) => Found(unit.value, doc)
  }

  lemma {:induction false} PlacedNode(w: World, order: seq<Machine>, n: nat, i: nat)
    requires UniqueUnits(w) && i < |order| && w.placements(n + i).Ok?
    ensures w.placements(n + i).value in PlacedMap(w, order, n)
    ensures PlacedMap(w, order, n)[w.placements(n + i).value] == Identity(order[i])
  {
    var k := |order| - 1;
    if i < k {
      PlacedNode(w, order[..k], n, i);
      assert n + i < n + k;
    }
  }

  lemma {:induction false} FailedEntry(w: World, order: seq<Machine>, n: nat, i: nat)
    requires i < |order| && w.placements(n + i).ValueError?
    ensures Missing(Identity(order[i]), PlacementFailed) in FailedEntries(w, order, n)
  {
    var k := |order| - 1;
    if i < k { FailedEntry(w, order[..k], n, i); }
  }

  lemma {:induction false} EntryOf(machines: map<string, Node>, units: seq<string>, reason: MissingReason, u: string)
    requires (forall v :: v in units ==> v in machines) && u in units
    ensures Missing(machines[u], reason) in Entries(machines, units, reason)
  {
    var n := |units| - 1;
    if u != units[n] { EntryOf(machines, units[..n], reason, u); }
  }

  lemma {:induction false} ResultOf(w: World, machines: map<string, Node>, done: seq<string>, runId: string, u: string)
    requires (forall v :: v in done ==> v in machines) && u in done
    ensures match Collect(w, runId, u)
      case Lost(reason) => Missing(machines[u], reason) in LostEntries(w, machines, done, runId)
      case Kept(doc) => Collected(u, doc) in KeptDocs(w, done, runId)
  {
    var n := |done| - 1;
    if u != done[n] { ResultOf(w, machines, done[..n], runId, u); }
  }

  /** The results of a triggered run, for one of its units. */
  lemma TriggerFate(w: World, machines: map<string, Node>, runId: string, q: nat, u: string)
    requires u in machines
    ensures !Satisfies(ProbeDone(runId), w.polls(q), u) ==>
      Missing(machines[u], ProbeTimeout) in TriggerMissing(w, machines, runId, q)
    ensures Satisfies(ProbeDone(runId), w.polls(q), u) ==>
      match Collect(w, runId, u)
      case Lost(reason) => Missing(machines[u], reason) in TriggerMissing(w, machines, runId, q)
      case Kept(doc) => Collected(u, doc) in TriggerCollected(w, machines, runId, q)
  {
    var late, done := Late(w, machines.Keys, ProbeDone(runId), q), OnTime(w, machines.Keys, ProbeDone(runId), q);
    if u in late {
      EntryOf(machines, SortedStrings(late), ProbeTimeout, u);
    } else {
      assert u in done;
      ResultOf(w, machines, SortedStrings(done), runId, u);
    }
  }

  lemma ReadyFate(
    w: World, machines: map<string, Node>, reason: MissingReason, runId: string, p: nat, q: nat, u: string)
    requires u in machines && !Satisfies(Ready, w.polls(p), u)
    ensures Missing(machines[u], reason) in AfterReady(w, machines, reason, runId, p, q).missing
  {
    var late := Late(w, machines.Keys, Ready, p);
    assert u in late;
    EntryOf(machines, SortedStrings(late), reason, u);
  }

  /** The result says of a machine what its fate is. */
  ghost predicate Tells(r: RunResult, node: Node, fate: Fate) {
    match fate
    case Missed(reason) => Missing(node, reason) in r.missing
    case Found(unit, doc) => Collected(unit, doc) in r.collected && unit in r.machines && r.machines[unit] == node
  }

  /** It says that, once, and nothing else of it. */
  ghost predicate TellsOnly(r: RunResult, node: Node, fate: Fate) {
    && Tells(r, node, fate)
    && (match fate
        case Missed(reason) =>
          && MissingNodes(r.missing)[node] == 1
          && (forall e :: e in r.missing && Node(e.systemId, e.hostname) == node ==> e.reason == reason)
          && forall c :: c in r.collected && c.unit in r.machines ==> r.machines[c.unit] != node
        case Found(unit, doc) =>
          && MissingNodes(r.missing)[node] == 0
          && forall c :: c in r.collected && c.unit in r.machines && r.machines[c.unit] == node ==>
               c == Collected(unit, doc))
  }

  lemma {:induction false} MissingCounted(entries: seq<MissingNode>, e: MissingNode, f: MissingNode)
    requires e in entries && f in entries && Node(e.systemId, e.hostname) == Node(f.systemId, f.hostname)
    ensures MissingNodes(entries)[Node(e.systemId, e.hostname)] >= if e == f then 1 else 2
  {
    var before, last := entries[..|entries| - 1], entries[|entries| - 1];
    assert entries == before + [last];
    if e in before && f in before {
      MissingCounted(before, e, f);
    } else if e in before {
      MissingCounted(before, e, e);
    } else if f in before {
      MissingCounted(before, f, f);
    }
  }

  lemma {:induction false} CollectedCounted(
    machines: map<string, Node>, collected: seq<Collected>, c: Collected, d: Collected)
    requires forall u :: u in UnitsOf(collected) ==> u in machines
    requires c in collected && d in collected && c.unit in machines && d.unit in machines
    requires machines[c.unit] == machines[d.unit]
    ensures NodesOf(machines, UnitsOf(collected))[machines[c.unit]] >= if c == d then 1 else 2
  {
    var before, last := collected[..|collected| - 1], collected[|collected| - 1];
    assert collected == before + [last];
    CollectedAppend(before, last);
    assert last.unit in UnitsOf(collected);
    assert forall u :: u in UnitsOf(before) ==> u in UnitsOf(collected);
    NodesAppend(machines, UnitsOf(before), last.unit);
    if c in before && d in before {
      CollectedCounted(machines, before, c, d);
    } else if c in before {
      CollectedCounted(machines, before, c, c);
    } else if d in before {
      CollectedCounted(machines, before, d, d);
    }
  }

  /** What is accounted for once and told is told only once. */
  lemma ToldOnce(r: RunResult, expected: multiset<Node>, runId: string, node: Node, fate: Fate)
    requires AllAccountedFor(r, expected, runId) && expected[node] == 1 && Tells(r, node, fate)
    ensures TellsOnly(r, node, fate)
  {
    var missing, held := MissingNodes(r.missing), NodesOf(r.machines, UnitsOf(r.collected));
    assert missing[node] + held[node] == 1;
    match fate
    case Missed(reason) =>
      MissingCounted(r.missing, Missing(node, reason), Missing(node, reason));
      forall e | e in r.missing && Node(e.systemId, e.hostname) == node ensures e.reason == reason {
        MissingCounted(r.missing, Missing(node, reason), e);
      }
      forall c | c in r.collected && c.unit in r.machines ensures r.machines[c.unit] != node {
        CollectedCounted(r.machines, r.collected, c, c);
      }
    case Found(unit, doc) =>
      CollectedCounted(r.machines, r.collected, Collected(unit, doc), Collected(unit, doc));
      forall c | c in r.collected && c.unit in r.machines && r.machines[c.unit] == node
        ensures c == Collected(unit, doc)
      {
        CollectedCounted(r.machines, r.collected, Collected(unit, doc), c);
      }
  }

  lemma {:induction false} IdentityOnce(ms: seq<Machine>, n: Node)
    requires UniqueIds(ms)
    ensures Identities(ms)[n] <= 1
    ensures n in Identities(ms) ==> exists m :: m in ms && Identity(m) == n
  {
    if ms != [] {
      var before, last := ms[..|ms| - 1], ms[|ms| - 1];
      IdentityOnce(before, n);
      assert ms == before + [last];
      assert n == Identity(last) ==> forall m :: m in before ==> Identity(m) != n;
    }
  }

  lemma {:induction false} IdentityListed(ms: seq<Machine>, m: Machine)
    requires m in ms
    ensures Identity(m) in Identities(ms)
  {
    var n := |ms| - 1;
    if m != ms[n] { IdentityListed(ms[..n], m); }
  }

  lemma TellsMore(r: RunResult, failed: seq<MissingNode>, node: Node, fate: Fate)
    requires Tells(r, node, fate)
    ensures Tells(r.(missing := failed + r.missing), node, fate)
  {
  }

  /** The part of it that follows placement, for the machine of unit `u`. */
  lemma UnitFate(w: World, machines: map<string, Node>, runId: string, k: nat, p: nat, q: nat)
    requires w.placements(k).Ok? && w.placements(k).value in machines
    ensures Tells(AfterReady(w, machines, DeploymentTimeout, runId, p, q), machines[w.placements(k).value],
              FateOf(w, runId, k, p, q))
  {
    var u := w.placements(k).value;
    if !Satisfies(Ready, w.polls(p), u) {
      ReadyFate(w, machines, DeploymentTimeout, runId, p, q, u);
    } else {
      TriggerFate(w, Eligible(w, machines, p), runId, q, u);
    }
  }

  /** One machine of a deployment that was waited for until polls `p` and `q`. */
  lemma PlacedFate(
    w: World, order: seq<Machine>, machines: map<string, Node>, failed: seq<MissingNode>, runId: string, n: nat,
    i: nat, p: nat, q: nat)
    requires UniqueUnits(w) && i < |order|
    requires machines == PlacedMap(w, order, n) && failed == FailedEntries(w, order, n)
    ensures var rest := AfterReady(w, machines, DeploymentTimeout, runId, p, q);
      Tells(rest.(missing := failed + rest.missing), Identity(order[i]), FateOf(w, runId, n + i, p, q))
  {
    if w.placements(n + i).ValueError? {
      FailedEntry(w, order, n, i);
    } else {
      PlacedNode(w, order, n, i);
      UnitFate(w, machines, runId, n + i, p, q);
      var rest := AfterReady(w, machines, DeploymentTimeout, runId, p, q);
      TellsMore(rest, failed, Identity(order[i]), FateOf(w, runId, n + i, p, q));
    }
  }

  /** The two waits of a new run that is not aborted, and its outcome. */
  ghost predicate IsNewRun(
    w: World, ms: seq<Machine>, timeout: nat, runId: string, placed: nat, polled: nat, p: nat, q: nat, r: RunResult)
  {
    && Lawful(w) && NewRunReadable(w, ms, timeout, runId, placed, polled)
    && r == NewRun(w, ms, timeout, runId, placed, polled)
    && var machines := PlacedMap(w, DeployOrder(ms), placed);
    && p == ReadyPoll(w, machines, timeout, polled)
    && q == DonePoll(w, Eligible(w, machines, p), timeout, runId, p + 1)
  }

  /** The two waits of a new run: for the units placed to be ready, and for those
      that are ready to be done, each for as long as `timeout` allows. */
  lemma PollsMeaning(
    w: World, ms: seq<Machine>, timeout: nat, runId: string, placed: nat, polled: nat, p: nat, q: nat, r: RunResult,
    ready: set<string>)
    requires IsNewRun(w, ms, timeout, runId, placed, polled, p, q, r)
    requires ready == set u | u in r.machines && u in w.polls(p) && Meets(Ready, w.polls(p)[u])
    ensures p == StopPoll(w, r.machines.Keys, Ready, w.before(polled) + timeout, polled)
    ensures q == StopPoll(w, ready, ProbeDone(runId), w.before(p + 1) + timeout, p + 1)
  {
    assert r.machines == PlacedMap(w, DeployOrder(ms), placed);
    assert Eligible(w, r.machines, p).Keys == ready;
  }

  /** A new run raises exactly when a unit that was placed, got ready and was seen to
      be done gives what cannot be read. */
  lemma ReadableMeaning(
    w: World, ms: seq<Machine>, timeout: nat, runId: string, placed: nat, polled: nat, p: nat, q: nat)
    requires Lawful(w)
    requires var machines := PlacedMap(w, DeployOrder(ms), placed);
      && p == ReadyPoll(w, machines, timeout, polled)
      && q == DonePoll(w, Eligible(w, machines, p), timeout, runId, p + 1)
    ensures NewRunReadable(w, ms, timeout, runId, placed, polled) <==>
      forall u ::
        (u in PlacedMap(w, DeployOrder(ms), placed) && Satisfies(Ready, w.polls(p), u)
         && Satisfies(ProbeDone(runId), w.polls(q), u)) ==>
        w.results(u) != ActionResult.Unreadable
  {
    var machines := PlacedMap(w, DeployOrder(ms), placed);
    AllReadableMeaning(w, Eligible(w, machines, p), runId, q);
  }

  lemma AllReadableMeaning(w: World, machines: map<string, Node>, runId: string, q: nat)
    ensures AllReadable(w, machines, runId, q) <==>
      forall u :: u in machines && Satisfies(ProbeDone(runId), w.polls(q), u) ==>
        w.results(u) != ActionResult.Unreadable
  {
    var done := OnTime(w, machines.Keys, ProbeDone(runId), q);
    assert forall u :: u in SortedStrings(done) <==> u in done;
  }

  lemma FateTold(
    w: World, ms: seq<Machine>, timeout: nat, runId: string, placed: nat, polled: nat, p: nat, q: nat, r: RunResult,
    i: nat)
    requires IsNewRun(w, ms, timeout, runId, placed, polled, p, q, r) && i < |DeployOrder(ms)|
    ensures Tells(r, Identity(DeployOrder(ms)[i]), FateOf(w, runId, placed + i, p, q))
  {
    var order := DeployOrder(ms);
    var machines, failed := PlacedMap(w, order, placed), FailedEntries(w, order, placed);
    NewRunParts(w, ms, timeout, runId, placed, polled, machines, failed, p, q);
    PlacedFate(w, order, machines, failed, runId, placed, i, p, q);
  }

  lemma NewRunIsAccounted(
    w: World, ms: seq<Machine>, timeout: nat, runId: string, placed: nat, polled: nat, p: nat, q: nat, r: RunResult)
    requires IsNewRun(w, ms, timeout, runId, placed, polled, p, q, r)
    ensures AllAccountedFor(r, Identities(ms), runId)
  {
    NewRunAccounted(w, ms, timeout, runId, placed, polled);
  }

  /** Each machine is reported once, for exactly the cause that struck it first:
      placement, readiness, the probe, no output, stale output, or none, and then
      it is collected once with the document of its unit. */
  lemma FateReported(
    w: World, ms: seq<Machine>, timeout: nat, runId: string, placed: nat, polled: nat, p: nat, q: nat, r: RunResult,
    i: nat)
    requires IsNewRun(w, ms, timeout, runId, placed, polled, p, q, r) && UniqueIds(ms) && i < |DeployOrder(ms)|
    ensures TellsOnly(r, Identity(DeployOrder(ms)[i]), FateOf(w, runId, placed + i, p, q))
  {
    FateTold(w, ms, timeout, runId, placed, polled, p, q, r, i);
    NewRunIsAccounted(w, ms, timeout, runId, placed, polled, p, q, r);
    OrderedOnce(ms, i);
    ToldOnce(r, Identities(ms), runId, Identity(DeployOrder(ms)[i]), FateOf(w, runId, placed + i, p, q));
  }

  lemma OrderedOnce(ms: seq<Machine>, i: nat)
    requires UniqueIds(ms) && i < |DeployOrder(ms)|
    ensures Identities(ms)[Identity(DeployOrder(ms)[i])] == 1
  {
    var order := DeployOrder(ms);
    OrderVisitsAll(ms);
    IdentityListed(order, order[i]);
    IdentityOnce(ms, Identity(order[i]));
  }

  // ----- run_reuse ----------------------------------------------------------

  function ByHostname(ms: seq<Machine>): map<string, Machine> {
    if ms == [] then map[] else var last := ms[|ms| - 1]; ByHostname(ms[..|ms| - 1])[last.hostname := last]
  }

  /** `machine_for`: a unit whose host is not in the topology is reported under
      its host name, or its own. */
  function MachineFor(hosts: map<string, Machine>, statuses: map<string, Status>, unit: string): Node
    requires unit in statuses
  {
    var hostname := statuses[unit].hostname;
    if hostname.Some? && hostname.value in hosts then Identity(hosts[hostname.value])
    else Node("unknown", if Truthy(hostname) then hostname.value else unit)
  }

  /** Machine `k` is the last with that host name. */
  predicate LastNamed(ms: seq<Machine>, hostname: string, k: nat) {
    k < |ms| && ms[k].hostname == hostname && forall j :: k < j < |ms| ==> ms[j].hostname != hostname
  }

  lemma {:induction false} ByHostnameMeaning(ms: seq<Machine>, hostname: string, k: nat)
    ensures LastNamed(ms, hostname, k) ==> hostname in ByHostname(ms) && ByHostname(ms)[hostname] == ms[k]
    ensures hostname in ByHostname(ms) <==> exists m :: m in ms && m.hostname == hostname
  {
    if ms != [] {
      var n := |ms| - 1;
      ByHostnameMeaning(ms[..n], hostname, k);
      assert ms == ms[..n] + [ms[n]];
    }
  }

  /** A unit stands for the machine whose host it is on, and for a nameless one
      when there is none. */
  lemma MachineForMeaning(ms: seq<Machine>, statuses: map<string, Status>, unit: string, k: nat)
    requires unit in statuses
    ensures var host, node := statuses[unit].hostname, MachineFor(ByHostname(ms), statuses, unit);
      && (host.Some? && LastNamed(ms, host.value, k) ==> node == Node(ms[k].systemId, ms[k].hostname))
      && ((forall m :: m in ms ==> Some(m.hostname) != host) ==>
            node == Node("unknown", if host in {None, Some("")} then unit else host.value))
  {
    var host := statuses[unit].hostname;
    if host.Some? { ByHostnameMeaning(ms, host.value, k); }
  }

  function UnitMachines(ms: seq<Machine>, statuses: map<string, Status>): map<string, Node> {
    map u | u in statuses :: MachineFor(ByHostname(ms), statuses, u)
  }

  /** The first unit, in order, whose stored topology can be read. */
  function FirstStored(w: World, units: seq<string>): Option<seq<Machine>> {
    if units == [] then None
    else if w.stored(units[0]).Some? then w.stored(units[0])
    else FirstStored(w, units[1..])
  }

  /** ... and of the units before it none can. */
  lemma {:induction false} FirstStoredAt(w: World, units: seq<string>, k: nat)
    requires k < |units| && w.stored(units[k]).Some? && forall j :: 0 <= j < k ==> w.stored(units[j]) == None
    ensures FirstStored(w, units) == w.stored(units[k])
  {
    if k > 0 {
      assert w.stored(units[0]) == None;
      FirstStoredAt(w, units[1..], k - 1);
    }
  }

  lemma {:induction false} FirstStoredIff(w: World, units: seq<string>)
    ensures FirstStored(w, units).Some? <==> exists u :: u in units && w.stored(u).Some?
    ensures FirstStored(w, units).Some? ==> exists u :: u in units && w.stored(u) == FirstStored(w, units)
  {
    if units != [] {
      FirstStoredIff(w, units[1..]);
      assert units == [units[0]] + units[1..];
    }
  }

  method FindTopology(facade: Facade, names: set<string>) returns (ms: Option<seq<Machine>>)
    ensures ms == FirstStored(facade.w, SortedStrings(names))
    ensures ms.Some? <==> exists u :: u in names && facade.w.stored(u).Some?
  {
    var units := SortStrings(names);
    FirstStoredIff(facade.w, units);
    for i := 0 to |units|
      invariant FirstStored(facade.w, units) == FirstStored(facade.w, units[i..])
    {
      assert units[i..][1..] == units[i + 1..];
      ms := facade.CatTopology(units[i]);
      if ms.Some? { return ms; }
    }
    return None;
  }

  /** Some unit known at poll `p` has a readable topology. */
  ghost predicate Recoverable(w: World, p: nat) {
    exists u :: u in w.polls(p) && w.stored(u).Some?
  }

  /** A re-run of the units seen at poll `p`. */
  ghost function ReusedRun(w: World, ms: seq<Machine>, timeout: nat, runId: string, p: nat): RunResult
    requires Lawful(w)
  {
    var machines := UnitMachines(ms, w.polls(p));
    AfterReady(w, machines, NoProbeOutput, runId, p, DonePoll(w, Eligible(w, machines, p), timeout, runId, p + 1))
  }

  /** The results of such a re-run can be read. */
  ghost predicate ReuseReadable(w: World, ms: seq<Machine>, timeout: nat, runId: string, p: nat)
    requires Lawful(w)
  {
    var eligible := Eligible(w, UnitMachines(ms, w.polls(p)), p);
    AllReadable(w, eligible, runId, DonePoll(w, eligible, timeout, runId, p + 1))
  }

  /** `run_reuse`, on the topology of the first unit that has one. */
  method RunReuse(facade: Facade, model: string, timeout: nat, runId: string)
    returns (result: Result<(seq<Machine>, RunResult)>, ghost ms: seq<Machine>)
    requires Lawful(facade.w)
    modifies facade
    ensures model in facade.w.models && Recoverable(facade.w, old(facade.polled)) ==>
      FirstStored(facade.w, SortedStrings(facade.w.polls(old(facade.polled)).Keys)) == Some(ms)
    ensures result.Ok? <==>
      && model in facade.w.models && Recoverable(facade.w, old(facade.polled))
      && ReuseReadable(facade.w, ms, timeout, runId, old(facade.polled))
    ensures result.Ok? ==> result.value == (ms, ReusedRun(facade.w, ms, timeout, runId, old(facade.polled)))
    ensures facade.triggered == old(facade.triggered)
      + if model in facade.w.models && Recoverable(facade.w, old(facade.polled)) then [runId] else []
  {
    ms := [];
    var models := facade.ListModels();
    if model !in models { return ValueError, ms; }
    ghost var p := facade.polled;
    var statuses := facade.UnitStatuses();
    var topology := FindTopology(facade, statuses.Keys);
    if topology == None { return ValueError, ms; }
    ms := topology.value;
    var r := RestartUnits(facade, statuses, topology.value, timeout, runId, p);
    if r.ValueError? { return ValueError, ms; }
    return Ok((topology.value, r.value)), ms;
  }

  /** `run_reuse`, once the topology is known; `p` is the poll just made. */
  method RestartUnits(
    facade: Facade, statuses: map<string, Status>, ms: seq<Machine>, timeout: nat, runId: string, ghost p: nat)
    returns (result: Result<RunResult>)
    requires Lawful(facade.w) && statuses == facade.w.polls(p) && facade.polled == p + 1
    modifies facade`polled, facade`triggered
    ensures result.Ok? <==> ReuseReadable(facade.w, ms, timeout, runId, p)
    ensures result.Ok? ==> result.value == ReusedRun(facade.w, ms, timeout, runId, p)
    ensures facade.triggered == old(facade.triggered) + [runId]
  {
    var machines := UnitMachines(ms, statuses);
    var restartable := map u | u in statuses && ActiveIdle(statuses[u]) :: machines[u];
    Restartable(facade.w, machines, p);
    var stuck := SortStrings(statuses.Keys - restartable.Keys);
    StuckKnown(facade.w, machines, p, stuck);
    result := TriggerPicked(facade, machines, restartable, stuck, NoProbeOutput, timeout, runId, []);
  }

  lemma Restartable(w: World, machines: map<string, Node>, p: nat)
    requires machines.Keys == w.polls(p).Keys
    ensures Eligible(w, machines, p) == map u | u in w.polls(p) && ActiveIdle(w.polls(p)[u]) :: machines[u]
    ensures w.polls(p).Keys - Eligible(w, machines, p).Keys == Late(w, machines.Keys, Ready, p)
  {
  }

  lemma StuckKnown(w: World, machines: map<string, Node>, p: nat, stuck: seq<string>)
    requires stuck == SortedStrings(Late(w, machines.Keys, Ready, p))
    ensures forall u :: u in stuck ==> u in machines
  {
  }

  /** After a re-run every unit the model had is collected or missing, once. */
  lemma ReusedRunAccounted(w: World, ms: seq<Machine>, timeout: nat, runId: string, p: nat)
    requires Lawful(w)
    ensures var machines := UnitMachines(ms, w.polls(p));
      AllAccountedFor(ReusedRun(w, ms, timeout, runId, p), NodesOf(machines, SortedStrings(machines.Keys)), runId)
  {
    var machines := UnitMachines(ms, w.polls(p));
    var q := DonePoll(w, Eligible(w, machines, p), timeout, runId, p + 1);
    AfterReadyAccounted(w, machines, NoProbeOutput, runId, p, q);
  }

  // ----- exactly once -------------------------------------------------------

  lemma ScopeAppend(ms: seq<Machine>, m: Machine)
    ensures Identities(InScope(ms + [m])) == Identities(InScope(ms)) + Only(m.inScope, Identity(m))
  {
    assert (ms + [m])[..|ms|] == ms;
    if m.inScope {
      IdentitiesAppend(InScope(ms), m);
    } else {
      assert InScope(ms) + [] == InScope(ms);
    }
  }

  lemma {:induction false} Absent(ms: seq<Machine>, n: Node)
    requires forall m :: m in ms ==> m.systemId != n.systemId
    ensures Identities(InScope(ms))[n] == 0
  {
    if ms != [] {
      var k := |ms| - 1;
      Absent(ms[..k], n);
      ScopeAppend(ms[..k], ms[k]);
      assert ms == ms[..k] + [ms[k]];
    }
  }

  /** With unique ids an in-scope machine is expected exactly once. */
  lemma {:induction false} ExpectedOnce(ms: seq<Machine>, i: nat)
    requires UniqueIds(ms) && i < |ms| && ms[i].inScope
    ensures Identities(InScope(ms))[Identity(ms[i])] == 1
  {
    var k := |ms| - 1;
    ScopeAppend(ms[..k], ms[k]);
    assert ms == ms[..k] + [ms[k]];
    if i == k {
      Absent(ms[..k], Identity(ms[i]));
    } else {
      ExpectedOnce(ms[..k], i);
    }
  }

  /** Every in-scope machine is in exactly one of missing and collected, once. */
  lemma ExactlyOnce(r: RunResult, ms: seq<Machine>, runId: string, m: Machine)
    requires UniqueIds(ms) && m in ms && m.inScope && AllAccountedFor(r, Identities(InScope(ms)), runId)
    ensures MissingNodes(r.missing)[Identity(m)] + NodesOf(r.machines, UnitsOf(r.collected))[Identity(m)] == 1
  {
    var i :| 0 <= i < |ms| && ms[i] == m;
    ExpectedOnce(ms, i);
  }
}
