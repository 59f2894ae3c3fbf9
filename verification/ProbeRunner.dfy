/** `run_probe` (charm/payload/probe_runner.py): validators run in threads of
    their own, phase by phase, under one deadline.

    The main thread is the code below.  Whatever the validator threads and other
    cancellers do between two of its actions is `Interleave`: any number of their
    steps, in any order.  Only joins take time, and a join returns when its
    thread ends or its timeout passes. */
module ProbeRunner {
  import opened Order
  import opened ProbeOutput
  import opened Sections

  const FLUSH_GRACE_SECONDS := 5.0

  /** bond and vlan validators together, then mtu, then bgp. */
  const PHASES: seq<seq<nat>> := [[0, 1], [2], [3]]

  datatype Record = Bond(name: string) | Neighbor(o: VlanObservation) | Mtu(m: MtuRecord) | Path(p: PathRecord)
  datatype Section = Section(
    status: SectionStatus, skipReason: Option<string>, findings: seq<Finding>, records: seq<Record>)

  const EMPTY_SECTION := Section(NotStarted, None, [], [])

  /** `_ValidatorRun`; `alive` is the thread's. */
  datatype ValidatorRun = ValidatorRun(started: bool, alive: bool, error: Option<string>, section: Section)

  datatype Event = Started(run: nat) | Finished(run: nat) | SawFlag

  datatype Outcome = Raised(error: string) | Written(status: ProbeStatus, sections: seq<Section>)

  // ----- what is promised ---------------------------------------------------

  /** Every run belongs to exactly one phase, once. */
  ghost predicate Phased(phases: seq<seq<nat>>, n: nat) {
    && (forall k, a :: 0 <= k < |phases| && 0 <= a < |phases[k]| ==> phases[k][a] < n)
    && (forall k, a, b :: 0 <= k < |phases| && 0 <= a < b < |phases[k]| ==> phases[k][a] != phases[k][b])
    && (forall k, l, i :: 0 <= k < l < |phases| && i in phases[k] ==> i !in phases[l])
    && (forall i :: 0 <= i < n ==> Placed(phases, i))
  }

  predicate Placed(phases: seq<seq<nat>>, i: nat) {
    exists k :: 0 <= k < |phases| && i in phases[k]
  }

  ghost predicate EarlierFinished(phases: seq<seq<nat>>, log: seq<Event>, run: nat) {
    forall k, l, i :: 0 <= k < l < |phases| && run in phases[l] && i in phases[k] ==> Finished(i) in log
  }

  /** A run starts only after every run of the earlier phases has finished, and
      never after the main thread has seen the flag. */
  ghost predicate PhaseOrdered(phases: seq<seq<nat>>, log: seq<Event>) {
    forall j :: 0 <= j < |log| && log[j].Started? ==>
      EarlierFinished(phases, log[..j], log[j].run) && SawFlag !in log[..j]
  }

  /** The cross-field rules of the probe-output schema. */
  predicate SchemaSection(s: Section) {
    && (s.status == NotStarted ==> s.findings == [] && s.records == [])
    && Explained(s)
  }

  /** A skipped section says why. */
  predicate Explained(s: Section) { s.status == Skipped ==> s.skipReason.Some? }

  function FinalSection(r: ValidatorRun, status: ProbeStatus): Section {
    if !r.started then r.section.(status := NotStarted)
    else if r.alive || r.section.status == NotStarted then
      r.section.(status := if status == Complete then Done else Cut(status.reason))
    else r.section
  }

  /** Settling touches the status only: a run that has ended with a status of its
      own keeps it, one that was never started has none, and any other is done, or
      cut short for the reason of the interruption. */
  lemma FinalMeaning(r: ValidatorRun, status: ProbeStatus)
    ensures var s := FinalSection(r, status);
      && (s.skipReason, s.findings, s.records) == (r.section.skipReason, r.section.findings, r.section.records)
      && (!r.started ==> s.status == NotStarted)
      && (r.started && !r.alive && r.section.status != NotStarted ==> s.status == r.section.status)
      && (r.started && (r.alive || r.section.status == NotStarted) ==>
            match status
            case Complete => s.status == Done
            case Interrupted(reason) => s.status == Cut(reason))
  {
  }

  /** What the other threads may do to a run: only a live thread changes it, and
      a thread that has ended never comes back. */
  predicate Later(a: ValidatorRun, b: ValidatorRun) {
    b.started == a.started && (!a.alive ==> b == a)
  }

  /** An event extends the order exactly when it is not a start out of place. */
  lemma LoggedLater(phases: seq<seq<nat>>, log: seq<Event>, event: Event)
    ensures PhaseOrdered(phases, log + [event]) <==>
      && PhaseOrdered(phases, log)
      && (event.Started? ==> EarlierFinished(phases, log, event.run) && SawFlag !in log)
  {
    var log' := log + [event];
    assert log'[..|log|] == log && log'[|log|] == event;
    assert forall j :: 0 <= j < |log| ==> log'[..j] == log[..j] && log'[j] == log[j];
  }

  /** A run that was never started has touched nothing, one that has ended has
      explained a skip, and the log tells what became of each run. */
  predicate ValidRun(r: ValidatorRun, i: nat, log: seq<Event>) {
    && (!r.alive ==> Explained(r.section))
    && (r.alive ==> r.started && r.error == None)
    && (!r.started ==> r.section == EMPTY_SECTION && r.error == None)
    && (Started(i) in log <==> r.started)
    && (Finished(i) in log <==> r.started && !r.alive)
  }

  class Probe {
    const phases: seq<seq<nat>>
    var runs: seq<ValidatorRun>
    var flag: bool
    var reason: Option<Reason>
    var now: real
    ghost var log: seq<Event>

    ghost predicate Valid()
      reads this
    {
      && Phased(phases, |runs|)
      && (flag ==> reason.Some?)
      && (forall i :: 0 <= i < |runs| ==> ValidRun(runs[i], i, log))
      && PhaseOrdered(phases, log)
      && (SawFlag in log ==> flag)
    }

    /** Everything a validator thread or a canceller may have done meanwhile; the
        reason is a timeout only when the main thread's time is up. */
    twostate predicate Meanwhile(timeUp: bool)
      reads this
    {
      && |runs| == |old(runs)| && (forall i :: 0 <= i < |runs| ==> Later(old(runs)[i], runs[i]))
      && (old(reason).Some? ==> reason == old(reason)) && (old(flag) ==> flag)
      && (reason == Some(TimedOut) ==> old(reason) == Some(TimedOut) || timeUp)
      && |old(log)| <= |log| && log[..|old(log)|] == old(log)
      && (SawFlag in log ==> SawFlag in old(log))
    }

    constructor (phases: seq<seq<nat>>, n: nat, now: real)
      requires Phased(phases, n)
      ensures Valid() && this.phases == phases && |runs| == n && log == [] && this.now == now && reason == None
      ensures forall i :: 0 <= i < n ==> runs[i] == ValidatorRun(false, false, None, Section(NotStarted, None, [], []))
    {
      this.phases := phases;
      runs := seq(n, _ => ValidatorRun(false, false, None, EMPTY_SECTION));
      flag, reason, this.now, log := false, None, now, [];
    }

    /** One validator thread changes its section, or ends, perhaps by raising.  It
        sets its status and then its skip reason, and never ends in between. */
    method ThreadMoves(i: nat)
      requires Valid() && i < |runs| && runs[i].alive
      modifies `runs, `log
      ensures Valid() && Meanwhile(false)
    {
      var section: Section := *;
      var ends: bool := *;
      var error: Option<string> := *;
      ends := ends && Explained(section);
      if ends {
        LoggedLater(phases, log, Finished(i));
        log := log + [Finished(i)];
      }
      runs := runs[i := ValidatorRun(true, !ends, if ends then error else None, section)];
    }

    /** Another thread is somewhere inside `cancel`. */
    method CancellerMoves()
      requires Valid()
      modifies `flag, `reason
      ensures Valid() && Meanwhile(false)
    {
      var sets: bool := *;
      if reason == None && sets {
        reason := Some(Cancelled);
      }
      var raises: bool := *;
      if reason.Some? && raises {
        flag := true;
      }
    }

    method Interleave()
      requires Valid()
      modifies `runs, `flag, `reason, `log
      ensures Valid() && Meanwhile(false)
    {
      var steps: nat :| steps >= 0;
      for k := 0 to steps
        invariant Valid() && Meanwhile(false)
      {
        var i: nat :| i >= 0;
        if i < |runs| && runs[i].alive {
          ThreadMoves(i);
        } else {
          CancellerMoves();
        }
      }
    }

    /** `cancellation.is_set()`. */
    method IsSet() returns (set_: bool)
      requires Valid()
      modifies `runs, `flag, `reason, `log
      ensures Valid() && Meanwhile(false) && set_ == flag
    {
      Interleave();
      set_ := flag;
    }

    /** The check before a phase is started. */
    method SeesFlag() returns (seen: bool)
      requires Valid()
      modifies `runs, `flag, `reason, `log
      ensures Valid() && |runs| == |old(runs)| && (forall i :: 0 <= i < |runs| ==> Later(old(runs)[i], runs[i]))
      ensures old(flag) ==> seen
      ensures seen ==> flag && SawFlag in log
      ensures !seen && SawFlag in log ==> SawFlag in old(log)
      ensures reason == Some(TimedOut) ==> old(reason) == Some(TimedOut)
    {
      seen := IsSet();
      if seen {
        LoggedLater(phases, log, SawFlag);
        log := log + [SawFlag];
      }
    }

    /** `cancellation.cancel`; what it does to child processes is the subject of
        module Cancellation. */
    method Cancel(r: Reason)
      requires Valid()
      modifies `runs, `flag, `reason, `log
      ensures Valid() && Meanwhile(r == TimedOut) && flag
    {
      Interleave();
      if reason == None {
        reason := Some(r);
      }
      Interleave();
      flag := true;
    }

    /** `Thread.join(timeout)`: back early only when the thread has ended. */
    method Join(i: nat, timeout: real)
      requires Valid() && i < |runs| && timeout >= 0.0
      modifies `runs, `flag, `reason, `log, `now
      ensures Valid() && Meanwhile(false)
      ensures old(now) <= now <= old(now) + timeout
      ensures runs[i].alive ==> now == old(now) + timeout
    {
      Interleave();
      var waited := timeout;
      if !runs[i].alive {
        assert 0.0 <= 0.0 <= timeout;
        waited :| 0.0 <= waited <= timeout;
      }
      now := now + waited;
    }

    ghost function Alive(): set<nat>
      reads this
    {
      set i | 0 <= i < |runs| && runs[i].alive
    }

    /** `[run for run in phase_runs if run.alive()]`. */
    method AliveOf(phase: seq<nat>) returns (alive: seq<nat>)
      requires Valid() && forall a :: 0 <= a < |phase| ==> phase[a] < |runs|
      modifies `runs, `flag, `reason, `log
      ensures Valid() && Meanwhile(false)
      ensures forall i :: i in alive ==> i < |runs| && old(runs)[i].alive
      ensures forall i :: i in phase && i !in alive ==> !runs[i].alive
    {
      alive := [];
      for a := 0 to |phase|
        invariant Valid() && Meanwhile(false)
        invariant forall i :: i in alive ==> i < |runs| && old(runs)[i].alive
        invariant forall i :: i in phase[..a] && i !in alive ==> !runs[i].alive
      {
        Interleave();
        if runs[phase[a]].alive {
          alive := alive + [phase[a]];
        }
        assert phase[..a + 1] == phase[..a] + [phase[a]];
      }
      assert phase[..|phase|] == phase;
    }

    /** One pass of the loop of `_wait_for_phase`: unless it is the last one, it
        outlives a thread or moves the clock at least 10 ms. */
    method WaitOnce(phase: seq<nat>, deadline: real) returns (over: bool)
      requires Valid() && forall a :: 0 <= a < |phase| ==> phase[a] < |runs|
      modifies `runs, `flag, `reason, `log, `now
      ensures Valid() && Meanwhile(now >= deadline)
      ensures over ==> flag || forall i :: i in phase ==> !runs[i].alive
      ensures over ==> now == old(now)
      ensures old(flag) ==> over
      ensures !over ==> old(now) < deadline && old(now) <= now <= Max(deadline, old(now) + 0.01)
      ensures !over ==> Alive() < old(Alive()) || (Alive() == old(Alive()) && old(now) + 0.01 <= now)
    {
      ghost var before := Alive();
      var alive := AliveOf(phase);
      if alive == [] { return true; }
      assert alive[0] in alive && alive[0] in before;
      var cancelled := IsSet();
      if cancelled { return true; }
      if now >= deadline {
        Cancel(TimedOut);
        return true;
      }
      Join(alive[0], Min(0.1, Max(deadline - now, 0.01)));
      assert Alive() <= before;
      return false;
    }

    /** `_wait_for_phase`: it ends, within 10 ms of the deadline. */
    method WaitForPhase(phase: seq<nat>, deadline: real)
      requires Valid() && forall a :: 0 <= a < |phase| ==> phase[a] < |runs|
      modifies `runs, `flag, `reason, `log, `now
      ensures Valid() && Meanwhile(now >= deadline)
      ensures flag || forall i :: i in phase ==> !runs[i].alive
      ensures old(now) <= now <= Max(old(now), deadline + 0.01)
      ensures old(flag) ==> now == old(now)
    {
      var over := false;
      while !over
        invariant Valid() && Meanwhile(now >= deadline)
        invariant over ==> flag || forall i :: i in phase ==> !runs[i].alive
        invariant old(now) <= now <= Max(old(now), deadline + 0.01)
        invariant old(flag) ==> now == old(now)
        decreases !over, Alive(), Ticks(now, deadline)
      {
        ghost var t := now;
        over := WaitOnce(phase, deadline);
        TicksFall(t, now, deadline);
      }
    }

    /** `_flush_interrupted`. */
    method FlushInterrupted()
      requires Valid()
      modifies `runs, `flag, `reason, `log, `now
      ensures Valid() && Meanwhile(false)
      ensures old(now) <= now <= old(now) + FLUSH_GRACE_SECONDS
      ensures (exists i :: 0 <= i < |runs| && runs[i].alive) ==> now == old(now) + FLUSH_GRACE_SECONDS
    {
      var deadline := now + FLUSH_GRACE_SECONDS;
      for i := 0 to |runs|
        invariant Valid() && Meanwhile(false)
        invariant old(now) <= now <= deadline
        invariant (exists j :: 0 <= j < i && runs[j].alive) ==> now == deadline
      {
        Await(i, deadline);
      }
    }

    method Await(i: nat, deadline: real)
      requires Valid() && i < |runs| && now <= deadline
      modifies `runs, `flag, `reason, `log, `now
      ensures Valid() && Meanwhile(false)
      ensures old(now) <= now <= deadline && (runs[i].alive ==> now == deadline)
    {
      Interleave();
      if runs[i].started && runs[i].alive {
        Join(i, Max(deadline - now, 0.0));
      }
    }

    /** `_ValidatorRun.start`. */
    method Start(i: nat)
      requires Valid() && i < |runs| && !runs[i].started
      requires EarlierFinished(phases, log, i) && SawFlag !in log
      modifies `runs, `log
      ensures Valid() && runs == old(runs)[i := old(runs)[i].(started := true, alive := true)]
      ensures log == old(log) + [Started(i)]
    {
      LoggedLater(phases, log, Started(i));
      log := log + [Started(i)];
      runs := runs[i := runs[i].(started := true, alive := true)];
    }

    /** Runs of the first `k` phases have all ended. */
    ghost predicate DoneBefore(k: nat)
      reads this
      requires k <= |phases| && Phased(phases, |runs|)
    {
      forall l, i :: 0 <= l < k && i in phases[l] ==> i < |runs| && runs[i].started && !runs[i].alive
    }

    ghost predicate FreshFrom(k: nat)
      reads this
      requires k <= |phases| && Phased(phases, |runs|)
    {
      forall l, i :: k <= l < |phases| && i in phases[l] ==> i < |runs| && !runs[i].started
    }

    lemma CanStart(k: nat, run: nat)
      requires Valid() && k < |phases| && DoneBefore(k) && run in phases[k]
      ensures EarlierFinished(phases, log, run)
    {
      forall l, m, i | 0 <= l < m < |phases| && run in phases[m] && i in phases[l] ensures Finished(i) in log {
        assert m == k;
        assert ValidRun(runs[i], i, log);
      }
    }

    /** `run.start()` for a run of phase `k`, after the other threads have moved. */
    method StartNext(k: nat, i: nat)
      requires Valid() && k < |phases| && DoneBefore(k) && i in phases[k] && SawFlag !in log
      requires i < |runs| && !runs[i].started
      modifies `runs, `flag, `reason, `log
      ensures Valid() && |runs| == |old(runs)| && SawFlag !in log && runs[i].started
      ensures forall j :: 0 <= j < |runs| && j != i ==> Later(old(runs)[j], runs[j])
      ensures reason == Some(TimedOut) ==> old(reason) == Some(TimedOut)
    {
      Interleave();
      CanStart(k, i);
      Start(i);
    }

    /** `for run in phase_runs: run.start()`. */
    method StartPhase(k: nat)
      requires Valid() && k < |phases| && DoneBefore(k) && FreshFrom(k) && SawFlag !in log
      modifies `runs, `flag, `reason, `log
      ensures Valid() && |runs| == |old(runs)| && DoneBefore(k) && FreshFrom(k + 1) && SawFlag !in log
      ensures forall i :: i in phases[k] ==> runs[i].started
      ensures reason == Some(TimedOut) ==> old(reason) == Some(TimedOut)
    {
      var phase := phases[k];
      for a := 0 to |phase|
        invariant Valid() && |runs| == |old(runs)| && DoneBefore(k) && FreshFrom(k + 1) && SawFlag !in log
        invariant forall b :: 0 <= b < |phase| ==> (runs[phase[b]].started <==> b < a)
        invariant reason == Some(TimedOut) ==> old(reason) == Some(TimedOut)
      {
        StartNext(k, phase[a]);
      }
    }

    /** One phase: every run of it is started, then waited for. */
    method RunPhase(k: nat, deadline: real)
      requires Valid() && k < |phases| && DoneBefore(k) && FreshFrom(k) && SawFlag !in log
      modifies `runs, `flag, `reason, `log, `now
      ensures Valid() && |runs| == |old(runs)| && FreshFrom(k + 1) && SawFlag !in log
      ensures flag || DoneBefore(k + 1)
      ensures reason == Some(TimedOut) ==> old(reason) == Some(TimedOut) || now >= deadline
      ensures old(now) <= now <= Max(old(now), deadline + 0.01)
    {
      StartPhase(k);
      WaitForPhase(phases[k], deadline);
    }

    ghost predicate AllDone()
      reads this
    {
      forall i :: 0 <= i < |runs| ==> runs[i].started && !runs[i].alive
    }

    lemma LastPhaseDone()
      requires Valid() && DoneBefore(|phases|)
      ensures AllDone()
    {
      forall i | 0 <= i < |runs| ensures runs[i].started && !runs[i].alive { assert Placed(phases, i); }
    }

    lemma NoneStarted()
      requires Valid() && FreshFrom(0)
      ensures forall i :: 0 <= i < |runs| ==> !runs[i].started
    {
      forall i | 0 <= i < |runs| ensures !runs[i].started { assert Placed(phases, i); }
    }

    /** The loop over the phases, and the flush when it was cut short. */
    method RunPhases(deadline: real)
      requires Valid() && log == []
      modifies `runs, `flag, `reason, `log, `now
      ensures Valid() && |runs| == |old(runs)|
      ensures flag || AllDone()
      ensures reason == Some(TimedOut) ==> old(reason) == Some(TimedOut) || now >= deadline
      ensures old(now) <= now <= Max(old(now), deadline + 0.01) + FLUSH_GRACE_SECONDS
      ensures (exists i :: 0 <= i < |runs| && runs[i].alive) ==> now >= old(now) + FLUSH_GRACE_SECONDS
      ensures old(flag) ==> flag && forall i :: 0 <= i < |runs| ==> !runs[i].started
    {
      var k := 0;
      while k < |phases|
        invariant k <= |phases| && Valid() && |runs| == |old(runs)|
        invariant FreshFrom(k) && SawFlag !in log && (flag || DoneBefore(k))
        invariant reason == Some(TimedOut) ==> old(reason) == Some(TimedOut) || now >= deadline
        invariant old(now) <= now <= Max(old(now), deadline + 0.01)
        invariant old(flag) ==> flag && k == 0
      {
        var cancelled := SeesFlag();
        if cancelled { break; }
        RunPhase(k, deadline);
        k := k + 1;
      }
      if !flag { LastPhaseDone(); }
      if k == 0 { NoneStarted(); }
      var cancelled := IsSet();
      if cancelled {
        FlushInterrupted();
      }
    }

    /** `for run in runs: if run.error is not None: raise run.error`. */
    method FirstError() returns (error: Option<string>)
      requires Valid() && (flag || AllDone())
      modifies `runs, `flag, `reason, `log
      ensures Valid() && Meanwhile(false)
      ensures error.Some? ==> exists i :: 0 <= i < |runs| && runs[i].error == error
      ensures error == None && !flag ==> forall i :: 0 <= i < |runs| ==> runs[i].error == None
    {
      for i := 0 to |runs|
        invariant Valid() && Meanwhile(false) && (flag || AllDone())
        invariant !flag ==> forall j :: 0 <= j < i ==> runs[j].error == None
      {
        Interleave();
        if runs[i].error.Some? { return runs[i].error; }
      }
      return None;
    }

    /** The terminal status of every section; the section of a thread that is
        still alive is taken as it is now. */
    method Settle(status: ProbeStatus) returns (sections: seq<Section>)
      requires Valid()
      modifies `runs, `flag, `reason, `log
      ensures Valid() && |sections| == |runs| == |old(runs)|
      ensures old(reason).Some? ==> reason == old(reason)
      ensures forall i :: 0 <= i < |runs| ==> Settled(old(runs)[i], runs[i], status, sections[i])
    {
      sections := [];
      for i := 0 to |runs|
        invariant Valid() && |sections| == i && |runs| == |old(runs)|
        invariant old(reason).Some? ==> reason == old(reason)
        invariant forall j :: 0 <= j < i ==> Settled(old(runs)[j], runs[j], status, sections[j])
        invariant forall j :: i <= j < |runs| ==> Later(old(runs)[j], runs[j])
      {
        Interleave();
        var section := FinalSection(runs[i], status);
        sections := sections + [section];
        runs := runs[i := runs[i].(section := section)];
      }
    }

    /** `run_probe`. */
    method RunProbe(timeout: real) returns (outcome: Outcome)
      requires Valid() && log == []
      modifies `runs, `flag, `reason, `log, `now
      ensures Valid() && |runs| == |old(runs)| && PhaseOrdered(phases, log)
      ensures now <= Max(old(now), old(now) + timeout + 0.01) + FLUSH_GRACE_SECONDS
      ensures (exists i :: 0 <= i < |runs| && runs[i].alive) ==> now >= old(now) + FLUSH_GRACE_SECONDS
      ensures old(flag) ==> forall i :: 0 <= i < |runs| ==> !runs[i].started
      ensures outcome.Raised? ==> exists i :: 0 <= i < |runs| && runs[i].error == Some(outcome.error)
      ensures outcome.Written? ==>
        && |outcome.sections| == |runs|
        && (forall i :: 0 <= i < |runs| ==>
              SchemaSection(outcome.sections[i]) && (outcome.sections[i].status == NotStarted <==> !runs[i].started))
      ensures outcome.Written? && outcome.status == Complete ==>
        AllDone() && forall i :: 0 <= i < |runs| ==> runs[i].error == None && runs[i].section == outcome.sections[i]
      ensures outcome.Written? && outcome.status.Interrupted? ==> reason == Some(outcome.status.reason)
      ensures outcome.Written? && outcome.status == Interrupted(TimedOut) ==>
        old(reason) == Some(TimedOut) || now >= old(now) + timeout
    {
      RunPhases(now + timeout);
      Interleave();
      if reason == None {
        var error := FirstError();
        if error.Some? { return Raised(error.value); }
      }
      Interleave();
      var status := if reason.Some? then Interrupted(reason.value) else Complete;
      var sections := Settle(status);
      return Written(status, sections);
    }
  }

  /** A run between the moment its section was settled and now. */
  predicate Settled(before: ValidatorRun, after: ValidatorRun, status: ProbeStatus, section: Section) {
    && after.started == before.started && (after.alive ==> before.alive)
    && (!before.alive ==> after.error == before.error && after.section == section == FinalSection(before, status))
    && SchemaSection(section) && (section.status == NotStarted <==> !before.started)
  }

  lemma PhasesCover()
    ensures Phased(PHASES, 4)
  {
    assert 0 in PHASES[0] && 1 in PHASES[0] && 2 in PHASES[1] && 3 in PHASES[2];
    assert forall i :: 0 <= i < 4 ==> Placed(PHASES, i);
  }

  /** The four validators in their three phases. */
  method ProbeNode(timeout: real, now: real) returns (p: Probe, outcome: Outcome)
    ensures fresh(p) && |p.runs| == 4 && p.phases == [[0, 1], [2], [3]] && PhaseOrdered([[0, 1], [2], [3]], p.log)
    ensures p.now <= (if timeout > -0.01 then now + timeout + 0.01 else now) + 5.0
    ensures outcome.Written? && outcome.status == Complete ==> p.AllDone()
    ensures outcome.Written? && outcome.status == Interrupted(TimedOut) ==> p.now >= now + timeout
  {
    PhasesCover();
    p := new Probe(PHASES, 4, now);
    outcome := p.RunProbe(timeout);
  }

  function Min(a: real, b: real): real { if a < b then a else b }
  function Max(a: real, b: real): real { if a < b then b else a }

  /** How many 10 ms are left before the deadline, rounded up. */
  ghost function Ticks(now: real, deadline: real): nat {
    if now < deadline then ((deadline - now) * 100.0).Floor + 1 else 0
  }

  lemma TicksFall(t: real, now: real, deadline: real)
    ensures t < deadline && t + 0.01 <= now ==> Ticks(now, deadline) < Ticks(t, deadline)
  {
  }
}
