/** Phase A of the VLAN neighbor validator (`run` in
    charm/payload/vlan_neighbor_validator.py): while the passive capture runs,
    every expected peer is arping'ed, sweep after sweep, until the window closes
    or the cancellation flag is seen.

    What each check before a probe finds, which probes are answered, and when a
    sweep is over are the answers of an `Air`. */
module VlanSweep {
  import opened PeerSets

  const WINDOW_SECONDS := 30.0
  const SWEEP_INTERVAL_SECONDS := 5.0
  const MAX_SWEEPS := 7

  /** A probe's (interface, peer). */
  type Key = (string, string)
  type ArpAnswers = map<Key, bool>

  /** What the check before a probe finds: nothing, that the capture has lasted
      long enough, or the flag. */
  datatype Look = Clear | OutOfTime | Flagged

  /** `look` by sweep, plan and peer, `answered` by sweep and place in it,
      `elapsed` and `flagged` by sweep: the clock when its probes are reaped, and
      whether the wait for the next one sees the flag. */
  datatype Air = Air(
    look: (nat, nat, nat) -> Look, answered: (nat, nat) -> bool, elapsed: nat -> real, flagged: nat -> bool)

  function Min(a: real, b: real): real { if a < b then a else b }

  /** A wait that is not cut short by the flag takes its time. */
  ghost predicate Timed(air: Air) {
    && air.elapsed(0) >= 0.0
    && forall s: nat :: air.elapsed(s) < WINDOW_SECONDS && !air.flagged(s) ==>
         air.elapsed(s + 1) >= air.elapsed(s) + Min(SWEEP_INTERVAL_SECONDS, WINDOW_SECONDS - air.elapsed(s))
  }

  // ----- one sweep ----------------------------------------------------------

  /** How many of the first `n` peers of plan `i` sweep `s` probes: those before
      the first check that is not clear. */
  function Reached(air: Air, s: nat, i: nat, n: nat): (k: nat)
    ensures k <= n && (forall j :: 0 <= j < k ==> air.look(s, i, j) == Clear)
    ensures k < n ==> air.look(s, i, k) != Clear
  {
    if n == 0 then 0
    else
      var k := Reached(air, s, i, n - 1);
      if k == n - 1 && air.look(s, i, k) == Clear then n else k
  }

  predicate StopsIn(air: Air, s: nat, plan: Plan, i: nat) {
    var k := Reached(air, s, i, |plan.expected|);
    k < |plan.expected| && air.look(s, i, k) == Flagged
  }

  /** The sweep sees the flag before a probe of one of these plans. */
  predicate SeesFlag(air: Air, s: nat, plans: seq<Plan>) {
    exists i :: 0 <= i < |plans| && StopsIn(air, s, plans[i], i)
  }

  function KeysOf(plan: Plan, n: nat): seq<Key>
    requires n <= |plan.expected|
  {
    seq(n, j requires 0 <= j < n => (plan.interface, plan.expected[j].systemId))
  }

  /** The probes of sweep `s`, in order.  Time running out ends a plan's probes;
      the flag ends the sweep. */
  function Made(air: Air, s: nat, plans: seq<Plan>): seq<Key> {
    if plans == [] then []
    else
      var i := |plans| - 1;
      Made(air, s, plans[..i])
      + if SeesFlag(air, s, plans[..i]) then [] else KeysOf(plans[i], Reached(air, s, i, |plans[i].expected|))
  }

  /** Peer `j` of plan `i` is probed: every check of its plan up to it is clear,
      and no earlier plan's probes met the flag. */
  predicate Probed(air: Air, s: nat, plans: seq<Plan>, i: nat, j: nat)
    requires i < |plans|
  {
    j < Reached(air, s, i, |plans[i].expected|) && !SeesFlag(air, s, plans[..i])
  }

  /** A check of the plan finds the flag, and the checks before it nothing. */
  predicate MeetsFlag(air: Air, s: nat, plans: seq<Plan>, i: nat, j: nat) {
    && i < |plans| && j < |plans[i].expected| && air.look(s, i, j) == Flagged
    && forall k :: 0 <= k < j ==> air.look(s, i, k) == Clear
  }

  lemma FlagMeaning(air: Air, s: nat, plans: seq<Plan>)
    ensures SeesFlag(air, s, plans) <==> exists i: nat, j: nat :: MeetsFlag(air, s, plans, i, j)
  {
    if i: nat, j: nat :| MeetsFlag(air, s, plans, i, j) {
      ReachedIs(air, s, i, j, |plans[i].expected|);
      assert StopsIn(air, s, plans[i], i);
    }
    if i :| 0 <= i < |plans| && StopsIn(air, s, plans[i], i) {
      assert MeetsFlag(air, s, plans, i, Reached(air, s, i, |plans[i].expected|));
    }
  }

  lemma ReachedIs(air: Air, s: nat, i: nat, j: nat, n: nat)
    requires j < n && air.look(s, i, j) != Clear && forall k :: 0 <= k < j ==> air.look(s, i, k) == Clear
    ensures Reached(air, s, i, n) == j
  {
    var k := Reached(air, s, i, n);
    assert k > j ==> air.look(s, i, j) == Clear;
  }

  /** A peer is probed when the checks of its plan up to it are clear and no earlier
      plan met the flag; a plan out of time stops none but itself. */
  lemma ProbedMeaning(air: Air, s: nat, plans: seq<Plan>, i: nat, j: nat)
    requires i < |plans| && j < |plans[i].expected|
    ensures Probed(air, s, plans, i, j) <==>
      && (forall k :: 0 <= k <= j ==> air.look(s, i, k) == Clear)
      && forall h: nat, k: nat :: h < i ==> !MeetsFlag(air, s, plans, h, k)
  {
    FlagMeaning(air, s, plans[..i]);
    forall h: nat, k: nat | h < i ensures MeetsFlag(air, s, plans, h, k) <==> MeetsFlag(air, s, plans[..i], h, k) { }
    var n := |plans[i].expected|;
    if (forall k :: 0 <= k <= j ==> air.look(s, i, k) == Clear) && Reached(air, s, i, n) <= j {
      assert air.look(s, i, Reached(air, s, i, n)) != Clear;
    }
  }

  predicate IsProbe(air: Air, s: nat, plans: seq<Plan>, i: nat, j: nat, key: Key) {
    && i < |plans| && j < |plans[i].expected|
    && key == (plans[i].interface, plans[i].expected[j].systemId) && Probed(air, s, plans, i, j)
  }

  lemma ProbeOfPrefix(air: Air, s: nat, plans: seq<Plan>, i: nat, j: nat, key: Key)
    requires i < |plans| - 1
    ensures IsProbe(air, s, plans[..|plans| - 1], i, j, key) <==> IsProbe(air, s, plans, i, j, key)
  {
    var before := plans[..|plans| - 1];
    assert before[..i] == plans[..i] && before[i] == plans[i];
  }

  /** The probes of the last plan. */
  lemma ProbeOfLast(air: Air, s: nat, plans: seq<Plan>, key: Key)
    requires plans != []
    ensures var n := |plans| - 1;
      !SeesFlag(air, s, plans[..n]) && key in KeysOf(plans[n], Reached(air, s, n, |plans[n].expected|)) <==>
      exists j: nat :: IsProbe(air, s, plans, n, j, key)
  {
    var n := |plans| - 1;
    var keys := KeysOf(plans[n], Reached(air, s, n, |plans[n].expected|));
    if !SeesFlag(air, s, plans[..n]) && key in keys {
      var j: nat :| j < |keys| && keys[j] == key;
      assert IsProbe(air, s, plans, n, j, key);
    }
    if j: nat :| IsProbe(air, s, plans, n, j, key) { assert keys[j] == key; }
  }

  lemma {:induction false} MadeMeaning(air: Air, s: nat, plans: seq<Plan>, key: Key)
    ensures key in Made(air, s, plans) <==> exists i: nat, j: nat :: IsProbe(air, s, plans, i, j, key)
  {
    if plans != [] {
      var n := |plans| - 1;
      MadeMeaning(air, s, plans[..n], key);
      ProbeOfLast(air, s, plans, key);
      if i: nat, j: nat :| IsProbe(air, s, plans[..n], i, j, key) { ProbeOfPrefix(air, s, plans, i, j, key); }
      if i: nat, j: nat :| IsProbe(air, s, plans, i, j, key) {
        if i < n { ProbeOfPrefix(air, s, plans, i, j, key); }
      }
    }
  }

  /** A sweep all of whose checks are clear probes every expected peer. */
  lemma ClearSweep(air: Air, s: nat, plans: seq<Plan>)
    requires forall i: nat, j: nat :: i < |plans| && j < |plans[i].expected| ==> air.look(s, i, j) == Clear
    ensures !SeesFlag(air, s, plans)
    ensures forall i: nat, j: nat :: i < |plans| && j < |plans[i].expected| ==>
      (plans[i].interface, plans[i].expected[j].systemId) in Made(air, s, plans)
  {
    forall i: nat, j: nat | i < |plans| && j < |plans[i].expected|
      ensures (plans[i].interface, plans[i].expected[j].systemId) in Made(air, s, plans)
    {
      var key := (plans[i].interface, plans[i].expected[j].systemId);
      assert IsProbe(air, s, plans, i, j, key);
      MadeMeaning(air, s, plans, key);
    }
  }

  /** The probes of one plan that are spawned, and whether the flag stopped them. */
  method SpawnPlan(air: Air, s: nat, plan: Plan, i: nat) returns (keys: seq<Key>, flagged: bool)
    ensures keys == KeysOf(plan, Reached(air, s, i, |plan.expected|))
    ensures flagged <==> StopsIn(air, s, plan, i)
  {
    keys, flagged := [], false;
    for j := 0 to |plan.expected|
      invariant Reached(air, s, i, j) == j && keys == KeysOf(plan, j) && !flagged
    {
      var look := air.look(s, i, j);
      if look != Clear {
        StopsAtFirst(air, s, i, j, |plan.expected|);
        return keys, look == Flagged;
      }
      keys := keys + [(plan.interface, plan.expected[j].systemId)];
    }
  }

  lemma {:induction false} StopsAtFirst(air: Air, s: nat, i: nat, j: nat, n: nat)
    requires j < n && Reached(air, s, i, j) == j && air.look(s, i, j) != Clear
    ensures Reached(air, s, i, n) == j
  {
    if n > j + 1 { StopsAtFirst(air, s, i, j, n - 1); }
  }

  lemma FlagStep(air: Air, s: nat, before: seq<Plan>, last: Plan)
    ensures SeesFlag(air, s, before + [last]) <==> SeesFlag(air, s, before) || StopsIn(air, s, last, |before|)
  {
    var plans := before + [last];
    if i :| 0 <= i < |plans| && StopsIn(air, s, plans[i], i) {
      assert i < |before| ==> before[i] == plans[i];
    }
    if i :| 0 <= i < |before| && StopsIn(air, s, before[i], i) { assert plans[i] == before[i]; }
    if StopsIn(air, s, last, |before|) { assert plans[|before|] == last; }
  }

  lemma MadeStep(air: Air, s: nat, before: seq<Plan>, last: Plan)
    requires !SeesFlag(air, s, before)
    ensures Made(air, s, before + [last])
            == Made(air, s, before) + KeysOf(last, Reached(air, s, |before|, |last.expected|))
  {
    assert (before + [last])[..|before|] == before;
  }

  /** One sweep's probes, all spawned before any is reaped. */
  method Spawn(air: Air, s: nat, plans: seq<Plan>) returns (keys: seq<Key>, flagged: bool)
    ensures keys == Made(air, s, plans)
    ensures flagged <==> SeesFlag(air, s, plans)
  {
    keys, flagged := [], false;
    for i := 0 to |plans|
      invariant keys == Made(air, s, plans[..i]) && !flagged && !SeesFlag(air, s, plans[..i])
    {
      var more;
      more, flagged := SpawnPlan(air, s, plans[i], i);
      FlagStep(air, s, plans[..i], plans[i]);
      MadeStep(air, s, plans[..i], plans[i]);
      assert plans[..i + 1] == plans[..i] + [plans[i]];
      keys := keys + more;
      if flagged {
        StoppedEarly(air, s, plans, i + 1);
        return;
      }
    }
    assert plans[..|plans|] == plans;
  }

  lemma FlagStays(air: Air, s: nat, plans: seq<Plan>)
    requires plans != [] && SeesFlag(air, s, plans[..|plans| - 1])
    ensures SeesFlag(air, s, plans) && Made(air, s, plans) == Made(air, s, plans[..|plans| - 1])
  {
    var n := |plans| - 1;
    var k :| 0 <= k < n && StopsIn(air, s, plans[..n][k], k);
    assert plans[..n][k] == plans[k];
  }

  lemma {:induction false} StoppedEarly(air: Air, s: nat, plans: seq<Plan>, i: nat)
    requires i <= |plans| && SeesFlag(air, s, plans[..i])
    ensures SeesFlag(air, s, plans) && Made(air, s, plans) == Made(air, s, plans[..i])
    decreases |plans| - i
  {
    if i == |plans| {
      assert plans[..i] == plans;
    } else {
      assert plans[..i + 1][..i] == plans[..i];
      FlagStays(air, s, plans[..i + 1]);
      StoppedEarly(air, s, plans, i + 1);
    }
  }

  // ----- all sweeps ---------------------------------------------------------

  /** A probe of the key was answered in one of the first `n` sweeps. */
  ghost predicate Answered(air: Air, plans: seq<Plan>, n: nat, key: Key) {
    exists s, k :: 0 <= s < n && AnsweredAt(air, plans, s, k, key)
  }

  predicate AnsweredAt(air: Air, plans: seq<Plan>, s: nat, k: nat, key: Key) {
    k < |Made(air, s, plans)| && Made(air, s, plans)[k] == key && air.answered(s, k)
  }

  ghost predicate Attempted(air: Air, plans: seq<Plan>, n: nat, key: Key) {
    exists s :: 0 <= s < n && key in Made(air, s, plans)
  }

  /** What `n` sweeps leave in `attempted` and `arp_observed`. */
  ghost predicate Swept(air: Air, plans: seq<Plan>, n: nat, attempted: set<Key>, arp: ArpAnswers) {
    && (forall key :: key in attempted <==> Attempted(air, plans, n, key))
    && arp.Keys == attempted
    && (forall key :: Observed(arp, key) <==> Answered(air, plans, n, key))
  }

  function Distinct(keys: seq<Key>): set<Key> { set key | key in keys }

  /** A probe of the key among the first `n` of a sweep was answered. */
  ghost predicate SeenIn(air: Air, s: nat, keys: seq<Key>, n: nat, key: Key)
    requires n <= |keys|
  {
    exists k :: 0 <= k < n && keys[k] == key && air.answered(s, k)
  }

  predicate Observed(arp: ArpAnswers, key: Key) { key in arp && arp[key] }

  /** `arp_observed[key] = arp_observed.get(key, False) or answered`. */
  function Note(arp: ArpAnswers, key: Key, answered: bool): (r: ArpAnswers)
    ensures forall k :: Observed(r, k) <==> Observed(arp, k) || (k == key && answered)
  {
    arp[key := Observed(arp, key) || answered]
  }

  lemma SeenStep(air: Air, s: nat, keys: seq<Key>, n: nat, key: Key)
    requires n < |keys|
    ensures SeenIn(air, s, keys, n + 1, key) <==> SeenIn(air, s, keys, n, key) || (keys[n] == key && air.answered(s, n))
  {
  }

  /** Reaping the probes of a sweep: an answer once seen stays. */
  method Reap(air: Air, s: nat, keys: seq<Key>, before: ArpAnswers) returns (arp: ArpAnswers)
    ensures arp.Keys == before.Keys + Distinct(keys)
    ensures forall key :: Observed(arp, key) <==> Observed(before, key) || SeenIn(air, s, keys, |keys|, key)
  {
    arp := before;
    for k := 0 to |keys|
      invariant arp.Keys == before.Keys + Distinct(keys[..k])
      invariant forall key :: Observed(arp, key) <==> Observed(before, key) || SeenIn(air, s, keys, k, key)
    {
      assert keys[..k + 1] == keys[..k] + [keys[k]];
      ghost var was := arp;
      arp := Note(arp, keys[k], air.answered(s, k));
      forall key ensures Observed(arp, key) <==> Observed(before, key) || SeenIn(air, s, keys, k + 1, key) {
        assert Observed(was, key) <==> Observed(before, key) || SeenIn(air, s, keys, k, key);
        SeenStep(air, s, keys, k, key);
      }
    }
    assert keys[..|keys|] == keys;
  }

  lemma AttemptedGrows(air: Air, plans: seq<Plan>, n: nat, key: Key)
    ensures Attempted(air, plans, n + 1, key) <==> Attempted(air, plans, n, key) || key in Made(air, n, plans)
  {
  }

  lemma AnsweredLast(air: Air, plans: seq<Plan>, n: nat, key: Key)
    ensures SeenIn(air, n, Made(air, n, plans), |Made(air, n, plans)|, key) <==>
      exists k: nat :: AnsweredAt(air, plans, n, k, key)
  {
    var keys := Made(air, n, plans);
    if k :| 0 <= k < |keys| && keys[k] == key && air.answered(n, k) { assert AnsweredAt(air, plans, n, k, key); }
  }

  lemma AnsweredGrows(air: Air, plans: seq<Plan>, n: nat, key: Key)
    ensures Answered(air, plans, n + 1, key) <==>
      Answered(air, plans, n, key) || SeenIn(air, n, Made(air, n, plans), |Made(air, n, plans)|, key)
  {
    AnsweredLast(air, plans, n, key);
    if s, k :| 0 <= s < n + 1 && AnsweredAt(air, plans, s, k, key) {
      assert s < n ==> Answered(air, plans, n, key);
    }
  }

  lemma AnsweredAttempted(air: Air, plans: seq<Plan>, n: nat, key: Key)
    ensures Answered(air, plans, n, key) ==> Attempted(air, plans, n, key)
  {
    if s, k :| 0 <= s < n && AnsweredAt(air, plans, s, k, key) { assert key in Made(air, s, plans); }
  }

  lemma OneMoreSweep(
    air: Air, plans: seq<Plan>, n: nat, attempted: set<Key>, arp: ArpAnswers, keys: seq<Key>, arp': ArpAnswers)
    requires Swept(air, plans, n, attempted, arp) && keys == Made(air, n, plans)
    requires arp'.Keys == arp.Keys + Distinct(keys)
    requires forall key :: Observed(arp', key) <==> Observed(arp, key) || SeenIn(air, n, keys, |keys|, key)
    ensures Swept(air, plans, n + 1, attempted + Distinct(keys), arp')
  {
    forall key
      ensures Attempted(air, plans, n + 1, key) <==> Attempted(air, plans, n, key) || key in keys
      ensures Answered(air, plans, n + 1, key) <==> Answered(air, plans, n, key) || SeenIn(air, n, keys, |keys|, key)
      ensures Answered(air, plans, n, key) ==> key in attempted
    {
      AttemptedGrows(air, plans, n, key);
      AnsweredGrows(air, plans, n, key);
      AnsweredAttempted(air, plans, n, key);
    }
  }

  /** Another sweep follows sweep `s`. */
  predicate GoesOn(air: Air, plans: seq<Plan>, s: nat) {
    !SeesFlag(air, s, plans) && air.elapsed(s) < WINDOW_SECONDS && !air.flagged(s)
  }

  /** Five seconds pass from sweep to sweep, or the window closes. */
  lemma {:induction false} TimePasses(air: Air, plans: seq<Plan>, n: nat)
    requires Timed(air) && forall s :: 0 <= s < n ==> GoesOn(air, plans, s)
    ensures air.elapsed(n) >= Min(n as real * SWEEP_INTERVAL_SECONDS, WINDOW_SECONDS)
  {
    if n > 0 {
      TimePasses(air, plans, n - 1);
      assert GoesOn(air, plans, n - 1);
    }
  }

  /** Sweeps that take no time, with five seconds between them. */
  function Steady(): Air {
    Air((s, i, j) => Clear, (s, k) => true, s => 5.0 * s as real, s => false)
  }

  /** Seven sweeps are not too many to allow for: the window of thirty seconds
      holds that many, however many peers there are. */
  lemma SevenSweepsFit(plans: seq<Plan>)
    ensures Timed(Steady())
    ensures forall s: nat :: GoesOn(Steady(), plans, s) <==> s < 6
  {
    forall s: nat ensures !SeesFlag(Steady(), s, plans) { }
  }

  /** Phase A, after `n` sweeps, of which only the last could be the last. */
  ghost predicate PhaseA(
    air: Air, plans: seq<Plan>, n: nat, interrupted: bool, attempted: set<Key>, arp: ArpAnswers)
  {
    && 0 < n <= 7 && Swept(air, plans, n, attempted, arp)
    && (forall s :: 0 <= s < n - 1 ==> GoesOn(air, plans, s)) && !GoesOn(air, plans, n - 1)
    && (interrupted <==>
         SeesFlag(air, n - 1, plans) || (air.elapsed(n - 1) < WINDOW_SECONDS && air.flagged(n - 1)))
  }

  /** One pass of the loop, up to where its probes are reaped. */
  method SweepOnce(air: Air, plans: seq<Plan>, s: nat, before: set<Key>, arpBefore: ArpAnswers)
    returns (flagged: bool, attempted: set<Key>, arp: ArpAnswers)
    requires Swept(air, plans, s, before, arpBefore)
    ensures Swept(air, plans, s + 1, attempted, arp) && (flagged <==> SeesFlag(air, s, plans))
  {
    var keys;
    keys, flagged := Spawn(air, s, plans);
    arp := Reap(air, s, keys, arpBefore);
    OneMoreSweep(air, plans, s, before, arpBefore, keys, arp);
    attempted := before + Distinct(keys);
  }

  /** Sweeps before the seventh leave time. */
  lemma SweepsLeft(air: Air, plans: seq<Plan>, s: nat)
    requires Timed(air) && forall r :: 0 <= r < s ==> GoesOn(air, plans, r)
    ensures air.elapsed(s) < WINDOW_SECONDS ==> s < MAX_SWEEPS - 1
  {
    TimePasses(air, plans, s);
  }

  lemma LastSweep(
    air: Air, plans: seq<Plan>, s: nat, interrupted: bool, attempted: set<Key>, arp: ArpAnswers)
    requires s < MAX_SWEEPS && Swept(air, plans, s + 1, attempted, arp)
    requires (forall r :: 0 <= r < s ==> GoesOn(air, plans, r)) && !GoesOn(air, plans, s)
    requires interrupted <==> SeesFlag(air, s, plans) || (air.elapsed(s) < WINDOW_SECONDS && air.flagged(s))
    ensures PhaseA(air, plans, s + 1, interrupted, attempted, arp)
  {
  }

  /** The loop of phase A: it ends after at most seven sweeps; a peer is
      attempted when some sweep probed it, and its ARP observed when some probe of
      some sweep was answered. */
  method SweepUntilClosed(air: Air, plans: seq<Plan>)
    returns (interrupted: bool, attempted: set<Key>, arp: ArpAnswers, ghost n: nat)
    requires Timed(air)
    ensures PhaseA(air, plans, n, interrupted, attempted, arp)
  {
    interrupted, attempted, arp := false, {}, map[];
    var s := 0;
    while true
      invariant !interrupted && Swept(air, plans, s, attempted, arp)
      invariant s < MAX_SWEEPS && forall r :: 0 <= r < s ==> GoesOn(air, plans, r)
      decreases MAX_SWEEPS - s
    {
      interrupted, attempted, arp := SweepOnce(air, plans, s, attempted, arp);
      if !interrupted && air.elapsed(s) < WINDOW_SECONDS {
        interrupted := air.flagged(s);
        if !interrupted {
          SweepsLeft(air, plans, s);
          s := s + 1;
          continue;
        }
      }
      LastSweep(air, plans, s, interrupted, attempted, arp);
      return interrupted, attempted, arp, s + 1;
    }
  }
}
