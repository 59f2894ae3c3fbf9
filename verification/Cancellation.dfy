/** The shared cancellation flag and process registry
    (`Cancellation` in charm/payload/probe_runner.py) under arbitrary
    interleavings: any number of threads call `register`, `cancel` and
    `terminate_processes`, one atomic action at a time. */
module Cancellation {
  import opened Order
  import opened ProbeOutput

  type Pid = nat
  type Tid = nat

  /** Which call a thread that is terminating processes is inside of. */
  datatype Call = ByRegister(p: Pid) | BySweep

  /** Where a thread is.  `Locked` to `Copied` hold the lock. */
  datatype Pc =
    | Idle
    | RegisterEnter(p: Pid)
    | RegisterLocked(p: Pid)
    | RegisterAppended(p: Pid)
    | RegisterRead(p: Pid, cancelled: bool)
    | CancelEnter(reason: Reason)
    | CancelLocked(reason: Reason)
    | CancelWritten
    | SetPending
    | SweepEnter
    | SweepLocked
    | SweepCopied(todo: seq<Pid>)
    | Terminating(call: Call, todo: seq<Pid>, polledRunning: bool)

  /** The object, and what is known of the world around it: `exited` and
      `signalled` are facts about the processes; `returned` holds the processes
      whose register has returned, `copied` whether the registry was ever
      copied, `swept` whether a cancel or terminate_processes has returned. */
  datatype Shared = Shared(
    processes: seq<Pid>, flag: bool, reason: Option<Reason>, lock: Option<Tid>,
    exited: set<Pid>, signalled: set<Pid>, returned: set<Pid>, copied: bool, swept: bool)

  datatype State = State(shared: Shared, threads: map<Tid, Pc>)

  datatype Operation = Register(p: Pid) | Cancel(reason: Reason) | TerminateProcesses

  predicate Init(s: State) {
    && (forall t :: t in s.threads ==> s.threads[t] == Idle)
    && s.shared == Shared([], false, None, None, s.shared.exited, {}, {}, false, false)
  }

  /** An idle thread enters a call; terminate_processes is only called with the
      flag set. */
  predicate Enter(s: State, s': State, t: Tid, op: Operation) {
    && t in s.threads && s.threads[t] == Idle
    && (op == TerminateProcesses ==> s.shared.flag)
    && s' == s.(threads := s.threads[t := Entry(op)])
  }

  function Entry(op: Operation): Pc {
    match op
    case Register(p) => RegisterEnter(p)
    case Cancel(r) => CancelEnter(r)
    case TerminateProcesses => SweepEnter
  }

  /** The next atomic action of thread `t` at `pc`; None while it waits for the
      lock, or is not inside a call. */
  function Act(g: Shared, t: Tid, pc: Pc): Option<(Shared, Pc)> {
    match pc
    case Idle => None
    case RegisterEnter(p) => if g.lock == None then Some((g.(lock := Some(t)), RegisterLocked(p))) else None
    case RegisterLocked(p) => Some((g.(processes := g.processes + [p]), RegisterAppended(p)))
    case RegisterAppended(p) => Some((g, RegisterRead(p, g.flag)))
    case RegisterRead(p, cancelled) =>
      if cancelled then Some((g.(lock := None), Terminating(ByRegister(p), [p], false)))
      else Some((g.(lock := None, returned := g.returned + {p}), Idle))
    case CancelEnter(r) => if g.lock == None then Some((g.(lock := Some(t)), CancelLocked(r))) else None
    case CancelLocked(r) => Some((g.(reason := if g.reason == None then Some(r) else g.reason), CancelWritten))
    case CancelWritten => Some((g.(lock := None), SetPending))
    case SetPending => Some((g.(flag := true), SweepEnter))
    case SweepEnter => if g.lock == None then Some((g.(lock := Some(t)), SweepLocked)) else None
    case SweepLocked => Some((g.(copied := true), SweepCopied(g.processes)))
    case SweepCopied(todo) => Some((g.(lock := None), Terminating(BySweep, todo, false)))
    case Terminating(call, todo, running) =>
      if todo == [] then
        Some((match call
              case ByRegister(p) => g.(returned := g.returned + {p})
              case BySweep => g.(swept := true), Idle))
      else if running then Some((g.(signalled := g.signalled + {todo[0]}), Terminating(call, todo[1..], false)))
      else if todo[0] in g.exited then Some((g, Terminating(call, todo[1..], false)))
      else Some((g, Terminating(call, todo, true)))
  }

  predicate ThreadStep(s: State, s': State, t: Tid) {
    && t in s.threads
    && var next := Act(s.shared, t, s.threads[t]);
    && next.Some?
    && s' == State(next.value.0, s.threads[t := next.value.1])
  }

  /** A process exits on its own. */
  predicate Exits(s: State, s': State, p: Pid) {
    s' == s.(shared := s.shared.(exited := s.shared.exited + {p}))
  }

  ghost predicate Step(s: State, s': State) {
    || (exists t, op :: Enter(s, s', t, op))
    || (exists t :: ThreadStep(s, s', t))
    || (exists p :: Exits(s, s', p))
  }

  ghost predicate StepAt(trace: seq<State>, i: nat)
    requires i + 1 < |trace|
  {
    Step(trace[i], trace[i + 1])
  }

  /** A run: any interleaving, of any length, from a fresh object. */
  ghost predicate Run(trace: seq<State>) {
    trace != [] && Init(trace[0]) && forall i :: 0 <= i < |trace| - 1 ==> StepAt(trace, i)
  }

  // ----- a call made alone --------------------------------------------------

  /** The next `n` actions of a thread nobody interferes with. */
  function After(g: Shared, t: Tid, pc: Pc, n: nat): Option<(Shared, Pc)>
    decreases n
  {
    if n == 0 then Some((g, pc))
    else
      match Act(g, t, pc)
      case None => None
      case Some(next) => After(next.0, t, next.1, n - 1)
  }

  /** The processes of the list that are still running. */
  function StillRunning(g: Shared, todo: seq<Pid>): set<Pid> { set p | p in todo && p !in g.exited }

  function SweptClean(g: Shared): Shared {
    g.(copied := true, swept := true, signalled := g.signalled + StillRunning(g, g.processes))
  }

  /** What a call is for: registering a process, which is terminated at once when
      the flag is set already; setting the flag, with the first reason given, and
      terminating what is registered and still running; or only the latter. */
  function Effect(g: Shared, op: Operation): Shared {
    match op
    case Register(p) =>
      g.(processes := g.processes + [p], returned := g.returned + {p},
         signalled := g.signalled + if g.flag then StillRunning(g, [p]) else {})
    case Cancel(reason) =>
      SweptClean(g.(flag := true, reason := if g.reason == None then Some(reason) else g.reason))
    case TerminateProcesses => SweptClean(g)
  }

  lemma {:induction false} TerminatesAll(g: Shared, t: Tid, call: Call, todo: seq<Pid>) returns (n: nat)
    ensures After(g, t, Terminating(call, todo, false), n)
            == Some((g.(signalled := g.signalled + StillRunning(g, todo)), Terminating(call, [], false)))
    decreases |todo|
  {
    if todo == [] {
      n := 0;
      assert g.signalled + StillRunning(g, []) == g.signalled;
    } else {
      var p, rest := todo[0], todo[1..];
      var g1 := if p in g.exited then g else g.(signalled := g.signalled + {p});
      n := TerminatesAll(g1, t, call, rest);
      assert g1.signalled + StillRunning(g1, rest) == g.signalled + StillRunning(g, todo);
      if p in g.exited {
        n := n + 1;
      } else {
        assert After(g, t, Terminating(call, todo, true), n + 1) == After(g1, t, Terminating(call, rest, false), n);
        n := n + 2;
      }
    }
  }

  lemma {:induction false} AfterMore(g: Shared, t: Tid, pc: Pc, n: nat, m: nat)
    requires After(g, t, pc, n).Some?
    ensures After(g, t, pc, n + m) == var (g', pc') := After(g, t, pc, n).value; After(g', t, pc', m)
    decreases n
  {
    if n > 0 {
      var next := Act(g, t, pc).value;
      AfterMore(next.0, t, next.1, n - 1, m);
    }
  }

  lemma OneAction(g: Shared, t: Tid, pc: Pc, g': Shared, pc': Pc, n: nat)
    requires Act(g, t, pc) == Some((g', pc'))
    ensures After(g, t, pc, n + 1) == After(g', t, pc', n)
  {
  }

  lemma SweepAlone(g: Shared, t: Tid) returns (n: nat)
    requires g.lock == None
    ensures After(g, t, SweepEnter, n) == Some((SweptClean(g), Idle))
  {
    var g1, held := g.(copied := true), g.(lock := Some(t));
    OneAction(g, t, SweepEnter, held, SweepLocked, 2);
    OneAction(held, t, SweepLocked, g1.(lock := Some(t)), SweepCopied(g.processes), 1);
    OneAction(g1.(lock := Some(t)), t, SweepCopied(g.processes), g1, Terminating(BySweep, g.processes, false), 0);
    n := TerminatesAll(g1, t, BySweep, g.processes);
    AfterMore(g, t, SweepEnter, 3, n);
    AfterMore(g, t, SweepEnter, 3 + n, 1);
    assert StillRunning(g1, g.processes) == StillRunning(g, g.processes);
    n := 3 + n + 1;
  }

  lemma RegisterAlone(g: Shared, t: Tid, p: Pid) returns (n: nat)
    requires g.lock == None
    ensures After(g, t, RegisterEnter(p), n) == Some((Effect(g, Register(p)), Idle))
  {
    var g1 := g.(processes := g.processes + [p]);
    var held := g1.(lock := Some(t));
    OneAction(g, t, RegisterEnter(p), g.(lock := Some(t)), RegisterLocked(p), 2);
    OneAction(g.(lock := Some(t)), t, RegisterLocked(p), held, RegisterAppended(p), 1);
    OneAction(held, t, RegisterAppended(p), held, RegisterRead(p, g.flag), 0);
    AfterMore(g, t, RegisterEnter(p), 3, 1);
    n := 4;
    if g.flag {
      OneAction(held, t, RegisterRead(p, true), g1, Terminating(ByRegister(p), [p], false), 0);
      var m := TerminatesAll(g1, t, ByRegister(p), [p]);
      AfterMore(g, t, RegisterEnter(p), 4, m);
      AfterMore(g, t, RegisterEnter(p), 4 + m, 1);
      assert StillRunning(g1, [p]) == StillRunning(g, [p]);
      n := 4 + m + 1;
    } else {
      OneAction(held, t, RegisterRead(p, false), g1.(returned := g.returned + {p}), Idle, 0);
      assert g.signalled + {} == g.signalled;
    }
  }

  lemma CancelAlone(g: Shared, t: Tid, r: Reason) returns (n: nat)
    requires g.lock == None
    ensures After(g, t, CancelEnter(r), n) == Some((Effect(g, Cancel(r)), Idle))
  {
    var g1 := g.(reason := if g.reason == None then Some(r) else g.reason);
    OneAction(g, t, CancelEnter(r), g.(lock := Some(t)), CancelLocked(r), 3);
    OneAction(g.(lock := Some(t)), t, CancelLocked(r), g1.(lock := Some(t)), CancelWritten, 2);
    OneAction(g1.(lock := Some(t)), t, CancelWritten, g1, SetPending, 1);
    OneAction(g1, t, SetPending, g1.(flag := true), SweepEnter, 0);
    n := SweepAlone(g1.(flag := true), t);
    AfterMore(g, t, CancelEnter(r), 4, n);
    n := 4 + n;
  }

  /** A thread that nobody interferes with takes every call to its end, with that
      effect. */
  lemma AloneMeaning(g: Shared, t: Tid, op: Operation) returns (n: nat)
    requires g.lock == None
    ensures After(g, t, Entry(op), n) == Some((Effect(g, op), Idle))
  {
    match op
    case Register(p) => n := RegisterAlone(g, t, p);
    case Cancel(r) => n := CancelAlone(g, t, r);
    case TerminateProcesses => n := SweepAlone(g, t);
  }

  /** Any idle thread may make any call, terminate_processes once the flag is set. */
  lemma EnterMeaning(s: State, t: Tid, op: Operation)
    ensures (exists s' :: Enter(s, s', t, op)) <==>
      t in s.threads && s.threads[t] == Idle && (op == TerminateProcesses ==> s.shared.flag)
  {
    if t in s.threads && s.threads[t] == Idle && (op == TerminateProcesses ==> s.shared.flag) {
      assert Enter(s, s.(threads := s.threads[t := Entry(op)]), t, op);
    }
  }

  // ----- invariant ----------------------------------------------------------

  predicate HoldsLock(pc: Pc) {
    pc.RegisterLocked? || pc.RegisterAppended? || pc.RegisterRead? || pc.CancelLocked? || pc.CancelWritten?
    || pc.SweepLocked? || pc.SweepCopied?
  }

  predicate Handled(g: Shared, p: Pid) { p in g.exited || p in g.signalled }

  /** What a program point guarantees of the shared state. */
  predicate PointHolds(g: Shared, pc: Pc) {
    match pc
    case RegisterAppended(p) => p in g.processes
    case RegisterRead(p, cancelled) => p in g.processes && (cancelled ==> g.flag) && (!cancelled ==> !g.copied)
    case CancelWritten => g.reason.Some?
    case SetPending => g.reason.Some?
    case SweepEnter => g.flag
    case SweepLocked => g.flag
    case SweepCopied(todo) => g.copied && forall p :: p in g.returned ==> Handled(g, p) || p in todo
    case Terminating(call, todo, running) =>
      && (running ==> todo != [])
      && (match call
          case ByRegister(p) => p in g.processes && (Handled(g, p) || p in todo)
          case BySweep => g.copied && forall p :: p in g.returned ==> Handled(g, p) || p in todo)
    case _ => true
  }

  /** The lock is held by exactly the one thread that is between acquiring and
      releasing it. */
  ghost predicate LockInv(s: State) {
    && (s.shared.lock.Some? ==> s.shared.lock.value in s.threads)
    && (forall t :: t in s.threads ==> (HoldsLock(s.threads[t]) <==> s.shared.lock == Some(t)))
  }

  ghost predicate PointInv(s: State) {
    forall t :: t in s.threads ==> PointHolds(s.shared, s.threads[t])
  }

  ghost predicate SharedInv(g: Shared) {
    && (g.flag ==> g.reason.Some?)
    && (g.copied ==> g.flag)
    && (g.swept ==> g.copied)
    && (forall p :: p in g.returned ==> p in g.processes)
    && (g.swept ==> forall p :: p in g.returned ==> Handled(g, p))
  }

  ghost predicate Inv(s: State) {
    LockInv(s) && PointInv(s) && SharedInv(s.shared)
  }

  /** What an action may do to the shared state, whoever takes it: nothing is
      forgotten, the registry is first copied under the lock, and a register
      returns only once its process is safe from every copy already taken. */
  ghost predicate Grows(g: Shared, g': Shared, pc: Pc) {
    && (forall p :: p in g.processes ==> p in g'.processes)
    && (g.flag ==> g'.flag) && (g.reason.Some? ==> g'.reason == g.reason)
    && (forall p :: Handled(g, p) ==> Handled(g', p))
    && (g.copied ==> g'.copied)
    && (!g.copied && g'.copied ==> HoldsLock(pc))
    && (forall p :: p in g'.returned ==> p in g.returned || (p in g.processes && (Handled(g, p) || !g.copied)))
  }

  lemma ActGrows(g: Shared, t: Tid, pc: Pc)
    requires Act(g, t, pc).Some? && PointHolds(g, pc)
    ensures Grows(g, Act(g, t, pc).value.0, pc)
  {
  }

  /** An action moves the lock exactly as it moves the program point. */
  lemma ActMovesLock(g: Shared, t: Tid, pc: Pc)
    requires Act(g, t, pc).Some? && (HoldsLock(pc) <==> g.lock == Some(t))
    ensures var (g', pc') := Act(g, t, pc).value;
      && (HoldsLock(pc') <==> g'.lock == Some(t))
      && (g'.lock == g.lock || (g.lock == None && g'.lock == Some(t)) || (g.lock == Some(t) && g'.lock == None))
  {
  }

  lemma ActKeepsOwnPoint(g: Shared, t: Tid, pc: Pc)
    requires Act(g, t, pc).Some? && PointHolds(g, pc) && SharedInv(g)
    ensures PointHolds(Act(g, t, pc).value.0, Act(g, t, pc).value.1)
  {
  }

  lemma OtherPointKept(g: Shared, g': Shared, pc: Pc, other: Pc)
    requires Grows(g, g', pc) && PointHolds(g, other) && !(HoldsLock(pc) && HoldsLock(other))
    ensures PointHolds(g', other)
  {
  }

  lemma ActKeepsShared(g: Shared, t: Tid, pc: Pc)
    requires Act(g, t, pc).Some? && PointHolds(g, pc) && SharedInv(g)
    ensures SharedInv(Act(g, t, pc).value.0)
  {
    ActGrows(g, t, pc);
  }

  lemma ActKeepsInv(s: State, s': State, t: Tid)
    requires Inv(s) && ThreadStep(s, s', t)
    ensures Inv(s')
  {
    var g, pc := s.shared, s.threads[t];
    ActGrows(g, t, pc);
    ActMovesLock(g, t, pc);
    ActKeepsOwnPoint(g, t, pc);
    ActKeepsShared(g, t, pc);
    forall u | u in s'.threads ensures PointHolds(s'.shared, s'.threads[u]) {
      if u != t { OtherPointKept(g, s'.shared, pc, s.threads[u]); }
    }
  }

  lemma EnterKeepsInv(s: State, s': State, t: Tid, op: Operation)
    requires Inv(s) && Enter(s, s', t, op)
    ensures Inv(s')
  {
  }

  lemma ExitKeepsInv(s: State, s': State, p: Pid)
    requires Inv(s) && Exits(s, s', p)
    ensures Inv(s')
  {
    forall t | t in s'.threads ensures PointHolds(s'.shared, s'.threads[t]) {
      OtherPointKept(s.shared, s'.shared, Idle, s.threads[t]);
    }
  }

  /** A reason once given stays, and so does the flag. */
  predicate Latched(g: Shared, g': Shared) {
    (g.reason.Some? ==> g'.reason == g.reason) && (g.flag ==> g'.flag)
  }

  lemma StepKeepsInv(s: State, s': State)
    requires Inv(s) && Step(s, s')
    ensures Inv(s') && Latched(s.shared, s'.shared)
  {
    if t, op :| Enter(s, s', t, op) {
      EnterKeepsInv(s, s', t, op);
    } else if t :| ThreadStep(s, s', t) {
      ActKeepsInv(s, s', t);
      ActGrows(s.shared, t, s.threads[t]);
    } else {
      var p :| Exits(s, s', p);
      ExitKeepsInv(s, s', p);
    }
  }

  lemma {:induction false} InvOverRun(trace: seq<State>, i: nat)
    requires Run(trace) && i < |trace|
    ensures Inv(trace[i])
  {
    if i > 0 {
      InvOverRun(trace, i - 1);
      assert StepAt(trace, i - 1);
      StepKeepsInv(trace[i - 1], trace[i]);
    }
  }

  // ----- results ------------------------------------------------------------

  /** No leaked subprocess: in every interleaving, from the moment a cancel (or
      a sweep) has returned, every process whose register has returned had
      already exited or has been sent terminate. */
  lemma NoLeakedProcess(trace: seq<State>, i: nat, p: Pid)
    requires Run(trace) && i < |trace| && trace[i].shared.swept && p in trace[i].shared.returned
    ensures p in trace[i].shared.exited || p in trace[i].shared.signalled
  {
    InvOverRun(trace, i);
    assert Handled(trace[i].shared, p);
  }

  /** Whoever sees the flag set also sees a reason. */
  lemma FlagHasReason(trace: seq<State>, i: nat)
    requires Run(trace) && i < |trace| && trace[i].shared.flag
    ensures trace[i].shared.reason.Some?
  {
    InvOverRun(trace, i);
  }

  lemma LatchedInOneStep(trace: seq<State>, j: nat)
    requires Run(trace) && 0 < j < |trace|
    ensures Latched(trace[j - 1].shared, trace[j].shared)
  {
    InvOverRun(trace, j - 1);
    assert StepAt(trace, j - 1);
    StepKeepsInv(trace[j - 1], trace[j]);
  }

  /** The first reason wins and the flag stays set: neither ever changes again. */
  lemma {:induction false} FirstReasonWins(trace: seq<State>, i: nat, j: nat)
    requires Run(trace) && i <= j < |trace|
    ensures Latched(trace[i].shared, trace[j].shared)
    decreases j - i
  {
    if i < j {
      FirstReasonWins(trace, i, j - 1);
      LatchedInOneStep(trace, j);
    }
  }

  /** While any thread is inside a call, some thread can advance: the lock never
      deadlocks. */
  lemma NeverDeadlocks(trace: seq<State>, i: nat, t: Tid)
    requires Run(trace) && i < |trace| && t in trace[i].threads && trace[i].threads[t] != Idle
    ensures exists u, s' :: ThreadStep(trace[i], s', u)
  {
    InvOverRun(trace, i);
    var s := trace[i];
    var u := if s.shared.lock.Some? then s.shared.lock.value else t;
    var next := Act(s.shared, u, s.threads[u]);
    assert next.Some?;
    assert ThreadStep(s, State(next.value.0, s.threads[u := next.value.1]), u);
  }
}
