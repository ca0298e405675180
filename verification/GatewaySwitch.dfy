/** `switch` of ocpp-runtime.py: moving the gateway between its two runtimes, with a fault possible
    at every command and a rollback that may fail as well. */
module GatewaySwitch {
  import opened Wrappers

  datatype Runtime = Native | Docker

  function Other(mode: Runtime): Runtime {
    if mode == Native then Docker else Native
  }

  /** The host: the runtime the upstream file names (None for a text `active_mode` does not
      recognise), the one nginx has loaded, and the runtimes that run and that start at boot. */
  datatype Machine = Machine(file: Option<Runtime>, loaded: Runtime, running: set<Runtime>, enabled: set<Runtime>)

  datatype Command =
    | WriteFile(mode: Runtime)
    | StartRuntime(mode: Runtime)
    | AwaitRuntime(mode: Runtime)
    | TestConfig
    | Reload
    | AwaitGateway(mode: Runtime)
    | CheckInternal
    | Enable(mode: Runtime)
    | Disable(mode: Runtime)
    | StopRuntime(mode: Runtime)

  /** A command works, fails without or with its effect, or (a reload of nginx) reports success
      without its effect. */
  datatype Fault = Works | FailsBefore | FailsAfter | Silent

  function Effect(m: Machine, c: Command): Machine {
    match c
    case WriteFile(mode) => m.(file := Some(mode))
    case StartRuntime(mode) => m.(running := m.running + {mode})
    case Reload => if m.file.Some? then m.(loaded := m.file.value) else m
    case Enable(mode) => m.(enabled := m.enabled + {mode})
    case Disable(mode) => m.(enabled := m.enabled - {mode})
    case StopRuntime(mode) => m.(running := m.running - {mode})
    case _ => m
  }

  /** What a wait can only report when it is so: a runtime answers when it runs, and the header
      nginx adds names the runtime it has loaded. */
  predicate Observed(m: Machine, c: Command) {
    match c
    case AwaitRuntime(mode) => mode in m.running
    case AwaitGateway(mode) => m.loaded == mode && mode in m.running
    case _ => true
  }

  /** The host after the command, and whether the command reported success. */
  function Answer(m: Machine, c: Command, fault: Fault): (Machine, bool) {
    match fault
    case Works => (Effect(m, c), Observed(m, c))
    case FailsBefore => (m, false)
    case FailsAfter => (Effect(m, c), false)
    case Silent => (if c == Reload then m else Effect(m, c), Observed(m, c))
  }

  datatype Progress = Progress(machine: Machine, trace: seq<Machine>, ok: bool)

  /** The commands in order up to the first that fails; `fault(k)` is what happens to the k-th. */
  function Steps(m: Machine, cs: seq<Command>, fault: nat -> Fault): (p: Progress)
    ensures p.machine == if p.trace == [] then m else p.trace[|p.trace| - 1]
  {
    if cs == [] then Progress(m, [], true)
    else
      var p := Steps(m, cs[..|cs| - 1], fault);
      if !p.ok then p
      else
        var (after, ok) := Answer(p.machine, cs[|cs| - 1], fault(|cs| - 1));
        Progress(after, p.trace + [after], ok)
  }

  // ---------------------------------------------------------------- the scripts

  /** `start` */
  function Start(mode: Runtime): seq<Command> {
    [StartRuntime(mode), AwaitRuntime(mode)]
  }

  /** `select_boot_runtime`: the new one first. */
  function SelectBoot(mode: Runtime): seq<Command> {
    [Enable(mode), Disable(Other(mode))]
  }

  function Forward(target: Runtime): seq<Command> {
    [WriteFile(target), TestConfig, Reload, AwaitGateway(target), CheckInternal]
    + SelectBoot(target) + [StopRuntime(Other(target))]
  }

  function Rollback(previous: Runtime, target: Runtime): seq<Command> {
    [WriteFile(previous)] + Start(previous) + [TestConfig, Reload] + SelectBoot(previous)
    + (if target != previous then [StopRuntime(target)] else [])
  }

  datatype Weather = Weather(starting: nat -> Fault, ahead: nat -> Fault, back: nat -> Fault)

  datatype Ending = Refused | TargetDown | Switched | RolledBack | Stranded

  datatype Switching = Switching(machine: Machine, trace: seq<Machine>, result: Ending)

  /** `switch` */
  function Switch(m: Machine, target: Runtime, w: Weather): Switching {
    if m.file.None? then Switching(m, [], Refused)
    else
      var first := Steps(m, Start(target), w.starting);
      if !first.ok then Switching(first.machine, first.trace, TargetDown)
      else
        var ahead := Steps(first.machine, Forward(target), w.ahead);
        if ahead.ok then Switching(ahead.machine, first.trace + ahead.trace, Switched)
        else
          var back := Steps(ahead.machine, Rollback(m.file.value, target), w.back);
          Switching(back.machine, first.trace + ahead.trace + back.trace, if back.ok then RolledBack else Stranded)
  }

  // ---------------------------------------------------------------- safety

  /** Chargers reach a gateway now, and will after a reboot. */
  predicate Safe(m: Machine) {
    m.loaded in m.running && m.enabled != {}
  }

  predicate AllSafe(trace: seq<Machine>) {
    forall i :: 0 <= i < |trace| ==> Safe(trace[i])
  }

  /** Only `mode` runs and starts at boot, and it is the one the file and nginx name. */
  predicate Settled(m: Machine, mode: Runtime) {
    m == Machine(Some(mode), mode, {mode}, {mode})
  }

  /** What holds before the i-th command of the forward script. */
  predicate Ahead(m: Machine, target: Runtime, i: nat) {
    && Safe(m) && target in m.running
    && (i >= 1 ==> m.file == Some(target))
    && (i >= 4 ==> m.loaded == target)
    && (i >= 6 ==> target in m.enabled)
    && (i >= 7 ==> m.enabled == {target})
    && (i >= 8 ==> m.running == {target})
  }

  const RELOAD := 4
  const STOP := 7

  /** What holds before the i-th command of a rollback entered at `start`; `silent` says that its reload,
      its fifth command, reports a success it does not have. */
  predicate Back(start: Machine, m: Machine, previous: Runtime, silent: bool, i: nat) {
    && Safe(m)
    && (i >= 1 ==> m.file == Some(previous))
    && (i >= 2 ==> previous in m.running)
    && m.loaded == (if i > RELOAD && !silent then previous else start.loaded)
    && (i >= 6 ==> previous in m.enabled)
    && (i >= 7 ==> m.enabled == {previous})
  }

  lemma TwoModes(s: set<Runtime>, mode: Runtime)
    requires mode in s && Other(mode) !in s
    ensures s == {mode}
  {
    forall x | x in s ensures x == mode {
      assert x == mode || x == Other(mode);
    }
  }

  lemma SomeEnabled(s: set<Runtime>, mode: Runtime)
    ensures mode in s || Other(mode) in s ==> s != {}
  {
  }

  lemma AheadStep(m: Machine, target: Runtime, i: nat, fault: Fault)
    requires Ahead(m, target, i) && i < |Forward(target)|
    ensures var (after, ok) := Answer(m, Forward(target)[i], fault);
            Safe(after) && (ok ==> Ahead(after, target, i + 1))
  {
    var (after, ok) := Answer(m, Forward(target)[i], fault);
    SomeEnabled(after.enabled, target);
    if i == 6 && ok {
      TwoModes(after.enabled, target);
    } else if i == 7 && ok {
      TwoModes(after.running, target);
    }
  }

  lemma BackStep(start: Machine, m: Machine, previous: Runtime, target: Runtime, silent: bool, i: nat, fault: Fault)
    requires Back(start, m, previous, silent, i) && i < STOP && (i == RELOAD ==> (silent <==> fault == Silent))
    ensures var (after, ok) := Answer(m, Rollback(previous, target)[i], fault);
            Safe(after) && (ok ==> Back(start, after, previous, silent, i + 1))
  {
    var (after, ok) := Answer(m, Rollback(previous, target)[i], fault);
    SomeEnabled(after.enabled, previous);
    if i == 6 && ok {
      TwoModes(after.enabled, previous);
    }
  }

  lemma {:induction false} AheadSafe(m: Machine, target: Runtime, fault: nat -> Fault, n: nat)
    requires Ahead(m, target, 0) && n <= |Forward(target)|
    ensures var p := Steps(m, Forward(target)[..n], fault);
            AllSafe(p.trace) && Safe(p.machine) && (p.ok ==> Ahead(p.machine, target, n))
  {
    hide Forward, Answer, Ahead, Safe;
    assert Safe(m) by {
      AheadIsSafe(m, target);
    }
    if n > 0 {
      var cs := Forward(target)[..n];
      assert cs[..n - 1] == Forward(target)[..n - 1];
      AheadSafe(m, target, fault, n - 1);
      var p := Steps(m, cs[..n - 1], fault);
      if p.ok {
        AheadStep(p.machine, target, n - 1, fault(n - 1));
      }
    }
  }

  lemma AheadIsSafe(m: Machine, target: Runtime)
    requires Ahead(m, target, 0)
    ensures Safe(m)
  {
  }

  /** The first seven commands of the rollback never leave nginx without a running gateway. */
  lemma {:induction false} BackSafe(m: Machine, previous: Runtime, target: Runtime, fault: nat -> Fault, n: nat)
    requires Safe(m) && n <= STOP <= |Rollback(previous, target)|
    ensures var p := Steps(m, Rollback(previous, target)[..n], fault);
            && AllSafe(p.trace) && Safe(p.machine)
            && (p.ok ==> Back(m, p.machine, previous, fault(RELOAD) == Silent, n))
  {
    hide Rollback, Answer;
    if n > 0 {
      var cs := Rollback(previous, target)[..n];
      assert cs[..n - 1] == Rollback(previous, target)[..n - 1];
      BackSafe(m, previous, target, fault, n - 1);
      var p := Steps(m, cs[..n - 1], fault);
      if p.ok {
        BackStep(m, p.machine, previous, target, fault(RELOAD) == Silent, n - 1, fault(n - 1));
      }
    }
  }

  lemma StartSafe(m: Machine, target: Runtime, fault: nat -> Fault)
    requires Safe(m)
    ensures var p := Steps(m, Start(target), fault);
            AllSafe(p.trace) && Safe(p.machine) && p.machine.file == m.file && (p.ok ==> Ahead(p.machine, target, 0))
  {
    var cs := Start(target);
    assert cs[..1] == [StartRuntime(target)] && cs[..1][..0] == [];
    var p := Steps(m, cs[..1], fault);
    assert Steps(m, cs[..1][..0], fault) == Progress(m, [], true);
  }

  lemma StartKeeps(m: Machine, target: Runtime, fault: nat -> Fault)
    ensures var p := Steps(m, Start(target), fault); p.machine == m.(running := p.machine.running)
  {
    var cs := Start(target);
    assert cs[..1] == [StartRuntime(target)] && cs[..1][..0] == [];
    assert Steps(m, cs[..1][..0], fault) == Progress(m, [], true);
  }

  lemma Lengths(previous: Runtime, target: Runtime)
    ensures |Forward(target)| == 8 && |Rollback(previous, target)| == if target != previous then 8 else 7
    ensures target != previous ==> Rollback(previous, target)[STOP] == StopRuntime(target)
  {
  }

  lemma StepsOfNothing(m: Machine, cs: seq<Command>, fault: nat -> Fault)
    ensures Steps(m, cs[..0], fault) == Progress(m, [], true)
  {
  }

  /** The i-th command of a script in which everything before went well. */
  lemma NextStep(m: Machine, cs: seq<Command>, fault: nat -> Fault, i: nat)
    requires i < |cs| && Steps(m, cs[..i], fault).ok
    ensures var p := Steps(m, cs[..i], fault);
            var (after, ok) := Answer(p.machine, cs[i], fault(i));
            Steps(m, cs[..i + 1], fault) == Progress(after, p.trace + [after], ok)
  {
    assert cs[..i + 1][..i] == cs[..i];
  }

  /** Once a script has failed, the rest of it is not run. */
  lemma {:induction false} Stuck(m: Machine, cs: seq<Command>, rest: seq<Command>, fault: nat -> Fault)
    requires !Steps(m, cs, fault).ok
    ensures Steps(m, cs + rest, fault) == Steps(m, cs, fault)
  {
    if rest == [] {
      assert cs + rest == cs;
    } else {
      assert (cs + rest)[..|cs + rest| - 1] == cs + rest[..|rest| - 1];
      Stuck(m, cs, rest[..|rest| - 1], fault);
    }
  }

  // ---------------------------------------------------------------- the rollback

  /** The rollback stops the runtime nginx still has loaded: it gets as far as its last command, and its
      reload reported a success it did not have. */
  predicate Strands(m: Machine, previous: Runtime, target: Runtime, fault: nat -> Fault) {
    && previous != target && m.loaded == target && fault(RELOAD) == Silent
    && Steps(m, Rollback(previous, target)[..STOP], fault).ok && fault(STOP) != FailsBefore
  }

  /** Where a rollback that reports success ends: nginx has loaded the previous runtime unless the reload
      did nothing. */
  predicate Restored(start: Machine, m: Machine, previous: Runtime, target: Runtime, silent: bool) {
    && m.file == Some(previous) && previous in m.running && m.enabled == {previous}
    && m.loaded == (if silent then start.loaded else previous)
    && (previous != target ==> m.running == {previous})
  }

  lemma StopStep(start: Machine, m: Machine, previous: Runtime, target: Runtime, silent: bool, fault: Fault)
    requires Back(start, m, previous, silent, STOP) && previous != target
    ensures var (after, ok) := Answer(m, StopRuntime(target), fault);
            && (Safe(after) <==> !(silent && start.loaded == target && fault != FailsBefore))
            && (ok ==> Restored(start, after, previous, target, silent))
  {
    var (after, ok) := Answer(m, StopRuntime(target), fault);
    if ok {
      TwoModes(after.running, previous);
    }
  }

  /** The rollback leaves nginx without a running gateway exactly when it strands, and that is its last command. */
  lemma RollbackExactly(m: Machine, previous: Runtime, target: Runtime, fault: nat -> Fault)
    requires Safe(m)
    ensures var p := Steps(m, Rollback(previous, target), fault);
            && (Safe(p.machine) <==> !Strands(m, previous, target, fault))
            && (AllSafe(p.trace) <==> !Strands(m, previous, target, fault))
            && (p.ok ==> Restored(m, p.machine, previous, target, fault(RELOAD) == Silent))
  {
    hide Steps, Rollback;
    Lengths(previous, target);
    var cs := Rollback(previous, target);
    BackSafe(m, previous, target, fault, STOP);
    var p := Steps(m, cs[..STOP], fault);
    if |cs| == STOP {
      assert cs[..STOP] == cs;
    } else if p.ok {
      NextStep(m, cs, fault, STOP);
      assert cs[..STOP + 1] == cs;
      StopStep(m, p.machine, previous, target, fault(RELOAD) == Silent, fault(STOP));
      var q := Steps(m, cs, fault);
      assert q.trace[|q.trace| - 1] == q.machine;
    } else {
      assert cs[..STOP] + cs[STOP..] == cs;
      Stuck(m, cs[..STOP], cs[STOP..], fault);
    }
  }

  /** The check the rollback lacks: after the reload of a rollback that strands, the header nginx adds
      does not name the previous runtime, so the wait of the forward script would not have passed. */
  lemma HeaderWouldTell(m: Machine, previous: Runtime, target: Runtime, fault: nat -> Fault)
    requires Safe(m) && Strands(m, previous, target, fault)
    ensures !Observed(Steps(m, Rollback(previous, target)[..RELOAD + 1], fault).machine, AwaitGateway(previous))
  {
    Lengths(previous, target);
    BackSafe(m, previous, target, fault, RELOAD + 1);
    SucceedsSoFar(m, Rollback(previous, target), fault, RELOAD + 1, STOP);
  }

  lemma {:induction false} SucceedsSoFar(m: Machine, cs: seq<Command>, fault: nat -> Fault, i: nat, n: nat)
    requires i <= n <= |cs| && Steps(m, cs[..n], fault).ok
    ensures Steps(m, cs[..i], fault).ok
    decreases n
  {
    if i < n {
      assert cs[..n][..n - 1] == cs[..n - 1];
      SucceedsSoFar(m, cs, fault, i, n - 1);
    }
  }

  // ---------------------------------------------------------------- the switch

  /** The host as the rollback of a switch finds it, if there is one. */
  function Entered(m: Machine, target: Runtime, w: Weather): Option<Machine> {
    var first := Steps(m, Start(target), w.starting);
    var ahead := Steps(first.machine, Forward(target), w.ahead);
    if m.file.Some? && first.ok && !ahead.ok then Some(ahead.machine) else None
  }

  predicate SwitchStrands(m: Machine, target: Runtime, w: Weather) {
    m.file.Some? && Entered(m, target, w).Some? && Strands(Entered(m, target, w).value, m.file.value, target, w.back)
  }

  /** The rollback finds the other runtime loaded and its reload does not change that. */
  predicate StaysStale(m: Machine, target: Runtime, w: Weather) {
    && m.file.Some? && Entered(m, target, w).Some?
    && w.back(RELOAD) == Silent && Entered(m, target, w).value.loaded != m.file.value
  }

  /** How a switch ends, by its result; the file names the previous runtime. */
  ghost predicate EndsWell(m: Machine, target: Runtime, w: Weather, s: Switching) {
    && (s.result == Refused <==> m.file.None?)
    && match s.result
       case Refused => s.machine == m
       case TargetDown => s.machine == m.(running := s.machine.running)
       case Switched => Settled(s.machine, target)
       case RolledBack =>
         var previous := m.file.value;
         && (s.machine.loaded == previous <==> !StaysStale(m, target, w))
         && s.machine.file == Some(previous) && previous in s.machine.running && s.machine.enabled == {previous}
         && (previous != target ==> s.machine.running == {previous})
       case Stranded => true
  }

  /** With any fault at any command, and taking no reload on trust: a switch from a safe state stays safe
      to its end, and everywhere on the way, exactly unless it entered the rollback with the target
      loaded, the reload of the rollback silently did nothing, and the rollback got to stop the target.
      Success leaves the target alone in charge; a rollback that reports success restores the previous
      runtime, exactly unless it found the other one loaded and its reload did nothing. */
  lemma SwitchExactly(m: Machine, target: Runtime, w: Weather)
    requires Safe(m)
    ensures var s := Switch(m, target, w);
            && (Safe(s.machine) <==> !SwitchStrands(m, target, w))
            && (AllSafe(s.trace) <==> !SwitchStrands(m, target, w))
            && EndsWell(m, target, w, s)
  {
    hide Steps, Forward, Rollback, Start, Safe, Strands;
    StartSafe(m, target, w.starting);
    StartKeeps(m, target, w.starting);
    var first := Steps(m, Start(target), w.starting);
    if m.file.Some? && first.ok {
      var previous, n := m.file.value, |Forward(target)|;
      Lengths(previous, target);
      AheadSafe(first.machine, target, w.ahead, n);
      assert Forward(target)[..n] == Forward(target);
      var ahead := Steps(first.machine, Forward(target), w.ahead);
      if !ahead.ok {
        RollbackExactly(ahead.machine, previous, target, w.back);
        var back := Steps(ahead.machine, Rollback(previous, target), w.back);
        AppendSafe(first.trace + ahead.trace, back.trace);
      }
    }
  }

  lemma AppendSafe(before: seq<Machine>, after: seq<Machine>)
    requires AllSafe(before)
    ensures AllSafe(before + after) <==> AllSafe(after)
  {
    assert forall i :: 0 <= i < |after| ==> (before + after)[|before| + i] == after[i];
  }

  /** Any number of switches, each with any faults, one after the other. */
  function Switches(m: Machine, jobs: seq<(Runtime, Weather)>): (seq<Machine>, Machine)
    decreases |jobs|
  {
    if jobs == [] then ([], m)
    else
      var s := Switch(m, jobs[0].0, jobs[0].1);
      var (trace, last) := Switches(s.machine, jobs[1..]);
      (s.trace + trace, last)
  }

  /** No switch of the series strands. */
  predicate NoneStrands(m: Machine, jobs: seq<(Runtime, Weather)>)
    decreases |jobs|
  {
    jobs != [] ==>
      && !SwitchStrands(m, jobs[0].0, jobs[0].1)
      && NoneStrands(Switch(m, jobs[0].0, jobs[0].1).machine, jobs[1..])
  }

  /** A series of switches, failed rollbacks in between included, is safe in every state it goes through
      exactly when none of them strands. */
  lemma {:induction false} SwitchesExactly(m: Machine, jobs: seq<(Runtime, Weather)>)
    requires Safe(m)
    ensures AllSafe(Switches(m, jobs).0) <==> NoneStrands(m, jobs)
    ensures NoneStrands(m, jobs) ==> Safe(Switches(m, jobs).1)
    decreases |jobs|
  {
    hide Switch, Safe, SwitchStrands, EndsWell;
    if jobs != [] {
      SwitchExactly(m, jobs[0].0, jobs[0].1);
      var s := Switch(m, jobs[0].0, jobs[0].1);
      var (trace, last) := Switches(s.machine, jobs[1..]);
      if !SwitchStrands(m, jobs[0].0, jobs[0].1) {
        SwitchesExactly(s.machine, jobs[1..]);
        AppendSafe(s.trace, trace);
      } else {
        UnsafePrefix(s.trace, trace);
      }
    }
  }

  lemma UnsafePrefix(before: seq<Machine>, after: seq<Machine>)
    requires !AllSafe(before)
    ensures !AllSafe(before + after)
  {
    var i :| 0 <= i < |before| && !Safe(before[i]);
    assert (before + after)[i] == before[i];
  }

  // ---------------------------------------------------------------- two runs

  /** Before the i-th command of a rollback that meets no fault but a reload that does nothing. */
  predicate Unreloaded(start: Machine, m: Machine, previous: Runtime, i: nat) {
    && m.loaded == start.loaded && m.file == (if i >= 1 then Some(previous) else start.file)
    && (i >= 2 ==> previous in m.running)
  }

  lemma UnreloadedStep(start: Machine, m: Machine, previous: Runtime, target: Runtime, i: nat)
    requires Unreloaded(start, m, previous, i) && i < |Rollback(previous, target)|
    ensures var (after, ok) := Answer(m, Rollback(previous, target)[i], if i == RELOAD then Silent else Works);
            ok && Unreloaded(start, after, previous, i + 1)
  {
  }

  /** Such a rollback reports success. */
  lemma {:induction false} UnreloadedSteps(m: Machine, previous: Runtime, target: Runtime, fault: nat -> Fault, n: nat)
    requires n <= |Rollback(previous, target)| && forall k: nat :: fault(k) == if k == RELOAD then Silent else Works
    ensures var p := Steps(m, Rollback(previous, target)[..n], fault);
            p.ok && Unreloaded(m, p.machine, previous, n)
  {
    hide Steps, Rollback, Answer;
    if n == 0 {
      StepsOfNothing(m, Rollback(previous, target), fault);
    } else {
      UnreloadedSteps(m, previous, target, fault, n - 1);
      NextStep(m, Rollback(previous, target), fault, n - 1);
      UnreloadedStep(m, Steps(m, Rollback(previous, target)[..n - 1], fault).machine, previous, target, n - 1);
    }
  }

  lemma UnreloadedRollback(m: Machine, previous: Runtime, target: Runtime, fault: nat -> Fault)
    requires forall k: nat :: fault(k) == if k == RELOAD then Silent else Works
    ensures Steps(m, Rollback(previous, target), fault).ok
    ensures |Rollback(previous, target)| >= STOP && Steps(m, Rollback(previous, target)[..STOP], fault).ok
  {
    hide Steps, Rollback;
    Lengths(previous, target);
    UnreloadedSteps(m, previous, target, fault, STOP);
    UnreloadedSteps(m, previous, target, fault, |Rollback(previous, target)|);
    assert Rollback(previous, target)[..|Rollback(previous, target)|] == Rollback(previous, target);
  }

  /** The k-th command fails, everything else works. */
  function FailingAt(k: nat): nat -> Fault {
    i => if i == k then FailsBefore else Works
  }

  lemma ForwardFails(m: Machine, target: Runtime, k: nat)
    requires Ahead(m, target, 0) && k < 8 == |Forward(target)|
    ensures var p := Steps(m, Forward(target), FailingAt(k));
            !p.ok && (k >= 3 ==> p.machine.loaded == target) && (k < 3 ==> p.machine.loaded == m.loaded)
  {
    hide Forward, Steps, Ahead;
    var cs := Forward(target);
    ForwardWorks(m, target, FailingAt(k), k);
    NextStep(m, cs, FailingAt(k), k);
    assert cs[..k + 1] + cs[k + 1..] == cs;
    Stuck(m, cs[..k + 1], cs[k + 1..], FailingAt(k));
  }

  /** A run that strands: the switch of a settled host whose check after the reload fails, and whose
      rollback meets a reload that does nothing. It reports a completed rollback and leaves nginx
      pointing at the runtime it stopped. */
  lemma StrandedRun() returns (m: Machine, w: Weather)
    ensures Settled(m, Native) && SwitchStrands(m, Docker, w)
    ensures Switch(m, Docker, w).result == RolledBack && !Safe(Switch(m, Docker, w).machine)
  {
    m := Machine(Some(Native), Native, {Native}, {Native});
    w := Weather(k => Works, FailingAt(4), k => if k == RELOAD then Silent else Works);
    hide Steps, Forward, Rollback, Start;
    StartWorks(m, Docker, w.starting);
    Lengths(Native, Docker);
    ForwardFails(Steps(m, Start(Docker), w.starting).machine, Docker, 4);
    UnreloadedRollback(Entered(m, Docker, w).value, Native, Docker, w.back);
    SwitchExactly(m, Docker, w);
  }

  /** A run that is safe and restores nothing: nginx still has the other runtime loaded, as a failed
      rollback left it, and neither the switch back nor its rollback changes that. */
  lemma StaleRun() returns (m: Machine, w: Weather)
    ensures m == Machine(Some(Native), Docker, {Docker}, {Docker}) && Safe(m)
    ensures var s := Switch(m, Native, w);
            s.result == RolledBack && Safe(s.machine) && s.machine.file == Some(Native) && s.machine.loaded == Docker
  {
    m := Machine(Some(Native), Docker, {Docker}, {Docker});
    w := Weather(k => Works, FailingAt(1), k => if k == RELOAD then Silent else Works);
    hide Steps, Forward, Rollback, Start;
    StartWorks(m, Native, w.starting);
    Lengths(Native, Native);
    ForwardFails(Steps(m, Start(Native), w.starting).machine, Native, 1);
    UnreloadedRollback(Entered(m, Native, w).value, Native, Native, w.back);
    SwitchExactly(m, Native, w);
    OnlyTwo(Switch(m, Native, w).machine.loaded);
  }

  lemma OnlyTwo(mode: Runtime)
    ensures mode == Native || mode == Docker
  {
  }

  // ---------------------------------------------------------------- a refusal on the way

  predicate Refuses(fault: Fault) {
    fault == FailsBefore || fault == FailsAfter
  }

  /** A script whose k-th command fails stops there at the latest. */
  lemma {:induction false} StopsAt(m: Machine, cs: seq<Command>, fault: nat -> Fault, k: nat)
    requires k < |cs| && Refuses(fault(k))
    ensures Steps(m, cs, fault) == Steps(m, cs[..k + 1], fault) && !Steps(m, cs, fault).ok
    decreases |cs|
  {
    if |cs| == k + 1 {
      assert cs[..k + 1] == cs;
    } else {
      assert cs[..|cs| - 1][..k + 1] == cs[..k + 1];
      StopsAt(m, cs[..|cs| - 1], fault, k);
    }
  }

  /** Commands that leave what nginx has loaded, what runs and what starts at boot alone. */
  predicate Harmless(c: Command) {
    c.WriteFile? || c.AwaitRuntime? || c.TestConfig? || c.AwaitGateway? || c.CheckInternal?
  }

  lemma {:induction false} HarmlessSteps(m: Machine, cs: seq<Command>, fault: nat -> Fault)
    requires forall i :: 0 <= i < |cs| ==> Harmless(cs[i])
    ensures var p := Steps(m, cs, fault).machine;
            p.loaded == m.loaded && p.running == m.running && p.enabled == m.enabled
  {
    if cs != [] {
      HarmlessSteps(m, cs[..|cs| - 1], fault);
    }
  }

  lemma {:induction false} KeepsRuntimes(m: Machine, cs: seq<Command>, fault: nat -> Fault)
    requires forall i :: 0 <= i < |cs| ==> Harmless(cs[i]) || cs[i] == Reload
    ensures var p := Steps(m, cs, fault).machine; p.running == m.running && p.enabled == m.enabled
  {
    if cs != [] {
      KeepsRuntimes(m, cs[..|cs| - 1], fault);
    }
  }

  lemma HarmlessUntilTest(target: Runtime, k: nat)
    requires k < |Forward(target)| && Forward(target)[k] == TestConfig
    ensures forall i :: 0 <= i <= k ==> Harmless(Forward(target)[i])
  {
  }

  lemma GrowingUntilTest(previous: Runtime, target: Runtime, k: nat)
    requires k < |Rollback(previous, target)| && Rollback(previous, target)[k] == TestConfig
    ensures forall i :: 0 <= i <= k ==>
              (Harmless(Rollback(previous, target)[i]) || Rollback(previous, target)[i].StartRuntime?)
  {
  }

  /** A configuration that nginx rejects is never loaded: the switch stops there, and only the file has
      changed. */
  lemma RejectedIsNotLoaded(m: Machine, target: Runtime, fault: nat -> Fault, k: nat)
    requires k < |Forward(target)| && Forward(target)[k] == TestConfig && Refuses(fault(k))
    ensures var p := Steps(m, Forward(target), fault);
            !p.ok && p.machine == m.(file := p.machine.file)
  {
    HarmlessUntilTest(target, k);
    hide Forward, Steps, Harmless;
    StopsAt(m, Forward(target), fault, k);
    HarmlessSteps(m, Forward(target)[..k + 1], fault);
  }

  /** Nor on the way back: the rollback stops there, and nothing has been stopped or disabled. */
  lemma RejectedIsNotRestored(m: Machine, previous: Runtime, target: Runtime, fault: nat -> Fault, k: nat)
    requires k < |Rollback(previous, target)| && Rollback(previous, target)[k] == TestConfig && Refuses(fault(k))
    ensures var p := Steps(m, Rollback(previous, target), fault);
            !p.ok && p.machine.loaded == m.loaded && p.machine.enabled == m.enabled && m.running <= p.machine.running
  {
    GrowingUntilTest(previous, target, k);
    hide Rollback, Steps, Harmless;
    StopsAt(m, Rollback(previous, target), fault, k);
    GrowingSteps(m, Rollback(previous, target)[..k + 1], fault);
  }

  lemma {:induction false} GrowingSteps(m: Machine, cs: seq<Command>, fault: nat -> Fault)
    requires forall i :: 0 <= i < |cs| ==> Harmless(cs[i]) || cs[i].StartRuntime?
    ensures var p := Steps(m, cs, fault).machine;
            p.loaded == m.loaded && p.enabled == m.enabled && m.running <= p.running
  {
    if cs != [] {
      GrowingSteps(m, cs[..|cs| - 1], fault);
    }
  }

  /** While a check of the new gateway fails, the old runtime keeps running and keeps its place at boot. */
  lemma OldRuntimeStays(m: Machine, target: Runtime, fault: nat -> Fault, k: nat)
    requires k < |Forward(target)| && Refuses(fault(k))
    requires Forward(target)[k] in {AwaitGateway(target), CheckInternal}
    ensures var p := Steps(m, Forward(target), fault);
            !p.ok && p.machine.running == m.running && p.machine.enabled == m.enabled
  {
    StopsAt(m, Forward(target), fault, k);
    KeepsRuntimes(m, Forward(target)[..k + 1], fault);
  }

  /** The new gateway is checked, and both scripts test the configuration. */
  lemma ChecksAreMade(previous: Runtime, target: Runtime)
    ensures TestConfig in Forward(target) && AwaitGateway(target) in Forward(target) && CheckInternal in Forward(target)
    ensures TestConfig in Rollback(previous, target)
  {
    assert Forward(target)[1] == TestConfig && Forward(target)[3] == AwaitGateway(target)
           && Forward(target)[4] == CheckInternal && Rollback(previous, target)[3] == TestConfig;
  }

  // ---------------------------------------------------------------- recovery

  lemma ForwardWorksStep(m: Machine, target: Runtime, i: nat)
    requires Ahead(m, target, i) && (i >= 3 ==> m.loaded == target) && i < |Forward(target)|
    ensures var (after, ok) := Answer(m, Forward(target)[i], Works);
            && ok && Ahead(after, target, i + 1)
            && (if i >= 2 then after.loaded == target else after.loaded == m.loaded)
  {
    AheadStep(m, target, i, Works);
  }

  lemma {:induction false} ForwardWorks(m: Machine, target: Runtime, fault: nat -> Fault, n: nat)
    requires Ahead(m, target, 0) && n <= 8 == |Forward(target)| && forall k: nat :: k < n ==> fault(k) == Works
    ensures var p := Steps(m, Forward(target)[..n], fault);
            && p.ok && Ahead(p.machine, target, n)
            && (if n >= 3 then p.machine.loaded == target else p.machine.loaded == m.loaded)
  {
    hide Steps, Forward, Answer, Ahead;
    if n == 0 {
      StepsOfNothing(m, Forward(target), fault);
    } else {
      ForwardWorks(m, target, fault, n - 1);
      NextStep(m, Forward(target), fault, n - 1);
      ForwardWorksStep(Steps(m, Forward(target)[..n - 1], fault).machine, target, n - 1);
    }
  }

  lemma StartWorks(m: Machine, target: Runtime, fault: nat -> Fault)
    requires Safe(m) && fault(0) == Works && fault(1) == Works
    ensures var p := Steps(m, Start(target), fault);
            p.ok && p.machine == m.(running := m.running + {target}) && Ahead(p.machine, target, 0)
  {
    var cs := Start(target);
    assert cs[..2] == cs;
    StepsOfNothing(m, cs, fault);
    NextStep(m, cs, fault, 0);
    NextStep(m, cs, fault, 1);
    StartSafe(m, target, fault);
  }

  /** From any safe state, also one a failed rollback left behind, a switch that meets no fault succeeds. */
  lemma SwitchRecovers(m: Machine, target: Runtime, w: Weather)
    requires Safe(m) && m.file.Some? && forall k: nat :: w.starting(k) == Works && w.ahead(k) == Works
    ensures Switch(m, target, w).result == Switched && Settled(Switch(m, target, w).machine, target)
  {
    StartWorks(m, target, w.starting);
    hide Steps, Forward, Rollback;
    var first := Steps(m, Start(target), w.starting);
    Lengths(m.file.value, target);
    ForwardWorks(first.machine, target, w.ahead, 8);
    assert Forward(target)[..8] == Forward(target);
    SwitchExactly(m, target, w);
  }
}
