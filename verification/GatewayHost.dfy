/** ocpp-runtime.py as it acts on the host, command by command, against the scripts of GatewaySwitch. */
module GatewayHost {
  import opened Wrappers
  import opened GatewaySwitch

  class Host {
    var file: Option<Runtime>
    var loaded: Runtime
    var running: set<Runtime>
    var enabled: set<Runtime>

    /** The number of commands of the script under way. */
    var count: nat

    /** Where that script started, its commands so far and the states they led to. */
    ghost var base: Machine
    ghost var issued: seq<Command>
    ghost var trace: seq<Machine>

    ghost function Value(): Machine
      reads this
    {
      Machine(file, loaded, running, enabled)
    }

    /** The host is where the commands issued so far lead to. */
    ghost predicate Follows(fault: nat -> Fault, ok: bool)
      reads this
    {
      count == |issued| && Steps(base, issued, fault) == Progress(Value(), trace, ok)
    }

    constructor (file: Option<Runtime>, loaded: Runtime, running: set<Runtime>, enabled: set<Runtime>)
      ensures Value() == Machine(file, loaded, running, enabled)
    {
      this.file, this.loaded, this.running, this.enabled := file, loaded, running, enabled;
      count, base, issued, trace := 0, Machine(file, loaded, running, enabled), [], [];
    }

    /** A new script starts here. */
    method Begin(ghost fault: nat -> Fault)
      modifies this
      ensures Follows(fault, true) && Value() == old(Value()) == base && issued == []
    {
      count, base, issued, trace := 0, Value(), [], [];
    }

    /** What a command does to the host when it takes effect. */
    method TakeEffect(c: Command)
      modifies this`file, this`loaded, this`running, this`enabled
      ensures Value() == Effect(old(Value()), c)
    {
      match c
      case WriteFile(mode) => file := Some(mode);
      case StartRuntime(mode) => running := running + {mode};
      case Reload => if file.Some? { loaded := file.value; }
      case Enable(mode) => enabled := enabled + {mode};
      case Disable(mode) => enabled := enabled - {mode};
      case StopRuntime(mode) => running := running - {mode};
      case _ =>
    }

    /** One command; false stands for the exception it raises. */
    method Issue(c: Command, f: Fault) returns (ok: bool)
      modifies this`file, this`loaded, this`running, this`enabled
      ensures (Value(), ok) == Answer(old(Value()), c, f)
    {
      ok := f in {Works, Silent};
      match c {
        case AwaitRuntime(mode) => ok := ok && mode in running;
        case AwaitGateway(mode) => ok := ok && loaded == mode && mode in running;
        case _ =>
      }
      if f in {Works, FailsAfter} || (f == Silent && c != Reload) {
        TakeEffect(c);
      }
    }

    /** The next command of the script. */
    method Perform(c: Command, fault: nat -> Fault) returns (ok: bool)
      requires Follows(fault, true)
      modifies this
      ensures base == old(base) && issued == old(issued) + [c]
      ensures Follows(fault, ok)
    {
      hide Answer;
      ok := Issue(c, fault(count));
      assert (issued + [c])[..|issued|] == issued;
      count, issued, trace := count + 1, issued + [c], trace + [Value()];
    }

    /** `start` */
    method StartUp(mode: Runtime, fault: nat -> Fault) returns (ok: bool)
      requires Follows(fault, true)
      modifies this
      ensures base == old(base) && Ran(old(issued) + Start(mode), fault, ok)
    {
      ghost var cs := issued + Start(mode);
      ok := Perform(StartRuntime(mode), fault);
      if !ok {
        Abandoned(cs, fault);
        return;
      }
      ok := Perform(AwaitRuntime(mode), fault);
      assert issued == cs;
    }

    /** The script `cs` was run to its end, or to the command that failed. */
    ghost predicate Ran(cs: seq<Command>, fault: nat -> Fault, ok: bool)
      reads this
    {
      && Steps(base, cs, fault) == Progress(Value(), trace, ok)
      && (ok ==> count == |cs| && issued == cs)
    }

    lemma Abandoned(cs: seq<Command>, fault: nat -> Fault)
      requires Follows(fault, false) && issued <= cs
      ensures Ran(cs, fault, false)
    {
      assert issued + cs[|issued|..] == cs;
      Stuck(base, issued, cs[|issued|..], fault);
    }

    lemma AbandonedLater(done: seq<Command>, cs: seq<Command>, fault: nat -> Fault)
      requires Ran(done, fault, false) && done <= cs
      ensures Ran(cs, fault, false)
    {
      assert done + cs[|done|..] == cs;
      Stuck(base, done, cs[|done|..], fault);
    }

    /** `select_boot_runtime` */
    method SelectBootRuntime(mode: Runtime, fault: nat -> Fault) returns (ok: bool)
      requires Follows(fault, true)
      modifies this
      ensures base == old(base) && Ran(old(issued) + SelectBoot(mode), fault, ok)
    {
      ghost var cs := issued + SelectBoot(mode);
      ok := Perform(Enable(mode), fault);
      if !ok {
        Abandoned(cs, fault);
        return;
      }
      ok := Perform(Disable(Other(mode)), fault);
      assert issued == cs;
    }

    /** The `try` block of `switch`. */
    method GoForward(target: Runtime, fault: nat -> Fault) returns (ok: bool)
      requires Follows(fault, true) && issued == []
      modifies this
      ensures base == old(base) && Ran(Forward(target), fault, ok)
    {
      hide Steps;
      ghost var cs := Forward(target);
      ok := Perform(WriteFile(target), fault);
      if !ok { Abandoned(cs, fault); return; }
      ok := Perform(TestConfig, fault);
      if !ok { Abandoned(cs, fault); return; }
      ok := Perform(Reload, fault);
      if !ok { Abandoned(cs, fault); return; }
      ok := Perform(AwaitGateway(target), fault);
      if !ok { Abandoned(cs, fault); return; }
      ok := Perform(CheckInternal, fault);
      if !ok { Abandoned(cs, fault); return; }
      ghost var done := issued + SelectBoot(target);
      ok := SelectBootRuntime(target, fault);
      if !ok { AbandonedLater(done, cs, fault); return; }
      ok := Perform(StopRuntime(Other(target)), fault);
      assert issued == cs;
    }

    /** The `except` block of `switch`. */
    method GoBack(previous: Runtime, target: Runtime, fault: nat -> Fault) returns (ok: bool)
      requires Follows(fault, true) && issued == []
      modifies this
      ensures base == old(base) && Ran(Rollback(previous, target), fault, ok)
    {
      hide Steps;
      ghost var cs := Rollback(previous, target);
      ok := Perform(WriteFile(previous), fault);
      if !ok { Abandoned(cs, fault); return; }
      ghost var done := issued + Start(previous);
      ok := StartUp(previous, fault);
      if !ok { AbandonedLater(done, cs, fault); return; }
      ok := Perform(TestConfig, fault);
      if !ok { Abandoned(cs, fault); return; }
      ok := Perform(Reload, fault);
      if !ok { Abandoned(cs, fault); return; }
      done := issued + SelectBoot(previous);
      ok := SelectBootRuntime(previous, fault);
      if !ok { AbandonedLater(done, cs, fault); return; }
      if target != previous {
        ok := Perform(StopRuntime(target), fault);
      }
      assert issued == cs;
    }

    /** `switch`: the host and every state on the way are those of the specification. */
    method SwitchTo(target: Runtime, w: Weather) returns (ending: Ending, ghost states: seq<Machine>)
      modifies this
      ensures Switching(Value(), states, ending) == Switch(old(Value()), target, w)
    {
      hide Steps, Forward, Rollback, Start;
      if file.None? {
        return Refused, [];
      }
      var previous := file.value;
      Begin(w.starting);
      assert issued + Start(target) == Start(target);
      var ok := StartUp(target, w.starting);
      states := trace;
      if !ok {
        return TargetDown, states;
      }
      Begin(w.ahead);
      ok := GoForward(target, w.ahead);
      states := states + trace;
      if ok {
        return Switched, states;
      }
      Begin(w.back);
      ok := GoBack(previous, target, w.back);
      states := states + trace;
      ending := if ok then RolledBack else Stranded;
    }
  }
}
