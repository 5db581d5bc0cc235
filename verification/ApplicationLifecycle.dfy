/**
 The handlers of the running process: the coordinated shutdown, the runtimes that watch the two
 supervised schedulers, and the application that wires them to the events it hears.
 */
module ApplicationLifecycle {
  import opened ProcessShutdown

  /** `createGracefulShutdown` with the background work it stops and the process exit code it sets. */
  class Shutdown {
    const machine: bool
    const backup: bool
    var requested: bool
    var failureCode: bool
    var started: bool
    var closeCalls: nat
    var stopCalls: nat
    var pending: seq<Loop>
    var asked: seq<Loop>
    var settled: map<Loop, bool>
    var closing: Closing
    var finished: bool

    ghost function Progress(): Stop
      reads this
    {
      Stop(started, closeCalls, stopCalls, pending, asked, settled, closing, finished)
    }

    constructor (machine: bool, backup: bool)
      ensures this.machine == machine && this.backup == backup
      ensures !requested && !failureCode && Progress() == IDLE
    {
      this.machine, this.backup := machine, backup;
      requested, failureCode, started, finished := false, false, false, false;
      closeCalls, stopCalls := 0, 0;
      pending, asked, settled, closing := [], [], map[], Open;
    }

    method SetFailureExitCode()
      modifies `failureCode
      ensures failureCode
    {
      failureCode := true;
    }

    /** Started by the first request that can be announced; every other request finds it started. */
    method RequestShutdown(logFails: bool) returns (threw: bool)
      modifies `requested, `started, `stopCalls, `closeCalls, `pending
      ensures requested && Progress() == Answered(old(Progress()), Configured(machine, backup), logFails)
      ensures threw <==> logFails && !old(started)
    {
      requested := true;
      if started {
        return false;
      }
      if logFails {
        return true;
      }
      started := true;
      StopBackgroundWork();
      closeCalls := closeCalls + 1;
      return false;
    }

    /** What the handlers of errors do first and last: the exit code, then the request. */
    method FailAndRequest(logFails: bool) returns (threw: bool)
      modifies `failureCode, `requested, `started, `stopCalls, `closeCalls, `pending
      ensures failureCode && requested && Progress() == Answered(old(Progress()), Configured(machine, backup), logFails)
      ensures threw <==> logFails && !old(started)
    {
      SetFailureExitCode();
      threw := RequestShutdown(logFails);
    }

    /** One task for each configured loop, each with its own promise. */
    method StopBackgroundWork()
      modifies `stopCalls, `pending
      ensures stopCalls == old(stopCalls) + 1 && pending == old(pending) + Configured(machine, backup)
    {
      stopCalls := stopCalls + 1;
      var stops := [ServiceLoop];
      if machine {
        stops := stops + [MachineLoop];
      }
      if backup {
        stops := stops + [BackupLoop];
      }
      pending := pending + stops;
    }

    /** The next task calls its loop's `stop`: the loops asked and waiting stay the same ones, in the same order. */
    method RunStopTask(throws: bool)
      requires StopEnabled(Progress(), StopTask(throws))
      modifies `pending, `asked, `settled
      ensures Progress() == StopStep(old(Progress()), StopTask(throws))
      ensures asked + pending == old(asked + pending)
      ensures forall l <- old(asked) :: l != asked[|asked| - 1] ==> (l in settled <==> l in old(settled))
    {
      var l := pending[0];
      Reassociated(asked, pending);
      pending, asked := pending[1..], asked + [l];
      if throws {
        settled := settled[l := true];
      }
    }

    /** What `Promise.allSettled` and `find` look for. */
    method FindRejection() returns (found: bool)
      requires forall l <- asked :: l in settled
      ensures found <==> exists i :: 0 <= i < |asked| && settled[asked[i]]
    {
      for i := 0 to |asked|
        invariant forall j :: 0 <= j < i ==> !settled[asked[j]]
      {
        if settled[asked[i]] {
          return true;
        }
      }
      return false;
    }

    /** The continuation once everything has settled. */
    method Conclude()
      requires AllSettled(Progress())
      modifies `failureCode, `finished
      ensures Progress() == old(Progress()).(finished := true)
      ensures failureCode <==>
        old(failureCode) || closing == Closed(true) || exists i :: 0 <= i < |asked| && settled[asked[i]]
    {
      var backgroundFailed := FindRejection();
      if backgroundFailed || closing.failed {
        SetFailureExitCode();
      }
      finished := true;
    }
  }

  /** A supervised scheduler: started once, and its end observed. */
  class Runtime {
    const loop: Loop
    const shutdown: Shutdown
    var completion: bool
    var loopStarts: nat
    var observed: bool
    var failureExitCodeRequested: bool

    /** The code is requested once, which is enough because nothing ever takes it back. */
    ghost predicate Valid()
      reads this, shutdown`failureCode
    {
      && (failureExitCodeRequested ==> shutdown.failureCode)
      && loopStarts == (if completion then 1 else 0)
      && (observed ==> completion)
    }

    constructor (loop: Loop, shutdown: Shutdown)
      ensures Valid() && this.loop == loop && this.shutdown == shutdown && !completion && !observed
    {
      this.loop, this.shutdown := loop, shutdown;
      completion, observed, failureExitCodeRequested, loopStarts := false, false, false, 0;
    }

    method Start()
      requires Valid()
      modifies `completion, `loopStarts
      ensures Valid() && completion && loopStarts == 1
    {
      if completion {
        return;
      }
      loopStarts := loopStarts + 1;
      completion := true;
    }

    method RequestFailureExitCode()
      requires Valid()
      modifies `failureExitCodeRequested, shutdown`failureCode
      ensures Valid() && shutdown.failureCode
    {
      if failureExitCodeRequested {
        return;
      }
      failureExitCodeRequested := true;
      shutdown.SetFailureExitCode();
    }

    /** What the request throws is caught here, so it never reaches the process. */
    method ObserveCompletion(outcome: Completion, logFails: bool)
      requires Valid() && completion && !observed
      modifies `observed, `failureExitCodeRequested
      modifies shutdown`failureCode, shutdown`requested, shutdown`started, shutdown`stopCalls, shutdown`closeCalls
      modifies shutdown`pending
      ensures Valid() && observed
      ensures shutdown.failureCode <==> old(shutdown.failureCode) || outcome != Stopped
      ensures shutdown.requested <==> old(shutdown.requested) || outcome != Stopped
      ensures shutdown.Progress() == if outcome == Stopped then old(shutdown.Progress())
        else Answered(old(shutdown.Progress()), Configured(shutdown.machine, shutdown.backup), logFails)
    {
      observed := true;
      if outcome == Stopped {
        return;
      }
      RequestFailureExitCode();
      var threw := shutdown.RequestShutdown(logFails);
      if threw {
        RequestFailureExitCode();
      }
    }
  }

  /** Only asked loops settle, so looking through the asked ones misses no rejection. */
  lemma RejectionsAreFound(s: State)
    requires Inv(s) && AllSettled(s.stop)
    ensures AnyRejected(s.stop.settled) <==> exists i :: 0 <= i < |s.stop.asked| && s.stop.settled[s.stop.asked[i]]
  {
    hide Configured;
    if l :| l in s.stop.settled && s.stop.settled[l] {
      assert l in s.stop.asked;
    }
  }

  /** What the four handlers that request a shutdown do, seen from the whole process. */
  lemma HandlerStep(s: State, e: Event, t: State)
    requires Inv(s) && Enabled(s, e) && Asks(e) && !e.Completed?
    requires t == s.(requested := true, failureCode := s.failureCode || Alarms(e),
                     stop := Answered(s.stop, Configured(s.machine, s.backup), e.logFails),
                     throwPending := !e.UncaughtException? && Throws(s, e.logFails),
                     ended := if e.UncaughtException? then Throws(s, e.logFails) else s.ended)
    ensures Next(s, e) == t && Inv(t)
  {
    hide Inv, Answered, Configured;
    StepKeeps(s, e);
  }

  /** The process with its events: `throwPending` and `ended` are what the runtime below it does with a throw. */
  class Application {
    const shutdown: Shutdown
    const service: Runtime
    const machine: Runtime?
    const backup: bool
    var listened: bool
    var backupStarted: bool
    var throwPending: bool
    var ended: bool

    /** Everything refers to the same shutdown, and the schedulers start together, from `listening`. */
    ghost predicate Wired()
      reads this, shutdown`failureCode, service, machine
    {
      && service.shutdown == shutdown && service.loop == ServiceLoop && service.Valid()
      && shutdown.backup == backup && (shutdown.machine <==> machine != null)
      && (machine != null ==>
            && machine != service && machine.shutdown == shutdown && machine.loop == MachineLoop && machine.Valid()
            && machine.completion == service.completion)
      && backupStarted == (backup && service.completion)
    }

    ghost predicate Valid()
      reads this, shutdown, service, machine
    {
      Wired() && Inv(View())
    }

    /** `Wired` makes it all of them or none. */
    ghost function Running(): set<Loop>
      reads service
    {
      if service.completion then Elements(Configured(shutdown.machine, backup)) else {}
    }

    ghost function Completions(): set<Loop>
      reads service, machine
    {
      (if service.observed then {ServiceLoop} else {})
      + (if machine != null && machine.observed then {MachineLoop} else {})
    }

    ghost function View(): State
      reads this, shutdown, service, machine
    {
      State(shutdown.machine, backup, listened, shutdown.requested, shutdown.failureCode, Running(), Completions(),
            shutdown.Progress(), throwPending, ended)
    }

    constructor (machinePower: bool, backup: bool)
      ensures Valid() && View() == Initial(machinePower, backup)
      ensures fresh(shutdown) && fresh(service) && (machine != null ==> fresh(machine))
    {
      var stop := new Shutdown(machinePower, backup);
      var runtime := new Runtime(ServiceLoop, stop);
      var power: Runtime? := null;
      if machinePower {
        power := new Runtime(MachineLoop, stop);
      }
      shutdown, service, machine := stop, runtime, power;
      this.backup, listened, backupStarted, throwPending, ended := backup, false, false, false, false;
      new;
      InitialInv(machinePower, backup);
    }

    /** A throw of the listener goes to `OnUncaughtException`, and nothing else runs before it. */
    method OnSignal(logFails: bool) returns (threw: bool)
      requires Valid() && Enabled(View(), Signal(logFails))
      modifies `throwPending, shutdown
      ensures Valid() && View() == Next(old(View()), Signal(logFails))
      ensures threw <==> throwPending
    {
      hide Inv, Configured, Answered, Running, Completions, Next, Enabled;
      ghost var before := View();
      threw := shutdown.RequestShutdown(logFails);
      throwPending := threw;
      HandlerStep(before, Signal(logFails), View());
    }

    method OnServerError(logFails: bool) returns (threw: bool)
      requires Valid() && Enabled(View(), ServerError(logFails))
      modifies `throwPending, shutdown
      ensures Valid() && View() == Next(old(View()), ServerError(logFails))
      ensures threw <==> throwPending
    {
      hide Inv, Configured, Answered, Running, Completions, Next, Enabled;
      ghost var before := View();
      threw := shutdown.FailAndRequest(logFails);
      throwPending := threw;
      HandlerStep(before, ServerError(logFails), View());
    }

    method OnUnhandledRejection(logFails: bool) returns (threw: bool)
      requires Valid() && Enabled(View(), UnhandledRejection(logFails))
      modifies `throwPending, shutdown
      ensures Valid() && View() == Next(old(View()), UnhandledRejection(logFails))
      ensures threw <==> throwPending
    {
      hide Inv, Configured, Answered, Running, Completions, Next, Enabled;
      ghost var before := View();
      threw := shutdown.FailAndRequest(logFails);
      throwPending := threw;
      HandlerStep(before, UnhandledRejection(logFails), View());
    }

    /** Nobody catches what this handler throws: the process ends. */
    method OnUncaughtException(logFails: bool) returns (threw: bool)
      requires Valid() && Enabled(View(), UncaughtException(logFails))
      modifies `throwPending, `ended, shutdown
      ensures Valid() && View() == Next(old(View()), UncaughtException(logFails))
      ensures threw <==> ended
    {
      hide Inv, Configured, Answered, Running, Completions, Next, Enabled;
      ghost var before := View();
      threw := shutdown.FailAndRequest(logFails);
      throwPending, ended := false, threw;
      HandlerStep(before, UncaughtException(logFails), View());
    }

    method OnListening()
      requires Valid() && Enabled(View(), Listening)
      modifies this, service, machine
      ensures Valid() && View() == Next(old(View()), Listening)
    {
      hide Inv, Configured, Elements;
      ghost var before := View();
      NotYetListening(before);
      listened := true;
      if !shutdown.requested {
        service.Start();
        if machine != null {
          machine.Start();
        }
        if backup {
          backupStarted := true;
        }
      }
      StepKeeps(before, Listening);
    }

    method OnServiceCompletion(outcome: Completion, logFails: bool)
      requires Valid() && Enabled(View(), Completed(ServiceLoop, outcome, logFails))
      modifies shutdown, service
      ensures Valid() && View() == Next(old(View()), Completed(ServiceLoop, outcome, logFails))
    {
      hide Inv, Configured, Elements, Answered;
      ghost var before, e := View(), Completed(ServiceLoop, outcome, logFails);
      service.ObserveCompletion(outcome, logFails);
      assert Completions() == before.completed + {ServiceLoop};
      StepKeeps(before, e);
    }

    method OnMachineCompletion(outcome: Completion, logFails: bool)
      requires Valid() && machine != null && Enabled(View(), Completed(MachineLoop, outcome, logFails))
      modifies shutdown, machine
      ensures Valid() && View() == Next(old(View()), Completed(MachineLoop, outcome, logFails))
    {
      hide Inv, Configured, Elements, Answered;
      ghost var before, e := View(), Completed(MachineLoop, outcome, logFails);
      machine.ObserveCompletion(outcome, logFails);
      assert Completions() == before.completed + {MachineLoop};
      StepKeeps(before, e);
    }

    method OnStopTask(throws: bool)
      requires Valid() && Enabled(View(), StopTask(throws))
      modifies shutdown
      ensures Valid() && View() == Next(old(View()), StopTask(throws))
    {
      hide Inv, Running, Completions, StopStep;
      ghost var before := View();
      shutdown.RunStopTask(throws);
      StepKeeps(before, StopTask(throws));
    }

    method OnStopSettled(l: Loop, rejected: bool)
      requires Valid() && Enabled(View(), StopSettled(l, rejected))
      modifies shutdown
      ensures Valid() && View() == Next(old(View()), StopSettled(l, rejected))
    {
      hide Inv, Running, Completions;
      ghost var before := View();
      shutdown.settled := shutdown.settled[l := rejected];
      StepKeeps(before, StopSettled(l, rejected));
    }

    method OnServerClosed(failed: bool)
      requires Valid() && Enabled(View(), ServerClosed(failed))
      modifies shutdown
      ensures Valid() && View() == Next(old(View()), ServerClosed(failed))
    {
      hide Inv, Running, Completions;
      ghost var before := View();
      shutdown.closing := Closed(failed);
      StepKeeps(before, ServerClosed(failed));
    }

    method OnFinish()
      requires Valid() && Enabled(View(), Finish)
      modifies shutdown
      ensures Valid() && View() == Next(old(View()), Finish)
    {
      hide Inv, Running, Completions, AnyRejected, Configured, Reacted;
      ghost var before := View();
      RejectionsAreFound(before);
      shutdown.Conclude();
      StepKeeps(before, Finish);
    }
  }

  lemma NotYetListening(s: State)
    requires Inv(s) && !s.listened
    ensures s.running == {}
    ensures ServiceLoop in Elements(Configured(s.machine, s.backup))
  {
  }
}
