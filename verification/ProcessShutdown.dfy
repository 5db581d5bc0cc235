/**
 Stopping the process: signals, server errors, unhandled errors and scheduler completions arrive in any
 order around one shutdown, which is started once, asks every loop to stop and waits for all of them.
 */
module ProcessShutdown {

  datatype Loop = ServiceLoop | MachineLoop | BackupLoop

  datatype Completion = Stopped | Incomplete | Conflict | Blocked | Failed | Rejected

  /**
   What the event loop delivers. `logFails` says that the line announcing the shutdown could not be
   written, so that the request for it throws unless the shutdown has been started before.
   */
  datatype Event =
    | Signal(logFails: bool)
    | ServerError(logFails: bool)
    | UnhandledRejection(logFails: bool)
    | UncaughtException(logFails: bool)
    | Listening
    | Completed(scheduler: Loop, outcome: Completion, logFails: bool)
    | StopTask(throws: bool)
    | StopSettled(loop: Loop, rejected: bool)
    | ServerClosed(closeFailed: bool)
    | Finish

  datatype Closing = Open | Closed(failed: bool)

  /** The coordinated shutdown: what it started, whom it asked to stop, and what it has heard since. */
  datatype Stop = Stop(
    started: bool,
    closeCalls: nat,
    stopCalls: nat,
    pending: seq<Loop>,
    asked: seq<Loop>,
    settled: map<Loop, bool>,
    closing: Closing,
    finished: bool)

  /**
   The process. `throwPending`: an exception has left a listener and not yet reached the handler for
   uncaught ones, before which nothing else runs. `ended`: that handler threw, and the process is gone.
   */
  datatype State = State(
    machine: bool,
    backup: bool,
    listened: bool,
    requested: bool,
    failureCode: bool,
    running: set<Loop>,
    completed: set<Loop>,
    stop: Stop,
    throwPending: bool,
    ended: bool)

  /** The loops of this process, in the order they are asked to stop. */
  function Configured(machine: bool, backup: bool): seq<Loop>
  {
    [ServiceLoop] + (if machine then [MachineLoop] else []) + (if backup then [BackupLoop] else [])
  }

  function Elements(loops: seq<Loop>): set<Loop>
  {
    set l | l in loops
  }

  const IDLE := Stop(false, 0, 0, [], [], map[], Open, false)

  function Initial(machine: bool, backup: bool): State
  {
    State(machine, backup, false, false, false, {}, {}, IDLE, false, false)
  }

  predicate AllSettled(stop: Stop)
  {
    stop.started && stop.pending == [] && stop.closing.Closed? && forall l <- stop.asked :: l in stop.settled
  }

  /** Part of the shutdown's own work rather than something it reacts to. */
  predicate Internal(e: Event)
  {
    e.StopTask? || e.StopSettled? || e.ServerClosed? || e.Finish?
  }

  /** A promise settles once, and a task runs once. */
  predicate StopEnabled(stop: Stop, e: Event)
  {
    match e
    case StopTask(_) => stop.pending != []
    case StopSettled(l, _) => l in stop.asked && l !in stop.settled
    case ServerClosed(_) => stop.closeCalls > 0 && stop.closing.Open?
    case Finish => !stop.finished && AllSettled(stop)
    case _ => false
  }

  /** `listening` is heard once, only a started loop completes, and a thrown exception comes before anything else. */
  predicate Enabled(s: State, e: Event)
  {
    && !s.ended
    && (s.throwPending ==> e.UncaughtException?)
    && match e
       case Listening => !s.listened
       case Completed(l, outcome, _) =>
         l != BackupLoop && l in s.running && l !in s.completed && (l == ServiceLoop ==> outcome != Blocked)
       case _ => Internal(e) ==> StopEnabled(s.stop, e)
  }

  // ---------------------------------------------------------------- kinds of events

  /** Something went wrong, whatever happens next. */
  predicate Alarms(e: Event)
  {
    e.ServerError? || e.UnhandledRejection? || e.UncaughtException? || (e.Completed? && e.outcome != Stopped)
  }

  predicate Asks(e: Event)
  {
    e.Signal? || Alarms(e)
  }

  predicate Starts(e: Event)
  {
    Asks(e) && !e.logFails
  }

  /** A request whose failure nobody hears of: only the scheduler runtimes catch what it throws. */
  predicate Swallowed(e: Event)
  {
    e.Completed? && Asks(e) && e.logFails
  }

  predicate Insists(e: Event)
  {
    Asks(e) && !Swallowed(e)
  }

  /** Part of stopping went wrong. */
  predicate StopFails(e: Event)
  {
    (e.StopTask? && e.throws) || (e.StopSettled? && e.rejected) || (e.ServerClosed? && e.closeFailed)
  }

  predicate Finishes(e: Event)
  {
    e == Finish
  }

  predicate Listens(e: Event)
  {
    e == Listening
  }

  // ---------------------------------------------------------------- one event

  predicate AnyRejected(settled: map<Loop, bool>)
  {
    exists l :: l in settled && settled[l]
  }

  predicate StopFailed(stop: Stop)
  {
    AnyRejected(stop.settled) || stop.closing == Closed(true)
  }

  /** The synchronous part of the coordinated shutdown. */
  function Begun(stop: Stop, loops: seq<Loop>): Stop
  {
    stop.(started := true, closeCalls := stop.closeCalls + 1, stopCalls := stop.stopCalls + 1,
          pending := stop.pending + loops)
  }

  /** The shutdown after a request: only the first that can be announced begins it. */
  function Answered(stop: Stop, loops: seq<Loop>, logFails: bool): Stop
  {
    if stop.started || logFails then stop else Begun(stop, loops)
  }

  function Request(s: State, logFails: bool): State
  {
    s.(requested := true, stop := Answered(s.stop, Configured(s.machine, s.backup), logFails))
  }

  predicate Throws(s: State, logFails: bool)
  {
    !s.stop.started && logFails
  }

  function StopStep(stop: Stop, e: Event): Stop
    requires StopEnabled(stop, e)
  {
    match e
    case StopTask(throws) =>
      var l := stop.pending[0];
      stop.(pending := stop.pending[1..], asked := stop.asked + [l],
            settled := if throws then stop.settled[l := true] else stop.settled)
    case StopSettled(l, rejected) => stop.(settled := stop.settled[l := rejected])
    case ServerClosed(failed) => stop.(closing := Closed(failed))
    case Finish => stop.(finished := true)
  }

  /** A step of the shutdown's own work touches nothing but the shutdown and, at its end, the exit code. */
  function Worked(s: State, e: Event): (t: State)
    requires StopEnabled(s.stop, e)
    ensures t == s.(stop := StopStep(s.stop, e), failureCode := t.failureCode)
    ensures t.failureCode <==> s.failureCode || (e == Finish && StopFailed(s.stop))
  {
    s.(stop := StopStep(s.stop, e), failureCode := s.failureCode || (e == Finish && StopFailed(s.stop)))
  }

  /** A completion is remembered, an alarm sets the exit code, and a request that throws is left to its caller. */
  function Reacted(s: State, e: Event): (t: State)
    requires Asks(e) || e.Completed?
    ensures t.running == s.running && t.listened == s.listened && t.machine == s.machine && t.backup == s.backup
    ensures t.failureCode <==> s.failureCode || Alarms(e)
    ensures t.requested <==> s.requested || Asks(e)
    ensures t.stop == if Asks(e) then Answered(s.stop, Configured(s.machine, s.backup), e.logFails) else s.stop
  {
    match e
    case Signal(logFails) => Request(s, logFails).(throwPending := Throws(s, logFails))
    case ServerError(logFails) => Request(s.(failureCode := true), logFails).(throwPending := Throws(s, logFails))
    case UnhandledRejection(logFails) =>
      Request(s.(failureCode := true), logFails).(throwPending := Throws(s, logFails))
    case UncaughtException(logFails) =>
      Request(s.(failureCode := true), logFails).(throwPending := false, ended := Throws(s, logFails))
    case Completed(l, outcome, logFails) =>
      var t := s.(completed := s.completed + {l});
      if outcome == Stopped then t else Request(t.(failureCode := true), logFails)
  }

  function Next(s: State, e: Event): State
    requires Enabled(s, e)
  {
    if Internal(e) then Worked(s, e)
    else if e == Listening then
      s.(listened := true, running := if s.requested then s.running else Elements(Configured(s.machine, s.backup)))
    else Reacted(s, e)
  }

  // ---------------------------------------------------------------- every order of events

  predicate Possible(s: State, es: seq<Event>)
    decreases |es|, 0
  {
    es == [] || (Possible(s, es[..|es| - 1]) && Enabled(After(s, es[..|es| - 1]), es[|es| - 1]))
  }

  function After(s: State, es: seq<Event>): State
    requires Possible(s, es)
    decreases |es|, 1
  {
    if es == [] then s else Next(After(s, es[..|es| - 1]), es[|es| - 1])
  }

  ghost predicate Some(es: seq<Event>, p: Event -> bool)
  {
    exists i :: 0 <= i < |es| && p(es[i])
  }

  lemma SomeLast(es: seq<Event>, p: Event -> bool)
    requires es != []
    ensures Some(es, p) <==> Some(es[..|es| - 1], p) || p(es[|es| - 1])
  {
    var front := es[..|es| - 1];
    if Some(es, p) && !p(es[|es| - 1]) {
      var i :| 0 <= i < |es| && p(es[i]);
      assert front[i] == es[i];
    }
    if Some(front, p) {
      var i :| 0 <= i < |front| && p(front[i]);
      assert es[i] == front[i];
    }
  }

  /** What a shutdown always looks like, for the loops it has to stop. */
  ghost predicate StopInv(stop: Stop, loops: seq<Loop>)
  {
    && stop.closeCalls == stop.stopCalls == (if stop.started then 1 else 0)
    && stop.asked + stop.pending == (if stop.started then loops else [])
    && (forall l :: l in stop.settled ==> l in stop.asked)
    && (stop.closing.Closed? ==> stop.started)
    && (stop.finished ==> AllSettled(stop))
  }

  /** What a process always looks like; `StepKeeps` is the heart of every theorem below. */
  ghost predicate Inv(s: State)
  {
    && StopInv(s.stop, Configured(s.machine, s.backup))
    && (s.stop.started ==> s.requested && !s.throwPending && !s.ended)
    && (s.throwPending || s.ended ==> s.requested)
    && (s.stop.finished && StopFailed(s.stop) ==> s.failureCode)
    && s.completed <= s.running
    && (s.running != {} ==> s.listened && s.running == Elements(Configured(s.machine, s.backup)))
  }

  lemma Reassociated(asked: seq<Loop>, pending: seq<Loop>)
    requires pending != []
    ensures (asked + [pending[0]]) + pending[1..] == asked + pending
  {
  }

  lemma AnswerKeeps(stop: Stop, loops: seq<Loop>, logFails: bool)
    requires StopInv(stop, loops)
    ensures StopInv(Answered(stop, loops, logFails), loops)
    ensures var t := Answered(stop, loops, logFails);
      t.settled == stop.settled && t.closing == stop.closing && t.finished == stop.finished
    ensures Answered(stop, loops, logFails).started <==> stop.started || !logFails
  {
    if !stop.started && !logFails {
      assert stop.asked == [] && stop.pending == [];
      assert stop.asked + (stop.pending + loops) == loops;
    }
  }

  /** The shutdown's own steps keep it; what it has started stays started, and once finished it stays as it is. */
  lemma StopStepKeeps(stop: Stop, e: Event, loops: seq<Loop>)
    requires StopInv(stop, loops) && StopEnabled(stop, e)
    ensures StopInv(StopStep(stop, e), loops)
    ensures StopStep(stop, e).started == stop.started && stop.started && !stop.finished
    ensures StopStep(stop, e).finished == (e == Finish)
  {
    if e.StopTask? {
      Reassociated(stop.asked, stop.pending);
    }
  }

  lemma WorkedKeeps(s: State, e: Event)
    requires Inv(s) && Internal(e) && Enabled(s, e)
    ensures Inv(Next(s, e))
  {
    hide StopInv, StopStep, Worked, Reacted, Configured, Elements, AnyRejected, AllSettled;
    StopStepKeeps(s.stop, e, Configured(s.machine, s.backup));
    FinishReports(s.stop, e);
  }

  lemma ReactedKeeps(s: State, e: Event)
    requires Inv(s) && !Internal(e) && e != Listening && Enabled(s, e)
    ensures Inv(Next(s, e))
  {
    hide StopInv, Answered, Configured, Elements, AnyRejected;
    if Asks(e) {
      AnswerKeeps(s.stop, Configured(s.machine, s.backup), e.logFails);
    }
  }

  lemma StepKeeps(s: State, e: Event)
    requires Inv(s) && Enabled(s, e)
    ensures Inv(Next(s, e))
    ensures Next(s, e).machine == s.machine && Next(s, e).backup == s.backup
  {
    hide StopInv, StopStep, StopEnabled, Worked, Reacted, Answered, Configured, Elements, AnyRejected;
    if Internal(e) {
      WorkedKeeps(s, e);
    } else if e != Listening {
      ReactedKeeps(s, e);
    }
  }

  lemma FinishReports(stop: Stop, e: Event)
    requires StopEnabled(stop, e)
    ensures e == Finish ==> StopFailed(StopStep(stop, e)) == StopFailed(stop)
  {
  }

  lemma InitialInv(machine: bool, backup: bool)
    ensures Inv(Initial(machine, backup))
  {
    hide Configured;
  }

  lemma {:induction false} Reachable(machine: bool, backup: bool, es: seq<Event>)
    requires Possible(Initial(machine, backup), es)
    ensures Inv(After(Initial(machine, backup), es))
    ensures After(Initial(machine, backup), es).machine == machine
    ensures After(Initial(machine, backup), es).backup == backup
    decreases |es|
  {
    hide Inv, Next, Enabled, Configured;
    InitialInv(machine, backup);
    if es != [] {
      var front := es[..|es| - 1];
      Reachable(machine, backup, front);
      StepKeeps(After(Initial(machine, backup), front), es[|es| - 1]);
    }
  }

  // ---------------------------------------------------------------- what one event changes

  lemma RejectionAdds(settled: map<Loop, bool>, l: Loop, rejected: bool)
    requires l in settled ==> rejected
    ensures AnyRejected(settled[l := rejected]) <==> AnyRejected(settled) || rejected
  {
    var more := settled[l := rejected];
    if rejected {
      assert more[l];
    }
    if k :| k in settled && settled[k] {
      assert more[k];
    }
  }

  lemma StopFailuresAdd(stop: Stop, e: Event)
    requires StopEnabled(stop, e)
    ensures StopFailed(StopStep(stop, e)) <==> StopFailed(stop) || StopFails(e)
  {
    hide AnyRejected, AllSettled;
    if e.StopTask? {
      RejectionAdds(stop.settled, stop.pending[0], true);
    } else if e.StopSettled? {
      RejectionAdds(stop.settled, e.loop, e.rejected);
    }
  }

  /** A step adds exactly its own failure to those already seen. */
  lemma FailuresAdd(s: State, e: Event)
    requires Enabled(s, e)
    ensures StopFailed(Next(s, e).stop) <==> StopFailed(s.stop) || StopFails(e)
  {
    hide Worked, Reacted, Configured, Elements, StopStep, StopEnabled, AnyRejected;
    if Internal(e) {
      StopFailuresAdd(s.stop, e);
    }
  }

  /** Neither a request nor a completion starts a scheduler; `listening` starts all of them or none. */
  lemma RunningStep(s: State, e: Event)
    requires Enabled(s, e)
    ensures Next(s, e).listened <==> s.listened || e == Listening
    ensures Next(s, e).running
            == if e == Listening && !s.requested then Elements(Configured(s.machine, s.backup)) else s.running
  {
    hide Worked, Reacted, Answered, StopStep, StopEnabled, Configured, Elements, StopFailed;
  }

  lemma RequestStep(s: State, e: Event)
    requires Inv(s) && Enabled(s, e)
    ensures Next(s, e).stop.started <==> s.stop.started || Starts(e)
    ensures Next(s, e).requested <==> s.requested || Asks(e)
  {
    hide Worked, Reacted, StopInv, StopStep, Answered, Configured, Elements, StopFailed;
    if Internal(e) {
      StopStepKeeps(s.stop, e, Configured(s.machine, s.backup));
    } else if Asks(e) {
      AnswerKeeps(s.stop, Configured(s.machine, s.backup), e.logFails);
    }
  }

  lemma FinishStep(s: State, e: Event)
    requires Inv(s) && Enabled(s, e)
    ensures Next(s, e).stop.finished <==> s.stop.finished || e == Finish
    ensures s.stop.finished ==> !StopFails(e)
  {
    hide Worked, Reacted, StopInv, StopStep, Answered, Configured, Elements, StopFailed;
    if Internal(e) {
      StopStepKeeps(s.stop, e, Configured(s.machine, s.backup));
    } else if Asks(e) {
      AnswerKeeps(s.stop, Configured(s.machine, s.backup), e.logFails);
    }
  }

  lemma FailureCodeStep(s: State, e: Event)
    requires Enabled(s, e)
    ensures Next(s, e).failureCode <==> s.failureCode || Alarms(e) || (e == Finish && StopFailed(s.stop))
  {
    hide Worked, Reacted, StopStep, StopEnabled, Answered, Configured, Elements, StopFailed;
  }

  /** Until the shutdown has started, an insisting request is followed by a pending throw or the end. */
  lemma InsistingStep(s: State, e: Event)
    requires Inv(s) && Enabled(s, e)
    ensures Insists(e) && !Next(s, e).stop.started ==> Next(s, e).throwPending || Next(s, e).ended
    ensures s.throwPending && !Next(s, e).stop.started ==> Next(s, e).ended
    ensures !Insists(e) ==> !s.throwPending && Next(s, e).throwPending == s.throwPending && Next(s, e).ended == s.ended
  {
    hide StopInv, StopStep, StopEnabled, Configured, Elements, StopFailed;
  }

  // ---------------------------------------------------------------- the history a state carries

  /** Which requests, alarms and failures there have been. */
  ghost predicate Recorded(s: State, es: seq<Event>)
  {
    && (s.stop.started <==> Some(es, Starts))
    && (s.requested <==> Some(es, Asks))
    && (s.failureCode <==> Some(es, Alarms) || (s.stop.finished && StopFailed(s.stop)))
    && (StopFailed(s.stop) <==> Some(es, StopFails))
    && (s.stop.finished <==> Some(es, Finishes))
    && (s.listened <==> Some(es, Listens))
    && (!s.stop.started && !s.throwPending && !s.ended ==> !Some(es, Insists))
  }

  lemma {:induction false} History(machine: bool, backup: bool, es: seq<Event>)
    requires Possible(Initial(machine, backup), es)
    ensures Recorded(After(Initial(machine, backup), es), es)
    decreases |es|
  {
    if es != [] {
      var front, e := es[..|es| - 1], es[|es| - 1];
      History(machine, backup, front);
      Reachable(machine, backup, front);
      RecordedStep(After(Initial(machine, backup), front), front, e, es);
    }
  }

  lemma RecordedStep(s: State, front: seq<Event>, e: Event, es: seq<Event>)
    requires Inv(s) && Enabled(s, e) && Recorded(s, front)
    requires es != [] && es[..|es| - 1] == front && es[|es| - 1] == e
    ensures Recorded(Next(s, e), es)
  {
    hide Some, Next, Enabled, Inv, StopFailed;
    SomeLast(es, Starts);
    SomeLast(es, Asks);
    SomeLast(es, Alarms);
    SomeLast(es, StopFails);
    SomeLast(es, Finishes);
    SomeLast(es, Listens);
    SomeLast(es, Insists);
    FailuresAdd(s, e);
    FailureCodeStep(s, e);
    FinishStep(s, e);
    RequestStep(s, e);
    RunningStep(s, e);
    InsistingStep(s, e);
  }

  // ---------------------------------------------------------------- the theorems

  /**
   For every order of events: the server is closed once and the background work stopped once, if and
   only if a request could be announced, and never before. A process that is alive and has no exception
   on its way has done so as soon as there was any request other than one whose throw a runtime swallowed.
   */
  lemma StartedExactlyOnce(machine: bool, backup: bool, es: seq<Event>)
    requires Possible(Initial(machine, backup), es)
    ensures var s := After(Initial(machine, backup), es);
            && (Some(es, Starts) ==> s.stop.closeCalls == 1 && s.stop.stopCalls == 1)
            && (!Some(es, Starts) ==> s.stop.closeCalls == 0 && s.stop.stopCalls == 0 && s.stop.asked == [])
            && (!s.ended && !s.throwPending && Some(es, Insists) ==> Some(es, Starts))
  {
    Reachable(machine, backup, es);
    History(machine, backup, es);
  }

  /**
   Exactly when a live process with nothing thrown was asked to shut down and has not begun to: somebody
   asked, and every request so far came from a scheduler that ended badly, its announcement failing.
   */
  lemma RequestedButNotStarted(machine: bool, backup: bool, es: seq<Event>)
    requires Possible(Initial(machine, backup), es)
    requires var s := After(Initial(machine, backup), es); !s.ended && !s.throwPending
    ensures var s := After(Initial(machine, backup), es);
            s.requested && !s.stop.started <==>
              && Some(es, Asks)
              && forall i :: 0 <= i < |es| && Asks(es[i]) ==> es[i].Completed? && es[i].logFails
  {
    History(machine, backup, es);
    var s := After(Initial(machine, backup), es);
    assert !Some(es, Insists) <==> forall i :: 0 <= i < |es| && Asks(es[i]) ==> Swallowed(es[i]);
    if s.stop.started {
      var i :| 0 <= i < |es| && Starts(es[i]);
      assert Insists(es[i]);
    }
  }

  /** The input: a scheduler fails, the announcement cannot be written, and the process runs on unclosed. */
  lemma SwallowedRequest()
    ensures var es := [Listening, Completed(ServiceLoop, Failed, true)];
            && Possible(Initial(true, true), es)
            && var s := After(Initial(true, true), es);
            && s.requested && s.stop == IDLE && s.failureCode && !s.ended && !s.throwPending
            && s.running == {ServiceLoop, MachineLoop, BackupLoop}
  {
    var es := [Listening, Completed(ServiceLoop, Failed, true)];
    var start, first := Initial(true, true), es[..1];
    assert first == [Listening] && first[..0] == [];
    assert Possible(start, []) && Enabled(start, Listening);
    assert Possible(start, first);
    assert After(start, first) == Next(start, Listening);
  }

  /**
   What a listener throws is not lost: the next thing to run, if anything does, is the handler for
   uncaught exceptions, and it starts the shutdown or its own throw ends the process.
   */
  lemma ThrowIsHandledNext(machine: bool, backup: bool, es: seq<Event>, i: nat)
    requires Possible(Initial(machine, backup), es) && i + 1 < |es|
    requires Possible(Initial(machine, backup), es[..i + 1])
    requires After(Initial(machine, backup), es[..i + 1]).throwPending
    ensures es[i + 1].UncaughtException?
    ensures Possible(Initial(machine, backup), es[..i + 2])
    ensures var s := After(Initial(machine, backup), es[..i + 2]);
            && s.failureCode && (s.stop.started <==> !es[i + 1].logFails) && (s.ended <==> es[i + 1].logFails)
    ensures es[i + 1].logFails ==> |es| == i + 2
  {
    hide Next, Inv, StopEnabled, Configured, Internal;
    var start := Initial(machine, backup);
    PrefixIsPossible(start, es, i + 2);
    var some := es[..i + 2];
    assert some[..i + 1] == es[..i + 1] && some[i + 1] == es[i + 1];
    var s, e := After(start, es[..i + 1]), es[i + 1];
    Reachable(machine, backup, es[..i + 1]);
    HandledThrow(s, e);
    if e.logFails && |es| > i + 2 {
      PrefixIsPossible(start, es, i + 3);
      assert es[..i + 3][..i + 2] == some;
    }
  }

  lemma HandledThrow(s: State, e: Event)
    requires Inv(s) && Enabled(s, e) && s.throwPending
    ensures var t := Next(s, e); t.failureCode && (t.stop.started <==> !e.logFails) && (t.ended <==> e.logFails)
  {
    hide StopInv, Configured;
  }

  lemma {:induction false} PrefixIsPossible(s: State, es: seq<Event>, n: nat)
    requires Possible(s, es) && n <= |es|
    ensures Possible(s, es[..n])
    decreases |es|
  {
    if n < |es| {
      var front := es[..|es| - 1];
      PrefixIsPossible(s, front, n);
      assert front[..n] == es[..n];
    } else {
      assert es[..n] == es;
    }
  }

  lemma DistinctLoops(machine: bool, backup: bool)
    ensures forall i, j :: 0 <= i < j < |Configured(machine, backup)| ==>
      Configured(machine, backup)[i] != Configured(machine, backup)[j]
  {
  }

  /** Every loop is asked at most once, in order; whoever is not asked yet has its own task waiting. */
  lemma AskedOrWaiting(machine: bool, backup: bool, es: seq<Event>)
    requires Possible(Initial(machine, backup), es) && Some(es, Starts)
    ensures var stop := After(Initial(machine, backup), es).stop;
            && stop.asked + stop.pending == Configured(machine, backup)
            && forall i, j :: 0 <= i < j < |stop.asked| ==> stop.asked[i] != stop.asked[j]
  {
    hide Configured;
    Reachable(machine, backup, es);
    History(machine, backup, es);
    var stop := After(Initial(machine, backup), es).stop;
    DistinctLoops(machine, backup);
    forall i, j | 0 <= i < j < |stop.asked| ensures stop.asked[i] != stop.asked[j] {
      assert Configured(machine, backup)[i] == stop.asked[i] && Configured(machine, backup)[j] == stop.asked[j];
    }
  }

  /** The waiting tasks run to the end whichever of them throw, and then every loop has been asked. */
  lemma {:induction false} EveryLoopIsAsked(machine: bool, backup: bool, es: seq<Event>, throws: seq<bool>)
    requires Possible(Initial(machine, backup), es) && Some(es, Starts)
    requires |throws| == |After(Initial(machine, backup), es).stop.pending|
    ensures Possible(Initial(machine, backup), es + Tasks(throws))
    ensures After(Initial(machine, backup), es + Tasks(throws)).stop.asked == Configured(machine, backup)
    decreases |throws|
  {
    hide Configured, Next, Enabled, Some, Inv;
    AskedOrWaiting(machine, backup, es);
    Reachable(machine, backup, es);
    History(machine, backup, es);
    var s := After(Initial(machine, backup), es);
    if throws == [] {
      assert es + Tasks(throws) == es;
      assert s.stop.asked + s.stop.pending == s.stop.asked;
    } else {
      TaskStep(s, throws[0]);
      var more := es + [StopTask(throws[0])];
      assert more[..|more| - 1] == es;
      SomeLast(more, Starts);
      EveryLoopIsAsked(machine, backup, more, throws[1..]);
      assert es + Tasks(throws) == more + Tasks(throws[1..]);
    }
  }

  lemma TaskStep(s: State, throws: bool)
    requires Inv(s) && s.stop.started && s.stop.pending != []
    ensures Enabled(s, StopTask(throws)) && Next(s, StopTask(throws)).stop.pending == s.stop.pending[1..]
  {
  }

  function Tasks(throws: seq<bool>): seq<Event>
  {
    seq(|throws|, i requires 0 <= i < |throws| => StopTask(throws[i]))
  }

  /** A shutdown that has finished asked every loop, heard from every loop, and saw the server close. */
  lemma FinishedMeansStopped(machine: bool, backup: bool, es: seq<Event>)
    requires Possible(Initial(machine, backup), es) && Some(es, Finishes)
    ensures var stop := After(Initial(machine, backup), es).stop;
            && stop.asked == Configured(machine, backup)
            && stop.settled.Keys == Elements(Configured(machine, backup))
            && stop.closing.Closed?
  {
    hide Configured;
    Reachable(machine, backup, es);
    History(machine, backup, es);
    var stop := After(Initial(machine, backup), es).stop;
    assert stop.asked + stop.pending == stop.asked;
  }

  /**
   The failure exit code is exact: it is set if and only if there was a server error, an unhandled
   rejection, an uncaught exception or a scheduler that ended other than stopped, or the shutdown
   finished and part of stopping had failed.
   */
  lemma FailureCodeIsExact(machine: bool, backup: bool, es: seq<Event>)
    requires Possible(Initial(machine, backup), es)
    ensures After(Initial(machine, backup), es).failureCode
            <==> Some(es, Alarms) || (Some(es, Finishes) && Some(es, StopFails))
  {
    History(machine, backup, es);
  }

  /** `listening` came before anything asked for a shutdown. */
  ghost predicate ListenedFirst(es: seq<Event>)
  {
    exists i :: 0 <= i < |es| && es[i] == Listening && !Some(es[..i], Asks)
  }

  lemma ListenedFirstStep(es: seq<Event>)
    requires es != []
    ensures var front := es[..|es| - 1];
            ListenedFirst(es) <==> ListenedFirst(front) || (es[|es| - 1] == Listening && !Some(front, Asks))
  {
    var front := es[..|es| - 1];
    forall i | 0 <= i <= |front| ensures es[..i] == front[..i] {
    }
    if ListenedFirst(es) {
      var i :| 0 <= i < |es| && es[i] == Listening && !Some(es[..i], Asks);
      if i < |front| {
        assert front[i] == Listening && !Some(front[..i], Asks);
      } else {
        assert front[..i] == front;
      }
    }
    if ListenedFirst(front) {
      var i :| 0 <= i < |front| && front[i] == Listening && !Some(front[..i], Asks);
      assert es[i] == Listening && !Some(es[..i], Asks);
    }
    if es[|es| - 1] == Listening && !Some(front, Asks) {
      assert !Some(es[..|es| - 1], Asks);
    }
  }

  /**
   Schedulers run if and only if the server came up before the first request to shut down, even one whose
   shutdown could not be started; a late `listening` starts none, and then all configured ones start or none.
   */
  lemma {:induction false} SchedulersRunOnlyBeforeShutdown(machine: bool, backup: bool, es: seq<Event>)
    requires Possible(Initial(machine, backup), es)
    ensures After(Initial(machine, backup), es).running
            == if ListenedFirst(es) then Elements(Configured(machine, backup)) else {}
    decreases |es|
  {
    hide Configured, Next;
    if es != [] {
      var front := es[..|es| - 1];
      SchedulersRunOnlyBeforeShutdown(machine, backup, front);
      Reachable(machine, backup, front);
      History(machine, backup, front);
      ListenedFirstStep(es);
      var s := After(Initial(machine, backup), front);
      RunningStep(s, es[|es| - 1]);
    }
  }
}
