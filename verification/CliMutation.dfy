/**
 A service start, stop or restart from the command line, against any server and any network: what is
 sent, what is reported, and which exit code says so.
 */
module CliMutation {
  import opened Basics

  datatype ErrorCode =
    | InvalidArguments | UnknownCommand | AccessDenied | InfrastructureUnavailable | ServiceNotFound
    | ServiceOperationFailed | ServiceOperationUnsupported | ScheduleInvalid | BackupTargetNotFound
    | BackupRunNotFound | BackupOperationUnsupported | BackupOperationFailed | OperationConflict
    | InsecureTransport | OutcomeUnknown | InterruptedOutcomeUnknown | CleanlyInterrupted | CommandNotImplemented

  const OPERATIONAL_FAILURE := 1

  function ExitCode(code: ErrorCode): int
  {
    match code
    case InvalidArguments | UnknownCommand | CommandNotImplemented | InsecureTransport => 2
    case AccessDenied => 3
    case OperationConflict => 4
    case InfrastructureUnavailable | OutcomeUnknown => 5
    case CleanlyInterrupted | InterruptedOutcomeUnknown => 130
    case ServiceNotFound | ServiceOperationFailed | ServiceOperationUnsupported | ScheduleInvalid
       | BackupTargetNotFound | BackupRunNotFound | BackupOperationUnsupported | BackupOperationFailed =>
      OPERATIONAL_FAILURE
  }

  /** Everything the client can throw: its own errors, an interruption, a timeout, a lost connection, anything else. */
  datatype Thrown = CliError(code: ErrorCode) | Interrupted | TimedOut | NetworkLost(undelivered: bool) | Other

  /** `toCliError`. */
  function ToCliError(t: Thrown): ErrorCode
  {
    match t
    case CliError(code) => code
    case Interrupted => CleanlyInterrupted
    case _ => InfrastructureUnavailable
  }

  /** `mapMutationDispatchError`. */
  function MapDispatchError(t: Thrown): ErrorCode
  {
    match t
    case Interrupted => InterruptedOutcomeUnknown
    case TimedOut => OutcomeUnknown
    case NetworkLost(undelivered) => if undelivered then InfrastructureUnavailable else OutcomeUnknown
    case CliError(code) => code
    case Other => OutcomeUnknown
  }

  datatype Envelope = Envelope(status: int, stateRecheckRequired: bool, serviceAbsent: bool, malformed: bool,
                               acknowledged: Option<bool>, described: Option<set<string>>)

  /** `mapMutationRejection`. */
  function MapRejection(e: Envelope): ErrorCode
  {
    if e.status == 401 || e.status == 403 then AccessDenied
    else if e.status == 404 then ServiceNotFound
    else if e.status == 409 || e.status == 429 then OperationConflict
    else if e.stateRecheckRequired then OutcomeUnknown
    else ServiceOperationFailed
  }

  // ---------------------------------------------------------------- bounded responses

  const MAX_RESPONSE := 262144

  function Concat(chunks: seq<seq<nat>>): seq<nat>
  {
    if chunks == [] then [] else Concat(chunks[..|chunks| - 1]) + chunks[|chunks| - 1]
  }

  lemma {:induction false} ConcatGrows(chunks: seq<seq<nat>>, n: nat)
    requires n <= |chunks|
    ensures |Concat(chunks[..n])| <= |Concat(chunks)|
  {
    if n < |chunks| {
      var front := chunks[..|chunks| - 1];
      ConcatGrows(front, n);
      assert front[..n] == chunks[..n];
    } else {
      assert chunks[..n] == chunks;
    }
  }

  /** `readBoundedText`: the whole body, or an error as soon as the bound is passed. */
  method ReadBoundedText(declared: Option<int>, chunks: seq<seq<nat>>) returns (r: Option<seq<nat>>)
    ensures r.Some? <==> (declared.Some? ==> declared.value <= MAX_RESPONSE) && |Concat(chunks)| <= MAX_RESPONSE
    ensures r.Some? ==> r.value == Concat(chunks)
  {
    if declared.Some? && declared.value > MAX_RESPONSE {
      return None;
    }
    var kept: seq<nat> := [];
    for i := 0 to |chunks|
      invariant kept == Concat(chunks[..i]) && |kept| <= MAX_RESPONSE
    {
      assert chunks[..i + 1][..i] == chunks[..i];
      if |kept| + |chunks[i]| > MAX_RESPONSE {
        ConcatGrows(chunks, i + 1);
        return None;
      }
      kept := kept + chunks[i];
    }
    assert chunks[..|chunks|] == chunks;
    return Some(kept);
  }

  // ---------------------------------------------------------------- the command

  /** How one exchange goes: no response and why, or a response whose body may fail to arrive whole. */
  datatype Exchange =
    | NoResponse(signalAborted: bool, timeoutElapsed: bool, provenUndelivered: bool)
    | BodyLost(oversized: bool)
    | Answer(envelope: Envelope)

  /** `dispatch` and `readEnvelopeFrom`, as seen by the caller. */
  function Received(x: Exchange): (Option<Envelope>, Thrown)
  {
    match x
    case NoResponse(aborted, elapsed, undelivered) =>
      (None, if aborted then Interrupted else if elapsed then TimedOut else NetworkLost(undelivered))
    case BodyLost(oversized) => (None, if oversized then CliError(InfrastructureUnavailable) else Other)
    case Answer(e) => (Some(e), Other)
  }

  datatype Description = Described(operations: set<string>) | Absent | Denied | Indeterminate | Aborted

  /** `describeServiceSafely`; `Aborted` is the interruption it lets through before a mutation. */
  function Describe(x: Exchange, propagateInterruption: bool): Description
  {
    match Received(x)
    case (None, Interrupted) => if propagateInterruption then Aborted else Indeterminate
    case (None, _) => Indeterminate
    case (Some(e), _) =>
      if e.status == 401 || e.status == 403 then Denied
      else if e.status == 404 && e.serviceAbsent then Absent
      else if e.status != 200 || e.malformed || e.described.None? then Indeterminate
      else Described(e.described.value)
  }

  /** The advisory read stops the command only by a definite answer, or by an interruption. */
  predicate Proceeds(x: Exchange, operation: string)
  {
    match x
    case NoResponse(aborted, _, _) => !aborted
    case BodyLost(_) => true
    case Answer(e) =>
      && e.status != 401 && e.status != 403
      && !(e.status == 404 && e.serviceAbsent)
      && (e.status == 200 && !e.malformed && e.described.Some? ==> operation in e.described.value)
  }

  /** A readable success status whose body says the operation was successful. */
  predicate Acknowledges(x: Exchange)
  {
    x.Answer? && 200 <= x.envelope.status < 300 && !x.envelope.malformed && x.envelope.acknowledged == Some(true)
  }

  /** One command's connection: what it exchanges is decided by the world outside. */
  class Client {
    const credentialAllowed: bool
    const world: nat -> Exchange
    var exchanges: nat
    /** Requests that could change something, and those of them the server answered. */
    var mutationsSent: nat
    var mutationsAnswered: nat

    constructor (credentialAllowed: bool, world: nat -> Exchange)
      ensures this.credentialAllowed == credentialAllowed && this.world == world
      ensures mutationsSent == mutationsAnswered == 0
    {
      this.credentialAllowed, this.world := credentialAllowed, world;
      exchanges, mutationsSent, mutationsAnswered := 0, 0, 0;
    }

    /** One read. */
    method ReadEnvelope() returns (x: Exchange)
      modifies `exchanges
      ensures x == world(old(exchanges)) && exchanges == old(exchanges) + 1
    {
      x := world(exchanges);
      exchanges := exchanges + 1;
    }

    method Mutate() returns (e: Option<Envelope>, thrown: Thrown)
      modifies `exchanges, `mutationsSent, `mutationsAnswered
      ensures !credentialAllowed ==>
        e.None? && thrown == CliError(InsecureTransport) && mutationsSent == old(mutationsSent)
      ensures credentialAllowed ==> mutationsSent == old(mutationsSent) + 1
      ensures credentialAllowed ==> (e, thrown) == Received(world(old(exchanges)))
      ensures mutationsAnswered == old(mutationsAnswered) + if e.Some? then 1 else 0
      ensures e.None? ==> MapDispatchError(thrown) != CleanlyInterrupted
      ensures e.None? && credentialAllowed ==> ExitCode(MapDispatchError(thrown)) in {5, 130}
    {
      if !credentialAllowed {
        return None, CliError(InsecureTransport);
      }
      mutationsSent := mutationsSent + 1;
      var received := Received(world(exchanges));
      if received.0.None? {
        UnansweredIsNeverDefinite(world(exchanges));
      }
      exchanges := exchanges + 1;
      e, thrown := received.0, received.1;
      if e.Some? {
        mutationsAnswered := mutationsAnswered + 1;
      }
    }

    /** `executeServiceAction`: no error code means the operation is reported as completed. */
    method ExecuteServiceAction(operation: string, serviceGiven: bool)
      returns (error: Option<Thrown>, confirmed: bool, ghost mutateThrew: bool)
      requires mutationsSent == mutationsAnswered == 0
      modifies `exchanges, `mutationsSent, `mutationsAnswered
      ensures mutationsSent <= 1
      ensures error == Some(Interrupted) || error == Some(CliError(CleanlyInterrupted)) ==> mutationsSent == 0
      ensures mutateThrew <==> mutationsSent == 1 && mutationsAnswered == 0
      ensures mutateThrew ==> error.Some? && ExitCode(ToCliError(error.value)) in {5, 130}
      ensures error.Some? && ExitCode(ToCliError(error.value)) == OPERATIONAL_FAILURE ==>
        mutationsSent == mutationsAnswered
      ensures mutationsSent == 1 <==> credentialAllowed && serviceGiven && Proceeds(world(old(exchanges)), operation)
      ensures error.None? <==> mutationsSent == 1 && Acknowledges(world(old(exchanges) + 1))
      ensures mutationsSent == 1 ==>
        (error == Some(CliError(InterruptedOutcomeUnknown))
         <==> world(old(exchanges) + 1).NoResponse? && world(old(exchanges) + 1).signalAborted)
      ensures !credentialAllowed || !serviceGiven ==> exchanges == old(exchanges) && error.Some?
    {
      confirmed, mutateThrew := false, false;
      if !serviceGiven {
        return Some(CliError(InvalidArguments)), confirmed, mutateThrew;
      }
      if !credentialAllowed {
        return Some(CliError(InsecureTransport)), confirmed, mutateThrew;
      }
      var x := ReadEnvelope();
      var precheck := Describe(x, true);
      match precheck {
        case Aborted => return Some(Interrupted), confirmed, mutateThrew;
        case Denied => return Some(CliError(AccessDenied)), confirmed, mutateThrew;
        case Absent => return Some(CliError(ServiceNotFound)), confirmed, mutateThrew;
        case Described(operations) =>
          if operation !in operations {
            return Some(CliError(ServiceOperationUnsupported)), confirmed, mutateThrew;
          }
        case Indeterminate =>
      }
      var envelope, thrown := Mutate();
      if envelope.None? {
        mutateThrew := true;
        return Some(CliError(MapDispatchError(thrown))), confirmed, mutateThrew;
      }
      var e := envelope.value;
      if e.status < 200 || e.status >= 300 {
        return Some(CliError(MapRejection(e))), confirmed, mutateThrew;
      }
      if e.malformed || e.acknowledged.None? || !e.acknowledged.value {
        return Some(CliError(ServiceOperationFailed)), confirmed, mutateThrew;
      }
      x := ReadEnvelope();
      confirmed := Describe(x, false).Described?;
      return None, confirmed, mutateThrew;
    }

    /** The command as the shell sees it. */
    method RunServiceCommand(operation: string, serviceGiven: bool) returns (exit: int, code: Option<ErrorCode>)
      requires mutationsSent == mutationsAnswered == 0
      modifies `exchanges, `mutationsSent, `mutationsAnswered
      ensures mutationsSent <= 1
      ensures code == Some(CleanlyInterrupted) ==> exit == 130 && mutationsSent == 0
      ensures exit == 0 <==> code.None?
      ensures mutationsSent == 1 <==> credentialAllowed && serviceGiven && Proceeds(world(old(exchanges)), operation)
      ensures exit == 0 <==> mutationsSent == 1 && Acknowledges(world(old(exchanges) + 1))
      ensures exit == OPERATIONAL_FAILURE ==> mutationsSent == mutationsAnswered
      ensures mutationsSent == 1 && mutationsAnswered == 0 ==> exit == 5 || exit == 130
    {
      var error, confirmed, threw := ExecuteServiceAction(operation, serviceGiven);
      if error.None? {
        return 0, None;
      }
      code := Some(ToCliError(error.value));
      exit := ExitCode(code.value);
    }
  }

  /** Nothing that can be thrown without an answer is ever turned into a definite failure or a clean cancellation. */
  lemma UnansweredIsNeverDefinite(x: Exchange)
    requires Received(x).0.None?
    ensures ExitCode(MapDispatchError(Received(x).1)) in {5, 130}
    ensures MapDispatchError(Received(x).1) != CleanlyInterrupted
  {
  }
}
