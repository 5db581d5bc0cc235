/**
 The files the administrative configuration manages, the writes each action plans, and what a disk says
 about the installation. SHA-256, input validation, environment rendering and the encoded size of a
 state record are parameters (`Rules`).
 */
module ConfigurationFiles {
  import opened Basics

  type Bytes = seq<nat>
  type Generation = g: int | 0 <= g < 0x1_0000_0000_0000_0000

  const PROFILE := "mock-administrative"

  datatype State = State(
    schemaVersion: int,
    profile: string,
    status: string,
    applicationVersion: string,
    sourceCommit: string,
    configurationDigest: string,
    inputDigest: string,
    currentGeneration: Generation,
    previousGeneration: Generation,
    previousConfigurationDigest: string,
    previousInputDigest: string)

  /** `Garbled` is any state file that does not decode strictly to a record. */
  datatype StateFile = Record(state: State) | Garbled

  datatype Disk = Disk(
    environment: Option<Bytes>,
    currentInput: Option<Bytes>,
    previousEnvironment: Option<Bytes>,
    previousInput: Option<Bytes>,
    state: Option<StateFile>,
    journal: bool,
    lock: bool)

  datatype Rules = Rules(
    sha: Bytes -> string,
    validInput: Bytes -> bool,
    environment: Bytes -> Option<Bytes>,
    fits: State -> bool)

  /** What a run finds outside the managed files: the operator's input, the deployment and the bundle. */
  datatype Context = Context(
    rules: Rules,
    input: Option<Bytes>,
    deployedVersion: Option<string>,
    sourceCommit: string,
    baseFault: Option<string>)

  // ---------------------------------------------------------------- validity of a state record

  predicate ValidHash(value: string)
  {
    LowerHex(value, 64) && exists i :: 0 <= i < |value| && value[i] != '0'
  }

  predicate ValidState(s: State)
  {
    && s.schemaVersion == 1 && s.profile == PROFILE && s.status == "installed"
    && ValidHash(s.configurationDigest) && ValidHash(s.inputDigest)
    && ValidVersion(s.applicationVersion) && LowerHex(s.sourceCommit, 40)
    && s.currentGeneration != 0 && s.previousGeneration < s.currentGeneration
    && if s.previousGeneration == 0
       then s.previousConfigurationDigest == "" && s.previousInputDigest == ""
       else ValidHash(s.previousConfigurationDigest) && ValidHash(s.previousInputDigest)
  }

  /** `readState`: absent, or a valid record, or an error. */
  datatype StateReading = Absent | Readable(state: State) | Invalid

  function ReadState(rules: Rules, d: Disk): StateReading
  {
    match d.state
    case None => Absent
    case Some(Garbled) => Invalid
    case Some(Record(s)) => if rules.fits(s) && ValidState(s) then Readable(s) else Invalid
  }

  predicate HasDigest(rules: Rules, file: Option<Bytes>, digest: string)
  {
    file.Some? && rules.sha(file.value) == digest
  }

  /** What `verifyInstalled` reads off the disk; file metadata and read errors come on top of it. */
  predicate Installed(rules: Rules, d: Disk)
  {
    match ReadState(rules, d)
    case Readable(s) =>
      && HasDigest(rules, d.environment, s.configurationDigest)
      && HasDigest(rules, d.currentInput, s.inputDigest)
      && rules.validInput(d.currentInput.value)
    case _ => false
  }

  // ---------------------------------------------------------------- effects

  datatype File = Environment | CurrentInput | PreviousEnvironment | PreviousInput | StateFile | Journal | Lock

  datatype Effect =
    | Put(file: File, bytes: Bytes)
    | PutState(state: State)
    | PutJournal
    | PutLock
    | Remove(file: File)

  function Apply(d: Disk, e: Effect): Disk
  {
    match e
    case Put(Environment, b) => d.(environment := Some(b))
    case Put(CurrentInput, b) => d.(currentInput := Some(b))
    case Put(PreviousEnvironment, b) => d.(previousEnvironment := Some(b))
    case Put(PreviousInput, b) => d.(previousInput := Some(b))
    case Put(_, _) => d
    case PutState(s) => d.(state := Some(Record(s)))
    case PutJournal => d.(journal := true)
    case PutLock => d.(lock := true)
    case Remove(Environment) => d.(environment := None)
    case Remove(CurrentInput) => d.(currentInput := None)
    case Remove(PreviousEnvironment) => d.(previousEnvironment := None)
    case Remove(PreviousInput) => d.(previousInput := None)
    case Remove(StateFile) => d.(state := None)
    case Remove(Journal) => d.(journal := false)
    case Remove(Lock) => d.(lock := false)
  }

  function After(d: Disk, effects: seq<Effect>): Disk
  {
    if effects == [] then d else Apply(After(d, effects[..|effects| - 1]), effects[|effects| - 1])
  }

  lemma AfterSnoc(d: Disk, effects: seq<Effect>, e: Effect)
    ensures After(d, effects + [e]) == Apply(After(d, effects), e)
  {
    assert (effects + [e])[..|effects|] == effects;
  }

  predicate SameManagedFiles(a: Disk, b: Disk)
  {
    && a.environment == b.environment && a.currentInput == b.currentInput && a.state == b.state
    && a.previousEnvironment == b.previousEnvironment && a.previousInput == b.previousInput
  }

  // ---------------------------------------------------------------- what each action plans to write

  function FirstState(k: Context, environment: Bytes, input: Bytes): State
    requires k.deployedVersion.Some?
  {
    State(1, PROFILE, "installed", k.deployedVersion.value, k.sourceCommit,
          k.rules.sha(environment), k.rules.sha(input), 1, 0, "", "")
  }

  /** The generation counter is a 64-bit word: it wraps. */
  function NextState(k: Context, s: State, environment: Bytes, input: Bytes): State
  {
    s.(previousGeneration := s.currentGeneration,
       currentGeneration := (s.currentGeneration + 1) % 0x1_0000_0000_0000_0000,
       previousConfigurationDigest := s.configurationDigest,
       previousInputDigest := s.inputDigest,
       configurationDigest := k.rules.sha(environment),
       inputDigest := k.rules.sha(input))
  }

  function SwappedState(s: State): State
  {
    s.(previousGeneration := s.currentGeneration, currentGeneration := s.previousGeneration,
       previousConfigurationDigest := s.configurationDigest, configurationDigest := s.previousConfigurationDigest,
       previousInputDigest := s.inputDigest, inputDigest := s.previousInputDigest)
  }

  /** The environment rendered from an input file, if the input is valid and renders. */
  function Rendered(rules: Rules, input: Option<Bytes>): Option<Bytes>
  {
    if input.Some? && rules.validInput(input.value) then rules.environment(input.value) else None
  }

  function InstallPlan(k: Context, d: Disk): seq<Effect>
  {
    var environment := Rendered(k.rules, k.input);
    if environment.None? then []
    else if k.deployedVersion.None? then [PutJournal, Put(Environment, environment.value)]
    else [PutJournal,
          Put(Environment, environment.value),
          Put(CurrentInput, k.input.value),
          PutState(FirstState(k, environment.value, k.input.value))]
  }

  function ReplacePlan(k: Context, d: Disk): seq<Effect>
  {
    var next := Rendered(k.rules, k.input);
    match ReadState(k.rules, d)
    case Readable(s) =>
      if || next.None?
         || !HasDigest(k.rules, d.environment, s.configurationDigest)
         || !HasDigest(k.rules, d.currentInput, s.inputDigest)
      then [PutJournal]
      else [PutJournal,
            Put(PreviousInput, d.currentInput.value),
            Put(PreviousEnvironment, d.environment.value),
            Put(Environment, next.value),
            Put(CurrentInput, k.input.value),
            PutState(NextState(k, s, next.value, k.input.value))]
    case _ => [PutJournal]
  }

  /** An input file that the recorded digests say is the source of the environment beside it. */
  predicate SourceOf(rules: Rules, input: Option<Bytes>, inputDigest: string, configurationDigest: string)
  {
    && HasDigest(rules, input, inputDigest)
    && HasDigest(rules, Rendered(rules, input), configurationDigest)
  }

  function RollbackPlan(k: Context, d: Disk): seq<Effect>
  {
    match ReadState(k.rules, d)
    case Readable(s) =>
      if || s.previousGeneration == 0 || s.previousConfigurationDigest == ""
         || !HasDigest(k.rules, d.previousEnvironment, s.previousConfigurationDigest)
         || !SourceOf(k.rules, d.previousInput, s.previousInputDigest, s.previousConfigurationDigest)
         || !HasDigest(k.rules, d.environment, s.configurationDigest)
         || !SourceOf(k.rules, d.currentInput, s.inputDigest, s.configurationDigest)
      then [PutJournal]
      else [PutJournal,
            Put(PreviousInput, d.currentInput.value),
            Put(PreviousEnvironment, d.environment.value),
            Put(CurrentInput, d.previousInput.value),
            Put(Environment, d.previousEnvironment.value),
            PutState(SwappedState(s))]
    case _ => [PutJournal]
  }

  const REMOVALS: seq<Effect> := [
    Remove(Environment), Remove(CurrentInput), Remove(PreviousInput), Remove(PreviousEnvironment),
    Remove(StateFile), Remove(Journal)]

  // ---------------------------------------------------------------- contracts of runs

  datatype Action = Install | Replace | Rollback | RemoveAll
  datatype Report = Blocked(code: string) | Success(result: string)

  function Plan(k: Context, action: Action, d: Disk): seq<Effect>
    requires !action.RemoveAll?
  {
    match action
    case Install => InstallPlan(k, d)
    case Replace => ReplacePlan(k, d)
    case Rollback => RollbackPlan(k, d)
  }

  function Verb(action: Action): string
  {
    match action
    case Install => "installed_mock_administrative"
    case Replace => "replaced"
    case Rollback => "rolled_back"
    case RemoveAll => "removed"
  }

  /** A plan that goes all the way to the state record. */
  predicate Complete(plan: seq<Effect>)
  {
    plan != [] && plan[|plan| - 1].PutState?
  }

  /**
   A journaled action: whatever failed, the effects are a prefix of the plan in plan order, and the
   journal is taken away only after the whole plan is on disk and verifies.
   */
  ghost predicate Journaled(k: Context, action: Action, d: Disk, body: seq<Effect>, r: Report)
    requires !action.RemoveAll?
  {
    var plan := Plan(k, action, d);
    && body <= plan + [Remove(Journal)]
    && (r.Success? ==> r.result == Verb(action))
    && (r.Success? || |body| > |plan| ==> plan <= body && Complete(plan) && Installed(k.rules, After(d, plan)))
  }

  /** The steps are among the first `n` removals, in that order. */
  ghost predicate Ordered(steps: seq<Effect>, n: nat)
    requires n <= |REMOVALS|
  {
    if steps == [] then true
    else if n == 0 then false
    else if steps[|steps| - 1] == REMOVALS[n - 1] then Ordered(steps[..|steps| - 1], n - 1)
    else Ordered(steps, n - 1)
  }

  lemma OrderedSnoc(steps: seq<Effect>, n: nat)
    requires n < |REMOVALS| && Ordered(steps, n)
    ensures Ordered(steps + [REMOVALS[n]], n + 1)
  {
    assert (steps + [REMOVALS[n]])[..|steps|] == steps;
  }

  lemma {:induction false} OrderedWithin(steps: seq<Effect>, n: nat)
    requires n <= |REMOVALS| && Ordered(steps, n)
    ensures forall i :: 0 <= i < |steps| ==> steps[i] in REMOVALS[..n]
    ensures forall i, j :: 0 <= i < j < |steps| ==> steps[i] != steps[j]
    decreases n
  {
    if steps != [] {
      var front, last := steps[..|steps| - 1], steps[|steps| - 1];
      assert REMOVALS[..n] == REMOVALS[..n - 1] + [REMOVALS[n - 1]];
      assert REMOVALS[n - 1] !in REMOVALS[..n - 1];
      if last == REMOVALS[n - 1] {
        OrderedWithin(front, n - 1);
        assert steps == front + [last];
      } else {
        OrderedWithin(steps, n - 1);
      }
    }
  }

  lemma OrderedSkip(steps: seq<Effect>, n: nat)
    requires n < |REMOVALS| && Ordered(steps, n)
    ensures Ordered(steps, n + 1)
  {
    OrderedWithin(steps, n);
    assert REMOVALS[n] !in REMOVALS[..n];
  }

  lemma OrderedIsRemoval(steps: seq<Effect>)
    requires Ordered(steps, |REMOVALS|)
    ensures forall i :: 0 <= i < |steps| ==> steps[i] in REMOVALS
    ensures forall i, j :: 0 <= i < j < |steps| ==> steps[i] != steps[j]
  {
    OrderedWithin(steps, |REMOVALS|);
    assert REMOVALS[..|REMOVALS|] == REMOVALS;
  }

  /**
   Removal takes the environment away first and then whatever else it manages to, in order; once the
   environment is gone it reports success, whatever else fails.
   */
  ghost predicate Removal(k: Context, d: Disk, body: seq<Effect>, r: Report)
  {
    && (r.Success? <==> body != [])
    && (body != [] ==> Installed(k.rules, d) && body[0] == REMOVALS[0])
    && (forall i :: 0 <= i < |body| ==> body[i] in REMOVALS)
    && (forall i, j :: 0 <= i < j < |body| ==> body[i] != body[j])
    && Ordered(body, |REMOVALS|)
    && (r.Success? ==> r.result == Verb(RemoveAll))
  }

  ghost predicate Body(k: Context, action: Action, d: Disk, body: seq<Effect>, r: Report)
  {
    if action.RemoveAll? then Removal(k, d, body, r) else Journaled(k, action, d, body, r)
  }

  /** Checks every run makes before it takes the lock. */
  ghost predicate Admitted(k: Context, action: Action, d: Disk)
  {
    && !d.journal && !d.lock
    && (action.Install? ==> d.state.None? && d.environment.None?)
    && (!action.Install? ==> Installed(k.rules, d))
  }

  /** Everything a run checks before it takes the lock. */
  ghost predicate Ready(k: Context, action: Action, d: Disk)
  {
    && k.baseFault.None? && Admitted(k, action, d)
    && (action.Install? ==> k.input.Some? && k.rules.validInput(k.input.value))
  }

  /**
   What an action does when no read, write or external check fails. A journaled one carries out its whole
   plan; it succeeds exactly when the plan is complete and the outcome verifies, and only then takes the
   journal away. A removal removes everything, provided the installation verifies.
   */
  ghost predicate Unhindered(k: Context, action: Action, d: Disk, body: seq<Effect>, r: Report)
  {
    if action.RemoveAll? then
      && (r.Success? <==> Installed(k.rules, d))
      && body == if r.Success? then REMOVALS else []
    else
      var plan := Plan(k, action, d);
      && (r.Success? <==> Complete(plan) && Installed(k.rules, After(d, plan)))
      && body == if r.Success? then plan + [Remove(Journal)] else plan
  }

  /** A run refused before the lock, or one that took the lock and maybe gave it back. */
  datatype Trace = Refused | Locked(body: seq<Effect>, released: bool)

  /** Number of file effects of a run, the lock's included. */
  function Length(t: Trace): nat
  {
    match t
    case Refused => 0
    case Locked(body, released) => |body| + if released then 2 else 1
  }

  /** The effects of the body among the first `n` effects of a run. */
  function Taken(t: Trace, n: nat): seq<Effect>
    requires n <= Length(t)
  {
    if n == 0 then [] else if n - 1 <= |t.body| then t.body[..n - 1] else t.body
  }

  /** The disk after the first `n` effects of a run: lock, body, release. */
  function CutAt(d: Disk, t: Trace, n: nat): Disk
    requires n <= Length(t)
  {
    if n == 0 then d
    else
      var worked := After(Apply(d, PutLock), Taken(t, n));
      if n - 1 <= |t.body| then worked else Apply(worked, Remove(Lock))
  }

  ghost predicate Ran(k: Context, action: Action, d: Disk, t: Trace, r: Report)
  {
    match t
    case Refused => r.Blocked?
    case Locked(body, _) => Admitted(k, action, d) && Body(k, action, Apply(d, PutLock), body, r)
  }

  /** A whole run in which nothing fails: past the lock exactly when it is ready, and the lock given back. */
  ghost predicate UnhinderedRun(k: Context, action: Action, d: Disk, t: Trace, r: Report)
  {
    match t
    case Refused => !Ready(k, action, d) && r.Blocked?
    case Locked(body, released) => Ready(k, action, d) && released && Unhindered(k, action, Apply(d, PutLock), body, r)
  }

  /** Once it is written, the journal stays while a plan is carried out. */
  lemma {:induction false} JournalStaysThrough(k: Context, action: Action, d: Disk, n: nat)
    requires !action.RemoveAll? && 0 < n <= |Plan(k, action, d)|
    ensures After(d, Plan(k, action, d)[..n]).journal
  {
    hide ReadState, HasDigest, SourceOf, Rendered;
    var plan := Plan(k, action, d);
    var front := plan[..n][..n - 1];
    assert front == plan[..n - 1] && plan[..n][n - 1] == plan[n - 1];
    if n > 1 {
      JournalStaysThrough(k, action, d, n - 1);
      assert !plan[n - 1].Remove?;
    } else {
      assert plan[0] == PutJournal;
    }
  }

  lemma JournalStays(k: Context, action: Action, d: Disk)
    requires !action.RemoveAll?
    ensures Plan(k, action, d) != [] ==> After(d, Plan(k, action, d)).journal
  {
    var plan := Plan(k, action, d);
    if plan != [] {
      JournalStaysThrough(k, action, d, |plan|);
      assert plan[..|plan|] == plan;
    }
  }

  lemma PlanIgnoresJournal(k: Context, action: Action, d: Disk)
    requires !action.RemoveAll?
    ensures Plan(k, action, Apply(d, PutJournal)) == Plan(k, action, d)
  {
  }

  /** A replacement's record is valid exactly while the counter has room and both digests are digests. */
  lemma NextStateIsValid(k: Context, s: State, environment: Bytes, input: Bytes)
    requires ValidState(s)
    ensures ValidState(NextState(k, s, environment, input)) <==>
      && s.currentGeneration < 0xFFFF_FFFF_FFFF_FFFF
      && ValidHash(k.rules.sha(environment)) && ValidHash(k.rules.sha(input))
  {
    hide ValidHash, ValidVersion, LowerHex;
    if s.currentGeneration < 0xFFFF_FFFF_FFFF_FFFF {
      assert (s.currentGeneration + 1) % 0x1_0000_0000_0000_0000 == s.currentGeneration + 1;
    }
  }

  // ---------------------------------------------------------------- rollback

  /** Exchanging the generation numbers of a valid record never gives a valid record. */
  lemma SwapIsInvalid(s: State)
    requires ValidState(s)
    ensures !ValidState(SwappedState(s))
  {
  }

  lemma AfterFour(d: Disk, a: Effect, b: Effect, c: Effect, e: Effect)
    ensures After(d, [a, b, c, e]) == Apply(Apply(Apply(Apply(d, a), b), c), e)
  {
    hide Apply, After;
    AfterNone(d);
    AfterSnoc(d, [], a);
    AfterSnoc(d, [a], b);
    AfterSnoc(d, [a, b], c);
    AfterSnoc(d, [a, b, c], e);
    assert [] + [a] == [a] && [a] + [b] == [a, b] && [a, b] + [c] == [a, b, c] && [a, b, c] + [e] == [a, b, c, e];
  }

  lemma AfterNone(d: Disk)
    ensures After(d, []) == d
  {
  }

  lemma AfterSix(d: Disk, a: Effect, b: Effect, c: Effect, e: Effect, f: Effect, g: Effect)
    ensures After(d, [a, b, c, e, f, g]) == Apply(Apply(Apply(Apply(Apply(Apply(d, a), b), c), e), f), g)
  {
    hide Apply, After;
    AfterFour(d, a, b, c, e);
    AfterSnoc(d, [a, b, c, e], f);
    AfterSnoc(d, [a, b, c, e] + [f], g);
    assert [a, b, c, e] + [f] + [g] == [a, b, c, e, f, g];
  }

  lemma RollbackSwaps(k: Context, d: Disk)
    requires |RollbackPlan(k, d)| == 6
    ensures ReadState(k.rules, d).Readable?
    ensures After(d, RollbackPlan(k, d)) == d.(
      journal := true,
      environment := d.previousEnvironment, previousEnvironment := d.environment,
      currentInput := d.previousInput, previousInput := d.currentInput,
      state := Some(Record(SwappedState(ReadState(k.rules, d).state))))
  {
    hide ValidState;
    var p := RollbackPlan(k, d);
    assert p == [p[0], p[1], p[2], p[3], p[4], p[5]];
    AfterSix(d, p[0], p[1], p[2], p[3], p[4], p[5]);
  }

  lemma RollbackNeverVerifies(k: Context, d: Disk)
    ensures |RollbackPlan(k, d)| == 6 ==> !Installed(k.rules, After(d, RollbackPlan(k, d)))
  {
    if |RollbackPlan(k, d)| == 6 {
      RollbackSwaps(k, d);
      SwapIsInvalid(ReadState(k.rules, d).state);
    }
  }
}
