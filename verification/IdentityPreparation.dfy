/**
 Preparation of the runtime identity: two groups and a user made by external tools, a journal written
 ahead of them and after each, and compensation in reverse order. The tools are arbitrary: whatever
 their exit code, they may leave the account databases, homes and login logs in any state.
 */
module IdentityPreparation {
  import opened Basics
  import opened IdentityAccounts

  datatype StateFile = StateOf(managed: ManagedState) | CorruptState
  datatype JournalFile = JournalOf(steps: seq<Tool>) | CorruptJournal

  /** What the tools can change. `logs` is the login-log baseline as one comparable value. */
  datatype Host = Host(
    passwd: AccountFile, group: AccountFile, shadow: Option<AccountFile>, gshadow: Option<AccountFile>,
    home: bool, application: bool, mail: bool, logs: int)

  /** What only the preparation changes; the candidates are what its atomic writes rename into place. */
  datatype Own = Own(
    state: Option<StateFile>, journal: Option<JournalFile>, lock: bool, stateCandidate: bool, journalCandidate: bool)

  datatype World = World(host: Host, own: Own)

  datatype Tool = Probe | AddPrimary | AddHelper | AddUser | DeleteUser | DeleteHelper | DeletePrimary

  /** One call of the executor. */
  datatype Call = Call(tool: Tool, before: Host, exit: int, after: Host)

  /** How a read, a check or a write turns out; a failed write may leave its candidate file behind. */
  datatype Luck = Luck(ok: bool, residue: bool)

  /** How a call of a tool turns out: its exit code and what it leaves. */
  datatype Result = Result(exit: int, host: Host)

  type Tools = nat -> Result

  datatype Surroundings = Surroundings(
    helperInstalled: bool, deploymentPresent: bool, otherChecks: seq<Status>, deploymentAbsent: bool,
    commit: string, version: string)

  datatype Report = Refused(code: string) | RolledBack(code: string) | RecoveryRequired(code: string) | Prepared

  // ---------------------------------------------------------------- host qualification

  datatype Status = Passed | Warning | NotApplicable | Blocking

  /** `inspectIdentityPreparation`; `safe` is the private-file check, `readable` that the reads succeed. */
  function InspectIdentityPreparation(contract: Contract, own: Own, safe: bool, readable: bool): (Status, IdentityState)
  {
    if own.journal.Some? then (Blocking, if safe then Interrupted else Unsafe)
    else match own.state
      case None => (Warning, Absent)
      case Some(CorruptState) => (Blocking, Unsafe)
      case Some(StateOf(managed)) =>
        if !readable || !ValidManaged(managed) || !safe then (Blocking, Unsafe)
        else if contract == ContractReady(Identity(managed.userId, managed.primaryGroupId, managed.helperGroupId))
        then (Passed, ManagedPrepared)
        else (Blocking, Unsafe)
  }

  /** `hasBlocked` and `resultFor` of the qualify action. */
  function QualifyResult(around: Surroundings, contract: Contract, preparation: (Status, IdentityState)): string
  {
    if Blocking in around.otherChecks || preparation.0 == Blocking then "blocked"
    else if !around.deploymentAbsent then "blocked"
    else if preparation.1 == ManagedPrepared then "prepared"
    else if contract.ContractAbsent? then "preparation_required"
    else "qualified"
  }

  /** A state or journal file, valid or corrupt, never qualifies a host for preparation. */
  lemma LeftoverNeverQualifies(around: Surroundings, contract: Contract, own: Own, safe: bool, readable: bool)
    requires own.state.Some? || own.journal.Some?
    ensures var preparation := InspectIdentityPreparation(contract, own, safe, readable);
      QualifyResult(around, contract, preparation) != "preparation_required"
  {
  }

  /** The snapshot alone would not have refused: a corrupt state file on a clean host is classified Absent. */
  lemma CorruptStateLooksAbsent(passwd: AccountFile, group: AccountFile)
    requires !HasRelevantName(passwd.lines, group.lines)
    ensures Classify(passwd, group, ReadManaged(Some(CorruptState), true), false) == Absent
  {
  }

  function ReadManaged(state: Option<StateFile>, readable: bool): Option<ManagedState>
  {
    if state.Some? && state.value.StateOf? && readable && ValidManaged(state.value.managed)
    then Some(state.value.managed) else None
  }

  // ---------------------------------------------------------------- passwords

  function CountNamed(lines: seq<Line>, name: string): nat
  {
    if lines == [] then 0
    else CountNamed(lines[..|lines| - 1], name) + if LineNamed(lines[|lines| - 1], name) then 1 else 0
  }

  predicate LockedPassword(lines: seq<Line>, name: string)
  {
    exists i :: 0 <= i < |lines| && LineNamed(lines[i], name)
      && |lines[i]| >= 2 && lines[i][1] != "" && (lines[i][1][0] == '!' || lines[i][1][0] == '*')
  }

  /** `inspectPasswordState`; `readable` covers metadata checks and read errors. */
  function PasswordStatus(shadow: Option<AccountFile>, readable: bool, absent: bool): Status
  {
    if shadow.None? then if absent then NotApplicable else Blocking
    else if !readable then Blocking
    else if absent then if CountNamed(shadow.value.lines, USER) == 0 then NotApplicable else Blocking
    else if CountNamed(shadow.value.lines, USER) == 1 && LockedPassword(shadow.value.lines, USER) then Passed
    else Blocking
  }

  predicate ShadowNamed(shadow: Option<AccountFile>, name: string)
  {
    shadow.Some? && Named(shadow.value.lines, name)
  }

  lemma {:induction false} CountZeroMeansUnnamed(lines: seq<Line>, name: string)
    ensures CountNamed(lines, name) == 0 <==> !Named(lines, name)
  {
    if lines != [] {
      var front, last := lines[..|lines| - 1], lines[|lines| - 1];
      CountZeroMeansUnnamed(front, name);
      if Named(lines, name) && !LineNamed(last, name) {
        var i :| 0 <= i < |lines| && LineNamed(lines[i], name);
        assert LineNamed(front[i], name);
      }
      if Named(front, name) {
        var i :| 0 <= i < |front| && LineNamed(front[i], name);
        assert LineNamed(lines[i], name);
      }
      if LineNamed(last, name) {
        assert LineNamed(lines[|lines| - 1], name);
      }
    }
  }

  // ---------------------------------------------------------------- inspection

  datatype Snapshot = Snapshot(state: IdentityState, journalSeen: bool, password: Status, deployment: Status,
                               helper: Status, lock: Status)

  /** What `inspectSnapshot` finds when every read succeeds. */
  function TakeSnapshot(around: Surroundings, w: World, lockHeld: bool): Snapshot
  {
    var state := Classify(w.host.passwd, w.host.group, ReadManaged(w.own.state, true), w.own.journal.Some?);
    Snapshot(
      state,
      w.own.journal.Some?,
      PasswordStatus(w.host.shadow, true, state == Absent),
      if around.deploymentPresent || w.host.home || w.host.application || w.host.mail then Blocking else Passed,
      if around.helperInstalled then Blocking else Passed,
      if !w.own.lock then Passed else if lockHeld then NotApplicable else Blocking)
  }

  /** The preconditions of `prepare`; the lock comes on top of them before it is taken. */
  predicate Unblocked(s: Snapshot)
  {
    && s.state == Absent && !s.journalSeen && s.password != Blocking && s.deployment != Blocking && s.helper != Blocking
  }

  function Qualification(around: Surroundings, w: World): string
  {
    var contract := ClassifyContract(w.host.passwd, w.host.group);
    QualifyResult(around, contract, InspectIdentityPreparation(contract, w.own, true, true))
  }

  /** A host on which a preparation is let through to the lock. */
  predicate Startable(around: Surroundings, w: World)
  {
    var s := TakeSnapshot(around, w, false);
    Unblocked(s) && s.lock != Blocking && Qualification(around, w) == "preparation_required"
  }

  /** The bundle metadata a journal or a state record may carry. */
  predicate Labelled(around: Surroundings)
  {
    LowerHex(around.commit, 40) && ValidVersion(around.version)
  }

  // ---------------------------------------------------------------- making and undoing, tool by tool

  /** What the compensation looks for in the databases, homes and logs when it is done. */
  predicate Restored(h: Host, logs: int)
  {
    && Classify(h.passwd, h.group, None, false) == Absent
    && !Named(h.group.lines, PRIMARY) && !Named(h.group.lines, HELPER)
    && PasswordStatus(h.shadow, true, true) == NotApplicable
    && !ShadowNamed(h.gshadow, PRIMARY) && !ShadowNamed(h.gshadow, HELPER)
    && !h.home && !h.application && !h.mail && h.logs == logs
  }

  /** The resource is there as it was when it was made. */
  predicate FoundGroup(h: Host, name: string, id: int)
  {
    GroupId(h.group.lines, name) == (id, true) && MembersEmpty(h.group.lines, name)
  }

  predicate FoundUser(h: Host, expected: Identity)
  {
    ClassifyContract(h.passwd, h.group) == ContractReady(expected) && VerifiedGroup(h.group.lines, HELPER)
  }

  /** A new user as `prepare` accepts it. */
  predicate Settled(h: Host, logs: int)
  {
    && ClassifyContract(h.passwd, h.group).ContractReady? && VerifiedGroup(h.group.lines, HELPER)
    && PasswordStatus(h.shadow, true, false) == Passed && !h.home && !h.mail && h.logs == logs
  }

  /** Nothing of the preparation's own is left but the journal and the lock. */
  predicate NoLeftovers(own: Own)
  {
    own.state.None? && !own.stateCandidate && !own.journalCandidate
  }

  /** What `verifyRollbackArtifacts` establishes. */
  predicate RollbackVerified(w: World, journalAbsent: bool, logs: int, lockMayBeHeld: bool)
  {
    && Restored(w.host, logs) && NoLeftovers(w.own)
    && (journalAbsent ==> w.own.journal.None?) && (lockMayBeHeld || !w.own.lock)
  }

  /** The calls from `c` on delete the group if there is one to delete, and leave the host restored. */
  predicate UndoesPrimary(tools: Tools, c: nat, h: Host, primary: bool, primaryId: int, logs: int)
  {
    if primary then FoundGroup(h, PRIMARY, primaryId) && tools(c).exit == 0 && Restored(tools(c).host, logs)
    else Restored(h, logs)
  }

  predicate UndoesGroups(tools: Tools, c: nat, h: Host, helper: bool, helperId: int, primary: bool, primaryId: int,
                         logs: int)
  {
    if helper then
      && FoundGroup(h, HELPER, helperId) && tools(c).exit == 0
      && UndoesPrimary(tools, c + 1, tools(c).host, primary, primaryId, logs)
    else UndoesPrimary(tools, c, h, primary, primaryId, logs)
  }

  predicate Undoes(tools: Tools, c: nat, h: Host, user: bool, expected: Identity, helper: bool, helperId: int,
                   primary: bool, primaryId: int, logs: int)
  {
    if user then
      && FoundUser(h, expected) && tools(c).exit == 0
      && UndoesGroups(tools, c + 1, tools(c).host, helper, helperId, primary, primaryId, logs)
    else UndoesGroups(tools, c, h, helper, helperId, primary, primaryId, logs)
  }

  predicate MakesGroup(tools: Tools, c: nat, name: string)
  {
    tools(c).exit == 0 && VerifiedGroup(tools(c).host.group.lines, name)
  }

  predicate MakesUser(tools: Tools, c: nat, logs: int)
  {
    tools(c).exit == 0 && Settled(tools(c).host, logs)
  }

  /** The three calls from `c` on make a whole identity. */
  predicate Prepares(tools: Tools, c: nat, logs: int)
  {
    MakesGroup(tools, c, PRIMARY) && MakesGroup(tools, c + 1, HELPER) && MakesUser(tools, c + 2, logs)
  }

  /** The user could not be made, or not as it must be, and everything is taken back. */
  predicate RollsBackUser(tools: Tools, c: nat, helperId: int, primaryId: int, logs: int)
  {
    var h := tools(c).host;
    if tools(c).exit != 0 then Undoes(tools, c + 1, h, false, NO_IDENTITY, true, helperId, true, primaryId, logs)
    else
      var contract := ClassifyContract(h.passwd, h.group);
      && !Settled(h, logs) && contract.ContractReady?
      && Undoes(tools, c + 1, h, true, contract.identity, true, helperId, true, primaryId, logs)
  }

  predicate RollsBackHelper(tools: Tools, c: nat, primaryId: int, logs: int)
  {
    var h := tools(c).host;
    if tools(c).exit != 0 then Undoes(tools, c + 1, h, false, NO_IDENTITY, false, 0, true, primaryId, logs)
    else
      && VerifiedGroup(h.group.lines, HELPER)
      && RollsBackUser(tools, c + 1, GroupId(h.group.lines, HELPER).0, primaryId, logs)
  }

  /**
   A later call fails and the calls after it take back exactly what had been made. A group that does not
   pass its own verification is never taken back: the compensation asks of it what the verification did.
   */
  predicate RollsBack(tools: Tools, c: nat, logs: int)
  {
    && MakesGroup(tools, c, PRIMARY)
    && RollsBackHelper(tools, c + 1, GroupId(tools(c).host.group.lines, PRIMARY).0, logs)
  }

  // ---------------------------------------------------------------- what must hold

  ghost predicate Names(h: Host)
  {
    ManagedNames(h.passwd.lines, h.group.lines)
  }

  /** A half-made identity is never without a witness on disk. */
  ghost predicate Witnessed(w: World)
  {
    w.own.journal.Some? || !Names(w.host) || (w.own.state.Some? && w.own.state.value.StateOf?)
  }

  /** No trace of an identity or of a preparation, as far as a snapshot looks: it does not read gshadow. */
  ghost predicate Clean(w: World, logs: int)
  {
    && !Names(w.host)
    && !ShadowNamed(w.host.shadow, USER)
    && !w.host.home && !w.host.application && !w.host.mail
    && w.own.journal.None? && !w.own.lock
    && w.host.logs == logs
  }

  ghost predicate GroupShadowed(h: Host)
  {
    ShadowNamed(h.gshadow, PRIMARY) || ShadowNamed(h.gshadow, HELPER)
  }

  /** What the compensation looked for covers every part of a clean host, and gshadow besides. */
  lemma RestoredIsClean(h: Host, own: Own, logs: int)
    requires Restored(h, logs)
    ensures !Names(h) && !GroupShadowed(h)
    ensures own.journal.None? && !own.lock ==> Clean(World(h, own), logs)
  {
    hide Classify;
    AbsentMeansNoNames(h.passwd, h.group, None, false);
    if h.shadow.Some? {
      CountZeroMeansUnnamed(h.shadow.value.lines, USER);
    }
  }

  lemma AbsentMeansNoJournal(passwd: AccountFile, group: AccountFile, managed: Option<ManagedState>,
                             journalPresent: bool)
    requires Classify(passwd, group, managed, journalPresent) == Absent
    ensures !journalPresent
  {
  }

  lemma PasswordMeansUnnamed(shadow: Option<AccountFile>)
    ensures PasswordStatus(shadow, true, true) != Blocking ==> !ShadowNamed(shadow, USER)
  {
    if shadow.Some? {
      CountZeroMeansUnnamed(shadow.value.lines, USER);
    }
  }

  lemma ReadyIsSomebody(h: Host, identity: Identity)
    requires FoundUser(h, identity)
    ensures identity != NO_IDENTITY
  {
  }

  /** Holding the lock changes nothing else in a snapshot. */
  lemma LockedSnapshot(around: Surroundings, w: World)
    ensures var locked := w.(own := w.own.(lock := true));
      Unblocked(TakeSnapshot(around, locked, true)) <==> Unblocked(TakeSnapshot(around, w, false))
  {
    hide Classify, PasswordStatus;
  }

  /** A ready contract gives numbers a state record may carry. */
  lemma ReadyIsRecordable(passwd: AccountFile, group: AccountFile, around: Surroundings)
    requires ClassifyContract(passwd, group).ContractReady? && Labelled(around)
    ensures var identity := ClassifyContract(passwd, group).identity;
      ValidManaged(ManagedState(identity.userId, identity.primaryGroupId, identity.helperGroupId,
                                around.commit, around.version))
  {
    hide ParseLines, WithName, CountId, LowerHex, ValidVersion;
  }

  /** A user, or a group and its number, as an earlier successful call of this run left them. */
  ghost predicate MadeGroup(log: seq<Call>, upTo: nat, tool: Tool, name: string, id: int)
  {
    exists j :: 0 <= j < upTo <= |log| && log[j].tool == tool && log[j].exit == 0
      && GroupId(log[j].after.group.lines, name).0 == id
  }

  ghost predicate MadeUser(log: seq<Call>, upTo: nat, identity: Identity)
  {
    exists j :: 0 <= j < upTo <= |log| && log[j].tool == AddUser && log[j].exit == 0
      && ClassifyContract(log[j].after.passwd, log[j].after.group) == ContractReady(identity)
  }

  /** What the compensation is told was made, was. */
  ghost predicate Made(log: seq<Call>, user: bool, expected: Identity, helper: bool, helperId: int, primary: bool,
                       primaryId: int)
  {
    && (user && expected != NO_IDENTITY ==> MadeUser(log, |log|, expected))
    && (helper && helperId != 0 ==> MadeGroup(log, |log|, AddHelper, HELPER, helperId))
    && (primary && primaryId != 0 ==> MadeGroup(log, |log|, AddPrimary, PRIMARY, primaryId))
  }

  function NameOf(tool: Tool): string
  {
    if tool == AddHelper || tool == DeleteHelper then HELPER else PRIMARY
  }

  /** The tool that makes what a tool deletes. */
  function Maker(tool: Tool): Tool
  {
    if tool == DeleteHelper then AddHelper else if tool == DeletePrimary then AddPrimary else AddUser
  }

  /** A delete names a resource this run made, and finds it with the number it was made with. */
  ghost predicate Lawful(log: seq<Call>, i: nat)
    requires i < |log|
  {
    var call := log[i];
    var lines := call.before.group.lines;
    match call.tool
    case DeletePrimary =>
      VerifiedGroup(lines, PRIMARY) && MadeGroup(log, i, AddPrimary, PRIMARY, GroupId(lines, PRIMARY).0)
    case DeleteHelper =>
      VerifiedGroup(lines, HELPER) && MadeGroup(log, i, AddHelper, HELPER, GroupId(lines, HELPER).0)
    case DeleteUser =>
      var contract := ClassifyContract(call.before.passwd, call.before.group);
      contract.ContractReady? && MadeUser(log, i, contract.identity)
    case _ => true
  }

  function Rank(tool: Tool): nat
  {
    match tool
    case Probe => 0 case AddPrimary => 1 case AddHelper => 2 case AddUser => 3
    case DeleteUser => 4 case DeleteHelper => 5 case DeletePrimary => 6
  }

  ghost predicate Below(log: seq<Call>, rank: nat)
  {
    log == [] || Rank(log[|log| - 1].tool) < rank
  }

  /** Creations in order, then deletions in the reverse order, each at most once. */
  ghost predicate InOrder(log: seq<Call>)
  {
    forall i :: 0 < i < |log| ==> Rank(log[i - 1].tool) < Rank(log[i].tool)
  }

  ghost predicate AllLawful(log: seq<Call>)
  {
    forall i :: 0 <= i < |log| ==> Lawful(log, i)
  }

  lemma LawfulAppend(log: seq<Call>, call: Call)
    requires AllLawful(log) && Lawful(log + [call], |log|)
    ensures AllLawful(log + [call])
  {
    var all := log + [call];
    forall i | 0 <= i < |all| ensures Lawful(all, i) {
      if i < |log| {
        assert all[i] == log[i] && Lawful(log, i);
        MadeStays(log, call, i);
      }
    }
  }

  lemma MadeStays(log: seq<Call>, call: Call, upTo: nat)
    requires upTo <= |log|
    ensures forall tool, name, id :: MadeGroup(log, upTo, tool, name, id) ==>
      MadeGroup(log + [call], upTo, tool, name, id)
    ensures forall identity :: MadeUser(log, upTo, identity) ==> MadeUser(log + [call], upTo, identity)
  {
    var all := log + [call];
    assert forall j :: 0 <= j < |log| ==> all[j] == log[j];
    forall tool, name, id | MadeGroup(log, upTo, tool, name, id) ensures MadeGroup(all, upTo, tool, name, id) {
      var j :| 0 <= j < upTo <= |log| && log[j].tool == tool && log[j].exit == 0
        && GroupId(log[j].after.group.lines, name).0 == id;
      assert all[j].tool == tool;
    }
    forall identity | MadeUser(log, upTo, identity) ensures MadeUser(all, upTo, identity) {
      var j :| 0 <= j < upTo <= |log| && log[j].tool == AddUser && log[j].exit == 0
        && ClassifyContract(log[j].after.passwd, log[j].after.group) == ContractReady(identity);
      assert all[j].tool == AddUser;
    }
  }

  /** Whatever is on disk with a journal is reported as interrupted, and so a half-made identity is. */
  lemma HalfMadeIsInterrupted(w: World, readable: bool)
    requires Witnessed(w) && Names(w.host) && w.own.state.None?
    ensures var managed := ReadManaged(w.own.state, readable);
      Classify(w.host.passwd, w.host.group, managed, w.own.journal.Some?) == Interrupted
  {
  }
}
