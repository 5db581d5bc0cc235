/** The preparation itself, step by step, with its compensation. */
module IdentitySaga {
  import opened Basics
  import opened IdentityAccounts
  import opened IdentityPreparation

  class Preparation {
    const around: Surroundings
    /** Decides the n-th read, check or write, and the n-th call of a tool. */
    const luck: nat -> Luck
    const tools: Tools
    var clock: nat
    var calls: nat
    var world: World
    /** Every world since the run began, one after each effect: the places where it may be cut. */
    ghost var past: seq<World>
    /** Every call of the executor. */
    ghost var log: seq<Call>

    constructor (around: Surroundings, luck: nat -> Luck, tools: Tools, world: World)
      ensures this.around == around && this.luck == luck && this.tools == tools && this.world == world
      ensures past == [] && log == [] && calls == 0
    {
      this.around, this.luck, this.tools, this.world := around, luck, tools, world;
      clock, calls, past, log := 0, 0, [], [];
    }

    ghost predicate Sound()
      reads `log, `past
    {
      AllLawful(log) && InOrder(log) && forall i :: 0 <= i < |past| ==> Witnessed(past[i])
    }

    /** Every read, check and write succeeds; the tools may still do anything. */
    ghost predicate NothingFails()
    {
      forall n :: luck(n).ok
    }

    // ------------------------------------------------------------ single operations

    method Succeeds() returns (ok: bool)
      modifies `clock
      ensures NothingFails() ==> ok
    {
      ok := luck(clock).ok;
      clock := clock + 1;
    }

    /** The tools of the preparation; a probe asks for help texts and versions and changes nothing. */
    method Execute(tool: Tool) returns (exit: int)
      requires Sound() && Witnessed(world) && Below(log, Rank(tool))
      requires tool == Probe || world.own.journal.Some?
      requires
        || tool in {Probe, AddPrimary, AddHelper, AddUser}
        || forall exit, after :: Lawful(log + [Call(tool, world.host, exit, after)], |log|)
      modifies `calls, `world, `past, `log
      ensures Sound() && Witnessed(world) && world.own == old(world.own) && past == old(past) + [world]
      ensures log == old(log) + [Call(tool, old(world.host), exit, world.host)]
      ensures exit == tools(old(calls)).exit && calls == old(calls) + 1
      ensures world.host == if tool == Probe then old(world.host) else tools(old(calls)).host
    {
      exit := tools(calls).exit;
      ghost var before := world.host;
      if tool != Probe {
        world := world.(host := tools(calls).host);
      }
      calls := calls + 1;
      LawfulAppend(log, Call(tool, before, exit, world.host));
      log := log + [Call(tool, before, exit, world.host)];
      past := past + [world];
    }

    /** An atomic write: all or nothing, and nothing if a candidate file is in its way. */
    method WriteJournal(steps: seq<Tool>) returns (ok: bool)
      requires Sound() && Witnessed(world)
      modifies `clock, `world, `past
      ensures Sound() && Witnessed(world) && world.host == old(world.host) && past == old(past) + [world]
      ensures ok ==> world.own == old(world.own).(journal := Some(JournalOf(steps))) && !world.own.journalCandidate
      ensures !ok ==> world.own == old(world.own).(journalCandidate := world.own.journalCandidate)
      ensures ok ==> Labelled(around)
      ensures NothingFails() ==> (ok <==> Labelled(around) && !old(world.own.journalCandidate))
    {
      ok := luck(clock).ok && Labelled(around) && !world.own.journalCandidate;
      var residue := world.own.journalCandidate || luck(clock).residue;
      world := world.(own :=
        if ok then world.own.(journal := Some(JournalOf(steps))) else world.own.(journalCandidate := residue));
      clock := clock + 1;
      past := past + [world];
    }

    method WriteState(managed: ManagedState) returns (ok: bool)
      requires Sound() && Witnessed(world)
      modifies `clock, `world, `past
      ensures Sound() && Witnessed(world) && world.host == old(world.host) && past == old(past) + [world]
      ensures ok ==> ValidManaged(managed) && world.own == old(world.own).(state := Some(StateOf(managed)))
      ensures !ok ==> world.own == old(world.own).(stateCandidate := world.own.stateCandidate)
      ensures !ok && old(world.own.stateCandidate) ==> world.own.stateCandidate
      ensures NothingFails() ==> (ok <==> ValidManaged(managed) && !old(world.own.stateCandidate))
    {
      ok := luck(clock).ok && ValidManaged(managed) && !world.own.stateCandidate;
      var residue := world.own.stateCandidate || luck(clock).residue;
      world := world.(own :=
        if ok then world.own.(state := Some(StateOf(managed))) else world.own.(stateCandidate := residue));
      clock := clock + 1;
      past := past + [world];
    }

    /** The journal goes only when nothing is left for it to witness. */
    method RemoveJournal() returns (ok: bool)
      requires Sound() && (!Names(world.host) || (world.own.state.Some? && world.own.state.value.StateOf?))
      modifies `clock, `world, `past
      ensures Sound() && Witnessed(world) && world.host == old(world.host) && past == old(past) + [world]
      ensures world.own == if ok then old(world.own).(journal := None) else old(world.own)
      ensures NothingFails() ==> ok
    {
      ok := luck(clock).ok;
      if ok {
        world := world.(own := world.own.(journal := None));
      }
      clock := clock + 1;
      past := past + [world];
    }

    method ReleaseLock()
      requires Sound() && Witnessed(world)
      modifies `clock, `world, `past
      ensures Sound() && Witnessed(world) && world.host == old(world.host) && past == old(past) + [world]
      ensures world.own == old(world.own).(lock := world.own.lock)
      ensures NothingFails() ==> !world.own.lock
    {
      if luck(clock).ok {
        world := world.(own := world.own.(lock := false));
      }
      clock := clock + 1;
      past := past + [world];
    }

    // ------------------------------------------------------------ inspection

    method PasswordState(absent: bool) returns (s: Status)
      modifies `clock
      ensures s == PasswordStatus(world.host.shadow, true, absent) || s == Blocking
      ensures NothingFails() ==> s == PasswordStatus(world.host.shadow, true, absent)
    {
      var readable := Succeeds();
      s := PasswordStatus(world.host.shadow, readable, absent);
    }

    method InspectSnapshot(lockHeld: bool) returns (s: Snapshot)
      modifies `clock
      ensures s.state == Absent ==> !Names(world.host) && world.own.journal.None?
      ensures s.state == Absent && s.password != Blocking ==> !ShadowNamed(world.host.shadow, USER)
      ensures s.deployment != Blocking && s.state == Absent ==>
        !world.host.home && !world.host.application && !world.host.mail
      ensures !lockHeld && s.lock != Blocking && s.state == Absent ==> !world.own.lock
      ensures NothingFails() ==> s == TakeSnapshot(around, world, lockHeld)
    {
      hide Classify;
      var readable := Succeeds();
      var state := Unsafe;
      if readable {
        var safe := Succeeds();
        if !safe {
          return Snapshot(Unsafe, false, NotApplicable, Passed, Passed, Passed);
        }
        var stateReadable := Succeeds();
        var managed := ReadManaged(world.own.state, stateReadable);
        state := Classify(world.host.passwd, world.host.group, managed, world.own.journal.Some?);
        if state == Absent {
          AbsentMeansNoNames(world.host.passwd, world.host.group, managed, world.own.journal.Some?);
          AbsentMeansNoJournal(world.host.passwd, world.host.group, managed, world.own.journal.Some?);
        }
      }
      var lockSafe := Succeeds();
      var lock := if !world.own.lock then Passed else if lockSafe && lockHeld then NotApplicable else Blocking;
      var helper := if around.helperInstalled then Blocking else Passed;
      var password := PasswordState(state == Absent);
      PasswordMeansUnnamed(world.host.shadow);
      var deployed := around.deploymentPresent || world.host.home || world.host.application || world.host.mail;
      var deployment := if deployed then Blocking else Passed;
      s := Snapshot(state, world.own.journal.Some?, password, deployment, helper, lock);
    }

    method Qualify() returns (result: string)
      modifies `clock
      ensures world.own.state.Some? || world.own.journal.Some? ==> result != "preparation_required"
      ensures NothingFails() ==> result == Qualification(around, world)
    {
      hide ClassifyContract;
      var readable := Succeeds();
      var safe := Succeeds();
      var contract := ClassifyContract(world.host.passwd, world.host.group);
      if world.own.state.Some? || world.own.journal.Some? {
        LeftoverNeverQualifies(around, contract, world.own, safe, readable);
      }
      result := QualifyResult(around, contract, InspectIdentityPreparation(contract, world.own, safe, readable));
    }

    method GroupIdOf(name: string) returns (id: int, ok: bool)
      modifies `clock
      ensures id == 0 || id == GroupId(world.host.group.lines, name).0
      ensures ok ==> GroupId(world.host.group.lines, name) == (id, true)
      ensures NothingFails() ==> GroupId(world.host.group.lines, name) == (id, ok)
    {
      var readable := Succeeds();
      if !readable {
        return 0, false;
      }
      var found := GroupId(world.host.group.lines, name);
      return found.0, found.1;
    }

    method VerifyGroup(name: string) returns (ok: bool)
      modifies `clock
      ensures ok ==> VerifiedGroup(world.host.group.lines, name)
      ensures NothingFails() ==> (ok <==> VerifiedGroup(world.host.group.lines, name))
    {
      var id, found := GroupIdOf(name);
      var readable := Succeeds();
      ok := found && readable && MembersEmpty(world.host.group.lines, name);
    }

    method CurrentIdentity() returns (identity: Identity, ok: bool)
      modifies `clock
      ensures ok ==> FoundUser(world.host, identity)
      ensures !ok ==> identity == NO_IDENTITY
      ensures NothingFails() && !ok ==>
        || !ClassifyContract(world.host.passwd, world.host.group).ContractReady?
        || !VerifiedGroup(world.host.group.lines, HELPER)
    {
      hide ClassifyContract, VerifiedGroup;
      var readable := Succeeds();
      var contract := ClassifyContract(world.host.passwd, world.host.group);
      var helper := VerifyGroup(HELPER);
      if !readable || !contract.ContractReady? || !helper {
        return NO_IDENTITY, false;
      }
      return contract.identity, true;
    }

    // ------------------------------------------------------------ compensation

    method VerifyRollbackArtifacts(journalAbsent: bool, baseline: int, lockMayBeHeld: bool) returns (ok: bool)
      modifies `clock
      ensures ok ==> RollbackVerified(world, journalAbsent, baseline, lockMayBeHeld)
      ensures NothingFails() ==> (ok <==> RollbackVerified(world, journalAbsent, baseline, lockMayBeHeld))
    {
      hide Classify;
      var readable := Succeeds();
      if !readable {
        return false;
      }
      if Classify(world.host.passwd, world.host.group, None, false) != Absent
         || Named(world.host.group.lines, PRIMARY) || Named(world.host.group.lines, HELPER) {
        return false;
      }
      var password := PasswordState(true);
      if password != NotApplicable {
        return false;
      }
      var gshadowReadable := Succeeds();
      var shadowed := ShadowNamed(world.host.gshadow, PRIMARY) || ShadowNamed(world.host.gshadow, HELPER);
      if world.host.gshadow.Some? && (!gshadowReadable || shadowed) {
        return false;
      }
      if world.host.home || world.host.application || world.own.state.Some? || world.own.stateCandidate
         || world.own.journalCandidate || world.host.mail {
        return false;
      }
      var captured := Succeeds();
      if !captured || world.host.logs != baseline {
        return false;
      }
      if journalAbsent && world.own.journal.Some? {
        return false;
      }
      return lockMayBeHeld || !world.own.lock;
    }

    /** Deletes the user, if it is still the one that was made. */
    method RemoveUser(expected: Identity) returns (ok: bool)
      requires Sound() && world.own.journal.Some? && Below(log, Rank(DeleteUser))
      requires expected != NO_IDENTITY ==> MadeUser(log, |log|, expected)
      modifies `clock, `calls, `world, `past, `log
      ensures Sound() && world.own == old(world.own) && old(log) <= log && Below(log, Rank(DeleteHelper))
      ensures ok ==> FoundUser(old(world.host), expected)
      ensures ok ==> tools(old(calls)).exit == 0 && world.host == tools(old(calls)).host && calls == old(calls) + 1
      ensures NothingFails() ==> (ok <==> FoundUser(old(world.host), expected) && tools(old(calls)).exit == 0)
    {
      hide Sound, Lawful, MadeUser, ClassifyContract, VerifiedGroup;
      var identity, ready := CurrentIdentity();
      if !ready || identity != expected {
        return false;
      }
      ReadyIsSomebody(world.host, expected);
      UserIsLawful(log, world.host, identity);
      var exit := Execute(DeleteUser);
      return exit == 0;
    }

    /** Deletes a group, if it is still the one that was made. */
    method RemoveGroup(tool: Tool, id: int) returns (ok: bool)
      requires tool == DeleteHelper || tool == DeletePrimary
      requires Sound() && world.own.journal.Some? && Below(log, Rank(tool))
      requires id != 0 ==> MadeGroup(log, |log|, Maker(tool), NameOf(tool), id)
      modifies `clock, `calls, `world, `past, `log
      ensures Sound() && world.own == old(world.own) && old(log) <= log && Below(log, Rank(tool) + 1)
      ensures ok ==> FoundGroup(old(world.host), NameOf(tool), id)
      ensures ok ==> tools(old(calls)).exit == 0 && world.host == tools(old(calls)).host && calls == old(calls) + 1
      ensures NothingFails() ==> (ok <==> FoundGroup(old(world.host), NameOf(tool), id) && tools(old(calls)).exit == 0)
    {
      hide Sound, Lawful, MadeGroup, ScanGroups, MembersEmpty;
      var found, trusted := GroupIdOf(NameOf(tool));
      var verified := VerifyGroup(NameOf(tool));
      if !trusted || found != id || !verified {
        return false;
      }
      GroupIsLawful(log, world.host, tool);
      var exit := Execute(tool);
      return exit == 0;
    }

    /** Undo in reverse order; every delete re-reads the resource and compares it with what was made. */
    method Rollback(user: bool, helper: bool, primary: bool, expected: Identity, primaryId: int, helperId: int,
                    baseline: int)
      returns (ok: bool)
      requires Sound() && world.own.journal.Some? && Below(log, Rank(DeleteUser))
      requires Made(log, user, expected, helper, helperId, primary, primaryId)
      modifies `clock, `calls, `world, `past, `log
      ensures Sound() && world.own == old(world.own)
      ensures ok ==> RollbackVerified(world, false, baseline, true)
      ensures NothingFails() ==>
        (ok <==>
           && NoLeftovers(world.own)
           && Undoes(tools, old(calls), old(world.host), user, expected, helper, helperId,
                     primary, primaryId, baseline))
    {
      hide Sound, MadeUser, MadeGroup, FoundUser, FoundGroup, Restored;
      if user {
        ghost var before := log;
        var removed := RemoveUser(expected);
        MadePersists(before, log);
        if !removed {
          return false;
        }
      }
      if helper {
        ghost var before := log;
        var removed := RemoveGroup(DeleteHelper, helperId);
        MadePersists(before, log);
        if !removed {
          return false;
        }
      }
      if primary {
        var removed := RemoveGroup(DeletePrimary, primaryId);
        if !removed {
          return false;
        }
      }
      ok := VerifyRollbackArtifacts(false, baseline, true);
    }

    /** The `fail` closure of the preparation. */
    method Fail(code: string, user: bool, helper: bool, primary: bool, expected: Identity, primaryId: int,
                helperId: int, baseline: int, steps: seq<Tool>)
      returns (r: Report)
      requires Sound() && world.own.journal.Some? && Below(log, Rank(DeleteUser))
      requires Made(log, user, expected, helper, helperId, primary, primaryId)
      modifies `clock, `calls, `world, `past, `log
      ensures Sound() && Witnessed(world) && !r.Prepared?
      ensures r.RolledBack? ==> RollbackVerified(world, true, baseline, false)
      ensures r.Refused? <==> !user && !helper && !primary
      ensures r.Refused? ==> world.host == old(world.host) && world.own.journal.Some?
      ensures NothingFails() && (user || helper || primary) ==>
        (r.RolledBack? <==>
           && NoLeftovers(old(world.own))
           && Undoes(tools, old(calls), old(world.host), user, expected, helper, helperId,
                     primary, primaryId, baseline))
    {
      hide Sound, MadeUser, MadeGroup, Restored, Undoes;
      if user || helper || primary {
        var undone := Rollback(user, helper, primary, expected, primaryId, helperId, baseline);
        if undone {
          RestoredIsClean(world.host, world.own, baseline);
        }
        ReleaseLock();
        if undone {
          var removed := RemoveJournal();
          if removed {
            var restored := VerifyRollbackArtifacts(true, baseline, false);
            if restored {
              return RolledBack(code);
            }
          }
          var kept := WriteJournal(steps);
        }
        return RecoveryRequired(code);
      }
      ReleaseLock();
      return Refused(code);
    }

    // ------------------------------------------------------------ the preparation

    /** Everything before the lock: snapshot, host qualification, tool checks and probes. */
    method Preflight() returns (fault: string, baseline: int)
      requires Sound() && past == [] && log == [] && calls == 0
      modifies `clock, `calls, `world, `past, `log
      ensures world == old(world) && Sound()
      ensures world.own.state.Some? || world.own.journal.Some? ==> fault != "" && log == []
      ensures baseline == world.host.logs
      ensures fault == "" ==>
        Clean(world, baseline) && world.own.state.None? && Below(log, Rank(AddPrimary)) && calls == 1
      ensures NothingFails() ==> (fault == "" <==> Startable(around, world) && tools(0).exit == 0)
    {
      hide TakeSnapshot, Qualification;
      baseline := world.host.logs;
      var snapshot := InspectSnapshot(false);
      if !Unblocked(snapshot) || snapshot.lock == Blocking {
        return "qualification_precondition_failed", baseline;
      }
      var qualified := Qualify();
      if qualified != "preparation_required" {
        return "qualification_precondition_failed", baseline;
      }
      var toolsSafe := Succeeds();
      if !toolsSafe {
        return "account_tool_unsafe", baseline;
      }
      var exit := Execute(Probe);
      if exit != 0 {
        return "account_tool_capability_unsupported", baseline;
      }
      var strategy := Succeeds();
      if !strategy {
        return "login_log_strategy_unsupported", baseline;
      }
      return "", baseline;
    }

    /** Another look once the lock is held, and the journal before anything is made. */
    method Begin(baseline: int) returns (fault: string)
      requires Sound() && !Names(world.host) && world.own.journal.None? && world.own.state.None?
      modifies `clock, `world, `past
      ensures Sound() && Witnessed(world) && world.host == old(world.host) && world.own.state.None?
      ensures fault == "" ==> world.own == old(world.own).(journal := Some(JournalOf([])))
      ensures fault == "" ==> Labelled(around) && !world.own.journalCandidate
      ensures fault != "" ==> world.own.journal.None?
      ensures NothingFails() && Unblocked(TakeSnapshot(around, old(world), true)) && world.host.logs == baseline ==>
        (fault == "" <==> Labelled(around) && !old(world.own.journalCandidate))
    {
      hide TakeSnapshot;
      var current := InspectSnapshot(true);
      if !Unblocked(current) {
        return "identity_state_not_absent";
      }
      var captured := Succeeds();
      if !captured || world.host.logs != baseline {
        return "login_log_artifact_changed";
      }
      var metadata := Succeeds();
      if !metadata {
        return "bundle_invalid";
      }
      var written := WriteJournal([]);
      return if written then "" else "preparation_journal_write_failed";
    }

    /** One group: run the tool, look at what it made, record the step. */
    method MakeGroup(tool: Tool, name: string, steps: seq<Tool>)
      returns (made: bool, id: int, recorded: bool, noted: seq<Tool>)
      requires Sound() && world.own.journal.Some? && Below(log, Rank(tool))
      requires (tool == AddPrimary && name == PRIMARY) || (tool == AddHelper && name == HELPER)
      modifies `clock, `calls, `world, `past, `log
      ensures Sound() && world.own.journal.Some? && old(log) <= log && Below(log, Rank(tool) + 1)
      ensures world.own == old(world.own).(journal := world.own.journal, journalCandidate := world.own.journalCandidate)
      ensures calls == old(calls) + 1 && world.host == tools(old(calls)).host
      ensures made <==> tools(old(calls)).exit == 0
      ensures made && id != 0 ==> MadeGroup(log, |log|, tool, name, id)
      ensures recorded ==> made && world.own.journal == Some(JournalOf(noted)) && noted == steps + [tool]
      ensures recorded ==> VerifiedGroup(world.host.group.lines, name) && !world.own.journalCandidate
      ensures NothingFails() && made ==> id == GroupId(world.host.group.lines, name).0
      ensures NothingFails() && Labelled(around) && !old(world.own.journalCandidate) ==>
        (recorded <==> MakesGroup(tools, old(calls), name)) && !world.own.journalCandidate
    {
      hide VerifiedGroup, GroupId;
      id, recorded, noted := 0, false, steps;
      ghost var before := log;
      var exit := Execute(tool);
      made := exit == 0;
      if !made {
        return;
      }
      assert log[|before|].tool == tool && log[|before|].exit == 0;
      var ok;
      id, ok := GroupIdOf(name);
      var verified := VerifyGroup(name);
      if verified {
        noted := steps + [tool];
        recorded := WriteJournal(noted);
      }
    }

    /** The user: run the tool, check identity, password, homes and login logs, record the step. */
    method MakeUser(baseline: int, steps: seq<Tool>)
      returns (made: bool, identity: Identity, recorded: bool, logsKept: bool, noted: seq<Tool>)
      requires Sound() && world.own.journal.Some? && Below(log, Rank(AddUser))
      modifies `clock, `calls, `world, `past, `log
      ensures Sound() && world.own.journal.Some? && old(log) <= log && Below(log, Rank(AddUser) + 1)
      ensures world.own == old(world.own).(journal := world.own.journal, journalCandidate := world.own.journalCandidate)
      ensures calls == old(calls) + 1 && world.host == tools(old(calls)).host
      ensures made <==> tools(old(calls)).exit == 0
      ensures made && identity != NO_IDENTITY ==> MadeUser(log, |log|, identity)
      ensures recorded ==> made && world.own.journal == Some(JournalOf(noted)) && noted == steps + [AddUser]
      ensures recorded ==> FoundUser(world.host, identity) && Labelled(around) && !world.own.journalCandidate
      ensures NothingFails() && made ==>
        || FoundUser(world.host, identity)
        || (identity == NO_IDENTITY && forall expected :: !FoundUser(world.host, expected))
      ensures NothingFails() && Labelled(around) && !old(world.own.journalCandidate) ==>
        (recorded <==> MakesUser(tools, old(calls), baseline)) && !world.own.journalCandidate
    {
      hide ClassifyContract, VerifiedGroup, PasswordStatus;
      identity, recorded, logsKept, noted := NO_IDENTITY, false, true, steps;
      ghost var before := log;
      var exit := Execute(AddUser);
      made := exit == 0;
      if !made {
        return;
      }
      assert log[|before|].tool == AddUser && log[|before|].exit == 0;
      var ready;
      identity, ready := CurrentIdentity();
      if ready {
        ReadyIsSomebody(world.host, identity);
      }
      var password := PasswordState(false);
      var captured := Succeeds();
      logsKept := captured && world.host.logs == baseline;
      if ready && password == Passed && !world.host.home && !world.host.mail && logsKept {
        noted := steps + [AddUser];
        recorded := WriteJournal(noted);
      }
    }

    /** `prepare` from the snapshot to the report. */
    method Prepare() returns (r: Report)
      requires past == [] && log == [] && calls == 0
      modifies `clock, `calls, `world, `past, `log
      ensures AllLawful(log) && InOrder(log)
      ensures forall i :: 0 <= i < |past| ==> Witnessed(past[i])
      ensures old(world.own.state.Some? || world.own.journal.Some?) ==> r.Refused? && log == [] && world == old(world)
      ensures r.RolledBack? ==>
        old(Clean(world, world.host.logs)) && Clean(world, old(world.host.logs)) && NoLeftovers(world.own)
      ensures r.RolledBack? ==>
        (GroupShadowed(world.host) == old(GroupShadowed(world.host)) <==> !old(GroupShadowed(world.host)))
      ensures r.RolledBack? ==> !GroupShadowed(world.host)
      ensures r.Prepared? ==>
        && world.own.journal.None?
        && Classify(world.host.passwd, world.host.group, ReadManaged(world.own.state, true), false) == ManagedPrepared
      ensures NothingFails() ==>
        var clear := old(Startable(around, world) && !world.own.journalCandidate);
        var start := clear && tools(0).exit == 0 && Labelled(around);
        var logs := old(world.host.logs);
        && (r.Prepared? <==> start && !old(world.own.stateCandidate) && Prepares(tools, 1, logs))
        && (r.RolledBack? <==> start && !old(world.own.stateCandidate) && RollsBack(tools, 1, logs))
    {
      hide Lawful, MadeUser, MadeGroup, ClassifyContract, Classify, VerifiedGroup;
      hide Prepares, RollsBack, TakeSnapshot, Restored;
      var fault, logs := Preflight();
      if fault != "" {
        return Refused(fault);
      }
      var acquired := Succeeds();
      if !acquired || world.own.lock {
        return Refused("preparation_lock_conflict");
      }
      ghost var before := world;
      world := world.(own := world.own.(lock := true));
      past := past + [world];
      LockedSnapshot(around, before);
      fault := Begin(logs);
      if fault != "" {
        ReleaseLock();
        return Refused(fault);
      }
      r := Make(logs);
      if r.RolledBack? {
        RestoredIsClean(world.host, world.own, logs);
      }
    }

    /** Two groups and a user, each looked at and recorded before the next. */
    method Make(baseline: int) returns (r: Report)
      requires Sound() && world.own.journal.Some? && world.own.state.None? && Below(log, Rank(AddPrimary))
      requires Labelled(around) && !world.own.journalCandidate
      modifies `clock, `calls, `world, `past, `log
      ensures Sound()
      ensures r.RolledBack? ==> RollbackVerified(world, true, baseline, false)
      ensures r.Prepared? ==>
        && world.own.journal.None?
        && Classify(world.host.passwd, world.host.group, ReadManaged(world.own.state, true), false) == ManagedPrepared
      ensures NothingFails() ==>
        && (r.Prepared? <==> !old(world.own.stateCandidate) && Prepares(tools, old(calls), baseline))
        && (r.RolledBack? <==> !old(world.own.stateCandidate) && RollsBack(tools, old(calls), baseline))
    {
      hide Sound, Names, MadeUser, MadeGroup, ClassifyContract, Classify, VerifiedGroup, Restored;
      var primary, primaryId, recorded, steps := MakeGroup(AddPrimary, PRIMARY, []);
      if !recorded {
        var code := if primary then "primary_group_verification_failed" else "primary_group_creation_failed";
        ghost var c, h := calls, world.host;
        r := Fail(code, false, false, primary, NO_IDENTITY, primaryId, 0, baseline, steps);
        UnverifiedStays(tools, c, h, primaryId, 0, baseline);
        return;
      }
      r := MakeRest(primaryId, baseline, steps);
    }

    /** From the helper group on. */
    method MakeRest(primaryId: int, baseline: int, noted: seq<Tool>) returns (r: Report)
      requires Sound() && world.own.journal.Some? && world.own.state.None? && Below(log, Rank(AddHelper))
      requires Labelled(around) && !world.own.journalCandidate
      requires Made(log, false, NO_IDENTITY, false, 0, true, primaryId)
      modifies `clock, `calls, `world, `past, `log
      ensures Sound()
      ensures r.RolledBack? ==> RollbackVerified(world, true, baseline, false)
      ensures r.Prepared? ==> world.own.journal.None? && PreparedWorld(world)
      ensures NothingFails() ==>
        && (r.Prepared? <==>
              && !old(world.own.stateCandidate)
              && MakesGroup(tools, old(calls), HELPER) && MakesUser(tools, old(calls) + 1, baseline))
        && (r.RolledBack? <==>
              && !old(world.own.stateCandidate)
              && RollsBackHelper(tools, old(calls), primaryId, baseline))
    {
      hide Sound, Names, MadeUser, MadeGroup, VerifiedGroup, Restored, Settled, PreparedWorld, RollsBackUser, Undoes;
      ghost var before := log;
      var helper, helperId, recorded, steps := MakeGroup(AddHelper, HELPER, noted);
      MadePersists(before, log);
      if !recorded {
        var code := if helper then "helper_group_verification_failed" else "helper_group_creation_failed";
        ghost var c, h := calls, world.host;
        r := Fail(code, false, helper, true, NO_IDENTITY, primaryId, helperId, baseline, steps);
        UnverifiedStays(tools, c, h, primaryId, helperId, baseline);
        WithoutHelper(tools, c, h, helperId, primaryId, baseline);
        return;
      }
      r := MakeLast(primaryId, helperId, baseline, steps);
    }

    /** The user and the state record. */
    method MakeLast(primaryId: int, helperId: int, baseline: int, noted: seq<Tool>) returns (r: Report)
      requires Sound() && world.own.journal.Some? && world.own.state.None? && Below(log, Rank(AddUser))
      requires Labelled(around) && !world.own.journalCandidate
      requires Made(log, false, NO_IDENTITY, true, helperId, true, primaryId)
      modifies `clock, `calls, `world, `past, `log
      ensures Sound()
      ensures r.RolledBack? ==> RollbackVerified(world, true, baseline, false)
      ensures r.Prepared? ==> world.own.journal.None? && PreparedWorld(world)
      ensures NothingFails() ==>
        && (r.Prepared? <==> !old(world.own.stateCandidate) && MakesUser(tools, old(calls), baseline))
        && (r.RolledBack? <==>
              && !old(world.own.stateCandidate)
              && RollsBackUser(tools, old(calls), helperId, primaryId, baseline))
    {
      hide Sound, Names, MadeUser, MadeGroup, Restored, Settled, PreparedWorld, Undoes, ClassifyContract, VerifiedGroup;
      ghost var before := log;
      var user, identity, recorded, kept, steps := MakeUser(baseline, noted);
      MadePersists(before, log);
      ghost var c, h := calls, world.host;
      if !recorded {
        var code :=
          if !user then "runtime_user_creation_failed"
          else if !kept then "login_log_artifact_changed"
          else "runtime_user_verification_failed";
        r := Fail(code, user, true, true, identity, primaryId, helperId, baseline, steps);
        LostUserStays(tools, c, h, helperId, primaryId, baseline);
        WithoutUser(tools, c, h, identity, helperId, primaryId, baseline);
        return;
      }
      r := Conclude(primaryId, helperId, identity, baseline, steps);
    }

    /** The state record, and then the journal goes. */
    method Conclude(primaryId: int, helperId: int, identity: Identity, baseline: int, steps: seq<Tool>)
      returns (r: Report)
      requires Sound() && world.own.journal.Some? && world.own.state.None? && Below(log, Rank(DeleteUser))
      requires Labelled(around) && FoundUser(world.host, identity)
      requires Made(log, true, identity, true, helperId, true, primaryId)
      modifies `clock, `calls, `world, `past, `log
      ensures Sound()
      ensures r.RolledBack? ==> RollbackVerified(world, true, baseline, false)
      ensures r.Prepared? ==> world.own.journal.None? && PreparedWorld(world)
      ensures NothingFails() ==> (r.Prepared? <==> !old(world.own.stateCandidate)) && !r.RolledBack?
    {
      hide Sound, Names, MadeUser, MadeGroup, Restored, Undoes, ClassifyContract, Classify, VerifiedGroup;
      var managed := ManagedState(identity.userId, identity.primaryGroupId, identity.helperGroupId,
                                  around.commit, around.version);
      ReadyIsRecordable(world.host.passwd, world.host.group, around);
      var written := WriteState(managed);
      if !written {
        r := Fail("managed_state_write_failed", true, true, true, identity, primaryId, helperId, baseline, steps);
        return;
      }
      PreparedIsClassified(world.host, identity, managed);
      var removed := RemoveJournal();
      ReleaseLock();
      return if removed then Prepared else RecoveryRequired("preparation_failed_recovery_required");
    }
  }

  ghost predicate PreparedWorld(w: World)
  {
    Classify(w.host.passwd, w.host.group, ReadManaged(w.own.state, true), false) == ManagedPrepared
  }

  /** The compensation asks of a group what its verification asked, so one that failed it is not deleted. */
  lemma UnverifiedStays(tools: Tools, c: nat, h: Host, primaryId: int, helperId: int, logs: int)
    ensures !VerifiedGroup(h.group.lines, PRIMARY) ==>
      !Undoes(tools, c, h, false, NO_IDENTITY, false, 0, true, primaryId, logs)
    ensures !VerifiedGroup(h.group.lines, HELPER) ==>
      !Undoes(tools, c, h, false, NO_IDENTITY, true, helperId, true, primaryId, logs)
  {
  }

  lemma WithoutHelper(tools: Tools, c: nat, h: Host, helperId: int, primaryId: int, logs: int)
    ensures Undoes(tools, c, h, false, NO_IDENTITY, false, helperId, true, primaryId, logs)
      == Undoes(tools, c, h, false, NO_IDENTITY, false, 0, true, primaryId, logs)
  {
  }

  /** A user is only deleted as the one a ready contract names. */
  lemma LostUserStays(tools: Tools, c: nat, h: Host, helperId: int, primaryId: int, logs: int)
    ensures forall expected :: Undoes(tools, c, h, true, expected, true, helperId, true, primaryId, logs) ==>
      FoundUser(h, expected)
  {
  }

  lemma WithoutUser(tools: Tools, c: nat, h: Host, expected: Identity, helperId: int, primaryId: int, logs: int)
    ensures Undoes(tools, c, h, false, expected, true, helperId, true, primaryId, logs)
      == Undoes(tools, c, h, false, NO_IDENTITY, true, helperId, true, primaryId, logs)
  {
  }

  /** Records outlive later calls. */
  lemma MadePersists(before: seq<Call>, log: seq<Call>)
    requires before <= log
    ensures forall tool, name, id :: MadeGroup(before, |before|, tool, name, id) ==>
      MadeGroup(log, |log|, tool, name, id)
    ensures forall identity :: MadeUser(before, |before|, identity) ==> MadeUser(log, |log|, identity)
  {
    assert forall j :: 0 <= j < |before| ==> before[j] == log[j];
    forall tool, name, id | MadeGroup(before, |before|, tool, name, id) ensures MadeGroup(log, |log|, tool, name, id) {
      var j :| 0 <= j < |before| && before[j].tool == tool && before[j].exit == 0
        && GroupId(before[j].after.group.lines, name).0 == id;
      assert log[j].tool == tool;
    }
    forall identity | MadeUser(before, |before|, identity) ensures MadeUser(log, |log|, identity) {
      var j :| 0 <= j < |before| && before[j].tool == AddUser && before[j].exit == 0
        && ClassifyContract(before[j].after.passwd, before[j].after.group) == ContractReady(identity);
      assert log[j].tool == AddUser;
    }
  }

  lemma UserIsLawful(log: seq<Call>, host: Host, identity: Identity)
    requires ClassifyContract(host.passwd, host.group) == ContractReady(identity)
    requires identity != NO_IDENTITY ==> MadeUser(log, |log|, identity)
    ensures forall exit, after :: Lawful(log + [Call(DeleteUser, host, exit, after)], |log|)
  {
    forall exit, after ensures Lawful(log + [Call(DeleteUser, host, exit, after)], |log|) {
      MadeStays(log, Call(DeleteUser, host, exit, after), |log|);
    }
  }

  lemma GroupIsLawful(log: seq<Call>, host: Host, tool: Tool)
    requires tool == DeleteHelper || tool == DeletePrimary
    requires var name := if tool == DeleteHelper then HELPER else PRIMARY;
      && VerifiedGroup(host.group.lines, name)
      && MadeGroup(log, |log|, Maker(tool), name, GroupId(host.group.lines, name).0)
    ensures forall exit, after :: Lawful(log + [Call(tool, host, exit, after)], |log|)
  {
    forall exit, after ensures Lawful(log + [Call(tool, host, exit, after)], |log|) {
      MadeStays(log, Call(tool, host, exit, after), |log|);
    }
  }

  /** A ready account contract and the record made from it classify as a managed, prepared identity. */
  lemma PreparedIsClassified(host: Host, identity: Identity, managed: ManagedState)
    requires ClassifyContract(host.passwd, host.group) == ContractReady(identity) && ValidManaged(managed)
    requires managed.userId == identity.userId
    requires managed.primaryGroupId == identity.primaryGroupId && managed.helperGroupId == identity.helperGroupId
    ensures Classify(host.passwd, host.group, Some(managed), false) == ManagedPrepared
  {
    ReadyHasNames(host.passwd, host.group);
  }

  // ---------------------------------------------------------------- a stale group shadow line

  const NO_FILE := AccountFile([], true)
  const GROUP_MADE := AccountFile([[PRIMARY, "x", "9", ""]], true)
  const STALE := AccountFile([[PRIMARY, "!", "", ""]], true)

  function HostWith(group: AccountFile, gshadow: Option<AccountFile>): Host
  {
    Host(NO_FILE, group, None, gshadow, false, false, false, 0)
  }

  /** The first tool makes the group, the second fails, and the delete takes the group and its shadow line away. */
  function StaleLineTools(call: nat): Result
  {
    if call == 0 then Result(0, HostWith(NO_FILE, Some(STALE)))
    else if call == 1 then Result(0, HostWith(GROUP_MADE, Some(STALE)))
    else if call == 2 then Result(1, HostWith(GROUP_MADE, Some(STALE)))
    else Result(0, HostWith(NO_FILE, Some(NO_FILE)))
  }

  lemma EmptyIsAbsent(managed: Option<ManagedState>)
    requires managed.None?
    ensures Classify(NO_FILE, NO_FILE, managed, false) == Absent && ClassifyContract(NO_FILE, NO_FILE) == ContractAbsent
  {
  }

  lemma GroupMadeIsTrusted()
    ensures GroupId(GROUP_MADE.lines, PRIMARY) == (9, true) && MembersEmpty(GROUP_MADE.lines, PRIMARY)
  {
    var lines := GROUP_MADE.lines;
    assert AllDigits("9") && "9"[..0] == "" && DigitsValue("") == 0 && DigitsValue("9") == 9;
    assert Atoi("9") == Some(9) && GroupNumber(lines[0][2]);
    assert OnlyGroupLine(lines, PRIMARY, 0);
    TrustedGroup(lines, PRIMARY);
  }

  lemma StaleLineRollsBack(tools: Tools)
    requires forall n :: tools(n) == StaleLineTools(n)
    ensures RollsBack(tools, 1, 0)
  {
    hide ScanGroups, Classify, ClassifyContract;
    GroupMadeIsTrusted();
    EmptyIsAbsent(None);
    var h := tools(3).host;
    assert !Named(h.group.lines, PRIMARY) && !Named(h.group.lines, HELPER);
    assert Restored(h, 0);
    assert UndoesPrimary(tools, 3, tools(2).host, true, 9, 0);
  }

  lemma StaleLineStarts(around: Surroundings, w: World)
    requires around == Surroundings(false, false, [], true, around.commit, around.version)
    requires w == World(HostWith(NO_FILE, Some(STALE)), Own(None, None, false, false, false))
    ensures Startable(around, w)
  {
    hide Classify, ClassifyContract;
    EmptyIsAbsent(None);
  }

  /**
   Where the compensation does not restore: gshadow is not read before the run, so a managed line that was
   there already is gone after a run that reports itself rolled back.
   */
  method StaleLineIsLost(commit: string, version: string) returns (before: Host, after: Host, r: Report)
    requires LowerHex(commit, 40) && ValidVersion(version)
    ensures r.RolledBack?
    ensures GroupShadowed(before) && !GroupShadowed(after)
  {
    hide RollsBack, Prepares, Startable;
    before := HostWith(NO_FILE, Some(STALE));
    assert LineNamed(STALE.lines[0], PRIMARY);
    var around := Surroundings(false, false, [], true, commit, version);
    var world := World(before, Own(None, None, false, false, false));
    var run := new Preparation(around, (n: nat) => Luck(true, false), StaleLineTools, world);
    StaleLineStarts(around, world);
    StaleLineRollsBack(run.tools);
    r := run.Prepare();
    after := run.world.host;
  }
}
