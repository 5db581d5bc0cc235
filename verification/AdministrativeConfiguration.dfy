/**
 Install, replace, rollback and remove as the program runs them: one step after another on the disk,
 every file operation and every external check free to fail. `fate` decides the n-th of them.
 */
module AdministrativeConfiguration {
  import opened Basics
  import opened ConfigurationFiles
  import ConfigurationHistory

  /** `Late` is an atomic write that renamed its file and then failed to sync the directory. */
  datatype Fate = Done | Fails | Late

  const CONFIRMATIONS: map<Action, string> := map[
    Install := "confirm_atlas_manager_mock_administrative_configuration",
    RemoveAll := "confirm_atlas_manager_mock_administrative_configuration_removal",
    Replace := "confirm_atlas_manager_administrative_configuration_replacement",
    Rollback := "confirm_atlas_manager_administrative_configuration_rollback"]

  /** Of the first `n` removals, tried from operation `c` on, the steps are exactly those that succeed. */
  ghost predicate RemovedWhatCouldBe(fate: nat -> Fate, steps: seq<Effect>, n: nat, c: nat)
    requires n <= |REMOVALS|
  {
    forall j :: 0 <= j < n ==> (REMOVALS[j] in steps <==> fate(c + j) == Done)
  }

  lemma RemovedOne(fate: nat -> Fate, steps: seq<Effect>, n: nat, c: nat)
    requires n < |REMOVALS| && Ordered(steps, n) && RemovedWhatCouldBe(fate, steps, n, c)
    ensures fate(c + n) == Done ==> RemovedWhatCouldBe(fate, steps + [REMOVALS[n]], n + 1, c)
    ensures fate(c + n) != Done ==> RemovedWhatCouldBe(fate, steps, n + 1, c)
  {
    hide Ordered;
    OrderedWithin(steps, n);
    forall j | 0 <= j < n ensures REMOVALS[j] != REMOVALS[n] {
    }
    assert REMOVALS[n] !in REMOVALS[..n];
  }

  lemma NothingRemoved(fate: nat -> Fate, c: nat)
    ensures RemovedWhatCouldBe(fate, [], 0, c) && Ordered([], 0) && Ordered([], |REMOVALS|)
  {
  }

  lemma ReadyIsInstalled(k: Context, d: Disk)
    requires Ready(k, RemoveAll, d)
    ensures Installed(k.rules, Apply(d, PutLock))
  {
  }

  class Configuration {
    const k: Context
    const fate: nat -> Fate
    var clock: nat
    var disk: Disk

    constructor (k: Context, fate: nat -> Fate, disk: Disk)
      ensures this.k == k && this.fate == fate && this.disk == disk && clock == 0
    {
      this.k, this.fate, this.disk, clock := k, fate, disk, 0;
    }

    ghost predicate NothingFails()
    {
      forall n :: fate(n) == Done
    }

    /** The operations from `from` up to but not including `to` succeed. */
    ghost predicate AllDone(from: nat, to: nat)
    {
      forall n :: from <= n < to ==> fate(n) == Done
    }

    /** One read or external check. */
    method Check() returns (ok: bool)
      modifies `clock
      ensures ok == (fate(old(clock)) == Done) && clock == old(clock) + 1
      ensures NothingFails() ==> ok
    {
      ok := fate(clock) == Done;
      clock := clock + 1;
    }

    /** A check whose place among the operations does not matter. */
    method Holds() returns (ok: bool)
      modifies `clock
      ensures NothingFails() ==> ok
    {
      ok := Check();
    }

    /** One write or removal: the next of the effects that `all` lists. */
    method Do(e: Effect, ghost start: Disk, ghost all: seq<Effect>, ghost n: nat) returns (ok: bool, ghost m: nat)
      requires n < |all| && e == all[n] && disk == After(start, all[..n])
      modifies `clock, `disk
      ensures m <= |all| && disk == After(start, all[..m])
      ensures m == n || (m == n + 1 && disk == Apply(old(disk), e))
      ensures ok ==> m == n + 1
      ensures NothingFails() ==> ok
    {
      ok, m := fate(clock) == Done, n;
      if fate(clock) != Fails {
        disk := Apply(disk, e);
        AfterSnoc(start, all[..n], e);
        assert all[..n + 1] == all[..n] + [e];
        m := n + 1;
      }
      clock := clock + 1;
    }

    method VerifyInstalled() returns (fault: Option<string>)
      modifies `clock
      ensures fault.None? ==> Installed(k.rules, disk) && clock == old(clock) + 4
      ensures AllDone(old(clock), old(clock) + 4) && Installed(k.rules, disk) ==> fault.None?
      ensures NothingFails() && Installed(k.rules, disk) ==> fault.None?
    {
      var reading := ReadState(k.rules, disk);
      var readable := Check();
      if !readable || !reading.Readable? {
        return Some("configuration_state_invalid");
      }
      var environmentRead := Check();
      if !environmentRead || !HasDigest(k.rules, disk.environment, reading.state.configurationDigest) {
        return Some("configuration_modified");
      }
      var metadata := Check();
      if !metadata {
        return Some("configuration_unsafe");
      }
      var inputRead := Check();
      if !inputRead || !HasDigest(k.rules, disk.currentInput, reading.state.inputDigest) {
        return Some("configuration_input_modified");
      }
      if !k.rules.validInput(disk.currentInput.value) {
        return Some("configuration_input_modified");
      }
      return None;
    }

    /** Writes in the given order; the first write that reports an error is the last one attempted. */
    method WriteAll(writes: seq<Effect>, ghost start: Disk, ghost all: seq<Effect>, ghost n: nat)
      returns (ok: bool, ghost m: nat)
      requires n + |writes| <= |all| && all[n..n + |writes|] == writes && disk == After(start, all[..n])
      modifies `clock, `disk
      ensures n <= m <= n + |writes| && disk == After(start, all[..m])
      ensures ok ==> m == n + |writes|
      ensures NothingFails() ==> ok
    {
      hide After;
      m, ok := n, true;
      for i := 0 to |writes|
        invariant m == n + i && disk == After(start, all[..m])
      {
        assert all[n..n + |writes|][i] == all[n + i];
        ok, m := Do(writes[i], start, all, m);
        if !ok {
          return;
        }
      }
      ok := true;
    }

    /** The end of every journaled action: verify, then take the journal away, ignoring a failure to. */
    method Finish(action: Action, ghost start: Disk, ghost plan: seq<Effect>)
      returns (r: Report, ghost body: seq<Effect>)
      requires !action.RemoveAll? && Complete(plan) && disk == After(start, plan) && plan == Plan(k, action, start)
      modifies `clock, `disk
      ensures disk == After(start, body) && plan <= body && (r.Blocked? ==> body == plan)
      ensures Journaled(k, action, start, body, r)
      ensures NothingFails() ==> Unhindered(k, action, start, body, r)
    {
      hide Installed, Plan, After;
      body := plan;
      var fault := VerifyInstalled();
      if fault.Some? {
        return Blocked(fault.value), body;
      }
      var removed := Check();
      if removed {
        disk := Apply(disk, Remove(Journal));
        AfterSnoc(start, plan, Remove(Journal));
        body := plan + [Remove(Journal)];
      }
      r := Success(Verb(action));
    }

    method InstallFiles() returns (r: Report, ghost body: seq<Effect>)
      modifies `clock, `disk
      ensures disk == After(old(disk), body)
      ensures Journaled(k, Install, old(disk), body, r)
      ensures NothingFails() ==> Unhindered(k, Install, old(disk), body, r)
    {
      hide NothingFails;
      ghost var start, plan := disk, InstallPlan(k, disk);
      body := [];
      assert plan[..0] == [];
      var ok := Holds();
      if !ok || k.input.None? || !k.rules.validInput(k.input.value) {
        return Blocked("administrative_input_invalid"), body;
      }
      var environment := k.rules.environment(k.input.value);
      if environment.None? {
        return Blocked("administrative_input_invalid"), body;
      }
      ok := Holds();
      if !ok {
        return Blocked("configuration_typescript_validation_failed"), body;
      }
      ghost var n := 0;
      ok, n := WriteAll([PutJournal, Put(Environment, environment.value)], start, plan, 0);
      body := plan[..n];
      if !ok {
        return Blocked("configuration_write_failed"), body;
      }
      ok := Holds();
      if !ok || k.deployedVersion.None? {
        return Blocked("deployment_not_ready"), body;
      }
      ok := Holds();
      if !ok {
        return Blocked("administrative_input_invalid"), body;
      }
      var state := FirstState(k, environment.value, k.input.value);
      ok, n := WriteAll([Put(CurrentInput, k.input.value), PutState(state)], start, plan, n);
      body := plan[..n];
      if !ok {
        return Blocked("configuration_write_failed"), body;
      }
      assert body == plan;
      JournalStays(k, Install, start);
      r, body := Finish(Install, start, plan);
    }

    /** Reads and checks of a replacement, made with the journal already on disk. */
    method ReplacementWrites() returns (fault: string, writes: seq<Effect>)
      modifies `clock
      ensures writes != [] ==> Complete(writes) && [PutJournal] + writes == ReplacePlan(k, disk)
      ensures NothingFails() ==> [PutJournal] + writes == ReplacePlan(k, disk)
    {
      hide ReadState, NothingFails;
      writes := [];
      var current := disk.environment;
      var ok := Holds();
      if !ok || current.None? {
        return "configuration_modified", writes;
      }
      var reading := ReadState(k.rules, disk);
      ok := Holds();
      if !ok || !reading.Readable? {
        return "configuration_state_invalid", writes;
      }
      var state := reading.state;
      if k.rules.sha(current.value) != state.configurationDigest {
        return "configuration_modified", writes;
      }
      var currentInput := disk.currentInput;
      ok := Holds();
      if !ok || !HasDigest(k.rules, currentInput, state.inputDigest) {
        return "configuration_input_modified", writes;
      }
      ok := Holds();
      if !ok || k.input.None? || !k.rules.validInput(k.input.value) {
        return "administrative_input_invalid", writes;
      }
      var next := k.rules.environment(k.input.value);
      if next.None? {
        return "administrative_input_invalid", writes;
      }
      ok := Holds();
      if !ok {
        return "configuration_typescript_validation_failed", writes;
      }
      ok := Holds();
      if !ok {
        return "configuration_replace_failed", writes;
      }
      return "configuration_replace_failed",
        [Put(PreviousInput, currentInput.value),
         Put(PreviousEnvironment, current.value),
         Put(Environment, next.value),
         Put(CurrentInput, k.input.value),
         PutState(NextState(k, state, next.value, k.input.value))];
    }

    /** Reads and checks of a rollback, made with the journal already on disk. */
    method RollbackWrites() returns (fault: string, writes: seq<Effect>)
      modifies `clock
      ensures writes != [] ==> Complete(writes) && [PutJournal] + writes == RollbackPlan(k, disk)
      ensures NothingFails() ==> [PutJournal] + writes == RollbackPlan(k, disk)
    {
      hide ReadState, NothingFails;
      writes := [];
      var reading := ReadState(k.rules, disk);
      var ok := Holds();
      if !ok || !reading.Readable? || reading.state.previousGeneration == 0
         || reading.state.previousConfigurationDigest == "" {
        return "previous_generation_unavailable", writes;
      }
      var state := reading.state;
      var previous := disk.previousEnvironment;
      ok := Holds();
      if !ok || !HasDigest(k.rules, previous, state.previousConfigurationDigest) {
        return "previous_generation_modified", writes;
      }
      var previousInput := disk.previousInput;
      ok := Holds();
      if !ok || !HasDigest(k.rules, previousInput, state.previousInputDigest) {
        return "previous_generation_modified", writes;
      }
      if !k.rules.validInput(previousInput.value) {
        return "previous_generation_invalid", writes;
      }
      if !HasDigest(k.rules, k.rules.environment(previousInput.value), state.previousConfigurationDigest) {
        return "previous_generation_modified", writes;
      }
      ok := Holds();
      if !ok {
        return "configuration_typescript_validation_failed", writes;
      }
      var current := disk.environment;
      ok := Holds();
      if !ok || !HasDigest(k.rules, current, state.configurationDigest) {
        return "configuration_modified", writes;
      }
      var currentInput := disk.currentInput;
      ok := Holds();
      if !ok || !HasDigest(k.rules, currentInput, state.inputDigest) || !k.rules.validInput(currentInput.value) {
        return "configuration_input_modified", writes;
      }
      if !HasDigest(k.rules, k.rules.environment(currentInput.value), state.configurationDigest) {
        return "configuration_input_modified", writes;
      }
      return "configuration_rollback_failed",
        [Put(PreviousInput, currentInput.value),
         Put(PreviousEnvironment, current.value),
         Put(CurrentInput, previousInput.value),
         Put(Environment, previous.value),
         PutState(SwappedState(state))];
    }

    /** Replace and rollback: journal first, then the reads, then the writes. */
    method ReplaceOrRollback(action: Action) returns (r: Report, ghost body: seq<Effect>)
      requires action.Replace? || action.Rollback?
      modifies `clock, `disk
      ensures disk == After(old(disk), body)
      ensures Journaled(k, action, old(disk), body, r)
      ensures NothingFails() ==> Unhindered(k, action, old(disk), body, r)
    {
      ghost var start, plan := disk, Plan(k, action, disk);
      assert plan[..0] == [] && plan[0] == PutJournal;
      PlanIgnoresJournal(k, action, start);
      JournalStays(k, action, start);
      ghost var n := 0;
      var ok;
      ok, n := Do(PutJournal, start, plan, 0);
      body := plan[..n];
      if !ok {
        return Blocked("configuration_write_failed"), body;
      }
      hide ReplacePlan, RollbackPlan, After, Installed, NothingFails;
      var fault, writes;
      if action.Replace? {
        fault, writes := ReplacementWrites();
      } else {
        fault, writes := RollbackWrites();
      }
      if writes == [] {
        return Blocked(fault), body;
      }
      assert plan == [PutJournal] + writes;
      TailOf(PutJournal, writes);
      ok, n := WriteAll(writes, start, plan, 1);
      body := plan[..n];
      if !ok {
        return Blocked(fault), body;
      }
      assert body == plan;
      r, body := Finish(action, start, plan);
    }

    method RemoveFiles() returns (r: Report, ghost steps: seq<Effect>)
      modifies `clock, `disk
      ensures disk == After(old(disk), steps)
      ensures Removal(k, old(disk), steps, r)
      ensures NothingFails() ==> Unhindered(k, RemoveAll, old(disk), steps, r)
      ensures Installed(k.rules, old(disk)) && AllDone(old(clock), old(clock) + 4) && fate(old(clock) + 4) == Done ==>
        r.Success? && RemovedWhatCouldBe(fate, steps, |REMOVALS|, old(clock) + 4)
    {
      hide Installed, Apply, RemovedWhatCouldBe, Ordered, AllDone;
      ghost var start, c := disk, clock + 4;
      NothingRemoved(fate, c);
      steps := [];
      var fault := VerifyInstalled();
      if fault.Some? {
        return Blocked(fault.value), steps;
      }
      for i := 0 to |REMOVALS|
        invariant disk == After(start, steps)
        invariant if i == 0 then steps == [] else steps != [] && steps[0] == REMOVALS[0]
        invariant Ordered(steps, i)
        invariant NothingFails() ==> steps == REMOVALS[..i]
        invariant clock == old(clock) + 4 + i && RemovedWhatCouldBe(fate, steps, i, c)
      {
        RemovedOne(fate, steps, i, c);
        var done := fate(clock) == Done;
        clock := clock + 1;
        if done {
          disk := Apply(disk, REMOVALS[i]);
          AfterSnoc(start, steps, REMOVALS[i]);
          OrderedSnoc(steps, i);
          steps := steps + [REMOVALS[i]];
        } else if i == 0 {
          return Blocked("configuration_remove_failed"), steps;
        } else {
          OrderedSkip(steps, i);
        }
        assert REMOVALS[..i + 1] == REMOVALS[..i] + [REMOVALS[i]];
      }
      assert REMOVALS[..|REMOVALS|] == REMOVALS;
      OrderedIsRemoval(steps);
      r := Success("removed");
    }

    /** The checks before the lock; they only read. */
    method Precheck(action: Action, confirmation: string) returns (fault: Option<string>)
      modifies `clock
      ensures fault.None? ==> confirmation == CONFIRMATIONS[action] && Ready(k, action, disk)
      ensures AllDone(old(clock), old(clock) + 8) && confirmation == CONFIRMATIONS[action] && Ready(k, action, disk) ==>
        fault.None?
      ensures NothingFails() && confirmation == CONFIRMATIONS[action] && Ready(k, action, disk) ==> fault.None?
      ensures fault.None? && !action.Install? ==> clock == old(clock) + 8
    {
      hide ValidState;
      var ok := Check();
      if !ok {
        return Some("effective_root_required");
      }
      if confirmation != CONFIRMATIONS[action] {
        return Some("confirmation_invalid");
      }
      if k.baseFault.Some? {
        return k.baseFault;
      }
      if !action.Install? {
        fault := VerifyInstalled();
        if fault.Some? {
          return;
        }
      } else {
        ok := Check();
        if !ok || k.input.None? || !k.rules.validInput(k.input.value) {
          return Some("administrative_input_invalid");
        }
        ok := Check();
        if !ok {
          return Some("configuration_unsafe");
        }
        if disk.environment.Some? {
          return Some("configuration_existing_unknown");
        }
      }
      var reading := ReadState(k.rules, disk);
      ok := Check();
      if !ok || reading.Invalid? || (action.Install? && !reading.Absent?)
         || ((action.Replace? || action.Rollback?) && !reading.Readable?) {
        return Some("configuration_state_invalid");
      }
      ok := Check();
      if !ok || disk.journal {
        return Some("configuration_journal_present");
      }
      ok := Check();
      if !ok || disk.lock {
        return Some("configuration_lock_conflict");
      }
      return None;
    }

    /** A whole run, sequential with every other run: checks, lock, action, release. */
    method Run(action: Action, confirmation: string) returns (r: Report, ghost trace: Trace)
      modifies `clock, `disk
      ensures disk == CutAt(old(disk), trace, Length(trace))
      ensures Ran(k, action, old(disk), trace, r)
      ensures confirmation != CONFIRMATIONS[action] ==> trace.Refused?
      ensures NothingFails() && confirmation == CONFIRMATIONS[action] ==> UnhinderedRun(k, action, old(disk), trace, r)
      ensures action.RemoveAll? && confirmation == CONFIRMATIONS[action] && Ready(k, action, old(disk)) ==>
        AllDone(old(clock), old(clock) + 14) ==>
        trace.Locked? && r.Success? && RemovedWhatCouldBe(fate, trace.body, |REMOVALS|, old(clock) + 13)
    {
      hide Admitted, After, Journaled, Removal, Rendered, Unhindered, NothingFails, Installed, RemovedWhatCouldBe;
      trace := Refused;
      var fault := Precheck(action, confirmation);
      if fault.Some? {
        return Blocked(fault.value), trace;
      }
      if action.RemoveAll? {
        ReadyIsInstalled(k, disk);
      }
      disk := Apply(disk, PutLock);
      ghost var body: seq<Effect> := [];
      var owned := Check();
      if owned {
        r, body := Act(action);
      } else {
        NoBody(k, action, disk);
        r := Blocked("configuration_lock_conflict");
      }
      assert body[..|body|] == body;
      trace := Locked(body, false);
      var released := Check();
      if released {
        disk := Apply(disk, Remove(Lock));
        trace := Locked(body, true);
      }
    }

    method Act(action: Action) returns (r: Report, ghost body: seq<Effect>)
      modifies `clock, `disk
      ensures disk == After(old(disk), body)
      ensures Body(k, action, old(disk), body, r)
      ensures NothingFails() ==> Unhindered(k, action, old(disk), body, r)
      ensures action.RemoveAll? && Installed(k.rules, old(disk)) ==>
        AllDone(old(clock), old(clock) + 4) && fate(old(clock) + 4) == Done ==>
        r.Success? && RemovedWhatCouldBe(fate, body, |REMOVALS|, old(clock) + 4)
    {
      hide After, Journaled, Removal, Unhindered;
      match action
      case Install => r, body := InstallFiles();
      case Replace => r, body := ReplaceOrRollback(action);
      case Rollback => r, body := ReplaceOrRollback(action);
      case RemoveAll => r, body := RemoveFiles();
    }
  }

  lemma TailOf(e: Effect, writes: seq<Effect>)
    ensures ([e] + writes)[1..1 + |writes|] == writes && ([e] + writes)[..1 + |writes|] == [e] + writes
  {
  }

  lemma NoBody(k: Context, action: Action, d: Disk)
    ensures After(d, []) == d && Body(k, action, d, [], Blocked("configuration_lock_conflict"))
  {
  }

  /**
   On any disk ready for it: a removal in which only the removal of the record fails reports success, and
   the record it leaves makes every later run refuse, with the lock cleared and no journal on disk.
   */
  method RecordStays(k: Context, before: Disk) returns (after: Disk, r: Report)
    requires Ready(k, RemoveAll, before)
    ensures r == Success("removed")
    ensures after.environment.None? && after.state == before.state && after.state.Some? && !after.journal
    ensures forall later: Context, action ::
      later.rules == k.rules ==> !Admitted(later, action, after.(lock := false))
  {
    hide Installed, After, Admitted, Removal;
    var run := new Configuration(k, n => if n == 17 then Fails else Done, before);
    ghost var t;
    r, t := run.Run(RemoveAll, CONFIRMATIONS[RemoveAll]);
    after := run.disk;
    assert REMOVALS[4] == Remove(StateFile) && run.fate(17) == Fails;
    assert Remove(StateFile) !in t.body;
    LeftRecord(k, before, t, r);
    forall later: Context, action | later.rules == k.rules ensures !Admitted(later, action, after.(lock := false)) {
      ConfigurationHistory.RemovalFreesInstall(k, before, t, r, Length(t), later, action);
    }
  }

  lemma LeftRecord(k: Context, d: Disk, t: Trace, r: Report)
    requires Ran(k, RemoveAll, d, t, r) && t.Locked? && r.Success? && Remove(StateFile) !in t.body
    ensures r == Success("removed") && Taken(t, Length(t)) == t.body && t.body != [] && d.state.Some?
    ensures var c := CutAt(d, t, Length(t));
      c.environment.None? && c.state == d.state && !c.journal
  {
    hide ValidState, After;
    assert t.body[..|t.body|] == t.body;
    ConfigurationHistory.RemovalPrefix(Apply(d, PutLock), t.body, |t.body|);
  }
}
