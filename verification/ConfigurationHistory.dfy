/** What holds of every disk that a sequence of runs can leave, whichever of them failed or were cut. */
module ConfigurationHistory {
  import opened Basics
  import opened ConfigurationFiles

  // ---------------------------------------------------------------- one run, cut anywhere

  lemma InstalledIgnores(rules: Rules, d: Disk, journal: bool, lock: bool)
    ensures Installed(rules, d) == Installed(rules, d.(journal := journal, lock := lock))
  {
  }

  /** A prefix of a journaled body: nothing yet, or the journal is there, or the whole plan verified. */
  lemma JournaledPrefix(k: Context, action: Action, d: Disk, body: seq<Effect>, r: Report, m: nat)
    requires !action.RemoveAll? && Journaled(k, action, d, body, r) && m <= |body|
    ensures var plan := Plan(k, action, d);
      || (m == 0 && After(d, body[..m]) == d)
      || (0 < m <= |plan| && After(d, body[..m]).journal && body[..m] == plan[..m])
      || (m == |plan| + 1 && Complete(plan) && body[..m] == plan + [Remove(Journal)]
          && Installed(k.rules, After(d, plan))
          && After(d, body[..m]) == After(d, plan).(journal := false))
  {
    hide Plan, Installed, After;
    var plan := Plan(k, action, d);
    var all := plan + [Remove(Journal)];
    assert body[..m] == all[..m];
    if m == 0 {
      assert body[..m] == [];
      AfterNone(d);
    } else if m <= |plan| {
      assert all[..m] == plan[..m];
      JournalStaysThrough(k, action, d, m);
    } else {
      assert all[..m] == all;
      AfterSnoc(d, plan, Remove(Journal));
    }
  }

  /**
   Crash consistency. Wherever a run of install, replace or rollback stops, the journal is on disk, or
   no managed file has changed, or the installation verifies.
   */
  lemma CrashConsistency(k: Context, action: Action, d: Disk, t: Trace, r: Report, n: nat)
    requires !action.RemoveAll? && Ran(k, action, d, t, r) && n <= Length(t)
    ensures var c := CutAt(d, t, n); c.journal || SameManagedFiles(c, d) || Installed(k.rules, c)
  {
    hide Plan, Installed, After, Journaled, Admitted;
    if n > 0 {
      var locked := Apply(d, PutLock);
      var m := |Taken(t, n)|;
      assert Taken(t, n) == t.body[..m];
      JournaledPrefix(k, action, locked, t.body, r, m);
      var c := After(locked, Taken(t, n));
      if m == |Plan(k, action, locked)| + 1 {
        InstalledIgnores(k.rules, After(locked, Plan(k, action, locked)), false, c.lock);
        InstalledIgnores(k.rules, c, c.journal, false);
      }
    }
  }

  // ---------------------------------------------------------------- histories

  /** A run that got through its first `cut` effects, or an operator (or a reboot) clearing the lock. */
  datatype Event = Attempt(k: Context, action: Action, trace: Trace, report: Report, cut: nat) | Unlock

  ghost predicate Possible(rules: Rules, d: Disk, e: Event)
  {
    e.Attempt? ==> e.k.rules == rules && Ran(e.k, e.action, d, e.trace, e.report) && e.cut <= Length(e.trace)
  }

  ghost function Next(rules: Rules, d: Disk, e: Event): Disk
    requires Possible(rules, d, e)
  {
    match e
    case Unlock => d.(lock := false)
    case Attempt(_, _, t, _, cut) => CutAt(d, t, cut)
  }

  /** `disks` are the disks before, between and after the events. */
  ghost predicate History(rules: Rules, disks: seq<Disk>, events: seq<Event>)
  {
    && |disks| == |events| + 1
    && forall i :: 0 <= i < |events| ==>
      Possible(rules, disks[i], events[i]) && disks[i + 1] == Next(rules, disks[i], events[i])
  }

  /** With the journal on disk no run gets as far as the lock: nothing changes, in any number of attempts. */
  lemma {:induction false} JournalBlocksForever(rules: Rules, disks: seq<Disk>, events: seq<Event>, i: nat)
    requires History(rules, disks, events) && disks[0].journal && i < |disks|
    ensures SameManagedFiles(disks[i], disks[0]) && disks[i].journal
    ensures i < |events| && events[i].Attempt? ==> events[i].trace.Refused? && events[i].report.Blocked?
  {
    if i > 0 {
      JournalBlocksForever(rules, disks, events, i - 1);
    }
    if i < |events| {
      assert Possible(rules, disks[i], events[i]);
    }
  }

  // ---------------------------------------------------------------- generations

  datatype Version = Version(environment: Bytes, input: Bytes)

  /** What the operator's input file stands for; meaningful when the input renders. */
  ghost function Offered(k: Context): Version
  {
    var environment := Rendered(k.rules, k.input);
    if environment.Some? then Version(environment.value, k.input.value) else Version([], [])
  }

  /** The versions put in place since the last install, oldest first. */
  ghost function Lineage(events: seq<Event>): seq<Version>
  {
    if events == [] then [] else
      var before, e := Lineage(events[..|events| - 1]), events[|events| - 1];
      if e.Unlock? || e.cut > Length(e.trace) then before
      else if Remove(Journal) in Taken(e.trace, e.cut) && e.action.Install? then [Offered(e.k)]
      else if Remove(Journal) in Taken(e.trace, e.cut) && e.action.Replace? then before + [Offered(e.k)]
      else if Remove(StateFile) in Taken(e.trace, e.cut) && e.action.RemoveAll? then []
      else before
  }

  /** The disk holds the newest version of the lineage, and behind it the version before that. */
  ghost predicate Holds(rules: Rules, d: Disk, lineage: seq<Version>)
  {
    && lineage != [] && d.state.Some? && d.state.value.Record?
    && var s, n := d.state.value.state, |lineage|;
    && s.currentGeneration == n && s.previousGeneration == n - 1
    && d.environment == Some(lineage[n - 1].environment) && d.currentInput == Some(lineage[n - 1].input)
    && s.configurationDigest == rules.sha(lineage[n - 1].environment)
    && s.inputDigest == rules.sha(lineage[n - 1].input)
    && (n > 1 ==>
          && d.previousEnvironment == Some(lineage[n - 2].environment) && d.previousInput == Some(lineage[n - 2].input)
          && s.previousConfigurationDigest == rules.sha(lineage[n - 2].environment)
          && s.previousInputDigest == rules.sha(lineage[n - 2].input))
  }

  /** An unfinished action, nothing installed, an unfinished removal, or the newest version. */
  ghost predicate Chain(rules: Rules, d: Disk, lineage: seq<Version>)
  {
    || d.journal
    || (d.state.None? && lineage == [])
    || (d.state.Some? && d.environment.None?)
    || Holds(rules, d, lineage)
  }

  /** A completed install puts the first version in place. */
  lemma InstallStartsChain(k: Context, d: Disk)
    requires Complete(InstallPlan(k, d))
    ensures Holds(k.rules, After(d, InstallPlan(k, d)), [Offered(k)])
  {
    var p := InstallPlan(k, d);
    assert p == [p[0], p[1], p[2], p[3]];
    AfterFour(d, p[0], p[1], p[2], p[3]);
  }

  /** A completed replacement puts one more version in place and keeps the one it replaced. */
  lemma ReplaceExtendsChain(k: Context, d: Disk, lineage: seq<Version>)
    requires Holds(k.rules, d, lineage) && Complete(ReplacePlan(k, d))
    requires Installed(k.rules, After(d, ReplacePlan(k, d)))
    ensures Holds(k.rules, After(d, ReplacePlan(k, d)), lineage + [Offered(k)])
  {
    hide ValidHash, ValidVersion, LowerHex;
    var p := ReplacePlan(k, d);
    assert p == [p[0], p[1], p[2], p[3], p[4], p[5]];
    AfterSix(d, p[0], p[1], p[2], p[3], p[4], p[5]);
    var s := ReadState(k.rules, d).state;
    var next := NextState(k, s, Offered(k).environment, Offered(k).input);
    assert p[5] == PutState(next);
    assert ValidState(next);
  }

  lemma OneRemoval(c: Disk, e: Effect)
    requires e in REMOVALS && !c.journal
    ensures !Apply(c, e).journal
    ensures Apply(c, e).environment == if e == Remove(Environment) then None else c.environment
    ensures Apply(c, e).state == if e == Remove(StateFile) then None else c.state
  {
  }

  lemma {:induction false} RemovalPrefix(d: Disk, body: seq<Effect>, m: nat)
    requires 0 < m <= |body| && body[0] == Remove(Environment) && !d.journal
    requires forall i :: 0 <= i < |body| ==> body[i] in REMOVALS
    ensures var c := After(d, body[..m]);
      && !c.journal && c.environment.None?
      && c.state == if Remove(StateFile) in body[..m] then None else d.state
  {
    hide Apply;
    var front, last := body[..m - 1], body[m - 1];
    assert body[..m] == front + [last];
    AfterSnoc(d, front, last);
    if m > 1 {
      RemovalPrefix(d, body, m - 1);
    } else {
      assert front == [];
    }
    OneRemoval(After(d, front), last);
  }

  /** One event keeps the chain, whatever fails in it and wherever it is cut. */
  lemma ChainStep(rules: Rules, d: Disk, events: seq<Event>, e: Event)
    requires Possible(rules, d, e) && Chain(rules, d, Lineage(events))
    ensures Chain(rules, Next(rules, d, e), Lineage(events + [e]))
  {
    hide Installed, After, Plan;
    var before := Lineage(events);
    assert (events + [e])[..|events|] == events;
    if e.Attempt? && e.cut > 0 {
      var body, locked := e.trace.body, Apply(d, PutLock);
      var taken := Taken(e.trace, e.cut);
      var m := |taken|;
      assert taken == body[..m];
      if e.action.RemoveAll? {
        RemovalChain(rules, d, before, e);
      } else {
        JournaledPrefix(e.k, e.action, locked, body, e.report, m);
        JournaledChain(rules, d, before, e);
      }
    }
  }

  lemma RemovalChain(rules: Rules, d: Disk, before: seq<Version>, e: Event)
    requires e.Attempt? && Possible(rules, d, e) && Chain(rules, d, before) && e.action.RemoveAll? && e.cut > 0
    ensures Chain(rules, Next(rules, d, e), if Remove(StateFile) in Taken(e.trace, e.cut) then [] else before)
  {
    hide Installed, After;
    var taken := Taken(e.trace, e.cut);
    var locked := Apply(d, PutLock);
    assert taken == e.trace.body[..|taken|];
    if taken == [] {
      AfterNone(locked);
    } else {
      RemovalPrefix(locked, e.trace.body, |taken|);
    }
  }

  lemma JournaledChain(rules: Rules, d: Disk, before: seq<Version>, e: Event)
    requires e.Attempt? && Possible(rules, d, e) && Chain(rules, d, before) && !e.action.RemoveAll? && e.cut > 0
    ensures Chain(rules, Next(rules, d, e),
      if Remove(Journal) !in Taken(e.trace, e.cut) then before
      else if e.action.Install? then [Offered(e.k)]
      else if e.action.Replace? then before + [Offered(e.k)]
      else before)
  {
    hide Installed, After, Plan;
    var body, locked := e.trace.body, Apply(d, PutLock);
    var taken := Taken(e.trace, e.cut);
    var m := |taken|;
    assert taken == body[..m];
    JournaledPrefix(e.k, e.action, locked, body, e.report, m);
    var plan := Plan(e.k, e.action, locked);
    if m == |plan| + 1 {
      assert taken[m - 1] == Remove(Journal);
      CompletedChain(e.k, e.action, d, before);
    } else {
      PlanKeepsJournal(e.k, e.action, locked);
      assert Remove(Journal) !in taken;
    }
  }

  lemma PlanKeepsJournal(k: Context, action: Action, d: Disk)
    requires !action.RemoveAll?
    ensures Remove(Journal) !in Plan(k, action, d)
  {
    hide ReadState, HasDigest, SourceOf, Rendered;
  }

  lemma CompletedChain(k: Context, action: Action, d: Disk, before: seq<Version>)
    requires !action.RemoveAll? && Admitted(k, action, d) && Chain(k.rules, d, before)
    requires var plan := Plan(k, action, Apply(d, PutLock));
      Complete(plan) && Installed(k.rules, After(Apply(d, PutLock), plan))
    ensures !action.Rollback?
    ensures Holds(k.rules, After(Apply(d, PutLock), Plan(k, action, Apply(d, PutLock))),
      if action.Install? then [Offered(k)] else before + [Offered(k)])
  {
    hide After;
    var locked := Apply(d, PutLock);
    match action
    case Install => InstallStartsChain(k, locked);
    case Replace =>
      assert Holds(k.rules, locked, before);
      ReplaceExtendsChain(k, locked, before);
    case Rollback => RollbackNeverVerifies(k, locked);
  }

  /**
   The generation chain. Start from a machine without a state record and let any runs follow, failed, cut
   or completed, in any order: unless an unfinished action or removal is on disk, the record counts the
   versions installed since the last install, and current and previous files are the last two of them.
   */
  lemma {:induction false} GenerationChain(rules: Rules, disks: seq<Disk>, events: seq<Event>)
    requires History(rules, disks, events) && disks[0].state.None?
    ensures Chain(rules, disks[|events|], Lineage(events))
    decreases |events|
  {
    if events != [] {
      var front := events[..|events| - 1];
      GenerationChain(rules, disks[..|events|], front);
      assert events == front + [events[|events| - 1]];
      ChainStep(rules, disks[|events| - 1], front, events[|events| - 1]);
    }
  }

  /** An installation that verifies is the newest version of its history, with its predecessor beside it. */
  lemma InstalledIsNewest(rules: Rules, disks: seq<Disk>, events: seq<Event>)
    requires History(rules, disks, events) && disks[0].state.None?
    requires var d := disks[|events|]; Installed(rules, d) && !d.journal
    ensures Holds(rules, disks[|events|], Lineage(events))
  {
    GenerationChain(rules, disks, events);
  }

  /** A reported success is a version in place, even when the journal could not be taken away. */
  lemma SuccessIsInPlace(k: Context, action: Action, d: Disk, t: Trace, r: Report, lineage: seq<Version>)
    requires Ran(k, action, d, t, r) && r.Success? && (action.Install? || action.Replace?)
    requires Chain(k.rules, d, lineage)
    ensures Holds(k.rules, CutAt(d, t, Length(t)), if action.Install? then [Offered(k)] else lineage + [Offered(k)])
  {
    hide Installed, After, Plan;
    var locked := Apply(d, PutLock);
    var plan := Plan(k, action, locked);
    CompletedChain(k, action, d, lineage);
    assert t.body[..|t.body|] == t.body;
    JournaledPrefix(k, action, locked, t.body, r, |t.body|);
    assert |t.body| == |plan| ==> t.body == plan;
  }

  /**
   What a removal that stops anywhere leaves for later runs, once nobody holds the lock: until it has taken
   the environment away, what was there before; from then on a new install exactly if the record itself is
   gone, and otherwise nothing at all, although there is no journal.
   */
  lemma RemovalFreesInstall(k: Context, d: Disk, t: Trace, r: Report, n: nat, later: Context, action: Action)
    requires Ran(k, RemoveAll, d, t, r) && t.Locked? && n <= Length(t) && later.rules == k.rules
    ensures var c := CutAt(d, t, n).(lock := false);
      && !c.journal
      && (if n == 0 || Taken(t, n) == [] then Admitted(later, action, c) <==> Admitted(later, action, d)
          else Admitted(later, action, c) <==> action.Install? && Remove(StateFile) in Taken(t, n))
  {
    hide ValidState, After;
    var locked := Apply(d, PutLock);
    if n > 0 {
      var m := |Taken(t, n)|;
      assert Taken(t, n) == t.body[..m];
      if m == 0 {
        AfterNone(locked);
      } else {
        RemovalPrefix(locked, t.body, m);
      }
    }
  }

  // ---------------------------------------------------------------- rollback

  /** A run that was not cut. */
  lemma WholeRun(d: Disk, t: Trace)
    requires t.Locked?
    ensures CutAt(d, t, Length(t)) == After(Apply(d, PutLock), t.body).(lock := CutAt(d, t, Length(t)).lock)
    ensures t.released ==> !CutAt(d, t, Length(t)).lock
  {
    hide After;
    assert t.body[..|t.body|] == t.body;
  }

  /** No run of rollback ever reports success or takes the journal away. */
  lemma RollbackNeverReportsSuccess(k: Context, d: Disk, t: Trace, r: Report)
    requires Ran(k, Rollback, d, t, r)
    ensures r.Blocked?
    ensures t.Locked? ==> t.body <= RollbackPlan(k, Apply(d, PutLock))
  {
    if t.Locked? {
      var locked := Apply(d, PutLock);
      RollbackNeverVerifies(k, locked);
      var plan := RollbackPlan(k, locked);
      if |t.body| <= |plan| {
        assert t.body == (plan + [Remove(Journal)])[..|t.body|] == plan[..|t.body|];
      }
    }
  }

  /**
   A rollback that reaches its state write has exchanged the two versions exactly, and has left a record
   no run accepts: even with journal and lock cleared by hand, every action is refused from then on.
   */
  lemma RollbackPoisons(k: Context, d: Disk, t: Trace, r: Report, later: Context, action: Action, t': Trace, r': Report)
    requires Ran(k, Rollback, d, t, r) && t.Locked? && |t.body| == 6 && later.rules == k.rules
    requires Ran(later, action, CutAt(d, t, Length(t)).(journal := false, lock := false), t', r')
    ensures var c := CutAt(d, t, Length(t));
      && c.environment == d.previousEnvironment && c.previousEnvironment == d.environment
      && c.currentInput == d.previousInput && c.previousInput == d.currentInput
    ensures t'.Refused? && r'.Blocked?
  {
    hide CutAt, Length, After, RollbackPlan, ValidState, HasDigest;
    var locked := Apply(d, PutLock);
    RollbackNeverReportsSuccess(k, d, t, r);
    WholeRun(d, t);
    RollbackPlanIsShort(k, locked);
    var plan := RollbackPlan(k, locked);
    assert t.body == plan;
    RollbackSwaps(k, locked);
    var s := ReadState(k.rules, locked).state;
    SwapIsInvalid(s);
    InvalidRefuses(later, action, CutAt(d, t, Length(t)).(journal := false, lock := false), SwappedState(s), t', r');
  }

  lemma RollbackPlanIsShort(k: Context, d: Disk)
    ensures |RollbackPlan(k, d)| == 1 || |RollbackPlan(k, d)| == 6
  {
    hide SourceOf, HasDigest, ValidState;
  }

  /** With a record that does not validate on disk no run gets as far as the lock. */
  lemma InvalidRefuses(k: Context, action: Action, d: Disk, s: State, t: Trace, r: Report)
    requires Ran(k, action, d, t, r) && d.state == Some(Record(s)) && !ValidState(s)
    ensures t.Refused? && r.Blocked?
  {
    hide ValidState, Body;
  }

  /** The recorded previous version is on disk, and both versions are rendered from the inputs beside them. */
  ghost predicate PreviousIntact(rules: Rules, d: Disk)
    requires Installed(rules, d)
  {
    var s := ReadState(rules, d).state;
    && s.previousGeneration > 0
    && HasDigest(rules, d.previousEnvironment, s.previousConfigurationDigest)
    && SourceOf(rules, d.previousInput, s.previousInputDigest, s.previousConfigurationDigest)
    && SourceOf(rules, d.currentInput, s.inputDigest, s.configurationDigest)
  }

  lemma RollbackPlanIsFull(k: Context, d: Disk)
    requires Installed(k.rules, d)
    ensures |RollbackPlan(k, d)| == 6 <==> PreviousIntact(k.rules, d)
    ensures !PreviousIntact(k.rules, d) ==> RollbackPlan(k, d) == [PutJournal]
  {
    hide SourceOf;
  }

  /**
   A rollback in which nothing fails, on a disk ready for it, is blocked all the same. It reaches its state
   write exactly when the previous version is intact, and then leaves the two versions exchanged under a
   record no run accepts; otherwise it leaves its journal and nothing else.
   */
  lemma RollbackReachesItsStateWrite(k: Context, d: Disk, t: Trace, r: Report)
    requires UnhinderedRun(k, Rollback, d, t, r) && Ready(k, Rollback, d)
    ensures t.Locked? && r.Blocked?
    ensures |t.body| == 6 <==> PreviousIntact(k.rules, d)
    ensures CutAt(d, t, Length(t)) == if !PreviousIntact(k.rules, d) then d.(journal := true)
      else d.(journal := true,
              environment := d.previousEnvironment, previousEnvironment := d.environment,
              currentInput := d.previousInput, previousInput := d.currentInput,
              state := Some(Record(SwappedState(ReadState(k.rules, d).state))))
    ensures PreviousIntact(k.rules, d) ==> ReadState(k.rules, CutAt(d, t, Length(t))).Invalid?
  {
    hide ValidState, SourceOf, HasDigest, RollbackPlan, Rendered, CutAt, Length, After;
    var locked := Apply(d, PutLock);
    WholeRun(d, t);
    RollbackPlanIsFull(k, locked);
    RollbackNeverVerifies(k, locked);
    var plan := RollbackPlan(k, locked);
    assert t.body == plan;
    if PreviousIntact(k.rules, d) {
      RollbackSwaps(k, locked);
      SwapIsInvalid(ReadState(k.rules, locked).state);
    } else {
      assert plan == [] + [PutJournal];
      AfterNone(locked);
      AfterSnoc(locked, [], PutJournal);
    }
  }

  /** The versions of a lineage are rendered from their inputs. */
  ghost predicate AllRendered(rules: Rules, lineage: seq<Version>)
  {
    forall i :: 0 <= i < |lineage| ==> Rendered(rules, Some(lineage[i].input)) == Some(lineage[i].environment)
  }

  /** Every version that gets into a history was rendered from an input that is valid. */
  lemma {:induction false} LineageIsRendered(rules: Rules, disks: seq<Disk>, events: seq<Event>)
    requires History(rules, disks, events)
    ensures AllRendered(rules, Lineage(events))
    decreases |events|
  {
    hide Rendered;
    if events != [] {
      var n := |events| - 1;
      LineageIsRendered(rules, disks[..n + 1], events[..n]);
      var e := events[n];
      assert Possible(rules, disks[n], e);
      if e.Attempt? && (e.action.Install? || e.action.Replace?) && Remove(Journal) in Taken(e.trace, e.cut) {
        OfferedIsRendered(rules, disks[n], e);
      }
    }
  }

  lemma OfferedIsRendered(rules: Rules, d: Disk, e: Event)
    requires Possible(rules, d, e) && e.Attempt? && (e.action.Install? || e.action.Replace?)
    requires Remove(Journal) in Taken(e.trace, e.cut)
    ensures Rendered(rules, Some(Offered(e.k).input)) == Some(Offered(e.k).environment)
  {
    hide Installed, After, ReadState, HasDigest;
    var locked := Apply(d, PutLock);
    var m := |Taken(e.trace, e.cut)|;
    assert Taken(e.trace, e.cut) == e.trace.body[..m];
    PlanKeepsJournal(e.k, e.action, locked);
    assert m > |Plan(e.k, e.action, locked)|;
    JournaledPrefix(e.k, e.action, locked, e.trace.body, e.report, m);
  }

  /**
   Over every history from a machine without a record: as soon as a version has been replaced, a rollback
   of what is installed reaches its state write if nothing fails, and so makes the installation unusable.
   */
  lemma RollbackAfterAReplacement(rules: Rules, disks: seq<Disk>, events: seq<Event>)
    requires History(rules, disks, events) && disks[0].state.None?
    requires var d := disks[|events|]; Installed(rules, d) && !d.journal
    ensures PreviousIntact(rules, disks[|events|]) <==> |Lineage(events)| > 1
  {
    hide Rendered, ValidState;
    InstalledIsNewest(rules, disks, events);
    LineageIsRendered(rules, disks, events);
    var d, lineage := disks[|events|], Lineage(events);
    assert Rendered(rules, Some(lineage[|lineage| - 1].input)) == Some(lineage[|lineage| - 1].environment);
    if |lineage| > 1 {
      assert Rendered(rules, Some(lineage[|lineage| - 2].input)) == Some(lineage[|lineage| - 2].environment);
    }
  }

  // ---------------------------------------------------------------- runs in which nothing fails

  /** What a replacement writes, and whether it verifies, on a disk that does. */
  lemma ReplacementVerifies(k: Context, d: Disk)
    requires Installed(k.rules, d)
    ensures Complete(ReplacePlan(k, d)) <==> Rendered(k.rules, k.input).Some?
    ensures !Complete(ReplacePlan(k, d)) ==> ReplacePlan(k, d) == [PutJournal]
    ensures Complete(ReplacePlan(k, d)) ==>
      var next := NextState(k, ReadState(k.rules, d).state, Rendered(k.rules, k.input).value, k.input.value);
      Installed(k.rules, After(d, ReplacePlan(k, d))) <==> ValidState(next) && k.rules.fits(next)
  {
    hide ValidState;
    var p := ReplacePlan(k, d);
    if Rendered(k.rules, k.input).Some? {
      assert p == [p[0], p[1], p[2], p[3], p[4], p[5]];
      AfterSix(d, p[0], p[1], p[2], p[3], p[4], p[5]);
    }
  }

  /**
   A replacement in which nothing fails, on a disk ready for it, leaves its journal behind exactly when
   the new input does not render or the next record would not be accepted: the generation counter is
   full, a digest is not one, or the record does not fit. In just those cases it is blocked.
   */
  lemma ReplacementLeavesItsJournal(k: Context, d: Disk, t: Trace, r: Report)
    requires UnhinderedRun(k, Replace, d, t, r) && Ready(k, Replace, d)
    ensures var rendered, s, c := Rendered(k.rules, k.input), ReadState(k.rules, d).state, CutAt(d, t, Length(t));
      && (c.journal <==> r.Blocked?)
      && (c.journal <==>
            || rendered.None?
            || s.currentGeneration == 0xFFFF_FFFF_FFFF_FFFF
            || !ValidHash(k.rules.sha(rendered.value)) || !ValidHash(k.rules.sha(k.input.value))
            || !k.rules.fits(NextState(k, s, rendered.value, k.input.value)))
      && (rendered.None? ==> c == d.(journal := true))
  {
    hide ValidState, ReplacePlan, HasDigest, ValidHash, After;
    var locked := Apply(d, PutLock);
    ReplacementVerifies(k, locked);
    var plan := ReplacePlan(k, locked);
    JournalStays(k, Replace, locked);
    assert t.body[..|t.body|] == t.body;
    AfterSnoc(locked, plan, Remove(Journal));
    var rendered := Rendered(k.rules, k.input);
    if rendered.Some? {
      assert ReadState(k.rules, locked) == ReadState(k.rules, d);
      NextStateIsValid(k, ReadState(k.rules, d).state, rendered.value, k.input.value);
    } else {
      assert [] + [PutJournal] == [PutJournal];
      AfterNone(locked);
      AfterSnoc(locked, [], PutJournal);
    }
  }

  lemma InstallVerifies(k: Context, d: Disk)
    ensures Complete(InstallPlan(k, d)) <==> Rendered(k.rules, k.input).Some? && k.deployedVersion.Some?
    ensures Complete(InstallPlan(k, d)) ==>
      var first := FirstState(k, Rendered(k.rules, k.input).value, k.input.value);
      Installed(k.rules, After(d, InstallPlan(k, d))) <==> ValidState(first) && k.rules.fits(first)
  {
    hide ValidState;
    var p := InstallPlan(k, d);
    if Rendered(k.rules, k.input).Some? && k.deployedVersion.Some? {
      assert p == [p[0], p[1], p[2], p[3]];
      AfterFour(d, p[0], p[1], p[2], p[3]);
    }
  }

  /** When an install in which nothing fails succeeds; blocked, it leaves a journal unless the input did not render. */
  lemma InstallSucceedsExactly(k: Context, d: Disk, t: Trace, r: Report)
    requires UnhinderedRun(k, Install, d, t, r) && Ready(k, Install, d)
    ensures var rendered := Rendered(k.rules, k.input);
      && (r.Success? <==>
            && rendered.Some? && k.deployedVersion.Some?
            && ValidHash(k.rules.sha(rendered.value)) && ValidHash(k.rules.sha(k.input.value))
            && ValidVersion(k.deployedVersion.value) && LowerHex(k.sourceCommit, 40)
            && k.rules.fits(FirstState(k, rendered.value, k.input.value)))
      && (CutAt(d, t, Length(t)).journal <==> r.Blocked? && rendered.Some?)
  {
    hide Rendered, HasDigest, ValidHash, ValidVersion, LowerHex, After;
    var locked := Apply(d, PutLock);
    InstallVerifies(k, locked);
    var plan := InstallPlan(k, locked);
    JournalStays(k, Install, locked);
    assert t.body[..|t.body|] == t.body;
    AfterSnoc(locked, plan, Remove(Journal));
    AfterNone(locked);
  }

  /** A removal in which nothing fails leaves nothing. */
  lemma RemovalClears(k: Context, d: Disk, t: Trace, r: Report)
    requires UnhinderedRun(k, RemoveAll, d, t, r) && Ready(k, RemoveAll, d)
    ensures r.Success?
    ensures CutAt(d, t, Length(t)) == Disk(None, None, None, None, None, false, false)
  {
    hide ValidState;
    var locked := Apply(d, PutLock);
    assert t.body == REMOVALS && t.body[..6] == t.body;
    AfterSix(locked, REMOVALS[0], REMOVALS[1], REMOVALS[2], REMOVALS[3], REMOVALS[4], REMOVALS[5]);
  }
}
