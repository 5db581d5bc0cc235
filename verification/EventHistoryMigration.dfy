/**
 Migration of the version-one event history: a paged copy into a candidate directory, a verified rename
 and a receipt. The stores are specified by what they do: `Query` gives the events after a sequence
 number up to a limit with an exact `hasMore`, `record` appends under the next number.
 */
module EventHistoryMigration {
  import opened Basics

  type Payload = seq<nat>
  datatype Event = Event(sequence: nat, payload: Payload)

  const CONFIRMATION := "confirm_administrative_event_history_v1_migration"
  const PAGE := 100

  /** The version-one reader accepts a file only when its events are numbered 1, 2, 3, ... */
  predicate Numbered(events: seq<Event>)
  {
    forall i :: 0 <= i < |events| ==> events[i].sequence == i + 1
  }

  // ---------------------------------------------------------------- paging

  datatype Page = Page(events: seq<Event>, hasMore: bool)

  function Matches(events: seq<Event>, afterSequence: nat): seq<Event>
  {
    if events == [] then []
    else (if events[0].sequence > afterSequence then [events[0]] else []) + Matches(events[1..], afterSequence)
  }

  function Query(events: seq<Event>, afterSequence: nat, limit: nat): Page
  {
    var matches := Matches(events, afterSequence);
    Page(if |matches| <= limit then matches else matches[..limit], |matches| > limit)
  }

  lemma {:induction false} MatchesOfSuffix(events: seq<Event>, from: nat, afterSequence: nat)
    requires Numbered(events) && from <= |events| && from <= afterSequence <= |events|
    ensures Matches(events[from..], afterSequence) == events[afterSequence..]
    decreases |events| - from
  {
    if from < |events| {
      assert events[from..][1..] == events[from + 1..];
      if from < afterSequence {
        MatchesOfSuffix(events, from + 1, afterSequence);
      } else {
        MatchesOfTail(events, from + 1, afterSequence);
        assert events[from..] == [events[from]] + events[from + 1..];
      }
    }
  }

  lemma {:induction false} MatchesOfTail(events: seq<Event>, from: nat, afterSequence: nat)
    requires Numbered(events) && afterSequence <= from <= |events|
    ensures Matches(events[from..], afterSequence) == events[from..]
    decreases |events| - from
  {
    if from < |events| {
      assert events[from..][1..] == events[from + 1..];
      MatchesOfTail(events, from + 1, afterSequence);
      assert events[from..] == [events[from]] + events[from + 1..];
    }
  }

  lemma QueryIsAPage(events: seq<Event>, afterSequence: nat)
    requires Numbered(events) && afterSequence <= |events|
    ensures var end := if afterSequence + PAGE <= |events| then afterSequence + PAGE else |events|;
      Query(events, afterSequence, PAGE) == Page(events[afterSequence..end], end < |events|)
  {
    MatchesOfSuffix(events, 0, afterSequence);
    assert events[0..] == events;
    var rest := events[afterSequence..];
    if |rest| > PAGE {
      assert rest[..PAGE] == events[afterSequence..afterSequence + PAGE];
    }
  }

  /** The paging loop collects the source, in order, whatever its length. */
  method CollectPages(source: seq<Event>) returns (events: seq<Event>)
    requires Numbered(source)
    ensures events == source
  {
    events := [];
    var afterSequence := 0;
    while true
      invariant afterSequence <= |source| && events == source[..afterSequence]
      decreases |source| - afterSequence
    {
      var page := Query(source, afterSequence, PAGE);
      QueryIsAPage(source, afterSequence);
      assert source[..afterSequence + |page.events|] == source[..afterSequence] + page.events;
      events := events + page.events;
      if !page.hasMore || |page.events| == 0 {
        return;
      }
      afterSequence := page.events[|page.events| - 1].sequence;
    }
  }

  // ---------------------------------------------------------------- the disk

  /** A receipt as read back: fields may be missing, and the text may not be JSON at all. */
  datatype Receipt = Receipt(sourceDigest: Option<string>, eventCount: Option<nat>) | NotJson

  datatype Store = Store(events: seq<Event>, receipt: Option<Receipt>)

  datatype Lock = Free | Busy | Stale | Broken

  datatype Disk = Disk(source: Option<seq<Event>>, root: Option<Store>, candidate: Option<Store>, lock: Lock)

  /** Where a run fails: before it has the lock, at its first read, in the `try`, in the cleanup, at the release. */
  datatype Stage = Refusing | Reading | Working | Cleaning | Releasing

  datatype Outcome =
    | Migrated(count: nat, digest: string)
    | Unchanged(count: nat, digest: string)
    | Failed(code: string, stage: Stage)

  /** The failures after which nobody gives the lock back. */
  predicate KeepsLock(r: Outcome)
  {
    r.Failed? && (r.stage == Reading || r.stage == Cleaning || r.stage == Releasing)
  }

  /** The store a complete copy becomes. */
  function Finished(sha: seq<Event> -> string, source: seq<Event>): Store
  {
    Store(source, Some(Receipt(Some(sha(source)), Some(|source|))))
  }

  /** What a migrated root must hold: every source event under its own number, and the receipt. */
  ghost predicate Complete(sha: seq<Event> -> string, source: seq<Event>, store: Store)
  {
    store == Finished(sha, source)
  }

  ghost predicate MatchingReceipt(sha: seq<Event> -> string, d: Disk, count: nat)
  {
    && d.source.Some? && d.root.Some? && d.root.value.receipt.Some? && d.root.value.receipt.value.Receipt?
    && d.root.value.receipt.value.sourceDigest == Some(sha(d.source.value))
    && count == match d.root.value.receipt.value.eventCount { case None => 0 case Some(n) => n }
  }

  /** The root of a disk on the way: the one the run found, or the finished one. */
  ghost predicate RootIsWhole(sha: seq<Event> -> string, d: Disk, now: Disk)
  {
    || now.root == d.root
    || (d.root.None? && d.source.Some? && now.root.Some? && Complete(sha, d.source.value, now.root.value))
  }

  /** What a run from `d` to `d'` may do, whatever fails in it. */
  ghost predicate Ran(sha: seq<Event> -> string, d: Disk, d': Disk, r: Outcome)
  {
    && d'.source == d.source
    && RootIsWhole(sha, d, d')
    && (if d.lock == Free then d'.lock == (if KeepsLock(r) then Busy else Free) else r.Failed? && d' == d)
    && match r
       case Migrated(count, digest) =>
         && d.source.Some? && d.root.None? && d.candidate.None? && d'.root.Some? && d'.candidate.None?
         && Complete(sha, d.source.value, d'.root.value)
         && count == |d.source.value| && digest == sha(d.source.value)
       case Unchanged(count, digest) =>
         && MatchingReceipt(sha, d, count) && digest == sha(d.source.value)
         && d'.root == d.root && d'.candidate == d.candidate
       case Failed(_, stage) =>
         && (stage == Refusing || stage == Reading ==> d'.root == d.root && d'.candidate == d.candidate)
         && (stage == Working || stage == Releasing ==> d'.root.None? ==> d'.candidate.None?)
  }

  // ---------------------------------------------------------------- a run, operation by operation

  /** The operations from `from` up to but not including `to` succeed. */
  ghost predicate AllOk(fate: nat -> bool, from: nat, to: nat)
  {
    forall i :: from <= i < to ==> fate(i)
  }

  /** The checks before the lock is taken; an empty code lets the run go on. */
  function Refusal(confirmation: string, d: Disk): (r: Outcome)
    ensures r.Failed? && r.stage == Refusing
    ensures r.code == "" <==> confirmation == CONFIRMATION && d.source.Some? && d.lock == Free
  {
    Failed(
      if confirmation != CONFIRMATION then "confirmation_invalid"
      else if d.source.None? then "event_history_migration_required"
      else match d.lock
        case Busy => "event_history_writer_busy"
        case Stale => "event_history_writer_stale"
        case Broken => "event_history_writer_invalid"
        case Free => "",
      Refusing)
  }

  /** What the `try` came to: the next operation, the disk it leaves, and its outcome. */
  datatype Trial = Trial(tick: nat, held: Disk, attempted: Outcome)

  /** Operation `f` is the first to fail from `c` on. */
  ghost predicate FailsFirst(fate: nat -> bool, c: nat, f: nat)
  {
    c <= f && AllOk(fate, c, f) && !fate(f)
  }

  /**
   The candidate that a copy from operation `c` on leaves when `f` is the first operation to fail: none
   before the first write, then the events written so far, and at the end the receipt with them.
   */
  function Leftover(sha: seq<Event> -> string, fate: nat -> bool, c: nat, source: seq<Event>, f: nat): Option<Store>
    requires c <= f
  {
    var n := |source|;
    if f < c + 2 then None
    else if f < c + n + 2 then if f == c + 2 && !fate(f + 1) then None else Some(Store(source[..f - c - 2], None))
    else if f < c + n + 4 then if n == 0 then None else Some(Store(source, None))
    else if f == c + n + 4 then Some(Store(source, None))
    else Some(Finished(sha, source))
  }

  /** The operation after it: a write that fails is followed by one more, which may make the directory. */
  function Following(c: nat, n: nat, f: nat): nat
  {
    if c + 2 <= f < c + n + 2 then f + 2 else f + 1
  }

  /**
   The `try` from operation `c` on. With neither root nor candidate it takes two reads, one write for each
   event, a verification, the receipt's directory, the receipt, a second look at the source, the rename
   and a last verification; the first of them to fail decides what is left.
   */
  ghost predicate Tried(sha: seq<Event> -> string, fate: nat -> bool, c: nat, d: Disk, t: Trial)
    requires d.source.Some?
  {
    var source, n, r := d.source.value, |d.source.value|, t.attempted;
    && (r.Failed? ==> r.stage == Working)
    && if d.root.Some? then
         && t.held == d && !r.Migrated?
         && (r.Unchanged? <==> fate(c) && exists count :: MatchingReceipt(sha, d, count))
         && (r.Unchanged? ==> MatchingReceipt(sha, d, r.count) && r.digest == sha(source))
         && t.tick == if d.root.value.receipt.Some? then c + 1 else c
       else if d.candidate.Some? then t.held == d && r.Failed? && t.tick == c
       else if !Numbered(source) then t.held == d && r.Failed? && t.tick == c + 1
       else
         && (AllOk(fate, c, c + n + 7) ==>
               && t.held == d.(root := Some(Finished(sha, source))) && t.tick == c + n + 8
               && if fate(c + n + 7) then r == Migrated(n, sha(source)) else r.Failed?)
         && (forall f: nat :: f < c + n + 7 && FailsFirst(fate, c, f) ==>
               && r.Failed? && t.tick == Following(c, n, f)
               && t.held == d.(candidate := Leftover(sha, fate, c, source, f)))
  }

  predicate MustClean(d: Disk)
  {
    d.candidate.Some? && d.root.None?
  }

  function Cleaned(d: Disk): Disk
  {
    if MustClean(d) then d.(candidate := None) else d
  }

  /** The operation that releases the lock. */
  function ReleaseTick(t: Trial): nat
  {
    if MustClean(t.held) then t.tick + 1 else t.tick
  }

  predicate CleanupFails(fate: nat -> bool, t: Trial)
  {
    MustClean(t.held) && !fate(t.tick)
  }

  /** The `finally`: what fails in it replaces the outcome, and a failure before the release keeps the lock. */
  ghost predicate Concluded(fate: nat -> bool, t: Trial, d': Disk, r: Outcome)
  {
    if CleanupFails(fate, t) then d' == t.held && r == Failed("cleanup_failed", Cleaning)
    else if !fate(ReleaseTick(t)) then d' == Cleaned(t.held) && r == Failed("event_history_writer_invalid", Releasing)
    else d' == Cleaned(t.held).(lock := Free) && r == t.attempted
  }

  /** The run takes the lock at operation `c` and reads the source at the next one. */
  ghost predicate Entered(fate: nat -> bool, c: nat, confirmation: string, d: Disk)
  {
    Refusal(confirmation, d).code == "" && fate(c) && fate(c + 1)
  }

  /** One run from `d` to `d'`, its first operation being number `c`. */
  ghost predicate Happened(sha: seq<Event> -> string, fate: nat -> bool, c: nat, confirmation: string,
                           d: Disk, t: Trial, d': Disk, r: Outcome)
  {
    if Refusal(confirmation, d).code != "" then d' == d && r == Refusal(confirmation, d)
    else if !fate(c) then d' == d && r == Failed("event_history_writer_invalid", Refusing)
    else if !fate(c + 1) then d' == d.(lock := Busy) && r == Failed("source_unreadable", Reading)
    else Tried(sha, fate, c + 2, d.(lock := Busy), t) && Concluded(fate, t, d', r)
  }

  lemma {:induction false} FirstFailure(fate: nat -> bool, c: nat, end: nat) returns (f: nat)
    requires !AllOk(fate, c, end)
    ensures f < end && FailsFirst(fate, c, f)
    decreases end
  {
    if AllOk(fate, c, end - 1) {
      f := end - 1;
    } else {
      f := FirstFailure(fate, c, end - 1);
    }
  }

  /** What every `try` does to the disk, and what its outcomes mean. */
  lemma TriedShape(sha: seq<Event> -> string, fate: nat -> bool, c: nat, d: Disk, t: Trial)
    requires d.source.Some? && Tried(sha, fate, c, d, t)
    ensures t.held == d.(root := t.held.root, candidate := t.held.candidate) && RootIsWhole(sha, d, t.held)
    ensures t.held.root != d.root ==> t.held.candidate.None?
    ensures d.root.None? ==>
      (t.held.root.Some? <==>
         d.candidate.None? && Numbered(d.source.value) && AllOk(fate, c, c + |d.source.value| + 7))
    ensures match t.attempted
      case Migrated(count, digest) =>
        && d.root.None? && d.candidate.None? && t.held.root == Some(Finished(sha, d.source.value))
        && count == |d.source.value| && digest == sha(d.source.value)
      case Unchanged(count, digest) => t.held == d && MatchingReceipt(sha, d, count) && digest == sha(d.source.value)
      case Failed(_, stage) => stage == Working
  {
    hide Numbered, Leftover, Following;
    var n := |d.source.value|;
    if d.root.None? && d.candidate.None? && Numbered(d.source.value) && !AllOk(fate, c, c + n + 7) {
      var f := FirstFailure(fate, c, c + n + 7);
      assert t.held == d.(candidate := Leftover(sha, fate, c, d.source.value, f));
    }
  }

  lemma HappenedRan(sha: seq<Event> -> string, fate: nat -> bool, c: nat, confirmation: string,
                    d: Disk, t: Trial, d': Disk, r: Outcome)
    requires Happened(sha, fate, c, confirmation, d, t, d', r)
    ensures Ran(sha, d, d', r)
  {
    hide AllOk, Numbered, Tried;
    if Entered(fate, c, confirmation, d) {
      TriedShape(sha, fate, c + 2, d.(lock := Busy), t);
      if r.Unchanged? {
        assert MatchingReceipt(sha, d.(lock := Busy), r.count);
      }
    }
  }

  /** Up to the wording of an error, what fails and what is on disk decide the whole run. */
  lemma RunIsDetermined(sha: seq<Event> -> string, fate: nat -> bool, c: nat, confirmation: string, d: Disk,
                        t: Trial, d': Disk, r: Outcome, u: Trial, e': Disk, s: Outcome)
    requires Happened(sha, fate, c, confirmation, d, t, d', r) && Happened(sha, fate, c, confirmation, d, u, e', s)
    ensures d' == e'
    ensures r == s || (r.Failed? && s.Failed? && r.stage == s.stage)
  {
    hide Numbered, Leftover, Following, Tried;
    if Entered(fate, c, confirmation, d) {
      TrialIsDetermined(sha, fate, c + 2, d.(lock := Busy), t, u);
      TriedShape(sha, fate, c + 2, d.(lock := Busy), t);
      TriedShape(sha, fate, c + 2, d.(lock := Busy), u);
    }
  }

  lemma TrialIsDetermined(sha: seq<Event> -> string, fate: nat -> bool, c: nat, d: Disk, t: Trial, u: Trial)
    requires d.source.Some? && Tried(sha, fate, c, d, t) && Tried(sha, fate, c, d, u)
    ensures t.tick == u.tick && t.held == u.held
    ensures t.attempted == u.attempted || (t.attempted.Failed? && u.attempted.Failed?)
  {
    hide Numbered, Leftover, Following;
    var n := |d.source.value|;
    if d.root.None? && d.candidate.None? && Numbered(d.source.value) && !AllOk(fate, c, c + n + 7) {
      var f := FirstFailure(fate, c, c + n + 7);
      assert t.tick == Following(c, n, f) == u.tick;
    }
  }

  class Migration {
    const sha: seq<Event> -> string
    const fate: nat -> bool
    var clock: nat
    var disk: Disk
    ghost var past: seq<Disk>

    constructor (sha: seq<Event> -> string, fate: nat -> bool, disk: Disk)
      ensures this.sha == sha && this.fate == fate && this.disk == disk && clock == 0 && past == []
    {
      this.sha, this.fate, this.disk := sha, fate, disk;
      clock, past := 0, [];
    }

    method Succeeds() returns (ok: bool)
      modifies `clock
      ensures ok == fate(old(clock)) && clock == old(clock) + 1
    {
      ok := fate(clock);
      clock := clock + 1;
    }

    method Become(next: Disk)
      modifies `disk, `past
      ensures disk == next && past == old(past) + [next]
    {
      disk := next;
      past := past + [next];
    }

    /** Copy into the candidate, event by event, one write for each. */
    method Record(events: seq<Event>) returns (ok: bool)
      requires Numbered(events) && disk.candidate.None?
      modifies `clock, `disk, `past
      ensures old(past) <= past
      ensures disk == old(disk).(candidate := disk.candidate)
      ensures forall i :: |old(past)| <= i < |past| ==> past[i].root == old(disk).root
      ensures ok <==> AllOk(fate, old(clock), old(clock) + |events|)
      ensures ok ==> clock == old(clock) + |events|
      ensures ok ==> disk.candidate == if events == [] then None else Some(Store(events, None))
      ensures !ok ==> clock >= old(clock) + 2 && clock - 2 < old(clock) + |events|
      ensures !ok ==> FailsFirst(fate, old(clock), clock - 2)
      ensures !ok ==>
        disk.candidate ==
        if clock == old(clock) + 2 && !fate(clock - 1) then None
        else Some(Store(events[..clock - 2 - old(clock)], None))
    {
      for i := 0 to |events|
        invariant old(past) <= past
        invariant disk == old(disk).(candidate := if i == 0 then None else Some(Store(events[..i], None)))
        invariant forall j :: |old(past)| <= j < |past| ==> past[j].root == old(disk).root
        invariant clock == old(clock) + i && AllOk(fate, old(clock), clock)
      {
        var held := if disk.candidate.None? then [] else disk.candidate.value.events;
        var written := Succeeds();
        if !written {
          var root := Succeeds();
          if root {
            Become(disk.(candidate := Some(Store(held, None))));
          }
          return false;
        }
        assert events[..i + 1] == held + [Event(|held| + 1, events[i].payload)];
        Become(disk.(candidate := Some(Store(held + [Event(|held| + 1, events[i].payload)], None))));
      }
      assert events[..|events|] == events;
      ok := true;
    }

    /** The candidate completed and put in the root's place: directory, receipt, source, rename, verification. */
    method Install(events: seq<Event>) returns (ok: bool)
      requires disk.root.None? && disk.source == Some(events)
      modifies `clock, `disk, `past
      ensures old(past) <= past
      ensures forall i :: |old(past)| <= i < |past| ==> RootIsWhole(sha, old(disk), past[i])
      ensures AllOk(fate, old(clock), old(clock) + 4) ==>
        && disk == old(disk).(root := Some(Finished(sha, events)), candidate := None)
        && clock == old(clock) + 5 && ok == fate(old(clock) + 4)
      ensures !AllOk(fate, old(clock), old(clock) + 4) ==>
        && !ok && old(clock) < clock <= old(clock) + 4 && FailsFirst(fate, old(clock), clock - 1)
        && disk == old(disk).(candidate :=
             if clock == old(clock) + 1 then old(disk).candidate
             else if clock == old(clock) + 2 then Some(Store(events, None))
             else Some(Finished(sha, events)))
    {
      var made := Succeeds();
      if !made {
        return false;
      }
      Become(disk.(candidate := Some(Store(events, None))));
      var written := Succeeds();
      if !written {
        return false;
      }
      Become(disk.(candidate := Some(Finished(sha, events))));
      var sourceKept := Succeeds();
      if !sourceKept {
        return false;
      }
      var renamed := Succeeds();
      if !renamed {
        return false;
      }
      Become(disk.(root := disk.candidate, candidate := None));
      ok := Succeeds();
    }

    /** Everything before the receipt: two reads of the source, the copy and its verification. */
    method Fill(source: seq<Event>) returns (fault: string, ghost f: nat)
      requires disk.source == Some(source) && disk.candidate.None?
      modifies `clock, `disk, `past
      ensures old(past) <= past && forall i :: |old(past)| <= i < |past| ==> past[i].root == old(disk).root
      ensures fault == "" <==> Numbered(source) && AllOk(fate, old(clock), old(clock) + |source| + 3)
      ensures fault == "" ==> clock == old(clock) + |source| + 3
      ensures fault == "" ==>
        disk == old(disk).(candidate := if source == [] then None else Some(Store(source, None)))
      ensures !Numbered(source) ==> disk == old(disk) && clock == old(clock) + 1
      ensures fault != "" && Numbered(source) ==>
        && f < old(clock) + |source| + 3 && FailsFirst(fate, old(clock), f)
        && clock == Following(old(clock), |source|, f)
        && disk == old(disk).(candidate := Leftover(sha, fate, old(clock), source, f))
    {
      ghost var c, n := clock, |source|;
      f := clock;
      var readable := Succeeds();
      if !readable || !Numbered(source) {
        return "event_history_corrupted", f;
      }
      var events := CollectPages(source);
      f := clock;
      var sourceKept := Succeeds();
      if !sourceKept {
        return "event_history_migration_failed", f;
      }
      var recorded := Record(events);
      assert AllOk(fate, c, c + n + 3) ==> AllOk(fate, c + 2, c + 2 + n);
      if !recorded {
        return "event_history_record_failed", clock - 2;
      }
      f := clock;
      var verified := Succeeds();
      fault := if verified then "" else "event_history_migration_failed";
    }

    /** The body of the `try` when there is neither a root nor a candidate. */
    method Copy(source: seq<Event>) returns (r: Outcome)
      requires disk.source == Some(source) && disk.root.None? && disk.candidate.None?
      modifies `clock, `disk, `past
      ensures old(past) <= past
      ensures forall i :: |old(past)| <= i < |past| ==> RootIsWhole(sha, old(disk), past[i])
      ensures Tried(sha, fate, old(clock), old(disk), Trial(clock, disk, r))
    {
      hide Tried, AllOk, Numbered, Leftover, Following;
      ghost var c, d, n := clock, disk, |source|;
      var fault;
      ghost var f;
      fault, f := Fill(source);
      if fault != "" {
        r := Failed(fault, Working);
        CopyFails(sha, fate, c, d, Trial(clock, disk, r), f);
        return;
      }
      ghost var filled := disk;
      var installed := Install(source);
      r := if installed then Migrated(|source|, sha(source)) else Failed("event_history_migration_failed", Working);
      if AllOk(fate, c + n + 3, c + n + 7) {
        CopyCompletes(sha, fate, c, d, Trial(clock, disk, r));
      } else {
        FailsLater(fate, c, c + n + 3, clock - 1);
        LateLeftover(sha, fate, c, source, clock - 1);
        CopyFails(sha, fate, c, d, Trial(clock, disk, r), clock - 1);
      }
    }

    /** The body of the `try`. */
    method Attempt(source: seq<Event>) returns (r: Outcome)
      requires disk.source == Some(source)
      modifies `clock, `disk, `past
      ensures old(past) <= past
      ensures forall i :: |old(past)| <= i < |past| ==> RootIsWhole(sha, old(disk), past[i])
      ensures Tried(sha, fate, old(clock), old(disk), Trial(clock, disk, r))
    {
      hide AllOk, Numbered;
      if disk.root.Some? && disk.root.value.receipt.Some? {
        var receipt := disk.root.value.receipt.value;
        var readable := Succeeds();
        if !readable || receipt.NotJson? {
          return Failed("receipt_unreadable", Working);
        }
        if receipt.sourceDigest == Some(sha(source)) {
          var count := if receipt.eventCount.None? then 0 else receipt.eventCount.value;
          assert MatchingReceipt(sha, disk, count);
          return Unchanged(count, sha(source));
        }
        return Failed("event_history_migration_failed", Working);
      }
      if disk.root.Some? || disk.candidate.Some? {
        return Failed("event_history_migration_failed", Working);
      }
      r := Copy(source);
    }

    /** The `finally`: a candidate without a root goes, then the lock; an error here replaces the outcome. */
    method Conclude(attempted: Outcome) returns (r: Outcome)
      modifies `clock, `disk, `past
      ensures old(past) <= past && forall i :: |old(past)| <= i < |past| ==> past[i].root == old(disk).root
      ensures Concluded(fate, Trial(old(clock), old(disk), attempted), disk, r)
    {
      if disk.candidate.Some? && disk.root.None? {
        var removed := Succeeds();
        if !removed {
          return Failed("cleanup_failed", Cleaning);
        }
        Become(disk.(candidate := None));
      }
      var released := Succeeds();
      if !released {
        return Failed("event_history_writer_invalid", Releasing);
      }
      Become(disk.(lock := Free));
      return attempted;
    }

    /** A run; `t` is what its `try` came to, if it got that far. */
    method Migrate(confirmation: string) returns (r: Outcome, ghost t: Trial)
      modifies `clock, `disk, `past
      ensures Happened(sha, fate, old(clock), confirmation, old(disk), t, disk, r)
      ensures Ran(sha, old(disk), disk, r)
      ensures old(past) <= past
      ensures forall i :: |old(past)| <= i < |past| ==> RootIsWhole(sha, old(disk), past[i])
    {
      hide Tried, Concluded, Ran;
      ghost var c, d := clock, disk;
      r := Refusal(confirmation, disk);
      t := Trial(clock, disk, r);
      if r.code != "" {
        HappenedRan(sha, fate, c, confirmation, d, t, disk, r);
        return;
      }
      var acquired := Succeeds();
      if !acquired {
        r := Failed("event_history_writer_invalid", Refusing);
        HappenedRan(sha, fate, c, confirmation, d, t, disk, r);
        return;
      }
      Become(disk.(lock := Busy));
      var read := Succeeds();
      if !read {
        // The lock is taken and the try block not yet entered: nothing gives it back.
        r := Failed("source_unreadable", Reading);
        HappenedRan(sha, fate, c, confirmation, d, t, disk, r);
        return;
      }
      r := Attempt(disk.source.value);
      t := Trial(clock, disk, r);
      TriedShape(sha, fate, c + 2, d.(lock := Busy), t);
      r := Conclude(r);
      HappenedRan(sha, fate, c, confirmation, d, t, disk, r);
    }
  }

  lemma FirstIsUnique(fate: nat -> bool, c: nat, f: nat, g: nat)
    requires FailsFirst(fate, c, f) && FailsFirst(fate, c, g)
    ensures f == g
  {
  }

  lemma FailsLater(fate: nat -> bool, c: nat, from: nat, f: nat)
    requires c <= from && AllOk(fate, c, from) && FailsFirst(fate, from, f)
    ensures FailsFirst(fate, c, f)
  {
  }

  lemma LateLeftover(sha: seq<Event> -> string, fate: nat -> bool, c: nat, source: seq<Event>, f: nat)
    requires c + |source| + 3 <= f
    ensures Following(c, |source|, f) == f + 1
    ensures Leftover(sha, fate, c, source, f) ==
      if f == c + |source| + 3 then if source == [] then None else Some(Store(source, None))
      else if f == c + |source| + 4 then Some(Store(source, None))
      else Some(Finished(sha, source))
  {
  }

  /** A copy in which `f` is the first operation to fail, or whose source is not well numbered. */
  lemma CopyFails(sha: seq<Event> -> string, fate: nat -> bool, c: nat, d: Disk, t: Trial, f: nat)
    requires d.source.Some? && d.root.None? && d.candidate.None? && t.attempted.Failed? && t.attempted.stage == Working
    requires !Numbered(d.source.value) ==> t.held == d && t.tick == c + 1
    requires Numbered(d.source.value) ==>
      && f < c + |d.source.value| + 7 && FailsFirst(fate, c, f) && t.tick == Following(c, |d.source.value|, f)
      && t.held == d.(candidate := Leftover(sha, fate, c, d.source.value, f))
    ensures Tried(sha, fate, c, d, t)
  {
    hide Numbered, Leftover, Following;
    if Numbered(d.source.value) {
      forall g: nat | FailsFirst(fate, c, g) ensures g == f {
        FirstIsUnique(fate, c, f, g);
      }
    }
  }

  /** A copy that gets past the rename. */
  lemma CopyCompletes(sha: seq<Event> -> string, fate: nat -> bool, c: nat, d: Disk, t: Trial)
    requires d.source.Some? && d.root.None? && d.candidate.None? && Numbered(d.source.value)
    requires var source, n := d.source.value, |d.source.value|;
      && AllOk(fate, c, c + n + 3) && AllOk(fate, c + n + 3, c + n + 7)
      && t.held == d.(root := Some(Finished(sha, source))) && t.tick == c + n + 8
      && t.attempted == if fate(c + n + 7) then Migrated(n, sha(source))
                        else Failed("event_history_migration_failed", Working)
    ensures Tried(sha, fate, c, d, t)
  {
    hide Numbered, Leftover, Following;
    var n := |d.source.value|;
    assert AllOk(fate, c, c + n + 7);
    assert forall f: nat :: f < c + n + 7 ==> !FailsFirst(fate, c, f);
  }

  // ---------------------------------------------------------------- which failure does what

  /** What the `finally`, from operation `x` on, makes of a `try` that failed and left this candidate. */
  ghost predicate Recovered(fate: nat -> bool, d: Disk, left: Option<Store>, x: nat, d': Disk, r: Outcome)
  {
    if left.Some? && !fate(x) then d' == d.(candidate := left, lock := Busy) && r.Failed? && r.stage == Cleaning
    else if !fate(if left.Some? then x + 1 else x) then d' == d.(lock := Busy) && r.Failed? && r.stage == Releasing
    else d' == d && r.Failed? && r.stage == Working
  }

  /**
   A first migration, decided by the first operation that fails. It takes as many operations as there are
   events and eleven more. Only if all succeed is it reported. A failure in the `try` before the rename
   leaves the disk as it was, unless the cleanup or the release fails as well; the root is there, and
   complete, as soon as the rename is done, whatever fails after it.
   */
  lemma FirstFailureDecides(sha: seq<Event> -> string, fate: nat -> bool, c: nat,
                            d: Disk, t: Trial, d': Disk, r: Outcome)
    requires Happened(sha, fate, c, CONFIRMATION, d, t, d', r)
    requires d.lock == Free && d.root.None? && d.candidate.None? && d.source.Some? && Numbered(d.source.value)
    ensures var n := |d.source.value|;
      && (r.Migrated? <==> AllOk(fate, c, c + n + 11))
      && (d'.root.Some? <==> AllOk(fate, c, c + n + 9))
      && (d'.root.Some? ==> Complete(sha, d.source.value, d'.root.value) && d'.candidate.None?)
      && (!fate(c) ==> d' == d && r.Failed? && r.stage == Refusing)
      && (fate(c) && !fate(c + 1) ==> d' == d.(lock := Busy) && r.Failed? && r.stage == Reading)
      && (forall f: nat :: c + 2 <= f < c + n + 9 && FailsFirst(fate, c, f) ==>
            Recovered(fate, d, Leftover(sha, fate, c + 2, d.source.value, f), Following(c + 2, n, f), d', r))
      && (d'.root.Some? && !fate(c + n + 10) ==> d'.lock == Busy && r.Failed? && r.stage == Releasing)
      && (d'.root.Some? && !fate(c + n + 9) && fate(c + n + 10) ==> d'.lock == Free && r.Failed? && r.stage == Working)
  {
    hide Numbered, Leftover, Following;
    var n := |d.source.value|;
    if fate(c) && fate(c + 1) {
      var locked := d.(lock := Busy);
      TriedShape(sha, fate, c + 2, locked, t);
      assert AllOk(fate, c, c + n + 9) <==> AllOk(fate, c + 2, c + n + 9);
      assert AllOk(fate, c, c + n + 11) <==> AllOk(fate, c, c + n + 9) && fate(c + n + 9) && fate(c + n + 10);
      forall f: nat | c + 2 <= f < c + n + 9 && FailsFirst(fate, c, f)
        ensures Recovered(fate, d, Leftover(sha, fate, c + 2, d.source.value, f), Following(c + 2, n, f), d', r)
      {
        assert FailsFirst(fate, c + 2, f);
        assert t.held == locked.(candidate := Leftover(sha, fate, c + 2, d.source.value, f));
      }
    }
  }

  /** If a single operation fails, inside the `try` and before the rename, the run leaves no trace of itself. */
  lemma OneFailureLeavesNoTrace(sha: seq<Event> -> string, fate: nat -> bool, c: nat, f: nat,
                                d: Disk, t: Trial, d': Disk, r: Outcome)
    requires Happened(sha, fate, c, CONFIRMATION, d, t, d', r)
    requires d.lock == Free && d.root.None? && d.candidate.None? && d.source.Some? && Numbered(d.source.value)
    requires c + 2 <= f < c + |d.source.value| + 9 && forall i :: c <= i ==> (fate(i) <==> i != f)
    ensures d' == d && r.Failed? && r.stage == Working
  {
    hide Happened, Numbered, Leftover;
    FirstFailureDecides(sha, fate, c, d, t, d', r);
    assert FailsFirst(fate, c, f);
  }

  /**
   Whatever the disk holds: a lock that was free stays taken if and only if the run took it and then could
   not read the source, could not remove the candidate it had to, or could not release the lock.
   */
  lemma LockIsKeptExactly(sha: seq<Event> -> string, fate: nat -> bool, c: nat, confirmation: string,
                          d: Disk, t: Trial, d': Disk, r: Outcome)
    requires Happened(sha, fate, c, confirmation, d, t, d', r) && d.lock == Free
    ensures d'.lock != Free <==>
      && confirmation == CONFIRMATION && d.source.Some? && fate(c)
      && (!fate(c + 1) || CleanupFails(fate, t) || !fate(ReleaseTick(t)))
    ensures d'.lock != Free ==> d'.lock == Busy && r.Failed?
  {
    hide AllOk, Numbered, Tried;
    if Entered(fate, c, confirmation, d) {
      TriedShape(sha, fate, c + 2, d.(lock := Busy), t);
    }
  }

  /** A run in which nothing fails: it gives the lock back, and its outcome depends on the disk alone. */
  lemma UnhinderedMigration(sha: seq<Event> -> string, fate: nat -> bool, c: nat,
                            d: Disk, t: Trial, d': Disk, r: Outcome)
    requires Happened(sha, fate, c, CONFIRMATION, d, t, d', r) && forall n :: fate(n)
    requires d.lock == Free && d.source.Some?
    ensures d'.lock == Free
    ensures d.root.None? ==> d'.candidate.None? && (r.Migrated? <==> d.candidate.None? && Numbered(d.source.value))
    ensures d.root.Some? ==> d' == d && (r.Unchanged? <==> exists count :: MatchingReceipt(sha, d, count))
  {
    hide Numbered, Leftover, Following;
    var locked := d.(lock := Busy);
    TriedShape(sha, fate, c + 2, locked, t);
    assert forall count :: MatchingReceipt(sha, locked, count) <==> MatchingReceipt(sha, d, count);
  }

  // ---------------------------------------------------------------- later runs

  /**
   A run that finds a complete root and a free lock changes nothing but possibly the lock, and it reports
   `unchanged`, with the count and digest of the source, if and only if its four operations succeed.
   */
  lemma CompleteRootIsUnchanged(sha: seq<Event> -> string, fate: nat -> bool, c: nat,
                                d: Disk, t: Trial, d': Disk, r: Outcome)
    requires Happened(sha, fate, c, CONFIRMATION, d, t, d', r)
    requires d.lock == Free && d.source.Some? && d.root.Some? && Complete(sha, d.source.value, d.root.value)
    ensures d' == d.(lock := d'.lock) && !r.Migrated?
    ensures r.Unchanged? <==> AllOk(fate, c, c + 4)
    ensures r.Unchanged? ==> r == Unchanged(|d.source.value|, sha(d.source.value)) && d' == d
  {
    hide Numbered;
    assert AllOk(fate, c, c + 4) <==> fate(c) && fate(c + 1) && fate(c + 2) && fate(c + 3);
    assert MatchingReceipt(sha, d.(lock := Busy), |d.source.value|);
  }

  /**
   After a migration, a rerun on the unchanged source repeats its count and digest exactly when nothing in it
   fails.
   */
  lemma RerunIsUnchanged(sha: seq<Event> -> string, fate: nat -> bool, c: nat, confirmation: string,
                         d: Disk, t: Trial, d1: Disk, first: Outcome,
                         later: nat -> bool, c1: nat, t1: Trial, d2: Disk, second: Outcome)
    requires Happened(sha, fate, c, confirmation, d, t, d1, first) && first.Migrated?
    requires Happened(sha, later, c1, CONFIRMATION, d1, t1, d2, second)
    ensures second == Unchanged(first.count, first.digest) <==> AllOk(later, c1, c1 + 4)
    ensures second.Failed? || second == Unchanged(first.count, first.digest)
    ensures d2 == d1.(lock := d2.lock)
  {
    hide Happened, AllOk;
    HappenedRan(sha, fate, c, confirmation, d, t, d1, first);
    CompleteRootIsUnchanged(sha, later, c1, d1, t1, d2, second);
  }

  /**
   A failure after the rename is not undone: a failed run that left a root left a complete one. If it gave
   the lock back, the next run in which nothing fails says `unchanged`, and no run ever says `migrated`.
   */
  lemma FailureAfterRename(sha: seq<Event> -> string, fate: nat -> bool, c: nat, confirmation: string,
                           d: Disk, t: Trial, d1: Disk, first: Outcome,
                           later: nat -> bool, c1: nat, t1: Trial, d2: Disk, second: Outcome)
    requires Happened(sha, fate, c, confirmation, d, t, d1, first) && first.Failed?
    requires d.lock == Free && d.root.None? && d1.root.Some?
    requires Happened(sha, later, c1, CONFIRMATION, d1, t1, d2, second)
    ensures Complete(sha, d.source.value, d1.root.value) && !second.Migrated?
    ensures second == Unchanged(|d.source.value|, sha(d.source.value)) <==> d1.lock == Free && AllOk(later, c1, c1 + 4)
  {
    hide Happened, AllOk;
    HappenedRan(sha, fate, c, confirmation, d, t, d1, first);
    HappenedRan(sha, later, c1, CONFIRMATION, d1, t1, d2, second);
    if d1.lock == Free {
      CompleteRootIsUnchanged(sha, later, c1, d1, t1, d2, second);
    }
  }

  /** A run and the disk it finds. */
  datatype Step = Step(found: Disk, fate: nat -> bool, c: nat, confirmation: string, trial: Trial, outcome: Outcome)

  /** Between two runs: the lock of a process that has ended is no longer busy but stale. */
  predicate Aged(d: Disk, later: Disk)
  {
    later == d || (d.lock == Busy && later == d.(lock := Stale))
  }

  /** `disks` are the disks before the first run and after each of them. */
  ghost predicate History(sha: seq<Event> -> string, disks: seq<Disk>, runs: seq<Step>)
  {
    && |disks| == |runs| + 1
    && forall i :: 0 <= i < |runs| ==> Aged(disks[i], runs[i].found) && Follows(sha, runs[i], disks[i + 1])
  }

  ghost predicate Follows(sha: seq<Event> -> string, run: Step, d': Disk)
  {
    Happened(sha, run.fate, run.c, run.confirmation, run.found, run.trial, d', run.outcome)
  }

  /** Once a run has kept the lock, every later run is refused and changes nothing, until somebody clears it. */
  lemma {:induction false} KeptLockRefusesTheRest(sha: seq<Event> -> string, disks: seq<Disk>, runs: seq<Step>, i: nat)
    requires History(sha, disks, runs) && disks[0].lock == Free && 0 < i < |disks|
    requires var first := runs[0];
      && first.confirmation == CONFIRMATION && disks[0].source.Some? && first.fate(first.c)
      && (!first.fate(first.c + 1) || CleanupFails(first.fate, first.trial) || !first.fate(ReleaseTick(first.trial)))
    ensures Aged(disks[1], disks[i]) && disks[1].lock == Busy
    ensures i < |runs| ==> runs[i].outcome.Failed? && runs[i].outcome.stage == Refusing
  {
    hide Tried, Concluded;
    var first := runs[0];
    assert Follows(sha, first, disks[1]);
    if i == 1 {
      LockIsKeptExactly(sha, first.fate, first.c, first.confirmation,
                        first.found, first.trial, disks[1], first.outcome);
    } else {
      KeptLockRefusesTheRest(sha, disks, runs, i - 1);
      assert Aged(disks[i - 1], runs[i - 1].found) && Follows(sha, runs[i - 1], disks[i]);
    }
    if i < |runs| {
      assert Aged(disks[i], runs[i].found) && Follows(sha, runs[i], disks[i + 1]);
    }
  }

  // ---------------------------------------------------------------- the failures, run

  function FirstDisk(source: seq<Event>): Disk
  {
    Disk(Some(source), None, None, Free)
  }

  /** For any source: the read right after the lock fails, and the lock stays taken with nothing done. */
  method UnreadableSource(sha: seq<Event> -> string, source: seq<Event>) returns (d: Disk, r: Outcome)
    ensures d == FirstDisk(source).(lock := Busy) && r.Failed? && r.stage == Reading
  {
    var run := new Migration(sha, n => n != 1, FirstDisk(source));
    ghost var t;
    r, t := run.Migrate(CONFIRMATION);
    d := run.disk;
  }

  /** For any source: the receipt cannot be written, nor the candidate removed, and both candidate and lock stay. */
  method FailedCleanup(sha: seq<Event> -> string, source: seq<Event>) returns (d: Disk, r: Outcome)
    requires Numbered(source)
    ensures d.root.None? && d.candidate.Some? && d.lock == Busy && r.Failed? && r.stage == Cleaning
  {
    var at := |source| + 6;
    var fate: nat -> bool := n => n != at && n != at + 1;
    var run := new Migration(sha, fate, FirstDisk(source));
    ghost var t;
    r, t := run.Migrate(CONFIRMATION);
    d := run.disk;
    FirstFailureDecides(sha, run.fate, 0, FirstDisk(source), t, d, r);
    assert FailsFirst(run.fate, 0, at);
  }

  /** For any source: the migration is complete and its lock cannot be released, so that it is reported as failed. */
  method FailedRelease(sha: seq<Event> -> string, source: seq<Event>) returns (d: Disk, r: Outcome)
    requires Numbered(source)
    ensures d.root.Some? && Complete(sha, source, d.root.value) && d.lock == Busy && r.Failed? && r.stage == Releasing
  {
    var at := |source| + 10;
    var run := new Migration(sha, n => n != at, FirstDisk(source));
    ghost var t;
    r, t := run.Migrate(CONFIRMATION);
    d := run.disk;
    FirstFailureDecides(sha, run.fate, 0, FirstDisk(source), t, d, r);
  }

  /** For any source: the verification after the rename fails, and the run reported as failed leaves a complete root. */
  method FailedAfterRename(sha: seq<Event> -> string, source: seq<Event>) returns (d: Disk, r: Outcome)
    requires Numbered(source)
    ensures d.root.Some? && Complete(sha, source, d.root.value) && d.lock == Free && r.Failed? && r.stage == Working
  {
    var at := |source| + 9;
    var run := new Migration(sha, n => n != at, FirstDisk(source));
    ghost var t;
    r, t := run.Migrate(CONFIRMATION);
    d := run.disk;
    FirstFailureDecides(sha, run.fate, 0, FirstDisk(source), t, d, r);
  }
}
