/** Account databases as lines of colon-separated fields, and how the identity in them is classified. */
module IdentityAccounts {
  import opened Basics

  const USER := "atlas-manager"
  const PRIMARY := "atlas-manager"
  const HELPER := "atlas-manager-power"
  const HOME := "/var/lib/atlas-manager"
  const SHELL := "/usr/sbin/nologin"
  const MAX_INT := 0x7FFF_FFFF_FFFF_FFFF

  type Line = seq<string>

  /** `sane` stands for the size, encoding and line-length limits the parser puts on a file. */
  datatype AccountFile = AccountFile(lines: seq<Line>, sane: bool)

  datatype Entry = Entry(name: string, id: nat, gid: nat, home: string, shell: string, members: string)

  predicate LineNamed(line: Line, name: string)
  {
    line != [] && line[0] == name
  }

  /** Some line's first field is the name. */
  predicate Named(lines: seq<Line>, name: string)
  {
    exists i :: 0 <= i < |lines| && LineNamed(lines[i], name)
  }

  // ---------------------------------------------------------------- numbers

  predicate AllDigits(s: string)
  {
    forall i :: 0 <= i < |s| ==> '0' <= s[i] <= '9'
  }

  function DigitsValue(s: string): nat
    requires AllDigits(s)
  {
    if s == "" then 0 else DigitsValue(s[..|s| - 1]) * 10 + (s[|s| - 1] as int - '0' as int)
  }

  /** `canonicalID`: decimal digits, no leading zero, within the integer range. */
  function CanonicalId(s: string): Option<nat>
  {
    if s == "" || (|s| > 1 && s[0] == '0') || !AllDigits(s) || DigitsValue(s) > MAX_INT then None
    else Some(DigitsValue(s))
  }

  /** `strconv.Atoi`: an optional sign and decimal digits. */
  function Atoi(s: string): Option<int>
  {
    var digits := if s != "" && (s[0] == '+' || s[0] == '-') then s[1..] else s;
    if digits == "" || !AllDigits(digits) then None
    else
      var magnitude: int := DigitsValue(digits);
      var value := if s[0] == '-' then -magnitude else magnitude;
      if -MAX_INT - 1 <= value <= MAX_INT then Some(value) else None
  }

  // ---------------------------------------------------------------- group scans of the preparation

  predicate GroupLine(line: Line, name: string)
  {
    |line| == 4 && line[0] == name
  }

  /** `groupID` over the lines: the value of the last matching line and whether it is the only one. */
  datatype Scan = Scan(count: nat, value: int, broken: bool)

  function ScanGroups(lines: seq<Line>, name: string): (r: Scan)
    ensures !r.broken && r.count > 0 ==> r.value > 0
  {
    if lines == [] then Scan(0, 0, false) else
      var before, line := ScanGroups(lines[..|lines| - 1], name), lines[|lines| - 1];
      if before.broken || !GroupLine(line, name) then before
      else
        var parsed := Atoi(line[2]);
        if parsed.None? || parsed.value <= 0 || (|line[2]| > 1 && line[2][0] == '0')
        then Scan(before.count + 1, 0, true)
        else Scan(before.count + 1, parsed.value, false)
  }

  /** What `groupID` returns: a value, and whether it may be trusted. */
  function GroupId(lines: seq<Line>, name: string): (r: (int, bool))
    ensures r.1 ==> r.0 > 0
  {
    var scan := ScanGroups(lines, name);
    if scan.broken then (0, false) else (scan.value, scan.count == 1 && scan.value > 0)
  }

  /** A canonical positive number, as a group line may carry it. */
  predicate GroupNumber(s: string)
  {
    Atoi(s).Some? && Atoi(s).value > 0 && !(|s| > 1 && s[0] == '0')
  }

  /** Exactly one line is the group's. */
  predicate OnlyGroupLine(lines: seq<Line>, name: string, i: int)
  {
    && 0 <= i < |lines| && GroupLine(lines[i], name)
    && forall j :: 0 <= j < |lines| && GroupLine(lines[j], name) ==> j == i
  }

  function NumberRead(line: Line): Scan
    requires |line| == 4
  {
    if GroupNumber(line[2]) then Scan(1, Atoi(line[2]).value, false) else Scan(1, 0, true)
  }

  lemma {:induction false} ScanOfNone(lines: seq<Line>, name: string)
    requires forall j :: 0 <= j < |lines| ==> !GroupLine(lines[j], name)
    ensures ScanGroups(lines, name) == Scan(0, 0, false)
  {
    if lines != [] {
      ScanOfNone(lines[..|lines| - 1], name);
    }
  }

  lemma {:induction false} ScanOfOne(lines: seq<Line>, name: string, i: int)
    requires OnlyGroupLine(lines, name, i)
    ensures ScanGroups(lines, name) == NumberRead(lines[i])
  {
    hide Atoi;
    var front, last := lines[..|lines| - 1], lines[|lines| - 1];
    if i == |front| {
      ScanOfNone(front, name);
    } else {
      ScanOfOne(front, name, i);
      assert front[i] == lines[i] && !GroupLine(last, name);
    }
  }

  lemma {:induction false} ScanOfMany(lines: seq<Line>, name: string, i: int, j: int)
    requires 0 <= i < j < |lines| && GroupLine(lines[i], name) && GroupLine(lines[j], name)
    ensures ScanGroups(lines, name).broken || ScanGroups(lines, name).count > 1
  {
    hide Atoi;
    var front := lines[..|lines| - 1];
    if j < |front| {
      ScanOfMany(front, name, i, j);
    } else {
      ScanCounts(front, name, i);
    }
  }

  lemma {:induction false} ScanCounts(lines: seq<Line>, name: string, i: int)
    requires 0 <= i < |lines| && GroupLine(lines[i], name)
    ensures ScanGroups(lines, name).broken || ScanGroups(lines, name).count > 0
  {
    if i < |lines| - 1 {
      ScanCounts(lines[..|lines| - 1], name, i);
    }
  }

  /**
   `groupID` trusts a number if and only if exactly one line is the group's and its number is canonical and
   positive.
   */
  lemma TrustedGroup(lines: seq<Line>, name: string)
    ensures GroupId(lines, name).1 <==> exists i :: OnlyGroupLine(lines, name, i) && GroupNumber(lines[i][2])
    ensures forall i :: OnlyGroupLine(lines, name, i) && GroupNumber(lines[i][2]) ==>
      GroupId(lines, name).0 == Atoi(lines[i][2]).value
  {
    hide Atoi, ScanGroups;
    forall i | OnlyGroupLine(lines, name, i) ensures ScanGroups(lines, name) == NumberRead(lines[i]) {
      ScanOfOne(lines, name, i);
    }
    if i :| 0 <= i < |lines| && GroupLine(lines[i], name) {
      if !OnlyGroupLine(lines, name, i) {
        var j :| 0 <= j < |lines| && GroupLine(lines[j], name) && j != i;
        ScanOfMany(lines, name, if i < j then i else j, if i < j then j else i);
        assert forall k :: OnlyGroupLine(lines, name, k) ==> k == i && k == j;
      }
    } else {
      ScanOfNone(lines, name);
    }
  }

  predicate MembersEmpty(lines: seq<Line>, name: string)
  {
    forall i :: 0 <= i < |lines| && GroupLine(lines[i], name) ==> lines[i][3] == ""
  }

  predicate VerifiedGroup(lines: seq<Line>, name: string)
  {
    GroupId(lines, name).1 && MembersEmpty(lines, name)
  }

  // ---------------------------------------------------------------- the account contract

  datatype Fault = Oversized | Malformed | Missing | Duplicate | Mismatch | InvalidField | MembersNonempty

  datatype Entries = Entries(entries: seq<Entry>) | BadFile(fault: Fault)

  function ParseLine(line: Line, fields: nat): Option<Entry>
    requires fields == 7 || fields == 4
  {
    if |line| != fields || CanonicalId(line[2]).None? then None
    else if fields == 4 then Some(Entry(line[0], CanonicalId(line[2]).value, 0, "", "", line[3]))
    else if CanonicalId(line[3]).None? then None
    else Some(Entry(line[0], CanonicalId(line[2]).value, CanonicalId(line[3]).value, line[5], line[6], ""))
  }

  function ParseLines(lines: seq<Line>, fields: nat): Entries
    requires fields == 7 || fields == 4
  {
    if lines == [] then Entries([]) else
      var before, line := ParseLines(lines[..|lines| - 1], fields), lines[|lines| - 1];
      if before.BadFile? || line == [""] then before
      else if ParseLine(line, fields).None? then BadFile(Malformed)
      else Entries(before.entries + [ParseLine(line, fields).value])
  }

  function ParseFile(file: AccountFile, fields: nat): Entries
    requires fields == 7 || fields == 4
  {
    if !file.sane then BadFile(Oversized) else ParseLines(file.lines, fields)
  }

  predicate HasName(entries: seq<Entry>, name: string)
  {
    exists i :: 0 <= i < |entries| && entries[i].name == name
  }

  function WithName(entries: seq<Entry>, name: string): (matches: seq<Entry>)
    ensures forall i :: 0 <= i < |matches| ==> matches[i].name == name && matches[i] in entries
  {
    if entries == [] then [] else
      var before, last := WithName(entries[..|entries| - 1], name), entries[|entries| - 1];
      if last.name == name then before + [last] else before
  }

  function CountId(entries: seq<Entry>, id: nat): nat
  {
    if entries == [] then 0
    else CountId(entries[..|entries| - 1], id) + if entries[|entries| - 1].id == id then 1 else 0
  }

  datatype Identity = Identity(userId: nat, primaryGroupId: nat, helperGroupId: nat)

  const NO_IDENTITY := Identity(0, 0, 0)

  datatype Contract = ContractAbsent | ContractReady(identity: Identity) | ContractBlocked(fault: Fault)

  function OneNamed(entries: seq<Entry>, name: string): (r: (Option<Entry>, Fault))
  {
    var matches := WithName(entries, name);
    if |matches| == 1 then (Some(matches[0]), Missing)
    else (None, if matches == [] then Missing else Duplicate)
  }

  function ValidateEntries(users: seq<Entry>, groups: seq<Entry>): (r: Contract)
    ensures !r.ContractAbsent?
    ensures r.ContractReady? ==> r.identity.userId > 0
  {
    var (user, userFault) := OneNamed(users, USER);
    var (primary, primaryFault) := OneNamed(groups, PRIMARY);
    var (helper, helperFault) := OneNamed(groups, HELPER);
    if user.None? then ContractBlocked(userFault)
    else if user.value.id == 0 || user.value.gid == 0 || CountId(users, user.value.id) != 1
    then ContractBlocked(Mismatch)
    else if user.value.home != HOME || user.value.shell != SHELL then ContractBlocked(InvalidField)
    else if primary.None? then ContractBlocked(primaryFault)
    else if primary.value.id == 0 || primary.value.id != user.value.gid || CountId(groups, primary.value.id) != 1
    then ContractBlocked(InvalidField)
    else if helper.None? then ContractBlocked(helperFault)
    else if helper.value.id == 0 || helper.value.id == primary.value.id || CountId(groups, helper.value.id) != 1
    then ContractBlocked(InvalidField)
    else if helper.value.members != "" then ContractBlocked(MembersNonempty)
    else ContractReady(Identity(user.value.id, primary.value.id, helper.value.id))
  }

  function ClassifyContract(passwd: AccountFile, group: AccountFile): (r: Contract)
    ensures r.ContractReady? ==> r.identity.userId > 0
  {
    var users, groups := ParseFile(passwd, 7), ParseFile(group, 4);
    if users.BadFile? then ContractBlocked(users.fault)
    else if groups.BadFile? then ContractBlocked(groups.fault)
    else if !HasName(users.entries, USER) && !HasName(groups.entries, PRIMARY) && !HasName(groups.entries, HELPER)
    then ContractAbsent
    else ValidateEntries(users.entries, groups.entries)
  }

  // ---------------------------------------------------------------- classification

  datatype ManagedState = ManagedState(userId: int, primaryGroupId: int, helperGroupId: int, commit: string,
                                       version: string)

  /** `Validate`; schema, status and the fixed names hold by construction of the record. */
  predicate ValidManaged(s: ManagedState)
  {
    && s.userId > 0 && s.primaryGroupId > 0 && s.helperGroupId > 0 && s.primaryGroupId != s.helperGroupId
    && LowerHex(s.commit, 40) && ValidVersion(s.version)
  }

  datatype IdentityState = Absent | ManagedPrepared | ExactUnmanaged | Partial | Conflicting | Interrupted | Unsafe

  predicate HasRelevantName(passwd: seq<Line>, group: seq<Line>)
  {
    Named(passwd, USER) || Named(passwd, PRIMARY) || Named(passwd, HELPER) || Named(group, USER) || Named(group, HELPER)
  }

  function Classify(passwd: AccountFile, group: AccountFile, managed: Option<ManagedState>,
                    journalPresent: bool): IdentityState
  {
    if journalPresent then Interrupted
    else if !HasRelevantName(passwd.lines, group.lines) then if managed.Some? then Unsafe else Absent
    else match ClassifyContract(passwd, group)
      case ContractAbsent => if managed.Some? then Unsafe else Absent
      case ContractReady(identity) =>
        if !MembersEmpty(group.lines, HELPER) then Conflicting
        else if managed.None? then ExactUnmanaged
        else if ValidManaged(managed.value) && managed.value.userId == identity.userId
             && managed.value.primaryGroupId == identity.primaryGroupId
             && managed.value.helperGroupId == identity.helperGroupId
        then ManagedPrepared
        else Unsafe
      case ContractBlocked(fault) =>
        if fault in {Duplicate, Mismatch, InvalidField, MembersNonempty} then Conflicting else Partial
  }

  /** A name the preparation creates is in the account databases. */
  predicate ManagedNames(passwd: seq<Line>, group: seq<Line>)
  {
    Named(passwd, USER) || Named(group, PRIMARY) || Named(group, HELPER)
  }

  lemma {:induction false} ParsedNames(lines: seq<Line>, fields: nat, name: string)
    requires (fields == 7 || fields == 4) && name != "" && Named(lines, name) && ParseLines(lines, fields).Entries?
    ensures HasName(ParseLines(lines, fields).entries, name)
  {
    var front, last := lines[..|lines| - 1], lines[|lines| - 1];
    var entries := ParseLines(lines, fields).entries;
    if LineNamed(last, name) {
      assert entries[|entries| - 1].name == name;
    } else {
      var i :| 0 <= i < |lines| && LineNamed(lines[i], name);
      assert LineNamed(front[i], name);
      ParsedNames(front, fields, name);
      var before := ParseLines(front, fields).entries;
      var j :| 0 <= j < |before| && before[j].name == name;
      assert entries[j] == before[j];
    }
  }

  /** `Absent` really means that none of the managed names is there. */
  lemma AbsentMeansNoNames(passwd: AccountFile, group: AccountFile, managed: Option<ManagedState>, journalPresent: bool)
    requires Classify(passwd, group, managed, journalPresent) == Absent
    ensures !ManagedNames(passwd.lines, group.lines)
  {
    if Named(passwd.lines, USER) {
      ParsedNames(passwd.lines, 7, USER);
    }
    if Named(group.lines, PRIMARY) {
      ParsedNames(group.lines, 4, PRIMARY);
    }
    if Named(group.lines, HELPER) {
      ParsedNames(group.lines, 4, HELPER);
    }
  }

  lemma {:induction false} EntriesAreLines(lines: seq<Line>, fields: nat, e: Entry)
    requires fields == 7 || fields == 4
    requires ParseLines(lines, fields).Entries? && e in ParseLines(lines, fields).entries
    ensures Named(lines, e.name)
  {
    var front, last := lines[..|lines| - 1], lines[|lines| - 1];
    if ParseLines(front, fields).Entries? && e in ParseLines(front, fields).entries {
      EntriesAreLines(front, fields, e);
      var i :| 0 <= i < |front| && LineNamed(front[i], e.name);
      assert LineNamed(lines[i], e.name);
    } else {
      assert LineNamed(lines[|lines| - 1], e.name);
    }
  }

  lemma {:induction false} LinesAreEntries(lines: seq<Line>, i: nat, name: string)
    requires ParseLines(lines, 4).Entries? && i < |lines| && GroupLine(lines[i], name)
    ensures ParseLine(lines[i], 4).Some? && ParseLine(lines[i], 4).value in ParseLines(lines, 4).entries
  {
    if i < |lines| - 1 {
      var front := lines[..|lines| - 1];
      assert front[i] == lines[i];
      LinesAreEntries(front, i, name);
    }
  }

  lemma {:induction false} WithNameIsComplete(entries: seq<Entry>, e: Entry)
    requires e in entries
    ensures e in WithName(entries, e.name)
  {
    if e != entries[|entries| - 1] {
      assert e in entries[..|entries| - 1];
      WithNameIsComplete(entries[..|entries| - 1], e);
    }
  }

  lemma ReadyEntries(users: seq<Entry>, groups: seq<Entry>)
    requires ValidateEntries(users, groups).ContractReady?
    ensures |WithName(users, USER)| == 1
    ensures |WithName(groups, HELPER)| == 1 && WithName(groups, HELPER)[0].members == ""
  {
    hide CountId;
  }

  lemma HelperLineIsEmpty(lines: seq<Line>, i: nat)
    requires ParseLines(lines, 4).Entries? && i < |lines| && GroupLine(lines[i], HELPER)
    requires var matches := WithName(ParseLines(lines, 4).entries, HELPER); |matches| == 1 && matches[0].members == ""
    ensures lines[i][3] == ""
  {
    hide CanonicalId, ParseLines;
    LinesAreEntries(lines, i, HELPER);
    WithNameIsComplete(ParseLines(lines, 4).entries, ParseLine(lines[i], 4).value);
  }

  /** A ready contract has its user in the file and a helper group without members. */
  lemma ReadyHasNames(passwd: AccountFile, group: AccountFile)
    requires ClassifyContract(passwd, group).ContractReady?
    ensures Named(passwd.lines, USER) && MembersEmpty(group.lines, HELPER)
  {
    hide ParseLines, WithName, ValidateEntries;
    var users, groups := ParseFile(passwd, 7).entries, ParseFile(group, 4).entries;
    ReadyEntries(users, groups);
    EntriesAreLines(passwd.lines, 7, WithName(users, USER)[0]);
    forall i | 0 <= i < |group.lines| && GroupLine(group.lines[i], HELPER) ensures group.lines[i][3] == "" {
      HelperLineIsEmpty(group.lines, i);
    }
  }
}
