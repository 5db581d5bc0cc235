# Atlas Manager: verified models

Machine-checked models of the parts of Atlas Manager whose correctness depends on state, recursion or
the order of events. Each model follows the branches, constants and error codes of the code it
describes; where the code does something other than its name or documentation suggests, the model does
what the code does and a theorem says so. `dafny verify dfyconfig.toml` checks everything.

| component | files |
|---|---|
| shared | `Basics.dfy` |
| strict JSON decoder | `JsonGrammar.dfy` (grammar as syntax trees), `StrictJson.dfy` (decoder as functions, completeness and soundness), `StrictJsonDecoder.dfy` (the object with its cursor) |
| administrative configuration | `ConfigurationFiles.dfy` (disk, plans, validity), `AdministrativeConfiguration.dfy` (the runs), `ConfigurationHistory.dfy` (cuts and histories) |
| identity preparation | `IdentityAccounts.dfy` (account databases, classification), `IdentityPreparation.dfy` (what must hold), `IdentitySaga.dfy` (the run and its compensation) |
| event-history migration | `EventHistoryMigration.dfy` |
| request admission, power gate, refresh | `RequestAdmission.dfy`, `PowerGate.dfy`, `RefreshCoordinator.dfy` |
| bundle manifest | `StrictOrder.dfy`, `BundleManifest.dfy` |
| command-line mutations | `CliMutation.dfy` |
| process shutdown | `ProcessShutdown.dfy` (every order of events), `ApplicationLifecycle.dfy` (the handlers) |

Two devices recur. Whatever the outside world decides (a write that fails, a tool's exit code and what
it leaves behind, a server's answer) is read from a function of a clock that the object advances, about
which nothing is assumed; a contract that holds for every such function holds for every behaviour. And
a crash may come after any single effect: the effects of a run are recorded, and the invariants are
stated for every prefix of them.

## What the models show about the code

- The decoder accepts exactly RFC 8259 documents without repeated names. The unchecked jump over the
  four characters after `\u` is harmless: a jumped-over quote makes the slice an invalid literal.
- Rollback of the configuration never succeeds, and once a version has been replaced it does reach its
  state write. It exchanges the two versions exactly, but exchanged generation numbers are never valid,
  so the last check fails, the journal stays, and even after the journal is cleared by hand the record
  makes every later action refuse.
- A replacement writes its journal before it looks at the new input, so an invalid input leaves a
  journal behind that blocks every later run until it is cleared by hand.
- A configuration removal reports `removed` even when the state record could not be removed; the
  leftover record then blocks every later run, with no journal on disk to say why. So does a removal that
  is cut between the environment and the record.
- The generation counter wraps at 2^64; the record written by that replacement is refused.
- The request window admits at most 2 * maximumRequests - 1 requests in any span of one window's
  length (maximumRequests, if a window is one tick), and the bound is reached. When the clock may go back
  it holds only with one request per window.
- In the migration, a source that cannot be read right after the lock was taken leaves the lock behind,
  and so do a failing cleanup and a failing release; a failing release turns a completed migration into
  a reported failure; a failure after the rename is not undone and the next run reports `unchanged`.
- A rolled-back identity preparation need not leave gshadow as it was: gshadow is not read before the
  run, so a stale managed line is lost. A group that fails its own verification is not taken back, because
  the compensation asks the same of it.
- A corrupt state file on an otherwise clean host is classified as absent by the identity snapshot; only
  the host qualification keeps the preparation from starting.
- A render that throws leaves its dashboard section on the loading placeholder.
- A shutdown request whose announcement cannot be written starts nothing. A listener's throw comes back
  through the handler for uncaught exceptions, which starts the shutdown or ends the process; a scheduler
  runtime swallows it, and if no other request follows the process runs on with its failure code set.

## Model

| member | source | states |
|---|---|---|
| StrictJson.RoundTrip | src/config/strict-json.ts:23-127 | any grammatical spelling of a value, with any insignificant whitespace, decodes to that value with nothing left over, unless some object repeats a name, which is then the error reported |
| StrictJson.Soundness | src/config/strict-json.ts:23-81 | an accepted input is, in full, a derivation of the returned value, and no object at any depth repeats a decoded name |
| StrictJson.DecodeIsTheGrammar | src/config/strict-json.ts:23-29 | acceptance with value v if and only if the input denotes v in the grammar and v repeats no name |
| StrictJson.OneMeaning | src/config/strict-json.ts:23-81 | a text the decoder accepts has a single meaning in the grammar |
| StrictJson.ScanFindsTheLiteral | src/config/strict-json.ts:83-109 | if a well-formed literal starts here the unchecked scan stops at its own closing quote, whatever follows, and otherwise the slice handed to the decoder is not one literal |
| StrictJson.ParseStringReadsOneLiteral | src/config/strict-json.ts:83-109 | the scan-then-decode string parser equals a reader of section 7 literals, on every suffix |
| StrictJson.MatchNumberAccepts | src/config/strict-json.ts:111-121 | the number pattern takes the whole of a number and no more when what follows cannot continue it |
| StrictJson.MatchNumberDerives | src/config/strict-json.ts:111-121 | what the pattern matches is a number of section 6 |
| StrictJson.ParseValueAccepts | src/config/strict-json.ts:31-81 | a value written in front of any continuation that cannot extend it is parsed to its meaning, leaving the continuation |
| StrictJson.ParseValueDerives | src/config/strict-json.ts:31-81 | a parsed value has a derivation that is written as exactly the text consumed |
| StrictJson.ParseMembersAccepts | src/config/strict-json.ts:43-66 | the member loop returns the fields in order, or the duplicate error exactly when a name was seen before |
| StrictJson.ParseMembersDerives | src/config/strict-json.ts:43-66 | parsed members derive, with names new and pairwise distinct |
| JsonGrammar.WriteSplits | src/config/strict-json.ts:31-41 | writing in front of a continuation is concatenation, so the grammar trees mean ordinary texts |
| JsonGrammar.DistinctIsUnique | src/config/strict-json.ts:46-57 | the running check against names already seen in each object equals pairwise distinct decoded names at every depth |
| StrictJsonDecoder.ParseStrictJson | src/config/strict-json.ts:10-13 | the imperative decoder returns v if and only if the input denotes v without repeated names, and reports a duplicate for a grammatical input with one |
| StrictJsonDecoder.Decoder.Parse | src/config/strict-json.ts:23-29 | the cursor ends where the functional decoder's rest begins, with the same verdict |
| StrictJsonDecoder.Decoder.ParseOne | src/config/strict-json.ts:31-41 | one value from the cursor on, the cursor strictly advancing within the input |
| StrictJsonDecoder.Decoder.ParseFields | src/config/strict-json.ts:43-66 | the object loop with its set of names agrees with the recursive members parser |
| StrictJsonDecoder.Decoder.ParseName | src/config/strict-json.ts:50-52 | the head of a turn of the object loop agrees with the key parser |
| StrictJsonDecoder.Decoder.ParseNamedValue | src/config/strict-json.ts:57-60 | the colon and the value of a field agree with the field parser, the cursor strictly advancing |
| StrictJsonDecoder.Decoder.ParseItems | src/config/strict-json.ts:68-81 | the array loop agrees with the recursive elements parser |
| StrictJsonDecoder.Decoder.ParseText | src/config/strict-json.ts:83-109 | the scanning loop with its jumps stops where the recursive scan does and decodes the slice |
| StrictJsonDecoder.Decoder.ParseNumeral | src/config/strict-json.ts:111-121 | the longest match, refused when it is not finite |
| StrictJsonDecoder.Decoder.ParseWord | src/config/strict-json.ts:123-127 | the word itself or an error |
| StrictJsonDecoder.Decoder.SkipWs | src/config/strict-json.ts:129-132 | skips exactly the leading insignificant whitespace |
| StrictJsonDecoder.Decoder.Consume | src/config/strict-json.ts:134-138 | advances over the given character if and only if it is next |
| ConfigurationFiles.JournalStaysThrough | deployment/internal/administrativeconfiguration/configuration.go:259-430 | every nonempty prefix of every plan leaves the journal on disk |
| ConfigurationFiles.NextStateIsValid | deployment/internal/administrativeconfiguration/configuration.go:336-341 | the record of a replacement is valid if and only if the 64-bit counter has room and both digests are nonzero hashes |
| ConfigurationFiles.SwapIsInvalid | deployment/internal/administrativeconfiguration/configuration.go:729-740 | exchanging the generations of a valid record never gives a valid record |
| ConfigurationFiles.RollbackSwaps | deployment/internal/administrativeconfiguration/configuration.go:407-424 | a rollback plan carried out exchanges environment, input and digests exactly and leaves the journal |
| ConfigurationFiles.RollbackNeverVerifies | deployment/internal/administrativeconfiguration/configuration.go:419-427 | for every disk, the installation after a full rollback plan does not verify |
| AdministrativeConfiguration.Configuration.VerifyInstalled | deployment/internal/administrativeconfiguration/configuration.go:447-467 | success means record, digests and input agree on disk; without read failures the converse too |
| AdministrativeConfiguration.Configuration.WriteAll | deployment/internal/administrativeconfiguration/configuration.go:626-660 | whichever write fails, before or after its rename, the disk is the start plus a prefix of the writes in order |
| AdministrativeConfiguration.Configuration.Finish | deployment/internal/administrativeconfiguration/configuration.go:354-361 | the journal is taken away only after the whole plan verifies, and success is reported in just that case |
| AdministrativeConfiguration.Configuration.InstallFiles | deployment/internal/administrativeconfiguration/configuration.go:259-297 | whatever fails, a prefix of the install plan in order; when nothing fails, the whole plan, and success exactly when it is complete and verifies |
| AdministrativeConfiguration.Configuration.ReplacementWrites | deployment/internal/administrativeconfiguration/configuration.go:303-335 | the writes decided on are exactly the rest of the replace plan of this disk, and without read failures there are always exactly those |
| AdministrativeConfiguration.Configuration.RollbackWrites | deployment/internal/administrativeconfiguration/configuration.go:368-406 | the writes decided on are exactly the rest of the rollback plan of this disk, and without read failures there are always exactly those |
| AdministrativeConfiguration.Configuration.ReplaceOrRollback | deployment/internal/administrativeconfiguration/configuration.go:299-430 | journal first, then a prefix of the plan; when nothing fails, the whole plan, success exactly when it is complete and verifies, and the journal removed in just that case |
| AdministrativeConfiguration.Configuration.RemoveFiles | deployment/internal/administrativeconfiguration/configuration.go:432-445 | removes the environment first, then a subsequence of the other files in their order; reports success if and only if the environment went; once it starts removing, the files gone are exactly those whose own removal succeeds |
| AdministrativeConfiguration.Configuration.Precheck | deployment/internal/administrativeconfiguration/configuration.go:131-190 | passing means right confirmation, no base fault, no journal, no lock and a verified (or, for install, absent) installation, and without read failures those are enough; it writes nothing |
| AdministrativeConfiguration.Configuration.Run | deployment/internal/administrativeconfiguration/configuration.go:131-203 | every run is one the histories are built from; a run in which nothing fails passes the lock exactly when the disk is ready for it, carries out its whole plan (all removals), succeeds exactly when the outcome verifies, and gives the lock back; a removal whose checks succeed removes exactly what can be removed and reports success |
| AdministrativeConfiguration.RecordStays | deployment/internal/administrativeconfiguration/configuration.go:432-445 | a run on any disk ready for removal in which only the removal of the record fails: it reports success, and every later run is refused with no journal on disk |
| ConfigurationHistory.CrashConsistency | deployment/internal/administrativeconfiguration/configuration.go:259-430 | at every cut of every install, replace or rollback: journal on disk, or no managed file changed, or the installation verifies |
| ConfigurationHistory.JournalBlocksForever | deployment/internal/administrativeconfiguration/configuration.go:181-192 | with a journal on disk any number of later runs is refused and changes nothing |
| ConfigurationHistory.InstallStartsChain | deployment/internal/administrativeconfiguration/configuration.go:259-297 | a completed install is generation 1 of a chain of one version |
| ConfigurationHistory.ReplaceExtendsChain | deployment/internal/administrativeconfiguration/configuration.go:299-361 | a completed replacement adds one version and keeps the replaced one byte for byte with its digests |
| ConfigurationHistory.ChainStep | deployment/internal/administrativeconfiguration/configuration.go:181-445 | one run of any action, failed or cut anywhere, keeps the chain |
| ConfigurationHistory.GenerationChain | deployment/internal/administrativeconfiguration/configuration.go:299-361 | over every history, unless an unfinished action or removal is on disk, current = 1 + replaces since the last install, previous = current - 1, and both versions are the last two of the history |
| ConfigurationHistory.InstalledIsNewest | deployment/internal/administrativeconfiguration/configuration.go:447-467 | an installation that verifies without a journal is the newest version of its history, its predecessor beside it |
| ConfigurationHistory.SuccessIsInPlace | deployment/internal/administrativeconfiguration/configuration.go:288-297 | a reported install or replacement is in place even if the journal could not be removed |
| ConfigurationHistory.RemovalFreesInstall | deployment/internal/administrativeconfiguration/configuration.go:432-445 | for every cut of every removal, which later actions are admitted: the same as before until the environment is gone, then install if and only if the record is gone, and nothing else |
| ConfigurationHistory.RollbackNeverReportsSuccess | deployment/internal/administrativeconfiguration/configuration.go:364-430 | for every disk and every failure pattern, rollback is blocked and never removes the journal |
| ConfigurationHistory.RollbackPoisons | deployment/internal/administrativeconfiguration/configuration.go:407-427 | a rollback that reaches its state write exchanges the files exactly, and every later action is refused even with journal and lock cleared |
| ConfigurationHistory.RollbackReachesItsStateWrite | deployment/internal/administrativeconfiguration/configuration.go:364-430 | from the contract of Run: a rollback in which nothing fails is blocked, reaches its state write if and only if the previous version is intact, and leaves exactly the exchanged disk with an invalid record, or else only its journal |
| ConfigurationHistory.LineageIsRendered | deployment/internal/administrativeconfiguration/configuration.go:259-361 | every version that gets into any history was rendered from a valid input |
| ConfigurationHistory.RollbackAfterAReplacement | deployment/internal/administrativeconfiguration/configuration.go:364-427 | over every history from a machine without a record, the previous version of a verifying installation is intact if and only if a version has been replaced since the install |
| ConfigurationHistory.ReplacementLeavesItsJournal | deployment/internal/administrativeconfiguration/configuration.go:299-361 | a replacement in which nothing fails is blocked and leaves its journal if and only if the input does not render, the counter is full, a digest is not one or the record does not fit; when the input does not render nothing else changes |
| ConfigurationHistory.InstallSucceedsExactly | deployment/internal/administrativeconfiguration/configuration.go:259-297 | when an install in which nothing fails succeeds, in terms of input, deployment, commit and digests, and exactly when it leaves its journal |
| ConfigurationHistory.RemovalClears | deployment/internal/administrativeconfiguration/configuration.go:432-445 | a removal in which nothing fails succeeds and leaves none of the files |
| IdentityAccounts.AbsentMeansNoNames | deployment/internal/identitystate/state.go:66-105 | a host classified Absent has none of the managed names in its databases, through both scans |
| IdentityAccounts.ReadyHasNames | deployment/internal/runtimeidentity/contract.go:119-171 | a ready contract has its user in the file and a helper group without members |
| IdentityAccounts.TrustedGroup | deployment/internal/identitypreparation/preparation.go:849-869 | a number is trusted if and only if exactly one line is the group's and its number is canonical and positive, and it is that line's number |
| IdentityPreparation.LeftoverNeverQualifies | deployment/internal/hostinspection/inspection.go:190-213 | a state or journal file, valid or corrupt, never gives the verdict that lets preparation start |
| IdentityPreparation.CorruptStateLooksAbsent | deployment/internal/identitypreparation/preparation.go:210-237 | the snapshot alone classifies a corrupt state file on a clean host as Absent |
| IdentityPreparation.HalfMadeIsInterrupted | deployment/internal/identitystate/state.go:66-69 | a managed name without a state record, in any witnessed world, is classified Interrupted |
| IdentityPreparation.CountZeroMeansUnnamed | deployment/internal/identitypreparation/preparation.go:937-979 | the password scan counts zero if and only if no line bears the name |
| IdentityPreparation.RestoredIsClean | deployment/internal/identitypreparation/preparation.go:725-761 | a host the compensation accepts has no managed account, password, group shadow line, home or login-log difference |
| IdentityPreparation.ReadyIsRecordable | deployment/internal/identitystate/state.go:107-112 | the numbers of a ready contract always make a valid state record |
| IdentitySaga.Preparation.InspectSnapshot | deployment/internal/identitypreparation/preparation.go:188-256 | a verdict of Absent with nothing blocking means no names, no journal, no password entry, no homes and no lock; when every read succeeds the snapshot is the specified one |
| IdentitySaga.Preparation.Qualify | deployment/internal/qualification/qualification.go:60-108 | with a state or journal file on disk the result is never the one that lets preparation start |
| IdentitySaga.Preparation.GroupIdOf | deployment/internal/identitypreparation/preparation.go:849-869 | a trusted answer is the only matching line's number |
| IdentitySaga.Preparation.VerifyGroup | deployment/internal/identitypreparation/preparation.go:828-847 | success means exactly one such group, without members |
| IdentitySaga.Preparation.CurrentIdentity | deployment/internal/identitypreparation/preparation.go:815-826 | success returns the identity of a ready contract, failure the empty identity |
| IdentitySaga.Preparation.Execute | deployment/internal/identitypreparation/preparation.go:658-723 | a tool may leave any host behind; it is called only with the journal on disk, in order, and deletes only lawfully |
| IdentitySaga.Preparation.RemoveJournal | deployment/internal/identitystate/state.go:192-197 | the journal goes only when no managed name or a state record is left |
| IdentitySaga.Preparation.VerifyRollbackArtifacts | deployment/internal/identitypreparation/preparation.go:725-761 | success means no account, shadow or gshadow entry, home, state file, candidate, journal, lock or login-log difference is left, and without read failures the converse |
| IdentitySaga.Preparation.RemoveUser | deployment/internal/identitypreparation/preparation.go:704-709 | deletes the user only if it is found as it was made; without read failures succeeds exactly when it is found and the tool does |
| IdentitySaga.Preparation.RemoveGroup | deployment/internal/identitypreparation/preparation.go:710-721 | deletes a group only under the number it was made with and without members; without read failures succeeds exactly when it is found so and the tool does |
| IdentitySaga.Preparation.Rollback | deployment/internal/identitypreparation/preparation.go:703-723 | deletes in reverse order only what this run made; success means the host is restored, and without read failures it succeeds exactly when every resource is found as made, every tool succeeds and the host is restored |
| IdentitySaga.Preparation.Fail | deployment/internal/identitypreparation/preparation.go:639-657 | rolled back is reported only for a restored host without leftovers, and without read failures exactly then; every point on the way is witnessed |
| IdentitySaga.Preparation.Preflight | deployment/internal/identitypreparation/preparation.go:587-613 | changes nothing; a leftover state or journal file stops it before any call of the executor; without read failures it passes exactly on a startable host with supported tools |
| IdentitySaga.Preparation.Begin | deployment/internal/identitypreparation/preparation.go:620-635 | the journal is on disk before anything is made, or nothing is made |
| IdentitySaga.Preparation.MakeGroup | deployment/internal/identitypreparation/preparation.go:658-673 | a recorded group exists exactly once, without members, under the number remembered for its deletion |
| IdentitySaga.Preparation.MakeUser | deployment/internal/identitypreparation/preparation.go:674-686 | a recorded user completes a ready contract, whose identity is remembered for its deletion |
| IdentitySaga.Preparation.Make | deployment/internal/identitypreparation/preparation.go:636-701 | the whole saga keeps the witness at every step and the log lawful; without read failures its outcome is exactly determined by what the tools do |
| IdentitySaga.Preparation.MakeRest | deployment/internal/identitypreparation/preparation.go:658-701 | the same from the helper group on; a helper group that fails its own verification is never taken back |
| IdentitySaga.Preparation.MakeLast | deployment/internal/identitypreparation/preparation.go:674-701 | the same from the user on |
| IdentitySaga.Preparation.Conclude | deployment/internal/identitypreparation/preparation.go:687-701 | the state record before the journal goes; prepared means classified as managed and prepared |
| IdentitySaga.Preparation.Prepare | deployment/internal/identitypreparation/preparation.go:587-701 | at every crash point journal, no managed name, or state record; no unlawful delete; leftovers make no executor call; rolled back means clean before and after, and group shadow lines as before if and only if there were none; when no read or write fails, prepared and rolled back exactly for the tool results that make, or unmake, everything |
| IdentitySaga.StaleLineIsLost | deployment/internal/identitypreparation/preparation.go:729-741 | a run on a host with a stale managed gshadow line reports itself rolled back with that line gone |
| IdentitySaga.UnverifiedStays | deployment/internal/identitypreparation/preparation.go:710-721 | a group that fails its own verification is never deleted by the compensation |
| IdentitySaga.PreparedIsClassified | deployment/internal/identitystate/state.go:66-105 | the record made from a ready contract is later classified as managed and prepared |
| EventHistoryMigration.QueryIsAPage | src/maintenance/event-history.ts:116-116 | a query is the next hundred events with an exact hasMore |
| EventHistoryMigration.CollectPages | src/maintenance/event-history.ts:113-120 | for any length the loop ends with exactly the source events in order |
| EventHistoryMigration.Migration.Record | src/maintenance/event-history.ts:132-136 | succeeds if and only if each event's write does, and then the candidate holds exactly the events; otherwise it stops after the first write that fails and the candidate holds exactly the events before it; the root is untouched throughout |
| EventHistoryMigration.Migration.Install | src/maintenance/event-history.ts:140-166 | the root is at every step absent or the complete candidate; it is there if and only if directory, receipt, second look and rename succeed, and otherwise the first failure decides the candidate left |
| EventHistoryMigration.Migration.Fill | src/maintenance/event-history.ts:109-139 | everything before the receipt succeeds if and only if the source is well numbered and each of its operations succeeds; otherwise the first failure decides the candidate left and the next operation |
| EventHistoryMigration.Migration.Copy | src/maintenance/event-history.ts:109-175 | root, candidate, next operation and outcome, each fixed by the first operation that fails |
| EventHistoryMigration.Migration.Attempt | src/maintenance/event-history.ts:89-175 | the root is at every step the one found or a complete one; unchanged if and only if the receipt is read and matches; disk and next operation fixed by what fails |
| EventHistoryMigration.Migration.Conclude | src/maintenance/event-history.ts:176-180 | its error replaces the outcome exactly when the cleanup it must make, or the release, fails; otherwise no candidate without a root and a free lock |
| EventHistoryMigration.Migration.Migrate | src/maintenance/event-history.ts:65-181 | every run is, operation by operation, one the theorems below speak of, and the root is whole after each of its effects |
| EventHistoryMigration.TriedShape | src/maintenance/event-history.ts:89-175 | what every try does to the disk: a new root only complete, without a candidate, and exactly when everything up to the rename succeeds on a clear disk with a well-numbered source |
| EventHistoryMigration.RunIsDetermined | src/maintenance/event-history.ts:65-181 | what is on disk and which operations fail decide the disk a run leaves, its outcome and the stage of its failure |
| EventHistoryMigration.HappenedRan | src/maintenance/event-history.ts:65-181 | whatever fails: migrated means the root holds exactly the source with its receipt; a run that entered the try, whose cleanup did not fail and that leaves no root leaves no candidate, whoever made it |
| EventHistoryMigration.FirstFailureDecides | src/maintenance/event-history.ts:86-180 | for every well-numbered source of n events, disk, lock and outcome by the first of n + 11 operations that fails: migrated if and only if none does, a complete root if and only if the first n + 9 succeed, and for a failure in the try before the rename the disk as it was unless the cleanup or the release fails too |
| EventHistoryMigration.OneFailureLeavesNoTrace | src/maintenance/event-history.ts:109-180 | if a single operation fails, in the try before the rename, neither root nor candidate nor lock is left |
| EventHistoryMigration.LockIsKeptExactly | src/maintenance/event-history.ts:86-180 | on any disk a free lock stays taken if and only if the run took it and then the first read, a cleanup it had to make, or the release failed |
| EventHistoryMigration.UnhinderedMigration | src/maintenance/event-history.ts:65-181 | a run in which nothing fails gives the lock back and migrates, or says unchanged, exactly by what is on disk |
| EventHistoryMigration.CompleteRootIsUnchanged | src/maintenance/event-history.ts:89-104 | a run that finds a complete root never migrates and says unchanged if and only if its four operations succeed |
| EventHistoryMigration.RerunIsUnchanged | src/maintenance/event-history.ts:89-104 | after a migration a rerun repeats its count and digest if and only if nothing in it fails, and changes nothing but possibly the lock |
| EventHistoryMigration.FailureAfterRename | src/maintenance/event-history.ts:158-181 | a failed run that left a root left a complete one; the next run never migrates, and says unchanged if and only if the lock was given back and nothing in it fails |
| EventHistoryMigration.KeptLockRefusesTheRest | src/maintenance/event-history.ts:78-87 | over any sequence of runs, the lock going stale between them or not, after one whose first read, cleanup or release failed every later one is refused and nothing changes |
| EventHistoryMigration.UnreadableSource | src/maintenance/event-history.ts:86-87 | for any source, a run that keeps the lock with nothing done |
| EventHistoryMigration.FailedCleanup | src/maintenance/event-history.ts:176-178 | for any well-numbered source, a run that keeps candidate and lock |
| EventHistoryMigration.FailedRelease | src/maintenance/event-history.ts:176-180 | for any well-numbered source, a run reported as failed whose root is complete and whose lock stays taken |
| EventHistoryMigration.FailedAfterRename | src/maintenance/event-history.ts:158-168 | for any well-numbered source, a run that fails after the rename and leaves a complete root |
| RequestAdmission.TryAdmit | src/http/administrative-request-admission.ts:51-71 | an admission takes one slot within the limit and needs a finite time; a refusal takes none |
| RequestAdmission.Admission.Admit | src/http/administrative-request-admission.ts:51-71 | the object follows the admission function, and the active count stays the number of unreleased closures |
| RequestAdmission.Admission.Free | src/http/administrative-request-admission.ts:66-70 | for any closure ever handed out, the first call gives the slot back and repeated calls change nothing |
| RequestAdmission.RunIsSpaced | src/http/administrative-request-admission.ts:51-64 | in every run admissions fall into windows that start at least a window apart and are never overfull |
| RequestAdmission.SpanSeesTwoWindows | src/http/administrative-request-admission.ts:51-64 | a span of one window's length sees at most two windows and never the older one's first admission |
| RequestAdmission.SlidingSpanBound | src/http/administrative-request-admission.ts:51-64 | at most 2 * maximumRequests - 1 admissions in any sliding span, and at most maximumRequests when a window is one tick, over every run under a clock that does not go back |
| RequestAdmission.ConcurrencyBound | src/http/administrative-request-admission.ts:52-52 | outstanding admissions never exceed the limit, whatever the clock does |
| RequestAdmission.BoundIsReached | src/http/administrative-request-admission.ts:51-64 | for all limits, a run with exactly that many admissions in one span |
| RequestAdmission.SingleAdmissionsAreApart | src/http/administrative-request-admission.ts:54-61 | with one request per window, whatever the clock does, no span of a window's length holds two admissions |
| RequestAdmission.BackwardClockBreaksTheBound | src/http/administrative-request-admission.ts:54-61 | for all limits under a clock that may go back: the bound still holds with one request per window, and with two or more every number of admissions fits in one span |
| PowerGate.Gate.TryAdmit | src/http/administrative-power-operation-gate.ts:12-21 | admits if and only if no holder is inside, as the transition system does |
| PowerGate.Gate.Free | src/http/administrative-power-operation-gate.ts:16-20 | for any closure ever handed out: the step of the transition system, and only the newest closure's first call opens the gate |
| PowerGate.StepKeepsInv | src/http/administrative-shutdown-route.ts:97-165 | every stretch of every handler keeps: flag up exactly while one request holds the gate, one uncalled closure, count of admissions equal to live requests |
| PowerGate.EveryRunIsSafe | src/http/administrative-wake-alarm-route.ts:70-149 | the invariant over every interleaving of any number of requests |
| PowerGate.OneHolder | src/http/administrative-power-operation-gate.ts:12-21 | at most one request lies between admission to the gate and release, and never a read |
| PowerGate.StaleReleaseIsHarmless | src/http/administrative-power-operation-gate.ts:16-20 | a closure nobody owns any more changes nothing in any reachable state |
| PowerGate.QuietMeansFree | src/http/administrative-shutdown-route.ts:79-165 | once all requests are gone the gate is free, every closure called and no slot taken |
| RefreshCoordinator.Coordinator.Begin | src/dashboard/refresh-coordinator.ts:35-52 | the run gets the next generation of its section, which goes to loading |
| RefreshCoordinator.Coordinator.Settle | src/dashboard/refresh-coordinator.ts:53-80 | only the current generation is looked at; a throwing render changes nothing |
| RefreshCoordinator.AppliedGenerationsIncrease | src/dashboard/refresh-coordinator.ts:35-80 | over every interleaving a section's applied generations strictly increase |
| RefreshCoordinator.NoStaleResult | src/dashboard/refresh-coordinator.ts:53-60 | once a newer run has started, an older run's result changes nothing |
| RefreshCoordinator.RenderedMeansRendered | src/dashboard/refresh-coordinator.ts:61-80 | a section is marked rendered if and only if some applied result rendered it |
| RefreshCoordinator.DisplayStays | src/dashboard/refresh-coordinator.ts:35-80 | from the settling of the newest run on the section's display does not change |
| RefreshCoordinator.NewestOutcomeIsShown | src/dashboard/refresh-coordinator.ts:53-80 | the newest settled run's outcome is shown: stale only after an earlier render, failed only without any |
| RefreshCoordinator.OtherwiseLoading | src/dashboard/refresh-coordinator.ts:35-80 | until the newest run settles, or when its render throws, the section stays on loading |
| RefreshCoordinator.SectionsAreIndependent | src/dashboard/refresh-coordinator.ts:35-80 | an event of one section leaves every other section's status, mark and generation alone |
| StrictOrder.SameElementsSameList | deployment/internal/manifest/manifest.go:265-275 | two strictly sorted lists with the same elements agree index by index |
| StrictOrder.SortedIsIncreasing | deployment/internal/manifest/manifest.go:174-192 | sorting a list without repeats gives the strictly sorted list of the same elements |
| StrictOrder.SortingSortedIsIdentity | deployment/internal/manifest/manifest.go:152-156 | sorting a strictly sorted list changes nothing |
| BundleManifest.Validate | deployment/internal/manifest/manifest.go:47-70 | accepts if and only if header, every file entry and the strict order of paths are valid |
| BundleManifest.DescribeAll | deployment/internal/manifest/manifest.go:157-171 | describes every path if and only if each is a safe path of a regular, single-link, readable file |
| BundleManifest.Inventory | deployment/internal/manifest/manifest.go:152-172 | describes exactly the given files, in sorted order, if and only if each of them is a safe, regular, single-link, readable file |
| BundleManifest.WithoutMetadataIncreasing | deployment/internal/manifest/manifest.go:174-213 | dropping the metadata files keeps the strict order |
| BundleManifest.PayloadPaths | deployment/internal/manifest/manifest.go:174-213 | the sorted listing without metadata equals the manifest's paths if and only if the sets agree |
| BundleManifest.SameStrings | deployment/internal/manifest/manifest.go:265-275 | true if and only if the lists are equal |
| BundleManifest.MatchesByInventory | deployment/internal/manifest/manifest.go:194-226 | the tree's path-to-(size, mode, digest) map equals the manifest's if and only if path sets and inventories agree |
| BundleManifest.Verify | deployment/internal/manifest/manifest.go:194-226 | succeeds if and only if the walk succeeds, the manifest is valid and the tree minus metadata is exactly what it lists |
| CliMutation.ReadBoundedText | src/cli/administrative-client.ts:426-460 | the whole body if and only if neither the declared nor the real size passes the bound |
| CliMutation.UnansweredIsNeverDefinite | src/cli/http-transport.ts:439-469 | an exchange without an answer maps to exit code 5 or 130, never to a definite failure or a clean interruption |
| CliMutation.Client.Mutate | src/cli/administrative-client.ts:233-254 | one request, sent if and only if the transport may carry a credential |
| CliMutation.Client.ExecuteServiceAction | src/cli/http-transport.ts:252-353 | at most one mutation, sent exactly when the pre-check lets it; success exactly on an acknowledged answer; interruption codes mean nothing was sent |
| CliMutation.Client.RunServiceCommand | src/cli/main.ts:92-122 | exit 0 exactly on an acknowledged mutation; exit 1 only if everything sent was answered; an unanswered mutation exits 5 or 130 |
| ProcessShutdown.StepKeeps | src/main.ts:356-437 | the invariant of the whole process is kept by every event |
| ProcessShutdown.StartedExactlyOnce | src/lifecycle/graceful-shutdown.ts:45-78 | over every order of events, server close and background stop are each started once if and only if a request was announced, otherwise never; a live process with no exception on its way has started after any request whose throw no runtime swallowed |
| ProcessShutdown.RequestedButNotStarted | src/lifecycle/machine-power-scheduler-runtime.ts:67-80 | a live process with nothing thrown is requested and not started if and only if there was a request and all of them were scheduler ends whose announcement failed |
| ProcessShutdown.SwallowedRequest | src/lifecycle/machine-power-scheduler-runtime.ts:67-85 | the order of events that shows it: everything still runs, nothing is closed, the failure code is set |
| ProcessShutdown.ThrowIsHandledNext | src/main.ts:389-398 | after a listener throws, the handler for uncaught exceptions is next; it sets the failure code and starts the shutdown, or throws and ends the process |
| ProcessShutdown.AskedOrWaiting | src/main.ts:362-374 | after the start every configured loop has been asked to stop once or has its own task waiting, in order |
| ProcessShutdown.EveryLoopIsAsked | src/main.ts:362-380 | the waiting tasks can always run to the end whichever of them throw, and then every configured loop has been asked |
| ProcessShutdown.FinishedMeansStopped | src/lifecycle/graceful-shutdown.ts:91-134 | a finished shutdown asked and heard from exactly the configured loops and saw the server close |
| ProcessShutdown.FailureCodeIsExact | src/lifecycle/graceful-shutdown.ts:104-125 | the failure exit code is set if and only if there was a server error, an unhandled error or a scheduler that ended other than stopped, or the shutdown finished after a failed stop or close |
| ProcessShutdown.SchedulersRunOnlyBeforeShutdown | src/main.ts:418-431 | the schedulers run if and only if listening came before the first request to shut down, all configured ones or none |
| ProcessShutdown.FailuresAdd | src/main.ts:375-380 | each event adds exactly its own failure to those the shutdown will report |
| ApplicationLifecycle.Shutdown.RequestShutdown | src/lifecycle/graceful-shutdown.ts:53-77 | starts everything on the first announced request and nothing on any other |
| ApplicationLifecycle.Shutdown.StopBackgroundWork | src/main.ts:362-380 | queues one task per configured loop |
| ApplicationLifecycle.Application.OnStopTask | src/main.ts:363-374 | keeps the process invariant, and with it that the loops asked and waiting are the configured ones in order, whether or not the loop's stop throws |
| ApplicationLifecycle.Shutdown.FindRejection | src/main.ts:375-379 | true if and only if some asked loop's promise was rejected |
| ApplicationLifecycle.Shutdown.Conclude | src/lifecycle/graceful-shutdown.ts:104-125 | sets the failure code if and only if the close or one of the asked stops failed |
| ApplicationLifecycle.Runtime.Start | src/lifecycle/machine-power-scheduler-runtime.ts:30-47 | however often it is called, the loop is started once |
| ApplicationLifecycle.Runtime.RequestFailureExitCode | src/lifecycle/machine-power-scheduler-runtime.ts:87-91 | the code is set even on the calls that skip setting it |
| ApplicationLifecycle.Runtime.ObserveCompletion | src/lifecycle/service-availability-reconciliation-scheduler-runtime.ts:57-103 | a stopped loop changes nothing; any other end sets the failure code and requests the shutdown |
| ApplicationLifecycle.RejectionsAreFound | src/main.ts:375-379 | looking through the asked loops misses no rejection |
| ApplicationLifecycle.Application.OnSignal | src/lifecycle/graceful-shutdown.ts:80-89 | keeps the process invariant and moves the whole process as the event does; reports the throw that goes to the handler for uncaught exceptions |
| ApplicationLifecycle.Application.OnServerError | src/main.ts:433-437 | keeps the process invariant and moves the whole process as the event does; reports the throw that goes to the handler for uncaught exceptions |
| ApplicationLifecycle.Application.OnUnhandledRejection | src/main.ts:389-393 | keeps the process invariant and moves the whole process as the event does; reports the throw that goes to the handler for uncaught exceptions |
| ApplicationLifecycle.Application.OnUncaughtException | src/main.ts:394-398 | keeps the process invariant and moves the whole process as the event does; its own throw ends the process |
| ApplicationLifecycle.Application.OnListening | src/main.ts:418-431 | keeps the process invariant and moves the whole process as the event does, so the theorems over all orders apply to the handlers |
| ApplicationLifecycle.Application.OnServiceCompletion | src/lifecycle/service-availability-reconciliation-scheduler-runtime.ts:40-78 | keeps the process invariant and moves the whole process as the completion event does |
| ApplicationLifecycle.Application.OnMachineCompletion | src/lifecycle/machine-power-scheduler-runtime.ts:35-65 | keeps the process invariant and moves the whole process as the completion event does |
| ApplicationLifecycle.Application.OnFinish | src/lifecycle/graceful-shutdown.ts:100-134 | the continuation sets the failure code if and only if a stop or the close failed |

## Left out

- JSON: numbers are kept as lexemes with "is finite" as a parameter, objects as fields in order of appearance, and JavaScript's stack depth is not modelled; section 7 decoding of a literal stands for `JSON.parse` of the slice.
- Configuration: SHA-256, input validation, environment rendering and the encoded size of a record are parameters; modes, owners and symbolic links are checks that may fail; the inspect, validate and verify actions, and two configuration processes at once, are not modelled; the operator's input file is taken not to change during a run.
- Identity: lines of other users in the account databases are not compared before and after a run, by the code or by the model; tools may do anything to the host, but probes change nothing and nobody else changes the account databases, homes and logs during a run; the login-log capture is one comparable value; journal fields other than the steps are reduced.
- Migration: a directory made, a receipt written and a candidate removed are all or nothing, where a recursive removal or a nested directory may in fact stop halfway; segments, hash chains and writer locks of the stores are specified by their effect; a source that changes and changes back between two digest checks is not modelled.
- Manifest: paths are strings of code points, directories do not appear in the tree, and decoding of the manifest text is left out.
- Refresh: a section is identified by its capability, taken to be unique.
- Admission, gate and routes: parsing, error mapping and responses between the acquire and release points are left out.
- Command line: only service start, stop and restart; the other commands repeat the same protocol.
- Shutdown: log lines other than the announcement of the shutdown are taken not to throw; the backup loop's completion is not observed by the process and appears only through its stop; the loops themselves are left out.
- Express, access assertions, dashboard views, environment parsing, bundle building and systemd units: thin wrappers or flat lists of checks that would only add easy members.
