# Pactile: a verified model of the command-line protocols

This project models the parts of the Pactile CLI that must not go wrong when a
run is interrupted, repeated or mixed with edits by hand, and proves what they
keep. `dafny verify dfyconfig.toml` checks all of it.

- **Onboarding** (`JsText`, `JsonString`, `InitMarker`, `MarkerFormat`, `Onboarding`,
  `OnboardingSafety`, `OnboardingStaging`, `OnboardingProgress`,
  `OnboardingFounding`, `InitCommand`). `pactile init` writes an intent marker, the identity, a staged
  task, renames the task into place and clears the marker. The disk is a record
  of atomic writes and the process may die between any two of them. `RunWrites`
  is what a run writes as a function of what it finds; the class
  `InitCommand.Project` makes exactly these writes step by step, with a log.
- **Migrations** (`Moves`, `Migrations`, `MigrationSafety`, `MigrationOutcome`). Classification,
  ordering and execution of renames and deletions over a tree of files and the
  table of their hashes; the class `Migrations.Checkout` executes them in place.
- **Template hashes** (`Ledger`, `LedgerSteps`, `LedgerRuns`). The hash table over every run of
  updates, workflow switches and edits; the class `Ledger.Installation`.
- **The `update.skip` list** (`Lines`, `SkipConfig`, `SkipEditor`, `SkipFile`).
  A hand-written reader and a hand-written editor over the same lines.
- **Canonical JSON** (`CanonicalJson`), over which planning receipts are
  fingerprinted: section 7 of RFC 8259 for strings.
- **Sessions** (`MarkedSections`, `Journal`, `Sessions`, `SessionRuns`,
  `SessionTables`, `FreshWorkspace`). Journals that rotate, and an index whose marked sections are
  rewritten; the class `Sessions.DeveloperDirectory`.
- **Releases** (`Decimal`, `Versions`, `Releases`, `LooseVersions`,
  `ManifestNames`, `SealedPublish`). Release
  versions against section 11 of Semantic Versioning 2.0.0, the three places that
  compute with them, and publication of sealed artifacts; the class
  `SealedPublish.ArtifactDirectory`.
- **Tasks** (`TaskRelation`, `TaskInvariants`, `TaskHistory`, `PairBound`). The two-sided
  Parent/Child relation, the integration queue and the early bound on conflict
  authorizations; the class `TaskRelation.TaskStore`.

JavaScript strings are sequences of UTF-16 code units (`Text`) wherever a limit,
an escape or a regular expression looks at single units, and Dafny strings where
only equality of contents matters (file contents and hashes of the ledger, task
ids). Clocks, prompts, child processes, the network and services whose code is
elsewhere come in as parameters: the outcomes of `createTaskKernel`,
`initializeDeveloper` and the lifecycle (`Outcome`), the answers of the user
(`Action`, `Choice`), the digest, the packing and inspecting of a tarball
(`Tools`), the commit graph (`History`).

## Where the code falls short of its promise

Each of these is proved, with the exact condition under which the promise holds.

- A developer name with U+2028 or U+2029 is accepted, but the identity file reads
  back cut off: a run interrupted after writing it can never be completed
  (`InitMarker.IdentityRoundTrip`, `OnboardingProgress.CrashAfterIdentity`).
- `--user` with a name of white space only passes the reconciliation and
  publishes a task for nobody (`OnboardingSafety.OneName`,
  `OnboardingProgress.BlankNamePublishes`).
- A name that is no path segment gets a task but no identity
  (`OnboardingProgress.UncutJoin`).
- An interrupted `init --user alice` is not completed by a bare `init` when git
  knows alice by another name: that name counts as a request for somebody else, and
  the run stops (`OnboardingProgress.RecordedConverges`,
  `OnboardingProgress.GitNameBlocks`).
- A founder whose bootstrap task is published without an identity, because it could
  not be written or the name is no path segment, never gets back to it: from then on
  one can only join (`OnboardingFounding.FoundingConverges`,
  `OnboardingFounding.UnidentifiedFounderMustJoin`).
- The directory a rename replaces is searched without its excluded
  sub-directories (tasks, spec, workspace and others), which are deleted with it:
  user files in them are lost. So is a file without an entry that equals a bundled
  template when an automatic rename lands on it (`MigrationSafety.ModifiedSurvives`,
  `MigrationSafety.ReplacedIsOverlooked`, `MigrationSafety.OverlookedTaskIsLost`).
- A trailing slash on the outer of two nested rename sources defeats the depth
  sort, and the execution stops half way (`MigrationSafety.DepthTellsApart`,
  `MigrationSafety.SortedMovesRun`).
- A file without a hash that is renamed onto a path with a left-over hash of the
  same content counts as unmodified from then on, and the next update replaces it
  without asking (`Moves.StatusKept`, `LedgerRuns.MigrationKeepsChange`).
- A workflow taken from the marketplace is adopted as native when its bytes equal
  a shipped template, and replaced by the next one (`LedgerRuns.SelectedWorkflowSurvives`).
- Removing the last entry of a skip list can expose a second list of the same
  block that was not read before, so that a second edit still removes something and
  a stale entry can be left (`SkipEditor.EditCommutes`, `SkipEditor.SecondEditIsNoOp`,
  `SkipEditor.PruningLeavesNoStale`, `SkipEditor.ExampleExposes`).
- Text before the status section that looks like a total is read instead of the
  total, for ever (`SessionRuns.TotalIsWritten`).
- A fresh journal ends with two newlines, so its first session can exceed the
  line bound by one without a rotation (`Journal.BoundHoldsIff`, `Journal.FirstSessionMayOverflow`).
- The second write of an unlinking is not rolled back when it fails
  (`TaskInvariants.UnlinkKeepsRelationIff`).
- The bump script goes from a release candidate back to a beta, which the release
  planner refuses (`Releases.BumpGoesBackward`).

## Model

| member | source | states |
|---|---|---|
| CanonicalJson.StableJsonTotal | packages/cli/src/commands/task-verify-plan.ts:444-450 | printing throws exactly on values that hold `undefined` |
| CanonicalJson.RoundTrip | packages/cli/src/commands/task-verify-plan.ts:444-457 | an independent decoder returns the printed value with its keys sorted and consumes the whole text |
| CanonicalJson.PrintsAlikeIffSame | packages/cli/src/commands/task-verify-plan.ts:444-461 | two values print alike exactly when they are equal up to the order of object keys: what a fingerprint over the text needs |
| CanonicalJson.SortedUnique | packages/cli/src/commands/task-verify-plan.ts:453-454 | the key order does not depend on the sorting algorithm |
| CanonicalJson.LiteralTexts | packages/cli/src/commands/task-verify-plan.ts:444-450 | null, booleans and integers are written as JSON writes them |
| CanonicalJson.ArrayText | packages/cli/src/commands/task-verify-plan.ts:451-452 | an array is its items in order, separated by commas, without spaces |
| CanonicalJson.ObjectText | packages/cli/src/commands/task-verify-plan.ts:453-457 | an object is its fields in the order of their keys, key and value separated by a colon |
| JsonString.QuoteRoundTrip | packages/cli/src/commands/init.ts:180 | `JSON.parse` undoes `JSON.stringify` on every string, unpaired surrogates included |
| JsonString.EscapeIsWellFormed | packages/cli/src/commands/init.ts:180 | the escaped text holds no unpaired surrogate, so a UTF-8 file keeps it |
| JsonString.EscapeIsMinimal | packages/cli/src/commands/init.ts:180 | only what must be escaped is, in the short form if there is one, otherwise by four lower-case digits |
| JsonString.PlainTextStands | packages/cli/src/commands/init.ts:180 | text without anything to escape stands as it is |
| InitMarker.MarkerRoundTrip | packages/cli/src/commands/init.ts:170-271 | whatever name was given, the reader accepts the marker written for it and recovers that name, or no name when the format cannot carry it |
| InitMarker.MarkerIsSmall | packages/cli/src/commands/init.ts:132-136 | a marker has at most 1600 bytes, below the reader's limit of 2048 |
| InitMarker.ByteLimitRedundant | packages/cli/src/commands/init.ts:150-168 | the limit on the bytes of a name follows from the limit on its length |
| InitMarker.IdentityRoundTrip | packages/cli/src/utils/developer.ts:6-37 | an identity just written reads back as the same name if and only if it holds no U+2028 or U+2029 |
| MarkerFormat.WhoIsRecorded | packages/cli/src/commands/init.ts:132-183 | which names a marker carries, what it then holds, and that it is read as just that name, or as nobody's |
| MarkerFormat.TheseAreRead | packages/cli/src/commands/init.ts:228-271 | these texts are read as markers and no others |
| MarkerFormat.SegmentIff | packages/cli/src/utils/developer.ts:16-24 | the names that make a directory, and so an identity |
| MarkerFormat.IdentityIsRead | packages/cli/src/utils/developer.ts:6-14 | the identity is what stands behind the first `name=` at the start of a line, up to the end of that line, trimmed |
| OnboardingSafety.EnsureMarkerAllowed | packages/cli/src/commands/init.ts:321-363 | announcing an intent never replaces a marker other than the anonymous one, even when two names share a slug |
| OnboardingSafety.EnsureMarkerEffect | packages/cli/src/commands/init.ts:321-363 | after success there is a valid marker for this developer, named if the format can carry the name; a valid marker stays valid |
| OnboardingSafety.RunAllowed | packages/cli/src/commands/init.ts:1337-2431 | every write of every run is one of the harmless ones: no identity, task or foreign marker is overwritten, nothing unfinished is renamed into place |
| OnboardingSafety.CrashSafety | packages/cli/src/commands/init.ts:1184-1228 | after any runs, each cut off between any two writes: an identity a joiner run wrote is backed by its marker or its finished task, no published task is partial, user files and foreign markers are untouched |
| OnboardingSafety.OneName | packages/cli/src/commands/init.ts:1416-1482 | the name a run goes on with agrees with the identity and all valid markers if and only if the requested name is not white space only or nobody is named there |
| OnboardingStaging.UncutRunTidies | packages/cli/src/commands/init.ts:440-546 | a run that nothing interrupts leaves the staging area as it found it: what it staged is published or removed, a staging root it made is gone, one that was there stays with its left-overs |
| OnboardingStaging.LeftOversStay | packages/cli/src/commands/init.ts:440-546 | after any cut-off runs every earlier left-over is still there, and each run has added at most one |
| OnboardingProgress.RunStaysOrderly | packages/cli/src/commands/init.ts:1184-1228 | whoever a run is for and wherever it is cut off, at most one onboarding is pending afterwards, and its marker is valid |
| OnboardingProgress.GoodRun | packages/cli/src/commands/init.ts:1398-1515 | a run whose steps all succeed joins the developer it acts for if and only if the identity is there or can carry the name and no unfinished directory is in the way; acting for nobody it writes nothing |
| OnboardingProgress.Convergence | packages/cli/src/commands/init.ts:1398-1515 | the same after any runs, for any developers, each cut off between any two writes |
| OnboardingProgress.RecordedConverges | packages/cli/src/commands/init.ts:1398-1482 | once an intent is recorded a good run ends that onboarding if and only if the option, or else the git name, is absent or that very name, and the task can be published |
| OnboardingProgress.StrangersWriteNothing | packages/cli/src/commands/init.ts:1442-1469 | a run for anybody else leaves a recorded intent and a finished onboarding exactly as they are |
| OnboardingProgress.OneAtATime | packages/cli/src/commands/init.ts:1416-1482 | whatever runs are cut off, there is at any time one developer who is recorded or has joined, or none |
| OnboardingProgress.AnonymousConverges | packages/cli/src/commands/init.ts:321-363 | a marker without a name is upgraded and its onboarding ends if and only if identity or request name a developer whose marker stands at that very place |
| OnboardingProgress.GitNameBlocks | packages/cli/src/commands/init.ts:1398-1413 | a concrete interrupted run that a run under another git name does not complete |
| OnboardingProgress.UncutJoin | packages/cli/src/commands/init.ts:1184-1228 | an uninterrupted first join succeeds if and only if the run asks for somebody, the identity file can carry the name and no unfinished directory is in the way, whether or not the marker can carry it |
| OnboardingProgress.ContradictionIsFinal | packages/cli/src/commands/init.ts:1442-1469 | when identity and marker name different people no run ever writes again |
| OnboardingProgress.CrashAfterIdentity | packages/cli/src/commands/init.ts:1442-1482 | a crash right after the identity write is recovered from if and only if the next run names the developer or nobody, the name holds no U+2028 or U+2029 and no unfinished directory is in the way; with such a character every later run refuses |
| OnboardingProgress.BlankNamePublishes | packages/cli/src/commands/init.ts:1432-1434 | a blank `--user` publishes a finished task without any identity, whoever the markers name |
| OnboardingFounding.GoodFounding | packages/cli/src/commands/init.ts:2338-2428 | a good run that names somebody finishes a founding that is under way if and only if the identity is that name or can be |
| OnboardingFounding.FoundingConverges | packages/cli/src/commands/init.ts:2338-2428 | after any cut-off runs, with any outcomes, the founding can still be finished if and only if no bootstrap task was published without an identity; a good run with a name then finishes it under the condition above, one without a name finishes nothing |
| OnboardingFounding.UnidentifiedFounderMustJoin | packages/cli/src/commands/init.ts:2338-2428 | a founding run goes astray if and only if its identity could not be written or is no path segment, and then leaves the state from which one joins |
| InitCommand.Project.EnsureInitTaskMarker | packages/cli/src/commands/init.ts:321-363 | makes exactly the writes, and returns the answer, that the lemmas above are about |
| InitCommand.Project.ClearInitTaskMarker | packages/cli/src/commands/init.ts:310-319 | removes a valid marker and nothing else |
| InitCommand.Project.InitializeIdentity | packages/cli/src/utils/developer.ts:16-37 | writes the identity only for a valid name and only when none is readable |
| InitCommand.Project.WriteTaskSkeleton | packages/cli/src/commands/init.ts:431-548 | stages, fills, publishes or abandons a task by exactly the writes of the model |
| InitCommand.Project.HandleReinit | packages/cli/src/commands/init.ts:1038-1222 | the re-init path makes exactly the writes of the model |
| InitCommand.Project.RunFull | packages/cli/src/commands/init.ts:2338-2428 | the dispatch to bootstrap, joiner or plain identity makes exactly the writes of the model |
| InitCommand.Project.Init | packages/cli/src/commands/init.ts:1337-2431 | a whole run makes exactly the writes of `RunWrites`, in order, so crash safety holds of its every prefix |
| Moves.FateIsOneShot | packages/cli/src/commands/update.ts:1689-1727 | where sequential moves take a path is where its longest matching source takes it |
| Moves.PlanIsOneShot | packages/cli/src/commands/update.ts:1689-1727 | running all moves equals one simultaneous map of the contents, and nothing else appears |
| Moves.HashFollowsFate | packages/cli/src/utils/template-hash.ts:196-212 | the entry of a path ends up where the moves take its file, as `HashAt` says for paths without an entry |
| Moves.StatusKept | packages/cli/src/utils/template-hash.ts:196-262 | a moved file keeps its modified or unmodified status, if and only if it is not an unhashed file renamed onto a left-over hash of its own content |
| Moves.RunsIffOrdered | packages/cli/src/commands/update.ts:1628-1727 | with sources there and targets apart, the moves run to the end if and only if none takes away the source of a later one |
| Migrations.ClassifyMigrations | packages/cli/src/commands/update.ts:1341-1433 | every item lands, in order, in the bucket the file states call for |
| Migrations.EveryItemHasABucket | packages/cli/src/commands/update.ts:1341-1433 | the buckets and the dropped items together are all items |
| Migrations.SortIsStable | packages/cli/src/commands/update.ts:1628-1643 | the sort loses nothing, puts deeper directories first and files last, and keeps equals in order |
| Migrations.StableSortIsUnique | packages/cli/src/commands/update.ts:1628-1643 | any stable sort by this comparison returns the same list |
| Migrations.PartitionMigrations | packages/cli/src/commands/update.ts:1924-1952 | fails exactly when an item crosses the two roots; otherwise gives each root its items in order |
| Migrations.Checkout.RenameHashes | packages/cli/src/commands/update.ts:1704-1725 | rewriting the table key by key relocates it as one move does |
| Migrations.Checkout.ExecuteMigrations | packages/cli/src/commands/update.ts:1652-1814 | the in-place execution is the run of the planned moves, with their counts; when one fails, files, directories and hashes are left as that move leaves them |
| MigrationSafety.DepthTellsApart | packages/cli/src/commands/update.ts:1628-1643 | of two nested sources the inner one sorts first, if and only if the outer one is not written with a trailing slash above a direct child |
| MigrationSafety.SortedMovesRun | packages/cli/src/commands/update.ts:1628-1727 | a whole sorted list of automatic items runs to the end if and only if none takes the source of another that the sort does not place before it |
| MigrationSafety.ExecutionCompletes | packages/cli/src/commands/update.ts:1652-1814 | a sound set of migrations runs to its end in an order that does not show in the result |
| MigrationSafety.ModifiedSurvives | packages/cli/src/commands/update.ts:1341-1433 | content that counts as modified survives at its path, its new path or in a backup, unless deleted on purpose, if and only if nothing else is put in its place |
| MigrationSafety.ReplacedIsOverlooked | packages/cli/src/commands/update.ts:1232-1310 | for a file that is no bundled template, with the names of backups free, this means lying in an unsearched part of a replaced directory |
| MigrationSafety.SurvivorIsThere | packages/cli/src/commands/update.ts:1652-1814 | what survives in that sense is a file with the same bytes after the run |
| MigrationSafety.OverlookedTaskIsLost | packages/cli/src/commands/update.ts:1232-1310 | a concrete tree in which a task written by the user is destroyed without a question |
| MigrationSafety.EveryItemIsCounted | packages/cli/src/commands/update.ts:1936-1964 | renamed, deleted, skipped and conflicting items together are all classified ones, also when split by root and merged |
| MigrationOutcome.BucketHasItsReason | packages/cli/src/commands/update.ts:1341-1433 | what is missing or protected is skipped; a conflict is about content at the target that the user made, a question about a source the user modified, and what is done unasked is about neither |
| MigrationOutcome.NotReadyIsNotDone | packages/cli/src/commands/update.ts:1355-1373 | a protected path is never renamed or deleted, nor its content, unless an item moves or replaces a directory above it |
| MigrationOutcome.AutoOutcome | packages/cli/src/commands/update.ts:1671-1738 | an automatic item takes file and entry to its target, or away, and a directory item everything below it that no deeper item takes |
| MigrationOutcome.SkipAllLeavesModified | packages/cli/src/commands/update.ts:1741-1812 | with `--skip-all` the tree is that of the automatic items alone, every modified file stays, and all of them count as skipped |
| MigrationOutcome.ForceCarriesOut | packages/cli/src/commands/update.ts:1741-1812 | with `--force` every modified file is renamed or deleted, no copy is made, and all of them count as such |
| MigrationOutcome.AnswersDecide | packages/cli/src/commands/update.ts:1741-1812 | with neither, every modified file is left, carried out or copied and carried out as answered, and nothing aside of the items changes |
| MigrationOutcome.CountsAre | packages/cli/src/commands/update.ts:1652-1814 | the counts are those of the items renamed, deleted, left and in conflict |
| MigrationOutcome.TreeStaysTree | packages/cli/src/commands/update.ts:1671-1800 | every move takes directories along and makes the missing ones: each file keeps its directories and none becomes one |
| MigrationOutcome.RefusalLeaves | packages/cli/src/commands/update.ts:1671-1700 | a refused operation leaves all entries, and all files unless it is a directory rename, which has cleared its target |
| MigrationOutcome.PartitionSeparates | packages/cli/src/commands/update.ts:1924-1952 | no item of either part leaves its root, and together the parts are all items |
| Ledger.Installation.AnalyzeChanges | packages/cli/src/commands/update.ts:853-921 | the five lists are exactly the templates of each kind of change, in order |
| Ledger.Installation.UpdateHashes | packages/cli/src/utils/template-hash.ts:152-166 | exactly the tracked paths given get the hash of their new content |
| Ledger.Installation.Update | packages/cli/src/commands/update.ts:2963-3071 | one update leaves the files and hashes that `LedgerSteps.UpdateAt` describes path by path |
| Ledger.Installation.WriteWorkflow | packages/cli/src/commands/workflow.ts:159-227 | one switch leaves the workflow, its entry and its copy as `LedgerSteps.SwitchAt` describes |
| LedgerSteps.UpdateAt | packages/cli/src/commands/update.ts:853-921 | a file the user deleted stays away, a new one is installed, an untouched one is brought up to date, a modified one is overwritten, copied beside or left as chosen; entries accordingly |
| LedgerSteps.UpdateElsewhere | packages/cli/src/commands/update.ts:2974-3071 | no other file and no other entry changes |
| LedgerSteps.SwitchAt | packages/cli/src/commands/workflow.ts:159-227 | a switch installs the workflow if and only if there was none, it was untouched, or force or the answer allows it; otherwise file and entry stay; a copy is written if and only if asked for |
| LedgerSteps.LfJoins | packages/cli/src/utils/template-hash.ts:51-54 | a Windows line end is hashed as a plain one, wherever it stands |
| LedgerSteps.LfKeeps | packages/cli/src/utils/template-hash.ts:51-54 | a text without Windows line ends is hashed as it is |
| LedgerRuns.HashesStayMeaningful | packages/cli/src/commands/update.ts:3043-3071 | over every run, migrations included, a stored hash is the hash of official bytes once written to or found at its path, or at the path from which moves brought the file |
| LedgerRuns.AutoUpdateReplacesOfficial | packages/cli/src/commands/update.ts:853-921 | whatever happened since installation, migrations included, an unasked replacement replaces bytes that were official up to line ends, there or where the file came from |
| LedgerRuns.UserBytesStay | packages/cli/src/commands/update.ts:2974-3014 | without an explicit overwrite neither an update nor a switch nor anything else changes a file whose bytes were never official there or where it came from |
| LedgerRuns.MigrationKeepsChange | packages/cli/src/utils/template-hash.ts:196-212 | what an update decides about a file is unchanged by a migration that moves it, if and only if it already has the shipped bytes or is not an unhashed file renamed onto a left-over hash of its own content |
| LedgerRuns.StepOfWorkflow | packages/cli/src/commands/workflow.ts:143-157 | what one event does to a selected workflow and to its hash entry |
| LedgerRuns.SelectedWorkflowSurvives | packages/cli/src/commands/workflow.ts:79-227 | a selected non-native workflow survives all later updates nobody overrides, if and only if no update ships its very bytes before a later one ships others |
| SkipConfig.LoadUpdateSkipPaths | packages/cli/src/commands/update.ts:431-492 | the two-flag loop reads what the three-mode scanner reads |
| SkipFile.WrittenListReads | packages/cli/src/commands/update.ts:431-502 | a list as people write it, its entries bare or quoted, is read as those entries in order |
| SkipFile.CommentIsSkipped | packages/cli/src/commands/update.ts:431-492 | a comment at the margin changes nothing, wherever it stands |
| SkipFile.SeparatorEndsList | packages/cli/src/commands/update.ts:494-502 | an entry with a line or paragraph separator inside is none, so the list ends there |
| SkipEditor.ItemsOnly | packages/cli/src/commands/update.ts:544-590 | dropping item lines removes exactly those entries and leaves the scanner's mode unchanged |
| SkipEditor.EditCommutes | packages/cli/src/commands/update.ts:544-635 | the edited file reads as the old list without the removed entries, in order, if and only if an entry remains, nothing was removed, or no second list was hidden |
| SkipEditor.OnlyEntriesGo | packages/cli/src/commands/update.ts:544-635 | a line that goes is a removed entry or, when none is left, one of the two keys above it |
| SkipEditor.TheseLinesGo | packages/cli/src/commands/update.ts:544-628 | exactly these lines go: the removed entries and, when none is left, the header above them, and with it the `update:` of the block unless the block has another key |
| SkipEditor.EditedReads | packages/cli/src/commands/update.ts:544-635 | the edited file reads as the remaining entries or, when none remains, as what the removed header hid |
| SkipEditor.UneditedIff | packages/cli/src/commands/update.ts:604 | the file is left alone if and only if it holds no entry to remove |
| SkipEditor.SecondEditIsNoOp | packages/cli/src/commands/update.ts:544-635 | removing the same entries again changes nothing if and only if no entry that came up is among them |
| SkipEditor.PruningLeavesNoStale | packages/cli/src/commands/update.ts:511-535 | pruning the stale entries leaves every other one, and leaves no stale one if and only if no stale entry came up |
| SkipEditor.ExampleExposes | packages/cli/src/commands/update.ts:600-635 | a concrete file in which removing the last entry brings up another one |
| SkipFile.RemoveUpdateSkipPaths | packages/cli/src/commands/update.ts:544-635 | the two loops over the keep array compute the edit and the removed entries |
| SkipFile.FileEditCommutes | packages/cli/src/commands/update.ts:544-635 | the same if-and-only-if for whole files, whichever way their lines end |
| SkipFile.EditKeepsText | packages/cli/src/commands/update.ts:554-633 | the lines of the edited text are the kept lines of the file, they end as its lines do, and a line end at its end stays |
| SkipFile.NoReturnAppears | packages/cli/src/commands/update.ts:554-633 | a file without carriage returns gets none |
| MarkedSections.ReplaceThenFind | packages/cli/src/commands/session.ts:113-125 | a rewritten section stands at the same place and reads back as the new body |
| MarkedSections.ReplaceKeepsOther | packages/cli/src/commands/session.ts:113-125 | a disjoint section keeps its body and its place in the order |
| MarkedSections.ReplaceTwice | packages/cli/src/commands/session.ts:113-125 | the last rewriting wins |
| MarkedSections.ReplaceCommutes | packages/cli/src/commands/session.ts:113-125 | rewritings of disjoint sections commute |
| Journal.NormalisedCounts | packages/cli/src/commands/session.ts:127-131 | Windows line ends do not change the count |
| Journal.LineCountOfAppend | packages/cli/src/commands/session.ts:127-131 | appending to a text with k trailing newlines adds the lines of the addition and k - 1 |
| Journal.HighestComesLast | packages/cli/src/commands/session.ts:169-177 | the numeric order ignores where the listing puts a file |
| Journal.RotatedNameIsFresh | packages/cli/src/commands/session.ts:234-238 | a rotation never lands on an existing journal |
| Journal.NothingIsLost | packages/cli/src/commands/session.ts:234-244 | the journals in numeric order hold all earlier text, then what is new, and nothing else |
| Journal.BoundHoldsIff | packages/cli/src/commands/session.ts:234-244 | a journal appended to keeps the bound if and only if its trailing newlines leave room |
| Journal.EverySessionSettles | packages/cli/src/commands/session.ts:232-244 | every session leaves one trailing newline, and from then on the bound holds without a rotation |
| Journal.FirstSessionMayOverflow | packages/cli/src/utils/developer.ts:27-30 | the first session in a fresh journal can exceed the bound by exactly one line |
| Sessions.DeveloperDirectory.Add | packages/cli/src/commands/session.ts:144-290 | one call changes journal and index as the model says, or throws and changes neither |
| Sessions.RewriteReadsBack | packages/cli/src/commands/session.ts:276-288 | after the three nested replacements every section reads back as exactly its new body |
| Sessions.RewriteIsPieces | packages/cli/src/commands/session.ts:276-288 | in whatever order the sections stand, the new index is the four pieces of text around them, unchanged, with the framed bodies between |
| Sessions.RewriteForgets | packages/cli/src/commands/session.ts:276-288 | writing the sections again gives what writing them once gives: earlier contents leave no trace |
| SessionRuns.HistoryReadsBack | packages/cli/src/commands/session.ts:263-274 | the history reads back as the new row above all old ones |
| SessionRuns.TotalIsWritten | packages/cli/src/commands/session.ts:181-182 | the total read after a session is one more than before, if and only if no text before the status looks like a total |
| SessionRuns.SessionStep | packages/cli/src/commands/session.ts:144-290 | one session: total plus one, its row on top, no journal text lost, and the workspace again ready |
| SessionRuns.SessionsAddUp | packages/cli/src/commands/session.ts:144-290 | after k sessions the total has grown by k and the history shows exactly their rows, newest first, above the old ones |
| SessionTables.SessionShows | packages/cli/src/commands/session.ts:234-288 | after a session status and the one active row name the newest journal, which ends with the entry; every journal has its row with its length, and the new row stands on top of the history |
| SessionTables.RowCells | packages/cli/src/commands/session.ts:267-274 | the columns of the history are number, date, title, commits and branch |
| SessionTables.EntryShows | packages/cli/src/commands/session.ts:232 | every text of the session stands in the entry under its own heading |
| SessionTables.HeaderShows | packages/cli/src/commands/session.ts:239-240 | a rotated journal says whose it is, which part, what it continues, its limit and since when |
| SessionTables.JournalNames | packages/cli/src/commands/session.ts:169-175 | the journals are the files `journal-<digits>.md`, leading zeros included; new ones are named without |
| SessionTables.TotalAtIff | packages/cli/src/commands/session.ts:181-182 | a total stands behind its key if and only if a number follows after white space only |
| FreshWorkspace.FreshIsReady | packages/cli/src/utils/developer.ts:25-34 | the workspace written for a new developer is ready, with total 0 and no rows |
| FreshWorkspace.FromTheFirstSession | packages/cli/src/commands/session.ts:144-290 | a new developer's index after k sessions: total k and exactly their k rows, newest first |
| Versions.ParseOfPrint | packages/cli/scripts/release-guard.ts:105-123 | a printed version parses as itself |
| Versions.PrintOfParse | packages/cli/scripts/release-guard.ts:18-19 | no two accepted texts mean the same version |
| Versions.OrderIsTotal | packages/cli/scripts/release-guard.ts:125-143 | the comparison is a strict total order and returns 0 exactly for identical texts |
| Versions.FollowsSemVer | packages/cli/scripts/release-guard.ts:125-143 | it is the precedence of section 11 of Semantic Versioning 2.0.0, defined over lists of identifiers |
| Releases.NamedReleaseFailsIff | packages/cli/scripts/release.ts:41-88 | a named type fails if and only if it promotes a stable version or takes a release candidate back to beta |
| Releases.ReleaseIsNewer | packages/cli/scripts/release.ts:41-88 | every success is a valid, strictly newer version |
| Releases.ReleasesNeverRepeat | packages/cli/scripts/release.ts:41-88 | no series of releases visits a version twice |
| Releases.ReleaseIsNearest | packages/cli/scripts/release.ts:41-88 | a named release takes the nearest version of all that its type asks for |
| Releases.GivenIsTaken | packages/cli/scripts/release.ts:41-88 | a version given as such is taken if and only if it is newer, and stable or a beta |
| Releases.SeriesFollows | packages/cli/scripts/release.ts:41-88 | each version of a series is what its type makes of the one before; the series ends early only where that fails |
| Releases.LastNumberIs | packages/cli/scripts/release.ts:66-71 | the number behind the last dot is the prerelease number |
| Releases.LooseIsParse | packages/cli/scripts/bump-versions.ts:42-51 | the looser pattern of the bump script sees the same version in an accepted text |
| LooseVersions.ShapeIsRead | packages/cli/scripts/bump-versions.ts:42-51 | every text of the shape `x.y.z` or `x.y.z-tail` is read, leading zeros and any tail included |
| LooseVersions.ReadHasShape | packages/cli/scripts/bump-versions.ts:42-51 | nothing else is |
| LooseVersions.BetaBumps | packages/cli/scripts/bump-versions.ts:53-72 | the beta number goes up on the beta track; from anything else the track starts at 0, on the next patch if the version was stable |
| LooseVersions.GivenIsBumpedTo | packages/cli/scripts/bump-versions.ts:76-83 | a version given as such is taken unless it is the current one |
| Releases.BumpAgreesWithPlan | packages/cli/scripts/bump-versions.ts:53-104 | wherever the planner succeeds the bump script returns the same text |
| Releases.BumpGoesBackward | packages/cli/scripts/bump-versions.ts:53-72 | from every release candidate the bump script returns an older beta, which the planner refuses |
| Releases.CopyManifests | packages/cli/scripts/copy-templates.ts:67-82 | the loop copies exactly the shipped names, in order |
| Releases.ShipsFromFirst | packages/cli/scripts/copy-templates.ts:67-82 | a manifest ships if and only if its version is not older than 0.6.0-beta.1 |
| ManifestNames.NameIsRead | packages/cli/scripts/copy-templates.ts:68-74 | a name of the shape `x.y.z.json` or `x.y.z-stage.n.json` is read as its parts |
| ManifestNames.ReadIsName | packages/cli/scripts/copy-templates.ts:68-74 | nothing else is |
| ManifestNames.ShippedAre | packages/cli/scripts/copy-templates.ts:67-82 | of a listing exactly the shipped names are copied, each as often as listed and in its order |
| ManifestNames.ManifestIsCopied | packages/cli/scripts/copy-templates.ts:67-82 | a release's manifest is copied if and only if it is listed and its version is not older than 0.6.0-beta.1 |
| SealedPublish.MutualAncestryIsEquality | packages/cli/scripts/release-guard.ts:235-246 | in an acyclic history mutual ancestry holds if and only if the commits are equal |
| SealedPublish.ReopenedIsSealed | packages/cli/scripts/release-validation.ts:467-591 | whatever was done to the directory, a manifest and package that are accepted are the sealed ones |
| SealedPublish.PreparesIff | packages/cli/scripts/release-validation.ts:330-400 | exactly a package that passes inspection, on a released channel and under that channel's npm tag, is sealed, with this manifest in this file |
| SealedPublish.PublishesIff | packages/cli/scripts/publish-packages.ts:316-537 | publication goes through if and only if checkout, tag and npm tag are the sealed ones and both sealed files are intact |
| SealedPublish.PublishesWhatWasSealed | packages/cli/scripts/publish-packages.ts:390-537 | what reaches `npm publish` is the tarball inspected at preparation, under the npm tag and the remote branch tip of its version's channel; for a release it is the commit of the tag that names the version |
| SealedPublish.RehearsesOnItsBranch | packages/cli/scripts/release-guard.ts:255-275 | a rehearsal is made on the branch its version is released from, at its remote tip |
| SealedPublish.PublishesIffUntouched | packages/cli/scripts/publish-packages.ts:316-537 | from the same checkout publication goes through if and only if both sealed files hold their sealed bytes |
| SealedPublish.ArtifactDirectory.PrepareReleaseArtifacts | packages/cli/scripts/release-validation.ts:330-400 | sealing leaves exactly tarball and manifest in the directory and returns the receipt of the manifest |
| SealedPublish.ArtifactDirectory.RunPreparedPublish | packages/cli/scripts/publish-packages.ts:390-537 | publication decides as the model, in the order of the checks, and writes nothing |
| TaskRelation.TaskStore.EnsureTaskMap | packages/cli/src/pactile/task/task-map.ts:127-136 | the map gets an open entry per missing child and loses entries of strangers |
| TaskRelation.TaskStore.LinkChild | packages/cli/src/commands/task.ts:1196-1261 | two writes and the map, with the first write rolled back when the second fails |
| TaskRelation.TaskStore.UnlinkChild | packages/cli/src/commands/task.ts:1263-1312 | two writes and the map, without rollback |
| TaskRelation.TaskStore.UpdateChildState | packages/cli/src/commands/task.ts:1571-1613 | the entry's state and the queue, changed together or not at all |
| TaskInvariants.LinkKeepsRelation | packages/cli/src/commands/task.ts:1196-1261 | a link keeps the two-sided relation, also when its second write fails |
| TaskInvariants.UnlinkKeepsRelationIff | packages/cli/src/commands/task.ts:1263-1312 | an unlinking keeps it if and only if its second write succeeds |
| TaskInvariants.RunsKeepConsistency | packages/cli/src/commands/task.ts:1196-1613 | over every run: child lists and parents agree, at most one parent, no self-link or two-cycle, one entry per child, a duplicate-free queue of exactly the integrating children within the merge limit |
| TaskInvariants.UnlinkUndoesLink | packages/cli/src/commands/task.ts:1196-1312 | unlinking a new link restores every record and the map of the same children |
| TaskInvariants.StateKeepsMap | packages/cli/src/pactile/task/task-map.ts:138-171 | every permitted change of state keeps queue and states in step and the limit |
| TaskInvariants.QueueInEntryOrder | packages/cli/src/commands/task.ts:1580-1586 | over every run of links, unlinkings and changes of state, a queue holds its children in the order of their last entry |
| TaskInvariants.ThroughIff | packages/cli/src/commands/task.ts:1731-1738 | the chain of three transitions goes through if and only if the child is under review and the queue has room, and leaves the queue as it was |
| TaskHistory.TransitionsAre | packages/cli/src/pactile/task/task-map.ts:138-171 | which states may follow which, and that an accepted report is what the map then holds |
| TaskHistory.LinksIff | packages/cli/src/commands/task.ts:1196-1261 | between which tasks a link is made, that it is then there on both sides and in the map, and that no other task changes |
| TaskHistory.UnlinksIff | packages/cli/src/commands/task.ts:1263-1312 | which links are undone, that they are then gone on both sides and from the map, and that no other task changes |
| TaskHistory.NothingSkipsReview | packages/cli/src/commands/task.ts:1452-1613 | over every run an integrated child was last reported as under review, accepted, integrating and integrated, in that order |
| PairBound.ReadBounded | packages/cli/src/commands/task-schedule.ts:86-146 | the read loop returns the whole file if and only if it is within 64 KiB, however the reads are cut up |
| PairBound.KeyIsPair | packages/cli/src/commands/task-schedule.ts:217 | two keys are equal if and only if the unordered pairs are |
| PairBound.ParseAuthorizations | packages/cli/src/commands/task-schedule.ts:148-237 | a list is accepted if and only if it is not empty and every entry passes its own checks: the early bound decides nothing |
| PairBound.AllPassIff | packages/cli/src/commands/task-schedule.ts:167-222 | every entry passes if and only if each is about two different candidates and no two are about the same unordered pair |
| PairBound.PairsBound | packages/cli/src/commands/task-schedule.ts:165-166 | n ids have at most n(n-1)/2 unordered pairs |
| PairBound.PassingListIsShort | packages/cli/src/commands/task-schedule.ts:165-222 | a list whose entries all pass is within the bound, even when candidates repeat |

## Left out

- OnboardingSafety.CrashSafety: single writes are atomic (file writes, renames, removal of a directory), symbolic links and races with other processes are not modelled, `slugifyDeveloperName` is any function that ignores surrounding white space, the kernel and the lifecycle either succeed or fail as a whole.
- OnboardingProgress.Convergence: only non-interactive runs, from a disk with at most one pending onboarding, its marker valid; blank names are `OnboardingProgress.BlankNamePublishes`; re-init with the interactive menu and the import of older projects are not modelled.
- OnboardingProgress.OneAtATime: for names that marker and identity file can carry (`Durable`); a marker without a name is the case of `OnboardingProgress.AnonymousConverges`.
- InitCommand.Project.InitializeIdentity: the journal and the index written next to the identity are not part of that disk; they are modelled as text in `FreshWorkspace`.
- CanonicalJson.PrintsAlikeIffSame: numbers are integers; decimal fractions and exponents are not modelled.
- Moves.StatusKept: blocks inside `AGENTS.md`, which are hashed without the rest of the file, are not modelled; neither are file permissions.
- Migrations.Checkout.ExecuteMigrations: the clean-up of empty directories afterwards (`cleanupEmptyDirs`) is not modelled; prompts are a list of answers; of the ways an operation can fail those are modelled that the tree decides (a missing source, a directory moved into itself).
- MigrationSafety.ModifiedSurvives: for sound sets of migrations (distinct sources, targets apart from each other and from sources); an existing `.backup` file is overwritten by the program and counts as replaced.
- MigrationOutcome.AnswersDecide: like all outcomes of migrations for sound sets; unsound ones are the subject of `MigrationSafety.SortedMovesRun` and `Moves.RunsIffOrdered`.
- Ledger.Installation.Update: one update is one step, without the staging of canonical and live files and without the `update.skip` filter, which only takes templates away; `projected` and `untracked` paths are parameters, and so is what options and prompts choose for a modified file.
- LedgerSteps.UpdateAt: for releases whose paths are distinct and none of which is the `.new` copy of another.
- LedgerRuns.HashesStayMeaningful: the digest is injective where a lemma says so; a migration is an event that stops at the first operation it cannot do; the directories it finds are a parameter of the event.
- SkipEditor.EditCommutes: this and what follows from it, on lines and on files, is for lines indented by spaces and tabs, as YAML has them; other white space at the start of a line is accepted by one of the program's patterns and not by another.
- SessionRuns.SessionsAddUp: rows hold no line break and no marker (`IsGood`); the choice of package and branch, the optional commit and a failure between the two file writes are not modelled.
- FreshWorkspace.FreshIsReady: for names without `<` and `*`; a name that spells a marker or a total is the case `SessionRuns.TotalIsWritten` excludes.
- Versions.OrderIsTotal: version numbers are unbounded; the program's are doubles, exact below 2^53.
- SealedPublish.PublishesWhatWasSealed: `sha256` is injective and manifests decode as encoded; edits of the directory while the publishing run itself is under way, the tag taken from the environment, the validation suite and the check whether the registry already has the version are not modelled.
- TaskRelation.TaskStore.LinkChild: a crash between its two writes is not modelled, only a failing second write; longer cycles than two are not rejected by the program.
- TaskRelation.TaskStore.UpdateChildState: evidence, references, files and dependencies are one flag; the kernel's own record of the state is not modelled.
- PairBound.ParseAuthorizations: the checks of the other fields of an entry are one flag; the file is decoded already.
- `persistPlanningReceipt`, `sameBinding`, `extractConfigSection`, `applyConfigSectionsAdded`, `collectSafeFileDeletes`, `executeSafeFileDeletes` and `taskKernelIdForDirectoryName` would only add easy members.
- The task kernel, the scheduler, the lifecycle service and work trees are not part of this model.
