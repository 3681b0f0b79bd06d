# A verified model of the athos-kubernetes operator core

This project models, in Dafny 4.11, the parts of the athos PostgreSQL operator whose behaviour is
hard to see from one function: the two reconcilers with everything that can happen to them between
and during their API calls, the rollout planner, the merge-patch writer, the condition lists, the
in-place algorithms, and the small languages the operator reads and writes (connection strings,
multi-document manifests, durations, image references, cron expressions, SQL identifiers,
StatefulSet ordinals).

`dafny verify dfyconfig.toml` checks the whole project.

## How the model is built

* Text is a sequence of Unicode code points; `Text`, `Words`, `Decimal` and `Int64` hold the parts
  of the Go standard library that the models share: trimming, searching, `strings.Fields`, `%d`,
  `strconv.Atoi`, 64-bit wrap-around and truncating division. Where Go indexes bytes in a way that
  differs from code points, the module says so.
* Each reconciler appears twice. `ClusterMachine` and `BackupMachine` are step machines: one step is
  one API call, and before every call the outside may edit the objects. A call can be carried out,
  be rejected, or be carried out with its answer lost; the operator can crash between any two calls.
  `ClusterController` and `BackupController` are the controllers in their own form, methods that
  update the object they hold and issue calls; `Reconcile` is proved to be exactly one pass of the
  machine, for every behaviour of the outside. `ClusterSafety` proves what holds over every history.
* Loops and updates in place are loops, arrays and fields here too; every such method is proved
  against a function or a relation, about which the laws are then stated.
* What a main operation computes is stated twice: by the function its method is proved against, and
  by a law about that function in plain terms (values, constants and fields written out).
* Every proof by induction is written out; none relies on automatic induction.
* Errors are `Err` or `None`; their texts are not modelled. Clock readings, generated passwords,
  the Unicode letter and digit classes and the answers of the API server are parameters.

## Where a promise of the code or its comments does not hold

Each has a lemma with a concrete failing input or the whole failing family, and a lemma that says
exactly when the promise holds.

* Updates copy chosen fields into existing objects, so an edit of the storage, or of the version as
  far as it goes into labels, never reaches an object that exists, and the status still reports the
  new generation as observed (`ClusterSafety.WhollyBuilt`, `ClusterSafety.GrownStorageStaysSmall`).
* A merge patch does not reproduce the modified object when a written value holds a null, or when
  two different values print alike (`Patcher.LostChanges`, `Patcher.PatchReproducesModified`).
* A backup can finish without a start time (`BackupMachine.CompletedWithoutStart`,
  `BackupMachine.StartTimeMeansWritten`).
* With two pending primaries, `Plan` leaves out all but the last of the list, although a rollout
  hands out all of them (`Rollout.SecondPrimaryIsPlannedAlone`, `Rollout.PlanIsOrder`,
  `Rollout.FinishedRollout`).
* The connection-string reader does not undo the writer's quote escaping
  (`ConnStrRoundTrip.QuoteCutsValue`, `ConnStrExact.RoundTrip`).
* Joining and splitting documents loses blank documents, carriage returns at line ends and bodies
  with separator lines (`ManifestRoundTrip.JoinThenSplit`); and re-assembling a text is idempotent
  only when no line that goes into a document ends in two carriage returns
  (`ManifestRoundTrip.TwoReturnsShrink`, `ManifestReassembly.ReassemblyIsExact`).
* `Format` prints one minus sign for all parts, `Parse` applies it to the first part only, and the
  smallest duration prints two signs (`DurationFormat.NinetyMinutesFail`,
  `DurationFormat.FormatThenParse`).
* An unsubscribe closure can do nothing or remove another handler
  (`EventBus.ClosuresGoStale`, `EventBus.UnsubscribeRemovesOwn`).
* Printing an image reference loses a tag beside a digest, and a colon in a tag or an at-sign in a
  repository is not read back (`ImageUtil.TagIsLost`, `ImageUtil.SeparatorsAreLost`, `ImageUtil.ReadThenPrint`,
  `ImageUtil.PrintThenRead`).
* The schedule validator refuses `-0`, which the scheduler accepts; and a schedule whose weekday is
  spelled `07` never comes due (`Scheduler.NegativeZeroRuns`, `Scheduler.RunnableIsValid`,
  `Scheduler.LongSevenIsNeverDue`, `Scheduler.EventuallyDue`).
* `PodOrdinal` panics on a name made of digits where its comment promises -1, and `pvcOrdinal` takes
  a trailing dash for ordinal 0 (`Ordinals.PanicsOnNumbers`, `Ordinals.PodAndClaimDiffer`).
* `OrdinalFromName` promises -1 for a name that does not match the set's, and ignores the letters of
  the set's name (`Ordinals.PrefixIsIgnored`, `Ordinals.PromiseKept`); in the same way the claim
  cleanup is given the cluster's name and does not look at it, so it asks for other clusters' claims
  if the list holds any with a high ordinal (`Ordinals.ForeignClaimIsAsked`,
  `Ordinals.OnlyOwnClaimsAsked`).
* The identifier printed for a name with a NUL is valid SQL (`SqlEscape.NulCollides`).

## Model

| member | source | states |
|---|---|---|
| `ClusterSafety.EveryHistoryIsSafe` | internal/controller/postgrescluster_controller.go:82-437 | From a new cluster, after every history of passes, failed or lost calls, crashes and outside edits: the phases Creating, Degraded and Running come with the Ready and Degraded conditions that belong to them, with the right names of primary and Services and, when the status is about the present spec, with the right phase for its ready instances; owned objects exist only behind the finalizer and in the order in which they are made; a cluster being deleted still has its finalizer |
| `ClusterSafety.StepKeepsInv` | internal/controller/postgrescluster_controller.go:82-437 | Every single API call, whatever its fate, keeps the invariant of a pass in progress, in which the in-memory copy may be outdated |
| `ClusterSafety.EnvKeepsInv` | internal/controller/postgrescluster_controller.go:82-139 | Every permitted move of the outside in the middle of a pass keeps the same invariant |
| `ClusterSafety.PassIsSafe` | internal/controller/postgrescluster_controller.go:82-139 | A pass from any state of the invariant, cut off by a crash anywhere, leaves a safe world |
| `ClusterSafety.ObserveReads` | internal/controller/postgrescluster_controller.go:387-437 | What updateStatus stores for a number of ready replicas, field by field: phase, ready instances, names, generation and version; Ready is True if and only if some and at least all instances are ready; Degraded as the phase says, and as before when nothing is ready; Progressing as before |
| `ClusterSafety.ObserveIsOk` | internal/controller/postgrescluster_controller.go:387-437 | Such a status is safe, and nothing but the status changes |
| `ClusterSafety.MissingMeansNone` | internal/controller/postgrescluster_controller.go:392-405 | Without a StatefulSet no replica is reported ready |
| `ClusterSafety.FirstStatuses` | internal/controller/postgrescluster_controller.go:95-133 | The statuses Paused and Initializing: their Progressing condition, and nothing else changed |
| `ClusterSafety.FailedCallEndsPass` | internal/controller/postgrescluster_controller.go:82-166 | A pass ends with the first call that fails |
| `ClusterSafety.MissingIsCreated` | internal/controller/postgrescluster_controller.go:187-245 | What is created for a missing object; a new Secret holds the drawn password |
| `ClusterSafety.OwnedWritesAreGuarded` | internal/controller/postgrescluster_controller.go:144-383 | An owned object is written only by a pass that read the cluster as neither paused nor deleted, with the finalizer stored, to make the next missing object or to refresh the live part of an existing one; never the Secret or ServiceAccount again, and never a part that is set at creation |
| `ClusterSafety.ClusterWritesAreGuarded` | internal/controller/postgrescluster_controller.go:82-139 | A write to the cluster replaces only the version that the pass has read: a status write changes the status and nothing else, and the metadata writes add the finalizer or let a cluster being deleted go |
| `ClusterSafety.EveryPassEnds` | internal/controller/postgrescluster_controller.go:82-166 | Every call of a pass, failed or not, lowers the bound on the calls left |
| `ClusterSafety.PausedPassOnlySetsPhase` | internal/controller/postgrescluster_controller.go:95-108 | The exact world after a pass over a paused cluster, whatever its calls answer: unchanged, or with a status that says Paused and nothing else changed, and which of the two |
| `ClusterSafety.QuietFrom` | internal/controller/postgrescluster_controller.go:144-166 | An undisturbed pass from step i on makes every missing object, refreshes the live part of the existing ones, leaves all else alone and stores the status it observed |
| `ClusterSafety.QuietPassConverges` | internal/controller/postgrescluster_controller.go:82-437 | From every safe world an undisturbed pass reaches a converged one: all objects present with live parts for the present spec, the status as updateStatus must store it, the credentials, every fixed part and the rest of the cluster as they were; progress is noted at the first pass and not touched later |
| `ClusterSafety.ConvergedObjects` | internal/controller/postgrescluster_controller.go:247-383 | A converged StatefulSet has as many replicas as the spec has instances, and its version, account and settings; the ConfigMap has its config, the Services its name, the budget its instances |
| `ClusterSafety.QuietPassMakes` | internal/postgres/resources.go:231-270 | What was missing is made with the cluster's name, its version and, in a StatefulSet, its storage |
| `ClusterSafety.EveryHistoryConverges` | internal/controller/postgrescluster_controller.go:82-437 | After every history of a new cluster, if it exists and is neither paused nor being deleted, two more undisturbed passes converge |
| `ClusterSafety.FirstPassAddsFinalizer` | internal/controller/postgrescluster_controller.go:110-116 | An undisturbed pass over a cluster without the finalizer adds it and does nothing else |
| `ClusterSafety.WhollyBuilt` | internal/controller/postgrescluster_controller.go:247-383 | After an undisturbed pass an object is what the builders make for the present spec if and only if it was missing, or the part set at its creation already was |
| `ClusterSafety.StorageEditIsIgnored` | internal/controller/postgrescluster_controller.go:304-308 | After any permitted edit of the storage a pass converges and every object keeps the part that was set at its creation |
| `ClusterSafety.GrownStorageStaysSmall` | internal/postgres/resources.go:231-270 | A cluster that came up with 1Gi and is edited to 2Gi reports convergence while its StatefulSet claims 1Gi |
| `ClusterSafety.DeletionWaitsForPause` | internal/controller/postgrescluster_controller.go:95-122 | An undisturbed pass over a cluster being deleted lets it go if and only if it is not paused |
| `ClusterSafety.ConvergedIsStable` | internal/controller/postgrescluster_controller.go:82-437 | In a converged world an undisturbed pass changes nothing at all, not even a timestamp |
| `ClusterSafety.ObserveAgain` | internal/controller/postgrescluster_controller.go:387-437 | Observing again, at any later time, reproduces the stored status |
| `ClusterController.PostgresClusterReconciler.Reconcile` | internal/controller/postgrescluster_controller.go:82-139 | The imperative controller is one pass of the step machine, for every script of answers and edits |
| `ClusterController.PostgresClusterReconciler.ReconcileSubresources` | internal/controller/postgrescluster_controller.go:144-166 | The loop over the steps, with its early exit, follows the machine from the first step to the status |
| `ClusterController.PostgresClusterReconciler.ReconcileDelete` | internal/controller/postgrescluster_controller.go:170-184 | Removing the finalizer ends the pass as the machine does |
| `ClusterController.PostgresClusterReconciler.ReconcileServiceAccount` | internal/controller/postgrescluster_controller.go:187-207 | Creates a missing ServiceAccount and never updates one |
| `ClusterController.PostgresClusterReconciler.ReconcileCredentials` | internal/controller/postgrescluster_controller.go:213-243 | Creates a missing Secret and never updates one |
| `ClusterController.PostgresClusterReconciler.CreateOrUpdate` | internal/controller/postgrescluster_controller.go:247-309 | Creates the object of a step, or copies the live part into the existing one and stores that, exactly as the machine does |
| `ClusterController.PostgresClusterReconciler.ReconcileServices` | internal/controller/postgrescluster_controller.go:312-346 | Visits the Services in order and stops at the first failure |
| `ClusterController.PostgresClusterReconciler.RefreshStatus` | internal/controller/postgrescluster_controller.go:387-437 | Reads the StatefulSet and stores the status that `Observe` specifies, or gives up |
| `ClusterController.PostgresClusterReconciler.Judge` | internal/controller/postgrescluster_controller.go:406-427 | Phase and conditions follow the three-way choice on the ready replicas |
| `BackupMachine.EveryHistoryAdvances` | internal/controller/postgresbackup_controller.go:51-162 | Over every history: a completion time exactly in terminal phases, a start time while Running, no phase moves backward, a terminal status never changes, a start time is never lost |
| `BackupMachine.StepKeepsInv` | internal/controller/postgresbackup_controller.go:51-162 | Every call, with a current or an outdated copy, keeps the invariant and only advances the backup |
| `BackupMachine.PassAdvances` | internal/controller/postgresbackup_controller.go:51-110 | A whole pass, cut off anywhere, is safe and only advances the backup |
| `BackupMachine.StartTimeMeansWritten` | internal/controller/postgresbackup_controller.go:113-133 | A backup that still exists has a start time if and only if in some pass of the history the status write after the Job creation was reached and carried out |
| `BackupMachine.StartTimeMeansWasRunning` | internal/controller/postgresbackup_controller.go:113-133 | A backup has a start time if and only if its stored phase was Running after some event |
| `BackupMachine.CompletedWithoutStart` | internal/controller/postgresbackup_controller.go:113-162 | A history in which one status write fails and the backup completes without a start time |
| `BackupMachine.JobCreationIsEarned` | internal/controller/postgresbackup_controller.go:69-103 | A pass creates the Job only right after it found the cluster Running and then the Job absent |
| `BackupMachine.QuietPassFinishes` | internal/controller/postgresbackup_controller.go:136-162 | The first decisive condition of the Job decides: JobComplete gives Completed and a True Complete condition, JobFailure gives Failed and a False one, with the clock reading as completion time and nothing else changed |
| `BackupMachine.QuietPassWaits` | internal/controller/postgresbackup_controller.go:136-162 | Without a decisive condition nothing changes |
| `BackupMachine.QuietPassStarts` | internal/controller/postgresbackup_controller.go:96-133 | Without a Job, one is created, and the status says Running since the clock reading |
| `BackupMachine.QuietPassHolds` | internal/controller/postgresbackup_controller.go:69-94 | Without a Running cluster only the matching condition is set, to False |
| `BackupMachine.FinishedIsLeft` | internal/controller/postgresbackup_controller.go:62-67 | A finished backup is left alone |
| `BackupMachine.QuietPassActs` | internal/controller/postgresbackup_controller.go:51-162 | The three outcomes for a Running cluster, for any list of conditions |
| `BackupMachine.FailedCallEndsPass` | internal/controller/postgresbackup_controller.go:51-162 | A pass ends with the first call that fails |
| `BackupController.PostgresBackupReconciler.Reconcile` | internal/controller/postgresbackup_controller.go:51-110 | The imperative controller is one pass of the step machine, for every script |
| `BackupController.PostgresBackupReconciler.CreateBackupJob` | internal/controller/postgresbackup_controller.go:113-133 | Creation and the status write after it, as the machine does them |
| `BackupController.PostgresBackupReconciler.SyncBackupStatus` | internal/controller/postgresbackup_controller.go:136-162 | The loop over the Job's conditions stops at the first decisive one and stores its verdict |
| `Conditions.Conditioned.SetCondition` | internal/postgres/status.go:29-63 | The in-place search and overwrite, or append, is `Upsert` of the old list |
| `Conditions.HistoryIsReported` | internal/postgres/status.go:29-63 | After every history of calls: kinds are unique, a kind is listed if and only if some call named it, and each condition carries the latest call's data with the clock reading of the call that began the unbroken run of its status |
| `Conditions.UpsertPoints` | internal/postgres/status.go:81-114 | Position by position: one entry replaced, or one appended, and no other entry touched |
| `Conditions.UpsertSays` | internal/postgres/status.go:117-150 | The call's kind has the new status, every other kind what it had |
| `Conditions.UpsertTells` | internal/postgres/status.go:29-63 | After a call its kind tells the status, reason and generation of the call |
| `Conditions.UpsertShown` | internal/postgres/status.go:37-53 | Setting what is already shown changes nothing, not even the transition time |
| `Patcher.DiffMaps` | internal/patcher/patcher.go:141-169 | The two loops, in any order of the keys, fill the patch that `Diff` specifies |
| `Patcher.PatchReproducesModified` | internal/patcher/patcher.go:127-169 | Applying the patch by section 2 of RFC 7396 gives the modified object if and only if the pair is `Expressible`, at every depth |
| `Patcher.EntryReproducesValue` | internal/patcher/patcher.go:149-160 | The same for the entry of one key that both objects hold |
| `Patcher.MergeIntoNothing` | internal/patcher/patcher.go:144-148 | An added value survives if and only if no null is reachable in it through objects |
| `Patcher.EmptyPatch` | internal/patcher/patcher.go:77-79 | The patch is empty, so that no request is sent, if and only if the objects differ at most in leaves that print alike |
| `Patcher.RequestSkippedForEqual` | internal/patcher/patcher.go:63-83 | No request for equal objects; for an `Expressible` pair only for those |
| `Patcher.LostChanges` | internal/patcher/patcher.go:141-169 | The number 1 against the text 1, and an added null: the change is lost |
| `PatcherPrinting.OrdinaryChangesArrive` | internal/patcher/patcher.go:141-169 | When written values are free of nulls and every differing pair that is not two objects is two booleans, numbers, texts or arrays of such words, or a null, boolean, array and object of different kinds, merging the patch gives the modified object at every depth, and no patch is sent if and only if nothing changed |
| `PatcherPrinting.ChangesAreRecorded` | internal/patcher/patcher.go:141-169 | A change between two booleans, two numbers or two texts is recorded if and only if they differ, and one between a null, a boolean, an array and an object always |
| `PatcherPrinting.WordArraysPrintApart` | internal/patcher/patcher.go:157-160 | Arrays of words look equal if and only if their elements do, one by one |
| `PatcherPrinting.ObjectIsJoined` | internal/patcher/patcher.go:157-160 | How an object is printed: members in the order of their keys |
| `Rollout.Plan` | internal/rolerollout/rolerollout.go:42-67 | The pending replicas, each once, highest ordinal first, then the last pending primary |
| `Rollout.SortSlice` | internal/rolerollout/rolerollout.go:59-61 | A permutation in descending order of ordinals |
| `Rollout.PendingCount` | internal/rolerollout/rolerollout.go:96-104 | The number of pending replicas and primaries |
| `Rollout.Next` | internal/rolerollout/rolerollout.go:107-117 | The head of a plan, or nothing while an updated pod is down or none is pending |
| `Rollout.PrimaryIsLast` | internal/rolerollout/rolerollout.go:42-117 | The primary is handed out only when every replica is updated and healthy |
| `Rollout.PlanIsOrder` | internal/rolerollout/rolerollout.go:42-67 | A plan is all of the order in which pods will be handed out if and only if at most one primary is pending, and always its beginning |
| `Rollout.SecondPrimaryIsPlannedAlone` | internal/rolerollout/rolerollout.go:42-67 | Of two pending primaries the plan holds the second alone, although both will be handed out |
| `Rollout.StepFollows` | internal/rolerollout/rolerollout.go:107-117 | A hand-out by `Next`, or a change of health, keeps the rest of the order and never takes down a second updated pod |
| `Rollout.EveryRollout` | internal/rolerollout/rolerollout.go:42-117 | At every moment of every rollout: the pods handed out begin the full order of the initial plan, hand-outs and pending pods add up, and at most one updated pod is down if that was so at first |
| `Rollout.FinishedRollout` | internal/rolerollout/rolerollout.go:42-117 | A finished rollout took exactly PendingCount hand-outs, and they are the initial plan if and only if at most one primary was pending |
| `Rollout.NeverStuck` | internal/rolerollout/rolerollout.go:73-117 | Nothing is handed out if and only if the rollout is complete or an updated pod is down; complete means that no pod is pending and none is down |
| `Rollout.NextSays` | internal/rolerollout/rolerollout.go:73-117 | Nothing is handed out if and only if no pod is pending or an updated one is unhealthy |
| `ConnStr.KvString` | internal/store/connstr.go:175-191 | The sorted entries with escaped and quoted values, one blank between them |
| `ConnStr.DSN` | internal/store/connstr.go:62-65 | The written form of the parameters with their defaults |
| `ConnStr.TokenizeDSN` | internal/store/connstr.go:252-290 | The scanning loop ends on every input and computes the map of all tokens, or fails where a token is malformed |
| `ConnStr.ParseTokens` | internal/store/connstr.go:227-248 | Whatever the order of the keys, each standard key fills its field and the others are extras |
| `ConnStr.ParseDSN` | internal/store/connstr.go:219-249 | The two stages together |
| `ConnStrRoundTrip.TokensOfWritten` | internal/store/connstr.go:175-290 | The tokens of a written list are that list if and only if every pair is printable |
| `ConnStrRoundTrip.WrittenIsReadBack` | internal/store/connstr.go:175-290 | With the reader's trimming, if and only if also the last value does not end in unquoted white space |
| `ConnStrRoundTrip.PairsParseBack` | internal/store/connstr.go:158-249 | The pairs of the parameters give the parameters, defaults filled in, if and only if no extra key is a standard one |
| `ConnStrRoundTrip.ReadableRoundTrip` | internal/store/connstr.go:62-290 | On every string that is readable as a list, parsing gives the parameters back if and only if no extra key is a standard one |
| `ConnStrReading.EveryToken` | internal/store/connstr.go:252-290 | Every token has a trimmed key without an equals sign, and a value read behind some equals sign of the text |
| `ConnStrAlignment.TokenFits` | internal/store/connstr.go:175-290 | Whatever the reader takes for a value, wherever it has got to in a written string, either has no quote and is one that can be read back, or stands behind an equals sign in the escaped text of one of the values |
| `ConnStrDescent.NoBadQuotes` | internal/store/connstr.go:183-189 | If every value with a quote stands in the escaped text of another one, then nothing but quotes and backslashes follows any of the quotes |
| `ConnStrAlignment.CalmIsReadWithoutQuotes` | internal/store/connstr.go:252-290 | From such values the reader falls back into step at every entry, and reads no value with a quote |
| `ConnStrExact.RoundTrip` | internal/store/connstr.go:62-290 | ParseDSN of DSN gives the parameters back, defaults filled in, if and only if every key is trimmed and has no equals sign, every value has no quote and is in quotes if it holds a blank, the last one does not end in unquoted white space, and no extra key is a standard one; for all parameters |
| `ConnStrRoundTrip.PlainParametersRoundTrip` | internal/store/connstr.go:62-290 | Parameters without quotes and without white space other than blanks always come back |
| `ConnStrRoundTrip.PlainParametersArrive` | internal/store/connstr.go:130-173 | Each plain parameter stands in the string under its name and is parsed: port 5432, user and database postgres and mode require where they were left open, everything else unchanged |
| `ConnStrRoundTrip.PasswordIsOptional` | internal/store/connstr.go:158-173 | The string holds a password if and only if there is one |
| `ConnStrRoundTrip.QuoteSays` | internal/store/connstr.go:182-189 | A value is put in quotes if and only if it has a blank, a quote or a backslash in it |
| `ConnStrRoundTrip.BlankEndsValue` | internal/store/connstr.go:276-285 | A value without quotes ends at a space, tab, newline or carriage return |
| `ConnStrRoundTrip.QuoteCutsValue` | internal/store/connstr.go:183-285 | Of every value with a single quote the reader sees the part before the first one and a backslash |
| `Manifest.Splitter.Flush` | internal/manifest/manifest.go:50-58 | A blank buffer stays; any other becomes the next document and leaves the buffer empty |
| `Manifest.Splitter.Take` | internal/manifest/manifest.go:60-68 | One line: a separator flushes, any other line is appended with its newline |
| `Manifest.Split` | internal/manifest/manifest.go:42-74 | The numbered bodies of the text, or an error exactly when a line fills the scanner's buffer |
| `Manifest.JoinDocuments` | internal/manifest/manifest.go:82-96 | The bodies, each with one final newline, with separator lines between them |
| `ManifestLaws.BodiesKeepContent` | internal/manifest/manifest.go:42-74 | The bodies and the blank remainder are exactly the lines that are not separators, in order |
| `ManifestLaws.BodiesAreSegments` | internal/manifest/manifest.go:42-74 | The bodies are the segments between separators, with every blank one joined to the next |
| `ManifestLaws.SplitKeepsEverything` | internal/manifest/manifest.go:42-78 | On every text: documents numbered from 1, none blank, one for each non-blank segment, and with a blank remainder they are all lines that are not three dashes in white space |
| `ManifestLaws.SeparatorSays` | internal/manifest/manifest.go:76-78 | A line separates if and only if it is three dashes in white space |
| `ManifestReassembly.EveryLineIsKept` | internal/manifest/manifest.go:42-78 | Every other line stands in some document or in the blank remainder |
| `Manifest.SplitFails` | internal/manifest/manifest.go:43-46 | Split fails if and only if some line has a mebibyte or more |
| `ManifestRoundTrip.StreamBodies` | internal/manifest/manifest.go:42-96 | Joined documents come back one by one without the carriage returns at their line ends |
| `ManifestRoundTrip.JoinThenSplit` | internal/manifest/manifest.go:42-96 | Splitting a joined stream returns the documents if and only if none is blank and no line is a separator, ends in a carriage return or is too long |
| `ManifestRoundTrip.SplitJoinSplit` | internal/manifest/manifest.go:38-96 | For every text within the limit, splitting, joining and splitting again returns the same documents with normalised ends if and only if no line of a document ends in a carriage return |
| `ManifestRoundTrip.OrdinaryTextComesBack` | internal/manifest/manifest.go:38-96 | So it is whenever no line of the text ends in two carriage returns |
| `ManifestReassembly.ReassemblyIsExact` | internal/manifest/manifest.go:38-96 | For every text within the limit, re-assembly is faithful if and only if no line that goes into a document ends in two carriage returns: no separator, and not in the white space behind the last section with content |
| `ManifestReassembly.CollectingIsPositional` | internal/manifest/manifest.go:50-72 | Which lines a text's documents collect is told by the place of the lines alone |
| `ManifestRoundTrip.TwoReturnsShrink` | internal/manifest/manifest.go:38-96 | Every single line with two carriage returns at its end loses one at each split |
| `Snapshot.ExchangeSort` | internal/snapshot/snapshot.go:114-120 | In place: newest first, and a permutation |
| `Snapshot.Apply` | internal/snapshot/snapshot.go:110-133 | Returns what a sweep of the sorted snapshots drops |
| `Snapshot.DroppedIsTheRest` | internal/snapshot/snapshot.go:122-131 | What the loop drops, by count or by age, is a suffix of the sorted list |
| `Snapshot.SweepIsRight` | internal/snapshot/snapshot.go:110-133 | Kept and deleted make up the input, nothing kept is older than anything deleted, the survivors respect both limits, and nothing is deleted that neither has expired nor exceeds the count |
| `Snapshot.SweepInPlainTime` | internal/snapshot/snapshot.go:110-133 | The same with ages as plain differences of times, for every limit; the largest one is never exceeded |
| `Snapshot.SecondSweepDeletesNothing` | internal/snapshot/snapshot.go:110-133 | Sweeping the survivors at the same time, in any order, deletes nothing |
| `Snapshot.WithinLimits` | internal/snapshot/snapshot.go:110-133 | From snapshots within both limits nothing is deleted |
| `Duration.ScanInt` | internal/duration/duration.go:156-175 | An optional sign and digits, with 64-bit wrap-around; anything else is an error |
| `Duration.ParseSegment` | internal/duration/duration.go:71-101 | The value and the length of the first number and unit |
| `Duration.Parse` | internal/duration/duration.go:40-66 | The wrapped sum of all segments, or an error if one is malformed |
| `Duration.ParseIsAdditive` | internal/duration/duration.go:40-101 | Two texts that parse, put together, parse to the 64-bit sum of their values |
| `DurationUnits.ParsesExactly` | internal/duration/duration.go:40-101 | A text parses if and only if it is one or more numbers with units, each with a value |
| `DurationUnits.ExtendedMeans` | internal/duration/duration.go:32-95 | A day, a week and a month in nanoseconds, in small letters or capitals, times the number in 64 bits |
| `DurationUnits.StandardMeans` | internal/duration/duration.go:96-100 | The six other units in nanoseconds, times the number, or an error on overflow |
| `DurationUnits.OtherUnitsFail` | internal/duration/duration.go:88-100 | There are no other units |
| `DurationFormat.Format` | internal/duration/duration.go:114-149 | The printed parts, with one minus sign in front of a negative duration |
| `DurationFormat.Breakdown` | internal/duration/duration.go:122-128 | Days, hours, minutes and seconds in their ranges, none against the sign, that add up to the whole seconds of the magnitude, also of the one that wraps around |
| `DurationFormat.ClockIsUnique` | internal/duration/duration.go:122-128 | No other clock does |
| `DurationFormat.ClockAddsUp` | internal/duration/duration.go:122-128 | Repeated division of any number, negative ones too, gives that clock |
| `DurationFormat.MinusIsParsed` | internal/duration/duration.go:40-101 | A minus sign before several parts negates only the first |
| `DurationFormat.FormatThenParse` | internal/duration/duration.go:40-149 | For every 64-bit duration, Parse reads back what Format prints, up to whole seconds, if and only if it is not negative, or is printed as one part and is not the smallest |
| `DurationFormat.NinetyMinutesFail` | internal/duration/duration.go:40-149 | Minus ninety minutes is printed as two parts and is not read back |
| `EventBus.Bus.Subscribe` | internal/eventbus/eventbus.go:70-78 | Appends the handler and hands out a closure with its topic and index |
| `EventBus.Bus.Unsubscribe` | internal/eventbus/eventbus.go:78-93 | Marking and compacting removes the entry at the captured index, if there is one, and keeps the order of the others |
| `EventBus.Compact` | internal/eventbus/eventbus.go:85-92 | In place: the handlers that are not nil, in order |
| `EventBus.Bus.Publish` | internal/eventbus/eventbus.go:98-108 | Delivers to exactly the handlers registered at the call, in order, whatever subscribing, unsubscribing, resetting and publishing each delivery does meanwhile, and fills in a missing time |
| `EventBus.ActedIsRun` | internal/eventbus/eventbus.go:70-123 | However deeply handlers publish again, what happens to the bus is one run of plain calls |
| `EventBus.DeliveredInTurn` | internal/eventbus/eventbus.go:98-108 | Plain calls of the handlers take effect one after the other, delivery by delivery |
| `EventBus.DeliveriesInOrder` | internal/eventbus/eventbus.go:105-107 | One delivery for each handler, in order |
| `EventBus.ResetRemovesAll` | internal/eventbus/eventbus.go:119-123 | After Reset no topic has a handler |
| `EventBus.Bus.SubscriberCount` | internal/eventbus/eventbus.go:112-116 | The number of live handlers of the topic |
| `EventBus.RunKeepsValid` | internal/eventbus/eventbus.go:70-123 | Over every run: handlers stand in the order of subscription, and whatever stands ahead of a handler stood there when it subscribed |
| `EventBus.UnsubscribeRemovesOwn` | internal/eventbus/eventbus.go:70-93 | After every run a closure removes its own handler and nothing else if and only if that handler and all that stood ahead of it are live, or it is gone and the index is out of range; otherwise the victim is a later subscriber; other topics never change |
| `EventBus.ClosuresGoStale` | internal/eventbus/eventbus.go:78-93 | A run after which a closure does nothing, and one after which it removes another handler |
| `ImageUtil.Parse` | internal/imageutil/imageutil.go:68-111 | The successive cuts give the reading of the text, or an error on an empty text or repository |
| `ImageUtil.ReadThenPrint` | internal/imageutil/imageutil.go:46-111 | Printing what was parsed gives the text back if and only if each separator is followed by something and not both occur |
| `ImageUtil.PrintThenRead` | internal/imageutil/imageutil.go:46-111 | Parsing what was printed gives the reference back if and only if it is `Canonical` |
| `ImageUtil.SeparatorsAreLost` | internal/imageutil/imageutil.go:46-111 | Every tag with a colon and every repository with an at-sign fails to come back |
| `ImageUtil.TagIsLost` | internal/imageutil/imageutil.go:46-58 | Beside a digest the tag is not printed |
| `ImageUtil.RegistryIsHead` | internal/imageutil/imageutil.go:98-106 | What stands before the first slash is the registry if and only if it has a dot or a colon in it or is localhost |
| `CronExpr.AtomAccepted` | internal/cronexpr/cronexpr.go:95-153 | An atom is accepted if and only if it means a non-empty span inside the range, with a positive step |
| `CronExpr.FieldDenotes` | internal/cronexpr/cronexpr.go:83-93 | An accepted field denotes at least one value, and only values of its range |
| `CronExpr.AcceptedDenotes` | internal/cronexpr/cronexpr.go:59-81 | Every accepted expression has five fields, and each denotes a non-empty part of its range |
| `CronExpr.AliasesAreAccepted` | internal/cronexpr/cronexpr.go:32-53 | Every alias expands to an accepted expression |
| `CronExpr.AliasesAreDue` | internal/cronexpr/cronexpr.go:32-53 | Each alias denotes exactly the first minute of every hour, day, Sunday, month or year |
| `CronExpr.NumbersInRange` | internal/cronexpr/cronexpr.go:59-81 | The plain numbers that each of the five fields accepts |
| `Scheduler.RunnableIsValid` | internal/scheduler/scheduler.go:105-155 | Of the expressions the scheduler accepts, the validator accepts exactly those without a dash |
| `Scheduler.NegativeZeroRuns` | internal/scheduler/scheduler.go:105-155 | A minute field -0 is accepted by the scheduler and refused by the validator |
| `Scheduler.ValidIsRunnable` | internal/scheduler/scheduler.go:105-155 | Of the expressions the validator accepts, the scheduler accepts exactly those that are no alias and whose fields are stars or lists of plain numbers |
| `Scheduler.EventuallyDue` | internal/scheduler/scheduler.go:159-195 | A schedule is due at some in-range moment if and only if its weekday field is a star, is 7 itself, or lists a value from 0 to 6 |
| `Scheduler.DueMeansDenoted` | internal/scheduler/scheduler.go:159-195 | A schedule both grammars accept is due exactly when each field denotes the moment's value, or the weekday field is 7 and the day a Sunday |
| `Scheduler.LongSevenIsNeverDue` | internal/scheduler/scheduler.go:140-182 | A weekday field 07 is accepted and never due |
| `Ordinals.PodOrdinal` | internal/ha/ha.go:142-161 | The value of the trailing digits behind a dash in 64 bits, -1, or a panic |
| `Ordinals.PvcOrdinal` | internal/workflows/reconcile.go:201-218 | The same scan for claims, with its own edge cases |
| `Ordinals.OrdinalFromName` | internal/statefulset/builder.go:356-370 | The digits behind the set's name by Horner's rule in 64 bits, or -1 |
| `Ordinals.SumTail` | internal/ha/ha.go:154-160 | Summing digits from the right with a wrapping multiplier is the wrapped decimal value |
| `Ordinals.OrdinalsAgree` | internal/postgres/naming.go:75-77 | From every generated pod or claim name all three parsers recover the ordinal |
| `Ordinals.PodOrdinalSays` | internal/ha/ha.go:142-161 | For every name: the digits behind a last dash, and -1 unless the name is digits only |
| `Ordinals.PvcOrdinalSays` | internal/workflows/reconcile.go:201-218 | For every name: the digits behind a last dash, none as 0, and -1 without a dash |
| `Ordinals.PanicsOnNumbers` | internal/ha/ha.go:147-153 | PodOrdinal panics if and only if the name is not empty and all digits |
| `Ordinals.PodAndClaimDiffer` | internal/workflows/reconcile.go:203-209 | Elsewhere the two scans differ if and only if the name ends in a dash |
| `Ordinals.PrefixIsIgnored` | internal/statefulset/builder.go:357-361 | Only the length of the set's name matters |
| `Ordinals.PromiseKept` | internal/statefulset/builder.go:354-370 | The promised result, the ordinal of a name that is the set's name, a dash and digits and -1 for any other, is returned if and only if the name is too short, begins with the set's name and a dash, has something other than digits behind them, or digits that wrap around to -1 |
| `Ordinals.CleanupOrphanedPVCs` | internal/workflows/reconcile.go:143-172 | Asks for the orphans in list order and stops at the first failure; it succeeds if and only if every request does, and then no orphan is left; no claim that is not an orphan is ever taken away |
| `Ordinals.OrphanNamesHold` | internal/workflows/reconcile.go:158-170 | A name is asked for if and only if a listed claim of that name is an orphan |
| `Ordinals.SurplusIsAsked` | internal/workflows/reconcile.go:158-170 | Among the claims of a StatefulSet these are exactly those at or above the wanted count that are not being deleted |
| `Ordinals.OnlyOwnClaimsAsked` | internal/workflows/reconcile.go:143-218 | Over a list with claims of any clusters the cleanup asks for the orphans of its own cluster and no other if and only if no listed claim of another cluster is undeleted with an ordinal at or above the wanted count |
| `Ordinals.ForeignClaimIsAsked` | internal/workflows/reconcile.go:201-218 | When the second claim of another cluster is listed, scaling to one instance asks for it |
| `SqlEscape.QualifiedIdentifier` | internal/sqlescape/sqlescape.go:53-62 | The escaped names with dots between them |
| `SqlEscape.QualifiedComesBack` | internal/sqlescape/sqlescape.go:36-62 | A left-to-right reader of quoted identifiers (section 4.1.1 of the PostgreSQL documentation) recovers the names if and only if none holds a NUL |
| `SqlEscape.QualifiedIsInjective` | internal/sqlescape/sqlescape.go:36-62 | No two lists of NUL-free names print the same text |
| `SqlEscape.LiteralComesBack` | internal/sqlescape/sqlescape.go:47-49 | Every text comes back from its string literal |
| `SqlEscape.NulCollides` | internal/sqlescape/sqlescape.go:37-42 | Every name with a NUL prints as the readable identifier of another name |
| `SqlEscape.IsValidIdentifier` | internal/sqlescape/sqlescape.go:79-103 | Accepts exactly the non-empty names of at most 63 bytes made of permitted characters |
| `SqlEscape.ValidNamesPrintPlainly` | internal/sqlescape/sqlescape.go:36-103 | An accepted name is printed between quotes as it stands and is read back |
| `SqlEscape.AsciiNames` | internal/sqlescape/sqlescape.go:79-103 | Of printable ASCII names exactly those of 1 to 63 letters, digits and four other characters are accepted |
| `SqlEscape.BlanksAreRefused` | internal/sqlescape/sqlescape.go:83-101 | A name with a blank is refused although a blank is not one of the refused control characters |

## Left out

- `Scheduler.EventuallyDue`: about in-range combinations of the five calendar values; whether a date such as 30 February exists is not considered.
- `EventBus.Bus.Publish`: nil handlers are not modelled; what handlers do is a finite tree of calls, so publishing without end is not either.
- `BackupMachine.StartTimeMeansWasRunning`: its condition is what the same write stored; the guard of the write that can fail is in `BackupMachine.StartTimeMeansWritten`.
- `Conditions.HistoryIsReported`: Go compares and stores times with a monotonic clock; times are plain numbers here.
- The requeue results, emitted events, logs and returned error values of the reconcilers, and all error texts.
- The wording of condition reasons and messages and of derived names: they are tokens that tell what the text says.
- The contents of the built objects: for each kind, one value stands for the part that is set at creation and one for the part that updates copy, each with the fields of the spec it depends on.
- Re-creation of a deleted cluster under its old name, where leftover owned objects would be found before the finalizer is added.
- Edits of the status or of the operator's own finalizer by others (`ClusterMachine.Edited` rules them out): somebody who removes the finalizer by hand leaves owned objects without it.
- Stale reads from the controller cache, other controllers' finalizers, and owned objects deleted by others while the cluster is not being deleted.
- Malformed UTF-8 in names, manifests and connection strings.
- Fractions and the micro sign in durations, which the segment scanner never passes on.
- The URI form and the other constructors of connection strings, image-reference helpers, manifest filters and counts, snapshot naming, and the remaining helper packages, which would only add easy members.
