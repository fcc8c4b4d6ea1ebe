# A verified model of the servo governance backend

This project models, in Dafny, the stateful core of a backend that supervises an
industrial servo axis, and proves what that core keeps over whole runs. Verify it
with `dafny verify dfyconfig.toml`.

- **Audit chain.** `Json` and `JsonRoundTrip` model Python's JSON text of
  null/bool/int/string/array/object values (escapes of `ensure_ascii=False`, sorted
  keys, either separator style) together with a reader, and prove that the reader
  undoes the writer and that canonical text is equal exactly for values equal up to the
  insertion order of dicts.
  `AuditChain` models the hashed payload and `verify_chain`; `AuditLog` the table, its
  append and its re-verification; `AuditWriters` any number of transactions appending
  at once, statement by statement. `JsonShape` says what the text looks like.
- **Servo.** `Planner` is the trapezoid planner over exact reals: its braking envelope,
  how it speeds up, and when it arrives. `Servo` is the clamped PI loop with its control
  law, its law of motion and its latching brake; noise is any function of the step and the
  friction curve any function with values from -1 to 1.
- **Commands.** `Commands` models submission, transitions and the timeout scan as
  atomic calls on the table and its audit rows; `CommandRuns` proves what every run of
  calls keeps, `CommandRecords` what each call does to a row and where its fields come
  from; `SubmitRace` interleaves submissions statement by statement.
- **Registry.** `Registry` models `models.jsonl` as text: rows are read into objects,
  changed in place through an alias and written back. `RegistryRuns` proves the text
  round trip, what runs of calls keep, and that a crash leaves old rows or new ones.
- **Governance.** `Governance` models training jobs, approvals and their side effects
  on one session and one registry file; `GovernanceRuns` proves what every run of calls
  keeps, `GovernanceTicks` the whole loop from a requested job over worker ticks and
  an approval to its model being the active one, `GovernanceRights` who may decide, and
  `GovernanceRecords` what rows and log say.
- **Tuning.** `Tuning` models the five checks and the bridge that proposes clamped and
  step-limited changes; `Executor` the execution with stale check and rollback, and
  derating in rounds; `ExecutorLoop` the polling loop with its persisted done-set;
  `ExecutorRuns` polls interleaved with the backend's two commits, restarts and crashes;
  `ExecutorCrashes` says exactly when the reports survive them, and `ExecutorReports`
  what they say.
- **Streaming.** `Stream` models the chunked splitter of recorded runs and its CSV
  writer, and compares it with one group-by.
- **Cache.** `Cache` interleaves callers of the inference service at their `await`
  points around one lock and one cache with a time to live.

## What the model found

- The square of the planned speed exceeds `2 * a_max * remaining` by at most
  `4 * a_max * v_max * DT`, which bounds the speed a snap to the target drops
  (`Planner.StepEnvelope`).
- The plan arrives after at most the steps full speed needs for the distance, three times
  those it takes to reach full speed, and five more (`Planner.Converges`).
- The plan comes to stand in one place, computable from the target and the limits. The
  brake engages only if that is exactly a positive target; then, once the plan stands, it
  engages at the first step that leaves the drive close and slow (`Servo.BrakesExactly`,
  `Servo.NeverBrakes`).
  An ordinary target one full step of acceleration and up to 1e-9 more away is never
  braked on (`Servo.ShortStop`).
- The rule that one command per device and type awaits confirmation holds for calls made
  one at a time (`CommandRuns.RunKeeps`). Under interleaving it holds exactly when all
  callers for one type and device use one key (`SubmitRace.OnePendingExactly`).
- A start can be let in while the stop of an earlier one still awaits confirmation, and
  that stop may time out (`CommandRuns.StopMayTimeOut`). Live starts are separated by
  completed stops throughout a run exactly when no start is let in behind an unstopped
  one (`CommandRuns.StoppedExactly`), which submitting starts only while no stop is
  pending guarantees (`CommandRuns.StartsAfterConfirmedStops`); any start let in behind
  one can be left unstopped for good (`CommandRuns.BehindCanBreak`).
- `promote` makes any row of the named version active, whatever its status
  (`RegistryRuns.PromotesAnyStatus`); the documentation speaks of a shadow row. The model
  follows the code. From a file that did not hold the version, the row found is a shadow
  exactly when no earlier promotion of it succeeded (`RegistryRuns.ShadowUntilPromoted`);
  for a job's own promotion, exactly when no other approval was applied for its version
  (`GovernanceRuns.JobFindsShadow`).
- A proposal of the bridge can fail only the bounds check, and does exactly when the
  clamped target is more than 10.05 percent away and the rounded ten percent step leaves
  the bounds (`Tuning.PassesExactly`): because the current value is itself more than a
  step outside them (`Tuning.OutOfBoundsFails`), or so small that rounding to three
  decimals matters (`Tuning.SmallCurrentFails`).
- The rate check sees the declared change only: any change passes under a declared zero
  (`Tuning.FalseDeclarationPasses`), and an honest declaration passes exactly when the
  real change is within the cap (`Tuning.RateTrustsDeclaration`). For the bridge's own
  proposals the actual change stays within 10.05 percent (`Tuning.ProposalPasses`), and
  within 12.251 percent of the device's own value when it is executed later
  (`Executor.ExecutedChange`).
- The verified reports replay to the parameters throughout a run exactly when the executor
  never dies between changing a parameter and writing the report
  (`ExecutorCrashes.ReplaysExactly`). A rerun repairs the replay unless the change was
  verified and exceeds the stale tolerance; the file of such a change is lost by a crash
  at any point after it ran (`ExecutorCrashes.FirstCrashReplays`), as for a derating from
  600 to 540 (`ExecutorCrashes.DeratingReportLost`).
- An approved or rejected approval always records a role that holds the approve code of its
  type (`GovernanceRights.DecidedByRight`).
- A tuning whose parameter name is not hashable makes the checks raise: the approval
  stays approved without a side effect (`GovernanceRuns.ApprovedWithoutEffect`), and two
  calls suffice to get there (`GovernanceRuns.ReachesWithoutEffect`).
- A CSV file with a header and no rows makes the splitter raise
  (`Stream.FailsOnEmptyFirst`). A chunking calls each run once exactly when no chunk
  brings back a run already passed (`Stream.OneCallExactly`); every chunking does exactly
  when the rows of each run are contiguous (`Stream.EveryChunkingExactly`).

## Model

| member | source | states |
|---|---|---|
| JsonRoundTrip.PrintParse | app/domain/audit.py:55-57 | the reader undoes `json.dumps` for every value, in compact or spaced style, before any text that does not go on with a digit |
| JsonRoundTrip.CanonicalIdentifies | app/domain/audit.py:55-57 | canonical text is equal exactly when the values are equal up to the insertion order of dicts, which never matters |
| JsonRoundTrip.CanonicalParse | app/domain/audit.py:55-57 | canonical text reads back, completely, as a value equal to the one printed |
| JsonRoundTrip.EquivNormal | app/domain/audit.py:55-57 | values equal up to dict order have one sorted form |
| JsonRoundTrip.NormalEquiv | app/domain/audit.py:55-57 | values with one sorted form are equal |
| JsonShape.PrintedJoined | app/domain/audit.py:55-57 | arrays and objects are their parts in order, joined by commas between their brackets |
| JsonShape.CanonicalAscends | app/domain/audit.py:55-57 | canonical text is the compact text of the value with the keys of every dict ascending |
| JsonShape.LessExactly | app/domain/audit.py:55-57 | keys are ordered by code point at the first difference, a prefix before what it begins |
| JsonShape.CanonicalTight | app/domain/audit.py:55-57 | canonical text holds no white space outside its strings |
| JsonShape.PlainStrings | app/domain/audit.py:55-57 | a character is printed as itself unless it is a control character, a quotation mark or a reverse solidus |
| JsonShape.EscapesByExample | app/domain/audit.py:55-57 | the escapes of those, one by one |
| JsonShape.WhiteSpaceIgnored | app/repositories/files/model_registry_repo.py:60-63 | the reader passes over white space before any value, key, comma and closing bracket |
| JsonShape.EscapesRead | app/repositories/files/model_registry_repo.py:60-63 | the reader takes any four hexadecimal digits after a reverse solidus and `u`, surrogates apart, for the character they number |
| AuditChain.Project | app/domain/audit.py:60-62 | the view holds exactly the hashed fields, a missing one as null |
| AuditChain.Zeros | app/domain/audit.py:26 | the genesis value is 64 zeros |
| AuditChain.PayloadDetermines | app/domain/audit.py:65-68 | with 64-character previous hashes, payloads are equal exactly when the previous hash and every business field are |
| AuditChain.VerifyChain | app/domain/audit.py:82-120 | verified exactly when every link and content matches, with the last hash as head; otherwise the smallest bad position, and which comparison failed |
| AuditChain.TamperReported | app/domain/audit.py:82-120 | replacing the content of entry i of a verified chain is reported at exactly i as a content mismatch, unless old and new payload collide |
| AuditChain.FieldTamperReported | app/domain/audit.py:82-120 | the same for changing one hashed field to a different value |
| AuditChain.TamperAnswered | app/domain/audit.py:82-120 | the answer to changed content: position, reason and all, or verified exactly when the payloads collide |
| AuditChain.RemovalAnswered | app/domain/audit.py:82-120 | an entry taken out, the last one apart, is answered as a broken link at its place, unless it hashed to the value it was chained from |
| AuditChain.MatchBack | app/domain/audit.py:82-120 | counted back from a shared head, two verified chains were hashed from the same payloads, unless they exhibit a collision |
| AuditChain.SameLength | app/domain/audit.py:82-120 | verified chains of different lengths with one head exhibit a collision or a preimage of the genesis value |
| AuditChain.HeadCommits | app/domain/audit.py:82-120 | verified chains with one head hold the same business fields, entry by entry, unless they exhibit a collision or a genesis preimage |
| AuditLog.RowDictGet | app/repositories/pg/audit_repo.py:131-139 | a row read back carries every hashed column and both chain columns under their names |
| AuditLog.ColumnsByName | app/repositories/pg/audit_repo.py:38-60 | each of the nineteen hashed columns is found under its own name |
| AuditLog.HashStable | app/repositories/pg/audit_repo.py:38-60 | the same columns hash alike as `append` and as `verify_full_chain` lay them out |
| AuditLog.HashSurvivesStorage | app/repositories/pg/audit_repo.py:38-60 | a row read back with equal column values, its dicts in any key order, hashes as the row inserted did |
| AuditLog.StoredTableVerifies | app/repositories/pg/audit_repo.py:131-139 | a chained table still verifies when its dicts come back with their keys reordered |
| AuditLog.AscendingReads | app/repositories/pg/audit_repo.py:79-84 | on a table in id order, ordering by id changes nothing and the head query finds the last row |
| AuditLog.AnyStorageOrder | app/repositories/pg/audit_repo.py:79-84 | in whatever order the table holds its rows, ordering by id gives the log and the head query its last row |
| AuditLog.HeadNeverEmpty | app/repositories/pg/audit_repo.py:79-84 | an empty hash counts as no head |
| AuditLog.HeadIsLast | app/repositories/pg/audit_repo.py:79-84 | the head read is the hash of the last row, or the genesis value of an empty table |
| AuditLog.AppendKeeps | app/repositories/pg/audit_repo.py:67-77 | a row hashed over the last one keeps the table chained, unique and in id order |
| AuditLog.TableVerifies | app/repositories/pg/audit_repo.py:126-139 | the rows of such a table, read in id order, pass the verification |
| AuditLog.TablesWithOneHead | app/repositories/pg/audit_repo.py:131-139 | two tables that verify and end in one head hash hold the same events, field by field, short of a collision or a genesis preimage among their payloads |
| AuditLog.NoFork | app/repositories/pg/audit_repo.py:67-84 | two rows share a prev_hash only if the first is chained from genesis and some row hashes to that value |
| AuditLog.AuditService.Record | app/services/audit_service.py:39-84 | one chained row is added with the next id and committed, or a clash with a unique column leaves the rows as they were |
| AuditLog.AuditService.VerifyFullChain | app/repositories/pg/audit_repo.py:131-139 | the log written by `record` alone always verifies, over all its rows |
| AuditLog.AuditService.RunVerification | app/services/audit_service.py:92-96 | the result is appended to the stored verifications |
| AuditWriters.RunKeeps | app/repositories/pg/audit_repo.py:67-84 | in every interleaving only the lock holder has work in progress, and its rows continue the committed chain |
| AuditWriters.NoForkEver | app/repositories/pg/audit_repo.py:67-84 | in every interleaving of lock, head read, insert, commit and rollback, the committed rows verify and no two share a prev_hash, short of a genesis preimage |
| AuditWriters.AppendOnly | app/repositories/pg/audit_repo.py:63-77 | committed rows are never changed, moved or removed |
| AuditWriters.WriterAppends | app/repositories/pg/audit_repo.py:63-84 | whenever nobody holds the lock, a writer that runs its four statements appends exactly one row, chained from the last, unless it clashes |
| AuditWriters.StatementsExactly | app/repositories/pg/audit_repo.py:63-84 | only a commit adds rows, its own in order; commit and rollback free the lock; only an insert takes an id, for good; nobody touches another's transaction |
| AuditWriters.ForkWithoutLock | app/repositories/pg/audit_repo.py:68-75 | with the head read without the lock, a run from the empty table leaves two committed rows chained from one value |
| Planner.PlanStep | executor/pmsm_sim.py:28-35 | the loop body, on its two variables, is one step of the specification |
| Planner.TrapezoidRef | executor/pmsm_sim.py:22-37 | both arrays hold the plan, step by step, the speed with the sign of the target |
| Planner.StepEnvelope | executor/pmsm_sim.py:27-36 | every step keeps the speed from 0 to v_max, moves only towards the target and never past it, and keeps the braking envelope, before the snap too; a snap drops at most the root of the slack |
| Planner.PlanEnvelope | executor/pmsm_sim.py:22-37 | the envelope holds after any number of steps |
| Planner.StepSpeed | executor/pmsm_sim.py:27-36 | before the snap a step adds a_max*DT up to v_max when more distance remains than braking takes, and otherwise takes a_max*DT off down to zero; it snaps exactly when the target is reached |
| Planner.SpeedsUp | executor/pmsm_sim.py:32-33 | while more remains than braking takes, the speed after k steps is min(k*a_max*DT, v_max) |
| Planner.LongMove | executor/pmsm_sim.py:32-33 | so it is for every k for which full speed from the start would still leave more than braking from it takes |
| Planner.FactoryMove | executor/pmsm_sim.py:12-15 | the 20 mm move at the factory limits gains 0.06 rad/s in each of its first thousand steps |
| Planner.NotFaster | executor/pmsm_sim.py:27-36 | no plan gains on the target faster than v_max |
| Planner.NearStays | executor/pmsm_sim.py:30-35 | within 1e-9 of the target, the plan stays within it |
| Planner.Converges | executor/pmsm_sim.py:22-37 | after the steps full speed needs for the distance, three times those that reaching full speed takes, and five more, the reference is within 1e-9 of the target; it never is before full speed could have covered the distance |
| Planner.ComesToRest | executor/pmsm_sim.py:22-37 | from that number of steps on, the plan stands still for good, on the target or short of it by at most 1e-9 |
| Servo.SimulateTransition | executor/pmsm_sim.py:40-66 | the three arrays hold the states of the clamped loop, step by step |
| Servo.PiLaw | executor/pmsm_sim.py:53-56 | as long as no limit has been met, the current is the proportional gain times the error plus the integral gain times the sum of all errors so far over the sampling time |
| Servo.IntegralBounded | executor/pmsm_sim.py:55 | the integral is held within the current limit |
| Servo.FeedbackOpposes | executor/pmsm_sim.py:53-56 | for gains that are not negative, the current never rises with measured position or speed and never falls with planned position, planned speed or integral |
| Servo.OnPlanDrawsNothing | executor/pmsm_sim.py:53-56 | measured on the plan, at its speed, with nothing integrated, the drive draws nothing |
| Servo.NewtonsLaw | executor/pmsm_sim.py:57-59 | 0.012 times acceleration is 1.4 times current less 0.002 times speed less the resistance 0.5 + 0.006*DV times tanh of the speed, and position moves with the new speed |
| Servo.Plateau | executor/pmsm_sim.py:86-92 | at constant speed the current balances friction and load; where tanh has saturated it is linear in DV |
| Servo.LoadOpposes | executor/pmsm_sim.py:57-58 | without current a moving drive slows down, whichever way it moves |
| Servo.TracksCruise | executor/pmsm_sim.py:49-60 | once on a cruising plan with the balancing current, the drive stays exactly on it and keeps drawing that current, whatever the gains |
| Servo.NotAtOnce | executor/pmsm_sim.py:61-63 | the brake never engages in the first step |
| Servo.CurrentBounded | executor/pmsm_sim.py:53-60 | no recorded current exceeds the limit |
| Servo.SpeedBounded | executor/pmsm_sim.py:57-59 | whatever the noise, gains and load, the speed never exceeds the one at which viscous friction holds the largest torque |
| Servo.BrakeHolds | executor/pmsm_sim.py:52-64 | once braked, the drive keeps its state and draws no current |
| Servo.BrakedOnTarget | executor/pmsm_sim.py:61-63 | a braked drive has a positive target the plan reached exactly, is within two per mille of it and slower than 0.5 rad/s |
| Servo.StandsStill | executor/pmsm_sim.py:22-37 | from the computed step on, the plan stands where it ends |
| Servo.NeverBrakes | executor/pmsm_sim.py:61-63 | when the plan ends short of the target, or the target is not positive, no step ever brakes |
| Servo.BrakesExactly | executor/pmsm_sim.py:52-63 | once the plan stands, a step leaves the drive braked exactly when it was, or the plan ended on a positive target and the step leaves it within two per mille and slower than 0.5 rad/s |
| Servo.ShortStop | executor/pmsm_sim.py:30-35 | a target one full step of acceleration and up to 1e-9 more away is never braked on: the plan stops short of it |
| Servo.TinyTargetNeverBrakes | executor/pmsm_sim.py:30-35 | nor is a target within the planner's own tolerance |
| Commands.Latest | app/repositories/pg/command_repo.py:30-73 | the newest row that matches, and none matches when there is none |
| Commands.CommandService.SubmitCommand | app/services/command_service.py:89-178 | table, log and outcome are those of the checks in order: device, replayed key, pending command, running cycle, insert |
| Commands.CommandService.Transition | app/services/command_service.py:186-218 | a legal move sets status, times and result and logs one row; an illegal one changes nothing |
| Commands.CommandService.Advance | app/services/command_service.py:180-227 | the same by command id; it succeeds exactly when the id exists and the move is legal, and otherwise changes nothing |
| Commands.CommandService.ScanTimeouts | app/repositories/pg/command_repo.py:75-85 | exactly the due commands, in table order |
| Commands.CommandService.ScanCommandTimeouts | worker/tasks.py:90-109 | every due command is marked, and their number returned |
| CommandRuns.RunKeeps | app/services/command_service.py:89-231 | after any run of calls: unique ids and keys, one pending command per device and type, live cycle starts separated by a stop, and replaying the log gives the table along legal paths |
| CommandRuns.LogReplaysTable | app/services/command_service.py:165-203 | each command's status is the last result logged for it, at the end of a legal path of at most two moves |
| CommandRuns.RefusedChangesNothing | app/services/command_service.py:104-135 | a call that is refused changes neither table nor log |
| CommandRuns.DueIsDue | app/repositories/pg/command_repo.py:75-85 | the scan lists exactly the due commands, each once |
| CommandRuns.MarkingEffect | worker/tasks.py:104-109 | marking moves exactly the listed commands and logs one row for each |
| CommandRuns.ScanExact | worker/tasks.py:90-109 | a scan leaves no command that the selection would list, and every command it does not list as it was |
| CommandRuns.RunStable | app/domain/commands.py:40-74 | rows are never removed or reordered, and a finished command never changes |
| CommandRuns.EndsByDeadline | worker/tasks.py:90-109 | whatever else is called, the first scan at or after a command's deadline finds it finished or finishes it, for good |
| CommandRuns.StepStopsExactly | app/services/command_service.py:127-135 | one call breaks the separation of live starts by completed stops exactly when it lets a start in while an earlier live one has no completed stop after it |
| CommandRuns.StoppedExactly | app/services/command_service.py:127-135 | a run keeps that separation throughout exactly when it never lets such a start in |
| CommandRuns.StartsAfterConfirmedStops | app/repositories/pg/command_repo.py:60-73 | when starts are submitted only while no stop of the device awaits confirmation, a completed start not yet stopped always blocks a new one |
| CommandRuns.BehindCanBreak | app/repositories/pg/command_repo.py:60-73 | from any reachable state, a start let in behind an unstopped one can be followed by calls after which no run ever completes a stop between the two |
| CommandRuns.StopMayTimeOut | app/repositories/pg/command_repo.py:60-73 | a run after which two completed starts have no completed stop between them |
| CommandRecords.SubmitsExactly | app/services/command_service.py:104-178 | a submission answers by the first of device, repeated key, pending command, running cycle and known id that it fails, and changes nothing then; otherwise it adds exactly one row, with a window of five seconds for a safety stop and ten for everything else, and one log row |
| CommandRecords.MovesExactly | app/services/command_service.py:186-231 | from which states each call moves the row of its id, and every field and log row it writes |
| CommandRecords.UnknownId | app/services/command_service.py:180-185 | a call for an unknown id changes nothing |
| CommandRecords.ScanByDeadline | app/repositories/pg/command_repo.py:75-85 | a scan at a time times out exactly the submitted and accepted commands for which it is at or after submission plus window, and leaves every other row as it was |
| CommandRecords.LegalPaths | app/domain/commands.py:40-54 | the legal paths of a command are exactly seven |
| CommandRecords.RunExplained | app/services/command_service.py:89-231 | after any run, every field of every command is what a call of that run put there; a timed out one was timed out by a scan no earlier than its deadline, or by name |
| CommandRecords.NeverEarly | worker/tasks.py:90-109 | when only scans decide timeouts, none comes before five or ten seconds after submission |
| SubmitRace.RunKeeps | app/services/command_service.py:107-178 | every interleaving leaves at most one row per type, device and key, exactly one caller created each, and every caller that returned holds a row of its own key |
| SubmitRace.SameKeySameRow | app/services/command_service.py:155-163 | two callers with one type, device and key that return hold the same row, and at most one of them created it |
| SubmitRace.TwoPending | app/repositories/pg/command_repo.py:42-58 | any two callers of one type and known device with different keys can both end pending |
| SubmitRace.OnePendingExactly | app/services/command_service.py:111-125 | at most one command of a device and type awaits confirmation in every interleaving exactly when all callers for one type and known device use one key |
| SubmitRace.AloneIsAtomic | app/services/command_service.py:107-178 | a submission whose statements run without interruption leaves the rows and gives the answer of the atomic call |
| SubmitRace.PendingResolved | app/services/command_service.py:115-125 | a pending command under the caller's own key is returned, under another one refuses it |
| SubmitRace.ClashResolved | app/services/command_service.py:157-163 | after a failed insert the row of the caller's own key is returned; the error is raised only when there is none |
| SubmitRace.RowsStay | app/services/command_service.py:107-178 | no step removes or changes a committed row except along a legal move of its status |
| Registry.FindVersion | app/repositories/files/model_registry_repo.py:120-127 | the first row of that scenario and version, and none when there is none |
| Registry.PromoteRows | app/repositories/files/model_registry_repo.py:131-136 | row by row: the target active, other active rows of the scenario archived, the rest as they were |
| Registry.ModelRegistryFile.ReadAll | app/repositories/files/model_registry_repo.py:54-64 | one new object a row in file order, or the error of a missing file or a bad line |
| Registry.ModelRegistryFile.WriteAll | app/repositories/files/model_registry_repo.py:66-75 | the file holds exactly the rows given, and no sibling file is left |
| Registry.ModelRegistryFile.AddShadow | app/repositories/files/model_registry_repo.py:82-107 | the file gains one shadow row at the end, or the call fails and the file is as it was |
| Registry.ModelRegistryFile.Promote | app/repositories/files/model_registry_repo.py:109-139 | the file holds the switched rows and the target's new row is returned, or the call fails, exactly when scenario, file or version is wrong, and the file is as it was |
| Registry.FindTarget | app/repositories/files/model_registry_repo.py:120-127 | the search stops at the first match |
| Registry.SwitchActive | app/repositories/files/model_registry_repo.py:131-136 | the in-place changes through the alias are the switch of the rows |
| Json.PutPlaces | app/repositories/files/model_registry_repo.py:131-136 | setting a field of a row keeps every key in its place; a new one comes last |
| RegistryRuns.PrintOneLine | app/repositories/files/model_registry_repo.py:73-74 | printed JSON holds no line break, so a row stays one line |
| RegistryRuns.RenderRead | app/repositories/files/model_registry_repo.py:54-75 | reading what was written gives the same rows in the same order |
| RegistryRuns.BlankLinesIgnored | app/repositories/files/model_registry_repo.py:60-63 | a blank line is passed over |
| RegistryRuns.BlanksExactly | app/repositories/files/model_registry_repo.py:60-63 | the characters stripped, one by one |
| RegistryRuns.LineEndsAlike | app/repositories/files/model_registry_repo.py:60-63 | a line may end in a line feed, a carriage return, or both |
| RegistryRuns.PaddedRowRead | app/repositories/files/model_registry_repo.py:60-63 | white space around a row does not matter |
| RegistryRuns.BadLineFails | app/repositories/files/model_registry_repo.py:60-63 | a line that is neither blank nor an object makes the file unreadable |
| RegistryRuns.TrailingTextFails | app/repositories/files/model_registry_repo.py:60-63 | a row with more text behind it makes the file unreadable |
| RegistryRuns.ShadowRowTells | app/repositories/files/model_registry_repo.py:96-104 | the row added for a candidate holds all of it, as a shadow, in the written field order |
| RegistryRuns.RunOnFile | app/repositories/files/model_registry_repo.py:82-139 | over any run of calls the file's text stays the rendering of the rows |
| RegistryRuns.PromoteConserves | app/repositories/files/model_registry_repo.py:131-139 | a promotion keeps order, every field but status, and the rows of other scenarios; the target reads active and every other active row of the scenario archived |
| RegistryRuns.PromoteActivates | app/repositories/files/model_registry_repo.py:109-139 | a successful promotion leaves exactly its target active in the scenario |
| RegistryRuns.PromotesAnyStatus | app/repositories/files/model_registry_repo.py:120-136 | whatever status the first row of the version has, a promotion finds it and makes it active |
| RegistryRuns.ShadowUntilPromoted | app/repositories/files/model_registry_repo.py:82-139 | over any run from a file without the version, a promotion finds a shadow exactly when no earlier promotion of that scenario and version succeeded |
| RegistryRuns.ActiveForever | app/repositories/files/model_registry_repo.py:82-139 | once promoted, a scenario has exactly one active row after any further calls |
| RegistryRuns.CrashAtomic | app/repositories/files/model_registry_repo.py:66-75 | a crash after any number of steps of a write leaves the old rows, or after the replace the new ones |
| Governance.NextHappy | app/domain/training.py:95-103 | every step of the happy path is a legal transition, and only terminal states have none |
| Governance.Backend.Create | app/services/training_service.py:95-130 | a queued job and its log row |
| Governance.Backend.Cancel | app/services/training_service.py:138-160 | a job that is not terminal is cancelled; otherwise the call is refused and nothing changes |
| Governance.Backend.Advance | app/services/training_service.py:162-196 | one step along the happy path with what entering the new state brings, and its log row |
| Governance.ActiveIn | app/repositories/pg/training_repo.py:48-56 | exactly the jobs that are not terminal, in id order |
| Governance.Backend.AdvanceTrainingJobs | worker/tasks.py:147-169 | the first hundred active jobs advanced one after the other, and their number |
| Governance.Backend.EnterShadow | app/services/training_service.py:198-215 | the job gets its version, and the registry its candidate unless it refuses |
| Governance.Backend.ListActiveVersion | app/services/training_service.py:220-229 | the version of the first active row of the scenario, null when unreadable or none |
| Governance.Backend.SpawnPromotionApproval | app/services/training_service.py:217-249 | a pending promotion of the job's version in the engineer's name, linked from the job |
| Governance.Backend.ProposeApproval | app/services/approval_service.py:101-144 | a pending approval and its log row |
| Governance.Backend.ApproveApproval | app/services/approval_service.py:152-213 | missing, forbidden (the proposer, a type without approve code, a role without it) and conflicting in that order; otherwise decided, logged, and then the side effect |
| Governance.Backend.RejectApproval | app/services/approval_service.py:216-247 | the same checks, and the rejection |
| Governance.Backend.WithdrawApproval | app/services/approval_service.py:249-285 | only the proposer, only while pending |
| Governance.Backend.ApplySideEffect | app/services/approval_service.py:288-299 | the effect of the approval's type |
| Governance.Backend.SetSideEffect | app/services/approval_service.py:301-318 | the status recorded and logged |
| Governance.Backend.ApplyModelPromotion | app/services/approval_service.py:320-357 | the registry switched and the effect applied, or apply_failed with a critical alarm |
| Governance.Backend.ApplyParamTuning | app/services/approval_service.py:359-388 | applied, or failed with a warning alarm; a raised error leaves the approval without effect |
| GovernanceRuns.RunKeeps | app/services/approval_service.py:152-388 | the invariant of jobs, approvals, decisions and registry holds after any run of calls |
| GovernanceRuns.ApproveShape | app/services/approval_service.py:177-213 | what approving leaves in every table, in one statement |
| GovernanceRuns.OneCandidateEach | app/services/training_service.py:198-215 | beyond its initial rows the registry holds one row a candidate, of its job's version and scenario, and no job has two |
| GovernanceRuns.EveryShadowHasCandidate | app/services/training_service.py:198-215 | with a registry file, every job that reached shadow has its candidate, if its scenario is well-formed |
| GovernanceRuns.OneApprovalEach | app/services/training_service.py:162-249 | a job has proposed an approval exactly when it has passed, and only one |
| GovernanceRuns.DecidedOnce | app/services/approval_service.py:177-285 | the log holds one decision for each approval that is no longer pending, none for the others |
| GovernanceRuns.DecidedForGood | app/domain/approvals.py:52-87 | a decided approval is as it was after any further run of calls |
| GovernanceRuns.DifferentPerson | app/services/approval_service.py:152-163 | who approves or rejects is not who proposed, nor the engineer of the job, whenever both are known; only the proposer withdraws |
| GovernanceRights.DecidesExactly | app/services/approval_service.py:150-247 | approving and rejecting decide exactly when the approval is there, the caller is not its proposer, the role holds the code of its type and it is pending; otherwise they answer why, in that order, and change nothing |
| GovernanceRights.NoCodeNoDecision | app/services/approval_service.py:164-174 | a role without the approve code of the type is forbidden to approve or reject, and nothing changes |
| GovernanceRights.WithdrawsExactly | app/services/approval_service.py:249-285 | withdrawing succeeds exactly for the named proposer of a pending approval |
| GovernanceRights.DecidedByRight | app/services/approval_service.py:146-285 | after any run, every approved or rejected approval was decided by a call of that run whose recorded role holds the code of its type and whose user is not its proposer; a withdrawn one by its proposer |
| GovernanceRecords.LogsExactly | app/services/approval_service.py:101-318 | every call appends exactly these log rows, and a call that appends none changes nothing |
| GovernanceRuns.ApprovedWithoutEffect | app/services/approval_service.py:359-388 | an approved approval has no side effect exactly when it is a tuning whose parameter name cannot be looked up |
| GovernanceRuns.ReachesWithoutEffect | app/services/approval_service.py:177-213 | two calls leave one: a tuning proposed with a list as parameter name, and its approval by another permitted user |
| GovernanceRuns.PromotionOutcome | app/services/approval_service.py:320-357 | an approved promotion is applied exactly when its target can be promoted; otherwise the registry is untouched and an alarm raised |
| GovernanceRecords.PromotionAppliesExactly | app/services/approval_service.py:320-357 | applied exactly when scenario and version are named and not empty, the scenario is well-formed, and the registry is readable and has a row of that version |
| GovernanceRecords.TuningOutcome | app/services/approval_service.py:359-388 | an approved tuning is applied exactly when all five checks hold, failed when one does not, and left without effect when they raise |
| GovernanceRecords.ActivationEntersShadow | app/services/approval_service.py:288-299 | an approved activation enters shadow and touches nothing else |
| GovernanceRecords.EntersShadowExactly | app/services/training_service.py:198-215 | a job entering shadow gets its version; a well-formed scenario with a readable registry gains one shadow row that holds exactly its data, and otherwise the registry stays as it was |
| GovernanceRecords.ActiveVersionExactly | app/services/training_service.py:220-229 | the version is that of the first active row of the scenario, null when there is none |
| GovernanceRecords.PassComparesVersions | app/services/training_service.py:217-249 | a job that passes proposes its own version against the only active one, or against none when the registry cannot be read |
| GovernanceRecords.RunJobsTell | app/services/training_service.py:95-215 | after any run, every job was requested by a call naming its scenario, engineer and role, its progress is that of its status, only a call cancels it, and its version is its own |
| GovernanceRuns.ShadowUntilApplied | app/services/approval_service.py:320-357 | over any run from a registry without the version, the row a promotion finds is a shadow exactly when no approval has been applied for that scenario and version |
| GovernanceRuns.JobFindsShadow | app/services/approval_service.py:320-357 | the promotion a passed job proposed can always be made, and turns a shadow active exactly when no other approval was applied for the job's version |
| GovernanceRuns.PromotionEndsActive | app/services/approval_service.py:320-357 | after any run, approving the promotion a passed job proposed succeeds and leaves the job's version the only active one of its scenario |
| GovernanceTicks.TickMoves | worker/tasks.py:147-169 | a tick moves exactly the listed jobs, one step each, and keeps their scenarios and engineers |
| GovernanceTicks.TicksMove | worker/tasks.py:147-169 | with at most a hundred active jobs, n ticks move every job n steps of the happy path, as far as it can move |
| GovernanceTicks.TickStatus | worker/tasks.py:147-169 | a tick moves an active job exactly when fewer than a hundred active ones come before it |
| GovernanceTicks.FourTicksAdvance | worker/tasks.py:147-169 | four ticks, whatever is called between them, finish the first hundred active jobs, so every job moves up by a hundred |
| GovernanceTicks.PassesInTime | worker/tasks.py:147-169 | with any number of active jobs, and whatever else is called between the ticks, a job with p active ones before it has passed after 4 * (p / 100 + 1) of them, unless it is cancelled |
| GovernanceTicks.RequestedPasses | app/services/training_service.py:162-249 | requested on any reachable state, a job has passed after that many ticks among any other calls, and its promotion, in its engineer's name, awaits a decision, unless somebody cancels the one or decides the other |
| GovernanceTicks.FromJobToActive | app/services/approval_service.py:177-357 | requested on any reachable state, ticked that often among any other calls but those, and approved by anybody else who may, a job of a well-formed scenario ends with its version the only active one |
| Tuning.VerdictIsFirstFailure | app/domain/param_tuning.py:58-107 | the verdict names the first check that fails, and passes exactly when none does |
| Tuning.ChecksByExample | app/domain/param_tuning.py:58-107 | bounds and cap are inclusive, truth values are no numbers, only idle and normal are safe |
| Tuning.RateTrustsDeclaration | app/domain/param_tuning.py:93-99 | of a proposal that meets the other checks: declared honestly it passes exactly when the real change is within ten percent; declared as zero it always passes |
| Tuning.HonestRateExact | app/domain/param_tuning.py:93-99 | under an honest declaration the rate check holds exactly when the real change is within the cap |
| Tuning.FalseDeclarationPasses | app/domain/param_tuning.py:93-99 | a tripled gain passes under a declared change of zero |
| Tuning.Propose | executor/param_proposal_bridge.py:40-54 | the proposal sent, or the division error of a zero current value |
| Tuning.BeyondCap | executor/param_proposal_bridge.py:43-46 | for any current value but zero, a change is cut exactly when it is more than 10.05 percent of it, away from zero or towards it |
| Tuning.OnlyBoundsFail | executor/param_proposal_bridge.py:40-51 | for any current value but zero a proposal can fail no check but the bounds, and that only when it is cut |
| Tuning.PassesExactly | executor/param_proposal_bridge.py:40-51 | for any current value but zero, a proposal passes exactly when, should the clamped target be more than 10.05 percent away, the rounded ten percent step towards it stays within the bounds |
| Tuning.EveryTargetPasses | executor/param_proposal_bridge.py:40-51 | for any current value but zero, every target passes exactly when that holds for both bounds |
| Tuning.NegativeCurrentFails | executor/param_proposal_bridge.py:40-51 | a negative current value on positive bounds always fails them |
| Tuning.CutStaysInside | executor/param_proposal_bridge.py:40-46 | for a current value of at least one inside the bounds, so is the proposed one |
| Tuning.DeclaredIsActual | executor/param_proposal_bridge.py:43-51 | declared and actual change differ by at most 0.05 percent of the current value |
| Tuning.ProposalPasses | executor/param_proposal_bridge.py:40-51 | for any target and any such current value the proposal passes all five checks and changes at most 10.05 percent |
| Tuning.SmallCurrentFails | executor/param_proposal_bridge.py:44-46 | below one a proposal can fail the bounds check |
| Tuning.SubmitFromRecommendation | executor/param_proposal_bridge.py:56-76 | one proposal for each derating or tuning action in order, up to the first that cannot be computed |
| Tuning.DeratingExact | executor/param_proposal_bridge.py:61-67 | from any acceleration but zero a derating passes exactly when 200 <= 1.1005 * acc and 0.8995 * acc <= 800 |
| Tuning.KpExact | executor/param_proposal_bridge.py:68-73 | from any position gain but zero a tuning proposal passes exactly when 10 <= 1.1005 * kp and 0.8995 * kp <= 30 |
| Tuning.RecommendationsExact | executor/param_proposal_bridge.py:56-76 | on any device: the list is sent whole exactly when no gain it starts from is zero, with one proposal for each executable action, and all pass exactly under those two conditions |
| Tuning.ActionsAskFor | executor/param_proposal_bridge.py:56-76 | from values inside the bounds a tuning asks for 1.08 times the gain up to 30, a derating for 0.9 times the acceleration down to 200, any other action for nothing |
| Tuning.OutOfBoundsFails | executor/param_proposal_bridge.py:68-73 | a position gain of 5 is proposed 5.5, below its bounds, and fails |
| Tuning.DeratingStep | executor/param_proposal_bridge.py:61-67 | a derating asks for a ten percent cut floored at the bound, and is never cut short |
| Executor.SimExecutor.DeviceParams | executor/sim_executor.py:44-49 | an unknown device gets the factory values |
| Executor.FactoryValues | executor/sim_executor.py:44-49 | the factory values are Kp 18, Ki 60, Acc 600 |
| Executor.SimExecutor.ApplyAndVerify | executor/sim_executor.py:62-91 | stale and skipped without saving, or measured before and after and kept or put back, saved and reported with both measurements |
| Executor.ExecutesExactly | executor/sim_executor.py:70-82 | skipped exactly when the proposal's value is more than two percent off a device value not within 1e-9 of zero, rolled back when the following error rises by more than five percent, kept otherwise |
| Executor.ReExecute | executor/sim_executor.py:62-91 | the same approval run again leaves the gains as after the first run; its outcome differs only for a verified change beyond the stale tolerance, which reads stale |
| Executor.VerifiedStays | executor/sim_executor.py:70-82 | a verified change stays whatever is measured on the second run |
| Executor.ExecutedChange | executor/sim_executor.py:70-82 | a bridge proposal for a current value of at least one, executed on a device that has moved on meanwhile, changes the device's own value by at most 12.251 percent, unless that value is within 1e-9 of zero, where the stale check looks away |
| Executor.HonestChange | executor/sim_executor.py:70-82 | under an honest declaration the checks and the stale tolerance bound any executed change at 12.2 percent |
| Executor.FreshRound | executor/param_proposal_bridge.py:61-67 | a proposal made from the device's value is never stale and passes the checks |
| Executor.DeratingClosedForm | executor/param_proposal_bridge.py:61-67 | after rounds of which n were verified the acceleration is max(200, 600 * 0.9^n), the other gains unmoved |
| Executor.DeratingDescends | executor/param_proposal_bridge.py:61-67 | a round lowers the acceleration exactly when it is verified above the floor |
| Executor.DeratingRerunIsStale | executor/sim_executor.py:70-76 | rerunning a verified derating reads stale exactly when it began above 204 |
| ExecutorLoop.Loop.PollOnce | executor/sim_executor.py:94-137 | the list worked through in order: done and unsettled entries skipped, failed ones only marked, applied ones executed, reported and marked; the done-set saved at the end, and the parameter file never behind |
| ExecutorRuns.WindowIsSafe | executor/sim_executor.py:118-124 | in every interleaving, crashes included, an approval without side effect is never in the done-set, and only applied ones are ever executed |
| ExecutorRuns.RunExact | executor/sim_executor.py:110-137 | without crashes an applied approval has one report once done and none before, and the verified reports replay over the factory values to the parameters |
| ExecutorReports.RunFits | executor/sim_executor.py:62-136 | in every interleaving, crashes included, every report is about an approved and applied tuning, names its device, parameter and value, and its outcome is what its own figures ask for |
| ExecutorReports.RunInTurn | executor/sim_executor.py:77-91 | without crashes every report was measured, before and after, on the parameters the reports before it replay to |
| ExecutorReports.RunOnMakes | executor/sim_executor.py:117-135 | it is measured under the disturbance estimated for its device, or none without an estimate |
| ExecutorReports.SettlesExactly | app/services/approval_service.py:359-388 | the second commit says `applied` exactly when all five checks hold, `failed` when one does not, nothing when they raise |
| ExecutorReports.FetchesExactly | executor/sim_executor.py:112-117 | a fetched list holds exactly the wanted rows that are approved, as they were then |
| ExecutorReports.ListsEnd | executor/sim_executor.py:110-137 | finishing a list, restarting and dying part way leave no list to work on |
| ExecutorRuns.FetchSees | executor/sim_executor.py:112-117 | a list fetched after the side effect was committed shows it |
| ExecutorRuns.ExactlyOneReport | executor/sim_executor.py:117-136 | an approval fetched as applied has exactly one report once that list is worked through, and for ever after |
| ExecutorRuns.DeviceAfter | executor/sim_executor.py:117-135 | an approval alone on its device does to it exactly what executing it does, when its turn comes |
| ExecutorRuns.CrashThenPoll | executor/sim_executor.py:77-136 | after a crash at any point of a list and a rerun, the device has the gains of an undisturbed poll; the report differs exactly for a verified change beyond the stale tolerance that had run before the crash |
| ExecutorCrashes.StepReplaysExactly | executor/sim_executor.py:77-134 | one event breaks the replay of the reports to the parameters exactly when the executor dies on an entry whose turn has come, after finding it verified with a value the device did not have |
| ExecutorCrashes.ReplaysExactly | executor/sim_executor.py:77-136 | over any run, crashes included, the reports replay to the parameters throughout exactly when that never happens |
| ExecutorCrashes.StepReportsExactly | executor/sim_executor.py:126-136 | one event breaks one report for each approval done, none for others, exactly when the executor dies in an unfinished list, past an entry that was due when it began |
| ExecutorCrashes.ReportsExactly | executor/sim_executor.py:126-136 | over any run, crashes included, that holds throughout exactly when this never happens |
| ExecutorCrashes.RerunReplaysExactly | executor/sim_executor.py:62-136 | after a crash and the rerun of the list, the reports in order replay to the device's parameters exactly unless the executor died on this approval, verified and now reading stale |
| ExecutorCrashes.RerunFilesExactly | executor/sim_executor.py:62-136 | the files that remain do exactly unless the approval had run at all before the crash, verified and now reading stale |
| ExecutorCrashes.FirstCrashReplays | executor/sim_executor.py:62-136 | both hold of a crash in any state reached without one |
| ExecutorCrashes.DeratingReportLost | executor/sim_executor.py:62-136 | two runs from the start in which a derating from 600 to 540, submitted, approved, settled and fetched, loses its report, one each way |
| Stream.Ids | reference/ml_pipeline/extract_features.py:216 | the distinct keys, ascending |
| Stream.CsvWriter.WriteRows | reference/ml_pipeline/extract_features.py:183-197 | the file keeps one header before its first line, and the counter the number of lines |
| Stream.ProcessRun | reference/ml_pipeline/extract_features.py:161-180 | one line a transition, transitions ascending |
| Stream.StreamFile | reference/ml_pipeline/extract_features.py:200-224 | the calls and the count are those of the splitter; an error has written nothing |
| Stream.FailsOnEmptyFirst | reference/ml_pipeline/extract_features.py:211-214 | the splitter raises exactly when the first chunk has no rows |
| Stream.StreamConserves | reference/ml_pipeline/extract_features.py:200-224 | every chunking hands every row to `process_run` exactly as often as the file holds it |
| Stream.OneCallPerRun | reference/ml_pipeline/extract_features.py:200-224 | when no chunk brings back a run already passed, there is exactly one call a run, with all its rows in order |
| Stream.OneCallExactly | reference/ml_pipeline/extract_features.py:200-224 | a chunking calls no run twice exactly when no chunk brings back a run already passed |
| Stream.EveryChunkingExactly | reference/ml_pipeline/extract_features.py:200-224 | every chunking of a file calls no run twice exactly when the rows of each run are contiguous |
| Stream.StreamIsGroupBy | reference/ml_pipeline/extract_features.py:200-224 | if run numbers ascend, the calls are those of one group-by over the whole file |
| Stream.LinesOfStream | reference/ml_pipeline/extract_features.py:161-224 | when no run comes back, no run and transition gets two lines, and each line is computed from all of its rows |
| Cache.ToPrediction | app/repositories/http/model_service.py:63-71 | whatever number the service answers, infinite and not-a-number included, the value lies from 0 to 1, and is unchanged if it did |
| Cache.RunKeeps | app/repositories/http/model_service.py:106-124 | in every interleaving the lock is held by the one caller with a request under way, and by nobody when there is none |
| Cache.StartsWhenStale | app/repositories/http/model_service.py:116-120 | a predict request starts only when every answer stored for its device is at least the time to live old and no other request is under way |
| Cache.ReturnsFreshOrOwn | app/repositories/http/model_service.py:106-124 | every value returned is the answer the caller's own request brought, or one stored for the same device less than the time to live before |
| Cache.StoredIsAnswer | app/repositories/http/model_service.py:63-71 | every stored value is what the service answered to one caller, its score brought into the range from 0 to 1 |
| Cache.EnterExactly | app/repositories/http/model_service.py:116-120 | a caller that gets the lock returns the last stored answer if one is younger than the time to live, and otherwise starts a request |
| Cache.CallExactly | app/repositories/http/model_service.py:112-116 | a new caller returns such an answer at once, and otherwise waits for the lock |
| Cache.VersionExactly | app/repositories/http/model_service.py:89-104 | the version comes from metadata less than 300 seconds old, is asked for otherwise, and is the last known one when that fails |
| Cache.NeverTwoRequests | app/repositories/http/model_service.py:116-124 | two requests never overlap, for any devices |
| Cache.ReturnsUnit | app/repositories/http/model_service.py:106-124 | every value returned lies from 0 to 1 |
| Cache.RequestsSpaced | app/repositories/http/model_service.py:106-124 | after an answer is stored no request for its device starts until the time to live has passed |
| Cache.FailureReleases | app/repositories/http/model_service.py:116-124 | failure or cancellation under the lock frees it and leaves the cache as it was |

## Left out

- SHA-256 itself: a digest is any function from text to text; results that depend on it name the colliding payloads. Text is hashed as text, since UTF-8 encodes it one to one.
- Floats inside JSON values, and lone surrogates in strings; a float in a registry row stands as its text.
- Objects with a key given twice, which Python's reader merges: no modelled writer makes one, so this concerns a registry file written by others.
- Floating-point rounding in the servo, the tuning and the executor: arithmetic is exact, with `round` to half even modelled where the source rounds.
- Wall-clock times, UUID generation and time formatting: times are parameters or absent, ids are given or row numbers.
- Row-level races between worker tasks, and between the backend and a worker rewriting `models.jsonl`: service calls are atomic except in AuditWriters, SubmitRace, ExecutorRuns and Cache; the code takes no lock there.
- Regeneration of `models.jsonl` when the worker restarts, and registry lines that are not objects.
- Direct deposits of audit events through the API, which are not command calls.
- Commands.CommandService.Transition: the times set are those passed in; a scan uses its own time where the code reads the clock again.
- Commands.CommandService.SubmitCommand: the branch that returns a pending command with the same key cannot be taken by calls made one at a time; it is part of SubmitRace.
- Executor.SimExecutor.ApplyAndVerify: the measured quantities other than the following error (settling time, plateau and peak current), the rounding of that error, and the peak-current difference of the report, whose division fails on a zero peak.
- ExecutorLoop.Loop.PollOnce: HTTP failures and the list's page size; a poll sees any approved rows in any order. Summaries hold a number or nothing as the current value.
- The executor's own JSON files torn by a crash in the middle of a write: a file holds what was last written to it whole.
- Governance.Backend.Advance: the times a job started and completed, its error figure and its shadow comparison, which are constants.
- Cache.RunKeeps: one event loop, so the lock is never replaced, and no reset of the cache; waiters may enter in any order.
- The worker loop that confirms mock commands: it is a run of the modelled accept and complete calls.
- Events published to Redis, HTTP routing, request validation, settings and permission tables: permissions are a given predicate, publishing never changes state.
- Alarm lifecycle: alarms are an appended list.
- Statistics of a transition and of a simulated move: a feature line carries the rows it is computed from.
