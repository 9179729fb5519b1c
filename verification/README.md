# dbward in Dafny

dbward puts approvals between people and databases: requests are reviewed by workflows, executed by agents that
hold signed tokens, and their results relayed back to whoever waits. This project models the parts of it whose
correctness rests on an invariant, an exact characterisation or an inverse, and proves those.

- **Result relay** (`ResultChannel`, `ResultTable`, `RelayProtocol`, `RelayDelivery`, `RelayResults`): the slot table
  with clean-up and oldest-first eviction as a class, and publishers, subscribers, resets and shutdown as an
  interleaved step system over it. No wake-up is lost in any run, and what a subscription returns is exactly the last
  summary written to its slot.
- **Migrations** (`MigrationSelection`, `MigrationRunner`, `MigrationLaws`, `MigrationFile`, `MigrationReading`): which
  entries a run takes; runs over a driver that may fail at any entry and a flag that may be raised at any time; exact
  progress, resumption, down as the inverse of up; the file reader, what it makes of any file, a writer and the round
  trip.
- **PostgreSQL arrays** (`PgArray`, `PgArrayEdges`): the recursive-descent reader with its moving position, proved
  against a grammar of the text format in both directions, a printer, and what may stand around the text.
- **Execution tokens** (`CanonicalJson`, `ExecutionToken`): the canonical form, the signed message, signing and
  verifying.
- **License** (`License`, `LicenseLaws`): expiry, grace and events over every run of the tick loop, and the
  compare-and-swap loop under concurrency.
- **Sessions** (`EventStream`, `StreamPrimary`, `StreamCompletion`, `StreamResume`, `StreamView`, `SessionStore`,
  `SessionCleanup`): the replay buffer and fan-out, what the primary client is sent, what is sent after completion, a client resuming while events are emitted, the session
  cap under concurrent creators, and clean-up beside clients. `StreamView` ties the resuming client to the stream.
- **Cancellation** (`CancelHandshake`): the flag and connection exchange between driver and cancellers.
- **Configuration** (`ConfigModel`, `WorkflowOverlap`, `WorkflowScopes`, `ConfigFaults`, `ConfigMeaning`,
  `ConfigValidation`): the fail-fast and the collecting validator, both proved against one table of faults, and what
  it means that there is none.
- **Base64** (`ByteBits`, `Base64`): the hand-written encoder, on bits, against a decoder.

`Wrappers` holds `Option` and `Result`, `Text` the string searching and trimming that two components share.

Code that updates state is a class or a method with loops, proved against a function or predicate; concurrent code
is also a step system, with theorems about all states of all runs. Time, randomness, driver outcomes, server
answers and scheduling are parameters or free choices.

Some things the code does differ from what one would expect of it. Each has a theorem that says exactly when the
expected property holds, and an input or run where it does not:

- a subscriber whose slot is evicted before it registers is not found by the publish it waits for
  (`RelayProtocol.PublishReachesExactly`, `RelayDelivery.PublishWakes`, `StrandedSubscriber`), although registering
  before looking at the data is meant to rule out a lost notification;
- a token signed with a bar in one of its fields is also accepted with the boundary between two fields moved
  (`ExecutionToken.SpeaksForExactly`, `BoundaryMoved`);
- a resuming client can miss events emitted between the gap check and the replay (`StreamResume.ResumedWithoutGap`,
  `GapAfterCheck`), and the last events of a stream that completes before it goes live
  (`StreamResume.EndedCompletely`, `EndLost`);
- after a stream was completed, its primary client can still get an event, and so can a client that looked at the
  flag before and registers after (`StreamCompletion.SilentExactly`, `DeliveredAfterCompletion`,
  `LateJoinDelivered`);
- two creators can refuse each other the last session (`SessionStore.RejectedExactly`, `BothRejected`);
- clean-up can remove a session that is in use again (`SessionCleanup.RemovedIdleExactly`, `ActiveSessionRemoved`);
- the license checker keeps the latest validation time in memory but persists the last one, and persists nothing when
  the license is revoked, so a restart can decide differently (`LicenseLaws.RestartDecidesAlike`,
  `RestartUsesEarlierTime`, `RestartForgetsRevocation`);
- a kill can be issued for a connection whose query is over (`CancelHandshake.KillMeetsQueryExactly`, `LateKill`);
- a migration file with its down marker first makes the reader panic (`MigrationFile.PanicsExactly`,
  `DownFirstPanics`);
- a workflow for all environments of a database without environments covers nothing and is not reported as dead
  (`WorkflowScopes.DeadExactly`, `UselessNotDead`).

## Model

| member | source | states |
|---|---|---|
| `ResultChannel.InMemoryResultChannel.constructor` | crates/dbward-infra/src/result_channel.rs:33-40 | a new channel is empty, with the given capacity and time to live, and satisfies the channel invariant |
| `ResultChannel.InMemoryResultChannel.EnsureSlot` | crates/dbward-infra/src/result_channel.rs:47-85 | an existing slot that survives clean-up is handed out again; otherwise exactly the excess of oldest slots is evicted, their waiters woken, and one empty slot inserted; the invariant (capacity, accounting) is kept |
| `ResultChannel.InMemoryResultChannel.RetainExpired` | crates/dbward-infra/src/result_channel.rs:52-55 | exactly the slots that hold data, are past the time to live and are not locked are dropped, and each is counted as expired |
| `ResultChannel.InMemoryResultChannel.EvictToCapacity` | crates/dbward-infra/src/result_channel.rs:62-76 | the evicted set is an oldest-first one of exactly the size needed to get below capacity, and everything else is unchanged but for the woken waiters |
| `ResultChannel.InMemoryResultChannel.EvictOldest` | crates/dbward-infra/src/result_channel.rs:63-71 | the removed slot has minimal creation time, its waiters are woken and the eviction is counted |
| `ResultChannel.InMemoryResultChannel.OldestKey` | crates/dbward-infra/src/result_channel.rs:63-66 | the returned key is present and no slot is older |
| `ResultChannel.InMemoryResultChannel.AddSlot` | crates/dbward-infra/src/result_channel.rs:78-84 | one fresh empty slot under the key |
| `ResultChannel.InMemoryResultChannel.NotifyWaiters` | crates/dbward-infra/src/result_channel.rs:69 | wakes all and only the waiters registered on that slot |
| `ResultChannel.InMemoryResultChannel.CreateSlot` | crates/dbward-infra/src/result_channel.rs:90-97 | ensures a slot and clears its data unless the data lock is held |
| `ResultChannel.InMemoryResultChannel.NotifyAll` | crates/dbward-infra/src/result_channel.rs:139-144 | wakes the waiters of every mapped slot and changes nothing else |
| `ResultChannel.InMemoryResultChannel.NotifyEach` | crates/dbward-infra/src/result_channel.rs:141-143 | waking slot by slot, in any order, wakes the waiters of all of them |
| `ResultChannel.EvictStep` | crates/dbward-infra/src/result_channel.rs:62-76 | evicting one more oldest slot keeps the evicted set oldest-first and one larger, and the channel valid |
| `ResultChannel.EvictOneMore` | crates/dbward-infra/src/result_channel.rs:62-76 | evicting slots one at a time is evicting the set of them at once |
| `ResultChannel.EvictValid` | crates/dbward-infra/src/result_channel.rs:62-76 | evicting any set of slots keeps the invariant and frees that many places |
| `ResultChannel.RetainValid` | crates/dbward-infra/src/result_channel.rs:52-55 | clean-up keeps the invariant, so inserted = present + evicted + expired |
| `ResultChannel.InsertValid` | crates/dbward-infra/src/result_channel.rs:78-83 | inserting below capacity keeps the invariant |
| `ResultTable.StaleExactly` | crates/dbward-infra/src/result_channel.rs:52-55 | a slot is cleaned up if and only if it holds data, nobody has its lock, and creation time plus ttl_secs * 10^9 nanoseconds is not after now |
| `ResultTable.EnsuredExactly` | crates/dbward-infra/src/result_channel.rs:47-85 | `ensure_slot` finds the slot of its key exactly if that is there and not to be cleaned up, and then removes nothing but what is; else it makes an empty slot and evicts only live slots, the oldest first, exactly as many as exceed the limit |
| `RelayProtocol.EnsuredEvolves` | crates/dbward-infra/src/result_channel.rs:47-85 | whatever `ensure_slot` does, the channel stays valid, no slot loses or gains data, unmapped slots stay unmapped, and the returned slot is the mapped one for the key |
| `RelayProtocol.EvolvingStep` | crates/dbward-infra/src/result_channel.rs:47-144 | a step that only moves the channel forward and advances one task keeps the protocol invariant |
| `RelayProtocol.OwnStepKeeps` | crates/dbward-infra/src/result_channel.rs:94-124 | a step in which a task changes only its own slot keeps the protocol invariant |
| `RelayProtocol.StepKeeps` | crates/dbward-infra/src/result_channel.rs:90-144 | every step of every task keeps the invariant |
| `RelayProtocol.NextKeeps` | crates/dbward-infra/src/result_channel.rs:90-144 | every step of the system, including new tasks appearing, keeps the invariant |
| `RelayProtocol.RunKeeps` | crates/dbward-infra/src/result_channel.rs:33-144 | the invariant holds in every state of every run |
| `RelayProtocol.NoWakeUpIsLost` | crates/dbward-infra/src/result_channel.rs:105-137 | in every interleaving, a waiting subscriber that has not been woken has a slot that is still empty or a publisher that wrote it and is about to notify |
| `RelayProtocol.BoundsAndProvenance` | crates/dbward-infra/src/result_channel.rs:47-137 | in every run: at most max(1, max_slots) slots; inserted = present + evicted + expired; a summary a subscriber returns was published under its key (which one it returns, and when, is `RelayResults.Returned`) |
| `RelayProtocol.CleanupRemovesCompleted` | crates/dbward-infra/src/result_channel.rs:52-55 | clean-up takes a slot out of the table if and only if it holds data, is not locked, and its time to live in nanoseconds has gone by since it was made |
| `RelayProtocol.RemovalWakes` | crates/dbward-infra/src/result_channel.rs:62-76 | a slot that clean-up leaves and `ensure_slot` then takes out of the table is evicted, and everyone registered on it is woken, whatever it holds |
| `RelayProtocol.DetachedForever` | crates/dbward-infra/src/result_channel.rs:47-85 | a slot that left the table is never found again |
| `RelayProtocol.ReachesExactly` | crates/dbward-infra/src/result_channel.rs:99-137 | in any state the protocol reaches: an `ensure_slot` on the key of an unwoken waiter never yields its slot if that was out of the table when the waiter looked, and always does otherwise unless a notification is pending |
| `RelayProtocol.PublishReachesExactly` | crates/dbward-infra/src/result_channel.rs:99-137 | so in every run a later publish for the key finds the slot a waiting subscriber holds if and only if that slot was still in the table when the subscriber looked at it |
| `RelayDelivery.PublishWakes` | crates/dbward-infra/src/result_channel.rs:99-137 | in every run: once a publish that began after a reachable subscriber started to wait is finished, the subscriber, if it still waits, has been woken, or another publisher wrote its slot and is about to notify |
| `RelayDelivery.PublishWakesOnlyReachable` | crates/dbward-infra/src/result_channel.rs:99-137 | in every run: the notification of such a publish wakes only reachable subscribers |
| `RelayDelivery.NextMoves` | crates/dbward-infra/src/result_channel.rs:90-144 | every step moves one task along its path and leaves the others where they are; nobody woken is forgotten |
| `RelayResults.NextEffects` | crates/dbward-infra/src/result_channel.rs:90-144 | every step moves one task, and what it does to the data and the lock of every slot is what that task does |
| `RelayResults.LockExcludes` | crates/dbward-infra/src/result_channel.rs:101-132 | in every run: at most one task is inside the data lock of a slot |
| `RelayResults.LockedUntouched` | crates/dbward-infra/src/result_channel.rs:94-132 | in every run: while a subscriber is inside the lock of its slot nobody writes the slot and no retry clears it |
| `RelayResults.HoldsExactly` | crates/dbward-infra/src/result_channel.rs:90-102 | in every run: a slot holds a summary if and only if some publisher wrote that summary and since then nobody wrote the slot and no retry cleared it |
| `RelayResults.Returned` | crates/dbward-infra/src/result_channel.rs:104-137 | in every run: a subscription that ends timed out, with nothing, or its task was inside the lock of its slot and returns what the slot held there and then: a summary if and only if that is the last one written and not cleared, nothing if and only if the slot was empty |
| `RelayResults.PublishDelivers` | crates/dbward-infra/src/result_channel.rs:99-137 | in every run: if a reachable subscriber waits, no notification of its slot is pending, a publish on its key begins, nobody else writes or clears the slot, and the subscriber still waits when the publisher has written, then the subscription times out or returns exactly the published summary |
| `RelayProtocol.StrandedSubscriber` | crates/dbward-infra/src/result_channel.rs:105-137 | a run that shows the condition is needed: the slot is evicted between `ensure_slot` and registration, the publish completes, and the subscriber still waits unwoken |
| `MigrationRunner.Driver.Apply` | crates/dbward-driver/src/postgres.rs:267-366 | the driver contract: success executes the SQL and adds a version not yet recorded; failure leaves the version table, and for a transactional entry the database, unchanged |
| `MigrationRunner.Driver.Revert` | crates/dbward-driver/src/postgres.rs:267-366 | the driver contract for reverting: success executes the SQL and removes the version; failure as for applying |
| `MigrationRunner.RunUp` | crates/dbward-migrate/src/runner.rs:19-77 | the list to apply is the first min(n, unrecorded) entries of the detail that are not recorded, n the count limit; the outcome, the version table and the database are those of stopping after a prefix of it: Ok only at its end, a bare error only when nothing was applied, `completed` exactly the applied prefix otherwise; a reported driver failure is one failed call, a reported cancellation a raised flag and none |
| `MigrationRunner.ApplyEach` | crates/dbward-migrate/src/runner.rs:40-76 | the same of the loop alone |
| `MigrationRunner.RunDown` | crates/dbward-migrate/src/runner.rs:80-139 | the list to revert is the last min(n, recorded) recorded entries of the detail, last first; the outcome and state are those of stopping after a prefix of it, and the reported cause is the true one |
| `MigrationRunner.RevertEach` | crates/dbward-migrate/src/runner.rs:102-138 | the same of the loop alone |
| `MigrationRunner.StepMore` | crates/dbward-migrate/src/runner.rs:41-72 | one more entry extends the applied list, the version set and the executed SQL by exactly that entry |
| `MigrationSelection.ToApplyIsFirst` | crates/dbward-migrate/src/runner.rs:34-39 | what an up run takes are the first min(n, unrecorded) entries that are not recorded, in the order of the detail: every unrecorded entry it leaves stands behind all it takes |
| `MigrationSelection.ToRevertIsLast` | crates/dbward-migrate/src/runner.rs:95-101 | what a down run takes are the last min(n, recorded) entries that are recorded, last first: every recorded entry it leaves stands before all it takes |
| `MigrationSelection.SelectionUnique` | crates/dbward-migrate/src/runner.rs:34-101 | there is only one such list, so a list is the one a run takes if and only if it has these properties |
| `MigrationLaws.MissingOnce` | crates/dbward-migrate/src/runner.rs:34-39 | the list of missing migrations holds each unrecorded version once |
| `MigrationLaws.MissingIsPending` | crates/dbward-migrate/src/runner.rs:34-39 | with distinct versions it is the pending list |
| `MigrationLaws.Progress` | crates/dbward-migrate/src/runner.rs:40-76 | after any interrupted run, what was missing is what was applied followed by what is still missing |
| `MigrationLaws.Resumable` | crates/dbward-migrate/src/runner.rs:19-77 | any series of interrupted runs ended by a clean one, without a count limit, applies the missing list exactly once each and in order; with transactional entries the database is that of one uninterrupted run |
| `MigrationLaws.LastRunCompletes` | crates/dbward-migrate/src/runner.rs:19-77 | a clean run applies everything that was missing |
| `MigrationLaws.UndoneInReverse` | crates/dbward-migrate/src/runner.rs:95-138 | undoing entries in reverse order restores the database |
| `MigrationLaws.DownUndoesUp` | crates/dbward-migrate/src/runner.rs:19-139 | a successful up run and a successful down run over its versions restore database and version table, and the reverted list is the reverse of the applied one |
| `MigrationLaws.ExecConcat` | crates/dbward-migrate/src/runner.rs:40-76 | running two lists one after the other is running their concatenation |
| `MigrationFile.RoundTrip` | crates/dbward-migrate/src/parser.rs:48-86 | for every version without `_`, every name, trimmed up text without the down marker, optional non-empty trimmed down text and both transaction flags, reading the written file gives back exactly those parts |
| `MigrationFile.RewriteStable` | crates/dbward-migrate/src/parser.rs:59-86 | whatever file was accepted, its parts satisfy those conditions, so writing and reading them again changes nothing (what the parts are is `MigrationReading.ReadExactly`) |
| `MigrationReading.ReadExactly` | crates/dbward-migrate/src/parser.rs:48-86 | a file is read as a migration if and only if its name is version, first `_`, name and `.sql`, the up text is the trimmed text between the end of the line of the first up marker and the first down marker or the end, the down text the trimmed text behind the line of the first down marker (none if empty or without marker), and each flag is off exactly when `transaction:false` occurs on the rest of its marker line |
| `MigrationReading.SkippedExactly` | crates/dbward-migrate/src/parser.rs:59-66 | a file is passed over if and only if its name does not end in `.sql`, has no `_` before that, or no up marker occurs |
| `MigrationReading.MarkerLineExactly` | crates/dbward-migrate/src/parser.rs:48-57 | the search finds the first marker, the line ends behind the first newline after it or at the end of the text, and the flag is searched in between |
| `Text.TrimExactly` | crates/dbward-migrate/src/parser.rs:70-76 | a text is what trimming leaves if and only if it has no white space at its ends and is the rest of the original without white space at the ends |
| `MigrationFile.SectionsRoundTrip` | crates/dbward-migrate/src/parser.rs:66-76 | the same for the content alone |
| `MigrationFile.MarkerLineRead` | crates/dbward-migrate/src/parser.rs:48-57 | a written marker line is read as its transaction flag, and the SQL starts right behind it |
| `MigrationFile.NameRoundTrip` | crates/dbward-migrate/src/parser.rs:60-61 | the version and the name are read back from the file name |
| `MigrationFile.HasSeparator` | crates/dbward-migrate/src/parser.rs:61 | splitting succeeds exactly when there is a `_`, and the version holds none |
| `MigrationFile.DownMarkerFound` | crates/dbward-migrate/src/parser.rs:69 | the first down marker of a written file is the one of its down section |
| `MigrationFile.PanicsExactly` | crates/dbward-migrate/src/parser.rs:66-71 | slicing is out of order, and the reader panics, exactly on a migration file whose first down marker stands before the end of the first up marker line |
| `MigrationFile.DownFirstPanics` | crates/dbward-migrate/src/parser.rs:66-71 | so every file that starts with its down section panics |
| `PgArray.ParseQuotedElement` | crates/dbward-driver/src/pg_array.rs:79-111 | the method with a moving position computes the specification on the remaining input and leaves the position behind the element |
| `PgArray.ReadQuoted` | crates/dbward-driver/src/pg_array.rs:84-108 | its loop reads exactly the body of the quoted element |
| `PgArray.ParseUnquotedElement` | crates/dbward-driver/src/pg_array.rs:113-135 | the same for an unquoted element, NULL included |
| `PgArray.ParseArrayAt` | crates/dbward-driver/src/pg_array.rs:30-65 | the same for an array, with the depth limit |
| `PgArray.ReadElements` | crates/dbward-driver/src/pg_array.rs:46-64 | its loop reads exactly the elements of the array |
| `PgArray.ParseItemAt` | crates/dbward-driver/src/pg_array.rs:47-77 | the same for one item |
| `PgArray.ParsePgArray` | crates/dbward-driver/src/pg_array.rs:13-28 | the entry point computes the specification parser, rejecting bounds and trailing bytes |
| `PgArray.ArraySound` | crates/dbward-driver/src/pg_array.rs:30-65 | an accepted prefix is a spelling of the value by the array grammar, and its depth is within the limit |
| `PgArray.ElementsSound` | crates/dbward-driver/src/pg_array.rs:46-64 | the same for the elements of an array |
| `PgArray.ItemSound` | crates/dbward-driver/src/pg_array.rs:47-77 | the same for one item |
| `PgArray.ElementSound` | crates/dbward-driver/src/pg_array.rs:67-135 | the same for a scalar element |
| `PgArray.QuotedBodySound` | crates/dbward-driver/src/pg_array.rs:79-111 | a quoted body ends at its closing quote and spells the value read |
| `PgArray.ArrayComplete` | crates/dbward-driver/src/pg_array.rs:30-65 | every spelling of an array is read as its value, or refused as too deep exactly when it is |
| `PgArray.ElementsComplete` | crates/dbward-driver/src/pg_array.rs:46-64 | the same for the elements of an array |
| `PgArray.ItemComplete` | crates/dbward-driver/src/pg_array.rs:47-77 | the same for one item |
| `PgArray.ElementComplete` | crates/dbward-driver/src/pg_array.rs:67-135 | the same for a scalar element |
| `PgArray.AcceptsExactly` | crates/dbward-driver/src/pg_array.rs:13-28 | the parser returns a value if and only if the trimmed input, to its last byte, is a spelling of it of depth at most six |
| `PgArrayEdges.TrimExactly` | crates/dbward-driver/src/pg_array.rs:17 | what is left for the parser has no white-space character at its ends, is the input without a string of white-space characters at each end, and is the only such text |
| `PgArrayEdges.AcceptsText` | crates/dbward-driver/src/pg_array.rs:13-28 | the parser returns a value if and only if the input, white space at its ends aside, is a spelling of it of depth at most six |
| `PgArrayEdges.BoundsRefusedExactly` | crates/dbward-driver/src/pg_array.rs:18-20 | the error is the one for explicit bounds if and only if `[` follows the leading white space |
| `PgArray.TooDeepExactly` | crates/dbward-driver/src/pg_array.rs:30-38 | a well-formed array is refused exactly when it is deeper than six |
| `PgArray.Unambiguous` | crates/dbward-driver/src/pg_array.rs:13-135 | no input spells two arrays |
| `PgArray.EscapeSpells` | crates/dbward-driver/src/pg_array.rs:79-111 | escaping a text is a spelling of it |
| `PgArray.PrintDenotes` | crates/dbward-driver/src/pg_array.rs:13-135 | the printed form is a spelling of the value |
| `PgArray.RoundTrip` | crates/dbward-driver/src/pg_array.rs:13-135 | printing with quoting and escaping and then parsing gives back every nested array of texts and NULLs of depth at most six, and the depth error for every other |
| `PgArray.ReprintStable` | crates/dbward-driver/src/pg_array.rs:13-135 | reprinting any accepted input parses to the same value |
| `PgArray.DenotedUtf8` | crates/dbward-driver/src/pg_array.rs:100-135 | every text of an accepted value passed the UTF-8 test |
| `CanonicalJson.SortMembers` | crates/dbward-agent/src/executor/token.rs:14-15 | sorting members is a permutation of them |
| `CanonicalJson.SortMembersSorted` | crates/dbward-agent/src/executor/token.rs:14-18 | the result is in key order |
| `CanonicalJson.StrictlySortedUnique` | crates/dbward-agent/src/executor/token.rs:14-18 | a set of keys has one sorted listing |
| `CanonicalJson.EquivalentSortsEqual` | crates/dbward-agent/src/executor/token.rs:10-27 | values equal up to member order, at any depth, sort to the same value |
| `CanonicalJson.SortsEqualEquivalent` | crates/dbward-agent/src/executor/token.rs:10-27 | values that sort to the same value are equal up to member order |
| `CanonicalJson.CanonicalExactly` | crates/dbward-agent/src/executor/token.rs:10-27 | two values have the same canonical form if and only if they are equal up to reordering object members at every depth |
| `CanonicalJson.CanonicalIdempotent` | crates/dbward-agent/src/executor/token.rs:10-27 | canonicalizing is idempotent and keeps every key, every value and all array order |
| `CanonicalJson.EquivalentToCanonical` | crates/dbward-agent/src/executor/token.rs:10-27 | a value is equal to its canonical form up to member order |
| `CanonicalJson.SortValueWellFormed` | crates/dbward-agent/src/executor/token.rs:10-27 | canonicalizing keeps keys distinct |
| `ExecutionToken.CanonicalTextExactly` | crates/dbward-agent/src/executor/token.rs:29-32 | two detail texts canonicalize alike if and only if both parse to equivalent values or neither parses and they are the same text |
| `ExecutionToken.JoinSplit` | crates/dbward-infra/src/token_signer.rs:78-88 | splitting a message at its first bars and joining again gives the message |
| `ExecutionToken.SplitJoin` | crates/dbward-infra/src/token_signer.rs:78-88 | a message whose fields but the last hold no bar splits into its fields |
| `ExecutionToken.SplitCount` | crates/dbward-infra/src/token_signer.rs:78-88 | any message of more fields splits into the asked number of parts |
| `ExecutionToken.MessageInjective` | crates/dbward-infra/src/token_signer.rs:78-88 | two such field lists of one length with the same message are equal, even where the last field holds a bar |
| `ExecutionToken.OneReading` | crates/dbward-infra/src/token_signer.rs:78-88 | every message has exactly one reading in which only the last field may hold a bar |
| `ExecutionToken.PipesOfMessage` | crates/dbward-infra/src/token_signer.rs:78-88 | a message has at least the bars between its fields, and just those exactly when no field holds one |
| `ExecutionToken.JoinPair` | crates/dbward-infra/src/token_signer.rs:78-88 | neighbouring fields can be exchanged for any two that join alike |
| `ExecutionToken.MessageDeterminesFields` | crates/dbward-infra/src/token_signer.rs:78-88 | over all lists of as many fields, two or more, a message determines its fields if and only if no field at all holds a bar |
| `ExecutionToken.SignedTokenAccepted` | crates/dbward-agent/src/executor/token.rs:59-120 | a freshly signed token is accepted if and only if it has not expired, the claim names the same request, operation, database and environment, and the detail hashes to the signed hash (what is hashed is `IssuedTokenAccepted`) |
| `ExecutionToken.ReorderedDetailAccepted` | crates/dbward-agent/src/executor/token.rs:59-120 | reordering members of a migration detail does not lose the token |
| `ExecutionToken.SameWorkHashesAlike` | crates/dbward-app/src/use_cases/agent_claim.rs:168-177 | the server and the agent hash the same text if and only if the work is the same: with a plan the same plan whatever the detail; without, for the three migrations equivalent JSON or the same unreadable text, for everything else the same text |
| `ExecutionToken.IssuedTokenAccepted` | crates/dbward-app/src/use_cases/agent_claim.rs:168-211 | with a hash that never collides: a token the server issued for a request is accepted for a claim if and only if it is at most 300 seconds old, the claim agrees in id, operation, database and environment, and it is the same work |
| `ExecutionToken.IssuedTokenRefused` | crates/dbward-agent/src/executor/token.rs:59-120 | otherwise it is refused with the error of the first of these that fails, in the order of the checks |
| `ExecutionToken.SameWorkAccepted` | crates/dbward-agent/src/executor/token.rs:59-120 | whatever the hash: the same work in time is accepted |
| `ExecutionToken.AcceptedMeansSigned` | crates/dbward-agent/src/executor/token.rs:59-120 | if no signed field holds a bar, every accepted token that carries the signature, for whatever claim, carries exactly the signed fields |
| `ExecutionToken.SpeaksForExactly` | crates/dbward-agent/src/executor/token.rs:59-120 | until it expires, a signature is accepted for its own fields only if and only if no signed field holds a bar |
| `ExecutionToken.OtherReading` | crates/dbward-agent/src/executor/token.rs:59-120 | where the boundary between two signed fields can move, another token is accepted with the same signature |
| `ExecutionToken.BoundaryMoved` | crates/dbward-agent/src/executor/token.rs:59-120 | a token signed for role `r` and requester `x|y` is also accepted for role `r|x` and requester `y` |
| `ExecutionToken.LawsCanBeMet` | crates/dbward-agent/src/executor/token.rs:10-120 | the laws assumed of JSON, time, hash and signature functions can be met |
| `License.LicenseChecker.constructor` | commercial/license/src/lib.rs:60-117 | initial state from the persisted validation data and the license at hand |
| `License.LicenseChecker.ForceExpire` | commercial/license/src/lib.rs:130-141 | expires, and reports true exactly for the first caller |
| `License.LicenseChecker.RestoreActive` | commercial/license/src/lib.rs:149-153 | clears the expiry and the warning flag |
| `License.LicenseChecker.RecordValidatedUntil` | commercial/license/src/lib.rs:156-171 | the stored time becomes the maximum of old and new |
| `License.LicenseChecker.TryMarkGraceWarned` | commercial/license/src/lib.rs:251-253 | true exactly for the first caller |
| `License.LicenseChecker.StartupChecks` | crates/dbward-server/src/lib.rs:348-355 | the startup checks expire the checker exactly if the first-validation deadline or the grace deadline has passed; the own end of the license is the business of the constructor |
| `License.LicenseChecker.LocalTick` | commercial/license/src/runtime.rs:67-107 | after a local tick the license is expired if and only if it was or has lapsed, by the one predicate of validation, grace, own expiry and first-validation deadline; at most one downgrade and one warning are emitted |
| `License.LicenseChecker.ValidateOnline` | commercial/license/src/lib.rs:256-336 | the state and outcome for every answer of the license server; which answers end, restore or change nothing is `LicenseLaws.OnlineTickExactly` |
| `LicenseLaws.LocalTickExactly` | commercial/license/src/runtime.rs:67-107 | in numbers: a license once validated lapses after validated_until + grace_days * 86400 whole seconds, another at its own end or its first-validation deadline; the reason of the one downgrade, and the one warning within three days of the end, with its days |
| `LicenseLaws.OnlineTickExactly` | commercial/license/src/lib.rs:256-336 | an online tick restores exactly on a readable "active" with a time, ends exactly on a readable success with another status, a 403 whose readable status is not "suspended", or a 404, with the reason, and in every other case (network failure, server error, unreadable body, "active" without a time, suspended, offline) changes nothing and reports nothing |
| `LicenseLaws.EndsExactly` | commercial/license/src/lib.rs:256-336 | so it turns a good license expired if and only if the server can be asked and gives one of those answers |
| `License.LicenseChecker.OnlineTick` | commercial/license/src/runtime.rs:108-146 | the events for every outcome |
| `License.LicenseChecker.Run` | commercial/license/src/runtime.rs:65-149 | the loop over any series of ticks |
| `LicenseLaws.StartupDecides` | commercial/license/src/lib.rs:60-117 | constructor plus startup checks compute the same predicate as a local tick from the persisted values |
| `LicenseLaws.TickBalance` | commercial/license/src/runtime.rs:67-146 | one tick: expired before plus downgrades minus restorations is expired after |
| `LicenseLaws.EventsBalance` | commercial/license/src/runtime.rs:65-149 | the same conservation over every run of the loop |
| `LicenseLaws.ValidatedUntilMonotone` | commercial/license/src/lib.rs:156-171 | the validation time never decreases over a run |
| `LicenseLaws.WarnAppend` | commercial/license/src/runtime.rs:97-107 | what one tick can add to the log keeps the once-only warning invariant |
| `LicenseLaws.WarnStep` | commercial/license/src/runtime.rs:97-107 | so one tick keeps it |
| `LicenseLaws.GraceWarnedOnce` | commercial/license/src/runtime.rs:97-107 | over every run at most one warning is emitted between restorations, always with 1 to 3 days remaining |
| `LicenseLaws.LoopRecords` | commercial/license/src/runtime.rs:65-149 | over every run the checker has the latest time ever recorded and the persisted grace, and is expired only if the server said so last or it has lapsed |
| `LicenseLaws.RestartDecidesAlike` | commercial/license/src/runtime.rs:108-146 | after any run, a checker restarted from what was persisted decides every later moment as the running one would if and only if both have expired already, or the last word of the server was no end of the license and the last time it named was the latest |
| `LicenseLaws.RestartForgetsRevocation` | commercial/license/src/runtime.rs:113-137 | validated and then revoked: the running checker has expired, a restarted one has not |
| `LicenseLaws.RestartUsesEarlierTime` | commercial/license/src/runtime.rs:113-120 | two answers of which the second names an earlier time: a restarted checker expires before the running one |
| `LicenseLaws.CellRunKeeps` | commercial/license/src/lib.rs:156-171 | in every interleaving of compare-and-swap loops the value only grows and stays one of the offered values |
| `LicenseLaws.CasLoopTakesMaximum` | commercial/license/src/lib.rs:156-171 | when all concurrent writers are done the value is the maximum of the initial and all written values |
| `EventStream.StreamRuntime.constructor` | crates/dbward-server/src/session.rs:118-133 | a new stream has no history and its primary receiver open |
| `EventStream.StreamRuntime.EmitRaw` | crates/dbward-server/src/session.rs:142-178 | one emit: next sequence number, replay buffer, primary receiver, subscribers |
| `EventStream.StreamRuntime.Persist` | crates/dbward-server/src/session.rs:155-161 | the buffer holds the last `capacity` of what it held and the new event |
| `EventStream.StreamRuntime.RetainAccepting` | crates/dbward-server/src/session.rs:164-167 | exactly the subscribers whose queue has room stay, in order, and receive the event |
| `EventStream.FanOut` | crates/dbward-server/src/session.rs:164-167 | the loop behind it, element by element |
| `EventStream.StreamRuntime.Complete` | crates/dbward-server/src/session.rs:180-187 | marks the stream complete, closes the primary receiver and drops all subscribers |
| `EventStream.PushKeeps` | crates/dbward-server/src/session.rs:145-161 | numbering and buffering an event keeps the stream invariant, with other operations in between allowed |
| `EventStream.OfferKeeps` | crates/dbward-server/src/session.rs:163-167 | so does offering it to the subscribers |
| `EventStream.TakeKeeps` | crates/dbward-server/src/session.rs:169-178 | taking the primary sender and sending keep it |
| `EventStream.AdmitKeeps` | crates/dbward-server/src/routes/mcp.rs:183-188 | so does a resuming client that makes its channel and looks at the flag |
| `EventStream.RegisterKeeps` | crates/dbward-server/src/routes/mcp.rs:189 | and its registering, which may come later |
| `EventStream.CompletionKeeps` | crates/dbward-server/src/session.rs:180-187 | and each of the three steps of completion |
| `EventStream.ApplyKeeps` | crates/dbward-server/src/session.rs:142-187 | so does every operation |
| `EventStream.AllKeep` | crates/dbward-server/src/session.rs:142-187 | and every sequence of operations |
| `EventStream.HistoryLength` | crates/dbward-server/src/session.rs:142-161 | the number of events is the number of emits |
| `EventStream.ReplayIsLatest` | crates/dbward-server/src/session.rs:155-161 | after any operations with n emits the buffer is exactly the last min(n, capacity) events with consecutive sequence numbers |
| `StreamPrimary.ClientSeesAll` | crates/dbward-server/src/session.rs:142-178 | after any operations, interleaved in any way: a primary client that stays has been sent every event whose emit is over, in order and once |
| `StreamPrimary.EmitsAreSeen` | crates/dbward-server/src/session.rs:142-178 | emitting texts one after the other sends the client each of them in an event of its own, numbered from 0, and the buffer holds the latest |
| `EventStream.SubscribersSeeNoGap` | crates/dbward-server/src/session.rs:164-167 | a subscriber still registered was sent every event offered since it registered, a dropped one a prefix of them |
| `StreamCompletion.PrimaryAfterCompletion` | crates/dbward-server/src/session.rs:169-187 | once its sender is dropped, whatever is called, the primary client gets exactly the event of an emit that had already taken the sender, if the client is there when that is sent |
| `StreamCompletion.SubscribersAfterCompletion` | crates/dbward-server/src/session.rs:163-187 | after completion, whatever is called: a client that had not looked at the flag before is sent nothing; one that had, and registers only now, is sent an unbroken first part of the events offered since, and if no further emit starts at most the event of an emit that had not been offered |
| `StreamCompletion.LateDeliveryExactly` | crates/dbward-server/src/routes/mcp.rs:185-190 | a subscriber can be sent the event of an emit under way at completion if and only if it had looked at the flag before, has yet to register, has room, and the event has not been offered |
| `StreamCompletion.LateSubscriptionExactly` | crates/dbward-server/src/routes/mcp.rs:185-190 | if emits may still start, it can be sent something if and only if it had looked before, has yet to register, and has room |
| `StreamCompletion.SilentExactly` | crates/dbward-server/src/session.rs:163-187 | nothing more is sent to anyone, whatever is called, if and only if no emit holds the sender and nobody with room is between looking at the flag and registering |
| `StreamCompletion.DeliveredAfterCompletion` | crates/dbward-server/src/session.rs:169-187 | an emit that has taken the sender when the stream completes does deliver afterwards |
| `StreamCompletion.LateJoinDelivered` | crates/dbward-server/src/routes/mcp.rs:185-190 | a client that looked before completion and registers after it is sent the event of an emit that had been pushed, and the complete stream has a subscriber |
| `StreamView.OperationIsStep` | crates/dbward-server/src/session.rs:142-187 | every operation on a stream, by whomever, is a step of the resumption of any one client or leaves it where it is |
| `StreamView.OwnStepView` | crates/dbward-server/src/routes/mcp.rs:192-251 | the gap check, the replay, going live and ending change nothing of the stream but that a client that goes closes its channel |
| `StreamView.BufferView` | crates/dbward-server/src/session.rs:155-161 | the buffer holds the events from the oldest one the client reckons with up to the last |
| `StreamView.BeginningView` | crates/dbward-server/src/routes/mcp.rs:183-190 | a client that has yet to come sees the stream as its resumption takes it to begin |
| `StreamResume.NextKeeps` | crates/dbward-server/src/routes/mcp.rs:183-251 | every step of emitter and resuming client keeps the invariant |
| `StreamResume.RunKeeps` | crates/dbward-server/src/routes/mcp.rs:183-251 | the invariant holds in every state of every run |
| `StreamResume.ResumedWithoutGap` | crates/dbward-server/src/routes/mcp.rs:208-251 | what a resuming client gets is a consecutive run of events without duplicates, and it starts right behind its last event if and only if the stream had not outrun the buffer when the replay was read |
| `StreamResume.ResumedCompletely` | crates/dbward-server/src/routes/mcp.rs:208-251 | a live, caught-up client has received every event from its first one on |
| `StreamResume.EndedCompletely` | crates/dbward-server/src/routes/mcp.rs:183-251 | a client that gets no more events has every event behind what it had if and only if there was none, or its replay was in time and either no event came after the replay or it went live, was not dropped by a fan-out, and completion did not drop the subscribers before an event or its fan-out |
| `StreamResume.EndLost` | crates/dbward-server/src/routes/mcp.rs:228-251 | a run in which the replay was in time and the last event, already queued for the client, is lost because the stream completes before the client goes live |
| `StreamResume.RefusedOnlyBehind` | crates/dbward-server/src/routes/mcp.rs:192-206 | the gap check refuses exactly a client that the buffer has left behind |
| `StreamResume.GapAfterCheck` | crates/dbward-server/src/routes/mcp.rs:192-226 | a run in which events emitted between the gap check and the replay are lost although the check passed |
| `SessionStore.Store.constructor` | crates/dbward-server/src/session_store.rs:16-22 | an empty store with the given limits |
| `SessionStore.Store.Create` | crates/dbward-server/src/session_store.rs:24-48 | alone, a creation succeeds exactly below the cap, and a refused one leaves the store as it was |
| `SessionStore.Store.Remove` | crates/dbward-server/src/session_store.rs:54-56 | removes that session and says whether it was there |
| `SessionStore.Store.CleanupExpired` | crates/dbward-server/src/session_store.rs:104-119 | exactly the sessions idle for longer than the time to live go |
| `SessionStore.NextKeeps` | crates/dbward-server/src/session_store.rs:24-119 | every insert, count, undo, removal and clean-up step of any number of creators keeps the invariant |
| `SessionStore.RunKeeps` | crates/dbward-server/src/session_store.rs:24-119 | the invariant holds in every state of every run |
| `SessionStore.CapHolds` | crates/dbward-server/src/session_store.rs:24-56 | in every interleaving the sessions handed out and not removed never exceed the cap, and the map is exactly those plus the creations in flight |
| `SessionStore.RejectedExactly` | crates/dbward-server/src/session_store.rs:39-47 | a creation is refused if and only if handed-out sessions and creations in flight together exceed the cap |
| `SessionStore.BothRejected` | crates/dbward-server/src/session_store.rs:24-48 | a run in which two creators race for one free place and both are refused |
| `SessionCleanup.RemovedIdleExactly` | crates/dbward-server/src/session_store.rs:104-119 | in every run a session that clean-up found idle and removes is idle at its removal if and only if it was not touched since it was looked at, or the last touch is longer ago than its time to live |
| `SessionCleanup.ActiveSessionRemoved` | crates/dbward-server/src/session_store.rs:104-119 | a run in which a session touched after it was looked at is removed while in use |
| `SessionCleanup.ActivityFollows` | crates/dbward-server/src/session_store.rs:104-119 | between two moments of a run a session is last active as at the first or at its last touch since |
| `CancelHandshake.CancelState.constructor` | crates/dbward-driver/src/cancel_state.rs:22-30 | a fresh state is neither cancelled nor connected |
| `CancelHandshake.CancelState.MarkCancelled` | crates/dbward-driver/src/cancel_state.rs:33-35 | sets the flag |
| `CancelHandshake.CancelState.SetConnectionId` | crates/dbward-driver/src/cancel_state.rs:42-44 | publishes the connection |
| `CancelHandshake.CancelToken.constructor` | crates/dbward-agent/src/cancel.rs:16-27 | a fresh token |
| `CancelHandshake.CancelToken.TriggerCancel` | crates/dbward-agent/src/cancel.rs:35-51 | both flags are set before the connection is looked at, a migration is skipped, and the waiter is notified exactly when a kill was delivered |
| `CancelHandshake.CancelToken.KillQuery` | crates/dbward-agent/src/cancel.rs:53-72 | a kill is sent exactly with a driver and a published connection |
| `CancelHandshake.NextKeeps` | crates/dbward-agent/src/cancel.rs:35-72 | every step of the driver and of any number of cancellers keeps the invariant |
| `CancelHandshake.RunKeeps` | crates/dbward-agent/src/cancel.rs:35-72 | the invariant holds in every state of every run |
| `CancelHandshake.VerdictStays` | crates/dbward-agent/src/cancel.rs:35-72 | what a canceller concluded does not change later in the run |
| `CancelHandshake.CancelOrKill` | crates/dbward-driver/src/postgres.rs:146-155 | in every interleaving, for a non-migration with a driver, a finished canceller killed the published connection or the driver never runs the SQL |
| `CancelHandshake.StoppedExactly` | crates/dbward-driver/src/postgres.rs:146-155 | in every run: a query that has published its connection goes on to its SQL if and only if no canceller has begun |
| `CancelHandshake.MigrationNeverKilled` | crates/dbward-agent/src/cancel.rs:35-51 | in no interleaving is a migration killed |
| `CancelHandshake.SettledStays` | crates/dbward-driver/src/postgres.rs:146-155 | from the first raise of the flag on, SQL that ran runs to its end and no other starts |
| `CancelHandshake.RaisedBefore` | crates/dbward-agent/src/cancel.rs:35-37 | every kill has a first raise before it |
| `CancelHandshake.KillMeetsQueryExactly` | crates/dbward-agent/src/cancel.rs:47-72 | in every run a kill meets the SQL of its own query while that runs if and only if the SQL was running when the flag first went up, that is the driver had passed its check, and has not come to its end |
| `CancelHandshake.LateKill` | crates/dbward-agent/src/cancel.rs:47-72 | a run in which the kill is issued for a connection whose query is over |
| `WorkflowOverlap.CheckOverlap` | crates/dbward-config/src/server.rs:202-228 | the fail-fast check accepts if and only if no workflow lists an operation twice and any two workflows of one scope have non-empty, disjoint operation lists |
| `WorkflowOverlap.CollectOverlap` | crates/dbward-config/src/server.rs:685-718 | the collecting check records the issue if and only if that fails |
| `WorkflowOverlap.GroupByScope` | crates/dbward-config/src/server.rs:203-210 | the map holds, for each scope, its workflows in order and nothing else |
| `WorkflowOverlap.AnyCatchall` | crates/dbward-config/src/server.rs:212 | found exactly when some entry has no operations |
| `WorkflowOverlap.CheckGroup` | crates/dbward-config/src/server.rs:211-227 | one group passes exactly without an ambiguous catch-all and without a repeated operation |
| `WorkflowOverlap.CollectGroup` | crates/dbward-config/src/server.rs:694-717 | one group is reported exactly when it does not pass |
| `WorkflowOverlap.GroupsDecide` | crates/dbward-config/src/server.rs:202-228 | checking group by group is checking every pair of workflows |
| `WorkflowOverlap.FlattenDistinct` | crates/dbward-config/src/server.rs:218-227 | no repetition across a group is no repetition within an entry and none between two |
| `WorkflowOverlap.CompatibleMeansOneTaker` | crates/dbward-config/src/server.rs:211-217 | two workflows pass exactly when no operation of a shared scope is taken by both |
| `WorkflowScopes.BestMatch` | crates/dbward-config/src/server.rs:1166-1188 | the chosen workflow covers the pair, no covering workflow is more specific (environment before database), and among equals it is the last; none is chosen exactly when none covers |
| `WorkflowScopes.ScoreRanks` | crates/dbward-config/src/server.rs:1179-1188 | the score orders workflows exactly by that specificity |
| `WorkflowScopes.CoverEnvironments` | crates/dbward-config/src/server.rs:1161-1213 | one database adds one entry for each of its concrete environments, each with its best workflow |
| `WorkflowScopes.ValidateCoverage` | crates/dbward-config/src/server.rs:1146-1243 | an error is recorded exactly when workflows exist and cover none of the concrete pairs, a warning exactly when they cover some and not others |
| `WorkflowScopes.ConcretePairsAre` | crates/dbward-config/src/server.rs:1157-1164 | the pairs looked at are exactly the registered ones without a wildcard |
| `WorkflowScopes.DeadExactly` | crates/dbward-config/src/server.rs:1281-1332 | a workflow reported dead covers no registered pair; the converse fails exactly for one of all environments whose database pattern is registered without any environment |
| `WorkflowScopes.DeadIffUseless` | crates/dbward-config/src/server.rs:1246-1332 | with a database, and an environment in each, a workflow is reported dead if and only if it covers no registered pair |
| `WorkflowScopes.UselessNotDead` | crates/dbward-config/src/server.rs:1281-1332 | two workflows that cover nothing and are not reported: the catch-all with nothing registered, and one for all environments of a database that has none |
| `WorkflowScopes.RegisteredPairs` | crates/dbward-config/src/server.rs:1270-1278 | the two sets hold exactly the registered pairs and names |
| `WorkflowScopes.EnvironmentExists` | crates/dbward-config/src/server.rs:1315-1320 | found exactly when some database has the environment |
| `WorkflowScopes.IsDead` | crates/dbward-config/src/server.rs:1282-1332 | the branches of the loop decide deadness |
| `WorkflowScopes.ValidateRefs` | crates/dbward-config/src/server.rs:1254-1371 | the dead list is exactly the dead workflows in order; an error is recorded exactly when none is alive, a warning exactly when some are dead and some alive |
| `ConfigValidation.Validate` | crates/dbward-config/src/server.rs:110-117 | startup validation accepts if and only if the configuration is acceptable (`ConfigMeaning.AcceptableExactly`), if and only if there is no fault, and so if and only if the report has no error other than the two about workflow coverage and references |
| `ConfigMeaning.AcceptableExactly` | crates/dbward-config/src/server.rs:110-534 | there is no fault if and only if the configuration is acceptable: every approval path is reachable, no operation of a scope has two workflows, webhook ids, role, group and review scopes are distinct and well-formed, every webhook, role, default-role and mapping reference resolves, no statement timeout exceeds its maximum, permissions and names parse, and the identity provider has addresses and an audience |
| `ConfigMeaning.ReloadableExactly` | crates/dbward-config/src/server.rs:101-108 | the same for a reload, without the connection fields |
| `ConfigMeaning.OverlapExactly` | crates/dbward-config/src/server.rs:202-228 | the overlap check passes if and only if no workflow repeats an operation and two workflows of one scope both name operations and share none |
| `ConfigMeaning.PermissionsExactly` | crates/dbward-config/src/server.rs:392-430 | permissions pass if and only if each is a known one without a colon, or a known single one followed by `:own` or `:any` |
| `ConfigValidation.ValidateForReload` | crates/dbward-config/src/server.rs:101-108 | reload validation accepts if and only if the configuration is acceptable but for the connection fields |
| `ConfigValidation.ValidateCommon` | crates/dbward-config/src/server.rs:195-534 | the common part accepts if and only if none of its faults is present |
| `ConfigValidation.ValidateCollecting` | crates/dbward-config/src/server.rs:600-664 | the report holds exactly the issues that are present: each kind of error and warning if and only if its condition holds |
| `ConfigValidation.CollectFaults` | crates/dbward-config/src/server.rs:600-645 | its first part records each fault that the other validator would stop at, and no other |
| `ConfigValidation.NoFaultMeansNoOtherError` | crates/dbward-config/src/server.rs:598-664 | having no fault is having no reported error but the two about workflow scopes |
| `ConfigFaults.FaultsAreTheOtherErrors` | crates/dbward-config/src/server.rs:598-664 | the faults are exactly the reported errors other than those two |
| `ConfigFaults.LastColon` | crates/dbward-config/src/server.rs:395 | the last colon, found exactly when there is one |
| `ConfigValidation.CheckAutoApprove` | crates/dbward-config/src/server.rs:240-275 | stops with an error if and only if there is any of: approval settings and steps that do not fit together |
| `ConfigValidation.CollectAutoApprove` | crates/dbward-config/src/server.rs:720-758 | records each kind of issue exactly when it is present: approval settings and steps that do not fit together |
| `ConfigValidation.CheckWebhooks` | crates/dbward-config/src/server.rs:277-307 | stops with an error if and only if there is any of: missing, long, malformed or duplicate webhook ids |
| `ConfigValidation.CollectWebhooks` | crates/dbward-config/src/server.rs:760-797 | records each kind of issue exactly when it is present: missing, long, malformed or duplicate webhook ids |
| `ConfigValidation.CheckNotifications` | crates/dbward-config/src/server.rs:309-322 | stops with an error if and only if there is any of: references to webhooks that are not defined |
| `ConfigValidation.CollectNotifications` | crates/dbward-config/src/server.rs:799-814 | records each kind of issue exactly when it is present: references to webhooks that are not defined |
| `ConfigValidation.CheckDeliveryModes` | crates/dbward-config/src/server.rs:324-334 | stops with an error if and only if there is any of: unknown delivery modes |
| `ConfigValidation.CollectDeliveryModes` | crates/dbward-config/src/server.rs:816-830 | records each kind of issue exactly when it is present: unknown delivery modes |
| `ConfigValidation.CheckExecutions` | crates/dbward-config/src/server.rs:336-361 | stops with an error if and only if there is any of: execution limits that contradict each other |
| `ConfigValidation.CollectExecutions` | crates/dbward-config/src/server.rs:832-861 | records each kind of issue exactly when it is present: execution limits that contradict each other |
| `ConfigValidation.CheckPermission` | crates/dbward-config/src/server.rs:395-426 | stops with an error if and only if there is any of: unknown permissions, bad ownership suffixes |
| `ConfigValidation.CollectPermission` | crates/dbward-config/src/server.rs:969-1005 | records each kind of issue exactly when it is present: unknown permissions, bad ownership suffixes |
| `ConfigValidation.CheckRole` | crates/dbward-config/src/server.rs:374-443 | stops with an error if and only if there is any of: faults of one role, given those before it |
| `ConfigValidation.CollectRole` | crates/dbward-config/src/server.rs:876-919 | records each kind of issue exactly when it is present: faults of one role, given those before it |
| `ConfigValidation.CheckRoles` | crates/dbward-config/src/server.rs:363-444 | stops with an error if and only if there is any of: faults of the roles |
| `ConfigValidation.CollectRoles` | crates/dbward-config/src/server.rs:863-919 | records each kind of issue exactly when it is present: faults of the roles |
| `ConfigValidation.CheckGroups` | crates/dbward-config/src/server.rs:446-474 | stops with an error if and only if there is any of: faults of the groups |
| `ConfigValidation.CollectGroups` | crates/dbward-config/src/server.rs:923-953 | records each kind of issue exactly when it is present: faults of the groups |
| `ConfigValidation.CheckAuth` | crates/dbward-config/src/server.rs:363-484 | stops with an error if and only if there is any of: faults of the roles, the groups or the default role |
| `ConfigValidation.CollectAuth` | crates/dbward-config/src/server.rs:863-967 | records each kind of issue exactly when it is present: faults of the roles, the groups or the default role |
| `ConfigValidation.CheckReviews` | crates/dbward-config/src/server.rs:486-531 | stops with an error if and only if there is any of: reserved, duplicate or invalid review settings |
| `ConfigValidation.CollectReviews` | crates/dbward-config/src/server.rs:1007-1058 | records each kind of issue exactly when it is present: reserved, duplicate or invalid review settings |
| `ConfigValidation.CheckMappings` | crates/dbward-config/src/server.rs:164-193 | stops with an error if and only if there is any of: mappings to roles that are not defined |
| `ConfigValidation.CollectMappings` | crates/dbward-config/src/server.rs:1060-1090 | records each kind of issue exactly when it is present: mappings to roles that are not defined |
| `ConfigValidation.CheckConnection` | crates/dbward-config/src/server.rs:119-162 | stops with an error if and only if there is any of: faults of the identity provider fields |
| `ConfigValidation.CollectConnection` | crates/dbward-config/src/server.rs:1092-1138 | records each kind of issue exactly when it is present: faults of the identity provider fields |
| `ConfigValidation.CollectStepTypes` | crates/dbward-config/src/server.rs:667-683 | warns if and only if some step has an unsupported type |
| `ConfigValidation.CollectSafety` | crates/dbward-config/src/server.rs:1374-1414 | warns if and only if a production scope has a destructive rule switched off |
| `Base64.Base64Encode` | crates/dbward-server/src/util.rs:3-10 | for every byte string: the decoder of section 4 of RFC 4648 gives it back, the length is 4*ceil(n/3), and all characters are of the alphabet or padding |
| `Base64.Base64Encoder.constructor` | crates/dbward-server/src/util.rs:18-20 | an empty output |
| `Base64.Base64Encoder.Write` | crates/dbward-server/src/util.rs:24-54 | the output grows by the encoding of the written bytes, all of which are consumed |
| `ByteBits.JoinLow2High4` | crates/dbward-server/src/util.rs:30-46 | the low two bits of one byte shifted up and joined with the high four of the next are that remainder and quotient |
| `ByteBits.JoinLow4High2` | crates/dbward-server/src/util.rs:30-46 | the same for four and two bits |
| `Base64.Index1` | crates/dbward-server/src/util.rs:30-46 | the shift is the first index of the specification |
| `Base64.Index2` | crates/dbward-server/src/util.rs:30-46 | the joined bits of two bytes are the second |
| `Base64.Index2Last` | crates/dbward-server/src/util.rs:45-46 | of one byte alone, too |
| `Base64.Index3` | crates/dbward-server/src/util.rs:30-46 | the joined bits of the next two are the third |
| `Base64.Index3Last` | crates/dbward-server/src/util.rs:37-42 | of the second of two bytes, too |
| `Base64.Index4` | crates/dbward-server/src/util.rs:35 | the mask is the fourth |
| `Base64.LookUp` | crates/dbward-server/src/util.rs:25-35 | a table lookup is the symbol of the specification |
| `Base64.EncodeChunk` | crates/dbward-server/src/util.rs:27-51 | each arm of the match emits the group of its one to three bytes |
| `Base64.SymbolIsTableEntry` | crates/dbward-server/src/util.rs:25-26 | the symbol ranges are the table |
| `Base64.EncodeNext` | crates/dbward-server/src/util.rs:27-52 | one chunk more is the encoding of one chunk more |
| `Base64.DecodeEncodeGroup` | crates/dbward-server/src/util.rs:27-52 | decoding one group gives back its one to three bytes |
| `Base64.DecodeEncode` | crates/dbward-server/src/util.rs:3-54 | the decoder inverts the encoder on all byte strings |
| `Base64.EncodeLength` | crates/dbward-server/src/util.rs:3-54 | the length is 4*ceil(n/3) |
| `Base64.EncodeAlphabet` | crates/dbward-server/src/util.rs:3-54 | all characters are of the alphabet or padding |
| `Base64.EncodeConcat` | crates/dbward-server/src/util.rs:24-54 | writing a and then b is encoding a+b when the length of a is a multiple of three |
| `Base64.PadOnlyAtEnd` | crates/dbward-server/src/util.rs:27-52 | padding stands in the last group of incomplete data and nowhere else |
| `Base64.SplitWriteExact` | crates/dbward-server/src/util.rs:24-54 | writing a and then b is encoding a+b if and only if the length of a is a multiple of three or b is empty |

## Left out

- RelayProtocol: timeouts wake a subscriber at any moment of its wait, without a clock; tokio's `Notify` is a set of registered tasks, so its internal fairness and permits are not modelled.
- Weak-memory effects of `Relaxed` atomics and the separate length and insert of the concurrent session map: each operation is one sequentially consistent step.
- MigrationRunner: a failed entry without a transaction may leave any database contents behind; how far its statements got is not modelled. Timeouts and advisory locks of the drivers are part of "may fail".
- MigrationFile: reading the directory and creating files is I/O; offsets are counted in characters, which is safe because every cut is at an ASCII marker or newline.
- PgArray: UTF-8 validity is a parameter, and only the text mapping of elements is modelled; conversion of elements to JSON numbers, booleans and JSON is left out.
- ExecutionToken: SHA-256, Ed25519, JSON text and RFC 3339 time are parameters with the stated laws: a signature verifies exactly under its key and message, times read back, so does the sorted form of whatever the JSON parser returned, and neither times nor hashes hold a bar. That the hash does not collide is a hypothesis of `IssuedTokenAccepted` and `IssuedTokenRefused` only; `LawsCanBeMet` shows that all of it can be met together.
- License: signature verification and decoding of license keys, and the HTTP exchange behind `validate_online`; its possible answers are a datatype.
- LicenseLaws.RestartDecidesAlike: speaks of times after the epoch, whose value stands for never validated, and takes persisting to succeed; a failure to persist is only logged by the loop.
- EventStream: emits on one stream come one after the other, each in steps that other operations may interleave; two emits at once could interleave the counter and the buffer.
- StreamResume: a client that disconnects while it is served; it only loses what it is owed.
- SessionStore: the step system for the cap lets clean-up remove any session at any time; which ones it removes, and when, is in `SessionCleanup`.
- `SessionRuntime::shutdown` and the rest of the session map bookkeeping: they clear maps and would only add easy members.
- CancelHandshake: the wait for the killed query to stop, whether a delivered kill stops it in the server, and what else the pool may run on a connection after its query.
- ConfigValidation: TOML parsing, environment expansion, deprecated-field checks and the texts of messages and hints; the permission, database-name and environment parsers are parameters. The length of a webhook id is counted in characters; an id with other than ASCII characters fails the format test either way.
- ConfigValidation: a report is characterised by which issues it holds, not by how often or in which order, since groups are visited in the order of a hash map.
- Approval engine, claim and lease logic, audit chain, role resolution, HTTP clients and routes, metrics and display.
