# Proofs about GowDB

GowDB is a column store with a hand-written storage engine. This project models
five of its components and proves what they are for:

* **Durability** (`Storage`, `Rows`, `Log`, `Disk`, `Machine`, `Recovery`, `Appending`,
  `Trimming`, `Rolling`, `Preservation`, `TwoPhase`, `Commits`, `Undoing`,
  `Lifecycle`, `Uncrashed`, `Restarts`, `Engine`). Each table has parts, a watermark and a write-ahead
  log: a sequence of records with a durable prefix. The engine is a state
  machine over its I/O steps; a crash keeps each log's durable prefix and any
  part of its unsynced tail. Main result: at every point of every run, whatever
  a crash leaves, recovery yields the acknowledged contents of all tables or,
  only while a commit point is in flight, the contents that commit would
  publish, for all tables together.
* **Sharing** (`Session`, `Isolation`, `Accepted`, `Shared`). One session, many
  connections: who may write into a transaction, who may end it, what a reader may
  see, and what an accepted statement leaves.
* **Delimited text** (`Scanning`, `Csv`, `CsvGrammar`, `CsvStream`, `CsvInput`,
  `CsvWrite`).
  The word-at-a-time scan, the record splitter over a refilled window, which texts
  are records at all, the writer, and the round trip between them.
* **Packed indexes and sorting** (`Bits`, `BitPack`, `Packing`, `Counting`,
  `Bitmap`, `Mph`, `MphBuild`, `Dict`, `Stable`, `Radix`, `Like`). Fast forms
  proved equal to a plain sequence, a plain bijection, a plain sorted set, the
  one stable arrangement, and a recursive matcher.
* **Query folding** (`Ast`, `Subquery`, `CteScope`, `Expansion`, `Meaning`,
  `Folding`, `Budget`; `Basics` is shared by all). The rewrite that folds
  subqueries, views and system tables, the walk that decides whether to bother,
  what the rewrite makes of names, that it keeps what a query means whatever the
  operators and relations are, and when it succeeds.

Code that updates fields or arrays in place is modelled by classes and methods
(`Engine.Engine`, `Shared.Database`, `CsvStream.Records`, the packing, sorting
and scanning loops), each proved against a specification function; the theorems
are about those functions.

## Where the code does not do what it promises

Each has a concrete witness and, for all inputs, the exact condition.

* A coordinator whose staged record a crash lost reopens with a counter that
  hands the same number out again; an older durable prepare citing that number
  is then released by an unrelated decision. `Restarts.ReuseReached` is a run
  through crash, restart and a later transaction to the brink of its decision,
  and `Restarts.ReusedNumberResurrects` shows the aborted row come back.
  `Commits.DecisionHarmlessIff`: every log replays what it did and then the
  transaction's own records if and only if the decision does not release a
  record an earlier transaction staged (`Machine.Revives`).
* The test that decides whether a roll must carry decisions forward looks at a
  sibling's active segment only. A fold cut between its roll and its table write
  leaves prepares in a sealed segment, and the sibling's roll then drops the
  decision they need. `Restarts.ForgetReached` is a run through such a cut, the
  crash and the restart, and `Restarts.CutFoldLosesDecision` shows the committed
  row lost. The comment at src/session.rs:2067-2069 calls that crash point
  correct; it is, until a coordinator rolls. `Rolling.RollHarmlessIff`: every log
  replays as before if and only if the roll does not drop decisions some record
  still needs (`Machine.Forgets`).
* COMMIT promises to happen or not to happen, but the rollback after its final
  sync failed rewinds participants before the coordinator and goes on past a
  rewind that fails. `Restarts.FailedRewindTears` is a run to a decided, unsynced
  COMMIT and a rewind of the participant alone: one table recovers old, the other
  new. `Undoing.UndoneIff`: every log replays what it did before the commit point
  if and only if the coordinator's log was rewound or every log the transaction
  wrote to was; `Undoing.TornIff`: neither all nor nothing of it is left if and
  only if the coordinator's log was not rewound and, of two logs written to, one
  was and one was not.
* The machine takes a decision that would revive, a roll that would forget, or a
  rollback of a commit point that does not rewind its log, as not enabled, and
  restricts nothing else: a restart is a step from every crash image.
  `Uncrashed.GuardsOnlyAfterDamage`: the first two conditions never arise in a run
  whose restarts, if any, find every citation below its coordinator's new counter
  and every watermark caught up. `Restarts.CrashesDamage` shows the two crashes
  above break one of these each, `Restarts.CommittedUndamaged` a crash that breaks
  neither.
* `enlist` attaches a table's private view before it opens the table's log. If
  the log does not open, the view belongs to no transaction
  (`Isolation.EnlistLeaksIff`, `Isolation.LeakReached`). No later step removes it;
  inserts into the table are accepted (`Isolation.LeakSwallowsInserts`), yet over
  the rest of any run nothing is committed to it and every reader is refused
  (`Isolation.LeakNeverCommits`).
* The rewrite knows nothing of CTE scope, although the binder lets a CTE shadow a
  table of its name (src/planner/binder.rs:2009-2020). A CTE-bound reference goes
  wrong in two ways: in FROM it also names a view and becomes the view's body
  (`CteScope.CteCaptured`), or it is read by an expression's subquery that is run
  on its own, outside the CTE, and answers from the table of that name
  (`CteScope.SubqueryCaptured`). `CteScope.ScopeKeptIff`: every CTE-bound reference
  is left alone if and only if neither happens, and then the rewritten query means
  what the query did (`Folding.PlanMeans`); where one happens it may mean something
  else (`Folding.MisreadMeansOther`).
* A correlated subquery is left in place as it is, a view's name inside it included
  (`Expansion.CorrelatedKeepsView`). `Expansion.ExpandsIff`: no view and no virtual
  table is left anywhere in the query if and only if no subquery left in place
  names one.
* `like_match` takes a `%` in the subject for the pattern's `%`
  (`Like.RightIff`, whose proof builds the pattern that fails).
* `StringDict::get` promises the empty string for every out-of-range code; the
  bound is tested after an addition that wraps, so the largest code crashes
  (`Dict.OutOfRange`). Offsets are 32 bits wide: the dictionary is exact if and
  only if its bytes are fewer than 2^32 (`Dict.SpellsIff`, whose proof finds the
  first string lost).
* A null text survives the CSV round trip if and only if it holds no delimiter
  and no LF, does not begin with a quote and does not end in a CR
  (`CsvWrite.NullTextIff`; a table of one NULL is the witness).
* `value_ceiling` bounds the packed values if and only if `base + mask` does not
  wrap (`BitPack.CeilingIff`; witness `BitPack.CeilingWraps`).

## Model

| member | source | states |
|---|---|---|
| Storage.AgreeApply | src/session.rs:3690-3773 | a logged mutation applied to memory and to a recovered table that agree leaves them agreeing, keyed or unkeyed |
| Rows.ApplyDoes | src/session.rs:3690-3773 | an INSERT puts each key's last row there and leaves every other key alone, or grows the bag by exactly the block; a DELETE takes exactly the rows under its keys, a mask exactly those at its positions |
| Rows.DoesOnce | src/session.rs:3690-3773 | these statements about rows settle the whole table |
| Rows.RowsOfCounts | src/session.rs:3690-3733 | the bag of positioned rows counts each row as often as a position holds it |
| Rows.FreshIff | src/storage/table.rs:663-692 | the key check accepts a block exactly when inserting it loses no row |
| Rows.FreshAllThere | src/storage/table.rs:663-692 | an accepted block leaves every old row standing and every row of the block there |
| Log.ReplayEntries | src/persist/wal.rs:1946-2084 | the one-pass replay loop, with its pending groups, yields exactly the plain mutations and those of groups released later in the log, in order |
| Log.SurvivorsSplit | src/persist/wal.rs:1946-2084 | replay of a concatenation is the concatenation of replays when no group spans the cut |
| Log.GroupReleased | src/persist/wal.rs:1297-1345 | a staged group followed by the marker that releases it replays all of its mutations |
| Disk.StableCrash | src/session.rs:91-107 | if every unsynced record is inert, any surviving part of each tail recovers the same table |
| Log.FateDecides | src/persist/wal.rs:1946-2084 | more decisions replay more, and exactly as much if and only if no staged record hinges on the difference |
| Appending.DecisionReleases | src/session.rs:1791-1849 | with the decision a prepared log replays what its older records come to and then its whole staged group |
| Appending.MarkerReleases | src/persist/wal.rs:1297-1320 | appending a commit marker makes the table recover with its whole staged group |
| Trimming.TrimRecovers | src/persist/wal.rs:1394-1419 | rewinding logs to where their tables were enlisted changes no recovered table |
| Rolling.RollHarmlessIff | src/persist/wal.rs:1820-1846 | every log replays a roll as before if and only if the roll does not drop decisions some record still needs |
| Rolling.RollRecovers | src/persist/wal.rs:1645-1742 | sealing a segment and carrying the decisions a sibling may cite changes no table's recovery, unless it drops a decision still needed |
| Rolling.CommitRecovers | src/session.rs:2070-2094 | once the table file names parts and a watermark at the new segment, the table recovers to exactly those parts |
| Preservation.UniqueMarkKeeps | src/session.rs:3331-3384 | the marker of an accepted UNIQUE block keeps the invariant: old contents or old plus block |
| Preservation.UniqueRefuseKeeps | src/session.rs:3370-3384 | a refused block, erased or not, leaves recovery as it was |
| TwoPhase.SweepKeeps | src/session.rs:3690-3733 | a sweep that hides rows no record can name keeps the invariant: the table folds alone or the transaction is poisoned |
| TwoPhase.RollbackKeeps | src/session.rs:1911-1948 | discarding a transaction keeps the invariant, whichever log rewinds fail |
| TwoPhase.AbortKeeps | src/session.rs:1717-1733 | a failed prepare or barrier aborts to the acknowledged contents, whichever logs are rewound |
| Commits.UndoKeeps | src/session.rs:1717-1733 | after a failed final sync, rewinding the coordinator's log goes back to the acknowledged contents, whichever participants' rewinds fail |
| Undoing.UndoLeaves | src/session.rs:1925-1948 | after that rollback, whichever rewinds failed, a log replays what it did before the commit point and, exactly where neither it nor the coordinator's was rewound, the transaction's records |
| Undoing.UndoneIff | src/session.rs:1925-1948 | every log replays what it did before the commit point if and only if the coordinator's log was rewound or every log the transaction wrote to was |
| Undoing.TornIff | src/session.rs:1925-1948 | part of the transaction is left if and only if the coordinator's log was not rewound and one of the logs written to was and another was not |
| Commits.PrepareKeeps | src/session.rs:1824-1839 | appending one prepare keeps recovery at the acknowledged contents |
| Commits.BarrierKeeps | src/session.rs:1887-1902 | a barrier returning, in any order, keeps recovery at the acknowledged contents |
| Commits.DecisionHarmlessIff | src/session.rs:1842-1849 | every log replays what it did and then the transaction's own records if and only if the decision revives nothing |
| Commits.DecideKeeps | src/session.rs:1842-1849 | with every participant durable, the decision puts all tables on the edge between old and new together |
| Commits.StartCommitKeeps | src/session.rs:1681-1733 | the start of COMMIT keeps the invariant in each of its four shapes: nothing enlisted, one table, several, one that folds |
| Lifecycle.WriteTableKeeps | src/session.rs:2070-2094 | a fold's table write acknowledges exactly the rows memory held |
| Lifecycle.RestartKeeps | src/persist/wal.rs:1144-1210 | a restart from any crash image re-establishes the invariant |
| Lifecycle.StepKeeps | src/session.rs:1484-2094 | every step of the engine, restarts included, keeps the invariant |
| Lifecycle.RecoveryRefinesMemory | src/session.rs:1471-1559 | at every point of every run and for every crash image, recovery yields what was acknowledged, or, while one commit point is in flight, wholly what it publishes |
| Lifecycle.CommitIsAtomic | src/session.rs:1791-1849 | a crash inside COMMIT yields all of the transaction's tables or none of them, none before the decision, all after its sync |
| Lifecycle.DecisionAfterPrepares | src/session.rs:1806-1849 | when a decision is appended, every other participant's prepare is in its log and durable |
| Uncrashed.SettledForgetsNothing | src/persist/wal.rs:1820-1846 | rolling while every other watermark has caught up forgets nothing |
| Uncrashed.GuardsOnlyAfterDamage | src/session.rs:1484-2094 | in a run whose restarts all find every citation issued and every watermark caught up, wherever the engine would decide or roll, doing so is harmless |
| Restarts.MidCommitReached | src/session.rs:1791-1849 | a commit caught before its decision is the end of a run |
| Restarts.ReuseReached | src/persist/wal.rs:1144-1210 | a run through that crash, a restart and a later transaction, to the brink of its decision |
| Restarts.ReusedNumberResurrects | src/session.rs:1842-1849 | that decision revives, and the aborted row comes back |
| Restarts.CutFoldReached | src/session.rs:2070-2094 | a fold cut after its roll is the end of a run |
| Restarts.ForgetReached | src/session.rs:2070-2094 | a run through that crash and a restart, to the brink of the coordinator's roll |
| Restarts.CutFoldLosesDecision | src/persist/wal.rs:1820-1846 | that roll forgets a decision a sealed prepare still needs, and a committed row is lost |
| Restarts.CrashesDamage | src/persist/wal.rs:1144-1210 | of the two crashes, one leaves a citation above its coordinator's new counter, the other a watermark behind |
| Restarts.CommittedUndamaged | src/persist/wal.rs:1144-1210 | a crash of the database at rest after the same COMMIT leaves neither |
| Restarts.FailedRewindTears | src/session.rs:1925-1948 | from a reached state, rewinding the participant but not the coordinator leaves one table old and the other new |
| Engine.Engine.Reopen | src/persist/wal.rs:1144-1210 | after any crash the engine reopens with what recovery yields, which is what was acknowledged or, with a commit point in flight, what it publishes |
| Engine.Engine.Insert | src/session.rs:3259-3292 | log, sync, apply: every crash point is between two states of a run, and at the end the acknowledged table has the block's rows and every other as before |
| Engine.Engine.InsertUnique | src/session.rs:3331-3384 | accepted exactly when the insert loses no row, and then every old row and every row of the block is there; otherwise what is acknowledged is unchanged |
| Engine.Engine.Begin | src/session.rs:1617-1632 | an empty transaction is open; nothing else changed |
| Engine.Engine.Enlist | src/session.rs:1955-1982 | accepted exactly unless another table folds, the view starting as memory; otherwise the transaction is poisoned |
| Engine.Engine.Write | src/session.rs:3331-3342 | accepted exactly when the table may be enlisted and, if UNIQUE, the insert loses no row of the view; the view's rows change as the mutation says, nothing acknowledged moves, and a refusal poisons |
| Engine.Engine.Sweep | src/session.rs:3690-3733 | a sweep over unnamed rows succeeds exactly when its table is alone, which then folds; otherwise the transaction is poisoned |
| Engine.Engine.Rollback | src/session.rs:1911-1948 | the transaction is gone and what is acknowledged unchanged, whichever rewinds fail |
| Engine.Engine.Poison | src/session.rs:1768-1774 | the transaction is marked failed; nothing else changes |
| Engine.Engine.Compact | src/storage/table.rs:1491-1499 | merging parts keeps the rows a query sees and every log as it was |
| Engine.Engine.Fold | src/session.rs:1585-1599 | a fold at a statement boundary acknowledges exactly the rows it wrote out |
| Engine.Engine.FoldToParts | src/session.rs:2070-2094 | roll, then table write; the rows are unchanged |
| Engine.Engine.Commit | src/session.rs:1681-1733 | succeeds if and only if the transaction is not poisoned and no flush, prepare, barrier, append or sync it comes upon fails; it publishes every enlisted view, or leaves what is acknowledged alone |
| Engine.WriteBoth | src/session.rs:1681-1733 | BEGIN, a write to each of two tables, COMMIT, from any state at rest: both tables' rows change as the writes say if nothing fails, else neither's |
| Engine.Engine.TwoPhase | src/session.rs:1791-1849 | prepares in order, joins barriers, decides, syncs; it fails exactly when one of these does, the final sync included, and then nothing is published |
| Engine.Engine.PrepareAll | src/session.rs:1829-1839 | every prepare is appended, in order of enlistment, exactly when none fails; one that fails aborts, whichever logs that rewinds |
| Engine.Engine.MakeDurable | src/session.rs:1842-1849 | the commit point is synced and published, or undone, whichever participants' rewinds fail |
| Engine.Engine.JoinBarriers | src/session.rs:1887-1902 | barriers in any order; it succeeds exactly when none fails, and then every participant's has returned |
| Isolation.CommitPublishes | src/session.rs:1663-1733 | COMMIT succeeds exactly for its own, healthy, durable transaction, and publishes exactly the private contents of its tables, or nothing |
| Isolation.StepKeeps | src/session.rs:2309-2331 | every step of every connection keeps the invariant, publishes only writes of the connection that ran it, and publishes nothing if a transaction is open afterwards |
| Isolation.OpenTransactionIsIsolated | src/session.rs:1617-1632 | over any interleaving, committed contents stand still from before a BEGIN to before its COMMIT |
| Isolation.PublishedByAuthor | src/session.rs:1750-1774 | over any interleaving, every mutation published since the start was published by a statement of its author |
| Isolation.CommitterWroteIt | src/session.rs:4627-4644 | a COMMIT that succeeds is the owner's, of a healthy transaction, and everything it adds is the owner's |
| Isolation.PoisonedNeverPublishes | src/session.rs:1768-1774 | a poisoned transaction stays exactly as it is until a step ends it, and that step publishes nothing its owner wrote |
| Isolation.PoisonedUntilEnd | src/session.rs:1681-1702 | over any interleaving, from the moment a transaction is poisoned it and everything committed stand still until the step that ends it, which publishes nothing its owner wrote |
| Isolation.ForeignChangesNothing | src/session.rs:1663-1668 | any statement against another connection's transaction is refused and changes nothing |
| Isolation.OrphanIsSwept | src/session.rs:4568-4587 | a transaction whose connection is gone is discarded by the next writer, whose BEGIN succeeds |
| Isolation.FoldsAlone | src/session.rs:1955-2046 | in every reachable state enlisted paths are distinct and a folding table is alone |
| Isolation.ReaderSeesCommitted | src/session.rs:4827-4837 | on either try a reader's answer is exactly the committed rows, buffered ones included; it is refused exactly while a table is in a transaction, and a second try is asked for exactly while none is and rows are buffered |
| Isolation.ReaderInEveryRun | src/session.rs:4827-4837 | at any point of any interleaving, a reader that answers answers exactly what is committed, and its flush commits nothing |
| Isolation.EnlistLeaksIff | src/session.rs:1955-1982 | enlisting leaks the table's view if and only if the view is attached and the log then does not open |
| Isolation.LeakReached | src/session.rs:1955-1982 | BEGIN, a write whose log does not open and ROLLBACK end in a leak |
| Isolation.LeakIsPermanent | src/session.rs:1925-1948 | a view no roster names survives every step, and no step commits anything to its table |
| Isolation.LeakNeverCommits | src/session.rs:2554-2599 | over any interleaving, once a table's view leaks nothing is ever committed to the table again and every reader is refused |
| Isolation.LeakSwallowsInserts | src/session.rs:3259-3292 | an insert into a leaked table is accepted and commits nothing |
| Accepted.OutsideAdds | src/session.rs:3259-3292 | outside a transaction, on a table whose view has not leaked, an accepted statement adds exactly its batch, in order, under its author, to what is committed there, and nothing elsewhere |
| Accepted.InsideAdds | src/session.rs:2108-2128 | inside one it adds exactly its batch to what the transaction sees of its table, and nothing elsewhere |
| Accepted.OutsideIff | src/session.rs:2108-2128 | when a statement outside a transaction is accepted |
| Accepted.InsideIff | src/session.rs:1955-2046 | when a statement inside its own transaction is accepted |
| Accepted.CommitIsItsStatements | src/session.rs:1681-1733 | over any interleaving, a COMMIT that succeeds adds to every table exactly the batches its connection ran on it since its BEGIN, every one of which was accepted |
| Accepted.SeesItsStatements | src/session.rs:1955-1982 | over any interleaving, while its transaction stays open and healthy, a connection sees what it saw and then exactly its own batches |
| Accepted.BeginIff | src/session.rs:1617-1632 | BEGIN succeeds exactly when no transaction is open; nested in its own it makes that one's COMMIT fail, in another's it does nothing |
| Accepted.FailureSpoils | src/session.rs:1768-1774 | a failed statement writes nothing and makes its own transaction's COMMIT fail |
| Accepted.RollbackForgets | src/session.rs:1911-1948 | ROLLBACK succeeds exactly for its own transaction and leaves every table it enlisted as published before it, every other as it was |
| Accepted.DarkShutsOthersOut | src/session.rs:2034-2046 | after a statement that hid unnamed rows no other table gets into the transaction |
| Accepted.ReadSettles | src/session.rs:2108-2128 | a read through the writer is refused exactly in another's transaction or a failed one, changes nothing anyone sees and leaves nothing buffered |
| Accepted.ConnectIsNew | src/session.rs:4556-4566 | a new connection's identity is live nowhere and owns no transaction |
| Accepted.GoneTakesItsTransaction | src/session.rs:4568-4587 | a connection that goes takes its transaction with it, publishing nothing, and nobody else's |
| Shared.Database.Execute | src/session.rs:2309-2331 | one statement of one connection takes exactly the model's step, and the calls so far are an interleaving the theorems speak of |
| Shared.Database.Mutate | src/session.rs:2108-2128 | a row-changing statement, in the open transaction or wrapped in its own, takes the model's step, and accepted it has added exactly its batch |
| Shared.Database.Commit | src/session.rs:1681-1733 | the flush and publish loops over the roster take the model's COMMIT step |
| Shared.Database.Reap | src/session.rs:1925-1948 | the rollback loop over the roster takes the model's discard step |
| Shared.Database.Enlist | src/session.rs:1955-1982 | the two roster scans and the attachment take the model's enlistment step |
| Shared.Database.MarkFold | src/session.rs:2034-2046 | the scans take the model's step: refused beside any other table |
| Shared.Database.ReadShared | src/session.rs:2554-2599 | a reader's first try answers exactly the committed rows, is refused exactly while a table is in a transaction, or asks for a second |
| Shared.Database.ReadExclusive | src/session.rs:4827-4837 | its second try answers exactly the committed rows, or is refused exactly while a table is in a transaction; what is committed is unchanged |
| Scanning.FirstOf | src/io.rs:166-183 | the first index at or after `i` holding either byte, or the length |
| Scanning.MaskBelow | src/io.rs:171-175 | below and at the first true hit the OR of the two masks holds exactly that hit; borrowed hits lie above |
| Scanning.Find2 | src/io.rs:166-183 | the word-at-a-time scan returns `FirstOf` for every buffer, start and pair of bytes |
| Csv.FindClose | src/io.rs:215-234 | finds the closing quote, or reports an open field or an ambiguous edge, as the grammar does byte by byte |
| Csv.Unescape | src/io.rs:235-249 | the second pass appends exactly the field's unescaped text |
| Csv.ScanRecord | src/io.rs:203-293 | answers as the grammar does, and its ranges spell the record's fields with the quotedness of each exact |
| CsvGrammar.RecordIff | src/io.rs:203-293 | a window begins with a record of these fields and this length if and only if its text is that: fields spelled bare or in quotes, delimiters between, then LF, CR LF or the input's end |
| CsvGrammar.BadIff | src/io.rs:203-293 | a record is refused if and only if a quoted field in it is closed and followed by anything but delimiter, LF, CR LF or the input's end, or is never closed before that end |
| CsvStream.RecordGrows | src/io.rs:203-293 | a record decided before the end of input is known is decided alike for every longer input |
| CsvStream.RecordDecided | src/io.rs:203-293 | at the end of input every record is decided, and a completed one uses at least one byte |
| CsvStream.Records.Refill | src/io.rs:384-408 | sliding, doubling and one read keep the remaining input; it is refused exactly with a full window of the largest size |
| CsvStream.Records.Next | src/io.rs:356-382 | the answer depends only on the remaining bytes: the next record, the end, the error, or the refusal of a record the limit does not settle |
| CsvStream.ReadAll | src/io.rs:356-408 | for every input and every splitting into reads, the records and the ending are those of one scan of the whole input |
| CsvInput.ParseIff | src/io.rs:356-408 | an input is read as these records with this ending if and only if byte for byte it is those records and then its end, a refused record or one too wide |
| CsvWrite.WriteField | src/io.rs:1042-1060 | writes the text bare, or between quotes with every quote doubled |
| CsvWrite.WriteBlock | src/io.rs:1119-1160 | writes the rows' texts one after the other |
| CsvWrite.BareIff | src/io.rs:1042-1060 | a text is written as it is if and only if it is not empty, is not the null text and holds no delimiter, quote, LF or CR |
| CsvWrite.LineRoundTrips | src/io.rs:203-293 | a row's line, ended by LF or by CR LF, is one record of the same fields that uses the whole line |
| CsvWrite.LineEndsAgree | src/io.rs:203-293 | whichever lines end in LF and whichever in CR LF, a block is read as the same records |
| CsvWrite.RowRoundTrips | src/io.rs:982-1002 | a written row, whatever follows it, is one record that decodes to the row |
| CsvWrite.BlockRoundTrips | src/io.rs:982-1002 | reading what was written gives the same cells, NULL, the empty string and a string equal to the null text kept apart |
| CsvWrite.WriteThenRead | src/io.rs:1119-1160 | write, then read through any splitting into reads: the identity on tables of nullable strings |
| CsvWrite.NullTextIff | src/io.rs:1042-1060 | every table round-trips if and only if the null text is readable |
| Bits.DigitAt | src/encoding/bitpack.rs:219-238 | a digit of a number in a power-of-two base is a shift and a remainder away |
| BitPack.ReciprocalExact | src/encoding/bitpack.rs:222-226 | the wrapping multiply by the rounded-up reciprocal is true division below 2^26 |
| BitPack.GetExact | src/encoding/bitpack.rs:219-238 | in all three layouts every value reads back, with every word read in bounds |
| BitPack.WithinFrame | src/encoding/bitpack.rs:353-358 | whatever the words, a value lies between base and ceiling when the frame does not wrap |
| BitPack.CeilingIff | src/encoding/bitpack.rs:353-358 | the ceiling bounds the packed values if and only if base + mask does not wrap |
| BitPack.CeilingWraps | src/encoding/bitpack.rs:353-358 | a packed column of two values whose ceiling is 0 |
| Packing.Pack | src/encoding/bitpack.rs:90-98 | packing any values holds them, reads them back, and is recovered from the stored fields alone |
| Packing.PackWithBase | src/encoding/bitpack.rs:100-135 | picks the layout by the range's width and holds the values |
| Packing.PackLanes | src/encoding/bitpack.rs:113-121 | each word holds its own group of values, one a lane |
| Packing.PackStream | src/encoding/bitpack.rs:122-135 | the words are the values' bit stream, in base 2^64 |
| Packing.UnpackRange | src/encoding/bitpack.rs:240-301 | decoding `s..e` equals element-wise access and leaves the rest of the buffer alone |
| Packing.UnpackWords | src/encoding/bitpack.rs:303-328 | whole words decode lane by lane |
| Packing.Probe | src/encoding/bitpack.rs:392-404 | the interpolated probe lies in the interval before any clamping |
| Packing.LowerBound | src/encoding/bitpack.rs:390-412 | over any sorted column, the exact partition point |
| Counting.PosOrder | src/index/mph.rs:36-49 | counting-sort places are ordered by label, then by arrival |
| Counting.Reaches | src/index/mph.rs:100-107 | a one-to-one map of `[0, n)` into itself reaches everything |
| Bitmap.TakeExact | src/index/mph.rs:70-87 | setting a slot's bit takes that slot and no other |
| Mph.BucketStarts | src/index/mph.rs:30-42 | counting one place up and summing gives where each bucket begins |
| Mph.Scatter | src/index/mph.rs:43-49 | every key lands at its counting-sort place |
| Mph.OrderBuckets | src/index/mph.rs:50-56 | every bucket once, largest first |
| Mph.TrySeed | src/index/mph.rs:66-84 | a displacement is accepted exactly when the bucket fits the scratch and its keys fall on different free slots |
| Mph.PlaceBucket | src/index/mph.rs:64-91 | the first displacement that fits, with its slots taken; or the bucket is too big, or none fits |
| MphBuild.TryGlobal | src/index/mph.rs:29-95 | when a global seed succeeds, the keys fall on different slots; when it fails, some bucket was reached that no displacement places beside the larger ones before it, or that overflows the scratch array |
| MphBuild.LoneNeverStuck | src/index/mph.rs:29-95 | a single key's bucket is always placed |
| MphBuild.Build | src/index/mph.rs:24-99 | a table that comes out is a bijection from the keys to `[0, n)`, for any hash, and any other key is answered in bounds; none comes out only if all 256 global seeds fail, and one always does for at most one key |
| MphBuild.BuiltMeansDistinct | src/index/mph.rs:24-99 | a table comes out only for distinct keys |
| Dict.FromSorted | src/encoding/dict.rs:33-43 | the blob is the strings end to end; the dictionary decodes them if and only if the bytes fit |
| Dict.SpellsIff | src/encoding/dict.rs:33-43 | exact if and only if fewer than 2^32 bytes |
| Dict.Lookup | src/encoding/dict.rs:106-118 | finds a code of the string if and only if it is present |
| Dict.LowerBound | src/encoding/dict.rs:123-135 | the codes below the answer are exactly those of smaller strings |
| Dict.LessIff | src/encoding/dict.rs:123-135 | strings are ordered by bytes: a proper prefix first, else the first difference decides |
| Dict.CodesOrder | src/encoding/dict.rs:163-180 | codes compare exactly as the rows do |
| Dict.Encode | src/encoding/dict.rs:163-180 | codes are dense and compare exactly as the rows do; the dictionary spells the distinct rows, ascending, and each code decodes to its row, when the distinct bytes fit |
| Stable.StableIsUnique | src/sort.rs:32-42 | there is one stable ascending arrangement and the rearranged output is it |
| Stable.OutAscends | src/sort.rs:32-42 | labels come out ascending |
| Stable.StableExists | src/sort.rs:32-42 | that arrangement exists for every list of labels |
| Stable.PassesCompose | src/sort.rs:58-88 | a stable pass over items sorted by the lower digits sorts by both |
| Stable.UniformSkips | src/sort.rs:60-65 | a pass whose digits all agree may be skipped |
| Radix.RadixPass | src/sort.rs:66-87 | one counting pass rearranges keys and ids stably by its digit |
| Radix.RadixSortSoa | src/sort.rs:43-88 | keys and ids come out in the one stable ascending arrangement, short inputs and skipped passes included |
| Radix.RadixSort | src/sort.rs:18-30 | rows come out in the one stable arrangement by key |
| Radix.RankOrder | src/sort.rs:90-93 | ranks of composite keys compare as the components do, most significant first |
| Radix.RadixSortComposite | src/sort.rs:93-111 | rows come out in the one stable lexicographic arrangement |
| Like.LikeMatch | src/settings.rs:602-623 | the loop ends, and on subjects without `%` answers as the recursive definition does |
| Like.FoldIff | src/settings.rs:602-623 | case folding identifies the two cases of each of the 26 letters and nothing else |
| Like.GreedyMeans | src/settings.rs:602-623 | from any state of the loop, its answer is the current alternative or the last `%` taking one byte more |
| Like.RightIff | src/settings.rs:602-623 | the loop is right for every pattern if and only if the subject holds no `%` |
| Subquery.NamesMean | src/session.rs:2823-2887 | which names are views and which are virtual tables |
| Subquery.LowerIff | src/planner/binder.rs:2009-2020 | names compare alike exactly when they differ in the case of letters only |
| Subquery.QueryUntouched | src/session.rs:5645-5752 | where the walk finds nothing, the rewrite changes nothing and spends nothing, for every query, views and budget |
| Subquery.ShortcutSound | src/session.rs:2741-2760 | planning with the shortcut is as if every query were copied and rewritten |
| Folding.PlanMeans | src/session.rs:2706-2760 | whatever the operators and relations mean, a query that is planned means what it did: IN by membership, EXISTS by non-emptiness, a scalar by its value or NULL, a view by its body, every other part by itself |
| Folding.QueryMeans | src/session.rs:2761-3010 | so does every rewrite that succeeds, under any CTEs in scope |
| Folding.SameQuery | src/planner/binder.rs:2009-2020 | CTEs a query does not read make no difference to what it means |
| Folding.MisreadMeansOther | src/session.rs:2987-3015 | a query whose rewrite means something else, because a subquery misread a CTE |
| Budget.SucceedsIff | src/session.rs:2761-3060 | the rewrite succeeds if and only if nothing it meets fails and the budget covers every subquery and every view, those inside views included, and it spends exactly that |
| Expansion.ExpandsIff | src/session.rs:2761-2985 | a rewrite that succeeds leaves no view and no virtual table anywhere in the query, if and only if no subquery it left in place names one |
| Expansion.CorrelatedKeepsView | src/session.rs:2987-3015 | a rewrite that succeeds and leaves a correlated subquery's view as it was |
| CteScope.ScopeKeptIff | src/session.rs:2761-2985 | a rewrite that succeeds leaves every CTE-bound reference alone, in FROM and in subqueries, if and only if none is taken for a view or answered by a subquery run outside the CTE |
| CteScope.CteCaptured | src/session.rs:2823-2887 | a reference to a CTE that comes out as a view's body |
| CteScope.SubqueryCaptured | src/session.rs:2987-3015 | a reference to a CTE that comes out as a value of the base table it shadows |

## Left out

- File descriptors, `flock`, rename and `fsync` mechanics, mmap backing: abstracted to durable and volatile parts of a log and to atomic publication of parts.
- Byte framing, checksums and torn records of the log: a log is a sequence of whole records.
- Record timestamps, archive retention and pruning, backup and restore.
- Commits.UndoKeeps: asks that the coordinator's rewind succeeds, which `Undoing.UndoneIff` shows to be what is needed; the rollback is one step, so a crash between its rewinds is not a step of its own (`Undoing.UndoLeaves` says what each log replays there).
- Engine.Engine.Insert: a sync or an apply that fails after the record was appended is not modelled; memory and log then disagree until restart.
- Engine.Engine.Commit: a fold that fails after the view was published is not modelled. Once a crash has done damage, asks that the decision revives nothing and that the roll forgets nothing, which `Commits.DecisionHarmlessIff` and `Rolling.RollHarmlessIff` show to be exactly what is needed; until then it asks nothing.
- Engine.Engine: a bulk delete is one step, and carried decisions keep log order.
- Sizes that trigger folding (`wal_fold_bytes`) and compaction policy: a fold or a compaction may happen at any quiet point.
- DDL, CREATE TABLE AS, bulk import and RENAME: the set of tables is fixed.
- Isolation.StepKeeps: a statement's mutations are opaque items with an author.
- CsvStream.Source: a read that fails is not modelled.
- CsvWrite.WriteBlock: string columns only; numbers, dates and decimals would add formatting. Rows have at least one column and fit in the record limit.
- Dict.Encode: strings are byte sequences; UTF-8 validation of a stored dictionary is not modelled.
- MphBuild.Build: at most 2^28 keys, beyond which the packed seed array is not exact; the hash is any function, so nothing is said about how often a seed succeeds.
- BitPack.GetExact: at most 2^26 values, where the reciprocal is exact.
- Radix.RadixSortSoa: 32-bit counters and row ids are unbounded; inputs below 2^32 do not tell them apart. The library's stable sort is an insertion sort.
- Folding.PlanMeans: asks that no CTE-bound reference is captured (`CteScope.ScopeKeptIff`), that stored view bodies name their relations in full, as CREATE VIEW makes them, and have no captured reference of their own, and that running a subquery gives what it means.
- Subquery.QueryUntouched: the rewrite edits an owned copy in place; here it returns the new query. Running a subquery is a parameter.
- The SQL parser, binder, optimizer and executor, the shell, settings, the query log and result rendering.
- Bloom filters, zone maps, bit sets, zigzag and lanes as targets of their own: they would only add easy members.
