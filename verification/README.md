# Spica: a verified model of its log, projection and storage core

Spica is an event-sourced workflow engine. A leader reads Commands off an append-only log, dispatches
each into a batch, appends `batch ++ [Noop]` atomically, and then commits the folded projection and a
resume watermark in one storage transaction. After a crash a recovery pass folds what was appended but
not committed; a follower folds the same log batch by batch. This project models that core, the stores
and the log underneath it, and the small state machines around it, and proves what they guarantee over
every run, every input and every interleaving.

`dafny verify dfyconfig.toml` checks everything.

## How the model is laid out

- `Entries`, `LogShape`: the log record, the fold of a log into a projection, the shape of engine logs.
- `Protocol`: the step system. Clients append at any moment; the leader dispatches, appends, commits and
  announces; recovery reads; a follower reads; any of them may crash between any two steps. A dispatch
  step carries an arbitrary non-empty, Noop-free batch, and the applier is an arbitrary total function,
  so the theorems hold for every handler and applier.
- `Residue`, `Safety`, `Incarnation`: the invariant and its preservation. `Guarantees`, `Restart`,
  `Readback`, `Envelope`: what follows for every run (`Turns`: one Command's treatment as steps).
- `Counter`, `Minting`, `Continuations`: the generated-name counter along every run, and what a run can still do.
  `Answering`: runs whose dispatches are a handler's answers. `Witnesses`: runs that show each exception below.
- `Dispatching`, `Logs`, `Driver`: the same driver as imperative code, proved to refine the step system with its
  counter, every dispatch a given handler's answer.
- `Names`, `Keys`, `Lex`: object names, text keys, key order.
- `Overlay`, `Rocks`, `Backends`, `Histories`, `Paging`: the in-memory store and its transaction, the
  key-encoded store, the simulation between them, what a history leaves in both, and the paged listing.
- `StatePaths`: the walk over a document's `States` hierarchy.
- `Scheduler`, `Acks`, `DurableLog`, `Tailing`: the deadline loop, the acknowledgement registry, the
  durable log and its tailing read.

## Where the code and its comments, or the obvious statement, disagree

The model follows the code.

- The watermark is the position of the batch's Noop, not of the last dispatched Command as the comment at
  `crates/engine/src/stream_processor.rs:85-94` says. Commands at or below it, a batch's own follow-ups
  included, are never read after a restart: `Restart.DroppedIff` gives the exact condition and
  `Restart.FollowUpsCanBeLost` a run that loses one.
- Recovery commits only at a Noop that closes an Event, so an event-free batch caught between append and
  commit is dispatched again: `Guarantees.RepeatsAreOrphans`, `Envelope.AppendBreaksIff`, with a run in
  `Witnesses.RepeatBreaksChain`.
- Recovery leaves the last Event it folded in `last_applied`; it is reported again exactly when recovery
  folded something and the first Command is refused: `Guarantees.ReportsExactly`, with a run in
  `Witnesses.StaleEventReported`.
- The comment at `crates/engine/src/working.rs:94-100` says a minted name is never re-issued. That holds of
  names an Event at or below the watermark created and of names minted by committed batches
  (`Minting.MintsAreFresh`), but a name that an event-free batch mints for a follow-up Command can be minted
  again when that batch loses its commit: `Continuations.ReissuedIff` gives the exact condition over all
  continuations, `Witnesses.LostMintsComeBack` a run.
- A commit keeps the larger generated-name counter in memory and the last one written in RocksDB:
  `Overlay.ReadsSurviveCommit`, `Backends.CommitsSame` and `Backends.HistoryCounters` give the condition under
  which this cannot be seen, `Backends.CountersCanDiffer` a history where it can, and `Minting.CounterCovers` shows that the driver's commits always meet it.
- A page size of zero lists nothing in memory and one row in RocksDB: `Backends.ListingsAgree`, `Backends.ZeroLimitDiffers`.
- The kind listing does not check that a key still starts with its prefix, as the child scan does. It leans on the
  iterator for that: `Backends.UnboundedListing` says exactly when it would do without.
- A tailing read of the durable log from position 0 yields the last entry twice: `Tailing.DenselyIff`.
- An event of another variant under an awaited request id removes the registration before the variant is
  compared, so the awaiter is dropped: `Acks.DecidedByFirstTouch`, `Acks.ForeignVariantDrops`.
- The comment at `crates/logstream/src/rocks.rs:59-63` says the stream id is persisted; nothing writes it,
  and an open falls back to 1. The model has no such cell.

## Model

| member | source | states |
|---|---|---|
| Guarantees.CrashConsistency | crates/engine/src/stream_processor.rs:175-356 | In every reachable state, crashes anywhere: the committed projection is the fold of exactly the Events at or below the watermark at their own stamps, the Events above it belong to one batch, and the live loop never reads an Event above its watermark |
| Guarantees.AtMostOneEventBatch | crates/engine/src/stream_processor.rs:192-230 | Across any crashes and restarts, once a Command's batch bears an Event no other append ever carries that Command's cause |
| Guarantees.RepeatsAreOrphans | crates/engine/src/stream_processor.rs:219-248 | The Command under the live cursor already has a batch in the log if and only if that batch was event-free and lost its commit to a crash |
| Guarantees.FollowerAgrees | crates/engine/src/stream_processor.rs:395-490 | A follower with any crash history holds the fold of exactly the Events up to what it committed; once it has read through the leader's watermark and is not ahead of it, it holds the leader's projection |
| Guarantees.ReportsExactly | crates/engine/src/stream_processor.rs:306-338 | Between Commands, the Events reported are exactly the Events at the positions the incarnation committed, in log order, once each, preceded by recovery's leftover if and only if recovery folded something and the first Command was refused; the leftover is the last Event recovery folded; the Rejects reported are exactly those produced, in order, once each |
| Guarantees.NeverReportedEarly | crates/engine/src/leader.rs:382-391 | At every moment, what has been reported is a prefix of recovery's leftover and the Events at or below the watermark: never an Event before its commit |
| Answering.HandledAnswers | crates/engine/src/stream_processor.rs:288-318 | From any state with no leader running, crashes and restarts included: every batch a handler's dispatches append is its answer to the Command the batch's cause names, computed on the fold of everything in the log before the batch and with a counter that has passed every name created there |
| Answering.RecordAnswered | crates/engine/src/stream_processor.rs:288-318 | Every Event, Reject and follow-up Command such a run logs lies in one of those batches |
| Entries.FoldExact | crates/engine/src/leader.rs:324-347 | A fold passes from the first projection to the last by the applier alone, over exactly the Events, in order, once each, at their own stamps |
| Entries.EventsExact | crates/engine/src/leader.rs:264-273 | The Events taken out of a batch are exactly its Events, in order, once each |
| Entries.RejectsExact | crates/engine/src/stream_processor.rs:329-337 | The Rejects taken out of a batch are exactly its Rejects, in order, once each |
| Minting.CounterCovers | crates/engine/src/applier/appliers/mod.rs:60-78 | In every reachable state, crashes anywhere, the committed counter has passed the suffix of every name created at or below the watermark and every suffix a committed batch minted, a follower's likewise; and no commit lowers a counter |
| Minting.MintsAreFresh | crates/engine/src/working.rs:101-107 | From any reachable state, whatever a dispatch mints is no suffix of a name created by any Event in the log, none a committed batch minted, and none it minted or created itself before |
| Continuations.MintedLaterIff | crates/engine/src/working.rs:101-107 | From any reachable state, some continuation, crashes and restarts included, comes to a dispatch that mints a given suffix if and only if it is no lower than the committed counter and above every suffix an Event in the log, committed or not, created |
| Continuations.ReissuedIff | crates/engine/src/working.rs:94-107 | A suffix minted by a committed batch is never minted again; any suffix can be minted again if and only if the counter, once every Event in the log is folded, has not passed it |
| Continuations.Reboot | crates/engine/src/stream_processor.rs:175-249 | From any reachable crash, undisturbed recovery completes, changes nothing in the log, and resumes exactly at the last Noop closing an Event |
| Witnesses.LostMintsComeBack | crates/engine/src/handler.rs:124-134 | A run after which a suffix minted by an appended batch can be minted again: the batch named it only in a follow-up Command and lost its commit |
| Witnesses.RepeatBreaksChain | crates/engine/src/stream_processor.rs:219-231 | A run whose log passes the checker up to an append that answers an orphaned Command again, and fails after it |
| Witnesses.StaleEventReported | crates/engine/src/leader.rs:364-372 | A run that reports an Event its incarnation did not commit: recovery folded a lost batch and the first Command was refused |
| Readback.SeqReadbackExact | crates/engine/src/applier/appliers/mod.rs:60-78 | A read-back leaves the counter raised by exactly the Events it committed |
| Safety.StepKeepsInv | crates/engine/src/stream_processor.rs:175-490 | Every step of leader, recovery, client, follower and crash keeps the protocol invariant |
| Residue.CommitFolds | crates/engine/src/stream_processor.rs:306-318 | Committing the batch in flight lands exactly the Events between the two watermarks, although clients appended in between |
| Incarnation.RunKeepsFull | crates/engine/src/stream_processor.rs:268-379 | Every run keeps, besides safety, the exact account of what an incarnation dispatched, produced and reported |
| Readback.ReadbackExact | crates/engine/src/stream_processor.rs:175-249 | On any log at all, a read-back commits at exactly the last Noop that closes an Event, and commits the fold of exactly the Events up to it |
| Readback.ResumesExactly | crates/engine/src/stream_processor.rs:219-248 | From any projection, the position reached is the last Noop closing an Event above the start, or the start |
| Readback.InterruptedReadback | crates/engine/src/stream_processor.rs:175-249 | A pass interrupted anywhere, its held transaction dropped, and run again arrives where an uninterrupted one does, and a second pass changes nothing |
| Restart.RecoveryResumesAt | crates/engine/src/stream_processor.rs:219-248 | When recovery ends, the watermark is the Noop of the Event-bearing batch above the boot watermark, or that watermark if there is none, and reading resumes right above it |
| Restart.DispatchesExactly | crates/engine/src/stream_processor.rs:133-146 | The Commands an incarnation has dispatched are exactly those between its start and its cursor |
| Restart.DroppedIff | crates/engine/src/stream_processor.rs:133-146 | At the end of recovery, a Command in the log is dispatched by some continuation if and only if it lies above the watermark |
| Restart.FollowUpsCanBeLost | crates/engine/src/stream_processor.rs:306-318 | A run after which the log holds a follow-up Command that no append answered and no continuation dispatches |
| Envelope.AssertCausalChain | crates/testing/src/assertions.rs:73-140 | The causal-chain checker accepts a log if and only if every entry is in its place: contiguous batches that point at a Command before them, each cause used by one batch, no open batch at the end |
| Envelope.AssertEnvelope | crates/testing/src/assertions.rs:24-42 | Stamps aside, the envelope checker accepts a log if and only if it is not empty, its ids are dense from 1 on one stream, and its causal chain holds |
| Envelope.PassesIff | crates/testing/src/assertions.rs:24-140 | A well-shaped log passes the causal-chain check if and only if no Command has two batches |
| Envelope.RunsPass | crates/testing/src/assertions.rs:24-140 | The log of a run passes both checks if and only if no append of the run answered a Command whose earlier batch a crash had orphaned |
| Envelope.AppendBreaksIff | crates/engine/src/stream_processor.rs:306-318 | An append makes a passing log fail if and only if the Command under the cursor was orphaned before |
| LogShape.AppendKeepsOneBatch | crates/engine/src/log.rs:57-75 | Appending a batch keeps one batch per Command if and only if that Command had none |
| Dispatching.Collector.Perform | crates/engine/src/handler.rs:104-199 | Each act of a handler keeps: every collected record carries the Command's position and is no Noop, and the overlay is the fold of the records so far; a mint advances its counter, a create event raises it |
| Dispatching.DispatchOnce | crates/engine/src/leader.rs:224-275 | One attempt yields exactly its acts' records, the committed projection folded with them, and the committed counter moved by its mints and create events, and changes nothing committed |
| Dispatching.RecordsExact | crates/engine/src/handler.rs:104-199 | Every act but a mint has one record, in the order of the acts, with its own payload and stamp and the Command's position as cause |
| Dispatching.ProcessCommand | crates/engine/src/leader.rs:186-322 | At most three attempts, all but the last unexpected failures; the result is the last attempt's own batch, overlay and counter, or one Reject, under the Command's request id or the nil one, with the refusal's own type and reason, or as a processing error after three failures, on an overlay no failed attempt has touched; the counter is no lower than the committed one and has passed every suffix the batch creates; only success sets the Events to report |
| Dispatching.Storage.Commit | crates/engine/src/working.rs:87-99 | Projection and watermark change together; the counter never goes down |
| Logs.MemoryLog.Append | crates/logstream/src/memory.rs:84-106 | An append extends the log by its entries stamped with consecutive positions and the log's own stream, and returns the last position |
| Logs.AppendTerminated | crates/engine/src/log.rs:57-75 | Whatever the caller hands it, the append ends on a Noop, added without cause when missing |
| Driver.RecoverLeader | crates/engine/src/stream_processor.rs:175-249 | With clients appending between any two reads, the recovery loop is a run of the protocol, its counter included, that dispatches nothing; it returns the last Noop closing an Event, leaves storage at the fold of exactly the Events up to it, and the counter raised by exactly those |
| Driver.RunFollower | crates/engine/src/stream_processor.rs:395-490 | With the log growing before each read, the follower loop is the protocol's follower booting and reading; storage and counter end as a recovery pass over what it read would leave them, its open batch dropped |
| Driver.Arrive | crates/engine/src/engine.rs:657-671 | Each client Command is logged with its own payload and stamp, no cause, and a Noop of its own, one protocol step each |
| Driver.Dispatch | crates/engine/src/stream_processor.rs:288-298 | The batch is the handler's answer, on the committed projection and counter, to the Command under the cursor: what the attempt that counts emitted, or its refusal; the dispatch is one step of the protocol and leaves log and storage alone |
| Driver.AppendProduced | crates/engine/src/stream_processor.rs:306-312 | Only a dispatched batch is appended: its records with their own payloads, stamps and cause, then a Noop of the same cause, whose position is returned |
| Driver.CommitProduced | crates/engine/src/stream_processor.rs:313-318 | Only an appended batch is committed, with the overlay of its own dispatch and its own Noop's position, whatever clients appended since |
| Driver.AnnounceProduced | crates/engine/src/stream_processor.rs:319-338 | Only a committed batch is announced: the pending Events once, and exactly the batch's Rejects, in order, once each |
| Driver.CommandTurn | crates/engine/src/stream_processor.rs:293-338 | Dispatch, append, commit and announce of one Command, with clients appending in between, are a run of the protocol, its dispatch the handler's answer, its counter the committed one |
| Driver.RunLeader | crates/engine/src/stream_processor.rs:268-379 | Any number of iterations, with clients appending between and inside them, are a run of the protocol in which every dispatch is the handler's answer to the Command under the cursor on the committed state |
| Driver.StartLeader | crates/engine/src/stream_processor.rs:133-146 | Boot and recovery of a fresh leader are a run of the protocol that ends reading right above the watermark |
| Driver.Run | crates/engine/src/stream_processor.rs:104-155 | On whatever log and storage a history left behind, the whole driver continues that history as a run of the protocol; its storage holds the fold of exactly the Events up to its watermark, its counter stays above every suffix they created, and every batch it appended is the handler's answer to the Command its cause names |
| Driver.AfterCommit | crates/engine/src/leader.rs:382-391 | The pending Events are reported in order and forgotten |
| Names.PrintParse | crates/machinery/src/name.rs:183-221 | Parsing undoes printing for every valid name and every u64 suffix |
| Names.PrintInjective | crates/machinery/src/name.rs:183-188 | Printing is injective, so plain and generated names never share a spelling |
| Names.ParseAccepts | crates/machinery/src/name.rs:195-221 | A string is accepted if and only if it is a plain name or a plain base, one dash and a digit string in u64 range |
| Names.Reprints | crates/machinery/src/name.rs:195-221 | Every accepted string means a valid name whose canonical form parses to the same name, and is that form if and only if its suffix has no leading zero |
| Names.ZeroPadded | crates/machinery/src/name.rs:195-221 | A zero in front of a suffix is accepted and means the same name |
| Keys.JoinSegments | crates/storage/src/key.rs:344-351 | The buffer-building loop computes the join of the segments |
| Keys.RowLayout | crates/storage/src/key.rs:30-45 | Where the rows of each kind live: tenant, namespace, the word of the kind, the name |
| Keys.IndexLayout | crates/storage/src/key.rs:30-45 | Where ownership edges, variable scopes and the two scalars live |
| Keys.JoinPrefix | crates/storage/src/key.rs:344-351 | For slash-free segments, one joined key starts with another's join if and only if its segments start with the other's, the last one by prefix |
| Keys.KeyInjective | crates/storage/src/key.rs:167-351 | Distinct rows, edges, scopes and scalars, in any scopes, have distinct keys |
| Keys.KindPrefixExact | crates/storage/src/key.rs:207-227 | A kind's prefix starts exactly the keys of that kind's rows in that scope |
| Keys.EdgePrefixExact | crates/storage/src/key.rs:259-295 | A parent's prefix starts exactly the keys of that (kind, name) parent's edges in that scope |
| Keys.VersionPrefixExact | crates/storage/src/key.rs:240-254 | A flow's version prefix starts exactly the keys of that flow's versions in that scope |
| Overlay.OverlayIsApply | crates/storage/src/memory.rs:320-362 | Reading through the buffered batch is reading the store with the operations applied one after another, on any store |
| Overlay.ReadsSurviveCommit | crates/storage/src/memory.rs:374-656 | Every read through the transaction is the store's answer after commit, the counter if and only if the batch did not lower it |
| Overlay.CommitIsOneByOne | crates/storage/src/memory.rs:628-655 | One commit is the operations committed one by one, the counter if and only if no put went above both the last put and the committed counter |
| Overlay.RaisingAgrees | crates/engine/src/working.rs:101-107 | When no put is below what the transaction reads at that point, as for mints and create events, commit, the transaction's own reads and one-by-one commits agree on everything |
| Overlay.LastDecisionWins | crates/storage/src/memory.rs:339-362 | The last add or remove of an edge stands; without one, the committed edge does |
| Overlay.LastRowWins | crates/storage/src/memory.rs:374-408 | The last row put under a kind and name is the one read; without one, the committed row is |
| Overlay.LastScopeWins | crates/storage/src/memory.rs:410-426 | The last scope put for a thread is the one read; without one, the committed scope is |
| Overlay.InMemoryTxn.Write | crates/storage/src/memory.rs:493-626 | A buffered write moves the transaction's view exactly as the operation would move the store, and leaves the store alone |
| Overlay.InMemoryTxn.GetRow | crates/storage/src/memory.rs:376-458 | A row read sees the store with this transaction's writes applied |
| Overlay.InMemoryTxn.GetVariables | crates/storage/src/memory.rs:410-426 | A scope read sees this transaction's writes, and an absent scope as empty |
| Overlay.InMemoryTxn.GetChildren | crates/storage/src/memory.rs:345-362 | Replaying the decisions over the committed children, in any order, gives the children of the view |
| Overlay.InMemoryTxn.Mint | crates/engine/src/working.rs:101-107 | Minting returns the counter the transaction sees and leaves it one higher |
| Overlay.InMemoryTxn.Commit | crates/storage/src/memory.rs:628-655 | Commit lands every buffered decision at once, with the watermark when there is one, and never lowers the counter |
| Rocks.MergeIsWrite | crates/storage/src/rocks.rs:392-430 | Reading through pending writes is reading the store with the operations written one after another |
| Rocks.ScanIsUnder | crates/storage/src/rocks.rs:509-530 | An ordered scan from a prefix that stops at the first key outside it has visited exactly the keys under it |
| Rocks.ScanChildren | crates/storage/src/rocks.rs:230-245 | The guarded scan returns exactly the children in the cells under the prefix, or the decode error if one is no edge |
| Rocks.ScanKind | crates/storage/src/rocks.rs:193-226 | Over an iterator bounded by the prefix, the listing scan returns the rows of the kind in name order, strictly after the offset, at most a page and at least one if there is one |
| Rocks.ScanUnbounded | crates/storage/src/rocks.rs:193-226 | Over an iterator that only starts at the prefix, the same loop returns the page of the kind's names followed by whatever keys past the range leave once cut |
| Rocks.RocksTxn.GetRow | crates/storage/src/rocks.rs:395-411 | A row read through the transaction decodes the cell of the store with its operations written |
| Rocks.RocksTxn.Commit | crates/storage/src/rocks.rs:628-642 | Commit writes every pending cell and the watermark at once |
| Backends.TransactionsSame | crates/storage/src/rocks.rs:432-643 | Whatever the counters, after any operations the key-encoded and the typed transaction see the same rows, scopes and edges |
| Backends.TransactionCounters | crates/storage/src/rocks.rs:617-626 | Two transactions read the same counter if and only if they put one or started from the same |
| Backends.TransactionReadsAgree | crates/storage/src/rocks.rs:433-530 | In the middle of any two transactions over equal stores, row, scope and child reads agree |
| Backends.CommitsSame | crates/storage/src/memory.rs:628-655 | Whatever the counters, one commit lands the same rows, scopes, edges and watermark on both stores; the counters agree afterwards if and only if the transaction put none and they agreed, or it did not lower the typed one |
| Backends.HistoriesSame | crates/storage/src/rocks.rs:432-643 | After any history of raw writes and transactions committed or dropped, the two stores hold the same rows, scopes, edges and watermark, given one uid per (kind, name) |
| Backends.HistoryCounters | crates/storage/src/rocks.rs:623-642 | After any history, the two counters agree if and only if the last commit of one did not lower it |
| Backends.ChildrenAgree | crates/storage/src/rocks.rs:230-245 | On equal stores the prefix scan of a parent returns exactly its typed child set |
| Backends.HistoryReadsAgree | crates/storage/src/rocks.rs:88-164 | After any history, row, scope, child and watermark reads of the two stores agree |
| Backends.HistoryListingsAgree | crates/storage/src/rocks.rs:193-226 | After any history, listings of any kind, offset and page size but zero agree, names and rows |
| Histories.HistoryIsOps | crates/storage/src/memory.rs:201-305 | A history of raw writes and of transactions committed or dropped leaves exactly the operations that landed, applied in order |
| Histories.RowIsLastPut | crates/storage/src/memory.rs:97-110 | After any history, in either store, the row read is the last one a landed operation put there, or none |
| Histories.ScopeIsLastPut | crates/storage/src/memory.rs:111-122 | After any history, in either store, the scope read is the last one a landed operation put, or empty |
| Histories.EdgeIsLastDecision | crates/storage/src/memory.rs:154-157 | After any history, a child is there if and only if the last landed operation about its edge added it |
| Histories.PositionIsLastMark | crates/storage/src/memory.rs:293-300 | After any history, the watermark is the last one written raw or by a commit, or zero |
| Backends.CountersCanDiffer | crates/storage/src/memory.rs:649-651 | Two commits after which the counters of the two stores differ |
| Backends.ZeroLimitDiffers | crates/storage/src/rocks.rs:219-222 | One row and a page size of zero: the key-encoded scan returns it, the typed listing nothing |
| Backends.ListingsAgree | crates/storage/src/memory.rs:158-199 | On equal stores, over a bounded iterator, the listing scans return the same rows if and only if the page size is not zero or nothing lies after the offset |
| Backends.UnboundedListing | crates/storage/src/rocks.rs:206-224 | Without that bound the names returned are still the page's if and only if the page fills inside the kind's range or no stray name past it lies after the offset |
| Backends.UidsMatter | crates/storage/src/key.rs:282-295 | Without one uid per name, typed maps keep two edges where the keys keep one |
| Paging.CrawlIsListing | crates/engine/src/query.rs:87-119 | Following continue tokens ends after the least number of pages that hold the rows, and at least one, and the pages are exactly the kind's names in order, none missed or repeated |
| Paging.PageAt | crates/engine/src/query.rs:87-119 | The page that resumes after any number of rows holds exactly the next ones, and a token if and only if rows remain |
| Paging.RefusedIff | crates/engine/src/query.rs:93-100 | A page is refused if and only if its token is not empty and neither a plain name nor a plain base, a dash and digits in u64 range |
| StatePaths.Walk | crates/asl/src/state_path.rs:175-273 | The loop lands on a table if and only if the tokens spell a descent the document has, with or without a last opener, and lands where that descent leads; it reports a missing name if and only if they spell such a descent and then a state or branch not there, or stop before naming a branch |
| StatePaths.MissingIff | crates/asl/src/state_path.rs:201-236 | From any table, exactly which failed walks report a missing name; all others are malformed |
| StatePaths.WalkIsDescent | crates/asl/src/state_path.rs:175-273 | Soundness and completeness of the walk against structural descent, from any table |
| StatePaths.BuiltPathResolves | crates/asl/src/state_path.rs:47-101 | A path composed by the builders, and a sibling of it, find a state if and only if the document has it under that name in the table the moves lead to, and find that state; a name that table lacks is reported missing |
| StatePaths.StateAtIff | crates/asl/src/state_path.rs:159-165 | Any path finds a state if and only if all but its last token spell a descent to a table that has it under the last; the empty path looks for the empty name at the top |
| StatePaths.OpenerOptional | crates/asl/src/state_path.rs:183-204 | A built table path resolves to one table with or without its closing opener |
| Scheduler.FireMatchesArm | crates/scheduler/src/in_memory.rs:99-170 | Every fire answers the latest arm of its target at that arm's deadline, with nothing about the target in between |
| Scheduler.FiresOnTime | crates/scheduler/src/in_memory.rs:117-127 | Every fire belongs to a turn of the loop and is due by that turn's own clock reading |
| Scheduler.ArmFate | crates/scheduler/src/in_memory.rs:41-51 | Every processed arm is exactly one of fired, cancelled, replaced or still armed |
| Scheduler.ArmsConserved | crates/scheduler/src/in_memory.rs:99-170 | Arms processed equal fires, arms ended by a cancel or re-arm, and arms standing |
| Scheduler.ArmedIsLastArm | crates/scheduler/src/in_memory.rs:41-51 | A target is armed for a deadline if and only if the last happening about it is an arm for it |
| Scheduler.InMemoryScheduler.Fire | crates/scheduler/src/in_memory.rs:117-148 | A fire phase adds to the record only fires decided by its own reading, fires exactly the due arms, and leaves nothing due armed |
| Scheduler.InMemoryScheduler.Run | crates/scheduler/src/in_memory.rs:99-170 | Whatever the messages, clock readings and wake-ups, the record is lawful and splits into the turns: each one's inbox in order, then fires by its own reading with nothing due left, then its wake-up; and last what the closing inbox held |
| Acks.AckHook.OnEventApplied | crates/server/src/gateway.rs:121-145 | An applied event settles at most the awaiter under its request id, as the registry machine says |
| Acks.AckHook.Register | crates/server/src/gateway.rs:72-80 | Registering adds a waiting awaiter and drops the sender of a live one under the same key |
| Acks.AckHook.OnCommandRejected | crates/server/src/gateway.rs:147-152 | A rejection settles the awaiter under its request id |
| Acks.AfterIsValid | crates/server/src/gateway.rs:63-153 | After any calls, exactly the waiting awaiters are pending, and every outcome sent fits its awaiter: a grant only to a grant awaiter, and a flow version, execution or task completion event only to the awaiter of that variant, under the request id the event echoes |
| Acks.SettledForGood | crates/server/src/gateway.rs:121-152 | An awaiter once settled never changes: at most one outcome each |
| Acks.DecidedByFirstTouch | crates/server/src/gateway.rs:121-152 | An awaiter waits if and only if no later call touches its key, and the first call that does decides it exactly: a rejection, its own event variant, the tasks granted field by field, or dropped |
| Acks.OwnOutcomeArrives | crates/server/src/gateway.rs:63-153 | With a fresh key and only its own outcome variants echoing it, an awaiter is never dropped |
| Acks.OutcomeDelivered | crates/server/src/gateway.rs:85-145 | If the first call about a registered key is an event of the awaited variant, the awaiter is sent that event, or the tasks it claimed, each with its own name, resource and arguments |
| Acks.ForeignVariantDrops | crates/server/src/gateway.rs:125-131 | One event of another variant under the key loses the acknowledgement |
| Acks.AwaitEvent | crates/server/src/gateway.rs:278-289 | On any awaiter the registry can produce, the unreachable arm is not reached; the event returned is the one sent, of the awaited variant under the awaited id |
| Acks.AwaitTasks | crates/server/src/gateway.rs:292-303 | On any grant awaiter the registry can produce, the unreachable arm is not reached; the tasks returned are those of the grant sent |
| DurableLog.KeyOrder | crates/logstream/src/rocks.rs:66-71 | Entry keys are injective and order as positions do, negative ones last |
| DurableLog.RocksLog.Open | crates/logstream/src/rocks.rs:128-157 | Opening any store a log left, or a fresh one, continues at the next position |
| DurableLog.RocksLog.Append | crates/logstream/src/rocks.rs:173-207 | The durable append does to the dense log exactly what the in-memory one does, and cached and persisted next position agree |
| DurableLog.RocksLog.Read | crates/logstream/src/rocks.rs:211-227 | A point read is the dense log's entry at that position, or none |
| DurableLog.RocksLog.Sweep | crates/logstream/src/rocks.rs:237-248 | One sweep returns exactly the dense log's entries from the position on, in order |
| Tailing.TailsDensely | crates/logstream/src/rocks.rs:232-261 | From any start but zero, under any interleaving with appends, a tailing read has yielded the dense log's entries from there, each once, in order, without gap, and rests only when caught up |
| Tailing.RefinesDense | crates/logstream/src/memory.rs:117-148 | From any start but zero, every run of the durable reader is, its sweeps left out, a run of the in-memory reader with the same log, cursor and output |
| Tailing.DenselyIff | crates/logstream/src/rocks.rs:232-261 | Every interleaving yields what the in-memory reader could have yielded over the same log if and only if the start is not zero |
| Tailing.ZeroRepeats | crates/logstream/src/rocks.rs:232-261 | From zero, whatever the log holds, all of it is yielded and then its last entry again |

## Left out

- Command handlers, element behaviours and appliers: parameters of the model; how an attempt ends is any function of the committed state, the position, the Command and the attempt's number, which may differ from one incarnation to the next; appliers are taken as total, since `append_event` logs an applier error and goes on.
- Failures of storage and of the log themselves (an append or commit returning an error): they end the driver, which the crash steps cover; the error values are not modelled.
- The generated-name counter as part of the projection: minting moves it outside the event fold, so the projection is compared without it and `Minting` carries it beside the protocol.
- Minting past the largest i64: the counter is unbounded; the wrap of a create event's suffix at and above that value is modelled (`Counter.RaiseTo`), and coverage is claimed for suffixes below it.
- Dispatching.Storage.Commit: keeps the larger counter, as the in-memory store does; the RocksDB form is in `Backends`.
- Concurrent open transactions and optimistic conflicts: one transaction is open at a time, as the driver keeps it.
- The six typed row maps: one map keyed by kind and name; a flow's key is its plain name.
- `activatable_tasks`: its order and cut are unspecified in memory, and claimability is not among the modelled definitions.
- JSON codecs: cells hold decoded values, and a cell of the wrong sort stands for a decode failure.
- Rocks.ScanKind: takes an iterator over exactly the keys under its prefix, which is what RocksDB's `prefix_iterator` is trusted for; the guarded scans, and `Rocks.ScanUnbounded`, are modelled without that.
- Rocks.ScanUnbounded: takes keys long enough to cut; the original panics on a shorter one.
- Non-ASCII names: rejected by the charset in code and model alike; lengths are counted in characters, which differs only on rejected strings.
- `assert_append_times` and the payload rendering of the log checker: stamp order is not decided by the protocol.
- StatePaths.Walk: error messages are kept only as far as they tell a malformed step from a missing name.
- Pointer token escaping (RFC 6901, section 3): paths are their decoded tokens.
- `CompositeHook`'s derivation of arms and cancels from events: one match that forwards.
- The scheduler's sink: a fire is recorded when it is decided; delivery into the engine is not modelled.
- Sleeping, backoff, clocks, task scheduling and locks: clock readings and wake-ups are inputs, delays are nothing.
- DurableLog.RocksLog.Append: positions are bounded below the largest i64, where the original would overflow.
- gRPC services, client SDK, CLI, worker loop, JSONata evaluation, serde of the ASL types.
