# Verified models of MBE's execution and scheduling cores

This project models the deterministic execution, scheduling, routing, block production and state
authenticity algorithms of MBE's Go executor and proves what they promise. Every `.dfy` file is one
module:

- `Basics`: tokens, options and ids, and facts about finite sets and lists.
- `Transactions`: declared accesses and the abstract executor of one transaction. A transaction body
  is an adaptive program whose every read and write may depend on what it has seen, so what a run
  touches is a result, not an assumption.
- `Histories`: what a run sees, told by the reads and writes it made.
- `SerialRows`: the serial reference over all shards. A key is read and stored in the row that its
  home gives it, and the writes of one transaction are stored in the order of their keys.
- `SerialExecution`: on one shard this reference is what the block loop of the serial executor leaves.
- `CalvinLocks`: the per-key lock queues of one shard as a class, and the dispatch loop with the
  order of completions left open.
- `CalvinStateful`: all shards as a state machine whose steps (read and send, execute, materialize
  and release) interleave freely, and the exchange of outcomes at the end.
- `CalvinAliases`: for which access lists and homes this is serial, in both directions.
- `CalvinPlan`, `CalvinStateless`: consensus-bound versions, and execution by exact predecessor
  versions instead of resident state, again over every interleaving.
- `StatelessRows`: what stateless Calvin computes and materializes against the serial reference.
- `StatelessAliases`: for which access lists, homes and executing shards this is serial, in both
  directions.
- `Witnesses`: small programs with which the two alias modules build runs that are not serial.
- `CalvinExchange`, `CalvinOutcomes`: the boards on which read results and outcomes arrive, with
  their sleeping and waking.
- `NezhaOrder`, `NezhaSort`, `NezhaPlan`: queue ranking with cycle breaking, in-queue sequence
  assignment over nodes shared between queues, and the numbering that builds the nodes and uses both.
- `NezhaNumbers`: which number every transaction of a queue ends with, without the sorter's loops.
- `NezhaUnique`: nodes, queues, ranking and numbers are determined by the block.
- `NezhaSafety`: what these numbers are good for over a whole run of the sorter, and where they fail.
- `AcgWaves`: transactions of one number as waves, and when their execution is serial.
- `BsxColouring`, `BsxWaves`: DSATUR colouring of the conflict graph, and wave-parallel execution,
  for waves of any origin, against serial replay.
- `Blocklane`: Kahn's algorithm that always emits the earliest eligible transaction.
- `CoAccess`: size-capped union-find with path compression and least-loaded placement.
- `BlockProduction`: transaction pool, block producer and the virtual-time loop around them.
- `StateProofs`: versioned state roots, the proofs made against them and the check of proofs.
- `ProducedProofs`: state proofs for the commits of a produced chain.
- `CandidateWire`: accepted and deferred candidates on the wire, for ACG and Aria.
- `DualTrack`: the two-track per-shard scheduler.
- `Digraphs`: paths, cycles and orders, shared by the schedulers.

Mutable objects of the source are classes with the fields the source updates; a goroutine pool, a
network or a clock becomes a free choice (a completion order, an arrival order, an interleaving).
`dafny verify dfyconfig.toml` checks everything.

Some properties do not hold of the source on all inputs. The model keeps the source's behaviour and
says when they hold:

- A plain key homed on shard s and the same key written with the prefix of s are two names of one
  row, for the serial executor as well, but have separate locks. A reader by one name can therefore
  run before or after its turn among the writers by the other. Stateful Calvin is serial for all
  programs, starting rows and interleavings exactly if the accesses to each row are ordered by other
  locks and messages, no transaction writes two names of one row, and no shard executes on two reads
  of one row name that are different rows: `CalvinAliases.SerialExactly`.
- Stateless Calvin keeps versions per name, puts fetched values into one slot per row name, repeats
  that slot where it wrote nothing, and lets a plain key take the value written to a qualified form
  of it. It is serial exactly if every read is shown by an up-to-date version of its own row, and a
  plain and a qualified form are written together only if they are one row:
  `StatelessAliases.SerialExactly`.
- BSX finds conflicts by name. A planned block replays serially for all programs that keep to their
  access lists exactly if no wave has a member that writes a row which a later member reads by
  another name: `BsxWaves.SerialExactly`. It does not check actual against declared accesses, and
  `UndeclaredReadBreaks` shows that keeping to them is needed; whether a run kept to them can be
  observed on the parallel run itself.
- ACG sorts address after address, and a later address can renumber a transaction that writes it, so
  an earlier queue need not stay sorted: `TwistUnsorted` is a block of two transactions whose first
  queue ends unsorted, and `TwistBreaks` shows that both end in one wave and that some programs with
  these access lists then do not execute in the plan's serialization order. What does hold: numbers
  never fall, and a queue stays sorted up to the transactions that write an address sorted later.
  If the dependencies (write one address, read another) have no cycle, every writer ends above every
  other reader, and execution is serial if different names are different rows, `AcyclicIsSerial`; if
  besides every transaction writes at most one address, all queues end sorted and no wave has a
  conflict, `OneWriteIsPeaceful`. In general
  access lists guarantee serial execution exactly if no transaction writes a row that a later one of
  the same number reads: `AcgWaves.SerialExactly`.
- A failed transaction can have writes (the executor creates an account before it checks the nonce).
  The serial executor and stateful Calvin keep them, stateless Calvin drops them.
  `DropsAgreeExactly` gives the exact condition under which both agree along a block,
  `DropsAgreeForAll` the one on programs for all blocks and starting rows, `FailedWriteIsLost` an
  input.
- Stateless Calvin computes its durable delta from an empty base, so a block that ends by writing the
  empty string over a non-empty value loses that write: `DurableExactly`, with an input in
  `EmptyingIsLost`. The repository's own transaction bodies never write an empty string, so this
  concerns abstract programs only.
- State proofs need commit heights that do not fall: `ProvableIff` gives the exact condition,
  `FallingHeightFails` an input.
- The name of a pair of keys can be taken apart exactly if the first key has no separator:
  `UnpackIff`.

## Model

| member | source | states |
|---|---|---|
| `Transactions.RunAgrees` | executor/realism/execution/serial.go:206-211 | a run cannot tell apart two states that agree on the keys it observes and has not written itself, for every program, and cannot leave these keys on one of them only |
| `Histories.HistoryDecides` | executor/realism/execution/serial.go:424-436 | whatever reads and writes a run makes, each read returns the last value the run put there before, or else the stored row; the run ends with the last value put for each key written and with nothing else |
| `Histories.HasHistory` | executor/realism/execution/serial.go:206-211 | every run of every program has such a history |
| `Transactions.ModesDeclare` | executor/v5/calvin_executor.go:226-243 | in a canonical access list a key is read unless its mode is a plain write, and written unless it is a plain read |
| `Transactions.ExecuteAgrees` | executor/v5/calvin_executor.go:944-966 | states that agree on the declared reads give the same verdict of the access check and, if it passes, the same receipt and writes |
| `SerialRows.OrderedIsSound` | executor/v5/calvin_executor.go:198-224 | every block with canonical access lists, homes for its keys and an order of key strings is covered |
| `SerialRows.CheckedRejectsLikePlain` | executor/v5/calvin_executor.go:944-966 | the serial run in which a transaction outside its declaration has no effect meets one exactly when the plain serial run does |
| `SerialRows.CheckedIsPlain` | executor/v5/calvin_executor.go:944-966 | as long as the plain serial run stays within its declarations, checking changes no row of any shard |
| `SerialRows.Untouched` | executor/v5/calvin_executor.go:822-942 | a row keeps its value over any stretch of the block in which nobody declares a write to any of its names |
| `SerialExecution.SortedStore` | executor/realism/execution/serial.go:103-116 | storing a write set key by key in sorted order leaves every row with the write of its last name in that order |
| `SerialExecution.OneShardIsExecutor` | executor/realism/execution/serial.go:87-145 | on one shard, as long as what is touched has a home, the block loop leaves in every row the value of the row-level reference, whether declarations are kept or not |
| `SerialExecution.WithinIsHomed` | executor/v5/calvin_executor.go:944-966 | that is so as long as declarations are kept |
| `SerialExecution.ExecutorOutcome` | executor/realism/execution/serial.go:87-145 | and every transaction has the outcome of the reference |
| `CalvinLocks.BuildTables` | executor/v5/calvin_executor.go:54-108 | every key's queue lists exactly the transactions that declare it, in block order with their mode, and wait counts start at the number of requests; for one shard these are the keys homed there, without a shard all declared keys |
| `CalvinLocks.Enqueue` | executor/v5/calvin_executor.go:54-108 | a transaction joins the queues of exactly the keys it declares here, each once, behind everybody there |
| `CalvinLocks.LockManager.constructor` | executor/v5/calvin_executor.go:54-108 | the new manager grants exactly what the rules allow: no two granted unreleased requests conflict, wait counts equal ungranted requests, nothing is published |
| `CalvinLocks.LockManager.Grant` | executor/v5/calvin_executor.go:139-186 | one more grant: the wait count still equals the ungranted requests, and at zero the participant is published once |
| `CalvinLocks.LockManager.GrantShared` | executor/v5/calvin_executor.go:171-186 | granting the run of shared requests at the head of a queue leaves nothing grantable ungranted on the key, takes nothing back and publishes each newly complete participant once |
| `CalvinLocks.LockManager.AdvanceQueue` | executor/v5/calvin_executor.go:139-186 | afterwards everything that may be granted on the key is, nothing granted is taken back, and nothing else was granted against the rules |
| `CalvinLocks.LockManager.AdvanceKey` | executor/v5/calvin_executor.go:139-186 | afterwards every grantable request of the key is granted and no other, and whoever reached wait count zero is published once |
| `CalvinLocks.LockManager.InitialReady` | executor/v5/calvin_executor.go:110-121 | publishes exactly the participants that hold all their locks, none twice, in block order |
| `CalvinLocks.LockManager.Release` | executor/v5/calvin_executor.go:123-137 | releases exactly the transaction's requests, grants everything that became free, publishes each newly complete participant once and nobody published before |
| `CalvinLocks.LowestIsReady` | executor/v5/calvin_executor.go:139-186 | when everything grantable is granted, the lowest uncompleted transaction waits for nothing: no deadlock within a shard |
| `CalvinLocks.HoldersAreAlone` | executor/v5/calvin_executor.go:139-186 | a transaction that waits for nothing has every earlier conflicting transaction completed behind it |
| `CalvinLocks.SomeoneRuns` | executor/v5/calvin_executor.go:531-624 | while a participant is uncompleted, a launched one is: the loop never waits in vain |
| `CalvinLocks.Begin` | executor/v5/calvin_executor.go:531-624 | launches exactly whoever holds all its locks at the start |
| `CalvinLocks.CompleteOne` | executor/v5/calvin_executor.go:531-624 | a completion extends the history and publishes only transactions never published before |
| `CalvinLocks.Dispatch` | executor/v5/calvin_executor.go:531-624 | for every order of completions the loop ends, having launched and completed every participant exactly once, each only after every earlier conflicting one completed |
| `CalvinLocks.AsksFor` | executor/v5/calvin_executor.go:68-90 | a transaction asks for exactly the declared keys of the table, exclusively if it declares a write, for one shard those homed there and without a shard all |
| `CalvinLocks.PublishedExactly` | executor/v5/calvin_executor.go:97-137 | between two completions exactly those participants are published behind which every earlier conflicting one has completed |
| `CalvinLocks.DispatchBlock` | executor/v5/calvin_executor.go:531-624 | from access lists: fails exactly if one is not canonical; otherwise every transaction that declares a key of the table runs exactly once, without a shard every transaction of the block, and a conflict over a declared key, one declaring it written, orders the later start after the earlier completion |
| `CalvinStateful.RunKeeps` | executor/v5/calvin_executor.go:517-624 | if the rows are orderly, the invariant tying all shards' rows, sent reads and receipts to the serial prefix holds in every reachable state of every interleaving |
| `CalvinStateful.SerialEquivalence` | executor/v5/calvin_executor.go:822-942 | if the rows are orderly, then whatever the interleaving and the assignment of homes, a finished run leaves every row of every shard with its serial value and every executing shard with the serial receipt and writes |
| `CalvinStateful.EveryReceiptIsSerial` | executor/v5/calvin_executor.go:628-669 | after the exchange of outcomes every shard, executing or not, has the serial receipt of every transaction, whichever executing shard published it, and no shard finds a mismatch |
| `CalvinStateful.AdoptsExactly` | executor/v5/calvin_executor.go:628-669 | in every state a shard adopts a verdict exactly if the publisher has it and the shard, should it have executed the transaction, has the same |
| `CalvinStateful.SomeoneExecutes` | executor/v5/calvin_executor.go:253-299 | every transaction has a participating shard that executes it and can publish its outcome |
| `CalvinStateful.FailureIsSerial` | executor/v5/calvin_executor.go:944-966 | with orderly rows, a run reports an access violation only if the serial run has one |
| `CalvinStateful.StoppedForGood` | executor/v5/calvin_executor.go:563-568 | from an access violation on, whatever the other shards do, its shard reads, executes and releases nothing and its rows stay |
| `CalvinStateful.NotStuck` | executor/v5/calvin_executor.go:822-942 | while some shard has not released some transaction and no shard failed, a step is possible: no deadlock across shards and exchange |
| `CalvinStateful.VerdictIsSerial` | executor/v5/calvin_executor.go:822-966 | a violation stops only its own shard; a run in which no shard can go further has a failed shard exactly if the serial run has an access violation, and otherwise has finished on every shard |
| `CalvinStateful.RunBounded` | executor/v5/calvin_executor.go:517-624 | every run has at most three steps per participating shard and transaction, so every interleaving ends, whatever the rows |
| `CalvinStateful.ManagerGrants` | executor/v5/calvin_executor.go:97-137 | in a shard's dispatch loop the published transactions are exactly those the state machine lets proceed |
| `CalvinAliases.SerialExactly` | executor/v5/calvin_executor.go:822-942 | access lists, homes and seats make every finished run of every block with them end serially, for all programs, starting rows and interleavings, exactly if the rows are orderly |
| `CalvinAliases.DisorderBreaks` | executor/v5/registry.go:5635-5640 | whenever the rows are not orderly there are programs, starting rows and a complete run that leaves a row or a receipt that is not the serial one |
| `CalvinAliases.EarlyReadBreaks` | executor/v5/calvin_executor.go:822-942 | if nothing makes a reader by one name wait for an earlier writer by the other, there are programs, starting rows and a complete run that does not end serially, because it reads too early |
| `CalvinAliases.LateReadBreaks` | executor/v5/calvin_executor.go:822-942 | if nothing makes a writer by one name wait for an earlier reader by the other, there are programs, starting rows and a complete run that does not end serially, because the read comes too late |
| `CalvinAliases.LateWriteBreaks` | executor/v5/calvin_executor.go:822-942 | if nothing orders two writers of one row, there are programs, starting rows and a complete run that does not end serially, because the earlier value stays |
| `CalvinAliases.TwoWritesBreak` | executor/v5/calvin_executor.go:822-942 | if one transaction writes two names of one row, there are programs, starting rows and a complete run that does not end serially, because the wrong one of its values stays |
| `CalvinAliases.SharedReadBreaks` | executor/v5/calvin_executor.go:822-942 | if a shard executes on two reads of one row name that are different rows, there are programs, starting rows and a complete run that does not end serially, because of the receipt |
| `CalvinAliases.LocksOrder` | executor/v5/calvin_executor.go:54-108 | two accesses of the same key always happen in block order: the locks see to that |
| `CalvinAliases.ApartIsOrderly` | executor/v5/registry.go:5635-5640 | blocks in which no two declared names share a row are orderly |
| `CalvinPlan.ShiftOrIsSum` | executor/v5/calvin_plugins.go:175-183 | on 64-bit words the shift and or of the source is the sum the model uses |
| `CalvinPlan.VersionsOrdered` | executor/v5/calvin_plugins.go:175-183 | versions are non-zero, fit 64 bits, are ordered by height and then index, and never collide |
| `CalvinPlan.FitsExactly` | executor/v5/calvin_plugins.go:175-183 | the namespace check passes exactly if height and index can be read off the two halves of the 64-bit version |
| `CalvinPlan.LastWriterIsGreatest` | executor/v5/calvin_plugins.go:194-219 | the tracked last writer is the greatest earlier index that declares a write to the key, or none |
| `CalvinPlan.BindOne` | executor/v5/calvin_plugins.go:204-211 | every access requires the version of the last writer before the transaction and produces one exactly if it writes |
| `CalvinPlan.NoteWrites` | executor/v5/calvin_plugins.go:212-216 | the table again names the last writer of every key, now including this transaction |
| `CalvinPlan.BuildPlan` | executor/v5/calvin_plugins.go:185-222 | succeeds exactly on blocks with canonical access lists inside the version namespace, and then binds every access to its last writer |
| `CalvinPlan.AcceptsOnlyRebuilt` | executor/v5/calvin_plugins.go:288-309 | with a collision-free digest a plan is accepted exactly if it is the rebuilt one under its own digest |
| `CalvinPlan.AcceptedBindsLastWriter` | executor/v5/calvin_plugins.go:288-309 | every dependency of an accepted plan names the version of the greatest earlier writer, or zero |
| `CalvinStateless.PredecessorAgrees` | executor/v5/calvin_stateless_remote.go:167-202 | an exact-version or block-start read returns the value that the access lists, the plan and the programs determine, in every interleaving |
| `CalvinStateless.SendsAgrees` | executor/v5/runtime.go:6305-6315 | so does what is published for a declared write, whether written, borrowed from a qualified form or repeated |
| `CalvinStateless.VersionChain` | executor/v5/calvin_stateless_remote.go:296-422 | in every reachable state of every interleaving every published version, fetched value, outcome and row sent is the determined one: the result depends on no order |
| `CalvinStateless.VersionsStay` | executor/v5/runtime.go:5585-5604 | a version once published keeps its value for the rest of the run |
| `CalvinStateless.ManagerGrants` | executor/v5/calvin_executor.go:480-486 | in the dispatch loop over the lock table without a shard the published transactions are exactly those that declare a key and that the stateless machine lets proceed |
| `CalvinStateless.LocksRespected` | executor/v5/calvin_executor.go:531-624 | in every reachable state whoever fetched for a transaction, executed or completed it held its locks: every earlier conflicting one is completed at that replica |
| `StatelessRows.ValRight` | executor/v5/calvin_stateless_remote.go:296-422 | with aligned rows, a version that is up to date carries the value of the row in the serial run without failed writes |
| `StatelessRows.PubRight` | executor/v5/calvin_stateless_remote.go:296-422 | the version a transaction produces for a row, no-op rows included, is the serial value after it |
| `StatelessRows.GotRight` | executor/v5/calvin_stateless_remote.go:296-422 | every outcome is the serial one, or both leave the declaration |
| `StatelessRows.FailureIsSerial` | executor/v5/calvin_executor.go:944-966 | with aligned rows, a run reports an access violation only if the serial run without failed writes has one |
| `CalvinStateless.NotStuck` | executor/v5/runtime.go:5568-5604 | while something is open and nothing failed a step is possible: waiting for an exact version never blocks for good |
| `StatelessRows.VerdictIsSerial` | executor/v5/calvin_stateless_remote.go:296-422 | a run that can go no further has failed exactly if the serial run without failed writes has an access violation, and otherwise every replica has completed everything |
| `CalvinStateless.RunBounded` | executor/v5/calvin_stateless_remote.go:296-422 | every run has at most one step per declared read, transaction, declared write, and replica's completion |
| `CalvinStateless.StoppedForGood` | executor/v5/calvin_executor.go:563-568 | from an access violation on its shard fetches, executes, publishes and completes nothing |
| `CalvinStateless.OthersGoOn` | executor/v5/calvin_executor.go:563-568 | a violation stops no other shard |
| `StatelessRows.SortRows` | executor/v5/calvin_executor.go:428-438 | the rows in the order of versions and then of keys, none lost and none added |
| `StatelessRows.ApplyOwnedWrites` | executor/v5/calvin_executor.go:428-445 | whatever the order of the rows, each row name ends with its effective row of greatest version, the last in key order, and all other row names stay as they were |
| `StatelessRows.SentStoresSame` | executor/v5/runtime.go:6305-6315 | the rows sent for a transaction, borrowed ones included, store at every place what its writes would |
| `StatelessRows.MaterializesSerial` | executor/v5/calvin_executor.go:671-694 | each home, from its own rows in any arrival order, materializes exactly the rows that were effectively written there, each with its final serial value |
| `StatelessRows.DurableExactly` | executor/v5/registry.go:5801-5814 | after any finished run the durable value of a row is the serial one exactly if the block does not end by emptying a row that held something |
| `StatelessAliases.EmptyingIsLost` | executor/v5/registry.go:5801-5814 | for any aligned access lists with a declared write there is a program and a complete run after which the durable row still has the old value although the block emptied it |
| `StatelessRows.StatelessSerial` | executor/v5/calvin_stateless_remote.go:228-251 | end to end, with aligned rows: after any finished run and for any arrival order, every outcome and every row of every home is the serial one without failed writes |
| `StatelessAliases.SerialExactly` | executor/v5/calvin_stateless_remote.go:296-422 | access lists, homes and executing shards make every finished run of every block with them end serially, for all programs, starting rows, interleavings and arrival orders, exactly if the rows are aligned |
| `StatelessAliases.MisalignedBreaks` | executor/v5/calvin_stateless_remote.go:296-422 | whenever the rows are not aligned there are programs, starting rows and a complete run whose outcome or row is not the serial one |
| `StatelessAliases.WrongReadBreaks` | executor/v5/calvin_stateless_remote.go:319-350 | when what shows a read, a stale version or another row, is empty where the row is not, or the reverse, there is a complete run that does not end serially |
| `StatelessAliases.BorrowBreaks` | executor/v5/runtime.go:6305-6315 | if one transaction declares writes to a plain key and to a qualified form of it that is another row, there are programs and a complete run that does not end serially |
| `StatelessRows.DropsAgreeExactly` | executor/v5/calvin_stateless_remote.go:319-405 | dropping the writes of failed transactions agrees with the serial executor on every row all along the block exactly if no failing transaction's writes change anything |
| `StatelessRows.DropsAgreeForAll` | executor/v5/calvin_stateless_remote.go:319-405 | dropping them leaves the final rows of the serial executor, for every block made of given transactions in whatever number and order and for all starting rows, exactly if none of them can fail after a write that changes a row; then all receipts agree too |
| `StatelessRows.FailedWriteIsLost` | executor/realism/execution/serial.go:225-271 | a block on which the serial executor and stateless Calvin leave different rows |
| `CalvinExchange.ExactKeySet` | executor/v5/calvin_exchange.go:125-140 | accepts exactly the lists without repetition whose keys are the keys with values |
| `CalvinExchange.MergeAll` | executor/v5/calvin_exchange.go:445-451 | the merged map has the local values and those of every required shard, for any order of shards |
| `CalvinExchange.Scan` | executor/v5/calvin_exchange.go:426-444 | finds whether what the required shards sent is what was declared, and then whether all of them did |
| `CalvinExchange.ReadBoard.Accept` | executor/v5/calvin_exchange.go:267-294 | keeps the first result of each shard, accepts well-sent results exactly if their values are those kept, and closes the waiter's channel on every new result |
| `CalvinExchange.ContentIsValues` | executor/v5/calvin_exchange.go:267-294 | two well-sent results of one shard for one transaction have the same content exactly if they have the same values, in whatever order the keys are listed |
| `CalvinExchange.ReadBoard.Poll` | executor/v5/calvin_exchange.go:426-481 | fails exactly if a required shard's result is not the declared one, completes exactly when all declared results are there, with the local and the declared remote keys and no others, and otherwise sleeps on a channel that is not closed |
| `CalvinExchange.ArrivalsWake` | executor/v5/calvin_exchange.go:373-481 | once every required result has arrived, in any order and multiplicity, the waiter's channel is closed: no lost wakeup |
| `CalvinExchange.OrderIrrelevant` | executor/v5/calvin_exchange.go:267-294 | histories in which the same shards speak without contradiction leave the same results and values, whatever their order and duplicates |
| `CalvinOutcomes.OutcomeBoard.Accept` | executor/v5/calvin_exchange.go:296-320 | keeps the first outcome of a transaction, accepts exactly what comes from the leader of its shard and agrees with that one in shard and verdict, and closes the waiter's channel on a new one |
| `CalvinOutcomes.OutcomeBoard.Take` | executor/v5/calvin_exchange.go:516-545 | takes the first outcome heard exactly if there is one from the expected shard, reports one from another shard, and otherwise sleeps on a channel that is not closed |
| `CalvinOutcomes.OutcomeWakes` | executor/v5/calvin_exchange.go:296-320 | once an outcome was heard, in any order and multiplicity, the waiter's channel is closed: no lost wakeup |
| `CalvinOutcomes.AdoptsSerial` | executor/v5/calvin_exchange.go:483-546 | after a finished run, if the leader of the outcome shard says what its shard has, whoever takes the first outcome heard adopts the serial receipt |
| `NezhaOrder.Dependencies` | executor/v5/acg_plugins.go:419-445 | queue i leads to queue j exactly if some transaction writes address i and reads the different address j, each edge once |
| `NezhaOrder.AddReads` | executor/v5/acg_plugins.go:431-445 | adds the queues of one writer's reads of other addresses, each once |
| `NezhaOrder.Successors` | executor/v5/acg_plugins.go:431-445 | one queue's successors, each listed once |
| `NezhaOrder.InDegrees` | executor/v5/acg_plugins.go:446-456 | the initial indegree of a queue is the number of queues leading to it |
| `NezhaOrder.Unblocked` | executor/v5/acg_plugins.go:460-465 | exactly the unsorted queues without unsorted predecessors, in increasing order |
| `NezhaOrder.Breaker` | executor/v5/acg_plugins.go:466-482 | on a cycle: fewest predecessors left, then most successors, then lowest index |
| `NezhaOrder.NextRound` | executor/v5/acg_plugins.go:460-483 | a round is never empty, so the loop ends |
| `NezhaOrder.Emit` | executor/v5/acg_plugins.go:484-495 | a round's queues join the order, and marks and indegrees stay those of the unsorted rest |
| `NezhaOrder.QueueOrder` | executor/v5/acg_plugins.go:446-502 | always ends with an order whose every entry has the fewest predecessors left, built in rounds: all unblocked queues in increasing order, or on a cycle the one with fewest predecessors, then most successors, then lowest index |
| `NezhaOrder.Retire` | executor/v5/acg_plugins.go:488-494 | taking a queue out keeps every indegree equal to the number of unsorted predecessors |
| `NezhaOrder.GreedyComplete` | executor/v5/acg_plugins.go:457-502 | such an order of full length lists every queue |
| `NezhaOrder.TopologicalIffAcyclic` | executor/v5/acg_plugins.go:419-502 | the order respects every dependency exactly if the dependencies have no cycle |
| `NezhaSort.Sorter.Assign` | executor/v5/acg_plugins.go:504-508 | sets the number of one transaction on all its nodes and of no other transaction |
| `NezhaPlan.AddNode` | executor/v5/acg_plugins.go:349-364 | a new node joins the queue of its address, at the end of its reads or writes, and every queue still lists exactly the nodes of its address |
| `NezhaPlan.AddTransaction` | executor/v5/acg_plugins.go:337-371 | a transaction gets one node per declared read and write, address by address and reads first, filed with the transaction and with the address |
| `NezhaPlan.BuildNodes` | executor/v5/acg_plugins.go:337-371 | the nodes are exactly the declared accesses, each once, by transaction, then address, then reads before writes, and the tables by transaction and by address list exactly these |
| `NezhaPlan.IndexQueues` | executor/v5/acg_plugins.go:419-430 | the queues in the order of their addresses, and the position of every address |
| `NezhaPlan.BuildNumbers` | executor/v5/acg_plugins.go:330-380 | from the declared accesses alone: the nodes stand for exactly these, queues are in address order, the ranking is the greedy one of their dependencies, numbers come from sorting the queues one by one in that order and stay within ten plus the number of writes, and each queue ends sorted up to the transactions that write a later-ranked address |
| `NezhaSort.Sorter.constructor` | executor/v5/acg_plugins.go:366-371 | transactions without accesses start with the initial number, all others without one, no node of these is placed, nobody is aborted |
| `NezhaSort.Sorter.Extremes` | executor/v5/acg_plugins.go:511-516 | finds lowest and highest number of the live numbered readers and marks exactly these as placed |
| `NezhaSort.Sorter.NumberRest` | executor/v5/acg_plugins.go:517-546 | gives the same number to exactly the live readers without one |
| `NezhaSort.Sorter.NumberReads` | executor/v5/acg_plugins.go:510-546 | every live reader has a number up to the highest read; unnumbered ones all got the same number, the lowest of the numbered ones (at most 2 to the 30) or, without any, the initial one; nobody else changed |
| `NezhaSort.Sorter.PlacedRead` | executor/v5/acg_plugins.go:553-563 | tells whether the transaction has a placed read of this address or else of another |
| `NezhaSort.Sorter.Classify` | executor/v5/acg_plugins.go:547-575 | aborts exactly the writers at or below the highest read that do not read the address but have another placed read; lists the writers that read it, and by number the live others that have one, each in queue order |
| `NezhaSort.Sorter.PlaceHead` | executor/v5/acg_plugins.go:580-598 | of the writers that read the address the first gets the number after the highest read and all others are aborted |
| `NezhaSort.Sorter.NextFree` | executor/v5/acg_plugins.go:603-611 | the open-ended candidate search stops, at the first number above the ceiling that no kept writer has |
| `NezhaSort.Sorter.NumberFree` | executor/v5/acg_plugins.go:599-611 | every live unnumbered writer gets, in queue order, the least number above all given so far that no kept writer has; nobody else changes |
| `NezhaSort.Sorter.Renumber` | executor/v5/acg_plugins.go:615-628 | number by number the first kept writer stays if its number is above the floor, all others move to the next number after the ceiling, in queue order; numbers stay distinct |
| `NezhaSort.Sorter.SortReads` | executor/v5/acg_plugins.go:510-571 | after the first half exactly the live readers without a number have got the read number, their nodes are placed, and exactly the late writers are aborted |
| `NezhaSort.Sorter.SortWrites` | executor/v5/acg_plugins.go:572-630 | after the second half every live writer has its own number above the reads, the one that head, free writers and kept writers get in turn |
| `NezhaSort.Sorter.SortInQueue` | executor/v5/acg_plugins.go:510-630 | afterwards live writers of the address have pairwise distinct positive numbers above every other live reader, each transaction still has one number, exactly the losing writers are aborted, the first writer that also reads has the number after the highest read, no number falls, a number once given changes only for writers of the address, and all numbers and placed nodes are those that `NezhaNumbers.QueueNumbers` describes |
| `NezhaSort.Sorter.SortAll` | executor/v5/acg_plugins.go:376-380 | every queue none of whose transactions writes an address sorted later ends sorted; in every queue a live writer ends above every other live reader that writes no later address, and live writers that write no later address end apart; numbers are at most ten plus the number of writes, so a 32-bit number cannot overflow while that sum fits; aborts are never undone |
| `NezhaSort.EndsSettled` | executor/v5/acg_plugins.go:376-380 | the same at every point of the run, for the addresses sorted until then |
| `NezhaSort.KeepsNumber` | executor/v5/acg_plugins.go:504-630 | a number never falls and stays until the transaction writes an address being sorted |
| `NezhaNumbers.QueueNumbers` | executor/v5/acg_plugins.go:572-630 | the exact numbers after one queue: the head has the number after the highest read, the j-th live writer without a number the j-th free number above it, the writers that cannot keep theirs consecutive numbers above all, by old number and queue order; everybody else keeps the number the reads left, and exactly these nodes are placed |
| `NezhaNumbers.FreeNumbersRise` | executor/v5/acg_plugins.go:599-611 | the free numbers rise, avoid the kept numbers and leave out nothing else |
| `NezhaNumbers.FirstKeeps` | executor/v5/acg_plugins.go:615-628 | the first live kept writer of a number above the floor keeps it |
| `NezhaNumbers.StepDecides` | executor/v5/acg_plugins.go:510-630 | sorting a queue is a function: equal numbers, placed nodes and abort flags before give equal ones after |
| `NezhaNumbers.RunDecides` | executor/v5/acg_plugins.go:376-380 | so is sorting all queues in one order |
| `NezhaUnique.SameRound` | executor/v5/acg_plugins.go:460-483 | what a round of the ranking takes is determined by the dependencies and the queues left |
| `NezhaUnique.NumbersDecide` | executor/v5/acg_plugins.go:330-380 | nodes, queues, ranking, numbers and aborts are determined by the declared accesses and the order of addresses |
| `NezhaSafety.AllNumbered` | executor/v5/acg_plugins.go:389-393 | every live transaction ends with a positive number, so the fallback to the initial number is never taken |
| `NezhaSafety.ReadersSteady` | executor/v5/acg_plugins.go:419-502 | if the ranking respects the dependencies nobody writes an address ranked after one it reads |
| `NezhaSafety.AcyclicWritersAbove` | executor/v5/acg_plugins.go:330-380 | without a cycle among the dependencies every live writer of an address ends above every other live reader of it, however many addresses a transaction writes |
| `NezhaSafety.FirstApart` | executor/v5/acg_plugins.go:330-380 | if every transaction writes only its first-ranked address, all queues end sorted and no two live transactions of one number conflict |
| `NezhaSafety.OneWriteFirst` | executor/v5/acg_plugins.go:419-502 | acyclic dependencies and at most one write per transaction give this condition |
| `NezhaSafety.TwistUnsorted` | executor/v5/acg_plugins.go:510-630 | two transactions, the first writing one address and the second reading and writing it and another, both end with number 12, not aborted: the first queue is not sorted |
| `AcgWaves.ReadNumbers` | executor/v5/acg_plugins.go:382-394 | the number of a live transaction is read off its first node, the initial one without accesses |
| `AcgWaves.GroupWaves` | executor/v5/acg_plugins.go:382-409 | one wave per number in use, by increasing number, each listing exactly the live transactions of its number in block order |
| `AcgWaves.BuildPlan` | executor/v5/acg_plugins.go:330-417 | fails exactly on empty or repeated ids; otherwise the waves are those of the numbers and the abort list has exactly the aborted transactions in block order |
| `AcgWaves.PlanShares` | executor/v5/acg_plugins.go:382-411 | waves and aborted transactions share out the block, nobody twice |
| `AcgWaves.PlanDecides` | executor/v5/acg_plugins.go:330-417 | recomputing the plan of a block gives the same waves and the same abort list |
| `AcgWaves.NumbersDecide` | executor/v5/acg_executor.go:74-116 | the waves keep written and read rows apart exactly if no live transaction writes a row that a later live one of the same number reads |
| `AcgWaves.SerialExactly` | executor/v5/acg_executor.go:74-116 | access lists make every block with them, whose programs keep to them, execute as serial replay of the plan's order, from all starting rows, exactly if that condition holds |
| `AcgWaves.AcyclicIsSerial` | executor/v5/acg_executor.go:74-116 | without a cycle among the dependencies, and with different names for different rows, state and receipts of the waves are those of serial replay of the plan's order |
| `AcgWaves.OneWriteIsPeaceful` | executor/v5/acg_plugins.go:382-411 | if besides every transaction writes at most one address, no two transactions of a wave conflict: no key that one declares written is declared by another |
| `AcgWaves.TwistBreaks` | executor/v5/acg_executor.go:74-116 | on the block of two transactions the plan is one wave with both, and some programs that keep to the access lists do not execute as serial replay |
| `BsxColouring.ConflictGraph` | executor/v5/bsx_plugins.go:98-114 | two different transactions are neighbours, mutually, exactly if one declares a key that the other declares written; the count is that of the edges |
| `BsxColouring.ConflictsDisturb` | executor/v5/literature_graph_common.go:255-259 | declared sets conflict exactly if a key declared by both is declared written by one |
| `BsxColouring.Choose` | executor/v5/bsx_plugins.go:123-139 | an uncoloured vertex of highest saturation, then highest degree, then lowest position |
| `BsxColouring.FreeColor` | executor/v5/bsx_plugins.go:146-149 | the open-ended search stops at the least colour not in use |
| `BsxColouring.Colour` | executor/v5/bsx_plugins.go:117-152 | DSATUR's choice and least free colour at every step; neighbours differ, a colour is at most the degree, and every smaller colour occurs next to a vertex |
| `BsxColouring.StepKeeps` | executor/v5/bsx_plugins.go:140-151 | giving the least free colour keeps a partial colouring proper and tight |
| `BsxColouring.CutWaves` | executor/v5/bsx_plugins.go:153-171 | one non-empty wave per colour, listing exactly its vertices in block order |
| `BsxColouring.CheckIds` | executor/v5/literature_graph_common.go:172-184 | accepts exactly the blocks without empty or repeated ids |
| `BsxColouring.BuildPlan` | executor/v5/bsx_plugins.go:91-178 | fails exactly on empty or repeated ids; otherwise the waves partition the block, none is empty, within a wave no key declared written by one is declared at all by another, and every transaction conflicts with a member of every earlier wave |
| `BsxWaves.ExecuteWave` | executor/v5/bsx_executor.go:183-224 | for every completion order of the tasks each slot holds the outcome on the wave's snapshot |
| `BsxWaves.ApplyWave` | executor/v5/bsx_executor.go:88-115 | results are applied in wave order, each receipt with the root after it |
| `BsxWaves.ExecutePlan` | executor/v5/bsx_executor.go:74-119 | the state and every receipt with its state root are those of wave-by-wave execution, independent of task order |
| `BsxWaves.WavesSerializable` | executor/v5/bsx_executor.go:74-124 | if members keep to their declared accesses and within each wave no earlier member writes a row that a later one reads, state, receipts and per-transaction roots equal serial replay of the concatenated waves |
| `BsxWaves.PlanOrders` | executor/v5/bsx_plugins.go:155-171 | the concatenated waves list every transaction of the block exactly once |
| `BsxWaves.PlanArranged` | executor/v5/bsx_plugins.go:155-171 | the waves of a plan name only transactions of the block, nobody twice |
| `BsxWaves.PlannedIsSerial` | executor/v5/bsx_executor.go:74-124 | under the same two conditions a planned block executes as serial replay of its plan, receipt by receipt |
| `BsxWaves.AnyOrder` | executor/v5/bsx_executor.go:88-115 | if no row is written by two members, the rows after the wave are the same for every order of applying its results |
| `BsxWaves.PlannedAnyOrder` | executor/v5/bsx_executor.go:88-115 | so they are for every wave of a plan whose members keep to their access lists, if different names are different rows |
| `BsxWaves.ReceiptsSerial` | executor/v5/bsx_executor.go:74-124 | waves of any origin that satisfy these two conditions execute as serial replay of their concatenation, receipt by receipt |
| `BsxWaves.SerialExactly` | executor/v5/bsx_executor.go:74-124 | for waves of any origin in which nobody stands twice, access lists make every block with them, whose programs keep to them, execute as serial replay from all starting rows exactly if they satisfy the second condition |
| `BsxWaves.UndeclaredReadBreaks` | executor/v5/literature_graph_common.go:255-259 | in any planned block with a wave of two of which the earlier one declares a write, an undeclared read of the later one makes receipts differ from the serial ones |
| `BsxWaves.SharedRowBreaks` | executor/v5/literature_graph_common.go:361-366 | for any waves in which a row is written and then read within a wave, by another name if they are a plan's, there are programs that keep to their declared accesses and still differ from replay; a plan stays a plan |
| `Blocklane.Wire` | executor/v5/metatrack_blocklane_v1.go:38-58 | for every iteration order of the dependency map indegrees and children are those of the in-batch dependencies, each once; fails exactly on a self-dependency |
| `Blocklane.Positions` | executor/v5/metatrack_blocklane_v1.go:25-37 | fails exactly on an empty or repeated id, naming the first, and otherwise finds every id |
| `Blocklane.WireChild` | executor/v5/metatrack_blocklane_v1.go:45-57 | enters each in-batch parent once, and reports a self-dependency exactly if there is one |
| `Blocklane.StartHeap` | executor/v5/metatrack_blocklane_v1.go:59-65 | the heap starts with exactly the transactions without dependencies |
| `Blocklane.Release` | executor/v5/metatrack_blocklane_v1.go:66-76 | taking one out keeps indegrees exact and makes eligible exactly those without dependencies left |
| `Blocklane.Drain` | executor/v5/metatrack_blocklane_v1.go:59-76 | emits exactly the greedy schedule of the dependencies |
| `Blocklane.EmitsEarliest` | executor/v5/metatrack_blocklane_v1.go:66-76 | at every place the schedule has the smallest FIFO position whose dependencies are all emitted |
| `Blocklane.ScheduleRespects` | executor/v5/metatrack_blocklane_v1.go:66-76 | every dependency is emitted before what depends on it |
| `Blocklane.CompleteIffAcyclic` | executor/v5/metatrack_blocklane_v1.go:77-80 | everything is emitted exactly if the in-batch dependency graph has no cycle |
| `Blocklane.BlockingOrder` | executor/v5/metatrack_blocklane_v1.go:24-81 | errors exactly for unusable ids, self-dependencies and cycles, the first unusable id deciding between empty and repeated; otherwise the result is one permutation determined by ids and dependencies alone |
| `CoAccess.Compress` | executor/routing/routing.go:139-144 | path compression changes no root |
| `CoAccess.Unique` | executor/routing/routing.go:44-55 | the non-empty keys, each once, in increasing order |
| `CoAccess.Tally` | executor/routing/routing.go:119-131 | all used keys, and for every pair the number of transactions that use both |
| `CoAccess.Forest.Find` | executor/routing/routing.go:138-144 | returns the root, keeps every group and every true size; ends because links lead to smaller keys |
| `CoAccess.Forest.MergeOne` | executor/routing/routing.go:158-166 | joins two groups exactly if they are apart and fit together, and leaves the others as they are |
| `CoAccess.Forest.Collect` | executor/routing/routing.go:168-171 | lists every group completely while compression goes on |
| `CoAccess.Forest.Merge` | executor/routing/routing.go:157-167 | joins a pair exactly if its groups are apart and fit, in order; groups stay within the limit and hold together by listed pairs; apart pairs have sizes summing above the limit |
| `CoAccess.CountPairs` | executor/routing/routing.go:122-129 | counts every pair of keys of one transaction once |
| `CoAccess.HeavyPairs` | executor/routing/routing.go:145-156 | exactly the pairs heavy enough, heavier first and then by name |
| `CoAccess.GroupKeys` | executor/routing/routing.go:118-171 | every used key is grouped, no group exceeds the limit, pairs used together often enough are together or too large to be, groups are connected by such pairs, joined heaviest first |
| `CoAccess.RootFirst` | executor/routing/routing.go:172-182 | the root is the first member of its group, and sizes are true |
| `CoAccess.LeastLoaded` | executor/routing/routing.go:186-191 | the first shard of least load, whatever the positive weight |
| `CoAccess.PlaceGroup` | executor/routing/routing.go:185-196 | a whole group goes to the lightest shard, earlier placements stay, loads count keys |
| `CoAccess.Place` | executor/routing/routing.go:183-196 | all groups placed, larger ones first, each on the lightest shard of its time; loads stay even |
| `CoAccess.LargestFirst` | executor/routing/routing.go:177-182 | groups are placed by falling size, equal ones by their first key |
| `CoAccess.PlacementDecides` | executor/routing/routing.go:172-196 | the groups and the number of shards decide the order of placement, the loads and the shard of every group |
| `CoAccess.StillEven` | executor/routing/routing.go:186-196 | placing a group on the least loaded shard keeps every two loads within one group of each other |
| `CoAccess.BuildRouting` | executor/routing/routing.go:118-196 | groups as above, each placed as a whole on the lightest shard of its time, larger ones first; loads count keys and differ by at most the largest group |
| `CoAccess.SplitPair` | executor/routing/routing.go:203-210 | cuts at the first separator; without one both parts are empty |
| `CoAccess.UnpackIff` | executor/routing/routing.go:203-210 | a packed pair of names is taken apart correctly exactly if the first has no separator |
| `BlockProduction.TxPool.constructor` | executor/v3runtime/runtime.go:1849-1864 | an empty pool, of the default size if none is given |
| `BlockProduction.BlockProducer.constructor` | executor/v3runtime/runtime.go:1953-1966 | starts at height one behind the chain's genesis hash, with interval and size at least one |
| `BlockProduction.TxPool.Admit` | executor/v3runtime/runtime.go:1866-1915 | admits exactly if the id is new (with deduplication) and there is room; the queue is the tail of what was admitted and the counters count |
| `BlockProduction.TxPool.SelectForBlock` | executor/v3runtime/runtime.go:1917-1947 | takes the oldest entries, as many as fit, in order with their waiting times |
| `BlockProduction.KeptOnce` | executor/v3runtime/runtime.go:1866-1883 | with deduplication no id is admitted twice |
| `BlockProduction.KeptEvery` | executor/v3runtime/runtime.go:1866-1915 | with room no id is missed |
| `BlockProduction.BlockProducer.ShouldCut` | executor/v3runtime/runtime.go:1968-1982 | once the interval has passed a block is due exactly unless the pool is empty and empty blocks are off; before, exactly if the pool fills a block or the workload is over and something is left; the reason is the count exactly if the pool fills a block and drain exactly if it does not, something is left and the workload is over |
| `BlockProduction.BlockProducer.ProduceBlock` | executor/v3runtime/runtime.go:1984-2035 | the block takes the front of the queue, has the next height, the last hash as parent and a hash over its content |
| `BlockProduction.Fill` | executor/v3runtime/runtime.go:2049-2067 | asks for transactions in order until the block is full, the workload ends or a gap follows, never past a gap |
| `BlockProduction.Round` | executor/v3runtime/runtime.go:2045-2087 | every round uses up transactions or empties the pool, and gives no block only at the very end, with nothing left and empty blocks off |
| `BlockProduction.ProduceBlocks` | executor/v3runtime/runtime.go:2042-2089 | ends unconditionally; the blocks concatenated are exactly the admitted transactions in order; sizes, heights, parent hashes and cut times form a chain; at most one empty block, at the end; from an empty pool, cuts follow the cut rule, which fixes stretch, time and reason, and every cut empties the pool |
| `StateProofs.LeafTextInjective` | executor/v3runtime/state_authenticity.go:255-265 | a leaf text determines key, value and version even if the key contains separators |
| `StateProofs.BuildSnapshot` | executor/v3runtime/state_authenticity.go:255-274 | leaves and root are a function of the state, independent of the order of its keys |
| `StateProofs.GenerateNames` | executor/v3runtime/state_authenticity.go:276-291 | generated or not, a proof names the key and the root asked for, and a generated one the cell |
| `StateProofs.AcceptsOnlyLeaves` | executor/v3runtime/state_authenticity.go:293-321 | with an injective hash the check accepts, for any proof against a root, only a key, value and version the state holds |
| `StateProofs.AcceptsOnlyGenerated` | executor/v3runtime/state_authenticity.go:293-321 | an accepted proof against a root is the one generated for its cell, with the digest of its key, leaf and root |
| `StateProofs.ProofVerifiesIff` | executor/v3runtime/state_authenticity.go:276-321 | a generated proof verifies exactly if the snapshot holds that very cell |
| `StateProofs.LatestRoots` | executor/v3runtime/state_authenticity.go:323-332 | picks for each shard the last commit of greatest height |
| `StateProofs.LatestIsTop` | executor/v3runtime/state_authenticity.go:323-332 | no commit of the shard is higher, and none after it is as high |
| `StateProofs.ProvableIff` | executor/v3runtime/state_authenticity.go:188-210 | a committed key is provable exactly if it was not committed again after the commit that made its shard's latest root |
| `StateProofs.Preview.Record` | executor/v3runtime/state_authenticity.go:161-186 | keeps per shard the folded state, described by `StateIs`, and per height and shard the snapshot of its last commit |
| `StateProofs.StateIs` | executor/v3runtime/state_authenticity.go:161-186 | after any commits a shard's state holds exactly the keys committed to it, each with the value of its last commit and as version the number of commits that touched it |
| `StateProofs.Preview.ProveKey` | executor/v3runtime/state_authenticity.go:195-213 | the proof made for a key verifies exactly if the key is provable |
| `StateProofs.Preview.Witness` | executor/v3runtime/state_authenticity.go:188-247 | a witness verifies exactly if it has a key and all its keys are provable; the failures counted are the keys that are not |
| `StateProofs.RisingProvable` | executor/v3runtime/state_authenticity.go:161-213 | when heights never fall every committed key is provable, so no witness fails |
| `ProducedProofs.ChainRises` | executor/v3runtime/runtime.go:702-798 | commits stamped with the heights of a produced chain, block after block, never fall in height |
| `ProducedProofs.ProducedProvable` | executor/v3runtime/state_authenticity.go:161-213 | after a produced chain a key is provable exactly if it was committed |
| `ProducedProofs.ProveAfterRun` | executor/v3runtime/state_authenticity.go:161-247 | recording the commits of a produced chain and making a witness verifies exactly if the witness requires a key and every key it requires was committed |
| `StateProofs.FallingHeightFails` | executor/v3runtime/state_authenticity.go:323-332 | a key committed again at a lower height is not provable |
| `CandidateWire.SplitCandidates` | executor/v5/acg_plugins.go:162-188 | succeeds exactly on matching ids with a usable abort list inside them, and then splits in order |
| `CandidateWire.IndexById` | executor/v5/acg_plugins.go:244-263 | fails exactly on empty, repeated or already taken ids, and otherwise finds every item |
| `CandidateWire.Rebuild` | executor/v5/acg_plugins.go:265-279 | succeeds exactly if every candidate is accepted or deferred, and restores the order |
| `CandidateWire.CheckProjection` | executor/v5/literature_runtime_helpers.go:127-163 | accepts exactly the plans whose waves and aborts cover the candidates without overlap and whose serialization order is that of the waves |
| `CandidateWire.VerifyAcg` | executor/v5/acg_plugins.go:223-294 | a verified wire has disjoint accepted and deferred sets that are together exactly the candidates, and the rebuilt list is the candidate list |
| `CandidateWire.SplitThenVerify` | executor/v5/acg_plugins.go:162-306 | splitting and verifying gives the candidates back exactly if ids are usable, the plan covers them and the abort list is in candidate order |
| `CandidateWire.ValidateAria` | executor/v5/aria_plugins.go:367-444 | accepts exactly if counts, id lists, logical ids, payload, partition, digests and block body all agree; `ValidIsSound` says what that gives |
| `CandidateWire.CheckPartition` | executor/v5/aria_plugins.go:413-436 | passes exactly if selected and deferred ids are distinct, disjoint, reasoned and cover the candidates |
| `CandidateWire.PickSelected` | executor/v5/aria_plugins.go:393-403 | passes exactly if the block body is the selected candidates in order |
| `CandidateWire.ValidIsSound` | executor/v5/aria_plugins.go:367-444 | validated evidence partitions the candidates into selected and deferred, and the block body is the selected candidates |
| `CandidateWire.DecodeAria` | executor/v5/aria_plugins.go:287-365 | decodes exactly the wires on which every check passes and whose deferred payloads are listed candidates apart from the block body, always to the candidate list; every honest wire is one, and whatever decodes is sound |
| `DualTrack.Enqueue` | executor/execution_sharding/dual_track.go:45-59 | each queue holds exactly its shard's decisions of its track, in order |
| `DualTrack.Serve` | executor/execution_sharding/dual_track.go:64-76 | what a shard ran and what it still holds stay together exactly its fast and then its conservative items in order; it runs one item, counted on its track, and idles exactly if it holds none |
| `DualTrack.Round` | executor/execution_sharding/dual_track.go:62-80 | a round accounts for every shard, and runs nothing exactly if all queues are empty |
| `DualTrack.DueIsAll` | executor/execution_sharding/dual_track.go:60-82 | if every shard executed what it was due the output is a permutation of the input |
| `DualTrack.Schedule` | executor/execution_sharding/dual_track.go:45-82 | a permutation in which each shard runs its fast items and then its conservative ones, both in order, shards take turns fairly, and executed and idle slots add up to shards times one more than the longest queue |
| `Digraphs.StuckIsCyclic` | executor/v5/metatrack_blocklane_v1.go:77-80 | a non-empty set in which everybody has a predecessor contains a cycle |
| `Digraphs.UpwardIsAcyclic` | executor/v5/metatrack_blocklane_v1.go:66-80 | edges that all lead upwards form no cycle |

## Left out

- Business logic of a single transaction: the serial executor is any deterministic adaptive program over an overlay; transfers, nonces and commutative deltas are not spelled out.
- Message digests, signatures, JSON, storage, timeouts, wall-clock times and all metrics.
- Trimming of blanks around keys, keys with more than one shard prefix, and the extra keys that legacy and cross-shard transactions declare.
- The string order of keys: within one transaction it is an arbitrary order without ties, the same everywhere.
- Envelope, digest and height checks of plans and wires, and the recomputation of graph plans.
- BSX plans that name unknown transactions; waves are lists of block positions.
- The Go library's sorting, heap and binary search: a sort is a listing with the stated order, a heap a set with a least element, a search a membership test.
- Rounding of `balanceWeight`; loads are compared over the reals.
- Aria's selection algorithm; only its wire is modelled.
- Pool events and the peak pool size; the commit engine's latencies, hot-spot and aggregation bookkeeping.
- Hash routing, per-transaction shard assignment and routing metrics.
- Classification into tracks: four guards over one transaction.
- Aria's older wire format, Batch-SI, PBFT, relays and the network.
- NezhaSafety.FirstApart: the condition is sufficient; a queue can also end sorted because no later renumbering happens to disturb it. The exact condition is on execution, `AcgWaves.SerialExactly`.
- NezhaPlan.BuildNumbers: the number of addresses fits a Go integer, like any map's size.
- CalvinOutcomes.AdoptsSerial: that the leader says what its shard has is a condition; a node that publishes does not wait and is not modelled, nor are execution costs and state keys in receipts.
- ProducedProofs.ProveAfterRun: the updates of a block are given; the commit engine computes them from deltas.
- StateProofs.AcceptsOnlyLeaves: assumes a hash without collisions and hexadecimal digests, which no fixed-length hash has on all inputs.
- CandidateWire.VerifyAcg: without the envelope checks and the optional recomputation of the plan.
- CandidateWire.CheckProjection: without the envelope, height and metric checks.
- CoAccess.BuildRouting: takes the positive parameters that the constructor's defaults guarantee, and ends where the transactions are assigned.
- DualTrack.Schedule: shard numbers are natural; on a negative one the source indexes out of range.
- CalvinExchange.ReadBoard.Poll: covers one waiter per transaction and node; after completion the board forgets the results, so first-wins holds between completions.
