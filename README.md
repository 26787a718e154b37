# transaction-ledger, modelled in Dafny

The project models a Go transaction ledger. An HTTP API accepts transactions and produces them to
Kafka. Workers consume the records, copy them into PostgreSQL and fold pending transaction rows
into account balances ("write-behind"). A seeder fills sharded account tables. A load
generator and a k6 script drive the API.

The repository holds several generations of this design that do not build together. Each Go
file is modelled on its own terms, in its own module. Shared values live in shared modules:

- `Results`: Go's `(value, error)` pairs and `error` values.
- `Bytes`: bytes and `encoding/binary` big-endian integers.
- `Text`: `strings.Split`/`Trim` and `fmt`'s `%d`.
- `Uuid`: `github.com/google/uuid`'s `String` and `Parse`, and the RFC 9562 fields.
- `Model`: the records of `internal/model`.
- `Kafka`: the fields of `kgo.Record` the code touches.
- `Ledger` and `Tables`: the accounts table and the write-behind buffers (buckets or partitions).

The modules fall into six groups:

1. **Write-behind ledger** (`Ledger`, `DbAccounts`, `DbTransactions`, `WriteBehind`,
   `FlushWorkers`, `PartitionManagers`). An account's live balance is its stored balance plus
   the sum of its pending rows. Every flush, as each generation performs it, preserves that
   live balance. The bucket toggles and the partition cursor keep to their ranges and cycle.
2. **Routing** (`ShardedStores`, `Writers`, `Seeder`, `Coordinators`). A UUID's shard is the
   big-endian value of bytes 8..15, mod the shard count. The three copies of that formula
   agree. The writer's per-shard groups partition each fetch and keep its order. The
   coordinator routes every record to worker `partition mod n`, in fetch order.
3. **Slab buffers** (`ApiBatches`, `ApiPools`, `WorkerBatches`, `WorkerPools`, `Ingest`,
   `EfficientJson`, `ProtoHandler`). A `RecordBatch` is a bump allocator over an `array` of
   bytes. Each ingest handler decides admission, may use a temporary batch, and gives every
   record its own payload region.
4. **COPY sources and framing** (`CopySources`, `EfficientSources`, `CopyFormat`, `BinaryBatch`,
   `TransactionStores`). These are the iterator state machines that stamp ids in place, and
   the PostgreSQL binary COPY format ("Binary Format" in the PostgreSQL documentation for
   COPY).
5. **Batching state machine** (`BatchWorkers`). The `select` loop is modelled as a sequence
   of events.
6. **Small parsers and generators** (`WorkerMain`, `Generator`, `StressTest`, `Users`,
   `Model`).

How the Go constructs are modelled:

- **State that the Go code updates in place** is a `class` with `modifies` clauses: the
  record batches, the copy sources, the workers, the repositories and the cleanup closure.
- **Pure code** is functions and lemmas.
- **Channels** are outboxes (sequences that sends append to).
- **The database** is maps and sequences.
- **Clocks, randomness, uuid draws and failures** are parameters.

Where the code and its evident intent, or a test of the repository, disagree, the model
follows the code:

- **The type field of stress_test.js.** The JavaScript expression `amount > 0 ? 1 : 2`
  always gives 1, because `amount` is at least 100. `StressTest.TypeTwoUnreachable` proves
  this, although the field's two values 1 and 2 suggest both were meant to occur.
- **GET /users/1.** `internal/api/router_test.go` expects a non-error answer for
  `GET /users/1`. The handler in `internal/api/users.go` answers 400, because `"1"` is not a
  UUID (`Users.GetUserOneIsBadRequest`). The test targets an older handler.

## Model

| member | source | states |
|---|---|---|
| Ledger.PendingSum | internal/db/accounts.go:26-29 | defines COALESCE(SUM(t.amount), 0) over one buffer's rows of an account; its properties are PendingSumAppend and PendingSumOthers |
| Ledger.PendingTotal | internal/db/accounts.go:26-29 | defines the sum over every attached buffer partition joined by the LEFT JOIN; see PendingTotalEmptied and PendingTotalAppended |
| Ledger.LiveAccount | internal/db/accounts.go:19-42 | defines the account a reader sees: stored balance plus the pending total, or the no-rows error for an unknown id; see FlushPreservesLive and NoPendingRows |
| Ledger.ApplyBuffer | internal/db/transactions.go:76-86 | defines the aggregate UPDATE over one bucket; its effect is stated by ApplyBufferEffect, ApplyBufferAbsent and ApplyBufferOrphans |
| Ledger.PendingSumAppend | internal/db/accounts.go:26-29 | SUM(amount) over the rows of an account distributes over concatenating row lists |
| Ledger.PendingSumOthers | internal/db/accounts.go:26-30 | rows belonging to other accounts contribute 0 to an account's sum (COALESCE of no rows is 0) |
| Ledger.ApplyBufferEffect | internal/db/transactions.go:76-86 | the aggregate UPDATE adds exactly the account's own bucket sum to its balance and changes no other field |
| Ledger.ApplyBufferAbsent | internal/db/transactions.go:76-86 | an account with no row in the bucket keeps its balance |
| Ledger.ApplyBufferOrphans | internal/db/transactions.go:85 | bucket rows whose account_id matches no account change nothing |
| Ledger.PendingTotalEmptied | internal/db/transactions.go:93-97 | emptying one buffer removes exactly that buffer's sum from the pending total |
| Ledger.PendingTotalAppended | internal/db/transactions.go:117-131 | appending rows to one buffer adds exactly their sum to the pending total |
| Ledger.FlushPreservesLive | internal/db/accounts.go:26-29 | moving one buffer's sums into stored balances and emptying it leaves every account's live view (error or balance) unchanged |
| Ledger.OtherAccountsIgnored | internal/db/accounts.go:29-30 | pending rows of other accounts never change the view of an account |
| Ledger.NoPendingRows | internal/db/accounts.go:26-29 | with no pending rows the view is the stored account itself |
| Ledger.ZeroTotal | internal/db/accounts.go:26-29 | an account with no pending rows has pending total 0 |
| DbAccounts.IsBigint | internal/db/accounts.go:62-65 | the range of the int64 balance column, outside which the UPDATE fails |
| Tables.Database.constructor | internal/db/transactions.go:115 | a database with n empty buffer partitions tx_buf_0 .. tx_buf_(n-1) and no accounts |
| DbAccounts.AccountsRepo.constructor | internal/db/accounts.go:15-17 | the repository reads and writes the given database |
| DbAccounts.AccountsRepo.GetAccount | internal/db/accounts.go:19-42 | a failed query, a missing account or a live balance outside int64 is an error, not a zero account; otherwise balance = stored balance + the sum of its pending transaction rows, all other fields as stored |
| DbAccounts.AccountsRepo.CreateAccount | internal/db/accounts.go:44-60 | on success the new account has the drawn id, the given user id, balance = initialBalance and the clock's time, and exactly that account is added; a failed id draw, a failed Exec or a duplicate id is returned as an error and changes nothing |
| DbAccounts.AccountsRepo.UpdateAccountBalance | internal/db/accounts.go:62-65 | a failed Exec is returned, and so is a new balance outside the bigint range, both leaving every account unchanged; otherwise the named account's balance grows by amount; every other account and every buffer is unchanged; a missing account updates no row and is not an error |
| DbTransactions.IsBucket | internal/db/transactions.go:57-59 | the accepted bucket ids 0 and 1 |
| DbTransactions.AsTransaction | internal/db/transactions.go:25-26 | the five scanned columns of a row as a model.Transaction |
| DbTransactions.FindRow | internal/db/transactions.go:21-32 | the row found has the requested id and is in some bucket; none is found exactly when no bucket row has that id |
| DbTransactions.FindInRows | internal/db/transactions.go:21-32 | the row found in one bucket has the id and occurs in it; none exactly when no row has the id |
| DbTransactions.TransactionsRepo.constructor | internal/db/transactions.go:17-19 | the repository works on the given database |
| DbTransactions.TransactionsRepo.GetTransaction | internal/db/transactions.go:21-32 | a failed query or an id found in no bucket is an error; otherwise the result is a stored row with that id |
| DbTransactions.TransactionsRepo.CreateTransaction | internal/db/transactions.go:34-54 | a successful insert appends exactly one row with the drawn id, the given fields and the bucket; a failed draw, a failed Exec or a bucket other than 0 or 1 is returned as an error and changes nothing |
| DbTransactions.TransactionsRepo.FlushBucket | internal/db/transactions.go:56-108 | a bucket other than 0 or 1 is an error before any database work; success adds each account's bucket sum to its balance and leaves the bucket empty and attached under the same id; any failing step rolls back balances and buckets |
| DbTransactions.TransactionsRepo.BatchProcess | internal/db/transactions.go:110-141 | a bucket other than 0 or 1 is an error; a copy appends every transaction's fields unchanged, tagged with the bucket; a row count different from len(txs) is an error |
| DbTransactions.CopyRows | internal/db/transactions.go:117-131 | the copied rows are the transactions, one each, in order, with their own fields and bucket_id = bucketId |
| DbTransactions.FlushKeepsAccountView | internal/db/accounts.go:26 | a successful flush of either bucket leaves every GetAccount result unchanged |
| DbTransactions.BatchRaisesView | internal/db/transactions.go:110-141 | a copied batch raises each account's GetAccount balance by exactly the sum of that account's transactions in the batch |
| WriteBehind.NextCursor | internal/worker/writebehind.go:54-57 | the next cursor is idx+1 or wraps to min, so a cursor in [min, max] stays there |
| WriteBehind.CursorAfter | internal/worker/writebehind.go:54-57 | defines the partition index after k ticks; see CursorCycles |
| WriteBehind.ModSucc | internal/worker/writebehind.go:54-57 | k mod n is one more than (k - 1) mod n, or 0 after n - 1 |
| WriteBehind.CursorCycles | internal/worker/writebehind.go:54-57 | after k ticks the cursor is min + k mod (max - min + 1): the ticks visit min, min+1, ..., max, min, ... |
| WriteBehind.WriteBehindWorker.constructor | internal/worker/writebehind.go:21-29 | the cursor starts at minPartition |
| WriteBehind.WriteBehindWorker.WriteBehindPartition | internal/worker/writebehind.go:69-133 | an empty partition returns nil with no change; otherwise the partition's per-account sums go into the balances and the partition is truncated in the same transaction; any failure names the partition and changes nothing; a failed Begin with rows present panics on the deferred Rollback of a nil transaction |
| WriteBehind.WriteBehindWorker.Tick | internal/worker/writebehind.go:48-57 | one tick processes the cursor's partition and then advances the cursor, whether or not the partition's write succeeded; every live balance view is unchanged |
| WriteBehind.WriteBehindWorker.Run | internal/worker/writebehind.go:34-60 | over a run of ticks the cursor advances once per tick and no live balance view changes |
| FlushWorkers.Toggle | internal/worker/flush_worker.go:85 | switching maps a bucket b in {0, 1} to 1 - b, again in {0, 1} and different from b |
| FlushWorkers.ToggleTwice | internal/worker/flush_worker.go:85 | switching twice restores the original bucket |
| FlushWorkers.FlushResult | internal/worker/flush_worker.go:57-62 | the database after one FlushBucket call: flushed on success, unchanged on any failure |
| FlushWorkers.FlushSchedule | internal/worker/flush_worker.go:44-62 | the buckets the routine flushes are all in {0, 1}, at most one per event |
| FlushWorkers.ActiveAfter | internal/worker/flush_worker.go:44-62 | the active bucket at the routine's end is in {0, 1} |
| FlushWorkers.RoutineState | internal/worker/flush_worker.go:38-68 | the routine keeps the two buckets |
| FlushWorkers.FlushWorker.constructor | internal/worker/flush_worker.go:29-36 | the active bucket starts at 0 and the routine is not started |
| FlushWorkers.FlushWorker.GetActiveBucket | internal/worker/flush_worker.go:77-79 | the active bucket is always 0 or 1 |
| FlushWorkers.FlushWorker.SwitchActiveBucket | internal/worker/flush_worker.go:81-89 | the compare-and-swap sets the active bucket to 1 - b |
| FlushWorkers.FlushWorker.Start | internal/worker/flush_worker.go:70-75 | the routine is launched by the first call only |
| FlushWorkers.FlushWorker.FlushTick | internal/worker/flush_worker.go:44-62 | a tick flushes the bucket active before the switch, never the new one; cancellation during the wait returns without flushing but keeps the switch; a flush error is only logged |
| FlushWorkers.FlushWorker.FlushRoutine | internal/worker/flush_worker.go:38-68 | over a run of events the routine flushes exactly the schedule, ends with the schedule's active bucket, and leaves the database in the state the schedule's flushes produce |
| FlushWorkers.TicksAlternate | internal/worker/flush_worker.go:45-57 | with ticks only, the flushed buckets alternate a, 1 - a, a, ... |
| FlushWorkers.RoutinePreservesLive | internal/worker/flush_worker.go:38-68 | whatever flushes fail, the routine leaves every account's live view unchanged |
| PartitionManagers.Xor1 | internal/storage/partitionmanager.go:33 | x ^ 1 flips the lowest bit and keeps the others, so 0 and 1 toggle |
| PartitionManagers.Xor1Twice | internal/storage/partitionmanager.go:33 | XOR with 1 twice restores the value |
| PartitionManagers.Int16 | internal/storage/partitionmanager.go:27-29 | int16(x) is the value congruent to x mod 2^16 in [-2^15, 2^15), and x itself when x is in range |
| PartitionManagers.RotationTimeout | internal/storage/partitionmanager.go:42 | the per-rotation timeout is half the rotation interval, rounded down |
| PartitionManagers.PartitionManager.constructor | internal/storage/partitionmanager.go:20-25 | the active partition starts at its zero value 0 |
| PartitionManagers.PartitionManager.GetActivePartition | internal/storage/partitionmanager.go:27-29 | the reported partition is the field truncated to int16, so it is the field itself when the field is 0 or 1 |
| PartitionManagers.PartitionManager.SwitchPartition | internal/storage/partitionmanager.go:31-37 | switching XORs the partition with 1 |
| PartitionManagers.PartitionManager.RotateAndProcess | internal/storage/partitionmanager.go:60-120 | rotateAndProcess processes the partition active before the switch, which differs from the new one; cancellation during the wait returns without processing but the switch stands; success adds the partition's per-account sums to the balances, truncates it and reattaches it under the same key; any failure rolls back the whole unit and is only logged |
| PartitionManagers.PartitionManager.RotationTick | internal/storage/partitionmanager.go:39-58 | under a timeout of interval / 2, the one-second wait is cancelled exactly when the deadline falls within it; otherwise a tick with no failing step folds the pre-switch partition's sums into the balances and empties it, and any other outcome changes nothing |
| BatchWorkers.FromPayload | internal/worker/batch_worker.go:72-78 | each transaction copies AccountId, Amount and Type from its payload, with the drawn id and clock reading |
| BatchWorkers.Flatten | internal/worker/batch_worker.go:101-112 | defines every processed batch concatenated in call order; Step and BatchRoutine state that it and the pending batch are the received transactions |
| BatchWorkers.Received | internal/worker/batch_worker.go:72-79 | the transactions the payload events deliver, at most one per event |
| BatchWorkers.Bound | internal/worker/batch_worker.go:80-81 | the largest batch is batchSize when batchSize >= 1, and 1 otherwise |
| BatchWorkers.WellSized | internal/worker/batch_worker.go:80-81 | every processed batch is non-empty and at most the trigger size |
| BatchWorkers.BatchWorker.constructor | internal/worker/batch_worker.go:37-47 | a new worker has an empty batch, nothing processed and the routine not started |
| BatchWorkers.BatchWorker.Start | internal/worker/batch_worker.go:49-54 | the routine is launched by the first call only |
| BatchWorkers.BatchWorker.ProcessBatch | internal/worker/batch_worker.go:101-112 | one BatchProcess call with the bucket read at processing time; a failure is not retried |
| BatchWorkers.BatchWorker.Step | internal/worker/batch_worker.go:56-99 | one select round: a received transaction that brings the batch to the trigger size processes the batch with it and empties it, otherwise it is appended and nothing is processed; a tick, close or cancel with a non-empty batch processes exactly that batch and empties it, and with an empty batch does nothing; close and cancel stop the loop; processed plus pending transactions are the received ones in order |
| BatchWorkers.BatchWorker.BatchRoutine | internal/worker/batch_worker.go:56-99 | over a run of events, every received payload is processed exactly once, in arrival order, before the routine stops on close or cancel with an empty batch |
| BatchWorkers.ReceivedAppend | internal/worker/batch_worker.go:63-97 | received transactions distribute over appending events |
| ShardedStores.Routable | internal/storage/shardedstore.go:20-30 | a store the constructor builds: one shard per pool and numShards = len(pools) |
| ShardedStores.GetShard | internal/storage/shardedstore.go:32-37 | the shard index is below numShards |
| ShardedStores.NewShardedStore | internal/storage/shardedstore.go:20-30 | numShards = len(pools) and shard i is built from pools[i] |
| ShardedStores.GetAccount | internal/storage/shardedstore.go:39-42 | the answer of the shard GetShard picks, passed on: a failed query or row scan is (nil, err), an id that shard does not hold is (nil, nil), and otherwise that shard's account with no error |
| ShardedStores.GetTransaction | internal/storage/shardedstore.go:44-47 | the answer of the shard GetShard picks for the same UUID, passed on: a failed query or row scan is (nil, err), an unknown id is (nil, nil), and otherwise that shard's transaction with no error |
| ShardedStores.ShardIgnoresHighBytes | internal/storage/shardedstore.go:34 | UUID bytes 0..7 never influence the shard |
| ShardedStores.SingleShard | internal/storage/shardedstore.go:35 | with a single pool every UUID goes to shard 0 |
| ShardedStores.TwoShards | internal/storage/shardedstore.go:34-35 | with two shards the parity of the last byte decides |
| ShardedStores.RandB | internal/storage/shardedstore.go:34 | the 62 rand_b bits of a version-7 UUID (section 5.7 of RFC 9562) lie in bytes 8..15 |
| ShardedStores.VariantShard | internal/storage/shardedstore.go:34-35 | for a UUID with the RFC 9562 variant the routed value is 2^63 + rand_b, mod the shard count |
| Writers.Keyed | internal/worker/writer.go:35 | a record whose key has the 16 bytes key[8:16] needs |
| Writers.AllKeyed | internal/worker/writer.go:118-119 | every record of the fetch is keyed |
| Writers.GetShard | internal/worker/writer.go:33-37 | the shard of a 16-byte key is below numShards |
| Writers.ShardOf | internal/worker/writer.go:118-119 | a record's shard is below numShards |
| Writers.AgreesWithStore | internal/worker/writer.go:35-36 | the writer's formula gives the same shard as the sharded store's for a UUID key |
| Writers.ShardIgnoresOtherBytes | internal/worker/writer.go:35 | only key bytes 8..15 decide the shard |
| Writers.Group | internal/worker/writer.go:117-121 | defines a shard's records in fetch order; see GroupAppend, InOwnGroup and GroupMembers |
| Writers.Total | internal/worker/writer.go:117-121 | the group sizes of the first m shards added up; see GroupsPartition |
| Writers.GroupAppend | internal/worker/writer.go:117-121 | grouping distributes over concatenation, so records keep their fetch order within a group |
| Writers.InOwnGroup | internal/worker/writer.go:118-121 | each fetched record is in the group of its own shard |
| Writers.GroupMembers | internal/worker/writer.go:118-121 | every member of a group was fetched and has that group's shard |
| Writers.TotalExtend | internal/worker/writer.go:117-121 | the group sizes add up one shard at a time |
| Writers.TotalOfEmpty | internal/worker/writer.go:113-115 | an empty fetch has empty groups |
| Writers.GroupsPartition | internal/worker/writer.go:117-121 | the group sizes add up to the fetch's length, so each record lands in exactly one group |
| Writers.Sends | internal/worker/writer.go:123-136 | defines the sends for the non-empty groups in shard order; see SendsAreGroups, SendsIncreasing and SendsCover |
| Writers.SendsOf | internal/worker/writer.go:126-136 | the sends made from already-built groups |
| Writers.SendsOfGroups | internal/worker/writer.go:117-136 | sending from the groups the first loop built is sending the fetch's groups |
| Writers.SendsAreGroups | internal/worker/writer.go:123-136 | each send carries the whole non-empty group of one shard |
| Writers.SendsIncreasing | internal/worker/writer.go:123-136 | sends are in strictly increasing shard order, so no shard is sent twice |
| Writers.SendsCover | internal/worker/writer.go:123-136 | every non-empty group is sent |
| Writers.NoSendsForEmptyFetch | internal/worker/writer.go:113-115 | an empty fetch sends nothing |
| Writers.AwaitAcks | internal/worker/writer.go:138-147 | defines the wait for pending acknowledgements; see AwaitAllNil and AwaitFirstError |
| Writers.DispatchOutcome | internal/worker/writer.go:111-150 | defines dispatchBatch's error: nil for an empty fetch, else AwaitAcks over the sends |
| Writers.AwaitAllNil | internal/worker/writer.go:138-147 | with enough nil acknowledgements the dispatch succeeds |
| Writers.AwaitFirstError | internal/worker/writer.go:142-145 | the first non-nil acknowledgement error is returned |
| Writers.GroupByShard | internal/worker/writer.go:117-121 | the first loop builds, for every shard, exactly that shard's group in fetch order |
| Writers.SendGroups | internal/worker/writer.go:123-136 | the second loop sends exactly the non-empty groups and shardsToAck counts them |
| Writers.WaitForAcks | internal/worker/writer.go:138-147 | the last loop returns the first error among shardsToAck acknowledgements, or the context's error, or nil |
| Writers.DispatchBatch | internal/worker/writer.go:111-150 | an empty fetch returns nil without sending; otherwise every non-empty group is sent once and the result is the acknowledgements' outcome |
| Writers.PollsKeyed | internal/worker/writer.go:55-60 | every fetched poll's records are keyed |
| Writers.Committed | internal/worker/writer.go:55-69 | defines the records Start commits: a poll's when its dispatch returned nil and the commit did not fail, up to a closed client |
| Writers.SentOver | internal/worker/writer.go:50-72 | defines the work sent over the polls, up to a closed client |
| Writers.AdvanceSends | internal/worker/writer.go:60 | handling one poll adds exactly that poll's share of SentOver |
| Writers.AdvanceCommits | internal/worker/writer.go:60-69 | handling one poll adds exactly that poll's share of Committed |
| Writers.TailKeyed | internal/worker/writer.go:55 | the polls after the first are still keyed |
| Writers.ClosedEndsPolls | internal/worker/writer.go:56-58 | a closed client ends the loop: nothing more is sent or committed |
| Writers.FailedDispatchNotCommitted | internal/worker/writer.go:60-69 | a poll whose dispatch failed contributes nothing to the committed records |
| Writers.ShardWorkers | internal/worker/writer.go:42-48 | two workers are started per shard, 2i and 2i+1 serving shard i |
| Writers.Writer.constructor | internal/worker/writer.go:25-31 | a new writer has no workers, sends or commits |
| Writers.Writer.StartWorkers | internal/worker/writer.go:42-48 | the first loop starts workers 2i and 2i+1 for every shard i and sends or commits nothing |
| Writers.Writer.HandlePoll | internal/worker/writer.go:55-69 | a poll's records are sent as its groups and committed only when dispatchBatch returned nil |
| Writers.Writer.PollOnce | internal/worker/writer.go:55-69 | one fetched poll adds exactly its sends to the outbox and, when its dispatch succeeded, its records to the committed ones |
| Writers.Writer.Start | internal/worker/writer.go:39-72 | Start launches two workers per shard, then sends every poll's groups and commits exactly the polls whose dispatch succeeded, returning nil |
| Seeder.GetShard | cmd/seeder/main.go:52-55 | the seeder's shard index is below numShards |
| Seeder.SameShardAsStore | cmd/seeder/main.go:52-55 | the seeder's formula agrees with the sharded store's |
| Seeder.MakePools | cmd/seeder/main.go:14-38 | one pool per shard, shard i on port 5432 + i; a missing SEED_URL, a failing connect ("Failed to connect to database shard") or a failing ping ("Failed to ping database") is an error |
| Seeder.MakeUuids | cmd/seeder/main.go:40-50 | on success exactly n ids, the draws in order; any failed draw is an error |
| Seeder.TruncateTables | cmd/seeder/main.go:57-65 | the shards are emptied in order, stopping at the first failure |
| Seeder.Seeded | cmd/seeder/main.go:67-81 | the tables after the inserts keep the shard count |
| Seeder.SeedDatabase | cmd/seeder/main.go:67-81 | every id is inserted once, with balance 1000, into pools[getShard(uid)], in order; seeding stops at the first failed insert |
| Seeder.SeededWhereStoreLooks | cmd/seeder/main.go:69-75 | after seeding every id is on the shard the sharded store reads it from, with balance 1000 |
| Seeder.SeededOnlyOwnShard | cmd/seeder/main.go:69-75 | seeding adds an id to a shard only when it is seeded and routed there, and does not change existing entries |
| Seeder.Lines | cmd/seeder/main.go:90-91 | one line per id |
| Seeder.WriteToFile | cmd/seeder/main.go:83-97 | the file holds one line per id, in order, each uid.String() followed by "\n"; a failed write leaves the lines written before it |
| Seeder.TerminatedSnoc | cmd/seeder/main.go:90-92 | writing one more line appends it and its terminator |
| ApiBatches.RecordBatch.constructor | internal/api/pools.go:17-21 | the struct literal: n zero records, n pointers, a zeroed byte slab and offset 0 |
| ApiBatches.RecordBatch.PointAtSlab | internal/api/pools.go:22-24 | Pointers[i] is the address of Slab[i] for every i |
| ApiBatches.RecordBatch.Reset | internal/api/recordbatch.go:16-22 | offset is back to 0, Value and Key of Slab[0..count) are nil, the other entries and the byte slab are untouched; a count above the slab length panics |
| ApiBatches.RecordBatch.NextRecord | internal/api/recordbatch.go:24-31 | success exactly when offset + size fits the slab: the region of length size at the old offset, offset grows by size; otherwise an error with offset unchanged; offset stays within the slab |
| ApiBatches.TwoRecords | internal/api/recordbatch.go:28-29 | two successful calls return adjacent, non-overlapping regions, and a zero-size request always succeeds |
| ApiPools.NewRecordBatch | internal/api/pools.go:9-27 | 1000 records and pointers, a 1000 * (49 + 15) = 64000-byte slab, offset 0, and Pointers[i] aliasing Slab[i] |
| ApiPools.NewTransactionRequests | internal/api/pools.go:29-34 | the slice has length 1000, not merely capacity 1000, of zero requests |
| WorkerBatches.RecordBatch.constructor | internal/worker/pools.go:16-21 | the struct literal: n zero records, n pointers, a zeroed byte slab, offset and Count 0 |
| WorkerBatches.RecordBatch.PointAtSlab | internal/worker/pools.go:22-24 | Pointers[i] is the address of Slab[i] for every i |
| WorkerBatches.RecordBatch.Reset | internal/worker/recordbatch.go:17-20 | offset and Count are 0, and the Slab and ByteSlab contents are as they were |
| WorkerBatches.RecordBatch.NextRecord | internal/worker/recordbatch.go:22-29 | success exactly when offset + size fits: ByteSlab[offset, offset+size) and offset advances by size; otherwise an error, offset unchanged |
| WorkerBatches.TwoRecords | internal/worker/recordbatch.go:26-27 | successive successful calls return contiguous, disjoint regions within the slab |
| WorkerPools.NewRecordBatch | internal/worker/pools.go:9-27 | 50000 records and pointers, a 50000 * 64 = 3,200,000-byte slab, offset and Count 0, Pointers[i] aliasing Slab[i] |
| Coordinators.Resolve | internal/worker/coordinator.go:63-66 | defines a staged record read back through the byte slab |
| Coordinators.View | internal/worker/coordinator.go:63-68 | reading a slab's records back gives one record per staged entry |
| Coordinators.WorkerFor | internal/worker/coordinator.go:60 | a record goes to worker Partition mod numWorkers, which is below numWorkers |
| Coordinators.Routed | internal/worker/coordinator.go:58-60 | defines the records of a fetch that go to worker w, in fetch order; see DeliverAllRouted |
| Coordinators.Sent | internal/worker/coordinator.go:96-102 | defines everything handed to worker w, read back, in dispatch order; see SentAppend |
| Coordinators.Stageable | internal/worker/coordinator.go:63-68 | a record staging can take: non-negative partition, owned value of at most 64 bytes |
| Coordinators.DispatchOk | internal/worker/coordinator.go:96-102 | a dispatched batch: non-empty, within the slab, published with its last record's offset |
| Coordinators.SentAppend | internal/worker/coordinator.go:96-102 | a dispatch extends only its own worker's delivered records |
| Coordinators.Deliveries | internal/worker/coordinator.go:58-83 | what each worker has been sent or has waiting in its slab |
| Coordinators.Deliver | internal/worker/coordinator.go:58-68 | routing one more record keeps one delivery list per worker |
| Coordinators.DeliverAll | internal/worker/coordinator.go:58-68 | routing a fetch keeps one delivery list per worker |
| Coordinators.DeliverAllRouted | internal/worker/coordinator.go:58-68 | routing a fetch record by record hands each worker exactly its records, in fetch order |
| Coordinators.StagedDelivery | internal/worker/coordinator.go:63-68 | staging a record in its worker's slab delivers it to that worker |
| Coordinators.DispatchedDelivery | internal/worker/coordinator.go:70-83 | dispatching a slab moves its records from pending to sent without changing any worker's deliveries |
| Coordinators.WorkerIds | internal/worker/coordinator.go:18-32 | numWorkers = maxPart - minPart + 1 and worker i has id minPart + i |
| Coordinators.SlabOk | internal/worker/coordinator.go:63-68 | a batch ready for staging: pool sizes, at most 64 bytes per staged record, every staged value a slice below the offset |
| Coordinators.Holds | internal/worker/coordinator.go:63-68 | a batch ready for staging whose records, read back, are exactly the given ones |
| Coordinators.Stage | internal/worker/coordinator.go:63-68 | staging copies the value bytes into ByteSlab at the offset, points the staged record at the copy, advances offset by the value length and Count by 1, and keeps the earlier records as they read |
| Coordinators.ViewAppend | internal/worker/coordinator.go:63-68 | a record staged as the slice of the bytes appended after the old ones reads back as the old view followed by the record |
| Coordinators.CopyValue | internal/worker/coordinator.go:65 | `copy` writes the value at the offset and leaves the earlier bytes of ByteSlab as they were |
| Coordinators.FreshSlab | internal/worker/coordinator.go:44-45 | a pooled, reset batch: fresh, empty, offset 0 |
| Coordinators.Coordinator.constructor | internal/worker/coordinator.go:18-32 | the workers are minPart .. maxPart, with no slabs and nothing dispatched |
| Coordinators.Coordinator.InitSlabs | internal/worker/coordinator.go:43-46 | each worker gets a pooled, reset slab with nothing pending |
| Coordinators.Coordinator.DispatchSlab | internal/worker/coordinator.go:96-102 | the dispatched batch carries exactly the slab's staged records and publishes the offset of Slab[Count-1] |
| Coordinators.Coordinator.ReplaceSlab | internal/worker/coordinator.go:72-73 | the worker's slab is replaced by a fresh empty one; no other slab changes |
| Coordinators.Coordinator.StageInto | internal/worker/coordinator.go:63-68 | the record joins its worker's pending records; no other slab changes and nothing is dispatched |
| Coordinators.Coordinator.StageRecord | internal/worker/coordinator.go:58-74 | the record is delivered to its worker, and a slab is dispatched as soon as its Count reaches 50000 |
| Coordinators.Coordinator.DispatchAndReplace | internal/worker/coordinator.go:70-73 | the worker's slab is dispatched as one batch and replaced by an empty one; its pending records become sent, no other slab changes and no worker's deliveries change |
| Coordinators.Coordinator.StageAll | internal/worker/coordinator.go:56-75 | the record loop delivers every record of the fetch to its worker, in fetch order |
| Coordinators.Coordinator.FlushSlabs | internal/worker/coordinator.go:77-83 | every non-empty slab is dispatched and replaced, leaving each worker's deliveries unchanged and nothing pending |
| Coordinators.Coordinator.Poll | internal/worker/coordinator.go:49-83 | after a poll nothing is left pending, and each worker has been sent its earlier pending records followed by its records of the fetch, in fetch order |
| Coordinators.Coordinator.Stop | internal/worker/coordinator.go:87-94 | workers are stopped in index order and the first error is returned without stopping the rest |
| Ingest.Used | internal/api/recordbatch.go:24-31 | defines the bytes the first entries take from the slab; see UsedFront and UsedPrefix |
| Ingest.Fits | internal/api/efficientjson.go:83-96 | defines every entry getting its region and marshalling; see FitsIffTotal |
| Ingest.AllMarshal | internal/api/efficientjson.go:91-96 | every transaction marshals |
| Ingest.Filled | internal/api/efficientjson.go:99-102 | the record the loop writes: topic transactions, the entry's region as value, its key and the time |
| Ingest.FitsIffTotal | internal/api/efficientjson.go:83-96 | every record gets its region exactly when the sizes add up to at most the slab and every transaction marshals |
| Ingest.UsedFront | internal/api/recordbatch.go:24-31 | the bytes NextRecord hands out add up front to back |
| Ingest.UsedPrefix | internal/api/recordbatch.go:24-31 | each record's region ends where the next begins |
| Ingest.RegionsAdjacent | internal/api/efficientjson.go:83-89 | successive records get adjacent, non-overlapping payload regions |
| Ingest.FillRecords | internal/api/efficientjson.go:75-102 | the loop succeeds exactly when all records fit; record i then gets topic "transactions", its key, its own payload region and the shared timestamp; entries past the count are untouched |
| Ingest.NewTempBatch | internal/api/efficientjson.go:59-70 | a temporary batch of count records, count pointers aliasing them and a count * 128-byte slab |
| Ingest.Admit | internal/api/efficientjson.go:33-70 | a body over 12,800,000 bytes is refused before decoding, then a decoding failure, then a count over the limit; up to 1000 records use the pooled batch, more a temporary one |
| Ingest.AdmitMonotone | internal/api/proto.go:53-60 | a larger record limit only admits more requests |
| Ingest.DeferredStateAsWritten | internal/api/efficientjson.go:47-58 | as written, count is set before the limit check, and the temporary flag only after it |
| Ingest.DeferredFlagIsTemporary | internal/api/efficientjson.go:59-70 | the flag is set exactly for requests admitted to a temporary batch |
| Ingest.ResetCountAsWritten | internal/api/efficientjson.go:21-31 | as written, the deferred cleanup resets the pooled batch with the decoded count whenever no temporary batch was taken |
| Ingest.OversizedJsonResetOverruns | internal/api/efficientjson.go:51-58 | a JSON request of 20001 transactions makes the deferred Reset run past the 1000-entry pooled batch |
| Ingest.OversizedProtoResetOverruns | internal/api/proto.go:53-60 | a protobuf request of 10001 transactions does the same |
| Ingest.ResetCountWithinLimit | internal/api/efficientjson.go:21-31 | within the limits the as-written count never exceeds the pooled batch |
| Ingest.ResetCount | internal/api/efficientjson.go:21-31 | the corrected reset count is the number counted, but never more than the slab holds |
| Ingest.Counted | internal/api/efficientjson.go:40-49 | the count is the number of decoded transactions, none on a decoding failure |
| Ingest.Handle | internal/api/efficientjson.go:21-113 | the 400 responses and their order; 201 with CreatedCount = count exactly when every record fits and the produce succeeds, each record keyed by its transaction and given its own payload; 500 with "Failed to process transactions" on slab exhaustion or marshal failure and with "Failed to sync transactions" on produce failure; a temporary batch exactly for 1000 < count <= limit, never returned to the pool; the pooled batch is reset to offset 0 and returned, and its reset is the corrected one (ResetCount of the count as written, see Findings) |
| EfficientJson.JsonEntries | internal/api/efficientjson.go:75-101 | one loop entry per decoded request, keyed by its account id |
| EfficientJson.JsonDecoded | internal/api/efficientjson.go:40-45 | decoding succeeds or fails with the body, and yields one entry per request |
| EfficientJson.HandleEfficientJson | internal/api/efficientjson.go:21-113 | 400 for a body over 12,800,000 bytes, for a decoding failure, and for more than 20000 records; a temporary batch exactly for 1000 < count <= 20000; 201 with CreatedCount = count, each record keyed by its account id; the body slice goes back to its pool exactly when its capacity is at most 1000; the pooled record batch goes back after the corrected reset, with the count capped at 1000 (ResetCount, see Findings) |
| ProtoHandler.ProtoEntries | internal/api/proto.go:77-98 | record i is keyed by transaction i's AccountId and sized by its SizeVT |
| ProtoHandler.HandleProto | internal/api/proto.go:22-112 | the same decisions with a limit of 10000: 400s, a temporary batch for 1000 < count <= 10000, 201 with CreatedCount = count and each Value a region of exactly SizeVT bytes; the decoded batch always returns to its pool, a temporary record batch never; the pooled record batch is reset with the corrected count capped at 1000 (ResetCount, see Findings) |
| ProtoHandler.ProtoRefusesWhatJsonAdmits | internal/api/proto.go:53-60 | 10001 to 20000 transactions are refused by the protobuf handler but taken by the JSON handler, whose limit is twice as large |
| CopySources.Row | internal/storage/transactioncopy.go:51-56 | a row has the six columns id, account_id, amount, transaction_type, created_at, partition_key |
| CopySources.IdAt | internal/storage/transactioncopy.go:46-47 | the id of the k-th Values call: bytes 0..11 of the base UUID and seed0 + k mod 2^32 big-endian; see IdKeepsPrefix, IdsDistinct and IdsRepeatAfterWrap |
| CopySources.IdKeepsPrefix | internal/storage/transactioncopy.go:47 | stamping never changes bytes 0..11 of the base UUID, so its version and variant stay |
| CopySources.IdsDistinct | internal/storage/transactioncopy.go:46-48 | ids from Values calls fewer than 2^32 apart differ |
| CopySources.IdsRepeatAfterWrap | internal/storage/transactioncopy.go:46-47 | the bound is tight: 2^32 calls apart the seed has wrapped and the id repeats |
| CopySources.TransactionCopySource.constructor | internal/storage/transactioncopy.go:25-37 | pos 0, six empty slots, the given rows, partition key, base UUID, seed and time |
| CopySources.TransactionCopySource.Next | internal/storage/transactioncopy.go:39-42 | pos advances by one and Next reports pos <= len(rows); nothing else changes |
| CopySources.TransactionCopySource.Values | internal/storage/transactioncopy.go:44-58 | the seed wraps to seed + 1 mod 2^32 and is written big-endian into bytes 12..15 of the base UUID; the slots then hold that id, the current row's fields, the shared time and the partition key |
| CopySources.TransactionCopySource.Err | internal/storage/transactioncopy.go:60-62 | Err is always nil |
| CopySources.CopyAll | internal/storage/transactioncopy.go:39-58 | from pos 0, Next is true exactly len(rows) times and then false; the k-th row copied has rows[k]'s fields, the (k+1)-th stamped id, and the same time and partition key |
| EfficientSources.Stamp | internal/storage/efficienttransactionsource.go:36 | stamping keeps the id's length |
| EfficientSources.StampFields | internal/storage/efficienttransactionsource.go:36 | stamping changes only bytes 0..3, which then read back as the salt |
| EfficientSources.StampTwice | internal/storage/efficienttransactionsource.go:36 | stamping twice keeps only the last salt |
| EfficientSources.Salt.constructor | internal/storage/efficienttransactionsource.go:36 | the package-wide salt counter starts at the given value |
| EfficientSources.Salt.Add | internal/storage/efficienttransactionsource.go:36 | atomic.AddUint32(&salt, 1) increments the counter mod 2^32 and returns the new value |
| EfficientSources.EfficientTransactionSource.constructor | internal/storage/efficienttransactionsource.go:20-27 | 50000 zero transactions, idx -1, Count 0 and an empty offsets map |
| EfficientSources.EfficientTransactionSource.Next | internal/storage/efficienttransactionsource.go:29-32 | idx advances and Next reports idx < Count |
| EfficientSources.EfficientTransactionSource.Values | internal/storage/efficienttransactionsource.go:34-44 | the current transaction's id is stamped in place with the next salt; no other slot changes; the row is id, account id, amount and the shared timestamp |
| EfficientSources.EfficientTransactionSource.Err | internal/storage/efficienttransactionsource.go:46-48 | Err is always nil |
| EfficientSources.HasElement | internal/storage/efficienttransactionsource.go:52-54 | a non-empty key set has a key for the delete loop to take |
| EfficientSources.EfficientTransactionSource.Reset | internal/storage/efficienttransactionsource.go:50-55 | idx is -1 and every offset key is deleted; Count and the slab stay |
| EfficientSources.RowOf | internal/storage/efficienttransactionsource.go:38-41 | a row has four values |
| EfficientSources.Ready | internal/storage/efficienttransactionsource.go:29-44 | a source ready to be read: idx -1, Count within the slab, ids of at least four bytes |
| EfficientSources.ReadAll | internal/storage/efficienttransactionsource.go:29-44 | from idx -1, Next is true exactly Count times; row k is transaction k with its id stamped with the (k+1)-th salt; slots past Count are untouched |
| EfficientSources.ReadTwice | internal/storage/efficienttransactionsource.go:50-55 | after Reset a second pass yields Count rows again, over the same transactions restamped with later salts |
| CopyFormat.Header | internal/storage/binary.go:43-45 | the header is 19 bytes |
| CopyFormat.Trailer | internal/storage/binary.go:52 | the trailer is 2 bytes |
| CopyFormat.Frame | internal/storage/binary.go:43-52 | a buffer is the rows plus 21 bytes of framing |
| CopyFormat.Unframe | internal/storage/binary.go:43-52 | reading a buffer back removes exactly the 21 framing bytes |
| CopyFormat.HeaderFields | internal/storage/binary.go:43-45 | the header starts with the 11-byte signature, then flags 0 and extension length 0; the trailer is the 16-bit -1 |
| CopyFormat.UnframeFrame | internal/storage/binary.go:43-52 | framing then reading back gives the rows |
| CopyFormat.FrameUnframe | internal/storage/binary.go:43-52 | a buffer that reads back is the frame of its rows |
| CopyFormat.EmptyFrame | internal/storage/binary.go:43-52 | with Count = 0 the buffer is exactly header plus trailer, 21 bytes |
| CopyFormat.Concat | internal/storage/binary.go:49-51 | defines the encoded rows one after the other, in index order; see ConcatAppend |
| CopyFormat.ConcatAppend | internal/storage/binary.go:49-51 | the rows of a prefix are a prefix of the rows |
| CopyFormat.BuildFrame | internal/storage/transactionstore.go:116-138 | the buffer built step by step is the frame of the rows in index order, and it reads back to them |
| CopyFormat.RawTimeUnsigned | internal/storage/binary.go:47 | binary.go's rawTime as a uint64 is below 2^64 |
| CopyFormat.RawTimeSigned | internal/storage/transactionstore.go:125 | transactionstore.go's rawTime stays an int64 |
| CopyFormat.Micros | internal/storage/binary.go:47 | defines the exact microseconds since 2000-01-01; see MicrosSplit and RawTimesAgree |
| CopyFormat.MicrosSplit | internal/storage/binary.go:47 | the value splits back into seconds since 2000-01-01 and nanoseconds div 1000 |
| CopyFormat.EpochIsZero | internal/storage/binary.go:47 | 2000-01-01 00:00:00 UTC is timestamp 0 |
| CopyFormat.RawTimesAgree | internal/storage/transactionstore.go:125 | at or after 2000 (within int64) both generations write the same microsecond count |
| CopyFormat.BeforeEpochWraps | internal/storage/binary.go:47 | one microsecond before 2000 the unsigned form is 2^64 - 1 and the signed form -1 |
| BinaryBatch.Statements | internal/storage/binary.go:21-72 | every unit starts with Begin |
| BinaryBatch.StepIndex | internal/storage/binary.go:24-71 | there are six steps |
| BinaryBatch.StatementOrder | internal/storage/binary.go:31-71 | with no failure, a unit is Begin, truncate the staging table, COPY the framed rows, merge, record the offset, Commit |
| BinaryBatch.FailureStopsBeforeCommit | internal/storage/binary.go:24-71 | a failing unit issues a prefix of the full unit and never reaches Commit unless Commit itself fails |
| BinaryBatch.SourceRows | internal/storage/binary.go:49-51 | one EncodeRow chunk per row, Count of them |
| BinaryBatch.Store.constructor | internal/storage/binary.go:21-72 | the store starts with the given offsets, nothing merged and nothing logged |
| BinaryBatch.Store.EfficientWriteBatch | internal/storage/binary.go:21-72 | the unit's statements are logged in order; success merges the framed rows in index order and sets partition workerId's offset to source.Offset; any failure changes neither |
| BinaryBatch.RunUnit | internal/storage/binary.go:24-71 | the statements issued, in order, stopping at the failing step |
| TransactionStores.PartitionTable | internal/storage/transactionstore.go:100 | the table name transactions_p followed by the key in decimal; see PartitionTablesDistinct |
| TransactionStores.BinaryCopySql | internal/storage/transactionstore.go:147 | the COPY ... FROM STDIN WITH (FORMAT BINARY) statement of a partition |
| TransactionStores.Stored | internal/storage/transactionstore.go:104 | the row a copy of six values stores, the columns in their declared order; see CopiedRowFields |
| TransactionStores.PartitionTablesDistinct | internal/storage/transactionstore.go:100 | different partitions name different tables |
| TransactionStores.CopiedRows | internal/storage/transactionstore.go:85-108 | one stored row per request |
| TransactionStores.CopiedRowFields | internal/storage/transactionstore.go:85-108 | each copied row keeps its request's account, amount and type and carries the call's time and partition key k |
| TransactionStores.BatchRaisesLiveBalance | internal/storage/transactionstore.go:100-108 | a copied batch raises an account's live balance by exactly its sum in the batch |
| TransactionStores.GetTransaction | internal/storage/transactionstore.go:62-78 | a failed query is an error; no partition row with the id is (nil, nil), not an error; a failed scan of an existing row is (nil, err); a transaction is returned exactly when the query and scan succeed and some partition holds the id, and it is that stored row's transaction |
| TransactionStores.TransactionStore.constructor | internal/storage/transactionstore.go:21-24 | the store works on the given database and partition provider |
| TransactionStores.TransactionStore.CreateTransaction | internal/storage/transactionstore.go:50-60 | a failed NewV7 is returned first; otherwise exactly one row goes into the active partition with partition_key = that partition |
| TransactionStores.TransactionStore.CreateBatchTransaction | internal/storage/transactionstore.go:80-109 | an empty batch is (0, nil) with nothing touched; otherwise the partition is read once, every row goes to transactions_p<k> with partition_key k in input order, the count is returned, and the pooled source's rows are cleared |
| TransactionStores.TransactionStore.CreateBinaryBatchTransaction | internal/storage/transactionstore.go:111-150 | an empty batch is (0, nil); a failed acquire is 0 with an error; otherwise the framed rows, in input order, go to the active partition's COPY and len(txs) is returned even if the copy failed |
| TransactionStores.TransactionStore.CreateProtoBinaryBatchTransaction | internal/storage/transactionstore.go:152-192 | the same for a protobuf batch |
| TransactionStores.BinaryCopy | internal/storage/transactionstore.go:138-149 | the shared tail: acquire, COPY ... FORMAT BINARY of the framed rows, and len(txs) once the copy is attempted |
| WorkerMain.IsScanSpace | cmd/worker/main.go:136 | the white space fmt's scanner skips before a number |
| WorkerMain.ScanRange | cmd/worker/main.go:136 | defines Sscanf with "%d-%d": a number, a dash right after it and a second number; see RangeScans and SpaceBeforeDashRefused |
| WorkerMain.SkipSpaces | cmd/worker/main.go:136 | leading spaces are skipped and a newline is a scan error |
| WorkerMain.DigitRun | cmd/worker/main.go:136 | the digits of a number run from the given index |
| WorkerMain.ScanInt | cmd/worker/main.go:136 | %d reads an optional sign and at least one digit, within int64 |
| WorkerMain.ParsePartitionRange | cmd/worker/main.go:134-144 | a format mismatch gives (0, 0) and "invalid partition range format"; a negative minimum or a maximum below the minimum gives "invalid partition range values"; otherwise (A, B) with 0 <= A <= B |
| WorkerMain.DigitRunOver | cmd/worker/main.go:136 | a digit run ends at the first non-digit |
| WorkerMain.ScanRangeOf | cmd/worker/main.go:136 | the scan of "A-B" followed by anything but a digit reads (A, B) |
| WorkerMain.ScanRangeStep | cmd/worker/main.go:136 | the first number's scan ends at the dash and the second starts after it |
| WorkerMain.ScanRendered | cmd/worker/main.go:136 | a rendered number followed by a non-digit scans back to itself |
| WorkerMain.RangeScans | cmd/worker/main.go:136 | "A-B" followed by a non-digit scans to (A, B) |
| WorkerMain.RangeRoundTrip | cmd/worker/main.go:134-144 | "A-B" with 0 <= A <= B parses to (A, B) with no error |
| WorkerMain.DefaultRangeIsZeroTo63 | cmd/worker/main.go:150 | the default flag value "0-63" parses to (0, 63) |
| WorkerMain.DescendingRangeRefused | cmd/worker/main.go:140-142 | a maximum below the minimum gives "invalid partition range values" |
| WorkerMain.NegativeMinimumRefused | cmd/worker/main.go:140-142 | "-1-5" gives "invalid partition range values" |
| WorkerMain.SpaceBeforeDashRefused | cmd/worker/main.go:136-139 | a space before the dash is a format error |
| WorkerMain.ToInt32 | cmd/worker/main.go:46 | int32(i) wraps into the int32 range |
| WorkerMain.AddInt64 | cmd/worker/main.go:62 | lastOffset + 1 wraps in int64 |
| WorkerMain.AllAtStart | cmd/worker/main.go:44-47 | every listed partition starts at the beginning |
| WorkerMain.StartKeys | cmd/worker/main.go:44-47 | the partitions int32(i) for i in [min, max] that the first loop assigns; see AssignmentsOfRange |
| WorkerMain.Resume | cmd/worker/main.go:56-63 | defines the row loop's replacements in row order; see ResumeLookup |
| WorkerMain.Assignments | cmd/worker/main.go:43-63 | the map getPartitionOffsets builds; see AssignmentsOfRange |
| WorkerMain.LastOffset | cmd/worker/main.go:56-63 | the last stored offset of a partition among the rows; see LastOffsetInRows |
| WorkerMain.ResumeLookup | cmd/worker/main.go:56-63 | a partition with a stored row resumes at last_offset + 1, and one without it keeps its entry |
| WorkerMain.AssignmentsOfRange | cmd/worker/main.go:44-63 | every partition in [min, max], and only those, gets stored last_offset + 1 if a row exists, otherwise the beginning |
| WorkerMain.LastOffsetInRows | cmd/worker/main.go:56-63 | the offset resumed from is the last stored row's for that partition |
| WorkerMain.GetPartitionOffsets | cmd/worker/main.go:43-70 | with no failure, a map holding only the topic "transactions", whose partitions are exactly [min, max] as assigned above; a query, scan or rows error gives a nil map with the error |
| WorkerMain.Reversed | cmd/worker/main.go:75-81 | the closers in reverse order |
| WorkerMain.ReversedIndex | cmd/worker/main.go:75-81 | the i-th run closer is the (n-1-i)-th registered one |
| WorkerMain.ReversedCons | cmd/worker/main.go:75-81 | registering one more closer runs it first |
| WorkerMain.Cleanup.constructor | cmd/worker/main.go:73-74 | nothing registered and nothing run |
| WorkerMain.Cleanup.Register | cmd/worker/main.go:73-74 | the closer is appended to the registered ones |
| WorkerMain.Cleanup.Run | cmd/worker/main.go:75-81 | the first call runs the registered closers in reverse registration order; later calls do nothing |
| WorkerMain.Cleanup.RunTwice | cmd/worker/main.go:75-81 | calling cleanup twice runs each closer exactly once |
| WorkerMain.EnsureTopicExists | cmd/worker/main.go:24-41 | a 64-partition topic "transactions" is created exactly when listing succeeds and the topic is absent; a listing or creation failure is an error |
| WorkerMain.ExistingTopicUntouched | cmd/worker/main.go:32-34 | an existing topic is not created again |
| WorkerMain.Registered | cmd/worker/main.go:72-123 | the closers registered before each failure point |
| WorkerMain.SetupError | cmd/worker/main.go:86-123 | the error of each startup failure |
| WorkerMain.Setup | cmd/worker/main.go:72-132 | the closers registered and the error match the failure point; a writer exactly on success; the topic request only then; the topic error is discarded and setup still returns nil |
| WorkerMain.SetupThenCleanup | cmd/worker/main.go:72-132 | after a full setup, cleanup closes the client before the pool |
| Generator.LoadLines | cmd/generator/main.go:62-70 | defines the lines loop: zero-length lines skipped, the others parsed in order, the first bad line failing the load; see LoadStopsAtError and LoadCanonicalLines |
| Generator.LoadAccountIds | cmd/generator/main.go:53-74 | the loop computes the specification of the load: the non-empty lines, in order, each parsed |
| Generator.LoadStopsAtError | cmd/generator/main.go:66-69 | one unparseable line fails the whole load |
| Generator.LoadCanonicalLines | cmd/generator/main.go:59-72 | canonical id lines load back to the ids |
| Generator.SeederFileRoundTrip | cmd/generator/main.go:59-72 | reading a file the seeder's writeToFile (cmd/seeder/main.go:90-92) produced gives the same ids in order |
| Generator.RoundRobin | cmd/generator/main.go:31-40 | a batch has batchSize transactions |
| Generator.MakeBatch | cmd/generator/main.go:31-40 | transaction j of a batch uses accountIDs[(seed + j) mod len] and amount 1000 |
| Generator.Setup | cmd/generator/main.go:18-51 | n batches, batch i starting at its drawn seed; an empty id list is allowed when no batch is made |
| Generator.RoundRobinFromIds | cmd/generator/main.go:36-37 | every generated transaction has amount 1000 and a loaded account |
| Generator.RoundRobinCovers | cmd/generator/main.go:31-40 | a batch at least as long as the list uses every account |
| Generator.Targeter.constructor | cmd/generator/main.go:88 | the counter starts at 0 |
| Generator.Targeter.Target | cmd/generator/main.go:89-101 | a request gets batches[counter mod len] and the counter then advances |
| Generator.Targeter.Attack | cmd/generator/main.go:89-101 | request k gets batches[k mod len(batches)] |
| StressTest.IsJsWhitespace | stress_test.js:7 | the characters String.prototype.trim removes |
| StressTest.Blank | stress_test.js:7 | a line the filter drops: nothing but whitespace; see TrimEmptyIffBlank |
| StressTest.AccountIds | stress_test.js:5-8 | defines the account list as the split file filtered; see NonBlankMembers |
| StressTest.JsTrim | stress_test.js:7 | trimming never lengthens a line |
| StressTest.TrimEmptyIffBlank | stress_test.js:7 | a line trims to "" exactly when it is all whitespace |
| StressTest.NonBlank | stress_test.js:7 | the filter keeps at most the lines it is given |
| StressTest.NonBlankMembers | stress_test.js:7 | a line is kept exactly when it is one of the lines and not blank, untrimmed |
| StressTest.NonBlankAppend | stress_test.js:7 | the filter distributes over concatenation, so the kept lines keep their order |
| StressTest.Synthesize | stress_test.js:26-33 | with a non-empty list the accountId is a dataset member (absent for an empty list); the amount is in [100, 10099]; the type is 1 |
| StressTest.Keys | stress_test.js:29-33 | the keys of the serialised body, in order |
| StressTest.KeysOfRequest | stress_test.js:29-33 | the payload has exactly the fields accountId, type and amount |
| StressTest.TypeTwoUnreachable | stress_test.js:28-31 | type 2 never occurs |
| StressTest.Passes | stress_test.js:41-43 | a response passes k6's `check` exactly when its status is 201 |
| Users.Segments | internal/api/users.go:14-15 | the trimmed path splits into at least one segment |
| Users.GetUser | internal/api/users.go:61-77 | a non-UUID id is 400 before the lookup; a missing user is 404; 200 exactly when the id parses and the user exists, returning that user |
| Users.CreateUser | internal/api/users.go:85-96 | 201 exactly when creation succeeds, 500 otherwise |
| Users.HandleUsers | internal/api/users.go:12-34 | GET with a segment count other than 2 is 204; GET with two segments looks up the second; POST creates; any other method is 404 |
| Users.SplitUserPath | internal/api/users.go:15 | "users/" + x, for x without a slash, splits into "users" and x |
| Users.RootIsOneSegment | internal/api/users.go:14-15 | "/" is a single empty segment |
| Users.OneSegment | internal/api/users.go:14-15 | /x, for x without a slash, is the one segment x |
| Users.UserPathSegments | internal/api/users.go:14-15 | /users/x, for x without a slash, is the two segments "users" and x |
| Users.GetUsersIsNoContent | internal/api/users.go:18-21 | GET /users is 204 |
| Users.TrailingSlashIgnored | internal/api/users.go:14-23 | GET /users/x/ asks for the same user as GET /users/x |
| Users.PostIgnoresPath | internal/api/users.go:26-27 | POST routes to creation whatever the path |
| Users.GetUserOneIsBadRequest | internal/api/users.go:63-66 | GET /users/1 is 400 |
| Model.TypeName | internal/model/types.go:54-61 | 0 is "Credit", 1 is "Debit", and any other value has an empty name |
| Model.UserDetails | internal/model/types.go:46-48 | defines the user details as the lines joined by newlines; see UserDetailsLines |
| Model.UserDetailLines | internal/model/types.go:47 | the two lines ID and Created At |
| Model.AccountDetails | internal/model/types.go:50-52 | defines the account details as the lines joined by newlines; see AccountDetailsLines |
| Model.AccountDetailLines | internal/model/types.go:51 | the four lines ID, User ID, Balance and Created At |
| Model.TransactionDetails | internal/model/types.go:54-63 | defines the transaction details as the lines joined by newlines; see TransactionDetailsLines |
| Model.TransactionDetailLines | internal/model/types.go:62 | the five lines ID, Account ID, Amount, Type and Created At |
| Model.NoNewlineIn | internal/model/types.go:47 | a label and a value without newlines make a line without one |
| Model.UserDetailsLines | internal/model/types.go:46-48 | the user details are ID then Created At, one per line |
| Model.AccountDetailsLines | internal/model/types.go:50-52 | the account details are ID, User ID, Balance and Created At, one per line |
| Model.TransactionDetailsLines | internal/model/types.go:54-63 | the transaction details are ID, Account ID, Amount, Type and Created At, one per line |
| Uuid.HexDigit | cmd/seeder/main.go:91 | the lower-case digit of a value below 16 |
| Uuid.HexValue | cmd/generator/main.go:66 | the value of a hexadecimal digit of either case, none for any other character |
| Uuid.HexValueOfDigit | cmd/generator/main.go:66 | a written digit reads back as its value |
| Uuid.Xtob | cmd/generator/main.go:66 | the byte two hexadecimal digits write, none when either is not a digit |
| Uuid.IsDashPosition | cmd/seeder/main.go:91 | the dash positions 8, 13, 18 and 23 |
| Uuid.DashesBefore | cmd/seeder/main.go:91 | the number of dashes before a position of the 36-character form |
| Uuid.PairStart | cmd/seeder/main.go:91 | byte i's two digits start at position 2i plus the dashes before them |
| Uuid.CanonicalChar | cmd/seeder/main.go:91 | the character at a position of uid.String(): a dash or a digit of the byte there |
| Uuid.DashesAt | cmd/generator/main.go:66 | the 8-4-4-4-12 dashes the parser checks |
| Uuid.ParseCanonical | cmd/generator/main.go:66 | the 36-character form is an error without its dashes or with a non-digit pair |
| Uuid.ParsePlain | cmd/generator/main.go:66 | the 32-digit form is an error with a non-digit pair |
| Uuid.AsciiLower | cmd/generator/main.go:66 | ASCII lower-casing for the urn:uuid: prefix check |
| Uuid.EqualFoldAscii | cmd/generator/main.go:66 | bytes.EqualFold against an ASCII literal |
| Uuid.CanonicalPair | cmd/seeder/main.go:91 | byte i's digits sit at PairStart(i) and PairStart(i) + 1 |
| Uuid.XtobDigits | cmd/generator/main.go:66 | xtob reads a byte's two digits back as the byte |
| Uuid.PairChars | cmd/seeder/main.go:91 | the characters at byte i's position are its high and low digits |
| Uuid.Version | internal/worker/batch_worker.go:73 | the version field, the high four bits of byte 6 |
| Uuid.IsRfcVariant | internal/worker/batch_worker.go:73 | the RFC variant 0b10 in byte 8 |
| Uuid.IsV7 | internal/worker/batch_worker.go:73 | a version-7 RFC UUID as uuid.NewV7 draws |
| Uuid.ToString | cmd/seeder/main.go:91 | uid.String() is 36 characters, dashes exactly at 8, 13, 18 and 23, hex digits elsewhere |
| Uuid.ToStringHasNoNewline | cmd/seeder/main.go:91 | a UUID's string holds no newline |
| Uuid.Parse | cmd/generator/main.go:66 | an input whose UTF-8 byte length is not 32, 36, 38 or 45 fails to parse, and so does any input with a non-ASCII character |
| Uuid.RuneLength | cmd/generator/main.go:66 | one to four UTF-8 bytes per character, exactly one for ASCII |
| Uuid.Utf8Length | cmd/generator/main.go:66 | Go's byte length of a string: at least its character count, and equal to it exactly when it is ASCII |
| Uuid.ParseToString | cmd/generator/main.go:66 | parsing a UUID's string gives the UUID back |
| Uuid.ToStringInjective | cmd/seeder/main.go:91 | different UUIDs have different strings |
| Bytes.BigEndian | internal/worker/writer.go:35 | defines binary.BigEndian.Uint64 on a byte slice, most significant byte first |
| Bytes.BigEndianBound | internal/worker/writer.go:35 | n bytes read big-endian stay below 256^n |
| Bytes.BigEndianFront | internal/worker/writer.go:35 | the first byte weighs 256^(n-1) |
| Bytes.ToBigEndian | internal/storage/transactioncopy.go:47 | PutUint32/AppendUintN writes exactly n bytes |
| Bytes.EncodeDecode | internal/storage/transactioncopy.go:47 | a value below 256^n encodes and decodes back to itself |
| Bytes.ToBigEndianRoundTrip | internal/storage/transactioncopy.go:47 | PutUint32 writes a value that Uint32 reads back mod 2^32 |
| Bytes.ToBigEndianInjective | internal/storage/transactioncopy.go:47 | different 32-bit values have different encodings |
| Bytes.Uint64Bound | internal/storage/shardedstore.go:34 | binary.BigEndian.Uint64 of 8 bytes is below 2^64 |
| Text.Join | internal/model/types.go:47 | defines joining with one separator between neighbours; its inverse is Split (SplitJoin) |
| Text.Terminated | cmd/seeder/main.go:90-92 | defines every line followed by the separator |
| Text.TerminatedIsJoin | cmd/seeder/main.go:90-92 | terminated lines are the join of the lines and one empty piece |
| Text.SplitNoSeparator | internal/api/users.go:15 | a string without the separator splits into itself alone |
| Text.SplitAtSeparator | internal/api/users.go:15 | a separator after a separator-free prefix splits off that prefix |
| Text.Split | cmd/generator/main.go:59 | splitting gives at least one part, none containing the separator |
| Text.SplitJoin | cmd/generator/main.go:59 | splitting a join gives back the parts |
| Text.SplitTerminated | cmd/generator/main.go:59 | splitting newline-terminated lines gives the lines and one trailing empty piece |
| Text.TrimLeft | internal/api/users.go:14 | the leading cutset characters are removed, no more |
| Text.TrimRight | internal/api/users.go:14 | the trailing cutset characters are removed, no more |
| Text.Trim | internal/api/users.go:14 | strings.Trim never lengthens the string and leaves neither end on the cutset character |
| Text.TrimLeftStep | internal/api/users.go:14 | TrimLeft removes a leading cutset character and goes on, and stops at any other |
| Text.TrimRightStep | internal/api/users.go:14 | TrimRight removes a trailing cutset character and goes on, and stops at any other |
| Text.TrimIsInfix | internal/api/users.go:14 | strings.Trim removes a run of the cutset character from each end and keeps the middle as it was |
| Text.DecimalRoundTrip | cmd/worker/main.go:136 | a rendered number reads back to itself |
| Text.IsDigit | cmd/worker/main.go:136 | the decimal digits %d reads |
| Text.DigitValue | cmd/worker/main.go:136 | a digit's value is below 10 |
| Text.DigitChar | internal/model/types.go:47 | the character of a digit below 10 is a digit |
| Text.NatToString | internal/model/types.go:47 | %d of a natural number: at least one digit, all digits, no leading zero |
| Text.IntToString | internal/model/types.go:51 | %d of an integer: non-empty and without a newline |
| Text.DecimalValue | cmd/worker/main.go:136 | defines the value of a digit string; DecimalRoundTrip makes it the inverse of NatToString |
| Text.NatToStringInjective | internal/storage/transactionstore.go:100 | different numbers render differently |

## Left out

- Concurrency is modelled as sequential state changes: goroutines, channels and `select` become event sequences and outboxes; atomics and compare-and-swap loops succeed on their first attempt.
- Tickers, timers and sleeps (the "wait for in-flight transactions" delays) are left out; only the one-second wait's cancellation is modelled, as a parameter or a deadline comparison.
- The SQL engine is modelled only by the effect of each statement on maps and sequences (DETACH/ATTACH, TRUNCATE, COPY, UPDATE ... FROM). Statement text and query planning are not modelled.
- `sync.Pool` reuse is not modelled: a `Get` is a freshly allocated value from the pool's `New` function, so reuse across requests and its aliasing are not captured.
- Coordinators.Coordinator.ReplaceSlab: the replacement slab is always empty. At internal/worker/coordinator.go:72-73 the slab taken from the pool is not reset, unlike at lines 43-46 and 80-81; this is harmless only because the consumer resets every batch before returning it (internal/worker/multiwriter.go:82-83), and the model does not capture a pool holding an unreset batch.
- `EncodeRow`, `EncodeRowBinary`, `EncodeRowProtoBinary`, `SizeVT`, `MarshalToSizedBufferVT`, `sonic.Unmarshal` and `UnmarshalVT` are not part of this model; their results are parameters (opaque byte chunks, sizes, success flags).
- `uuid.NewV7`, `rand.Intn`, `rand.Uint32`, `Math.random` and `time.Now` are parameters.
- Logging, metrics and HTTP response writing are left out; a failure that is "only logged" is modelled as returning without change.
- The process wiring of the entry points is left out: env loading, signal handling, `log.Fatal` exits, and the servers of cmd/api, cmd/transaction-ledger and cmd/data-gen.
- CopySources.TransactionCopySource.Values: the `buf` slice returned is the same slice on every call; the model returns its contents, so a caller keeping an earlier result is not modelled as seeing it change.
- EfficientSources.EfficientTransactionSource.Values: an `idx` outside the slab (a Values call without a true Next) is excluded by a precondition; in Go it panics.
- TransactionStores.TransactionStore.CreateBatchTransaction: a failed text COPY is modelled as a count of 0 with nothing stored; pgx's partial-copy count is not modelled.
- TransactionStores.TransactionStore.CreateBatchTransaction: the rows stored are those of the `Values` in internal/storage/transactioncopy.go:44-58. The pool's `New` at internal/storage/transactionstore.go:26-48 builds a source with pgtype buffers (`idBuf` .. `partBuf`) that transactioncopy.go's struct does not declare, and the `Values` filling those buffers is not part of this model; the model assumes it stores the same six columns.
- Writers.GetShard: a key shorter than 16 bytes (a nil key included) panics at `key[8:16]` (internal/worker/writer.go:35), and `numShards` 0 panics at `% 0` (line 36); both are excluded by the precondition, not modelled as panics.
- Writers.Keyed: the same short or nil key is excluded from every fetch by `AllKeyed`, so a panic in the grouping loop is not modelled.
- Writers.DispatchBatch: requires `numShards > 0` and keyed records for the reasons above; a dispatch that panics is not modelled.
- BatchWorkers.Bound: a negative `batchSize`, on which `make` at internal/worker/batch_worker.go:56 panics, is treated like a trigger of 1.
- ShardedStores.GetShard: a store built from no pools has `numShards` 0, and `% 0` at internal/storage/shardedstore.go:35 panics; the precondition excludes it, and the panic is not modelled.
- ShardedStores.GetAccount: requires a `Routable` store, so the panic on a store of no pools is excluded. The routed store's query and scan failures are flags, not database behaviour.
- ShardedStores.GetTransaction: the same as GetAccount. The shard's transactions are a map by id, not the partitioned table that TransactionStores.GetTransaction searches.
- Coordinators.Coordinator.Poll: requires every fetched record to be `Stageable` (a non-negative partition and an owned value of at most 64 bytes). The source does not check this: values running past the 3,200,000-byte ByteSlab panic at the slice at internal/worker/coordinator.go:66, and a negative partition gives a negative worker index at line 60. The model does not capture either panic.
- DbAccounts.AccountsRepo.UpdateAccountBalance: the bigint range of the balance column is taken from `model.Account`'s int64 `Balance`; the table schema is not part of this model.
- TransactionStores.TransactionStore.CreateBinaryBatchTransaction: the COPY command is returned, not applied to the partition tables, since the binary row encoding is opaque.
- BinaryBatch.Store.EfficientWriteBatch: the source's `Offset` field and row count are parameters; the merge is recorded as the payload merged, not as rows.
- WorkerMain.GetPartitionOffsets: requires `maxPart` below the int64 maximum, because the Go loop `i <= maxPart` would never end there; the SQL query is modelled by the rows it returns.
- WorkerMain.Setup: the writer that `NewEfficientWriter` builds is not modelled; setup reports whether it returned one.
- WorkerMain.ScanInt: the flag is read as a string of characters, so fmt's decoding of invalid UTF-8 is not modelled.
- The `Err()` methods of the text source and the efficient source are modelled as constant nil functions; the `pgx.CopyFromSource` interface itself is not.
- Generator.Setup: the protobuf encoding of each batch (`MarshalVT`) and the per-transaction ids are left out.
- StressTest.Synthesize: the request is not sent; k6's thresholds and the HTTP call are left out, and k6's `check` is modelled by `StressTest.Passes`.
- Users.HandleUsers: `r.SetPathValue` is modelled by passing the segment to the lookup; the user store is a map.
- The HTTP handler plumbing (transactions.go, accounts.go, routes.go and the rest), accountstore.go, userstore.go, postgres.go, internal/db/users.go, connect.go, internal/service/db.go, transactionsource.go and multiwriter.go are not part of this model.
- Kafka is modelled only by the `kgo.Record` fields the code reads and by the poll results; franz-go's client, producing, committing and topic listing are parameters.

## Findings

| source | as written | input that shows it | evidently intended | confidence | as-written member | corrected member |
|---|---|---|---|---|---|---|
| internal/api/efficientjson.go:21-31, 47-58 | `count` is set from the decoded body before the 20000 limit is checked, and `tempRecordBatch` is set only after it, so the deferred cleanup calls `rbPtr.Reset(count)` on the 1000-entry pooled batch with the oversized count | a JSON body of 20001 transactions (at most 12,800,000 bytes): `Reset(20001)` indexes `Slab[1000]` and panics | the reset clears only the records the pooled batch can hold | not executed | Ingest.OversizedJsonResetOverruns | Ingest.ResetCount |
| internal/api/proto.go:22-31, 53-60 | the same ordering in the protobuf handler | a protobuf batch of 10001 transactions: `Reset(10001)` on the 1000-entry pooled batch | the same | not executed | Ingest.OversizedProtoResetOverruns | Ingest.ResetCount |
