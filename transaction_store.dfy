/** internal/storage/transactionstore.go: the TransactionStore of the partitioned ledger. Rows
    go into transactions_p<k> for the active partition k its PartitionProvider (the partition
    manager) reports, read once per call. The partitions are the buffers of the shared
    Tables.Database; the text COPY reads a pooled TransactionCopySource; the two binary
    variants frame opaque row encodings and hand the buffer to COPY ... FORMAT BINARY. uuid.NewV7,
    rand.Uint32, time.Now and the database's failures are parameters. */
module TransactionStores {
  import opened Bytes
  import opened Results
  import opened Uuid
  import opened Model
  import opened Ledger
  import opened Tables
  import opened DbTransactions
  import Text
  import opened CopySources
  import opened CopyFormat
  import opened PartitionManagers

  /** The partition table a key names: fmt.Sprintf("transactions_p%d", k). */
  function PartitionTable(k: int): (name: string)
  {
    "transactions_p" + Text.IntToString(k)
  }

  /** Different partitions name different tables. */
  lemma PartitionTablesDistinct(j: nat, k: nat)
    requires j != k
    ensures PartitionTable(j) != PartitionTable(k)
  {
    if PartitionTable(j) == PartitionTable(k) {
      var p := "transactions_p";
      assert PartitionTable(j)[|p|..] == Text.NatToString(j);
      assert PartitionTable(k)[|p|..] == Text.NatToString(k);
      Text.NatToStringInjective(j, k);
    }
  }

  /** The statement of a binary copy into partition k. */
  function BinaryCopySql(k: int): (sql: string)
  {
    "COPY " + PartitionTable(k) + " FROM STDIN WITH (FORMAT BINARY)"
  }

  /** What a binary variant hands to the connection. */
  datatype CopyCommand = CopyBinary(sql: string, buf: seq<byte>)

  /** The row a COPY of six values stores: the columns in their declared order. */
  function Stored(v: seq<Value>): (r: PendingRow)
    requires |v| == 6 && v[0].UuidValue? && v[1].UuidValue? && v[2].IntValue? && v[3].IntValue?
    requires v[4].TimeValue? && v[5].IntValue?
  {
    PendingRow(v[0].u, v[1].u, v[2].i, v[3].i, v[4].t, v[5].i)
  }

  /** The rows a text COPY of `txs` stores in partition k: request i with the (i+1)-th id
      stamped from the base UUID and seed, the call's timestamp and partition_key k. */
  function CopiedRows(txs: seq<CreateTransactionRequest>, base: Uuid, seed: nat, now: int, k: int): (rows: seq<PendingRow>)
    ensures |rows| == |txs|
  {
    seq(|txs|, i requires 0 <= i < |txs| => Stored(Row(IdAt(base, seed, i + 1), txs[i], now, k)))
  }

  /** Every copied row keeps its request's account, amount and type, and carries the call's
      one partition key and timestamp. */
  lemma CopiedRowFields(txs: seq<CreateTransactionRequest>, base: Uuid, seed: nat, now: int, k: int, i: nat)
    requires i < |txs|
    ensures var r := CopiedRows(txs, base, seed, now, k)[i];
      r.accountId == txs[i].accountId && r.amount == txs[i].amount && r.txType == txs[i].txType
      && r.createdAt == now && r.bucket == k && r.id == IdAt(base, seed, i + 1)
  {
  }

  /** A batch copied into a partition raises an account's live balance by exactly the batch's
      amounts for that account. */
  lemma BatchRaisesLiveBalance(accounts: Accounts, buffers: seq<seq<PendingRow>>, k: nat, rows: seq<PendingRow>, id: Uuid)
    requires k < |buffers| && id in accounts
    ensures LiveAccount(accounts, buffers[k := buffers[k] + rows], id).Ok?
    ensures LiveAccount(accounts, buffers[k := buffers[k] + rows], id).value.balance ==
      LiveAccount(accounts, buffers, id).value.balance + PendingSum(rows, id)
  {
    PendingTotalAppended(buffers, k, rows, id);
  }

  /** GetTransaction: a failed query is an error; no matching row is (nil, nil), not an error;
      a scan failure is an error; otherwise the row. */
  function GetTransaction(buffers: seq<seq<PendingRow>>, id: Uuid, queryFails: bool, scanFails: bool)
    : (r: (Option<Transaction>, Outcome))
    ensures queryFails ==> r.0.None? && r.1.Fail?
    ensures !queryFails && (forall k, i :: 0 <= k < |buffers| && 0 <= i < |buffers[k]| ==> buffers[k][i].id != id) ==> r == (None, Nil)
    ensures !queryFails && scanFails && FindRow(buffers, id).Some? ==> r.0.None? && r.1.Fail?
    ensures r.0.Some? <==> !queryFails && !scanFails && FindRow(buffers, id).Some?
    ensures r.0.Some? ==> r.0.value.id == id && r.1 == Nil
    ensures r.0.Some? ==> exists k, i :: 0 <= k < |buffers| && 0 <= i < |buffers[k]| && r.0.value == AsTransaction(buffers[k][i])
  {
    if queryFails then (None, Fail("query failed"))
    else
      var row := FindRow(buffers, id);
      if row.None? then (None, Nil)
      else if scanFails then (None, Fail("scan failed"))
      else (Some(AsTransaction(row.value)), Nil)
  }

  class TransactionStore {
    const db: Database
    const provider: PartitionManager

    constructor (db: Database, provider: PartitionManager)
      ensures this.db == db && this.provider == provider
    {
      this.db := db;
      this.provider := provider;
    }

    /** The store sees the provider's two partitions as the database's buffers. */
    ghost predicate Valid()
      reads this, provider, provider.pool, db
    {
      provider.Valid() && provider.pool == db
    }

    /** CreateTransaction: a failed NewV7 is returned before anything else; otherwise one row
        goes into the active partition unless the insert fails. */
    method CreateTransaction(tx: CreateTransactionRequest, draw: Option<Uuid>, now: int, insertFails: bool)
      returns (err: Outcome)
      requires Valid()
      modifies db
      ensures Valid()
      ensures err == Nil <==> draw.Some? && !insertFails
      ensures err == Nil ==> (var k := provider.activePartition;
        db.buffers == old(db.buffers)[k := old(db.buffers)[k] + [PendingRow(draw.value, tx.accountId, tx.amount, tx.txType, now, k)]])
      ensures err != Nil ==> db.buffers == old(db.buffers)
      ensures db.accounts == old(db.accounts)
    {
      if draw.None? {
        return Fail("uuid generation failed");
      }
      var k := provider.GetActivePartition();
      if insertFails {
        return Fail("insert failed");
      }
      db.buffers := db.buffers[k := db.buffers[k] + [PendingRow(draw.value, tx.accountId, tx.amount, tx.txType, now, k)]];
      err := Nil;
    }

    /** CreateBatchTransaction: an empty batch is (0, nil) with nothing touched. Otherwise the
        pooled source src is loaded with the batch, the active partition, uid, seed and now;
        COPY reads it into transactions_p<k> and returns the row count; the deferred cleanup
        clears the source's rows. A failed COPY stores nothing and counts 0. */
    method CreateBatchTransaction(txs: seq<CreateTransactionRequest>, src: TransactionCopySource,
                                  uid: Uuid, seed: nat, now: int, copyFails: bool)
      returns (count: int, err: Outcome)
      requires Valid() && seed < TWO_32
      modifies db, src
      ensures Valid() && db.accounts == old(db.accounts)
      ensures |txs| == 0 ==> count == 0 && err == Nil && db.buffers == old(db.buffers) && src.rows == old(src.rows)
      ensures |txs| > 0 && !copyFails ==> count == |txs| && err == Nil
      ensures |txs| > 0 && !copyFails ==> (var k := provider.activePartition;
        db.buffers == old(db.buffers)[k := old(db.buffers)[k] + CopiedRows(txs, uid, seed, now, k)])
      ensures |txs| > 0 && copyFails ==> count == 0 && err.Fail? && db.buffers == old(db.buffers)
      ensures |txs| > 0 ==> src.rows == [] && src.partitionKey == provider.activePartition
    {
      if |txs| == 0 {
        return 0, Nil;
      }
      var k := provider.GetActivePartition();
      src.rows := txs;
      src.pos := 0;
      src.now := now;
      src.partitionKey := k;
      src.baseUuid := uid;
      src.seed := seed;
      if copyFails {
        src.rows := [];
        return 0, Fail("copy failed");
      }
      var copied, _ := CopyAll(src);
      var rows := seq(|copied|, i requires 0 <= i < |copied| => Stored(copied[i]));
      assert rows == CopiedRows(txs, uid, seed, now, k);
      db.buffers := db.buffers[k := db.buffers[k] + rows];
      src.rows := [];
      return |copied|, Nil;
    }

    /** CreateBinaryBatchTransaction: an empty batch is (0, nil). Otherwise the COPY buffer is
        the frame of the rows' encodings (chunks[i] is what EncodeRowBinary appends for
        txs[i]) and goes to COPY transactions_p<k>; a failed Acquire returns 0, and once the
        copy is attempted the count is len(txs) whether it succeeded or not. */
    method CreateBinaryBatchTransaction(txs: seq<CreateTransactionRequest>, chunks: seq<seq<byte>>,
                                        acquireFails: bool, copyFails: bool)
      returns (count: int, err: Outcome, command: Option<CopyCommand>)
      requires |chunks| == |txs|
      ensures |txs| == 0 ==> count == 0 && err == Nil && command.None?
      ensures |txs| > 0 && acquireFails ==> count == 0 && err.Fail? && command.None?
      ensures |txs| > 0 && !acquireFails ==> count == |txs| && (err == Nil <==> !copyFails)
      ensures |txs| > 0 && !acquireFails ==>
        command == Some(CopyBinary(BinaryCopySql(provider.GetActivePartition()), Frame(Concat(chunks))))
    {
      count, err, command := BinaryCopy(|txs|, chunks, provider.GetActivePartition(), acquireFails, copyFails);
    }

    /** CreateProtoBinaryBatchTransaction: the same steps over the protobuf batch's
        transactions, whose encodings are chunks. */
    method CreateProtoBinaryBatchTransaction(txs: seq<ProtoTransaction>, chunks: seq<seq<byte>>,
                                             acquireFails: bool, copyFails: bool)
      returns (count: int, err: Outcome, command: Option<CopyCommand>)
      requires |chunks| == |txs|
      ensures |txs| == 0 ==> count == 0 && err == Nil && command.None?
      ensures |txs| > 0 && acquireFails ==> count == 0 && err.Fail? && command.None?
      ensures |txs| > 0 && !acquireFails ==> count == |txs| && (err == Nil <==> !copyFails)
      ensures |txs| > 0 && !acquireFails ==>
        command == Some(CopyBinary(BinaryCopySql(provider.GetActivePartition()), Frame(Concat(chunks))))
    {
      count, err, command := BinaryCopy(|txs|, chunks, provider.GetActivePartition(), acquireFails, copyFails);
    }
  }

  /** A transaction of a pb.TransactionBatch; its fields only reach the opaque encoding. */
  datatype ProtoTransaction = ProtoTransaction(accountId: seq<byte>, amount: int, txType: int)

  /** The steps both binary variants share after the empty check. */
  method BinaryCopy(n: nat, chunks: seq<seq<byte>>, k: int, acquireFails: bool, copyFails: bool)
    returns (count: int, err: Outcome, command: Option<CopyCommand>)
    requires |chunks| == n
    ensures n == 0 ==> count == 0 && err == Nil && command.None?
    ensures n > 0 && acquireFails ==> count == 0 && err.Fail? && command.None?
    ensures n > 0 && !acquireFails ==> count == n && (err == Nil <==> !copyFails)
    ensures n > 0 && !acquireFails ==> command == Some(CopyBinary(BinaryCopySql(k), Frame(Concat(chunks))))
  {
    if n == 0 {
      return 0, Nil, None;
    }
    var buf := BuildFrame(chunks);
    if acquireFails {
      return 0, Fail("acquire failed"), None;
    }
    command := Some(CopyBinary(BinaryCopySql(k), buf));
    err := if copyFails then Fail("copy failed") else Nil;
    count := n;
  }
}
