/** internal/db/transactions.go: TransactionsRepo, the bucket flush and the batch copy. */
module DbTransactions {
  import opened Uuid
  import opened Results
  import opened Model
  import opened Ledger
  import opened Tables

  /** The statements of FlushBucket, in order; a failure is injected at one of them. */
  datatype FlushStep = Begin | Detach | Update | Truncate | Attach | Commit

  /** Accepted bucket ids. */
  predicate IsBucket(bucketId: int) { bucketId == 0 || bucketId == 1 }

  /** The first row with the given id in the given buffers. */
  function FindRow(buffers: seq<seq<PendingRow>>, id: Uuid): (r: Option<PendingRow>)
    ensures r.None? <==> forall k, i :: 0 <= k < |buffers| && 0 <= i < |buffers[k]| ==> buffers[k][i].id != id
    ensures r.Some? ==> r.value.id == id && exists k, i :: 0 <= k < |buffers| && 0 <= i < |buffers[k]| && buffers[k][i] == r.value
  {
    if buffers == [] then None
    else
      var rest := FindRow(buffers[1..], id);
      assert forall k, i :: 1 <= k < |buffers| && 0 <= i < |buffers[k]| ==> buffers[k][i] == buffers[1..][k - 1][i];
      match FindInRows(buffers[0], id)
      case Some(row) => Some(row)
      case None =>
        if rest.Some? then
          ghost var k, i :| 0 <= k < |buffers[1..]| && 0 <= i < |buffers[1..][k]| && buffers[1..][k][i] == rest.value;
          assert buffers[k + 1][i] == rest.value;
          rest
        else None
  }

  function FindInRows(rows: seq<PendingRow>, id: Uuid): (r: Option<PendingRow>)
    ensures r.None? <==> forall i :: 0 <= i < |rows| ==> rows[i].id != id
    ensures r.Some? ==> r.value.id == id && r.value in rows
  {
    if rows == [] then None else if rows[0].id == id then Some(rows[0]) else FindInRows(rows[1..], id)
  }

  function AsTransaction(row: PendingRow): (t: Transaction)
  {
    Transaction(row.id, row.accountId, row.amount, row.txType, row.createdAt)
  }

  class TransactionsRepo {
    const pool: Database

    constructor (pool: Database)
      ensures this.pool == pool
    {
      this.pool := pool;
    }

    /** GetTransaction: a row with that id from the transactions table; none is an error,
        and so is a failed QueryRow or Scan (`queryFails`). */
    function GetTransaction(id: Uuid, queryFails: bool): (r: Result<Transaction>)
      reads pool
      ensures queryFails ==> r.Err?
      ensures r.Err? <==> (queryFails ||
        forall k, i :: 0 <= k < |pool.buffers| && 0 <= i < |pool.buffers[k]| ==> pool.buffers[k][i].id != id)
      ensures r.Ok? ==> (r.value.id == id &&
        exists k, i :: 0 <= k < |pool.buffers| && 0 <= i < |pool.buffers[k]| && AsTransaction(pool.buffers[k][i]) == r.value)
    {
      if queryFails then Err("query failed")
      else
        match FindRow(pool.buffers, id)
        case None => Err("no rows in result set")
        case Some(row) => Ok(AsTransaction(row))
    }

    /** CreateTransaction with the drawn id and the clock as parameters. The INSERT goes to
        the parent table, which routes it by bucket_id. Exec's error is returned: a failed
        statement (`execFails`), or a bucket id without a partition, adds nothing. */
    method CreateTransaction(accountId: Uuid, transactionType: int, amount: int, bucketId: int,
                             newId: Option<Uuid>, now: int, execFails: bool) returns (r: Result<Transaction>)
      requires pool.HasBuffers(2)
      modifies pool
      ensures pool.HasBuffers(2) && pool.accounts == old(pool.accounts)
      ensures r.Ok? <==> newId.Some? && !execFails && IsBucket(bucketId)
      ensures execFails ==> r.Err? && pool.buffers == old(pool.buffers)
      ensures r.Ok? ==> r.value == Transaction(newId.value, accountId, amount, transactionType, now)
      ensures r.Ok? ==> pool.buffers == old(pool.buffers)[bucketId := old(pool.buffers)[bucketId] +
                         [PendingRow(newId.value, accountId, amount, transactionType, now, bucketId)]]
      ensures r.Err? ==> pool.buffers == old(pool.buffers)
    {
      if newId.None? {
        return Err("uuid generation failed");
      }
      var t := Transaction(newId.value, accountId, amount, transactionType, now);
      if execFails {
        return Err("exec failed");
      }
      if !IsBucket(bucketId) {
        return Err("no partition of relation \"transactions\" found for row");
      }
      var row := PendingRow(t.id, t.accountId, t.amount, t.txType, t.createdAt, bucketId);
      pool.buffers := pool.buffers[bucketId := pool.buffers[bucketId] + [row]];
      return Ok(t);
    }

    /** FlushBucket: reject a bucket id other than 0 or 1 before any database work, then in one
        database transaction detach tx_buf_<b>, add each account's sum of amounts in it to the
        stored balance, truncate it and attach it again for the same value; `fail` names the
        statement that fails, if any, and the deferred rollback then undoes everything. */
    method FlushBucket(bucketId: int, fail: Option<FlushStep>) returns (err: Outcome)
      requires pool.HasBuffers(2)
      modifies pool
      ensures pool.HasBuffers(2)
      ensures err == Nil <==> IsBucket(bucketId) && fail.None?
      ensures err == Nil ==> (pool.accounts == ApplyBuffer(old(pool.accounts), old(pool.buffers)[bucketId])
                          && pool.buffers == old(pool.buffers)[bucketId := []])
      ensures err != Nil ==> pool.accounts == old(pool.accounts) && pool.buffers == old(pool.buffers)
    {
      if !IsBucket(bucketId) {
        return Fail("invalid bucketId");
      }
      if fail == Some(Begin) {
        return Fail("begin failed");
      }
      // Work on the transaction's view; only Commit publishes it.
      var accounts, buckets := pool.accounts, pool.buffers;
      if fail == Some(Detach) {
        return Fail("detach failed");
      }
      var detached := buckets[bucketId];
      if fail == Some(Update) {
        return Fail("update failed");
      }
      accounts := ApplyBuffer(accounts, detached);
      if fail == Some(Truncate) {
        return Fail("truncate failed");
      }
      buckets := buckets[bucketId := []];
      if fail == Some(Attach) {
        return Fail("attach failed");
      }
      if fail.Some? {
        assert fail.value == Commit;
        return Fail("commit failed");
      }
      pool.accounts, pool.buffers := accounts, buckets;
      return Nil;
    }

    /** BatchProcess: reject a bucket id other than 0 or 1, then COPY every transaction with
        its fields unchanged and bucket_id = bucketId straight into tx_buf_<b>. `copied` is
        the driver's answer: None for a COPY error (nothing inserted), Some(n) for n rows
        reported; a count other than len(txs) is an error although the rows are in. */
    method BatchProcess(txs: seq<Transaction>, bucketId: int, copied: Option<int>) returns (err: Outcome)
      requires pool.HasBuffers(2)
      modifies pool
      ensures pool.HasBuffers(2) && pool.accounts == old(pool.accounts)
      ensures err == Nil <==> IsBucket(bucketId) && copied == Some(|txs|)
      ensures IsBucket(bucketId) && copied.Some? ==>
        pool.buffers == old(pool.buffers)[bucketId := old(pool.buffers)[bucketId] + CopyRows(txs, bucketId)]
      ensures !IsBucket(bucketId) || copied.None? ==> pool.buffers == old(pool.buffers)
    {
      if !IsBucket(bucketId) {
        return Fail("invalid bucketId");
      }
      var rows: seq<PendingRow> := [];
      var i := 0;
      while i < |txs|
        invariant 0 <= i <= |txs|
        invariant rows == CopyRows(txs[..i], bucketId)
      {
        var t := txs[i];
        rows := rows + [PendingRow(t.id, t.accountId, t.amount, t.txType, t.createdAt, bucketId)];
        assert txs[..i + 1] == txs[..i] + [t];
        i := i + 1;
      }
      assert txs[..i] == txs;
      if copied.None? {
        return Fail("copy failed");
      }
      pool.buffers := pool.buffers[bucketId := pool.buffers[bucketId] + rows];
      if copied.value != |txs| {
        return Fail("expected to insert len(txs) rows");
      }
      return Nil;
    }
  }

  /** The rows CopyFromSlice produces: transaction i's fields in column order, tagged with the bucket. */
  function CopyRows(txs: seq<Transaction>, bucketId: int): (rows: seq<PendingRow>)
    ensures |rows| == |txs|
    ensures forall i :: 0 <= i < |txs| ==> AsTransaction(rows[i]) == txs[i] && rows[i].bucket == bucketId
  {
    if txs == [] then []
    else
      var last := txs[|txs| - 1];
      CopyRows(txs[..|txs| - 1], bucketId) + [PendingRow(last.id, last.accountId, last.amount, last.txType, last.createdAt, bucketId)]
  }

  /** A successful flush of either bucket leaves every account GetAccount reports unchanged. */
  lemma FlushKeepsAccountView(accounts: Accounts, buckets: seq<seq<PendingRow>>, bucketId: int, id: Uuid)
    requires |buckets| == 2 && IsBucket(bucketId)
    ensures LiveAccount(ApplyBuffer(accounts, buckets[bucketId]), buckets[bucketId := []], id) == LiveAccount(accounts, buckets, id)
  {
    FlushPreservesLive(accounts, buckets, bucketId, id);
  }

  /** Copying a batch into a bucket raises each account's reported balance by exactly the
      sum of its amounts in the batch. */
  lemma BatchRaisesView(accounts: Accounts, buckets: seq<seq<PendingRow>>, txs: seq<Transaction>, bucketId: int, id: Uuid)
    requires |buckets| == 2 && IsBucket(bucketId) && id in accounts
    ensures LiveAccount(accounts, buckets[bucketId := buckets[bucketId] + CopyRows(txs, bucketId)], id).value.balance
         == LiveAccount(accounts, buckets, id).value.balance + PendingSum(CopyRows(txs, bucketId), id)
  {
    PendingTotalAppended(buckets, bucketId, CopyRows(txs, bucketId), id);
  }
}
