/** The write-behind ledger shared by every generation of the storage code: accounts keep
    a stored balance, pending transaction rows wait in buffers (buckets or partitions of
    the transactions table), the balance a reader sees is the stored balance plus the sum of
    the account's pending rows, and a flush moves one buffer's sums into the stored balances. */
module Ledger {
  import opened Uuid
  import opened Results
  import opened Model

  /** A row of a transaction buffer; `bucket` is its bucket_id or partition_key column. */
  datatype PendingRow = PendingRow(id: Uuid, accountId: Uuid, amount: int, txType: int, createdAt: int, bucket: int)

  /** The accounts table, keyed by account id. */
  type Accounts = map<Uuid, Account>

  /** SUM(amount) over the rows with the given account_id, 0 when there are none (COALESCE). */
  function PendingSum(rows: seq<PendingRow>, acct: Uuid): (sum: int)
  {
    if rows == [] then 0
    else PendingSum(rows[..|rows| - 1], acct) + (if rows[|rows| - 1].accountId == acct then rows[|rows| - 1].amount else 0)
  }

  lemma {:induction false} PendingSumAppend(a: seq<PendingRow>, b: seq<PendingRow>, acct: Uuid)
    ensures PendingSum(a + b, acct) == PendingSum(a, acct) + PendingSum(b, acct)
  {
    if b == [] {
      assert a + b == a;
    } else {
      assert (a + b)[..|a + b| - 1] == a + b[..|b| - 1];
      PendingSumAppend(a, b[..|b| - 1], acct);
    }
  }

  /** Rows of other accounts add nothing. */
  lemma {:induction false} PendingSumOthers(rows: seq<PendingRow>, acct: Uuid)
    requires forall i :: 0 <= i < |rows| ==> rows[i].accountId != acct
    ensures PendingSum(rows, acct) == 0
  {
    if rows != [] {
      PendingSumOthers(rows[..|rows| - 1], acct);
    }
  }

  /** The sum of an account's rows over every attached buffer: the LEFT JOIN of the
      partitioned transactions table. */
  function PendingTotal(buffers: seq<seq<PendingRow>>, acct: Uuid): (total: int)
  {
    if buffers == [] then 0 else PendingTotal(buffers[..|buffers| - 1], acct) + PendingSum(buffers[|buffers| - 1], acct)
  }

  /** The account a reader sees: stored balance plus every pending amount, or an error
      (pgx.ErrNoRows) for an unknown id. */
  function LiveAccount(accounts: Accounts, buffers: seq<seq<PendingRow>>, id: Uuid): (live: Result<Account>)
  {
    if id in accounts then Ok(accounts[id].(balance := accounts[id].balance + PendingTotal(buffers, id)))
    else Err("no rows in result set")
  }

  /** The aggregate UPDATE: every account gains the sum of its rows in `rows`; rows whose
      account_id matches no account change nothing. */
  function ApplyBuffer(accounts: Accounts, rows: seq<PendingRow>): (updated: Accounts)
  {
    map a | a in accounts :: accounts[a].(balance := accounts[a].balance + PendingSum(rows, a))
  }

  /** The aggregate adds exactly the account's own sum and touches no other field. */
  lemma ApplyBufferEffect(accounts: Accounts, rows: seq<PendingRow>, a: Uuid)
    requires a in accounts
    ensures a in ApplyBuffer(accounts, rows)
    ensures ApplyBuffer(accounts, rows)[a].balance == accounts[a].balance + PendingSum(rows, a)
    ensures ApplyBuffer(accounts, rows)[a].(balance := accounts[a].balance) == accounts[a]
  {
  }

  /** An account with no row in the buffer keeps its balance. */
  lemma ApplyBufferAbsent(accounts: Accounts, rows: seq<PendingRow>, a: Uuid)
    requires a in accounts
    requires forall i :: 0 <= i < |rows| ==> rows[i].accountId != a
    ensures ApplyBuffer(accounts, rows)[a] == accounts[a]
  {
    PendingSumOthers(rows, a);
  }

  /** Rows whose account_id is not an account change nothing. */
  lemma ApplyBufferOrphans(accounts: Accounts, rows: seq<PendingRow>, orphans: seq<PendingRow>)
    requires forall i :: 0 <= i < |orphans| ==> orphans[i].accountId !in accounts
    ensures ApplyBuffer(accounts, rows + orphans) == ApplyBuffer(accounts, rows)
  {
    forall a | a in accounts ensures PendingSum(rows + orphans, a) == PendingSum(rows, a) {
      PendingSumAppend(rows, orphans, a);
      PendingSumOthers(orphans, a);
    }
  }

  /** Emptying buffer k removes exactly its sum from the total. */
  lemma {:induction false} PendingTotalEmptied(buffers: seq<seq<PendingRow>>, k: nat, acct: Uuid)
    requires k < |buffers|
    ensures PendingTotal(buffers[k := []], acct) == PendingTotal(buffers, acct) - PendingSum(buffers[k], acct)
  {
    var n := |buffers| - 1;
    assert buffers[k := []][..n] == if k < n then buffers[..n][k := []] else buffers[..n];
    if k < n {
      PendingTotalEmptied(buffers[..n], k, acct);
    }
  }

  /** Appending rows to buffer k adds exactly their sum to the total. */
  lemma {:induction false} PendingTotalAppended(buffers: seq<seq<PendingRow>>, k: nat, rows: seq<PendingRow>, acct: Uuid)
    requires k < |buffers|
    ensures PendingTotal(buffers[k := buffers[k] + rows], acct) == PendingTotal(buffers, acct) + PendingSum(rows, acct)
  {
    var n := |buffers| - 1;
    var b' := buffers[k := buffers[k] + rows];
    assert b'[..n] == if k < n then buffers[..n][k := buffers[k] + rows] else buffers[..n];
    if k < n {
      PendingTotalAppended(buffers[..n], k, rows, acct);
    } else {
      PendingSumAppend(buffers[k], rows, acct);
    }
  }

  /** The key write-behind invariant: moving buffer k's sums into the stored balances and
      emptying buffer k leaves every account a reader sees unchanged. */
  lemma FlushPreservesLive(accounts: Accounts, buffers: seq<seq<PendingRow>>, k: nat, id: Uuid)
    requires k < |buffers|
    ensures LiveAccount(ApplyBuffer(accounts, buffers[k]), buffers[k := []], id) == LiveAccount(accounts, buffers, id)
  {
    PendingTotalEmptied(buffers, k, id);
  }

  /** Rows of another account never change what a reader sees for `id`. */
  lemma OtherAccountsIgnored(accounts: Accounts, buffers: seq<seq<PendingRow>>, k: nat, rows: seq<PendingRow>, id: Uuid)
    requires k < |buffers|
    requires forall i :: 0 <= i < |rows| ==> rows[i].accountId != id
    ensures LiveAccount(accounts, buffers[k := buffers[k] + rows], id) == LiveAccount(accounts, buffers, id)
  {
    PendingTotalAppended(buffers, k, rows, id);
    PendingSumOthers(rows, id);
  }

  /** With no pending rows at all the reader sees the stored account unchanged. */
  lemma {:induction false} NoPendingRows(accounts: Accounts, buffers: seq<seq<PendingRow>>, id: Uuid)
    requires id in accounts
    requires forall k :: 0 <= k < |buffers| ==> buffers[k] == []
    ensures LiveAccount(accounts, buffers, id) == Ok(accounts[id])
  {
    ZeroTotal(buffers, id);
  }

  lemma {:induction false} ZeroTotal(buffers: seq<seq<PendingRow>>, id: Uuid)
    requires forall k :: 0 <= k < |buffers| ==> buffers[k] == []
    ensures PendingTotal(buffers, id) == 0
  {
    if buffers != [] {
      ZeroTotal(buffers[..|buffers| - 1], id);
    }
  }
}
