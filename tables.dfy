/** The database state the storage code works on, abstracted from SQL: the accounts table
    and a transactions table list-partitioned into write-behind buffers. buffers[k] holds the
    rows of partition k (tx_buf_<k> for internal/db, transactions_p<k> for the partition
    manager, transactions_<k> for the write-behind worker). */
module Tables {
  import opened Ledger

  class Database {
    var accounts: Accounts
    var buffers: seq<seq<PendingRow>>

    /** The database has exactly n buffer partitions, numbered 0 .. n-1. */
    ghost predicate HasBuffers(n: nat)
      reads this
    {
      |buffers| == n
    }

    constructor (n: nat)
      ensures HasBuffers(n) && accounts == map[]
      ensures forall k :: 0 <= k < n ==> buffers[k] == []
    {
      accounts := map[];
      buffers := seq(n, _ => []);
    }
  }
}
