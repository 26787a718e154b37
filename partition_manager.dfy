/** internal/storage/partitionmanager.go: the XOR-toggled active partition and the
    rotate-then-process step over the two partitions transactions_p0 and transactions_p1. */
module PartitionManagers {
  import opened Results
  import opened Ledger
  import opened Tables

  /** One second and the Go Duration unit (nanoseconds). */
  const Second: int := 1_000_000_000

  /** The statements pgx.BeginFunc runs, in order; a failure is injected at one of them. */
  datatype Step = Begin | Detach | Update | Truncate | Reattach | Commit

  /** What rotateAndProcess ends with: cancelled during the wait, a logged failure (the
      unit is rolled back), or a processed partition. */
  datatype Rotation = Cancelled | Failed(msg: string) | Processed

  /** current ^ 1 on a two's-complement integer: every bit but the lowest is kept and
      the lowest is flipped. */
  function Xor1(x: int): (r: int)
    ensures r / 2 == x / 2 && r % 2 == 1 - x % 2
    ensures 0 <= x <= 1 ==> r == 1 - x
  {
    x - x % 2 + (1 - x % 2)
  }

  /** x ^ 1 ^ 1 == x. */
  lemma {:induction false} Xor1Twice(x: int)
    ensures Xor1(Xor1(x)) == x
  {
    var r := Xor1(x);
    assert r / 2 == x / 2 && r % 2 == 1 - x % 2;
    var q := Xor1(r);
    assert q / 2 == x / 2 && q % 2 == x % 2;
    assert q == 2 * (q / 2) + q % 2 == 2 * (x / 2) + x % 2 == x;
  }

  /** int16(x): the value congruent to x modulo 2^16 in [-2^15, 2^15). */
  function Int16(x: int): (r: int)
    ensures -32768 <= r < 32768 && (r - x) % 65536 == 0
    ensures -32768 <= x < 32768 ==> r == x
  {
    (x + 32768) % 65536 - 32768
  }

  /** StartRotationWorker: the per-rotation timeout, interval / 2 on a positive Duration
      (time.NewTicker panics on a non-positive interval). */
  function RotationTimeout(interval: int): (t: int)
    requires interval > 0
    ensures 0 <= t && 2 * t <= interval <= 2 * t + 1
  {
    interval / 2
  }

  class PartitionManager {
    const pool: Database
    var activePartition: int

    /** The partition value is 0 or 1 and both partitions exist. */
    ghost predicate Valid()
      reads this, pool
    {
      0 <= activePartition <= 1 && pool.HasBuffers(2)
    }

    /** NewPartitionManager: activePartition keeps its zero value. */
    constructor (pool: Database)
      ensures this.pool == pool && activePartition == 0
    {
      this.pool := pool;
      activePartition := 0;
    }

    /** GetActivePartition: the field truncated to int16. */
    function GetActivePartition(): (p: int)
      reads this
      ensures -32768 <= p < 32768 && (p - activePartition) % 65536 == 0
      ensures 0 <= activePartition <= 1 ==> p == activePartition
    {
      Int16(activePartition)
    }

    /** switchPartition: the single compare-and-swap, which succeeds when nothing else
        writes the field. */
    method SwitchPartition()
      modifies this
      ensures activePartition == Xor1(old(activePartition))
    {
      var current := activePartition;
      var next := Xor1(current);
      activePartition := next;
    }

    /** rotateAndProcess: read the partition key, switch, wait one second (cancelled: the
        context ends first, and the switch stands), then in one database transaction detach
        transactions_p<key>, add each account's sum of amounts there to its balance, truncate
        it and attach it again for the same key. An error rolls everything back and is only
        logged. */
    method RotateAndProcess(cancelled: bool, fail: Option<Step>) returns (partitionKey: int, r: Rotation)
      requires Valid()
      modifies this, pool
      ensures Valid()
      ensures partitionKey == old(activePartition) && activePartition == 1 - partitionKey
      ensures r == Cancelled <==> cancelled
      ensures r == Processed <==> !cancelled && fail.None?
      ensures r == Processed ==> (pool.accounts == ApplyBuffer(old(pool.accounts), old(pool.buffers)[partitionKey])
                              && pool.buffers == old(pool.buffers)[partitionKey := []])
      ensures r != Processed ==> pool.accounts == old(pool.accounts) && pool.buffers == old(pool.buffers)
    {
      partitionKey := GetActivePartition();
      SwitchPartition();
      if cancelled {
        return partitionKey, Cancelled;
      }
      if fail == Some(Begin) {
        return partitionKey, Failed("begin failed");
      }
      // The transaction's view; only the commit publishes it.
      var accounts, buffers := pool.accounts, pool.buffers;
      if fail == Some(Detach) {
        return partitionKey, Failed("detach failed");
      }
      var detached := buffers[partitionKey];
      if fail == Some(Update) {
        return partitionKey, Failed("update failed");
      }
      accounts := ApplyBuffer(accounts, detached);
      if fail == Some(Truncate) {
        return partitionKey, Failed("truncate failed");
      }
      buffers := buffers[partitionKey := []];
      if fail == Some(Reattach) {
        return partitionKey, Failed("reattach failed");
      }
      if fail.Some? {
        assert fail.value == Commit;
        return partitionKey, Failed("commit failed");
      }
      pool.accounts, pool.buffers := accounts, buffers;
      return partitionKey, Processed;
    }

    /** One tick of the rotation worker: rotateAndProcess under a context whose deadline is
        RotationTimeout(interval) away. That context is created before the one-second timer,
        so it ends first unless the timeout exceeds one second. */
    method RotationTick(interval: int, fail: Option<Step>) returns (partitionKey: int, r: Rotation)
      requires interval > 0 && Valid()
      modifies this, pool
      ensures Valid() && partitionKey == old(activePartition) && activePartition == 1 - partitionKey
      ensures r == Cancelled <==> interval < 2 * Second + 2
      ensures r == Processed <==> interval >= 2 * Second + 2 && fail.None?
      ensures r == Processed ==> (pool.accounts == ApplyBuffer(old(pool.accounts), old(pool.buffers)[partitionKey])
                              && pool.buffers == old(pool.buffers)[partitionKey := []])
      ensures r != Processed ==> pool.accounts == old(pool.accounts) && pool.buffers == old(pool.buffers)
    {
      var timeout := RotationTimeout(interval);
      partitionKey, r := RotateAndProcess(timeout <= Second, fail);
    }
  }
}
