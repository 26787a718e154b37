/** internal/worker/writebehind.go: a worker that cycles a cursor over the partitions
    transactions_<min> .. transactions_<max> and folds one partition per tick into the
    account balances. */
module WriteBehind {
  import opened Results
  import opened Ledger
  import opened Tables
  import Bytes

  /** The database calls of writeBehind, in order; a failure is injected at one of them. */
  datatype WbStep = Exists | Begin | Update | Truncate | Commit

  /** What writeBehind ends with. A failed Begin leaves tx nil, and the Rollback deferred
      before the error check then calls a method on a nil interface: a panic, not an error. */
  datatype WbResult = Done | Failed(what: string, partition: int) | Panicked

  /** The cursor after one tick: idx+1, wrapped to min once it passes max. */
  function NextCursor(idx: int, min: int, max: int): (r: int)
    ensures min <= idx <= max ==> min <= r <= max
    ensures r == min || r == idx + 1
  {
    if idx + 1 > max then min else idx + 1
  }

  /** The cursor after k ticks from a fresh worker. */
  function CursorAfter(min: int, max: int, k: nat): (cursor: int)
  {
    if k == 0 then min else NextCursor(CursorAfter(min, max, k - 1), min, max)
  }

  /** With min <= max the ticks visit min, min+1, ..., max, min, ... */
  lemma {:induction false} CursorCycles(min: int, max: int, k: nat)
    requires min <= max
    ensures CursorAfter(min, max, k) == min + k % (max - min + 1)
  {
    if k > 0 {
      CursorCycles(min, max, k - 1);
      ModSucc(k, max - min + 1);
    }
  }

  /** k % n from (k - 1) % n: one more, or back to 0 after n - 1. */
  lemma ModSucc(k: nat, n: int)
    requires n > 0 && k > 0
    ensures k % n == if (k - 1) % n == n - 1 then 0 else (k - 1) % n + 1
  {
    var q, r := (k - 1) / n, (k - 1) % n;
    assert k - 1 == q * n + r;
    if r == n - 1 {
      assert k == (q + 1) * n + 0;
      Bytes.ModOfDecomposition(k, q + 1, 0, n);
    } else {
      Bytes.ModOfDecomposition(k, q, r + 1, n);
    }
  }

  class WriteBehindWorker {
    const pool: Database
    const minPartition: int
    const maxPartition: int
    var idx: int

    /** NewWriteBehindWorker: the cursor starts at minPartition. */
    constructor (pool: Database, minPartition: int, maxPartition: int)
      ensures this.pool == pool && this.minPartition == minPartition && this.maxPartition == maxPartition
      ensures idx == minPartition
    {
      this.pool := pool;
      this.minPartition := minPartition;
      this.maxPartition := maxPartition;
      idx := minPartition;
    }

    /** writeBehind(i): check whether transactions_<i> has a row; if it has, in one
        transaction add each account's sum of amounts there to its balance and truncate it.
        A partition that does not exist fails the existence query. */
    method WriteBehindPartition(i: int, fail: Option<WbStep>) returns (r: WbResult)
      modifies pool
      ensures |pool.buffers| == old(|pool.buffers|)
      ensures r.Failed? ==> r.partition == i
      ensures r == Panicked <==> 0 <= i < |pool.buffers| && old(pool.buffers)[i] != [] && fail == Some(Begin)
      ensures r == Done <==> (fail != Some(Exists) && 0 <= i < |pool.buffers|
                              && (old(pool.buffers)[i] == [] || fail.None?))
      ensures r == Done && 0 <= i < |pool.buffers| && old(pool.buffers)[i] != [] ==>
        pool.accounts == ApplyBuffer(old(pool.accounts), old(pool.buffers)[i]) && pool.buffers == old(pool.buffers)[i := []]
      ensures r != Done || old(pool.buffers)[i] == [] ==>
        pool.accounts == old(pool.accounts) && pool.buffers == old(pool.buffers)
    {
      if fail == Some(Exists) || !(0 <= i < |pool.buffers|) {
        return Failed("failed to check existence of transactions", i);
      }
      if pool.buffers[i] == [] {
        return Done;
      }
      if fail == Some(Begin) {
        return Panicked;
      }
      var accounts, buffers := pool.accounts, pool.buffers;
      if fail == Some(Update) {
        return Failed("failed to update accounts", i);
      }
      accounts := ApplyBuffer(accounts, buffers[i]);
      if fail == Some(Truncate) {
        return Failed("failed to clear transactions", i);
      }
      buffers := buffers[i := []];
      if fail.Some? {
        assert fail.value == Commit;
        return Failed("failed to write behind", i);
      }
      pool.accounts, pool.buffers := accounts, buffers;
      return Done;
    }

    /** One tick of run: write behind the cursor's partition, log the outcome, then advance
        the cursor whatever the outcome. */
    method Tick(fail: Option<WbStep>) returns (partition: int, r: WbResult)
      modifies this, pool
      ensures partition == old(idx)
      ensures r != Panicked ==> idx == NextCursor(partition, minPartition, maxPartition)
      ensures forall id :: LiveAccount(pool.accounts, pool.buffers, id) == LiveAccount(old(pool.accounts), old(pool.buffers), id)
    {
      partition := idx;
      r := WriteBehindPartition(partition, fail);
      if r == Panicked {
        return;
      }
      forall id: Uuid.Uuid
        ensures LiveAccount(pool.accounts, pool.buffers, id) == LiveAccount(old(pool.accounts), old(pool.buffers), id)
      {
        if 0 <= partition < |old(pool.buffers)| && old(pool.buffers)[partition] != [] {
          FlushPreservesLive(old(pool.accounts), old(pool.buffers), partition, id);
        }
      }
      idx := idx + 1;
      if idx > maxPartition {
        idx := minPartition;
      }
    }

    /** run over a finite run of ticks, stopping at a panic: the cursor advances once per
        completed tick and the live balance view never changes. */
    method Run(fails: seq<Option<WbStep>>) returns (ticks: nat)
      requires idx == minPartition
      modifies this, pool
      ensures ticks <= |fails|
      ensures idx == CursorAfter(minPartition, maxPartition, ticks) || ticks < |fails|
      ensures forall id :: LiveAccount(pool.accounts, pool.buffers, id) == LiveAccount(old(pool.accounts), old(pool.buffers), id)
    {
      ticks := 0;
      while ticks < |fails|
        invariant ticks <= |fails| && idx == CursorAfter(minPartition, maxPartition, ticks)
        invariant forall id :: LiveAccount(pool.accounts, pool.buffers, id) == LiveAccount(old(pool.accounts), old(pool.buffers), id)
      {
        var p, r := Tick(fails[ticks]);
        if r == Panicked {
          return;
        }
        ticks := ticks + 1;
      }
    }
  }
}
