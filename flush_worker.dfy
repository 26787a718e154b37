/** internal/worker/flush_worker.go: the two-bucket toggle and the flush routine, run
    sequentially. Each select round of flushRoutine is one event. */
module FlushWorkers {
  import opened Results
  import opened Ledger
  import opened Tables
  import opened DbTransactions

  /** What one round of flushRoutine's outer select sees: a tick (with the statement at which
      the flush will fail, if any), a tick whose 100 ms wait is cut short by cancellation, or
      cancellation while idle. */
  datatype FlushEvent = Tick(fail: Option<FlushStep>) | CancelDuringWait | Cancel

  /** The compare-and-swap target: 1 - current. */
  function Toggle(b: int): (r: int)
    ensures IsBucket(b) ==> IsBucket(r) && r != b
  {
    1 - b
  }

  /** Switching twice restores the original bucket. */
  lemma ToggleTwice(b: int)
    ensures Toggle(Toggle(b)) == b
  {
  }

  /** The database after FlushBucket(b) with the given failure: the flushed state on
      success, the old state after the rollback otherwise. */
  function FlushResult(accounts: Accounts, buffers: seq<seq<PendingRow>>, b: int, fail: Option<FlushStep>)
    : (r: (Accounts, seq<seq<PendingRow>>))
    requires |buffers| == 2
    ensures |r.1| == 2
    ensures !IsBucket(b) || fail.Some? ==> r == (accounts, buffers)
    ensures IsBucket(b) && fail.None? ==> r == (ApplyBuffer(accounts, buffers[b]), buffers[b := []])
  {
    if IsBucket(b) && fail.None? then (ApplyBuffer(accounts, buffers[b]), buffers[b := []])
    else (accounts, buffers)
  }

  /** The buckets flushRoutine hands to FlushBucket, in order, from active bucket a. */
  function FlushSchedule(a: int, events: seq<FlushEvent>): (flushed: seq<int>)
    ensures |flushed| <= |events|
    ensures IsBucket(a) ==> forall k :: 0 <= k < |flushed| ==> IsBucket(flushed[k])
    decreases |events|
  {
    if events == [] then []
    else match events[0]
      case Tick(_) => [a] + FlushSchedule(Toggle(a), events[1..])
      case CancelDuringWait => []
      case Cancel => []
  }

  /** The active bucket when flushRoutine returns (or runs out of events). */
  function ActiveAfter(a: int, events: seq<FlushEvent>): (r: int)
    ensures IsBucket(a) ==> IsBucket(r)
    decreases |events|
  {
    if events == [] then a
    else match events[0]
      case Tick(_) => ActiveAfter(Toggle(a), events[1..])
      case CancelDuringWait => Toggle(a)
      case Cancel => a
  }

  /** The database when flushRoutine returns (or runs out of events). */
  function RoutineState(accounts: Accounts, buffers: seq<seq<PendingRow>>, a: int, events: seq<FlushEvent>)
    : (r: (Accounts, seq<seq<PendingRow>>))
    requires |buffers| == 2
    ensures |r.1| == 2
    decreases |events|
  {
    if events == [] then (accounts, buffers)
    else match events[0]
      case Tick(fail) =>
        var s := FlushResult(accounts, buffers, a, fail);
        RoutineState(s.0, s.1, Toggle(a), events[1..])
      case CancelDuringWait => (accounts, buffers)
      case Cancel => (accounts, buffers)
  }

  class FlushWorker {
    const flushable: TransactionsRepo
    var activeBucket: int
    var started: bool

    /** The active bucket is 0 or 1 and the flushed database has the two buffers. */
    ghost predicate Valid()
      reads this, flushable, flushable.pool
    {
      IsBucket(activeBucket) && flushable.pool.HasBuffers(2)
    }

    /** NewFlushWorker: the active bucket starts at 0 and the routine is not started. */
    constructor (flushable: TransactionsRepo)
      ensures this.flushable == flushable && activeBucket == 0 && !started
    {
      this.flushable := flushable;
      activeBucket := 0;
      started := false;
    }

    /** GetActiveBucket: the bucket new transactions go to, always 0 or 1. */
    function GetActiveBucket(): (b: int)
      requires Valid()
      reads this, flushable, flushable.pool
      ensures IsBucket(b) && b == activeBucket
    {
      activeBucket
    }

    /** switchActiveBucket: the compare-and-swap loop, whose first attempt succeeds when
        nothing else writes the field. */
    method SwitchActiveBucket()
      modifies this
      ensures activeBucket == Toggle(old(activeBucket)) && started == old(started)
    {
      var current := activeBucket;
      activeBucket := 1 - current;
    }

    /** Start: sync.Once, so the routine is launched by the first call only. */
    method Start() returns (launched: bool)
      modifies this
      ensures launched == !old(started) && started && activeBucket == old(activeBucket)
    {
      launched := !started;
      started := true;
    }

    /** One tick of flushRoutine: read the active bucket, switch, wait (cancelled: the context
        ends during the wait, and the routine returns without flushing), then flush the bucket
        read before the switch. A flush error is only logged. */
    method FlushTick(fail: Option<FlushStep>, cancelled: bool) returns (bucketId: int, stop: bool)
      requires Valid()
      modifies this, flushable.pool
      ensures Valid() && started == old(started)
      ensures bucketId == old(activeBucket) && activeBucket == Toggle(bucketId) && bucketId != activeBucket
      ensures stop == cancelled
      ensures cancelled ==> (flushable.pool.accounts == old(flushable.pool.accounts)
                          && flushable.pool.buffers == old(flushable.pool.buffers))
      ensures !cancelled ==> ((flushable.pool.accounts, flushable.pool.buffers)
                           == FlushResult(old(flushable.pool.accounts), old(flushable.pool.buffers), bucketId, fail))
    {
      bucketId := GetActiveBucket();
      SwitchActiveBucket();
      if cancelled {
        return bucketId, true;
      }
      var err := flushable.FlushBucket(bucketId, fail);
      return bucketId, false;
    }

    /** flushRoutine over a finite run of events; returns the buckets it flushed. */
    method FlushRoutine(events: seq<FlushEvent>) returns (flushed: seq<int>)
      requires Valid()
      modifies this, flushable.pool
      ensures Valid() && started == old(started)
      ensures flushed == FlushSchedule(old(activeBucket), events)
      ensures activeBucket == ActiveAfter(old(activeBucket), events)
      ensures (flushable.pool.accounts, flushable.pool.buffers)
           == RoutineState(old(flushable.pool.accounts), old(flushable.pool.buffers), old(activeBucket), events)
    {
      flushed := [];
      var i := 0;
      while i < |events|
        invariant 0 <= i <= |events| && Valid() && started == old(started)
        invariant flushed + FlushSchedule(activeBucket, events[i..]) == FlushSchedule(old(activeBucket), events)
        invariant ActiveAfter(activeBucket, events[i..]) == ActiveAfter(old(activeBucket), events)
        invariant RoutineState(flushable.pool.accounts, flushable.pool.buffers, activeBucket, events[i..])
               == RoutineState(old(flushable.pool.accounts), old(flushable.pool.buffers), old(activeBucket), events)
      {
        match events[i]
        case Cancel =>
          assert FlushSchedule(activeBucket, events[i..]) == [];
          return;
        case CancelDuringWait =>
          assert FlushSchedule(activeBucket, events[i..]) == [];
          var b, stop := FlushTick(None, true);
          return;
        case Tick(fail) =>
          var b, stop := FlushTick(fail, false);
          flushed := flushed + [b];
          assert events[i..][1..] == events[i + 1..];
        i := i + 1;
      }
      assert events[i..] == [];
    }
  }

  /** With ticks only, the flushed buckets alternate a, 1 - a, a, ... */
  lemma {:induction false} TicksAlternate(a: int, events: seq<FlushEvent>, k: int)
    requires forall j :: 0 <= j < |events| ==> events[j].Tick?
    requires 0 <= k < |events|
    ensures |FlushSchedule(a, events)| == |events|
    ensures FlushSchedule(a, events)[k] == if k % 2 == 0 then a else Toggle(a)
    decreases |events|
  {
    assert events[0].Tick?;
    if k == 0 {
      if |events| > 1 {
        TicksAlternate(Toggle(a), events[1..], 0);
      }
    } else {
      TicksAlternate(Toggle(a), events[1..], k - 1);
    }
  }

  /** Whatever flushes fail, the routine leaves every account's live balance view unchanged. */
  lemma {:induction false} RoutinePreservesLive(accounts: Accounts, buffers: seq<seq<PendingRow>>, a: int,
                                                 events: seq<FlushEvent>, id: Uuid.Uuid)
    requires |buffers| == 2
    ensures var s := RoutineState(accounts, buffers, a, events);
            LiveAccount(s.0, s.1, id) == LiveAccount(accounts, buffers, id)
    decreases |events|
  {
    if events != [] && events[0].Tick? {
      var s := FlushResult(accounts, buffers, a, events[0].fail);
      if IsBucket(a) && events[0].fail.None? {
        FlushPreservesLive(accounts, buffers, a, id);
      }
      RoutinePreservesLive(s.0, s.1, Toggle(a), events[1..], id);
    }
  }
}
