/** internal/worker/batch_worker.go: the batching routine as a state machine over the
    events its select sees. BatchProcess calls are appended to an outbox, each with the
    bucket the provider reported when the batch was processed. */
module BatchWorkers {
  import opened Uuid
  import opened Model
  import Results

  /** One round of batchRoutine's select. A payload arrives with the id and clock reading drawn
      for it; `bucket` is what GetActiveBucket returns if this round processes a batch. */
  datatype BatchEvent =
    | Receive(p: TransactionPayload, id: Uuid, createdAt: int, bucket: int)
    | Tick(bucket: int)
    | Close(bucket: int)
    | Cancel(bucket: int)

  /** One BatchProcess call: the batch and its bucket id. */
  datatype Call = Call(batch: seq<Transaction>, bucketId: int)

  /** The transaction built from a received payload. */
  function FromPayload(p: TransactionPayload, id: Uuid, createdAt: int): (t: Transaction)
    ensures t.accountId == p.accountId && t.amount == p.amount && t.txType == p.txType
    ensures t.id == id && t.createdAt == createdAt
  {
    Transaction(id, p.accountId, p.amount, p.txType, createdAt)
  }

  /** The transactions the events deliver, in arrival order. */
  function Received(events: seq<BatchEvent>): (txs: seq<Transaction>)
    ensures |txs| <= |events|
  {
    if events == [] then []
    else
      var last := events[|events| - 1];
      Received(events[..|events| - 1])
        + if last.Receive? then [FromPayload(last.p, last.id, last.createdAt)] else []
  }

  /** All batches of the calls, concatenated in call order. */
  function Flatten(calls: seq<Call>): (txs: seq<Transaction>)
  {
    if calls == [] then [] else Flatten(calls[..|calls| - 1]) + calls[|calls| - 1].batch
  }

  /** The most a batch can hold: len(batch) >= batchSize fires at once when batchSize < 1. */
  function Bound(batchSize: int): (b: int)
    ensures b >= 1 && (batchSize >= 1 ==> b == batchSize)
  {
    if batchSize < 1 then 1 else batchSize
  }

  /** Every call carries a non-empty batch of at most Bound(batchSize) transactions. */
  predicate WellSized(calls: seq<Call>, batchSize: int)
  {
    forall k :: 0 <= k < |calls| ==> 0 < |calls[k].batch| <= Bound(batchSize)
  }

  class BatchWorker {
    const batchSize: int
    var batch: seq<Transaction>
    var outbox: seq<Call>
    var started: bool

    /** The pending batch is below the size trigger and every call so far is well sized. */
    ghost predicate Valid()
      reads this
    {
      |batch| < Bound(batchSize) && WellSized(outbox, batchSize)
    }

    /** NewBatchWorker with the routine not yet running. */
    constructor (batchSize: int)
      ensures this.batchSize == batchSize && batch == [] && outbox == [] && !started
      ensures Valid()
    {
      this.batchSize := batchSize;
      batch := [];
      outbox := [];
      started := false;
    }

    /** Start: sync.Once, so the routine is launched by the first call only. */
    method Start() returns (launched: bool)
      modifies this
      ensures launched == !old(started) && started
      ensures batch == old(batch) && outbox == old(outbox)
    {
      launched := !started;
      started := true;
    }

    /** processBatch: one BatchProcess call with the bucket read now. Its error is only logged,
        so the batch is never retried. */
    method ProcessBatch(b: seq<Transaction>, bucketId: int)
      modifies this
      ensures outbox == old(outbox) + [Call(b, bucketId)] && batch == old(batch)
    {
      outbox := outbox + [Call(b, bucketId)];
    }

    /** One round of the select loop; stop says the routine returns. */
    method Step(e: BatchEvent) returns (stop: bool)
      requires Valid()
      modifies this
      ensures Valid()
      ensures stop <==> e.Close? || e.Cancel?
      ensures stop ==> batch == []
      ensures Flatten(outbox) + batch == Flatten(old(outbox)) + old(batch) + Received([e])
      ensures e.Receive? && |old(batch)| + 1 >= Bound(batchSize) ==>
        outbox == old(outbox) + [Call(old(batch) + [FromPayload(e.p, e.id, e.createdAt)], e.bucket)] && batch == []
      ensures e.Receive? && |old(batch)| + 1 < Bound(batchSize) ==>
        outbox == old(outbox) && batch == old(batch) + [FromPayload(e.p, e.id, e.createdAt)]
      ensures !e.Receive? && old(batch) != [] ==> outbox == old(outbox) + [Call(old(batch), e.bucket)] && batch == []
      ensures !e.Receive? && old(batch) == [] ==> outbox == old(outbox) && batch == []
    {
      assert Received([e]) == if e.Receive? then [FromPayload(e.p, e.id, e.createdAt)] else [] by {
        assert [e][..0] == [];
      }
      assert !e.Receive? ==> batch + Received([e]) == batch;
      match e
      case Receive(p, id, createdAt, bucket) =>
        var tx := FromPayload(p, id, createdAt);
        batch := batch + [tx];
        if |batch| >= batchSize {
          ProcessBatch(batch, bucket);
          batch := [];
        }
        return false;
      case Tick(bucket) =>
        assert batch + Received([e]) == batch;
        if |batch| > 0 {
          ProcessBatch(batch, bucket);
          batch := [];
        }
        return false;
      case Close(bucket) =>
        if |batch| > 0 {
          ProcessBatch(batch, bucket);
        }
        batch := [];
        return true;
      case Cancel(bucket) =>
        if |batch| > 0 {
          ProcessBatch(batch, bucket);
        }
        batch := [];
        return true;
    }

    /** batchRoutine over a finite run of events: it handles events until a close or a
        cancellation (stopped) or until the events run out, and returns how many it handled. */
    method BatchRoutine(events: seq<BatchEvent>) returns (stopped: bool, n: nat)
      requires Valid()
      modifies this
      ensures Valid()
      ensures n <= |events| && (stopped ==> batch == [] && 0 < n) && (!stopped ==> n == |events|)
      ensures stopped ==> events[n - 1].Close? || events[n - 1].Cancel?
      ensures Flatten(outbox) + batch == Flatten(old(outbox)) + old(batch) + Received(events[..n])
    {
      n := 0;
      while n < |events|
        invariant n <= |events| && Valid()
        invariant Flatten(outbox) + batch == Flatten(old(outbox)) + old(batch) + Received(events[..n])
      {
        ghost var before := Received(events[..n]);
        ghost var sofar := Flatten(outbox) + batch;
        var stop := Step(events[n]);
        assert Flatten(outbox) + batch == sofar + Received([events[n]]);
        ReceivedAppend(events[..n], events[n]);
        assert events[..n + 1] == events[..n] + [events[n]];
        Results.AppendAssoc(Flatten(old(outbox)) + old(batch), before, Received([events[n]]));
        n := n + 1;
        if stop {
          return true, n;
        }
      }
      return false, n;
    }
  }

  /** Received distributes over appending one event. */
  lemma ReceivedAppend(events: seq<BatchEvent>, e: BatchEvent)
    ensures Received(events + [e]) == Received(events) + Received([e])
  {
    assert (events + [e])[..|events|] == events;
    assert [e][..0] == [];
  }
}
