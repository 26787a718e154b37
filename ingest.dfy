/** The record-filling part that internal/api/efficientjson.go and internal/api/proto.go
    share: the admission limits, the temporary batch for requests over the pool size, the
    loop that gives each decoded transaction a payload region and a record, and the deferred
    Reset of a pooled batch. The protobuf size and encoding of a transaction are opaque: each
    decoded entry carries its SizeVT and whether MarshalToSizedBufferVT succeeds. */
module Ingest {
  import opened Bytes
  import opened Results
  import opened Kafka
  import opened ApiBatches
  import ApiPools

  /** The largest body either handler decodes: 100000 * 128 bytes. */
  const MaxBodyLength := 100000 * 128

  /** Requests above this many transactions use a temporary batch. */
  const PoolSize := 1000

  /** One decoded transaction: its Kafka key (the account id bytes), SizeVT, and whether
      marshalling into a buffer of that size succeeds. */
  datatype Entry = Entry(key: seq<byte>, size: nat, marshalOk: bool)

  /** The handler's response: status, error message ("" on success) and CreatedCount. */
  datatype Reply = Reply(status: int, message: string, created: int)

  /** What the deferred cleanup did: whether the body went back to its pool, whether the
      record batch did, and the count the batch was reset with. */
  datatype Cleanup = Cleanup(bodyReturned: bool, batchReturned: bool, resetCount: int)

  /** The bytes the first k entries take: NextRecord's offset after them. */
  function Used(entries: seq<Entry>): (n: nat)
  {
    if entries == [] then 0 else Used(entries[..|entries| - 1]) + entries[|entries| - 1].size
  }

  /** Whether every entry, from slab offset `off` on, gets its region and marshals. */
  predicate Fits(entries: seq<Entry>, off: nat, capacity: nat)
    decreases |entries|
  {
    entries == []
    || (off + entries[0].size <= capacity && entries[0].marshalOk && Fits(entries[1..], off + entries[0].size, capacity))
  }

  /** The record the loop writes for entry i over the slab entry it had. */
  function Filled(old_: Record, e: Entry, start: nat, now: int): (filled: Record)
  {
    old_.(topic := "transactions", value := InSlab(start, e.size), key := Owned(e.key), timestamp := now)
  }

  /** Every entry marshals. */
  predicate AllMarshal(entries: seq<Entry>)
  {
    forall i :: 0 <= i < |entries| ==> entries[i].marshalOk
  }

  /** All entries fit exactly when their sizes add up to at most the slab and every one marshals. */
  lemma {:induction false} FitsIffTotal(entries: seq<Entry>, off: nat, capacity: nat)
    requires off <= capacity
    ensures Fits(entries, off, capacity) <==>
      off + Used(entries) <= capacity && AllMarshal(entries)
    decreases |entries|
  {
    if entries != [] {
      var rest := entries[1..];
      UsedFront(entries);
      if off + entries[0].size <= capacity {
        FitsIffTotal(rest, off + entries[0].size, capacity);
      }
      assert AllMarshal(entries) <==> entries[0].marshalOk && AllMarshal(rest) by {
        assert forall i :: 1 <= i < |entries| ==> entries[i] == rest[i - 1];
      }
    }
  }

  lemma {:induction false} UsedFront(entries: seq<Entry>)
    requires entries != []
    ensures Used(entries) == entries[0].size + Used(entries[1..])
  {
    if |entries| > 1 {
      var init := entries[..|entries| - 1];
      UsedFront(init);
      assert init[1..] == entries[1..][..|entries[1..]| - 1];
    } else {
      assert entries[1..] == [];
    }
  }

  lemma {:induction false} UsedPrefix(entries: seq<Entry>, i: nat)
    requires i < |entries|
    ensures Used(entries[..i + 1]) == Used(entries[..i]) + entries[i].size
  {
    assert entries[..i + 1][..i] == entries[..i];
  }

  /** Successive entries get adjacent, non-overlapping regions: entry i starts where entry
      i-1 ends. */
  lemma RegionsAdjacent(entries: seq<Entry>, i: nat)
    requires 0 < i < |entries|
    ensures Used(entries[..i]) == Used(entries[..i - 1]) + entries[i - 1].size
  {
    UsedPrefix(entries, i - 1);
  }

  /** The loop over the decoded transactions: NextRecord(size), marshal, then set record i's
      Topic, Value, Key and Timestamp. It stops at the first exhausted slab or failed marshal. */
  method FillRecords(rb: RecordBatch, entries: seq<Entry>, now: int) returns (ok: bool)
    requires rb.Valid() && rb.offset == 0 && |entries| <= rb.Slab.Length
    modifies rb, rb.Slab
    ensures rb.Valid()
    ensures ok <==> Fits(entries, 0, rb.ByteSlab.Length)
    ensures ok ==> forall i :: 0 <= i < |entries| ==>
      rb.Slab[i] == Filled(old(rb.Slab[i]), entries[i], Used(entries[..i]), now)
    ensures forall i :: 0 <= i < rb.Slab.Length ==>
      rb.Slab[i] == old(rb.Slab[i])
      || (i < |entries| && rb.Slab[i] == Filled(old(rb.Slab[i]), entries[i], Used(entries[..i]), now))
  {
    var cap := rb.ByteSlab.Length;
    for i := 0 to |entries|
      invariant rb.Valid() && rb.offset == Used(entries[..i])
      invariant Fits(entries, 0, cap) <==> Fits(entries[i..], rb.offset, cap)
      invariant forall j :: 0 <= j < rb.Slab.Length ==>
        rb.Slab[j] == if j < i then Filled(old(rb.Slab[j]), entries[j], Used(entries[..j]), now) else old(rb.Slab[j])
    {
      var e := entries[i];
      assert entries[i..][0] == e && entries[i..][1..] == entries[i + 1..];
      UsedPrefix(entries, i);
      var payloadBuf := rb.NextRecord(e.size);
      if payloadBuf.Err? {
        return false;
      }
      if !e.marshalOk {
        return false;
      }
      rb.Slab[i] := rb.Slab[i].(topic := "transactions", value := payloadBuf.value, key := Owned(e.key), timestamp := now);
    }
    assert entries[|entries|..] == [];
    return true;
  }

  /** The temporary batch for count > 1000: count records, count pointers aliasing them and a
      count * 128-byte slab. */
  method NewTempBatch(count: nat) returns (rb: RecordBatch)
    ensures fresh(rb) && fresh(rb.Slab) && fresh(rb.Pointers) && fresh(rb.ByteSlab)
    ensures rb.Slab.Length == count && rb.Pointers.Length == count && rb.ByteSlab.Length == count * 128
    ensures rb.offset == 0 && rb.Valid()
    ensures forall i :: 0 <= i < count ==> rb.Pointers[i] == i
  {
    rb := new RecordBatch(count, count * 128);
    rb.PointAtSlab();
  }

  /** How a request is admitted, in the order the handlers decide it. */
  datatype Admission = BodyTooLarge | InvalidBody | BatchTooLarge | Pooled | Temporary

  /** The admission decision for a body of `bodyLength` bytes that decodes to `decodedCount`
      transactions (None: decoding failed), under a handler's `limit`. */
  function Admit(bodyLength: nat, decodedCount: Option<nat>, limit: nat): (a: Admission)
    ensures a == BodyTooLarge <==> bodyLength > MaxBodyLength
    ensures a == InvalidBody <==> bodyLength <= MaxBodyLength && decodedCount.None?
    ensures a == Pooled <==> bodyLength <= MaxBodyLength && decodedCount.Some? && decodedCount.value <= PoolSize
    ensures a == Temporary <==>
      bodyLength <= MaxBodyLength && decodedCount.Some? && PoolSize < decodedCount.value <= limit
    ensures a == BatchTooLarge <==>
      bodyLength <= MaxBodyLength && decodedCount.Some? && decodedCount.value > PoolSize && decodedCount.value > limit
  {
    if bodyLength > MaxBodyLength then BodyTooLarge
    else if decodedCount.None? then InvalidBody
    else if decodedCount.value <= PoolSize then Pooled
    else if decodedCount.value > limit then BatchTooLarge
    else Temporary
  }

  /** A larger limit only admits more: whatever a handler with limit `lo` admits, one with
      limit `hi` admits the same way. */
  lemma {:induction false} AdmitMonotone(bodyLength: nat, decodedCount: Option<nat>, lo: nat, hi: nat)
    requires lo <= hi
    ensures Admit(bodyLength, decodedCount, lo) != BatchTooLarge ==>
      Admit(bodyLength, decodedCount, hi) == Admit(bodyLength, decodedCount, lo)
  {
  }

  /** What the deferred cleanup sees, as written: tempRecordBatch and count. count is set as
      soon as the body is decoded (None: the request was refused before that), and
      tempRecordBatch only once the request passed the `limit` check. */
  function DeferredStateAsWritten(decodedCount: Option<nat>, limit: nat): (r: (bool, int))
    ensures decodedCount.None? ==> r == (false, 0)
    ensures decodedCount.Some? ==> r.1 == decodedCount.value
    ensures r.0 <==> decodedCount.Some? && PoolSize < decodedCount.value <= limit
  {
    if decodedCount.None? then (false, 0)
    else
      var c := decodedCount.value;
      if c > PoolSize && c > limit then (false, c)
      else (c > PoolSize, c)
  }

  /** The as-written flag is set exactly for the requests admitted to a temporary batch. */
  lemma DeferredFlagIsTemporary(bodyLength: nat, decodedCount: Option<nat>, limit: nat)
    requires bodyLength <= MaxBodyLength
    ensures DeferredStateAsWritten(decodedCount, limit).0 <==> Admit(bodyLength, decodedCount, limit) == Temporary
  {
  }

  /** The count the deferred cleanup resets the pooled batch with, as written: none for a
      temporary batch, the request's count otherwise. */
  function ResetCountAsWritten(decodedCount: Option<nat>, limit: nat): (r: Option<int>)
    ensures r.Some? <==> !DeferredStateAsWritten(decodedCount, limit).0
    ensures r.Some? ==> r.value == DeferredStateAsWritten(decodedCount, limit).1
  {
    var (temp, count) := DeferredStateAsWritten(decodedCount, limit);
    if temp then None else Some(count)
  }

  /** A JSON request of 20001 transactions (limit 20000) is refused without switching to a
      temporary batch, so the deferred Reset(20001) runs over the pooled 1000-entry slab,
      outside what RecordBatch.Reset may index. */
  lemma OversizedJsonResetOverruns()
    ensures ResetCountAsWritten(Some(20001), 20000) == Some(20001)
    ensures ResetCountAsWritten(Some(20001), 20000).value > ApiPools.BatchSize
  {
  }

  /** The same for a protobuf request of 10001 transactions (limit 10000). */
  lemma OversizedProtoResetOverruns()
    ensures ResetCountAsWritten(Some(10001), 10000) == Some(10001)
    ensures ResetCountAsWritten(Some(10001), 10000).value > ApiPools.BatchSize
  {
  }

  /** Within the limits the as-written count is harmless: a pooled batch is reset with at most
      1000, the count of records it was given. */
  lemma ResetCountWithinLimit(count: nat, limit: nat)
    requires count <= limit || count <= PoolSize
    ensures ResetCountAsWritten(Some(count), limit).Some? ==>
      ResetCountAsWritten(Some(count), limit).value <= PoolSize
  {
  }

  /** The corrected count: the records written, never more than the slab holds. */
  function ResetCount(count: int, slabLength: nat): (r: int)
    ensures r <= slabLength
    ensures count <= slabLength ==> r == count
  {
    if count <= slabLength then count else slabLength
  }

  /** The number of transactions a decoded body holds; None when decoding failed. */
  function Counted(decoded: Result<seq<Entry>>): (c: Option<nat>)
    ensures c.Some? <==> decoded.Ok?
    ensures c.Some? ==> c.value == |decoded.value|
  {
    if decoded.Ok? then Some(|decoded.value|) else None
  }

  /** The shared admission and filling, from a pooled batch rb: 400 for an oversized body,
      400 for a decoding failure, 400 above `limit` transactions, a temporary batch above 1000,
      500 for an exhausted slab or a failed marshal, 500 for a failed produce, and 201 with
      CreatedCount = count otherwise. The cleanup returns the body to its pool when the caller's
      rule says so, and resets and returns the batch iff it is not temporary. The reset is the
      corrected one: it clears the count the deferred function sees as written, capped at the
      slab's length (ResetCount), where the source's Reset(count) would index past a pooled
      slab for a count above the limit (OversizedJsonResetOverruns). */
  method Handle(rb: RecordBatch, limit: nat, bodyLength: nat, decoded: Result<seq<Entry>>,
                returnBody: bool, now: int, produce: Outcome)
    returns (reply: Reply, batch: RecordBatch, sent: seq<Record>, cleanup: Cleanup)
    requires rb.Valid() && rb.offset == 0 && rb.Slab.Length == PoolSize
    modifies rb, rb.Slab
    ensures Admit(bodyLength, Counted(decoded), limit) == BodyTooLarge ==> reply == Reply(400, "Request body too large", 0)
    ensures Admit(bodyLength, Counted(decoded), limit) == InvalidBody ==> reply == Reply(400, "Invalid request body", 0)
    ensures Admit(bodyLength, Counted(decoded), limit) == BatchTooLarge ==> reply == Reply(400, "Request batch size too large", 0)
    ensures reply.status == 201 <==>
      Admit(bodyLength, Counted(decoded), limit) in {Pooled, Temporary}
      && Fits(decoded.value, 0, batch.ByteSlab.Length) && produce == Nil
    ensures reply.status == 201 ==> reply == Reply(201, "", |decoded.value|)
    ensures reply.status == 201 ==> |sent| == |decoded.value| && forall i :: 0 <= i < |sent| ==>
      sent[i].topic == "transactions" && sent[i].key == Owned(decoded.value[i].key)
      && sent[i].value == InSlab(Used(decoded.value[..i]), decoded.value[i].size) && sent[i].timestamp == now
    ensures reply.status == 500 <==>
      Admit(bodyLength, Counted(decoded), limit) in {Pooled, Temporary}
      && (!Fits(decoded.value, 0, batch.ByteSlab.Length) || produce != Nil)
    ensures reply.status == 500 && !Fits(decoded.value, 0, batch.ByteSlab.Length) ==>
      reply.message == "Failed to process transactions"
    ensures reply.status == 500 && Fits(decoded.value, 0, batch.ByteSlab.Length) ==>
      produce != Nil && reply.message == "Failed to sync transactions"
    ensures batch != rb <==> Admit(bodyLength, Counted(decoded), limit) == Temporary
    ensures batch != rb ==> (fresh(batch) && batch.Slab.Length == |decoded.value|
      && batch.ByteSlab.Length == 128 * |decoded.value|)
    ensures cleanup.bodyReturned == returnBody
    ensures cleanup.batchReturned == (batch == rb)
    ensures batch == rb ==> (rb.offset == 0 && 0 <= cleanup.resetCount <= PoolSize
      && forall i :: 0 <= i < cleanup.resetCount ==> rb.Slab[i].value == NilBytes && rb.Slab[i].key == NilBytes)
    ensures batch == rb ==>
      var asWritten := ResetCountAsWritten(if bodyLength <= MaxBodyLength then Counted(decoded) else None, limit);
      asWritten.Some? && cleanup.resetCount == ResetCount(asWritten.value, PoolSize)
  {
    var count := 0;
    batch := rb;
    sent := [];
    var tempRecordBatch := false;
    if bodyLength > MaxBodyLength {
      reply := Reply(400, "Request body too large", 0);
    } else if decoded.Err? {
      reply := Reply(400, "Invalid request body", 0);
    } else {
      var body := decoded.value;
      count := |body|;
      if count > PoolSize && count > limit {
        reply := Reply(400, "Request batch size too large", 0);
      } else {
        if count > PoolSize {
          tempRecordBatch := true;
          batch := NewTempBatch(count);
        }
        var ok := FillRecords(batch, body, now);
        if !ok {
          reply := Reply(500, "Failed to process transactions", 0);
        } else {
          sent := batch.Slab[..count];
          if produce != Nil {
            reply := Reply(500, "Failed to sync transactions", 0);
          } else {
            reply := Reply(201, "", count);
          }
        }
      }
    }
    if !tempRecordBatch {
      var n := ResetCount(count, rb.Slab.Length);
      rb.Reset(n);
      cleanup := Cleanup(returnBody, true, n);
    } else {
      cleanup := Cleanup(returnBody, false, 0);
    }
  }
}
