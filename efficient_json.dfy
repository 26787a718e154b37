/** internal/api/efficientjson.go: handleEfficientJSON. The body decodes to a slice of
    TransactionRequest; each becomes a pb.Transaction whose Kafka key is its account id. The
    record filling, admission and cleanup are the ones Ingest.Handle models, with a limit of
    20000 transactions and the body slice returned to its pool only when its capacity is at
    most 1000. */
module EfficientJson {
  import opened Results
  import opened Kafka
  import opened ApiBatches
  import opened ApiPools
  import opened Ingest

  /** The most transactions a JSON request may hold. */
  const JsonLimit: nat := 20000

  /** The loop's view of the decoded body: transaction i is keyed by its account id's 16 bytes
      and takes sizes[i] bytes; marshals[i] says whether MarshalToSizedBufferVT succeeds. */
  function JsonEntries(body: seq<TransactionRequest>, sizes: seq<nat>, marshals: seq<bool>): (entries: seq<Entry>)
    requires |sizes| == |body| && |marshals| == |body|
    ensures |entries| == |body|
  {
    seq(|body|, i requires 0 <= i < |body| => Entry(body[i].accountId, sizes[i], marshals[i]))
  }

  /** sonic.Unmarshal's outcome, seen as entries. */
  function JsonDecoded(decoded: Result<seq<TransactionRequest>>, sizes: seq<nat>, marshals: seq<bool>): (r: Result<seq<Entry>>)
    requires decoded.Ok? ==> |sizes| == |decoded.value| && |marshals| == |decoded.value|
    ensures r.Ok? <==> decoded.Ok?
    ensures r.Ok? ==> |r.value| == |decoded.value|
  {
    if decoded.Ok? then Ok(JsonEntries(decoded.value, sizes, marshals)) else Err(decoded.msg)
  }

  /** handleEfficientJSON on a pooled record batch rb. bodyCap is the capacity of the decoded
      slice when the deferred cleanup runs. The
      pooled batch's reset is the corrected one: the count, capped at the slab's 1000 entries. */
  method HandleEfficientJson(rb: RecordBatch, bodyLength: nat, decoded: Result<seq<TransactionRequest>>,
                             sizes: seq<nat>, marshals: seq<bool>, bodyCap: nat, now: int, produce: Outcome)
    returns (reply: Reply, batch: RecordBatch, sent: seq<Record>, cleanup: Cleanup)
    requires rb.Valid() && rb.offset == 0 && rb.Slab.Length == PoolSize
    requires decoded.Ok? ==> |sizes| == |decoded.value| && |marshals| == |decoded.value|
    modifies rb, rb.Slab
    ensures bodyLength > MaxBodyLength ==> reply == Reply(400, "Request body too large", 0)
    ensures bodyLength <= MaxBodyLength && decoded.Err? ==> reply == Reply(400, "Invalid request body", 0)
    ensures bodyLength <= MaxBodyLength && decoded.Ok? && |decoded.value| > JsonLimit ==>
      reply == Reply(400, "Request batch size too large", 0)
    ensures batch != rb <==> bodyLength <= MaxBodyLength && decoded.Ok? && PoolSize < |decoded.value| <= JsonLimit
    ensures batch != rb ==> (fresh(batch) && batch.Slab.Length == |decoded.value|
      && batch.ByteSlab.Length == 128 * |decoded.value|)
    ensures reply.status == 201 <==>
      bodyLength <= MaxBodyLength && decoded.Ok? && |decoded.value| <= JsonLimit
      && Fits(JsonEntries(decoded.value, sizes, marshals), 0, batch.ByteSlab.Length) && produce == Nil
    ensures reply.status == 201 ==> reply == Reply(201, "", |decoded.value|) && |sent| == |decoded.value|
    ensures reply.status == 201 ==> forall i :: 0 <= i < |sent| ==>
      sent[i].topic == "transactions" && sent[i].key == Owned(decoded.value[i].accountId) && sent[i].timestamp == now
      && sent[i].value == InSlab(Used(JsonEntries(decoded.value, sizes, marshals)[..i]), sizes[i])
    ensures reply.status in {201, 400, 500}
    ensures cleanup.bodyReturned <==> bodyCap <= 1000
    ensures cleanup.batchReturned <==> batch == rb
    ensures batch == rb ==> rb.offset == 0
    ensures batch == rb ==>
      cleanup.resetCount == ResetCount(if bodyLength <= MaxBodyLength && decoded.Ok? then |decoded.value| else 0, PoolSize)
  {
    var entries := JsonDecoded(decoded, sizes, marshals);
    reply, batch, sent, cleanup := Handle(rb, JsonLimit, bodyLength, entries, bodyCap <= 1000, now, produce);
  }
}
