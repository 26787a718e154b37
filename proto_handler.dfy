/** internal/api/proto.go: handleProto. The body unmarshals to a pb.TransactionBatch; each
    transaction's Kafka key is its AccountId bytes. The record filling, admission and cleanup
    are the ones Ingest.Handle models, with a limit of 10000 transactions; the decoded batch
    always goes back to its pool. */
module ProtoHandler {
  import opened Results
  import opened Kafka
  import opened Bytes
  import opened ApiBatches
  import opened Ingest

  /** The most transactions a protobuf request may hold. */
  const ProtoLimit: nat := 10000

  /** The JSON handler's limit, for comparison. */
  const JsonLimit: nat := 20000

  /** One decoded pb.Transaction: the fields the handler reads, with SizeVT and the marshalling
      outcome, which are opaque. */
  datatype ProtoTransaction = ProtoTransaction(accountId: seq<byte>, size: nat, marshalOk: bool)

  /** The loop's view of the decoded batch. */
  function ProtoEntries(body: seq<ProtoTransaction>): (entries: seq<Entry>)
    ensures |entries| == |body|
    ensures forall i :: 0 <= i < |body| ==> entries[i].key == body[i].accountId && entries[i].size == body[i].size
  {
    seq(|body|, i requires 0 <= i < |body| => Entry(body[i].accountId, body[i].size, body[i].marshalOk))
  }

  /** handleProto on a pooled record batch rb; decoded is UnmarshalVT's outcome. The
      pooled batch's reset is the corrected one: the count, capped at the slab's 1000 entries. */
  method HandleProto(rb: RecordBatch, bodyLength: nat, decoded: Result<seq<ProtoTransaction>>, now: int, produce: Outcome)
    returns (reply: Reply, batch: RecordBatch, sent: seq<Record>, cleanup: Cleanup)
    requires rb.Valid() && rb.offset == 0 && rb.Slab.Length == PoolSize
    modifies rb, rb.Slab
    ensures bodyLength > MaxBodyLength ==> reply == Reply(400, "Request body too large", 0)
    ensures bodyLength <= MaxBodyLength && decoded.Err? ==> reply == Reply(400, "Invalid request body", 0)
    ensures bodyLength <= MaxBodyLength && decoded.Ok? && |decoded.value| > ProtoLimit ==>
      reply == Reply(400, "Request batch size too large", 0)
    ensures batch != rb <==> bodyLength <= MaxBodyLength && decoded.Ok? && PoolSize < |decoded.value| <= ProtoLimit
    ensures batch != rb ==> (fresh(batch) && batch.Slab.Length == |decoded.value|
      && batch.ByteSlab.Length == 128 * |decoded.value|)
    ensures reply.status == 201 <==>
      bodyLength <= MaxBodyLength && decoded.Ok? && |decoded.value| <= ProtoLimit
      && Fits(ProtoEntries(decoded.value), 0, batch.ByteSlab.Length) && produce == Nil
    ensures reply.status == 201 ==> reply == Reply(201, "", |decoded.value|) && |sent| == |decoded.value|
    ensures reply.status == 201 ==> forall i :: 0 <= i < |sent| ==>
      sent[i].topic == "transactions" && sent[i].key == Owned(decoded.value[i].accountId) && sent[i].timestamp == now
      && sent[i].value == InSlab(Used(ProtoEntries(decoded.value)[..i]), decoded.value[i].size)
    ensures reply.status in {201, 400, 500}
    ensures cleanup.bodyReturned
    ensures cleanup.batchReturned <==> batch == rb
    ensures batch == rb ==> rb.offset == 0
    ensures batch == rb ==>
      cleanup.resetCount == ResetCount(if bodyLength <= MaxBodyLength && decoded.Ok? then |decoded.value| else 0, PoolSize)
  {
    var entries: Result<seq<Entry>> := if decoded.Ok? then Ok(ProtoEntries(decoded.value)) else Err(decoded.msg);
    reply, batch, sent, cleanup := Handle(rb, ProtoLimit, bodyLength, entries, true, now, produce);
  }

  /** A request of 10001 to 20000 transactions that the JSON handler takes on a temporary batch
      is refused by the protobuf handler. */
  lemma ProtoRefusesWhatJsonAdmits(bodyLength: nat, count: nat)
    requires bodyLength <= MaxBodyLength && ProtoLimit < count <= JsonLimit
    ensures Admit(bodyLength, Some(count), ProtoLimit) == BatchTooLarge
    ensures Admit(bodyLength, Some(count), JsonLimit) == Temporary
  {
  }
}
