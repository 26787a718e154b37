/** internal/api/pools.go: the recordsPool and trPool New functions of the API. */
module ApiPools {
  import opened Kafka
  import opened Uuid
  import opened ApiBatches

  const BatchSize: nat := 1000
  const AvgProtoSize: nat := 49
  const SafetyMargin: nat := 15
  const TotalByteSlabSize: nat := BatchSize * (AvgProtoSize + SafetyMargin)

  /** One element of the JSON request body: the fields the handler reads. */
  datatype TransactionRequest = TransactionRequest(id: Uuid, accountId: Uuid, amount: int)

  const ZeroUuid: Uuid := [0, 0, 0, 0, 0, 0, 0, 0, 0, 0, 0, 0, 0, 0, 0, 0]
  const ZeroRequest := TransactionRequest(ZeroUuid, ZeroUuid, 0)

  /** recordsPool.New: 1000 records and pointers, a 64000-byte slab, offset 0, and Pointers[i]
      aliasing Slab[i]. A pool Get is modelled as this constructor. */
  method NewRecordBatch() returns (r: RecordBatch)
    ensures fresh(r) && fresh(r.Slab) && fresh(r.Pointers) && fresh(r.ByteSlab)
    ensures r.Slab.Length == 1000 && r.Pointers.Length == 1000 && r.ByteSlab.Length == 64000
    ensures r.offset == 0 && r.Valid()
    ensures forall i :: 0 <= i < r.Pointers.Length ==> r.Pointers[i] == i
    ensures forall i :: 0 <= i < r.Slab.Length ==> r.Slab[i] == EmptyRecord
  {
    r := new RecordBatch(BatchSize, TotalByteSlabSize);
    r.PointAtSlab();
  }

  /** trPool.New: a slice of length 1000 (not just capacity) of zero requests. */
  function NewTransactionRequests(): (body: seq<TransactionRequest>)
    ensures |body| == 1000 && forall i :: 0 <= i < |body| ==> body[i] == ZeroRequest
  {
    seq(BatchSize, _ => ZeroRequest)
  }
}
