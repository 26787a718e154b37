/** internal/worker/pools.go: the recordsPool New function for the worker's batches. */
module WorkerPools {
  import opened Kafka
  import opened WorkerBatches

  const BatchSize: nat := 50000
  const AvgProtoSize: nat := 49
  const SafetyMargin: nat := 15
  const TotalByteSlabSize: nat := BatchSize * (AvgProtoSize + SafetyMargin)

  /** recordsPool.New: 50000 records and pointers, a 3,200,000-byte slab, offset and Count 0,
      and Pointers[i] aliasing Slab[i]. A pool Get is modelled as this constructor. */
  method NewRecordBatch() returns (r: RecordBatch)
    ensures fresh(r) && fresh(r.Slab) && fresh(r.Pointers) && fresh(r.ByteSlab)
    ensures r.Slab.Length == 50000 && r.Pointers.Length == 50000 && r.ByteSlab.Length == 3_200_000
    ensures r.offset == 0 && r.Count == 0 && r.Valid()
    ensures forall i :: 0 <= i < r.Pointers.Length ==> r.Pointers[i] == i
    ensures forall i :: 0 <= i < r.Slab.Length ==> r.Slab[i] == EmptyRecord
  {
    r := new RecordBatch(BatchSize, TotalByteSlabSize);
    r.PointAtSlab();
  }
}
