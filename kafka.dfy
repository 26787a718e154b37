/** The parts of franz-go's kgo.Record that internal/worker and internal/api read and write.
    A byte field either owns its bytes, is nil, or is a slice of a record batch's ByteSlab
    (start, length). */
module Kafka {
  import opened Bytes

  datatype ByteRef = NilBytes | Owned(bytes: seq<byte>) | InSlab(start: nat, length: nat)

  datatype Record = Record(topic: string, partition: int, offset: int, key: ByteRef, value: ByteRef, timestamp: int)

  /** The zero kgo.Record that make([]kgo.Record, n) holds. */
  const EmptyRecord: Record := Record("", 0, 0, NilBytes, NilBytes, 0)
}
