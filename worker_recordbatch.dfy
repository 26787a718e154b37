/** internal/worker/recordbatch.go: the worker's preallocated batch of Kafka records, a
    byte slab for their values, a record count and a slab offset. */
module WorkerBatches {
  import opened Bytes
  import opened Results
  import opened Kafka

  class RecordBatch {
    const Slab: array<Record>
    /** Pointers[i] is the address of a Slab entry, written as its index. */
    const Pointers: array<nat>
    const ByteSlab: array<byte>
    var Count: int
    var offset: int

    /** The offset stays inside ByteSlab and the count inside Slab. */
    ghost predicate Valid()
      reads this
    {
      0 <= offset <= ByteSlab.Length && 0 <= Count <= Slab.Length
    }

    /** The struct literal: n zero records, n nil pointers, a zeroed byte slab. */
    constructor (n: nat, byteLen: nat)
      ensures Slab.Length == n && Pointers.Length == n && ByteSlab.Length == byteLen
      ensures forall i :: 0 <= i < n ==> Slab[i] == EmptyRecord
      ensures offset == 0 && Count == 0 && Valid()
      ensures fresh(Slab) && fresh(Pointers) && fresh(ByteSlab)
    {
      Slab := new Record[n](_ => EmptyRecord);
      Pointers := new nat[n](_ => 0);
      ByteSlab := new byte[byteLen](_ => 0);
      offset := 0;
      Count := 0;
    }

    /** The loop `Pointers[i] = &Slab[i]` over the whole slab. */
    method PointAtSlab()
      requires Pointers.Length == Slab.Length
      modifies Pointers
      ensures forall i :: 0 <= i < Pointers.Length ==> Pointers[i] == i
    {
      var i := 0;
      while i < Slab.Length
        invariant 0 <= i <= Slab.Length
        invariant forall j :: 0 <= j < i ==> Pointers[j] == j
      {
        Pointers[i] := i;
        i := i + 1;
      }
    }

    /** Reset: offset and Count back to 0; the slab contents stay as they were. */
    method Reset()
      modifies this
      ensures offset == 0 && Count == 0 && Valid()
      ensures Slab[..] == old(Slab[..]) && ByteSlab[..] == old(ByteSlab[..])
    {
      offset := 0;
      Count := 0;
    }

    /** NextRecord: the next `size` bytes of ByteSlab, or an error (offset unchanged) when
        fewer are left. A negative size would make the slice expression panic. */
    method NextRecord(size: int) returns (r: Result<ByteRef>)
      requires Valid() && size >= 0
      modifies this
      ensures Valid() && Count == old(Count)
      ensures r.Ok? <==> old(offset) + size <= ByteSlab.Length
      ensures r.Ok? ==> r.value == InSlab(old(offset), size) && offset == old(offset) + size
      ensures r.Err? ==> offset == old(offset)
    {
      if offset + size > ByteSlab.Length {
        return Err("byte slab exhausted");
      }
      var buf := InSlab(offset, size);
      offset := offset + size;
      return Ok(buf);
    }
  }

  /** Successive successful calls return contiguous regions that do not overlap and lie
      inside ByteSlab. */
  method TwoRecords(b: RecordBatch, m: nat, n: nat) returns (first: Result<ByteRef>, second: Result<ByteRef>)
    requires b.Valid()
    modifies b
    ensures first.Ok? && second.Ok? ==>
      first.value.InSlab? && second.value.InSlab?
      && second.value.start == first.value.start + first.value.length
      && second.value.start + second.value.length <= b.ByteSlab.Length
    ensures second.Ok? && first.Err? ==> second.value == InSlab(old(b.offset), n)
  {
    first := b.NextRecord(m);
    second := b.NextRecord(n);
  }
}
