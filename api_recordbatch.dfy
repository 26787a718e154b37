/** internal/api/recordbatch.go: the API's preallocated batch of Kafka records with a byte slab
    that NextRecord hands out front to back. */
module ApiBatches {
  import opened Bytes
  import opened Results
  import opened Kafka

  class RecordBatch {
    const Slab: array<Record>
    /** Pointers[i] is the address of a Slab entry, written as its index. */
    const Pointers: array<nat>
    const ByteSlab: array<byte>
    var offset: int

    /** The offset stays inside ByteSlab. */
    ghost predicate Valid()
      reads this
    {
      0 <= offset <= ByteSlab.Length
    }

    /** The struct literal: n zero records, n nil pointers, a zeroed byte slab, offset 0. */
    constructor (n: nat, byteLen: nat)
      ensures Slab.Length == n && Pointers.Length == n && ByteSlab.Length == byteLen
      ensures forall i :: 0 <= i < n ==> Slab[i] == EmptyRecord
      ensures offset == 0 && Valid()
      ensures fresh(Slab) && fresh(Pointers) && fresh(ByteSlab)
    {
      Slab := new Record[n](_ => EmptyRecord);
      Pointers := new nat[n](_ => 0);
      ByteSlab := new byte[byteLen](_ => 0);
      offset := 0;
    }

    /** The loop `Pointers[i] = &Slab[i]` over the whole slab. */
    method PointAtSlab()
      requires Pointers.Length == Slab.Length
      modifies Pointers
      ensures forall i :: 0 <= i < Pointers.Length ==> Pointers[i] == i
    {
      for i := 0 to Slab.Length
        invariant forall j :: 0 <= j < i ==> Pointers[j] == j
      {
        Pointers[i] := i;
      }
    }

    /** Reset(count): offset back to 0 and Value and Key of Slab[0..count) set to nil; every
        other entry, and ByteSlab, stay as they were. A count beyond the slab makes the loop
        index out of range, so it is excluded; a negative count runs no iteration. */
    method Reset(count: int)
      requires count <= Slab.Length
      modifies this, Slab
      ensures offset == 0 && Valid()
      ensures forall i :: 0 <= i < Slab.Length ==>
        Slab[i] == if i < count then old(Slab[i]).(value := NilBytes, key := NilBytes) else old(Slab[i])
    {
      offset := 0;
      var n := if count < 0 then 0 else count;
      for i := 0 to n
        invariant offset == 0
        invariant forall j :: 0 <= j < Slab.Length ==>
          Slab[j] == if j < i then old(Slab[j]).(value := NilBytes, key := NilBytes) else old(Slab[j])
      {
        Slab[i] := Slab[i].(value := NilBytes);
        Slab[i] := Slab[i].(key := NilBytes);
      }
    }

    /** NextRecord: ByteSlab[offset, offset+size), then offset += size; an error, offset
        unchanged, when the slab has fewer than size bytes left. A negative size would make
        the slice expression panic. */
    method NextRecord(size: int) returns (r: Result<ByteRef>)
      requires Valid() && size >= 0
      modifies this
      ensures Valid()
      ensures r.Ok? <==> old(offset) + size <= ByteSlab.Length
      ensures r.Ok? ==> r.value == InSlab(old(offset), size) && offset == old(offset) + size
      ensures r.Err? ==> offset == old(offset)
    {
      if offset + size > ByteSlab.Length {
        return Err("byte slab exhausted");
      }
      var buf := InSlab(offset, size);
      offset := offset + size;
      return Ok(buf);
    }
  }

  /** Two successive successful calls return adjacent, non-overlapping regions, and a
      zero-size request always succeeds. */
  method TwoRecords(b: RecordBatch, m: nat, n: nat) returns (first: Result<ByteRef>, second: Result<ByteRef>)
    requires b.Valid()
    modifies b
    ensures first.Ok? && second.Ok? ==>
      first.value.InSlab? && second.value.InSlab?
      && second.value.start == first.value.start + first.value.length
    ensures m == 0 ==> first.Ok?
  {
    first := b.NextRecord(m);
    second := b.NextRecord(n);
  }
}
