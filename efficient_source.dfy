/** internal/storage/efficienttransactionsource.go: EfficientTransactionSource, a reusable
    COPY source over a preallocated slab of 50000 decoded transactions. Next advances idx;
    Values stamps the next value of the package-wide salt counter big-endian into bytes 0..3 of
    the current transaction's id, in place, and reports id, account id, amount and the shared
    timestamp; Reset rewinds and empties the offsets map. */
module EfficientSources {
  import opened Bytes
  import opened Results

  /** The slots a fresh source preallocates. */
  const Slots: nat := 50000

  /** A decoded pb.Transaction: its id and account id bytes and its amount. */
  datatype PbTransaction = PbTransaction(id: seq<byte>, accountId: seq<byte>, amount: int)

  /** The zero value: nil byte slices and amount 0. */
  const ZeroTransaction := PbTransaction([], [], 0)

  /** The values a row reports, in order. */
  datatype Value = BytesValue(b: seq<byte>) | IntValue(i: int) | TimeValue(t: int)

  /** An id with bytes 0..3 replaced by the 32-bit salt written big-endian. */
  function Stamp(id: seq<byte>, salt: nat): (r: seq<byte>)
    requires |id| >= 4
    ensures |r| == |id|
  {
    ToBigEndian(salt, 4) + id[4..]
  }

  /** Stamping changes only bytes 0..3, which then read back as the salt. */
  lemma StampFields(id: seq<byte>, salt: nat)
    requires |id| >= 4 && salt < TWO_32
    ensures Stamp(id, salt)[4..] == id[4..]
    ensures BigEndian(Stamp(id, salt)[..4]) == salt
  {
    assert Stamp(id, salt)[..4] == ToBigEndian(salt, 4);
    Pow256Values();
    EncodeDecode(salt, 4);
  }

  /** Stamping twice keeps only the last salt. */
  lemma StampTwice(id: seq<byte>, s1: nat, s2: nat)
    requires |id| >= 4
    ensures Stamp(Stamp(id, s1), s2) == Stamp(id, s2)
  {
    assert Stamp(id, s1)[4..] == id[4..];
  }

  /** The package-wide salt counter that atomic.AddUint32 increments. */
  class Salt {
    var value: nat

    constructor (v: nat)
      requires v < TWO_32
      ensures value == v
    {
      value := v;
    }

    /** atomic.AddUint32(&salt, 1): the incremented uint32, also returned. */
    method Add() returns (v: nat)
      modifies this
      ensures value == (old(value) + 1) % TWO_32 && v == value
    {
      value := (value + 1) % TWO_32;
      v := value;
    }
  }

  class EfficientTransactionSource {
    const Txs: array<PbTransaction>
    var idx: int
    var Count: int
    var Offsets: map<int, int>
    var Timestamp: int

    /** NewEfficientTransactionSource: 50000 zero transactions, idx -1, Count 0, no offsets. */
    constructor ()
      ensures fresh(Txs) && Txs.Length == Slots
      ensures forall i :: 0 <= i < Txs.Length ==> Txs[i] == ZeroTransaction
      ensures idx == -1 && Count == 0 && Offsets == map[] && Timestamp == 0
    {
      Txs := new PbTransaction[Slots](_ => ZeroTransaction);
      idx := -1;
      Count := 0;
      Offsets := map[];
      Timestamp := 0;
    }

    /** Next: advance idx and report whether it is below Count. */
    method Next() returns (more: bool)
      modifies this
      ensures idx == old(idx) + 1 && more == (idx < Count)
      ensures Count == old(Count) && Offsets == old(Offsets) && Timestamp == old(Timestamp)
    {
      idx := idx + 1;
      more := idx < Count;
    }

    /** Values: stamp the next salt into the current id in place and report the row. An idx
        outside the slab, or an id shorter than 4 bytes, panics. */
    method Values(salt: Salt) returns (vals: seq<Value>, err: Outcome)
      requires 0 <= idx < Txs.Length && |Txs[idx].id| >= 4
      modifies Txs, salt
      ensures salt.value == (old(salt.value) + 1) % TWO_32
      ensures Txs[idx] == old(Txs[idx]).(id := Stamp(old(Txs[idx]).id, salt.value))
      ensures forall i :: 0 <= i < Txs.Length && i != idx ==> Txs[i] == old(Txs[i])
      ensures vals == [BytesValue(Txs[idx].id), BytesValue(Txs[idx].accountId), IntValue(Txs[idx].amount), TimeValue(Timestamp)]
      ensures err == Nil
    {
      var s := salt.Add();
      Txs[idx] := Txs[idx].(id := Stamp(Txs[idx].id, s));
      vals := [BytesValue(Txs[idx].id), BytesValue(Txs[idx].accountId), IntValue(Txs[idx].amount), TimeValue(Timestamp)];
      err := Nil;
    }

    /** Err: the source never fails. */
    function Err(): (e: Outcome)
    {
      Nil
    }

    /** Reset: idx back to -1 and every offset key deleted; Count and Txs stay. */
    method Reset()
      modifies this
      ensures idx == -1 && Offsets == map[]
      ensures Count == old(Count) && Timestamp == old(Timestamp)
    {
      idx := -1;
      while Offsets.Keys != {}
        invariant idx == -1 && Count == old(Count) && Timestamp == old(Timestamp)
        decreases |Offsets.Keys|
      {
        HasElement(Offsets.Keys);
        var k :| k in Offsets.Keys;
        Offsets := Offsets - {k};
      }
    }
  }

  /** A non-empty set has an element. */
  lemma HasElement(s: set<int>)
    requires s != {}
    ensures exists x :: x in s
  {
    if forall x :: x !in s {
      assert false;
    }
  }

  /** The slab rows a source is ready to report: Count within the slab, every reported id at
      least 4 bytes long. */
  ghost predicate Ready(src: EfficientTransactionSource)
    reads src, src.Txs
  {
    src.idx == -1 && 0 <= src.Count <= src.Txs.Length
    && forall i :: 0 <= i < src.Count ==> |src.Txs[i].id| >= 4
  }

  /** The row Values reports for a transaction. */
  function RowOf(tx: PbTransaction, timestamp: int): (r: seq<Value>)
    ensures |r| == 4
  {
    [BytesValue(tx.id), BytesValue(tx.accountId), IntValue(tx.amount), TimeValue(timestamp)]
  }

  /** What COPY reads: Next until false, Values after each true one. Next is true exactly Count
      times; row k reports transaction k, whose id now carries the (k+1)-th salt after the
      starting value, and the slots from Count on are untouched. */
  method ReadAll(src: EfficientTransactionSource, salt: Salt) returns (rows: seq<seq<Value>>)
    requires Ready(src) && salt.value < TWO_32
    modifies src, src.Txs, salt
    ensures |rows| == src.Count == old(src.Count) && src.Timestamp == old(src.Timestamp)
    ensures salt.value == (old(salt.value) + |rows|) % TWO_32
    ensures forall k :: 0 <= k < |rows| ==>
      src.Txs[k] == old(src.Txs[k]).(id := Stamp(old(src.Txs[k].id), (old(salt.value) + k + 1) % TWO_32))
    ensures forall k :: 0 <= k < |rows| ==> rows[k] == RowOf(src.Txs[k], src.Timestamp)
    ensures forall i :: src.Count <= i < src.Txs.Length ==> src.Txs[i] == old(src.Txs[i])
    ensures src.Offsets == old(src.Offsets)
  {
    ghost var s0 := salt.value;
    ghost var before := src.Txs[..];
    rows := [];
    var more := src.Next();
    while more
      invariant src.idx == |rows| && more == (src.idx < src.Count) && |rows| <= src.Count
      invariant src.Count == old(src.Count) && src.Timestamp == old(src.Timestamp) && src.Offsets == old(src.Offsets)
      invariant salt.value == (s0 + |rows|) % TWO_32
      invariant forall k :: 0 <= k < |rows| ==>
        src.Txs[k] == before[k].(id := Stamp(before[k].id, (s0 + k + 1) % TWO_32))
      invariant forall i :: |rows| <= i < src.Txs.Length ==> src.Txs[i] == before[i]
      invariant forall k :: 0 <= k < |rows| ==> rows[k] == RowOf(src.Txs[k], src.Timestamp)
      decreases src.Count - src.idx
    {
      SuccMod(s0 + |rows|, TWO_32);
      var vals, _ := src.Values(salt);
      rows := rows + [vals];
      more := src.Next();
    }
  }

  /** Reset keeps Count and the slab, so a second pass reports Count rows again, over the same
      transactions (their ids stamped afresh). */
  method ReadTwice(src: EfficientTransactionSource, salt: Salt) returns (first: seq<seq<Value>>, second: seq<seq<Value>>)
    requires Ready(src) && salt.value < TWO_32
    modifies src, src.Txs, salt
    ensures |first| == |second| == old(src.Count)
    ensures forall k :: 0 <= k < |second| ==>
      src.Txs[k] == old(src.Txs[k]).(id := Stamp(old(src.Txs[k].id), (old(salt.value) + |first| + k + 1) % TWO_32))
      && second[k] == RowOf(src.Txs[k], old(src.Timestamp))
  {
    ghost var before := src.Txs[..];
    ghost var s0 := salt.value;
    first := ReadAll(src, salt);
    ghost var mid := src.Txs[..];
    ghost var s1 := salt.value;
    src.Reset();
    second := ReadAll(src, salt);
    forall k | 0 <= k < |second|
      ensures src.Txs[k] == before[k].(id := Stamp(before[k].id, (s0 + |first| + k + 1) % TWO_32))
    {
      assert mid[k] == before[k].(id := Stamp(before[k].id, (s0 + k + 1) % TWO_32));
      assert src.Txs[k] == mid[k].(id := Stamp(mid[k].id, (s1 + k + 1) % TWO_32));
      StampTwice(before[k].id, (s0 + k + 1) % TWO_32, (s1 + k + 1) % TWO_32);
      ModShift(s0, |first|, k + 1);
    }
  }

  /** ((a + n) mod 2^32 + j) mod 2^32 is (a + n + j) mod 2^32. */
  lemma ModShift(a: nat, n: nat, j: nat)
    ensures ((a + n) % TWO_32 + j) % TWO_32 == (a + n + j) % TWO_32
  {
    var q, r := (a + n) / TWO_32, (a + n) % TWO_32;
    var q2, r2 := (r + j) / TWO_32, (r + j) % TWO_32;
    ModOfDecomposition(a + n + j, q + q2, r2, TWO_32);
  }
}
