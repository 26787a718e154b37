/** internal/worker/coordinator.go: polling Kafka, staging each record's value into the byte
    slab of its worker's active batch, and dispatching batches to the workers. Workers are
    named by their ids; a dispatch is appended to an outbox with a snapshot of the batch. */
module Coordinators {
  import opened Bytes
  import opened Results
  import opened Kafka
  import opened WorkerBatches
  import opened WorkerPools

  /** A batch handed to a worker's channel, with the Kafka offset published as its high
      watermark. */
  datatype Dispatch = Dispatch(worker: int, records: seq<Record>, bytes: seq<byte>, lastOffset: int)

  /** A record whose value is a slice of `bytes` read back as the bytes it points at. */
  function Resolve(r: Record, bytes: seq<byte>): (resolved: Record)
  {
    if r.value.InSlab? && r.value.start + r.value.length <= |bytes|
    then r.(value := Owned(bytes[r.value.start..r.value.start + r.value.length]))
    else r
  }

  /** The records of a slab with their values read back from the byte slab. */
  function View(slab: seq<Record>, bytes: seq<byte>): (v: seq<Record>)
    ensures |v| == |slab|
  {
    seq(|slab|, k requires 0 <= k < |slab| => Resolve(slab[k], bytes))
  }

  /** The worker of a record: int(rec.Partition) % numWorkers (partitions are non-negative). */
  function WorkerFor(partition: int, numWorkers: int): (w: nat)
    requires partition >= 0 && numWorkers > 0
    ensures w < numWorkers
  {
    partition % numWorkers
  }

  /** The records of `fetch` that go to worker w, in fetch order. */
  function Routed(fetch: seq<Record>, numWorkers: int, w: int): (routed: seq<Record>)
    requires numWorkers > 0 && forall k :: 0 <= k < |fetch| ==> Stageable(fetch[k])
  {
    if fetch == [] then []
    else
      var last := fetch[|fetch| - 1];
      assert Stageable(last);
      Routed(fetch[..|fetch| - 1], numWorkers, w) + if WorkerFor(last.partition, numWorkers) == w then [last] else []
  }

  /** Everything the dispatches hand to worker w, read back, in dispatch order. */
  function Sent(ds: seq<Dispatch>, w: int): (sent: seq<Record>)
  {
    if ds == [] then []
    else
      var last := ds[|ds| - 1];
      Sent(ds[..|ds| - 1], w) + if last.worker == w then View(last.records, last.bytes) else []
  }

  /** Appending a dispatch extends what its worker was sent, and only that. */
  lemma SentAppend(ds: seq<Dispatch>, d: Dispatch, w: int)
    ensures Sent(ds + [d], w) == Sent(ds, w) + if d.worker == w then View(d.records, d.bytes) else []
  {
    assert (ds + [d])[..|ds|] == ds;
  }

  /** A fetched record the coordinator can stage: non-negative partition, an owned value of at
      most 64 bytes. Staging does not check for space; with at most 64 bytes per value the
      50000-entry slab's 3,200,000 bytes always suffice. */
  predicate Stageable(r: Record)
  {
    r.partition >= 0 && r.value.Owned? && |r.value.bytes| <= 64
  }

  /** A batch ready for staging: the pool's sizes, offset within 64 bytes per staged record,
      every staged value a slice below the offset. */
  ghost predicate SlabOk(b: RecordBatch)
    reads b, b.Slab
  {
    b.Valid() && b.Slab.Length == BatchSize && b.ByteSlab.Length == TotalByteSlabSize
    && b.Count <= BatchSize && b.offset <= 64 * b.Count
    && forall k :: 0 <= k < b.Count ==>
         b.Slab[k].value.InSlab? && b.Slab[k].value.start + b.Slab[k].value.length <= b.offset
  }

  /** A batch ready for staging whose records, read back, are exactly p. */
  ghost predicate Holds(b: RecordBatch, p: seq<Record>)
    reads b, b.Slab, b.ByteSlab
  {
    SlabOk(b) && View(b.Slab[..b.Count], b.ByteSlab[..b.offset]) == p
  }

  /** Two batches that share no object. */
  predicate Separate(a: RecordBatch, b: RecordBatch)
  {
    a != b && a.Slab != b.Slab && a.ByteSlab != b.ByteSlab
  }

  /** A dispatched batch: non-empty, within the slab, published with its last record's offset. */
  predicate DispatchOk(d: Dispatch)
  {
    0 < |d.records| <= BatchSize && d.lastOffset == d.records[|d.records| - 1].offset
  }

  /** What each worker has been handed or has waiting in its slab: Sent plus pending. */
  function Deliveries(ds: seq<Dispatch>, p: seq<seq<Record>>): (q: seq<seq<Record>>)
    ensures |q| == |p|
  {
    seq(|p|, w requires 0 <= w < |p| => Sent(ds, w) + p[w])
  }

  /** Route one more record: it joins the end of its worker's deliveries. */
  function Deliver(q: seq<seq<Record>>, rec: Record): (r: seq<seq<Record>>)
    requires |q| > 0 && Stageable(rec)
    ensures |r| == |q|
  {
    var w := WorkerFor(rec.partition, |q|);
    q[w := q[w] + [rec]]
  }

  /** Route a whole fetch, record by record. */
  function DeliverAll(q: seq<seq<Record>>, fetch: seq<Record>): (r: seq<seq<Record>>)
    requires |q| > 0 && forall k :: 0 <= k < |fetch| ==> Stageable(fetch[k])
    ensures |r| == |q|
  {
    if fetch == [] then q
    else
      assert Stageable(fetch[|fetch| - 1]);
      Deliver(DeliverAll(q, fetch[..|fetch| - 1]), fetch[|fetch| - 1])
  }

  /** Routing a fetch record by record hands worker w exactly Routed(fetch, w). */
  lemma {:induction false} DeliverAllRouted(q: seq<seq<Record>>, fetch: seq<Record>, w: int)
    requires |q| > 0 && 0 <= w < |q| && forall k :: 0 <= k < |fetch| ==> Stageable(fetch[k])
    ensures DeliverAll(q, fetch)[w] == q[w] + Routed(fetch, |q|, w)
  {
    if fetch != [] {
      DeliverAllRouted(q, fetch[..|fetch| - 1], w);
    }
  }

  /** Staging rec in worker w's slab delivers it to w. */
  lemma StagedDelivery(ds: seq<Dispatch>, p: seq<seq<Record>>, w: nat, rec: Record)
    requires w < |p| && Stageable(rec) && WorkerFor(rec.partition, |p|) == w
    ensures Deliveries(ds, p[w := p[w] + [rec]]) == Deliver(Deliveries(ds, p), rec)
  {
    var q := Deliveries(ds, p);
    forall i | 0 <= i < |p|
      ensures Deliveries(ds, p[w := p[w] + [rec]])[i] == Deliver(q, rec)[i]
    {
      if i == w {
        assert Deliver(q, rec)[i] == q[w] + [rec];
      }
    }
  }

  /** Dispatching a slab whose contents are pending[j] moves them from pending to Sent. */
  lemma DispatchedDelivery(ds: seq<Dispatch>, d: Dispatch, p: seq<seq<Record>>, j: nat)
    requires j < |p| && d.worker == j && View(d.records, d.bytes) == p[j]
    ensures Deliveries(ds + [d], p[j := []]) == Deliveries(ds, p)
  {
    forall w | 0 <= w < |p|
      ensures Deliveries(ds + [d], p[j := []])[w] == Deliveries(ds, p)[w]
    {
      SentAppend(ds, d, w);
    }
  }

  /** NewCoordinator: the worker ids minPart, minPart+1, ..., maxPart. */
  function WorkerIds(minPart: int, maxPart: int): (ids: seq<int>)
    requires maxPart - minPart + 1 >= 0
    ensures |ids| == maxPart - minPart + 1
    ensures forall i :: 0 <= i < |ids| ==> ids[i] == minPart + i
  {
    seq(maxPart - minPart + 1, i => minPart + i)
  }

  /** copy(ByteSlab[off:], v): the bytes below off stay, v follows them. */
  method CopyValue(a: array<byte>, off: nat, v: seq<byte>)
    requires off + |v| <= a.Length
    modifies a
    ensures a[..off + |v|] == old(a[..off]) + v
  {
    ghost var before := a[..off];
    var j := 0;
    while j < |v|
      invariant 0 <= j <= |v|
      invariant a[..off] == before
      invariant a[off..off + j] == v[..j]
    {
      a[off + j] := v[j];
      j := j + 1;
    }
    assert a[..off + |v|] == a[..off] + a[off..off + |v|];
  }

  /** Appending a record whose value is the slice of the bytes appended after the old ones
      reads back as the old view followed by the record. */
  lemma ViewAppend(slab: seq<Record>, bytes: seq<byte>, rec: Record)
    requires rec.value.Owned?
    requires forall k :: 0 <= k < |slab| ==>
      slab[k].value.InSlab? && slab[k].value.start + slab[k].value.length <= |bytes|
    ensures View(slab + [rec.(value := InSlab(|bytes|, |rec.value.bytes|))], bytes + rec.value.bytes)
         == View(slab, bytes) + [rec]
  {
    var v := rec.value.bytes;
    var slab', bytes' := slab + [rec.(value := InSlab(|bytes|, |v|))], bytes + v;
    assert bytes'[|bytes|..|bytes| + |v|] == v;
    forall k | 0 <= k < |slab|
      ensures Resolve(slab'[k], bytes') == Resolve(slab[k], bytes)
    {
      var s, n := slab[k].value.start, slab[k].value.length;
      assert slab'[k] == slab[k];
      assert bytes'[s..s + n] == bytes[s..s + n];
    }
  }

  /** One staging step, in place: copy the value into ByteSlab at the offset, store the record
      at Slab[Count] with its Value pointing at the copy, advance the offset and the count. */
  method Stage(b: RecordBatch, rec: Record)
    requires SlabOk(b) && Stageable(rec) && b.Count < BatchSize
    modifies b, b.Slab, b.ByteSlab
    ensures SlabOk(b) && b.Count == old(b.Count) + 1
    ensures b.offset == old(b.offset) + |rec.value.bytes|
    ensures View(b.Slab[..b.Count], b.ByteSlab[..b.offset])
         == View(old(b.Slab[..b.Count]), old(b.ByteSlab[..b.offset])) + [rec]
  {
    var v := rec.value.bytes;
    ghost var oldBytes := b.ByteSlab[..b.offset];
    ghost var oldSlab := b.Slab[..b.Count];
    assert b.offset + |v| <= 64 * (b.Count + 1) <= b.ByteSlab.Length;
    CopyValue(b.ByteSlab, b.offset, v);
    var staged := rec.(value := InSlab(b.offset, |v|));
    b.Slab[b.Count] := staged;
    assert b.Slab[..b.Count + 1] == oldSlab + [staged];
    b.offset := b.offset + |v|;
    b.Count := b.Count + 1;
    ViewAppend(oldSlab, oldBytes, rec);
  }

  /** A batch taken from the pool and reset: empty, and sharing nothing with existing objects. */
  method FreshSlab() returns (b: RecordBatch)
    ensures fresh(b) && fresh(b.Slab) && fresh(b.ByteSlab)
    ensures Holds(b, []) && b.Count == 0 && b.offset == 0
  {
    b := NewRecordBatch();
    b.Reset();
    assert b.Slab[..b.Count] == [];
  }

  class Coordinator {
    const workers: seq<int>
    var activeSlabs: seq<RecordBatch>
    var outbox: seq<Dispatch>
    /** The fetched records staged in each active slab, as fetched. */
    ghost var pending: seq<seq<Record>>
    ghost var Repr: set<object>

    /** Between records: Inv, and no slab is full. */
    ghost predicate Valid()
      reads this, Repr
    {
      Inv() && forall i :: 0 <= i < |activeSlabs| ==> activeSlabs[i].Count < BatchSize
    }

    /** One active slab per worker, pairwise separate, each holding exactly its pending records. */
    ghost predicate Inv()
      reads this, Repr
    {
      |workers| > 0 && |activeSlabs| == |workers| && |pending| == |workers|
      && (forall i :: 0 <= i < |activeSlabs| ==>
            activeSlabs[i] in Repr && activeSlabs[i].Slab in Repr && activeSlabs[i].ByteSlab in Repr
            && Holds(activeSlabs[i], pending[i]))
      && (forall i, j :: 0 <= i < j < |activeSlabs| ==> Separate(activeSlabs[i], activeSlabs[j]))
      && forall k :: 0 <= k < |outbox| ==> DispatchOk(outbox[k])
    }

    /** NewCoordinator: numWorkers = maxPart - minPart + 1 and worker i has id minPart + i. */
    constructor (minPart: int, maxPart: int)
      requires maxPart - minPart + 1 >= 0
      ensures workers == WorkerIds(minPart, maxPart) && activeSlabs == [] && outbox == []
    {
      workers := WorkerIds(minPart, maxPart);
      activeSlabs := [];
      outbox := [];
      pending := [];
      Repr := {};
    }

    /** Run's set-up: one pooled, reset batch per worker. */
    method InitSlabs()
      requires |workers| > 0 && outbox == []
      modifies this
      ensures Valid() && outbox == old(outbox)
      ensures forall i :: 0 <= i < |pending| ==> pending[i] == []
    {
      activeSlabs := [];
      pending := [];
      Repr := {};
      while |activeSlabs| < |workers|
        invariant |activeSlabs| <= |workers| && |pending| == |activeSlabs| && outbox == old(outbox)
        invariant forall i :: 0 <= i < |pending| ==> pending[i] == []
        invariant forall i :: 0 <= i < |activeSlabs| ==>
            activeSlabs[i] in Repr && activeSlabs[i].Slab in Repr && activeSlabs[i].ByteSlab in Repr
            && SlabOk(activeSlabs[i]) && activeSlabs[i].Count == 0 && activeSlabs[i].offset == 0
        invariant forall i, j :: 0 <= i < j < |activeSlabs| ==>
            activeSlabs[i] != activeSlabs[j] && activeSlabs[i].Slab != activeSlabs[j].Slab
            && activeSlabs[i].ByteSlab != activeSlabs[j].ByteSlab
        decreases |workers| - |activeSlabs|
      {
        var b := FreshSlab();
        activeSlabs := activeSlabs + [b];
        pending := pending + [[]];
        Repr := Repr + {b, b.Slab, b.ByteSlab};
      }
      forall i | 0 <= i < |activeSlabs|
        ensures View(activeSlabs[i].Slab[..activeSlabs[i].Count], activeSlabs[i].ByteSlab[..activeSlabs[i].offset]) == pending[i]
      {
      }
    }

    /** dispatch: publish the offset of the batch's last staged record, Slab[Count-1], and hand
        the batch to worker w. */
    method DispatchSlab(w: nat)
      requires Inv() && w < |workers| && activeSlabs[w].Count > 0
      modifies this
      ensures Inv() && activeSlabs == old(activeSlabs) && pending == old(pending) && Repr == old(Repr)
      ensures outbox == old(outbox) + [Dispatch(w, activeSlabs[w].Slab[..activeSlabs[w].Count],
                                                activeSlabs[w].ByteSlab[..activeSlabs[w].offset],
                                                activeSlabs[w].Slab[activeSlabs[w].Count - 1].offset)]
      ensures View(outbox[|outbox| - 1].records, outbox[|outbox| - 1].bytes) == pending[w]
    {
      var batch := activeSlabs[w];
      var lastOffset := batch.Slab[batch.Count - 1].offset;
      outbox := outbox + [Dispatch(w, batch.Slab[..batch.Count], batch.ByteSlab[..batch.offset], lastOffset)];
    }

    /** Put a fresh pooled batch in worker w's place, with nothing pending. */
    method ReplaceSlab(w: nat)
      requires Inv() && w < |workers| && activeSlabs[w].Count > 0
      modifies this
      ensures Inv() && outbox == old(outbox) && |activeSlabs| == |old(activeSlabs)|
      ensures pending == old(pending)[w := []]
      ensures forall i :: 0 <= i < |activeSlabs| && i != w ==> activeSlabs[i] == old(activeSlabs[i])
      ensures fresh(activeSlabs[w]) && fresh(activeSlabs[w].Slab) && fresh(activeSlabs[w].ByteSlab)
      ensures activeSlabs[w].Count == 0
      ensures Repr == old(Repr) + {activeSlabs[w], activeSlabs[w].Slab, activeSlabs[w].ByteSlab}
    {
      var b := FreshSlab();
      assert forall i :: 0 <= i < |activeSlabs| ==> Separate(activeSlabs[i], b) && Separate(b, activeSlabs[i]);
      activeSlabs := activeSlabs[w := b];
      pending := pending[w := []];
      Repr := Repr + {b, b.Slab, b.ByteSlab};
    }

    /** Dispatch worker w's slab and put a fresh one in its place: what was pending for w is
        now in the outbox, so every worker's deliveries stay the same. */
    method DispatchAndReplace(w: nat)
      requires Inv() && w < |workers| && activeSlabs[w].Count > 0
      requires forall i :: 0 <= i < |activeSlabs| && i != w ==> activeSlabs[i].Count < BatchSize
      modifies this
      ensures Valid() && fresh(Repr - old(Repr))
      ensures |outbox| == |old(outbox)| + 1 && outbox[..|old(outbox)|] == old(outbox)
      ensures pending == old(pending)[w := []] && activeSlabs[w].Count == 0
      ensures forall i :: 0 <= i < |activeSlabs| && i != w ==> activeSlabs[i] == old(activeSlabs[i])
      ensures Deliveries(outbox, pending) == Deliveries(old(outbox), old(pending))
    {
      DispatchSlab(w);
      ReplaceSlab(w);
      DispatchedDelivery(old(outbox), outbox[|outbox| - 1], old(pending), w);
      assert outbox[..|old(outbox)|] == old(outbox);
    }

    /** Stage rec in worker w's active slab; no other slab, and nothing dispatched, changes. */
    method StageInto(w: nat, rec: Record)
      requires Valid() && Stageable(rec) && w < |workers|
      modifies activeSlabs[w], activeSlabs[w].Slab, activeSlabs[w].ByteSlab, this
      ensures Inv() && activeSlabs == old(activeSlabs) && outbox == old(outbox) && Repr == old(Repr)
      ensures pending == old(pending)[w := old(pending)[w] + [rec]]
      ensures activeSlabs[w].Count == old(activeSlabs[w].Count) + 1
      ensures forall i :: 0 <= i < |activeSlabs| && i != w ==> activeSlabs[i].Count < BatchSize
    {
      var batch := activeSlabs[w];
      Stage(batch, rec);
      forall i | 0 <= i < |activeSlabs| && i != w
        ensures Holds(activeSlabs[i], pending[i]) && activeSlabs[i].Count < BatchSize
      {
        assert Separate(activeSlabs[i], batch) by {
          if i < w {
            assert Separate(activeSlabs[i], activeSlabs[w]);
          } else {
            assert Separate(activeSlabs[w], activeSlabs[i]);
          }
        }
        assert old(Holds(activeSlabs[i], pending[i]));
      }
      pending := pending[w := pending[w] + [rec]];
    }

    /** The body of the record loop: stage rec in its worker's slab and dispatch that slab
        once it holds 50000 records. */
    method StageRecord(rec: Record)
      requires Valid() && Stageable(rec)
      modifies this, Repr
      ensures Valid() && fresh(Repr - old(Repr))
      ensures |outbox| >= |old(outbox)| && outbox[..|old(outbox)|] == old(outbox)
      ensures Deliveries(outbox, pending) == Deliver(Deliveries(old(outbox), old(pending)), rec)
    {
      var w := WorkerFor(rec.partition, |workers|);
      StagedDelivery(outbox, pending, w, rec);
      StageInto(w, rec);
      if activeSlabs[w].Count >= BatchSize {
        DispatchAndReplace(w);
      }
    }

    /** The end-of-poll loop: dispatch every non-empty slab and replace it by a reset one. */
    method FlushSlabs()
      requires Valid()
      modifies this, Repr
      ensures Valid() && fresh(Repr - old(Repr))
      ensures forall w :: 0 <= w < |pending| ==> pending[w] == [] && activeSlabs[w].Count == 0
      ensures |outbox| >= |old(outbox)| && outbox[..|old(outbox)|] == old(outbox)
      ensures Deliveries(outbox, pending) == Deliveries(old(outbox), old(pending))
    {
      var j := 0;
      while j < |workers|
        invariant 0 <= j <= |workers| && Valid()
        invariant fresh(Repr - old(Repr))
        invariant |outbox| >= |old(outbox)| && outbox[..|old(outbox)|] == old(outbox)
        invariant forall w :: 0 <= w < j ==> pending[w] == [] && activeSlabs[w].Count == 0
        invariant Deliveries(outbox, pending) == Deliveries(old(outbox), old(pending))
      {
        if activeSlabs[j].Count > 0 {
          ghost var before := outbox;
          DispatchAndReplace(j);
          assert outbox[..|old(outbox)|] == old(outbox) by {
            assert outbox[..|before|] == before;
            assert before[..|old(outbox)|] == old(outbox);
          }
        } else {
          assert |pending[j]| == 0;
        }
        j := j + 1;
      }
    }

    /** One poll of Run: stage every fetched record, then flush every non-empty slab. Every
        worker is handed exactly the records routed to it, in fetch order, and nothing stays
        staged. */
    method Poll(fetch: seq<Record>)
      requires Valid() && forall k :: 0 <= k < |fetch| ==> Stageable(fetch[k])
      modifies this, Repr
      ensures Valid()
      ensures forall w :: 0 <= w < |pending| ==> pending[w] == [] && activeSlabs[w].Count == 0
      ensures |outbox| >= |old(outbox)| && outbox[..|old(outbox)|] == old(outbox)
      ensures forall w :: 0 <= w < |workers| ==>
        Sent(outbox, w) == Sent(old(outbox), w) + old(pending)[w] + Routed(fetch, |workers|, w)
    {
      ghost var start := Deliveries(outbox, pending);
      StageAll(fetch);
      ghost var staged := outbox;
      FlushSlabs();
      assert outbox[..|old(outbox)|] == old(outbox) by {
        assert outbox[..|staged|] == staged;
        assert staged[..|old(outbox)|] == old(outbox);
      }
      forall w | 0 <= w < |workers|
        ensures Sent(outbox, w) == Sent(old(outbox), w) + old(pending)[w] + Routed(fetch, |workers|, w)
      {
        DeliverAllRouted(start, fetch, w);
        assert Deliveries(outbox, pending)[w] == Sent(outbox, w) + [];
      }
    }

    /** Poll's record loop: stage every fetched record in fetch order. */
    method StageAll(fetch: seq<Record>)
      requires Valid() && forall k :: 0 <= k < |fetch| ==> Stageable(fetch[k])
      modifies this, Repr
      ensures Valid() && fresh(Repr - old(Repr))
      ensures |outbox| >= |old(outbox)| && outbox[..|old(outbox)|] == old(outbox)
      ensures Deliveries(outbox, pending) == DeliverAll(Deliveries(old(outbox), old(pending)), fetch)
    {
      ghost var start := Deliveries(outbox, pending);
      var i := 0;
      while i < |fetch|
        invariant 0 <= i <= |fetch| && Valid()
        invariant fresh(Repr - old(Repr))
        invariant |outbox| >= |old(outbox)| && outbox[..|old(outbox)|] == old(outbox)
        invariant Deliveries(outbox, pending) == DeliverAll(start, fetch[..i])
      {
        ghost var before := outbox;
        StageRecord(fetch[i]);
        assert fetch[..i + 1] == fetch[..i] + [fetch[i]];
        assert fetch[..i + 1][..i] == fetch[..i];
        assert outbox[..|old(outbox)|] == old(outbox) by {
          assert before[..|old(outbox)|] == old(outbox);
        }
        i := i + 1;
      }
      assert fetch[..i] == fetch;
    }

    /** Stop: stop the workers in index order and return the first error, leaving the workers
        after it running. `results[i]` is what worker i's Stop returns. */
    method Stop(results: seq<Outcome>) returns (err: Outcome, stopped: nat)
      requires |results| == |workers|
      ensures stopped <= |workers|
      ensures forall i :: 0 <= i < stopped - 1 ==> results[i] == Nil
      ensures err == Nil <==> stopped == |workers| && forall i :: 0 <= i < |workers| ==> results[i] == Nil
      ensures err != Nil ==> stopped >= 1 && err == results[stopped - 1]
    {
      stopped := 0;
      while stopped < |workers|
        invariant stopped <= |workers|
        invariant forall i :: 0 <= i < stopped ==> results[i] == Nil
      {
        var r := results[stopped];
        stopped := stopped + 1;
        if r != Nil {
          return r, stopped;
        }
      }
      return Nil, stopped;
    }
  }
}
