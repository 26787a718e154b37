/** internal/storage/binary.go: EfficientWriteBatch. In one database transaction it truncates
    the worker's staging table, COPYs a binary buffer of the source's rows into it, merges the
    staging table into the transactions, sets the worker partition's Kafka offset and commits.
    The source (its row count, its opaque per-row EncodeRow and its Offset) is given as
    parameters, the statement that fails as `failing`, and the clock as (unix, ns). The
    transactions table is abstracted to the list of row payloads merged into it. */
module BinaryBatch {
  import opened Bytes
  import opened Results
  import opened CopyFormat

  /** The steps of the unit, in the order they are issued. */
  datatype Step = BeginStep | TruncateStep | CopyStep | MergeStep | OffsetStep | CommitStep

  /** What the database is sent. */
  datatype Statement =
    | Begin
    | TruncateStaging(worker: int)
    | CopyIn(worker: int, buf: seq<byte>)
    | MergeStaging(worker: int)
    | SetOffset(partition: int, offset: int, updatedAt: int)
    | Commit
    | Rollback

  /** The statements of a unit whose step `failing` fails (None: none fails), in order. Once
      Begin succeeded, the deferred Rollback runs last; after a successful Commit it is a
      no-op. */
  function Statements(worker: int, buf: seq<byte>, offset: int, now: int, failing: Option<Step>): (s: seq<Statement>)
    ensures |s| >= 1 && s[0] == Begin
  {
    var full := [Begin, TruncateStaging(worker), CopyIn(worker, buf), MergeStaging(worker),
                 SetOffset(worker, offset, now), Commit];
    match failing
    case None => full + [Rollback]
    case Some(BeginStep) => [Begin]
    case Some(step) => full[..StepIndex(step) + 1] + [Rollback]
  }

  /** The position of a step in the unit. */
  function StepIndex(s: Step): (i: nat)
    ensures i < 6
  {
    match s
    case BeginStep => 0
    case TruncateStep => 1
    case CopyStep => 2
    case MergeStep => 3
    case OffsetStep => 4
    case CommitStep => 5
  }

  /** A unit where nothing fails issues every statement in the fixed order, COPYing the framed
      rows and recording the source's offset for the worker's partition. */
  lemma StatementOrder(worker: int, chunks: seq<seq<byte>>, offset: int, now: int)
    ensures Statements(worker, Frame(Concat(chunks)), offset, now, None) ==
      [Begin, TruncateStaging(worker), CopyIn(worker, Frame(Concat(chunks))), MergeStaging(worker),
       SetOffset(worker, offset, now), Commit, Rollback]
  {
  }

  /** Every failing unit issues a prefix of the full unit and never reaches Commit unless it
      is the commit that fails; whatever precedes the failure ran in order. */
  lemma FailureStopsBeforeCommit(worker: int, buf: seq<byte>, offset: int, now: int, step: Step)
    ensures var s := Statements(worker, buf, offset, now, Some(step));
      var full := Statements(worker, buf, offset, now, None);
      (Commit in s <==> step == CommitStep)
      && s[..|s| - 1] == full[..|s| - 1]
      && (step != BeginStep ==> s[|s| - 1] == Rollback && |s| == StepIndex(step) + 2)
  {
    var s := Statements(worker, buf, offset, now, Some(step));
    var t, c, m, o := TruncateStaging(worker), CopyIn(worker, buf), MergeStaging(worker), SetOffset(worker, offset, now);
    match step
    case BeginStep => assert s == [Begin];
    case TruncateStep => assert s == [Begin, t, Rollback];
    case CopyStep => assert s == [Begin, t, c, Rollback];
    case MergeStep => assert s == [Begin, t, c, m, Rollback];
    case OffsetStep => assert s == [Begin, t, c, m, o, Rollback];
    case CommitStep => assert s == [Begin, t, c, m, o, Commit, Rollback];
  }

  /** The rows of the source, in index order: EncodeRow(buf, i, rawTime) for i < count. */
  function SourceRows(count: nat, encodeRow: (nat, nat) -> seq<byte>, rawTime: nat): (chunks: seq<seq<byte>>)
    ensures |chunks| == count
  {
    seq(count, i requires 0 <= i < count => encodeRow(i, rawTime))
  }

  class Store {
    /** kafka_offsets: last_offset per partition_id. */
    var kafkaOffsets: map<int, int>
    /** The COPY payloads merged into the transactions table by committed units, in order. */
    var merged: seq<seq<byte>>
    /** Every statement sent, in order. */
    var log: seq<Statement>

    constructor (offsets: map<int, int>)
      ensures kafkaOffsets == offsets && merged == [] && log == []
    {
      kafkaOffsets := offsets;
      merged := [];
      log := [];
    }

    /** EfficientWriteBatch: the unit's statements are logged in order; only a unit whose
        every step succeeds changes the tables, and the offset row is updated only when the
        partition has one (an UPDATE of a missing row changes nothing). */
    method EfficientWriteBatch(workerId: int, count: nat, encodeRow: (nat, nat) -> seq<byte>, offset: int,
                               unix: int, ns: nat, failing: Option<Step>) returns (err: Outcome)
      modifies this
      ensures err == Nil <==> failing.None?
      ensures log == old(log) + Statements(workerId, Frame(Concat(SourceRows(count, encodeRow, RawTimeUnsigned(unix, ns)))),
                                           offset, unix, failing)
      ensures failing.None? ==> merged == old(merged) + [Concat(SourceRows(count, encodeRow, RawTimeUnsigned(unix, ns)))]
      ensures failing.None? ==> (kafkaOffsets ==
        if workerId in old(kafkaOffsets) then old(kafkaOffsets)[workerId := offset] else old(kafkaOffsets))
      ensures failing.Some? ==> merged == old(merged) && kafkaOffsets == old(kafkaOffsets)
    {
      var rawTime := RawTimeUnsigned(unix, ns);
      var chunks := SourceRows(count, encodeRow, rawTime);
      var issued;
      issued, err := RunUnit(workerId, chunks, offset, unix, failing);
      log := log + issued;
      if err == Nil {
        merged := merged + [Concat(chunks)];
        if workerId in kafkaOffsets {
          kafkaOffsets := kafkaOffsets[workerId := offset];
        }
      }
    }
  }

  /** The statement sequence of one unit, stopping at the failing step: Begin, truncate the
      staging table, build and COPY the buffer, merge, set the offset, commit. */
  method RunUnit(workerId: int, chunks: seq<seq<byte>>, offset: int, now: int, failing: Option<Step>)
    returns (issued: seq<Statement>, err: Outcome)
    ensures err == Nil <==> failing.None?
    ensures issued == Statements(workerId, Frame(Concat(chunks)), offset, now, failing)
  {
    var stop := if failing.Some? then StepIndex(failing.value) else 6;
    ghost var full := [Begin, TruncateStaging(workerId), CopyIn(workerId, Frame(Concat(chunks))),
                       MergeStaging(workerId), SetOffset(workerId, offset, now), Commit];
    issued := [Begin];
    if stop == 0 {
      return issued, Fail("begin failed");
    }
    issued := issued + [TruncateStaging(workerId)];
    assert issued == full[..2];
    if stop == 1 {
      return issued + [Rollback], Fail("truncate failed");
    }
    var buf := BuildFrame(chunks);
    issued := issued + [CopyIn(workerId, buf)];
    assert issued == full[..3];
    if stop == 2 {
      return issued + [Rollback], Fail("copy failed");
    }
    issued := issued + [MergeStaging(workerId)];
    assert issued == full[..4];
    if stop == 3 {
      return issued + [Rollback], Fail("merge failed");
    }
    issued := issued + [SetOffset(workerId, offset, now)];
    assert issued == full[..5];
    if stop == 4 {
      return issued + [Rollback], Fail("offset update failed");
    }
    issued := issued + [Commit];
    assert issued == full[..6];
    if stop == 5 {
      return issued + [Rollback], Fail("commit failed");
    }
    issued := issued + [Rollback];
    err := Nil;
  }
}
