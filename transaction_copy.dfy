/** internal/storage/transactioncopy.go: TransactionCopySource, the pgx.CopyFromSource that
    feeds a batch of requests to COPY. Next advances pos; Values stamps seed + 1 big-endian into
    bytes 12..15 of the base UUID and reports the current row's six columns. uuid.NewV7,
    rand.Uint32 and time.Now become constructor parameters. */
module CopySources {
  import opened Bytes
  import opened Results
  import opened Uuid

  /** The fields of an api.CreateTransactionRequest the source reads. */
  datatype CreateTransactionRequest = CreateTransactionRequest(accountId: Uuid, amount: int, txType: int)

  /** One value of a row: the Go types the COPY columns receive. */
  datatype Value = NilValue | UuidValue(u: Uuid) | IntValue(i: int) | TimeValue(t: int)

  /** The columns COPY names, in order (internal/storage/transactionstore.go:104). */
  const Columns: seq<string> := ["id", "account_id", "amount", "transaction_type", "created_at", "partition_key"]

  /** The six values of a row, in column order. */
  function Row(id: Uuid, tx: CreateTransactionRequest, now: int, partitionKey: int): (r: seq<Value>)
    ensures |r| == |Columns|
  {
    [UuidValue(id), UuidValue(tx.accountId), IntValue(tx.amount), IntValue(tx.txType), TimeValue(now), IntValue(partitionKey)]
  }

  /** The id the k-th Values call (k >= 1) reports: the base UUID with its last four bytes
      replaced by seed0 + k modulo 2^32. */
  function IdAt(base: Uuid, seed0: nat, k: nat): (id: Uuid)
  {
    base[..12] + ToBigEndian((seed0 + k) % TWO_32, 4)
  }

  /** Stamping never touches bytes 0..11, so the version and variant fields of the base UUID
      stay as they were (section 4.1 and 4.2 of RFC 9562). */
  lemma IdKeepsPrefix(base: Uuid, seed0: nat, k: nat)
    ensures IdAt(base, seed0, k)[..12] == base[..12]
    ensures Version(IdAt(base, seed0, k)) == Version(base)
    ensures IsRfcVariant(IdAt(base, seed0, k)) == IsRfcVariant(base)
  {
    var id := IdAt(base, seed0, k);
    assert id[6] == base[6] && id[8] == base[8];
  }

  /** Fewer than 2^32 calls apart, two ids differ. */
  lemma IdsDistinct(base: Uuid, seed0: nat, j: nat, k: nat)
    requires j < k < j + TWO_32
    ensures IdAt(base, seed0, j) != IdAt(base, seed0, k)
  {
    var a, b := (seed0 + j) % TWO_32, (seed0 + k) % TWO_32;
    if a == b {
      var qa, qb := (seed0 + j) / TWO_32, (seed0 + k) / TWO_32;
      assert k - j == (qb - qa) * TWO_32;
      MulSign(qb - qa, TWO_32);
      assert false;
    }
    Pow256Values();
    ToBigEndianInjective(a, b, 4);
    assert IdAt(base, seed0, j)[12..] == ToBigEndian(a, 4);
    assert IdAt(base, seed0, k)[12..] == ToBigEndian(b, 4);
  }

  /** The bound is tight: 2^32 calls later the seed has wrapped and the id repeats. */
  lemma IdsRepeatAfterWrap(base: Uuid, seed0: nat, k: nat)
    ensures IdAt(base, seed0, k + TWO_32) == IdAt(base, seed0, k)
  {
    ModOfDecomposition(seed0 + k + TWO_32, (seed0 + k) / TWO_32 + 1, (seed0 + k) % TWO_32, TWO_32);
  }

  class TransactionCopySource {
    var rows: seq<CreateTransactionRequest>
    var pos: int
    /** The six slots Values fills and returns. */
    var buf: seq<Value>
    var now: int
    var partitionKey: int
    var baseUuid: Uuid
    /** A uint32. */
    var seed: nat

    /** NewTransactionCopySource: pos 0, six empty slots; uid, seed and now are the values
        uuid.NewV7, rand.Uint32 and time.Now gave. */
    constructor (txs: seq<CreateTransactionRequest>, partitionKey: int, uid: Uuid, seed: nat, now: int)
      requires seed < TWO_32
      ensures rows == txs && pos == 0 && buf == seq(6, _ => NilValue)
      ensures this.partitionKey == partitionKey && baseUuid == uid && this.seed == seed && this.now == now
    {
      rows := txs;
      pos := 0;
      buf := seq(6, _ => NilValue);
      this.now := now;
      this.partitionKey := partitionKey;
      baseUuid := uid;
      this.seed := seed;
    }

    /** Next: advance, and report whether pos still names a row. */
    method Next() returns (more: bool)
      modifies this
      ensures pos == old(pos) + 1 && more == (pos <= |rows|)
      ensures rows == old(rows) && buf == old(buf) && partitionKey == old(partitionKey)
      ensures baseUuid == old(baseUuid) && seed == old(seed) && now == old(now)
    {
      pos := pos + 1;
      more := pos <= |rows|;
    }

    /** Values: seed++ (uint32), stamp it into bytes 12..15 of baseUUID, and fill the slots
        with the id snapshot and row pos-1. A pos outside 1..len(rows) indexes out of range. */
    method Values() returns (vals: seq<Value>, err: Outcome)
      requires 1 <= pos <= |rows|
      modifies this
      ensures rows == old(rows) && pos == old(pos) && partitionKey == old(partitionKey) && now == old(now)
      ensures seed == (old(seed) + 1) % TWO_32
      ensures baseUuid == old(baseUuid)[..12] + ToBigEndian(seed, 4)
      ensures vals == Row(baseUuid, rows[pos - 1], now, partitionKey) && buf == vals && err == Nil
    {
      seed := (seed + 1) % TWO_32;
      baseUuid := baseUuid[..12] + ToBigEndian(seed, 4);
      var uid := baseUuid;
      var tx := rows[pos - 1];
      buf := Row(uid, tx, now, partitionKey);
      return buf, Nil;
    }

    /** Err: the source never fails. */
    function Err(): (e: Outcome)
    {
      Nil
    }
  }

  /** What COPY reads from a source: call Next until it is false and Values after every true
      one. From pos 0 Next is true exactly len(rows) times; row k carries the (k+1)-th id and
      the fields of request k. */
  method CopyAll(src: TransactionCopySource) returns (copied: seq<seq<Value>>, nexts: nat)
    requires src.pos == 0 && src.seed < TWO_32
    modifies src
    ensures src.rows == old(src.rows) && src.partitionKey == old(src.partitionKey) && src.now == old(src.now)
    ensures nexts == |src.rows| + 1 && |copied| == |src.rows|
    ensures forall k :: 0 <= k < |copied| ==>
      copied[k] == Row(IdAt(old(src.baseUuid), old(src.seed), k + 1), src.rows[k], src.now, src.partitionKey)
  {
    ghost var base, seed0 := src.baseUuid, src.seed;
    copied := [];
    nexts := 1;
    var more := src.Next();
    while more
      invariant src.pos == |copied| + 1 && nexts == src.pos
      invariant more == (src.pos <= |src.rows|) && |copied| <= |src.rows|
      invariant src.rows == old(src.rows) && src.partitionKey == old(src.partitionKey) && src.now == old(src.now)
      invariant src.baseUuid == IdAt(base, seed0, |copied|) || |copied| == 0
      invariant |copied| == 0 ==> src.baseUuid == base
      invariant src.seed == (seed0 + |copied|) % TWO_32
      invariant forall k :: 0 <= k < |copied| ==>
        copied[k] == Row(IdAt(base, seed0, k + 1), src.rows[k], src.now, src.partitionKey)
      decreases |src.rows| + 1 - src.pos
    {
      var vals, _ := src.Values();
      SuccMod(seed0 + |copied|, TWO_32);
      copied := copied + [vals];
      more := src.Next();
      nexts := nexts + 1;
    }
  }
}
