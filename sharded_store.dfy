/** internal/storage/shardedstore.go: a store over several database shards, each request
    routed by the UUID's low eight bytes. */
module ShardedStores {
  import opened Bytes
  import opened Uuid
  import opened Model
  import opened Results

  /** The tables of one shard's pool, as the storage generation's per-shard stores read them. */
  datatype Shard = Shard(accounts: map<Uuid, Account>, transactions: map<Uuid, Transaction>)

  datatype ShardedStore = ShardedStore(shards: seq<Shard>, numShards: int)

  /** The shard index: binary.BigEndian.Uint64(uid[8:16]) % numShards. A zero shard count
      would divide by zero. */
  function GetShard(uid: Uuid, numShards: int): (k: nat)
    requires numShards > 0
    ensures k < numShards
  {
    BigEndian(uid[8..16]) % numShards
  }

  /** NewShardedStore: shard i is built from pools[i] and numShards is len(pools). */
  function NewShardedStore(pools: seq<Shard>): (s: ShardedStore)
    ensures Routable(s) <==> |pools| > 0
    ensures s.numShards == |pools| && forall i :: 0 <= i < |pools| ==> s.shards[i] == pools[i]
  {
    ShardedStore(pools, |pools|)
  }

  /** A store that can route: one shard per index and at least one shard. */
  predicate Routable(s: ShardedStore)
  {
    s.numShards == |s.shards| && s.numShards > 0
  }

  /** GetAccount on the routed shard, as AccountStore.GetAccount answers it: a failed Query,
      or a failed CollectOneRow other than "no rows", is (nil, err); "no rows" is (nil, nil). */
  function GetAccount(s: ShardedStore, uid: Uuid, queryFails: bool, scanFails: bool): (r: (Option<Account>, Outcome))
    requires Routable(s)
    ensures queryFails ==> r.0.None? && r.1.Fail?
    ensures !queryFails && uid !in s.shards[GetShard(uid, s.numShards)].accounts ==> r == (None, Nil)
    ensures !queryFails && scanFails && uid in s.shards[GetShard(uid, s.numShards)].accounts ==> r.0.None? && r.1.Fail?
    ensures r.0.Some? <==> !queryFails && !scanFails && uid in s.shards[GetShard(uid, s.numShards)].accounts
    ensures r.0.Some? ==> r.0.value == s.shards[GetShard(uid, s.numShards)].accounts[uid] && r.1 == Nil
  {
    var shard := s.shards[GetShard(uid, s.numShards)];
    if queryFails then (None, Fail("query failed"))
    else if uid !in shard.accounts then (None, Nil)
    else if scanFails then (None, Fail("scan failed"))
    else (Some(shard.accounts[uid]), Nil)
  }

  /** GetTransaction on the routed shard, with TransactionStore.GetTransaction's same three
      outcomes: an error, nil for not found, or the row. */
  function GetTransaction(s: ShardedStore, uid: Uuid, queryFails: bool, scanFails: bool): (r: (Option<Transaction>, Outcome))
    requires Routable(s)
    ensures queryFails ==> r.0.None? && r.1.Fail?
    ensures !queryFails && uid !in s.shards[GetShard(uid, s.numShards)].transactions ==> r == (None, Nil)
    ensures !queryFails && scanFails && uid in s.shards[GetShard(uid, s.numShards)].transactions ==> r.0.None? && r.1.Fail?
    ensures r.0.Some? <==> !queryFails && !scanFails && uid in s.shards[GetShard(uid, s.numShards)].transactions
    ensures r.0.Some? ==> r.0.value == s.shards[GetShard(uid, s.numShards)].transactions[uid] && r.1 == Nil
  {
    var shard := s.shards[GetShard(uid, s.numShards)];
    if queryFails then (None, Fail("query failed"))
    else if uid !in shard.transactions then (None, Nil)
    else if scanFails then (None, Fail("scan failed"))
    else (Some(shard.transactions[uid]), Nil)
  }

  /** Bytes 0..7 (for version 7: the timestamp, the version and rand_a) never influence the shard. */
  lemma ShardIgnoresHighBytes(u: Uuid, v: Uuid, numShards: int)
    requires numShards > 0 && u[8..] == v[8..]
    ensures GetShard(u, numShards) == GetShard(v, numShards)
  {
    assert u[8..16] == u[8..][..8] == v[8..][..8] == v[8..16];
  }

  /** With a single pool every UUID goes to shard 0. */
  lemma SingleShard(u: Uuid)
    ensures GetShard(u, 1) == 0
  {
  }

  /** With two shards the parity of the last byte decides. */
  lemma {:induction false} TwoShards(u: Uuid)
    ensures GetShard(u, 2) == u[15] as nat % 2
  {
    var s := u[8..16];
    var p := BigEndian(s[..7]);
    assert BigEndian(s) == p * 256 + u[15] as nat;
    assert BigEndian(s) == (p * 128 + u[15] as nat / 2) * 2 + u[15] as nat % 2;
    ModOfDecomposition(BigEndian(s), p * 128 + u[15] as nat / 2, u[15] as nat % 2, 2);
  }

  /** The 62 random bits of rand_b: the low six bits of byte 8 and bytes 9..15. */
  function RandB(u: Uuid): (r: nat)
    ensures r < 0x4000_0000_0000_0000
  {
    var lead := (u[8] as int % 64) as byte;
    BigEndianBound([lead] + u[9..16]);
    assert Pow256(7) == 0x100_0000_0000_0000;
    BigEndianFront([lead] + u[9..16]);
    assert ([lead] + u[9..16])[1..] == u[9..16];
    BigEndianBound(u[9..16]);
    BigEndian([lead] + u[9..16])
  }

  /** For a UUID with the RFC 9562 variant (every version 7 UUID), the routed value is
      2^63 (the variant bits) plus rand_b, so the shard is a function of rand_b alone. */
  lemma {:induction false} VariantShard(u: Uuid, numShards: int)
    requires numShards > 0 && IsRfcVariant(u)
    ensures GetShard(u, numShards) == (0x8000_0000_0000_0000 + RandB(u)) % numShards
  {
    var lead := (u[8] as int % 64) as byte;
    BigEndianFront(u[8..16]);
    BigEndianFront([lead] + u[9..16]);
    assert u[8..16][1..] == u[9..16] && ([lead] + u[9..16])[1..] == u[9..16];
    assert Pow256(7) == 0x100_0000_0000_0000;
    assert u[8] as nat == 128 + lead as nat;
    assert BigEndian(u[8..16]) == 0x8000_0000_0000_0000 + RandB(u);
  }
}
