/** cmd/seeder/main.go: connect one pool per shard, make the account ids, empty the accounts
    tables, insert every id into the shard the sharded store routes it to, and write the ids
    to a file one per line. A shard's accounts table is modelled as a map from id to balance;
    the insert that fails, the uuid draws and the write that fails are parameters. */
module Seeder {
  import opened Bytes
  import opened Results
  import opened Uuid
  import Text
  import ShardedStores

  /** The first shard's PostgreSQL port; shard i listens on FirstPort + i. */
  const FirstPort := 5432

  /** The balance every seeded account starts with. */
  const SeedBalance := 1000

  /** getShard, written out again in the seeder: big-endian uint64 of bytes 8..15 mod numShards. */
  function GetShard(uid: Uuid, numShards: int): (k: nat)
    requires numShards > 0
    ensures k < numShards
  {
    BigEndian(uid[8..16]) % numShards
  }

  /** The seeder's copy of the formula agrees with the sharded store's. */
  lemma SameShardAsStore(uid: Uuid, numShards: int)
    requires numShards > 0
    ensures GetShard(uid, numShards) == ShardedStores.GetShard(uid, numShards)
  {
  }

  /** makePools: one pool per shard, each named by the port its URL uses. A missing SEED_URL
      fails at the first shard; the shard `failing` names ends the loop there, with the ping's
      message when `pingFails` and the connect's otherwise. */
  method MakePools(numShards: nat, seedUrlSet: bool, failing: Option<nat>, pingFails: bool) returns (r: Result<seq<nat>>)
    ensures numShards == 0 ==> r == Ok([])
    ensures numShards > 0 && !seedUrlSet ==> r == Err("Database URL not set")
    ensures r.Ok? <==> numShards == 0 || (seedUrlSet && (failing.None? || failing.value >= numShards))
    ensures r.Err? && seedUrlSet ==>
      r.msg == (if pingFails then "Failed to ping database" else "Failed to connect to database shard")
    ensures r.Ok? ==> |r.value| == numShards && forall i :: 0 <= i < numShards ==> r.value[i] == FirstPort + i
  {
    var pools: seq<nat> := [];
    for i := 0 to numShards
      invariant |pools| == i && forall k :: 0 <= k < i ==> pools[k] == FirstPort + k
      invariant seedUrlSet || i == 0
      invariant failing.None? || failing.value >= i
    {
      if !seedUrlSet {
        return Err("Database URL not set");
      }
      if failing == Some(i) {
        if pingFails {
          return Err("Failed to ping database");
        }
        return Err("Failed to connect to database shard");
      }
      pools := pools + [FirstPort + i];
    }
    return Ok(pools);
  }

  /** makeUUIDs: n calls of uuid.NewV7, whose outcomes are `draws`; the first failed draw
      fails the whole call. */
  method MakeUuids(n: nat, draws: seq<Option<Uuid>>) returns (r: Result<seq<Uuid>>)
    requires |draws| >= n
    ensures r.Ok? <==> forall i :: 0 <= i < n ==> draws[i].Some?
    ensures r.Ok? ==> |r.value| == n && forall i :: 0 <= i < n ==> r.value[i] == draws[i].value
  {
    var uuids: seq<Uuid> := [];
    for i := 0 to n
      invariant |uuids| == i && forall k :: 0 <= k < i ==> draws[k].Some? && uuids[k] == draws[k].value
    {
      if draws[i].None? {
        return Err("Failed to generate UUIDv7");
      }
      uuids := uuids + [draws[i].value];
    }
    return Ok(uuids);
  }

  /** truncateTables: empty every shard's accounts table in order, stopping at the first
      failure; the tables before it are empty, the failing one and the rest unchanged. */
  method TruncateTables(tables: seq<map<Uuid, int>>, failing: Option<nat>)
    returns (err: Outcome, result: seq<map<Uuid, int>>)
    ensures |result| == |tables|
    ensures err == Nil <==> failing.None? || failing.value >= |tables|
    ensures forall i :: 0 <= i < |tables| ==>
      result[i] == if failing.None? || i < failing.value then map[] else tables[i]
  {
    result := tables;
    for i := 0 to |tables|
      invariant |result| == |tables| && (failing.None? || failing.value >= i)
      invariant forall k :: 0 <= k < |tables| ==> result[k] == if k < i then map[] else tables[k]
    {
      if failing == Some(i) {
        return Fail("Failed to truncate accounts table"), result;
      }
      result := result[i := map[]];
    }
    return Nil, result;
  }

  /** The tables after inserting every id of `uuids`, in order, with balance 1000 into the shard
      getShard picks. */
  function Seeded(tables: seq<map<Uuid, int>>, uuids: seq<Uuid>): (r: seq<map<Uuid, int>>)
    requires |tables| > 0
    ensures |r| == |tables|
  {
    if uuids == [] then tables
    else
      var u := uuids[|uuids| - 1];
      var prev := Seeded(tables, uuids[..|uuids| - 1]);
      var s := GetShard(u, |tables|);
      prev[s := prev[s][u := SeedBalance]]
  }

  /** seedDatabase: insert every id into pools[getShard(uid)] with balance 1000; the insert
      of uuids[k] fails when failing == Some(k), and seeding stops there. */
  method SeedDatabase(tables: seq<map<Uuid, int>>, uuids: seq<Uuid>, failing: Option<nat>)
    returns (err: Outcome, result: seq<map<Uuid, int>>)
    requires |tables| > 0
    ensures err == Nil <==> failing.None? || failing.value >= |uuids|
    ensures err == Nil ==> result == Seeded(tables, uuids)
    ensures err != Nil ==> result == Seeded(tables, uuids[..failing.value])
  {
    result := tables;
    var numShards := |tables|;
    for k := 0 to |uuids|
      invariant |result| == numShards && (failing.None? || failing.value >= k)
      invariant result == Seeded(tables, uuids[..k])
    {
      var shardIndex := GetShard(uuids[k], numShards);
      if failing == Some(k) {
        return Fail("Failed to insert account"), result;
      }
      assert uuids[..k + 1][..k] == uuids[..k];
      result := result[shardIndex := result[shardIndex][uuids[k] := SeedBalance]];
    }
    assert uuids[..|uuids|] == uuids;
    return Nil, result;
  }

  /** After seeding, every id is on the shard the sharded store reads it from, with balance
      1000. */
  lemma {:induction false} SeededWhereStoreLooks(tables: seq<map<Uuid, int>>, uuids: seq<Uuid>, k: int)
    requires |tables| > 0 && 0 <= k < |uuids|
    ensures var s := ShardedStores.GetShard(uuids[k], |tables|);
      uuids[k] in Seeded(tables, uuids)[s] && Seeded(tables, uuids)[s][uuids[k]] == SeedBalance
  {
    SameShardAsStore(uuids[k], |tables|);
    if k < |uuids| - 1 {
      SeededWhereStoreLooks(tables, uuids[..|uuids| - 1], k);
    }
  }

  /** Seeding adds an id to a shard only when it is one of the seeded ids and that shard is
      the one it routes to; every other entry keeps its balance. */
  lemma {:induction false} SeededOnlyOwnShard(tables: seq<map<Uuid, int>>, uuids: seq<Uuid>, s: int, u: Uuid)
    requires |tables| > 0 && 0 <= s < |tables|
    requires u !in uuids || ShardedStores.GetShard(u, |tables|) != s
    ensures u in Seeded(tables, uuids)[s] <==> u in tables[s]
    ensures u in tables[s] ==> Seeded(tables, uuids)[s][u] == tables[s][u]
  {
    if uuids != [] {
      var init := uuids[..|uuids| - 1];
      assert u !in init || ShardedStores.GetShard(u, |tables|) != s by {
        if u in init {
          var i :| 0 <= i < |init| && init[i] == u;
          assert uuids[i] == u;
        }
      }
      SeededOnlyOwnShard(tables, init, s, u);
      SameShardAsStore(uuids[|uuids| - 1], |tables|);
    }
  }

  /** The canonical strings of the ids, in order. */
  function Lines(data: seq<Uuid>): (lines: seq<string>)
    ensures |lines| == |data|
  {
    seq(|data|, i requires 0 <= i < |data| => ToString(data[i]))
  }

  /** writeToFile: create the file, then write uid.String() + "\n" for every id in order; a
      failed create writes nothing and a failed write of data[k] stops after k lines. */
  method WriteToFile(data: seq<Uuid>, createFails: bool, failing: Option<nat>)
    returns (err: Outcome, contents: string)
    ensures createFails ==> err == Fail("Failed to create file") && contents == ""
    ensures err == Nil <==> !createFails && (failing.None? || failing.value >= |data|)
    ensures err == Nil ==> contents == Text.Terminated(Lines(data), '\n')
    ensures !createFails && err != Nil ==> contents == Text.Terminated(Lines(data[..failing.value]), '\n')
  {
    contents := "";
    if createFails {
      return Fail("Failed to create file"), contents;
    }
    for k := 0 to |data|
      invariant failing.None? || failing.value >= k
      invariant contents == Text.Terminated(Lines(data[..k]), '\n')
    {
      if failing == Some(k) {
        return Fail("Failed to write to file"), contents;
      }
      TerminatedSnoc(Lines(data[..k]), ToString(data[k]));
      assert Lines(data[..k + 1]) == Lines(data[..k]) + [ToString(data[k])];
      contents := contents + ToString(data[k]) + "\n";
    }
    assert data[..|data|] == data;
    return Nil, contents;
  }

  /** Writing one more line appends it, with its terminator, to what was written. */
  lemma {:induction false} TerminatedSnoc(lines: seq<string>, line: string)
    ensures Text.Terminated(lines + [line], '\n') == Text.Terminated(lines, '\n') + line + "\n"
  {
    if lines != [] {
      assert (lines + [line])[1..] == lines[1..] + [line];
      TerminatedSnoc(lines[1..], line);
    } else {
      assert [line][1..] == [];
    }
  }
}
