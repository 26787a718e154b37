/** cmd/generator/main.go: the load generator. It reads the seeder's account-id file, builds
    `n` batches of `batchSize` transactions whose accounts are taken round-robin from a random
    start, and hands the batches to the attacker cyclically. The random start of each batch is
    a parameter; the generated transaction ids and the protobuf encoding are left out. */
module Generator {
  import opened Results
  import opened Uuid
  import Text
  import Seeder
  import opened Bytes

  /** The account ids a file holds: every non-empty line parsed, in order; one line that
      does not parse fails the whole load. Whitespace-only lines are not skipped. */
  function LoadLines(lines: seq<string>): (r: Result<seq<Uuid>>)
  {
    if lines == [] then Ok([])
    else
      var prev := LoadLines(lines[..|lines| - 1]);
      var line := lines[|lines| - 1];
      if prev.Err? then prev
      else if |line| == 0 then prev
      else
        var id := Parse(line);
        if id.Err? then Err("invalid UUID in account IDs file") else Ok(prev.value + [id.value])
  }

  /** loadAccountIDs on the file's contents: split on '\n', skip zero-length lines, parse each
      other line with uuid.ParseBytes and append it. */
  method LoadAccountIds(data: string) returns (r: Result<seq<Uuid>>)
    ensures r == LoadLines(Text.Split(data, '\n'))
  {
    var lines := Text.Split(data, '\n');
    var accountIds: seq<Uuid> := [];
    for k := 0 to |lines|
      invariant LoadLines(lines[..k]) == Ok(accountIds)
    {
      assert lines[..k + 1][..k] == lines[..k];
      if |lines[k]| == 0 {
        continue;
      }
      var id := Parse(lines[k]);
      if id.Err? {
        LoadStopsAtError(lines, k + 1);
        return Err("invalid UUID in account IDs file");
      }
      accountIds := accountIds + [id.value];
    }
    assert lines[..|lines|] == lines;
    return Ok(accountIds);
  }

  /** Once a prefix fails, the whole load fails with the same error. */
  lemma {:induction false} LoadStopsAtError(lines: seq<string>, k: nat)
    requires k <= |lines| && LoadLines(lines[..k]).Err?
    ensures LoadLines(lines) == LoadLines(lines[..k])
    decreases |lines| - k
  {
    if k < |lines| {
      assert lines[..k + 1][..k] == lines[..k];
      LoadStopsAtError(lines, k + 1);
    } else {
      assert lines[..k] == lines;
    }
  }

  /** The lines of the load are exactly the ids when every line is a canonical id string. */
  lemma {:induction false} LoadCanonicalLines(ids: seq<Uuid>)
    ensures LoadLines(Seeder.Lines(ids)) == Ok(ids)
  {
    if ids != [] {
      var init := ids[..|ids| - 1];
      assert Seeder.Lines(ids)[..|ids| - 1] == Seeder.Lines(init);
      LoadCanonicalLines(init);
      ParseToString(ids[|ids| - 1]);
      assert init + [ids[|ids| - 1]] == ids;
    }
  }

  /** Reading the file the seeder's writeToFile produces gives back the same ids, in order. */
  lemma SeederFileRoundTrip(ids: seq<Uuid>)
    ensures LoadLines(Text.Split(Text.Terminated(Seeder.Lines(ids), '\n'), '\n')) == Ok(ids)
  {
    var lines := Seeder.Lines(ids);
    forall i | 0 <= i < |lines| ensures '\n' !in lines[i] {
      ToStringHasNoNewline(ids[i]);
    }
    Text.SplitTerminated(lines, '\n');
    LoadCanonicalLines(ids);
    assert (lines + [""])[..|lines + [""]| - 1] == lines;
  }

  /** One generated transaction: its account and amount. */
  datatype GenTx = GenTx(accountId: Uuid, amount: int)

  /** The amount of every generated transaction. */
  const Amount := 1000

  /** The batch that starts at account `seed`: transaction j uses account (seed + j) mod len. */
  function RoundRobin(accountIds: seq<Uuid>, seed: nat, size: nat): (batch: seq<GenTx>)
    requires |accountIds| > 0
    ensures |batch| == size
  {
    seq(size, j requires 0 <= j < size => GenTx(accountIds[(seed + j) % |accountIds|], Amount))
  }

  /** setup's inner loop: fill a batch from a seed++ counter. */
  method MakeBatch(accountIds: seq<Uuid>, seed0: nat, batchSize: nat) returns (batch: seq<GenTx>)
    requires |accountIds| > 0
    ensures batch == RoundRobin(accountIds, seed0, batchSize)
  {
    batch := [];
    var seed := seed0;
    for j := 0 to batchSize
      invariant |batch| == j && seed == seed0 + j
      invariant forall t :: 0 <= t < j ==> batch[t] == GenTx(accountIds[(seed0 + t) % |accountIds|], Amount)
    {
      batch := batch + [GenTx(accountIds[seed % |accountIds|], Amount)];
      seed := seed + 1;
    }
  }

  /** setup: batch i starts at account seeds[i] (rand.Intn(len(accountIDs))). With an empty id
      list the first rand.Intn panics, so it is excluded unless no batch is made. */
  method Setup(n: nat, batchSize: nat, accountIds: seq<Uuid>, seeds: seq<nat>)
    returns (batches: seq<seq<GenTx>>)
    requires (n > 0 ==> |accountIds| > 0) && |seeds| >= n
    requires forall i :: 0 <= i < n ==> seeds[i] < |accountIds|
    ensures |batches| == n
    ensures forall i :: 0 <= i < n ==> batches[i] == RoundRobin(accountIds, seeds[i], batchSize)
  {
    batches := [];
    for i := 0 to n
      invariant |batches| == i
      invariant forall b :: 0 <= b < i ==> batches[b] == RoundRobin(accountIds, seeds[b], batchSize)
    {
      var batch := MakeBatch(accountIds, seeds[i], batchSize);
      batches := batches + [batch];
    }
  }

  /** Every generated transaction has amount 1000 and one of the loaded accounts. */
  lemma RoundRobinFromIds(accountIds: seq<Uuid>, seed: nat, size: nat, j: int)
    requires |accountIds| > 0 && 0 <= j < size
    ensures RoundRobin(accountIds, seed, size)[j].amount == Amount
    ensures RoundRobin(accountIds, seed, size)[j].accountId in accountIds
  {
    assert 0 <= (seed + j) % |accountIds| < |accountIds|;
  }

  /** A batch at least as long as the id list uses every account: account k is used by
      transaction (k - seed) mod len. */
  lemma RoundRobinCovers(accountIds: seq<Uuid>, seed: nat, size: nat, k: nat)
    requires 0 < |accountIds| <= size && k < |accountIds|
    ensures exists j :: 0 <= j < size && RoundRobin(accountIds, seed, size)[j].accountId == accountIds[k]
  {
    var len := |accountIds|;
    var j := (k - seed) % len;
    var q := (k - seed) / len;
    assert k - seed == q * len + j;
    ModOfDecomposition(seed + j, -q, k, len);
    assert RoundRobin(accountIds, seed, size)[j].accountId == accountIds[k];
  }

  /** The targeter closure: its counter picks batches[counter mod len] and then advances. */
  class Targeter {
    const batches: seq<seq<GenTx>>
    var counter: nat

    constructor (batches: seq<seq<GenTx>>)
      ensures this.batches == batches && counter == 0
    {
      this.batches := batches;
      counter := 0;
    }

    method Target() returns (body: seq<GenTx>)
      requires |batches| > 0
      modifies this
      ensures body == batches[old(counter) % |batches|] && counter == old(counter) + 1
    {
      body := batches[counter % |batches|];
      counter := counter + 1;
    }

    /** k requests from a fresh targeter: request t gets batches[t mod len]. */
    method Attack(k: nat) returns (bodies: seq<seq<GenTx>>)
      requires |batches| > 0 && counter == 0
      modifies this
      ensures |bodies| == k && counter == k
      ensures forall t :: 0 <= t < k ==> bodies[t] == batches[t % |batches|]
    {
      bodies := [];
      while |bodies| < k
        invariant |bodies| <= k && counter == |bodies|
        invariant forall t :: 0 <= t < |bodies| ==> bodies[t] == batches[t % |batches|]
      {
        var b := Target();
        bodies := bodies + [b];
      }
    }
  }
}
