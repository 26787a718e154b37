/** internal/worker/writer.go: the sharded writer. Each poll's records are grouped by the shard
    of their key, every non-empty group is sent to its shard's channel, and the poll is
    committed only when every shard acknowledged without error. Channel sends are appends to
    an outbox; acknowledgements and context cancellation arrive as a sequence of events. */
module Writers {
  import opened Bytes
  import opened Results
  import opened Kafka
  import Uuid
  import ShardedStores

  /** A record the writer can route: getShard slices key[8:16], which needs 16 key bytes. */
  predicate Keyed(r: Record)
  {
    r.key.Owned? && |r.key.bytes| >= 16
  }

  predicate AllKeyed(fetch: seq<Record>)
  {
    forall k :: 0 <= k < |fetch| ==> Keyed(fetch[k])
  }

  /** getShard: the big-endian uint64 of key bytes 8..15, mod numShards. */
  function GetShard(key: seq<byte>, numShards: int): (k: nat)
    requires |key| >= 16 && numShards > 0
    ensures k < numShards
  {
    BigEndian(key[8..16]) % numShards
  }

  /** The shard of a keyed record. */
  function ShardOf(r: Record, numShards: int): (k: nat)
    requires Keyed(r) && numShards > 0
    ensures k < numShards
  {
    GetShard(r.key.bytes, numShards)
  }

  /** A key made of a UUID's bytes (the API writes the account id as the key) goes to the shard
      the sharded store reads that UUID from. */
  lemma AgreesWithStore(u: Uuid.Uuid, numShards: int)
    requires numShards > 0
    ensures GetShard(u, numShards) == ShardedStores.GetShard(u, numShards)
  {
  }

  /** Only key bytes 8..15 matter: bytes 0..7 and any bytes after 16 are ignored. */
  lemma {:induction false} ShardIgnoresOtherBytes(a: seq<byte>, b: seq<byte>, numShards: int)
    requires |a| >= 16 && |b| >= 16 && numShards > 0 && a[8..16] == b[8..16]
    ensures GetShard(a, numShards) == GetShard(b, numShards)
  {
  }

  /** The records of the fetch that belong to shard s, in fetch order. */
  function Group(fetch: seq<Record>, numShards: int, s: int): (group: seq<Record>)
    requires numShards > 0 && AllKeyed(fetch)
  {
    if fetch == [] then []
    else
      var last := fetch[|fetch| - 1];
      assert Keyed(last);
      Group(fetch[..|fetch| - 1], numShards, s) + if ShardOf(last, numShards) == s then [last] else []
  }

  /** Grouping distributes over concatenation, so each group keeps the fetch order. */
  lemma {:induction false} GroupAppend(f: seq<Record>, g: seq<Record>, numShards: int, s: int)
    requires numShards > 0 && AllKeyed(f) && AllKeyed(g)
    ensures AllKeyed(f + g)
    ensures Group(f + g, numShards, s) == Group(f, numShards, s) + Group(g, numShards, s)
    decreases |g|
  {
    assert AllKeyed(f + g) by {
      forall k | 0 <= k < |f + g| ensures Keyed((f + g)[k]) {
        if k >= |f| {
          assert (f + g)[k] == g[k - |f|];
        }
      }
    }
    if g == [] {
      assert f + g == f;
    } else {
      var g' := g[..|g| - 1];
      assert (f + g)[..|f + g| - 1] == f + g';
      assert AllKeyed(g') by {
        forall k | 0 <= k < |g'| ensures Keyed(g'[k]) {
          assert g'[k] == g[k];
        }
      }
      GroupAppend(f, g', numShards, s);
    }
  }

  /** Every record is in the group of its own shard. */
  lemma {:induction false} InOwnGroup(fetch: seq<Record>, numShards: int, k: int)
    requires numShards > 0 && AllKeyed(fetch) && 0 <= k < |fetch|
    ensures fetch[k] in Group(fetch, numShards, ShardOf(fetch[k], numShards))
  {
    if k < |fetch| - 1 {
      InOwnGroup(fetch[..|fetch| - 1], numShards, k);
    }
  }

  /** Every record of a group has that group's shard. */
  lemma {:induction false} GroupMembers(fetch: seq<Record>, numShards: int, s: int, r: Record)
    requires numShards > 0 && AllKeyed(fetch) && r in Group(fetch, numShards, s)
    ensures r in fetch && Keyed(r) && ShardOf(r, numShards) == s
  {
    var last := fetch[|fetch| - 1];
    if r in Group(fetch[..|fetch| - 1], numShards, s) {
      GroupMembers(fetch[..|fetch| - 1], numShards, s, r);
    } else {
      assert r == last;
    }
  }

  /** The sizes of the groups of shards 0..m-1 added up. */
  function Total(fetch: seq<Record>, numShards: int, m: nat): (total: nat)
    requires numShards > 0 && AllKeyed(fetch)
  {
    if m == 0 then 0 else Total(fetch, numShards, m - 1) + |Group(fetch, numShards, m - 1)|
  }

  lemma {:induction false} TotalExtend(fetch: seq<Record>, numShards: int, m: nat)
    requires numShards > 0 && AllKeyed(fetch) && fetch != []
    ensures Total(fetch, numShards, m)
         == Total(fetch[..|fetch| - 1], numShards, m)
            + if ShardOf(fetch[|fetch| - 1], numShards) < m then 1 else 0
  {
    if m > 0 {
      TotalExtend(fetch, numShards, m - 1);
    }
  }

  lemma {:induction false} TotalOfEmpty(numShards: int, m: nat)
    requires numShards > 0
    ensures Total([], numShards, m) == 0
  {
    if m > 0 {
      TotalOfEmpty(numShards, m - 1);
    }
  }

  /** The groups together hold exactly the fetched records: each record is in one group. */
  lemma {:induction false} GroupsPartition(fetch: seq<Record>, numShards: int)
    requires numShards > 0 && AllKeyed(fetch)
    ensures Total(fetch, numShards, numShards) == |fetch|
  {
    if fetch != [] {
      var init := fetch[..|fetch| - 1];
      assert AllKeyed(init) by {
        forall k | 0 <= k < |init| ensures Keyed(init[k]) {
          assert init[k] == fetch[k];
        }
      }
      assert Keyed(fetch[|fetch| - 1]);
      TotalExtend(fetch, numShards, numShards);
      GroupsPartition(init, numShards);
    } else {
      TotalOfEmpty(numShards, numShards);
    }
  }

  /** A ShardWork: the records handed to one shard's channel. */
  datatype ShardWork = ShardWork(shard: nat, records: seq<Record>)

  /** What dispatchBatch sends, for shards from..numShards-1 in increasing order: one work item
      per non-empty group. */
  function Sends(fetch: seq<Record>, numShards: int, from: nat): (sends: seq<ShardWork>)
    requires numShards > 0 && AllKeyed(fetch)
    decreases numShards - from
  {
    if from >= numShards then []
    else
      var g := Group(fetch, numShards, from);
      (if g == [] then [] else [ShardWork(from, g)]) + Sends(fetch, numShards, from + 1)
  }

  /** Each send is the whole, non-empty group of a shard in from..numShards-1. */
  lemma {:induction false} SendsAreGroups(fetch: seq<Record>, numShards: int, from: nat, i: int)
    requires numShards > 0 && AllKeyed(fetch) && 0 <= i < |Sends(fetch, numShards, from)|
    ensures from <= Sends(fetch, numShards, from)[i].shard < numShards
    ensures Sends(fetch, numShards, from)[i].records == Group(fetch, numShards, Sends(fetch, numShards, from)[i].shard)
    ensures Sends(fetch, numShards, from)[i].records != []
    decreases numShards - from
  {
    var g := Group(fetch, numShards, from);
    var rest := Sends(fetch, numShards, from + 1);
    if g == [] {
      assert Sends(fetch, numShards, from) == rest;
      SendsAreGroups(fetch, numShards, from + 1, i);
    } else if i > 0 {
      assert Sends(fetch, numShards, from)[i] == rest[i - 1];
      SendsAreGroups(fetch, numShards, from + 1, i - 1);
    }
  }

  /** The sends are in strictly increasing shard order, so no shard is sent twice. */
  lemma {:induction false} SendsIncreasing(fetch: seq<Record>, numShards: int, from: nat, i: int, j: int)
    requires numShards > 0 && AllKeyed(fetch) && 0 <= i < j < |Sends(fetch, numShards, from)|
    ensures Sends(fetch, numShards, from)[i].shard < Sends(fetch, numShards, from)[j].shard
    decreases numShards - from
  {
    var g := Group(fetch, numShards, from);
    var rest := Sends(fetch, numShards, from + 1);
    if g == [] {
      assert Sends(fetch, numShards, from) == rest;
      SendsIncreasing(fetch, numShards, from + 1, i, j);
    } else if i > 0 {
      SendsIncreasing(fetch, numShards, from + 1, i - 1, j - 1);
    } else {
      SendsAreGroups(fetch, numShards, from + 1, j - 1);
    }
  }

  /** Every non-empty group of a shard in from..numShards-1 is sent. */
  lemma {:induction false} SendsCover(fetch: seq<Record>, numShards: int, from: nat, s: int)
    requires numShards > 0 && AllKeyed(fetch) && from <= s < numShards
    requires Group(fetch, numShards, s) != []
    ensures exists i :: 0 <= i < |Sends(fetch, numShards, from)| && Sends(fetch, numShards, from)[i].shard == s
    decreases numShards - from
  {
    var g := Group(fetch, numShards, from);
    var rest := Sends(fetch, numShards, from + 1);
    if s == from {
      assert Sends(fetch, numShards, from)[0].shard == s;
    } else {
      SendsCover(fetch, numShards, from + 1, s);
      var i :| 0 <= i < |rest| && rest[i].shard == s;
      if g == [] {
        assert Sends(fetch, numShards, from) == rest;
      } else {
        assert Sends(fetch, numShards, from)[i + 1].shard == s;
      }
    }
  }

  /** An empty fetch sends nothing. */
  lemma {:induction false} NoSendsForEmptyFetch(numShards: int, from: nat)
    requires numShards > 0
    ensures Sends([], numShards, from) == []
    decreases numShards - from
  {
    if from < numShards {
      NoSendsForEmptyFetch(numShards, from + 1);
    }
  }

  /** What the dispatcher's select sees next: a shard's acknowledgement or ctx.Done(). */
  datatype AckEvent = Ack(err: Outcome) | Cancelled

  /** The error of waiting for `pending` acknowledgements: the first non-nil one, or the
      context error. An exhausted event sequence stands for a context cancelled while it waits. */
  function AwaitAcks(acks: seq<AckEvent>, pending: nat): (outcome: Outcome)
    decreases pending
  {
    if pending == 0 then Nil
    else if acks == [] || acks[0].Cancelled? then Fail("context canceled")
    else if acks[0].err.Fail? then acks[0].err
    else AwaitAcks(acks[1..], pending - 1)
  }

  /** dispatchBatch's result: an empty fetch is nil, otherwise the acknowledgement of every
      non-empty group. */
  function DispatchOutcome(fetch: seq<Record>, numShards: int, acks: seq<AckEvent>): (outcome: Outcome)
    requires numShards > 0 && AllKeyed(fetch)
  {
    if fetch == [] then Nil else AwaitAcks(acks, |Sends(fetch, numShards, 0)|)
  }

  /** With all acknowledgements nil and enough of them, the dispatch succeeds; one error
      among the awaited ones makes it fail with the first such error. */
  lemma {:induction false} AwaitAllNil(acks: seq<AckEvent>, pending: nat)
    requires pending <= |acks| && forall i :: 0 <= i < pending ==> acks[i] == Ack(Nil)
    ensures AwaitAcks(acks, pending) == Nil
  {
    if pending > 0 {
      AwaitAllNil(acks[1..], pending - 1);
    }
  }

  lemma {:induction false} AwaitFirstError(acks: seq<AckEvent>, pending: nat, k: nat)
    requires k < pending && k < |acks| && acks[k].Ack? && acks[k].err.Fail?
    requires forall i :: 0 <= i < k ==> acks[i] == Ack(Nil)
    ensures AwaitAcks(acks, pending) == acks[k].err
  {
    if k > 0 {
      AwaitFirstError(acks[1..], pending - 1, k - 1);
    }
  }

  /** dispatchBatch's first loop: append each record to its shard's group. */
  method GroupByShard(fetch: seq<Record>, numShards: int) returns (groups: seq<seq<Record>>)
    requires numShards > 0 && AllKeyed(fetch)
    ensures |groups| == numShards
    ensures forall s :: 0 <= s < numShards ==> groups[s] == Group(fetch, numShards, s)
  {
    groups := seq(numShards, s => []);
    var i := 0;
    while i < |fetch|
      invariant 0 <= i <= |fetch| && |groups| == numShards
      invariant forall s :: 0 <= s < numShards ==> groups[s] == Group(fetch[..i], numShards, s)
    {
      var shardId := GetShard(fetch[i].key.bytes, numShards);
      assert fetch[..i + 1][..i] == fetch[..i];
      groups := groups[shardId := groups[shardId] + [fetch[i]]];
      i := i + 1;
    }
    assert fetch[..i] == fetch;
  }

  /** dispatchBatch's second loop: one send per non-empty group, counted in shardsToAck. */
  method SendGroups(fetch: seq<Record>, numShards: int, groups: seq<seq<Record>>)
    returns (sends: seq<ShardWork>, shardsToAck: nat)
    requires numShards > 0 && AllKeyed(fetch) && |groups| == numShards
    requires forall s :: 0 <= s < numShards ==> groups[s] == Group(fetch, numShards, s)
    ensures sends == Sends(fetch, numShards, 0) && shardsToAck == |sends|
  {
    sends := [];
    shardsToAck := 0;
    var shardId := 0;
    while shardId < numShards
      invariant 0 <= shardId <= numShards && shardsToAck == |sends|
      invariant sends + SendsOf(groups, shardId) == SendsOf(groups, 0)
    {
      ghost var next := if groups[shardId] == [] then [] else [ShardWork(shardId, groups[shardId])];
      assert SendsOf(groups, shardId) == next + SendsOf(groups, shardId + 1);
      AppendAssoc(sends, next, SendsOf(groups, shardId + 1));
      if |groups[shardId]| != 0 {
        shardsToAck := shardsToAck + 1;
        sends := sends + [ShardWork(shardId, groups[shardId])];
      }
      shardId := shardId + 1;
    }
    assert SendsOf(groups, shardId) == [];
    SendsOfGroups(fetch, numShards, groups, 0);
  }

  /** The sends made from already-built groups, for shards from..|groups|-1. */
  function SendsOf(groups: seq<seq<Record>>, from: nat): (sends: seq<ShardWork>)
    decreases |groups| - from
  {
    if from >= |groups| then []
    else (if groups[from] == [] then [] else [ShardWork(from, groups[from])]) + SendsOf(groups, from + 1)
  }

  /** Sending from the groups GroupByShard built is sending the fetch's groups. */
  lemma {:induction false} SendsOfGroups(fetch: seq<Record>, numShards: int, groups: seq<seq<Record>>, from: nat)
    requires numShards > 0 && AllKeyed(fetch) && |groups| == numShards
    requires forall s :: 0 <= s < numShards ==> groups[s] == Group(fetch, numShards, s)
    ensures SendsOf(groups, from) == Sends(fetch, numShards, from)
    decreases numShards - from
  {
    if from < numShards {
      SendsOfGroups(fetch, numShards, groups, from + 1);
    }
  }

  /** dispatchBatch's last loop: wait for shardsToAck acknowledgements. */
  method WaitForAcks(acks: seq<AckEvent>, shardsToAck: nat) returns (err: Outcome)
    ensures err == AwaitAcks(acks, shardsToAck)
  {
    var k := 0;
    while k < shardsToAck
      invariant 0 <= k <= shardsToAck && k <= |acks|
      invariant AwaitAcks(acks, shardsToAck) == AwaitAcks(acks[k..], shardsToAck - k)
    {
      if k == |acks| || acks[k].Cancelled? {
        return Fail("context canceled");
      }
      if acks[k].err.Fail? {
        return acks[k].err;
      }
      assert acks[k..][1..] == acks[k + 1..];
      k := k + 1;
    }
    return Nil;
  }

  /** dispatchBatch: group the records per shard, send every non-empty group (counting
      shardsToAck), then wait for that many acknowledgements. */
  method DispatchBatch(fetch: seq<Record>, numShards: int, acks: seq<AckEvent>)
    returns (err: Outcome, sends: seq<ShardWork>)
    requires numShards > 0 && AllKeyed(fetch)
    ensures fetch == [] ==> err == Nil && sends == []
    ensures fetch != [] ==> sends == Sends(fetch, numShards, 0)
    ensures err == DispatchOutcome(fetch, numShards, acks)
  {
    if |fetch| == 0 {
      return Nil, [];
    }
    var groups := GroupByShard(fetch, numShards);
    var shardsToAck;
    sends, shardsToAck := SendGroups(fetch, numShards, groups);
    err := WaitForAcks(acks, shardsToAck);
  }

  /** What one PollRecords call returns: a closed client, or a fetch with the events the
      dispatcher will see and whether CommitRecords fails. */
  datatype Poll = ClientClosed | Fetched(fetch: seq<Record>, acks: seq<AckEvent>, commitFails: bool)

  predicate PollsKeyed(polls: seq<Poll>)
  {
    forall i :: 0 <= i < |polls| && polls[i].Fetched? ==> AllKeyed(polls[i].fetch)
  }

  /** The records Start commits over a sequence of polls, which end when the context is done:
      a poll's records are committed only when its dispatch returned nil and the commit did
      not fail; a closed client ends the loop. */
  function Committed(polls: seq<Poll>, numShards: int): (records: seq<Record>)
    requires numShards > 0 && PollsKeyed(polls)
    decreases |polls|
  {
    if polls == [] || polls[0].ClientClosed? then []
    else
      var p := polls[0];
      assert AllKeyed(p.fetch);
      (if DispatchOutcome(p.fetch, numShards, p.acks) == Nil && !p.commitFails then p.fetch else [])
      + Committed(polls[1..], numShards)
  }

  /** A poll whose dispatch failed contributes nothing to the committed records. */
  lemma FailedDispatchNotCommitted(p: Poll, rest: seq<Poll>, numShards: int)
    requires numShards > 0 && p.Fetched? && PollsKeyed([p] + rest)
    requires AllKeyed(p.fetch) && DispatchOutcome(p.fetch, numShards, p.acks) != Nil
    ensures PollsKeyed(rest)
    ensures Committed([p] + rest, numShards) == Committed(rest, numShards)
  {
    assert forall i :: 0 <= i < |rest| ==> rest[i] == ([p] + rest)[i + 1];
    assert ([p] + rest)[1..] == rest;
  }

  /** The work sent to the shard channels over a sequence of polls. */
  function SentOver(polls: seq<Poll>, numShards: int): (sends: seq<ShardWork>)
    requires numShards > 0 && PollsKeyed(polls)
    decreases |polls|
  {
    if polls == [] || polls[0].ClientClosed? then []
    else
      assert AllKeyed(polls[0].fetch);
      Sends(polls[0].fetch, numShards, 0) + SentOver(polls[1..], numShards)
  }

  /** Start's shard workers: two per shard, worker 2i and 2i+1 serving shard i. */
  function ShardWorkers(numShards: nat): (ws: seq<nat>)
    ensures |ws| == 2 * numShards
    ensures forall i :: 0 <= i < |ws| ==> ws[i] == i / 2
  {
    seq(2 * numShards, i => i / 2)
  }

  class Writer {
    const numShards: int
    /** The shard each started shard worker serves, in start order. */
    var workers: seq<nat>
    /** Every ShardWork sent to a shard channel, in send order. */
    var outbox: seq<ShardWork>
    /** The records passed to CommitRecords and committed. */
    var committed: seq<Record>

    constructor (numShards: int)
      ensures this.numShards == numShards && workers == [] && outbox == [] && committed == []
    {
      this.numShards := numShards;
      workers := [];
      outbox := [];
      committed := [];
    }

    /** One iteration of Start's loop on a fetched poll: dispatch, then commit on success. */
    method HandlePoll(p: Poll)
      requires numShards > 0 && p.Fetched? && AllKeyed(p.fetch)
      modifies this
      ensures workers == old(workers)
      ensures outbox == old(outbox) + Sends(p.fetch, numShards, 0)
      ensures committed == old(committed)
        + if DispatchOutcome(p.fetch, numShards, p.acks) == Nil && !p.commitFails then p.fetch else []
    {
      var e, sends := DispatchBatch(p.fetch, numShards, p.acks);
      if p.fetch == [] {
        NoSendsForEmptyFetch(numShards, 0);
      }
      outbox := outbox + sends;
      if e != Nil {
        return;
      }
      if !p.commitFails {
        committed := committed + p.fetch;
      }
    }

    /** Start's first loop: two shard workers per shard, in shard order. */
    method StartWorkers()
      requires numShards > 0
      modifies this
      ensures workers == ShardWorkers(numShards)
      ensures outbox == old(outbox) && committed == old(committed)
    {
      workers := [];
      for i := 0 to numShards
        invariant workers == ShardWorkers(i) && outbox == old(outbox) && committed == old(committed)
      {
        workers := workers + [i, i];
        assert workers == ShardWorkers(i + 1);
      }
    }

    /** Start: launch two workers per shard, then poll, dispatch and commit until the client
        closes or the context is done (the end of polls). */
    method Start(polls: seq<Poll>) returns (err: Outcome)
      requires numShards > 0 && PollsKeyed(polls)
      modifies this
      ensures err == Nil
      ensures workers == ShardWorkers(numShards)
      ensures outbox == old(outbox) + SentOver(polls, numShards)
      ensures committed == old(committed) + Committed(polls, numShards)
    {
      StartWorkers();
      ghost var started := workers;
      var k := 0;
      assert polls[k..] == polls;
      while k < |polls|
        invariant 0 <= k <= |polls| && workers == started
        invariant PollsKeyed(polls[k..])
        invariant outbox + SentOver(polls[k..], numShards) == old(outbox) + SentOver(polls, numShards)
        invariant committed + Committed(polls[k..], numShards) == old(committed) + Committed(polls, numShards)
      {
        if polls[k].ClientClosed? {
          ClosedEndsPolls(polls[k..], numShards);
          return Nil;
        }
        assert polls[k..][1..] == polls[k + 1..];
        PollOnce(polls[k..]);
        k := k + 1;
      }
      return Nil;
    }

    /** One fetched poll of Start's loop, stated against the sends and commits of the polls
        that remain. */
    method PollOnce(rest: seq<Poll>)
      requires numShards > 0 && PollsKeyed(rest) && rest != [] && rest[0].Fetched?
      modifies this
      ensures PollsKeyed(rest[1..]) && workers == old(workers)
      ensures outbox + SentOver(rest[1..], numShards) == old(outbox) + SentOver(rest, numShards)
      ensures committed + Committed(rest[1..], numShards) == old(committed) + Committed(rest, numShards)
    {
      ghost var outbox0, committed0 := outbox, committed;
      assert AllKeyed(rest[0].fetch);
      TailKeyed(rest);
      HandlePoll(rest[0]);
      AdvanceSends(rest, numShards, outbox0, outbox);
      AdvanceCommits(rest, numShards, committed0, committed);
    }
  }

  /** Handling the first of the remaining polls moves the outbox forward by exactly that
      poll's share of SentOver. */
  lemma AdvanceSends(rest: seq<Poll>, numShards: int, outbox0: seq<ShardWork>, outbox1: seq<ShardWork>)
    requires numShards > 0 && PollsKeyed(rest) && rest != [] && rest[0].Fetched? && AllKeyed(rest[0].fetch)
    requires PollsKeyed(rest[1..])
    requires outbox1 == outbox0 + Sends(rest[0].fetch, numShards, 0)
    ensures outbox1 + SentOver(rest[1..], numShards) == outbox0 + SentOver(rest, numShards)
  {
    var mine, later := Sends(rest[0].fetch, numShards, 0), SentOver(rest[1..], numShards);
    assert SentOver(rest, numShards) == mine + later;
    AppendAssoc(outbox0, mine, later);
  }

  /** ... and the committed records by exactly its share of Committed. */
  lemma AdvanceCommits(rest: seq<Poll>, numShards: int, committed0: seq<Record>, committed1: seq<Record>)
    requires numShards > 0 && PollsKeyed(rest) && rest != [] && rest[0].Fetched? && AllKeyed(rest[0].fetch)
    requires PollsKeyed(rest[1..])
    requires committed1 == committed0
      + if DispatchOutcome(rest[0].fetch, numShards, rest[0].acks) == Nil && !rest[0].commitFails
        then rest[0].fetch else []
    ensures committed1 + Committed(rest[1..], numShards) == committed0 + Committed(rest, numShards)
  {
    var mine := if DispatchOutcome(rest[0].fetch, numShards, rest[0].acks) == Nil && !rest[0].commitFails
      then rest[0].fetch else [];
    var later := Committed(rest[1..], numShards);
    assert Committed(rest, numShards) == mine + later;
    AppendAssoc(committed0, mine, later);
  }

  /** The polls after the first are still keyed. */
  lemma TailKeyed(rest: seq<Poll>)
    requires PollsKeyed(rest) && rest != []
    ensures PollsKeyed(rest[1..])
  {
    forall i | 0 <= i < |rest[1..]| && rest[1..][i].Fetched? ensures AllKeyed(rest[1..][i].fetch) {
      assert rest[1..][i] == rest[i + 1];
    }
  }

  /** A closed client ends Start's loop: no more sends and no more commits. */
  lemma ClosedEndsPolls(rest: seq<Poll>, numShards: int)
    requires numShards > 0 && PollsKeyed(rest) && rest != [] && rest[0].ClientClosed?
    ensures SentOver(rest, numShards) == [] && Committed(rest, numShards) == []
  {
  }
}
