/** cmd/worker/main.go: the worker's start-up. The "-partitions" flag is parsed as "min-max"
    (fmt.Sscanf with "%d-%d"), the stored Kafka offsets of those partitions are read back to
    resume consumption, the cleanup closure runs the registered closers last-in-first-out at
    most once, and the topic is created only when it does not exist. The database, the broker
    and the environment are replaced by the outcomes they produce. */
module WorkerMain {
  import opened Results
  import Text

  // ----- parsePartitionRange -----

  /** The flag's default value. */
  const DefaultRange := "0-63"

  const FormatError := "invalid partition range format"
  const ValuesError := "invalid partition range values"

  /** The range of Go's int (64 bits), which strconv.ParseInt enforces for %d. */
  const MinInt: int := -0x8000_0000_0000_0000
  const MaxInt: int := 0x7fff_ffff_ffff_ffff

  /** The space characters fmt's scanner skips before a number (unicode white space as
      package fmt lists it); a newline is not skipped by Sscanf. */
  predicate IsScanSpace(c: char)
  {
    ('\t' <= c <= '\r') || c == ' ' || c == '\U{85}' || c == '\U{A0}' || c == '\U{1680}'
    || ('\U{2000}' <= c <= '\U{200A}') || c == '\U{2028}' || c == '\U{2029}'
    || c == '\U{202F}' || c == '\U{205F}' || c == '\U{3000}'
  }

  /** SkipSpace from index i: the first index that is not a space, or None at a newline,
      which Sscanf reports as "unexpected newline". */
  function SkipSpaces(s: string, i: nat): (r: Option<nat>)
    requires i <= |s|
    ensures r.Some? ==> i <= r.value <= |s|
    ensures r.Some? && r.value < |s| ==> !IsScanSpace(s[r.value])
    decreases |s| - i
  {
    if i == |s| then Some(i)
    else if s[i] == '\n' then None
    else if IsScanSpace(s[i]) then SkipSpaces(s, i + 1)
    else Some(i)
  }

  /** The end of the run of decimal digits that starts at i. */
  function DigitRun(s: string, i: nat): (e: nat)
    requires i <= |s|
    ensures i <= e <= |s|
    ensures forall k :: i <= k < e ==> Text.IsDigit(s[k])
    ensures e < |s| ==> !Text.IsDigit(s[e])
    decreases |s| - i
  {
    if i < |s| && Text.IsDigit(s[i]) then DigitRun(s, i + 1) else i
  }

  /** One %d verb from index i: spaces, an optional '+' or '-', at least one digit, and a
      value that fits an int. The result is the value and the index after its last digit. */
  function ScanInt(s: string, i: nat): (r: Option<(int, nat)>)
    requires i <= |s|
    ensures r.Some? ==> i < r.value.1 <= |s| && MinInt <= r.value.0 <= MaxInt
  {
    match SkipSpaces(s, i)
    case None => None
    case Some(j) =>
      if j == |s| then None
      else
        var k := if s[j] == '+' || s[j] == '-' then j + 1 else j;
        var e := DigitRun(s, k);
        if e == k then None
        else
          var magnitude: int := Text.DecimalValue(s[k..e]);
          var v := if s[j] == '-' then -magnitude else magnitude;
          if v < MinInt || v > MaxInt then None else Some((v, e))
  }

  /** Sscanf(s, "%d-%d"): a number, a literal '-' right after it, and a second number; what
      follows the second number is not looked at. */
  function ScanRange(s: string): (r: Option<(int, int)>)
  {
    match ScanInt(s, 0)
    case None => None
    case Some((a, j)) =>
      if j == |s| || s[j] != '-' then None
      else
        match ScanInt(s, j + 1)
        case None => None
        case Some((b, _)) => Some((a, b))
  }

  /** parsePartitionRange: (min, max) and nil for a well-formed range with 0 <= min <= max,
      otherwise (0, 0) and the error that says whether the format or the values are wrong. */
  function ParsePartitionRange(s: string): (r: (int, int, Outcome))
    ensures r.2 == Nil ==> ScanRange(s) == Some((r.0, r.1)) && 0 <= r.0 <= r.1
    ensures r.2 != Nil ==> r.0 == 0 && r.1 == 0
    ensures r.2 == Fail(FormatError) <==> ScanRange(s).None?
    ensures r.2 == Fail(ValuesError) <==>
      ScanRange(s).Some? && (ScanRange(s).value.0 < 0 || ScanRange(s).value.1 < ScanRange(s).value.0)
  {
    match ScanRange(s)
    case None => (0, 0, Fail(FormatError))
    case Some((a, b)) =>
      if a < 0 || b < a then (0, 0, Fail(ValuesError)) else (a, b, Nil)
  }

  /** The run of digits of a rendered number ends where the number does. */
  lemma {:induction false} DigitRunOver(s: string, i: nat, j: nat)
    requires i <= j <= |s|
    requires forall k :: i <= k < j ==> Text.IsDigit(s[k])
    requires j == |s| || !Text.IsDigit(s[j])
    ensures DigitRun(s, i) == j
    decreases j - i
  {
    if i < j {
      DigitRunOver(s, i + 1, j);
    }
  }

  /** %d reads back a rendered natural number that ends at e, before a non-digit or the end. */
  lemma ScanRendered(s: string, i: nat, e: nat, n: nat)
    requires n <= MaxInt
    requires i <= e <= |s| && s[i..e] == Text.NatToString(n)
    requires e == |s| || !Text.IsDigit(s[e])
    ensures ScanInt(s, i) == Some((n, e))
  {
    var w := Text.NatToString(n);
    assert s[i] == w[0];
    assert SkipSpaces(s, i) == Some(i);
    forall k | i <= k < e ensures Text.IsDigit(s[k]) {
      assert s[k] == w[k - i];
    }
    DigitRunOver(s, i, e);
    Text.DecimalRoundTrip(n);
  }

  /** ScanRange on a string that holds a rendered a, a dash, and a rendered b ending at e
      before a non-digit or the end. */
  lemma ScanRangeOf(s: string, a: nat, b: nat, j: nat, e: nat)
    requires a <= MaxInt && b <= MaxInt
    requires j < e <= |s| && s[j] == '-'
    requires s[0..j] == Text.NatToString(a) && s[j + 1..e] == Text.NatToString(b)
    requires e == |s| || !Text.IsDigit(s[e])
    ensures ScanRange(s) == Some((a, b))
  {
    assert ScanInt(s, 0) == Some((a, j)) by {
      ScanRendered(s, 0, j, a);
    }
    assert ScanInt(s, j + 1) == Some((b, e)) by {
      ScanRendered(s, j + 1, e, b);
    }
    ScanRangeStep(s, a, j, b, e);
  }

  /** ScanRange from its two scans: a number ending at j, the dash at j, a number after it. */
  lemma ScanRangeStep(s: string, a: int, j: nat, b: int, e: nat)
    requires j < |s| && s[j] == '-'
    requires ScanInt(s, 0) == Some((a, j)) && ScanInt(s, j + 1) == Some((b, e))
    ensures ScanRange(s) == Some((a, b))
  {
  }

  /** Sscanf reads "A-B" followed by anything that does not start with a digit as (A, B). */
  lemma RangeScans(a: nat, b: nat, rest: string)
    requires a <= MaxInt && b <= MaxInt
    requires rest == [] || !Text.IsDigit(rest[0])
    ensures ScanRange(Text.NatToString(a) + "-" + Text.NatToString(b) + rest) == Some((a, b))
  {
    var wa, wb := Text.NatToString(a), Text.NatToString(b);
    var s := wa + "-" + wb + rest;
    var j, e := |wa|, |wa| + 1 + |wb|;
    assert s[0..j] == wa;
    assert s[j + 1..e] == wb;
    assert e < |s| ==> s[e] == rest[0];
    ScanRangeOf(s, a, b, j, e);
  }

  /** "A-B" with A <= B parses to (A, B), even with anything that does not start with a digit
      after B. */
  lemma RangeRoundTrip(a: nat, b: nat, rest: string)
    requires a <= b <= MaxInt
    requires rest == [] || !Text.IsDigit(rest[0])
    ensures ParsePartitionRange(Text.NatToString(a) + "-" + Text.NatToString(b) + rest) == (a, b, Nil)
  {
    RangeScans(a, b, rest);
  }

  /** The default flag value gives partitions 0 to 63. */
  lemma DefaultRangeIsZeroTo63()
    ensures ParsePartitionRange(DefaultRange) == (0, 63, Nil)
  {
    var s := DefaultRange;
    assert s[0..1] == "0" == Text.NatToString(0);
    assert s[2..4] == "63" == Text.NatToString(6) + [Text.DigitChar(3)] == Text.NatToString(63);
    ScanRangeOf(s, 0, 63, 1, 4);
  }

  /** A maximum below the minimum is refused as a value error. */
  lemma DescendingRangeRefused(a: nat, b: nat)
    requires b < a <= MaxInt
    ensures ParsePartitionRange(Text.NatToString(a) + "-" + Text.NatToString(b)) == (0, 0, Fail(ValuesError))
  {
    RangeScans(a, b, []);
    assert Text.NatToString(a) + "-" + Text.NatToString(b) + [] == Text.NatToString(a) + "-" + Text.NatToString(b);
  }

  /** A negative minimum is read by %d and then refused as a value error. */
  lemma NegativeMinimumRefused()
    ensures ParsePartitionRange("-1-5") == (0, 0, Fail(ValuesError))
  {
    var s := "-1-5";
    assert SkipSpaces(s, 0) == Some(0);
    assert DigitRun(s, 1) == 2 by { DigitRunOver(s, 1, 2); }
    assert s[1..2] == "1";
    assert Text.DecimalValue("1") == 1 by { assert "1"[..0] == []; }
    assert ScanInt(s, 0) == Some((-1, 2));
  }

  /** A space between the first number and '-' does not match the format's literal. */
  lemma SpaceBeforeDashRefused()
    ensures ParsePartitionRange("0 -63") == (0, 0, Fail(FormatError))
  {
    var s := "0 -63";
    assert SkipSpaces(s, 0) == Some(0);
    assert DigitRun(s, 0) == 1 by { DigitRunOver(s, 0, 1); }
    assert s[0..1] == "0";
    assert Text.DecimalValue("0") == 0 by { assert "0"[..0] == []; }
    assert ScanInt(s, 0) == Some((0, 1));
  }

  // ----- getPartitionOffsets -----

  type Int32 = x: int | -0x8000_0000 <= x < 0x8000_0000
  type Int64 = x: int | MinInt <= x <= MaxInt

  /** Go's int32(i) conversion: the low 32 bits, as a signed number. */
  function ToInt32(i: int): (r: Int32)
    ensures -0x8000_0000 <= i < 0x8000_0000 ==> r == i
  {
    (i + 0x8000_0000) % 0x1_0000_0000 - 0x8000_0000
  }

  /** int64 addition, which wraps. */
  function AddInt64(x: Int64, y: Int64): (r: Int64)
    ensures MinInt <= x + y <= MaxInt ==> r == x + y
  {
    (x + y - MinInt) % 0x1_0000_0000_0000_0000 + MinInt
  }

  /** kgo.Offset as used here: the partition's beginning, or an exact offset. */
  datatype Offset = AtStart | At(offset: int)

  /** The topic the worker consumes. */
  const Topic := "transactions"

  /** The partitions the first loop assigns: int32(i) for every i in [min, max]. */
  function StartKeys(minPart: int, maxPart: int): (keys: set<Int32>)
  {
    set i | minPart <= i < maxPart + 1 :: ToInt32(i)
  }

  /** Every partition of `keys` at the beginning. */
  function AllAtStart(keys: set<Int32>): (m: map<Int32, Offset>)
    ensures m.Keys == keys && forall p :: p in m ==> m[p] == AtStart
  {
    map p | p in keys :: AtStart
  }

  /** The assignments after the query's rows, taken in order, replace start positions. */
  function Resume(start: map<Int32, Offset>, rows: seq<(Int32, Int64)>): (m: map<Int32, Offset>)
  {
    if rows == [] then start
    else
      var row := rows[|rows| - 1];
      Resume(start, rows[..|rows| - 1])[row.0 := At(AddInt64(row.1, 1))]
  }

  /** The assignment map getPartitionOffsets builds. */
  function Assignments(minPart: int, maxPart: int, rows: seq<(Int32, Int64)>): (offsets: map<Int32, Offset>)
  {
    Resume(AllAtStart(StartKeys(minPart, maxPart)), rows)
  }

  /** The last stored offset of partition p among the rows, if any. */
  function LastOffset(rows: seq<(Int32, Int64)>, p: Int32): (last: Option<Int64>)
  {
    if rows == [] then None
    else if rows[|rows| - 1].0 == p then Some(rows[|rows| - 1].1)
    else LastOffset(rows[..|rows| - 1], p)
  }

  /** A partition is assigned when the range or a row names it; a stored offset resumes one
      past it, and a partition with no row starts at the beginning. */
  lemma {:induction false} ResumeLookup(start: map<Int32, Offset>, rows: seq<(Int32, Int64)>, p: Int32)
    ensures p in Resume(start, rows) <==> p in start || LastOffset(rows, p).Some?
    ensures LastOffset(rows, p).Some? ==> Resume(start, rows)[p] == At(AddInt64(LastOffset(rows, p).value, 1))
    ensures LastOffset(rows, p).None? && p in start ==> Resume(start, rows)[p] == start[p]
  {
    if rows != [] {
      ResumeLookup(start, rows[..|rows| - 1], p);
    }
  }

  /** For a range inside int32 whose rows the query filtered to that range, every partition
      of the range and no other is assigned: its stored offset + 1, or the beginning. */
  lemma AssignmentsOfRange(minPart: Int32, maxPart: Int32, rows: seq<(Int32, Int64)>, p: Int32)
    requires forall k :: 0 <= k < |rows| ==> minPart <= rows[k].0 <= maxPart
    ensures p in Assignments(minPart, maxPart, rows) <==> minPart <= p <= maxPart
    ensures minPart <= p <= maxPart ==>
      (Assignments(minPart, maxPart, rows)[p] ==
        if LastOffset(rows, p).Some? then At(AddInt64(LastOffset(rows, p).value, 1)) else AtStart)
  {
    var start := AllAtStart(StartKeys(minPart, maxPart));
    ResumeLookup(start, rows, p);
    if minPart <= p <= maxPart {
      assert ToInt32(p) == p;
    }
    if LastOffset(rows, p).Some? {
      LastOffsetInRows(rows, p);
    }
  }

  /** A stored offset of p comes from a row of p. */
  lemma {:induction false} LastOffsetInRows(rows: seq<(Int32, Int64)>, p: Int32)
    requires LastOffset(rows, p).Some?
    ensures exists k :: 0 <= k < |rows| && rows[k].0 == p
  {
    if rows[|rows| - 1].0 != p {
      LastOffsetInRows(rows[..|rows| - 1], p);
      var k :| 0 <= k < |rows| - 1 && rows[..|rows| - 1][k].0 == p;
      assert rows[k].0 == p;
    }
  }

  /** getPartitionOffsets: mark every partition of [min, max] to start at the beginning, then
      move each partition the kafka_offsets query returns to one past its stored offset. A
      failing query, a failing Scan of row k or a failing rows.Err() gives a nil map and the
      error. The loop counter must not overflow, so max is below Go's largest int. */
  method GetPartitionOffsets(minPart: Int64, maxPart: Int64, rows: seq<(Int32, Int64)>,
                             queryFails: bool, scanFails: Option<nat>, rowsErr: bool)
    returns (topics: Option<map<string, map<Int32, Offset>>>, err: Outcome)
    requires maxPart < MaxInt
    ensures err == Nil <==> !queryFails && (scanFails.None? || scanFails.value >= |rows|) && !rowsErr
    ensures err == Nil ==> topics == Some(map[Topic := Assignments(minPart, maxPart, rows)])
    ensures err != Nil ==> topics.None?
  {
    var assignments: map<Int32, Offset> := map[];
    var i := minPart as int;
    while i <= maxPart
      invariant minPart <= i && (i <= maxPart + 1 || i == minPart)
      invariant assignments == AllAtStart(StartKeys(minPart, i - 1))
      decreases maxPart - i
    {
      assert StartKeys(minPart, i) == StartKeys(minPart, i - 1) + {ToInt32(i)};
      assignments := assignments[ToInt32(i) := AtStart];
      i := i + 1;
    }
    assert StartKeys(minPart, i - 1) == StartKeys(minPart, maxPart) by {
      if maxPart < minPart {
        assert StartKeys(minPart, maxPart) == {} == StartKeys(minPart, i - 1);
      }
    }
    if queryFails {
      return None, Fail("query failed");
    }
    for k := 0 to |rows|
      invariant scanFails.None? || scanFails.value >= k
      invariant assignments == Resume(AllAtStart(StartKeys(minPart, maxPart)), rows[..k])
    {
      if scanFails == Some(k) {
        return None, Fail("scan failed");
      }
      assert rows[..k + 1][..k] == rows[..k];
      assignments := assignments[rows[k].0 := At(AddInt64(rows[k].1, 1))];
    }
    assert rows[..|rows|] == rows;
    if rowsErr {
      return None, Fail("rows failed");
    }
    return Some(map[Topic := assignments]), Nil;
  }

  // ----- setup's cleanup -----

  /** The closers setup registers: the pool's, then the broker client's. */
  datatype Closer = PoolClose | ClientClose

  /** The sequence in reverse order. */
  function Reversed<T>(s: seq<T>): (r: seq<T>)
    ensures |r| == |s|
  {
    if s == [] then [] else Reversed(s[1..]) + [s[0]]
  }

  /** Last in, first out: the k-th closer run is the k-th from the end of the registrations. */
  lemma {:induction false} ReversedIndex<T>(s: seq<T>, k: nat)
    requires k < |s|
    ensures Reversed(s)[k] == s[|s| - 1 - k]
  {
    if k < |s| - 1 {
      ReversedIndex(s[1..], k);
    }
  }

  /** Running a longer suffix adds its first element at the end. */
  lemma ReversedCons<T>(s: seq<T>, i: nat)
    requires i < |s|
    ensures Reversed(s[i..]) == Reversed(s[i + 1..]) + [s[i]]
  {
    assert s[i..][1..] == s[i + 1..];
  }

  /** The cleanup closure with its closures slice and its sync.Once; `ran` records the
      closers called, in order. */
  class Cleanup {
    var closures: seq<Closer>
    var done: bool
    var ran: seq<Closer>

    constructor ()
      ensures closures == [] && !done && ran == []
    {
      closures := [];
      done := false;
      ran := [];
    }

    /** closures = append(closures, c). */
    method Register(c: Closer)
      modifies this
      ensures closures == old(closures) + [c] && done == old(done) && ran == old(ran)
    {
      closures := closures + [c];
    }

    /** cleanup(): the first call runs every closure from the last registered to the first;
        later calls do nothing. */
    method Run()
      modifies this
      ensures ran == old(ran) + (if old(done) then [] else Reversed(old(closures)))
      ensures done && closures == old(closures)
    {
      if done {
        return;
      }
      done := true;
      var i := |closures|;
      while i > 0
        invariant 0 <= i <= |closures| && done
        invariant closures == old(closures)
        invariant ran == old(ran) + Reversed(closures[i..])
      {
        i := i - 1;
        ReversedCons(closures, i);
        ran := ran + [closures[i]];
      }
      assert closures[0..] == closures;
    }

    /** Calling cleanup twice runs each closure once, in reverse order. */
    method RunTwice()
      modifies this
      ensures ran == old(ran) + (if old(done) then [] else Reversed(old(closures)))
      ensures done && closures == old(closures)
    {
      Run();
      Run();
    }
  }

  // ----- ensureTopicExists and setup -----

  /** adm.CreateTopics(ctx, partitions, replicationFactor, nil, name). */
  datatype TopicRequest = CreateTopic(name: string, partitions: nat, replicationFactor: nat)

  /** The topic request ensureTopicExists makes when the topic is missing. */
  const TopicToCreate := CreateTopic(Topic, 64, 1)

  /** ensureTopicExists: a failed listing is an error and creates nothing; an existing topic
      is left alone; a missing one is created with 64 partitions and replication factor 1,
      whose failure is an error. The answer is the error and the creation asked for. */
  function EnsureTopicExists(listFails: bool, has: bool, createFails: bool): (r: (Outcome, Option<TopicRequest>))
    ensures r.1.Some? <==> !listFails && !has
    ensures r.1.Some? ==> r.1.value == TopicToCreate
    ensures r.0 == Nil <==> !listFails && (has || !createFails)
    ensures listFails ==> r.0 == Fail("failed to list topics")
    ensures !listFails && !has && createFails ==> r.0 == Fail("failed to create topic")
  {
    if listFails then (Fail("failed to list topics"), None)
    else if has then (Nil, None)
    else (if createFails then Fail("failed to create topic") else Nil, Some(TopicToCreate))
  }

  /** An existing topic is never recreated, whatever the broker would answer. */
  lemma ExistingTopicUntouched(createFails: bool)
    ensures EnsureTopicExists(false, true, createFails) == (Nil, None)
  {
  }

  /** The step of setup that fails, if any. */
  datatype SetupFault =
    | NoFault | NoDatabaseUrl | ConnectFails | PingFails | OffsetsFail | ClientFails | BrokerPingFails

  /** The closers registered when setup stops at a fault: the pool's once the pool exists,
      the client's once the client exists. */
  function Registered(fault: SetupFault): (cs: seq<Closer>)
    ensures |cs| <= 2
  {
    match fault
    case NoDatabaseUrl => []
    case ConnectFails => []
    case PingFails => [PoolClose]
    case OffsetsFail => [PoolClose]
    case ClientFails => [PoolClose]
    case BrokerPingFails => [PoolClose, ClientClose]
    case NoFault => [PoolClose, ClientClose]
  }

  /** The error setup returns for a fault. */
  function SetupError(fault: SetupFault): (err: Outcome)
    ensures err == Nil <==> fault == NoFault
  {
    match fault
    case NoFault => Nil
    case NoDatabaseUrl => Fail("DATABASE_URL environment variable not set")
    case ConnectFails => Fail("failed to connect to database")
    case PingFails => Fail("failed to ping database")
    case OffsetsFail => Fail("failed to get partition offsets")
    case ClientFails => Fail("failed to create broker client")
    case BrokerPingFails => Fail("failed to ping broker client")
  }

  /** setup: every step registers its closer as soon as its resource exists, and a failing
      step returns the cleanup with what was registered so far. The topic check runs only when
      every step succeeded, and its error is dropped: setup then returns a writer and nil. */
  method Setup(fault: SetupFault, listFails: bool, has: bool, createFails: bool)
    returns (writer: bool, cleanup: Cleanup, err: Outcome, topicRequest: Option<TopicRequest>)
    ensures fresh(cleanup) && !cleanup.done && cleanup.ran == []
    ensures cleanup.closures == Registered(fault)
    ensures err == SetupError(fault)
    ensures writer <==> err == Nil
    ensures topicRequest == if fault == NoFault then EnsureTopicExists(listFails, has, createFails).1 else None
  {
    cleanup := new Cleanup();
    topicRequest := None;
    writer := false;
    if fault == NoDatabaseUrl || fault == ConnectFails {
      return writer, cleanup, SetupError(fault), topicRequest;
    }
    cleanup.Register(PoolClose);
    if fault == PingFails || fault == OffsetsFail || fault == ClientFails {
      return writer, cleanup, SetupError(fault), topicRequest;
    }
    cleanup.Register(ClientClose);
    if fault == BrokerPingFails {
      return writer, cleanup, SetupError(fault), topicRequest;
    }
    var ensured := EnsureTopicExists(listFails, has, createFails);
    topicRequest := ensured.1;
    writer := true;
    return writer, cleanup, Nil, topicRequest;
  }

  /** On success the cleanup closes the broker client before the pool, and only once. */
  method SetupThenCleanup(listFails: bool, has: bool, createFails: bool) returns (closed: seq<Closer>)
    ensures closed == [ClientClose, PoolClose]
  {
    var writer, cleanup, err, request := Setup(NoFault, listFails, has, createFails);
    cleanup.RunTwice();
    assert Reversed([PoolClose, ClientClose]) == [ClientClose, PoolClose] by {
      assert [PoolClose, ClientClose][1..] == [ClientClose];
      assert [ClientClose][1..] == [];
    }
    closed := cleanup.ran;
  }
}
