/** The PostgreSQL binary COPY file format as internal/storage/binary.go and
    internal/storage/transactionstore.go write it (PostgreSQL documentation for COPY, section
    "Binary Format"): the 11-byte signature "PGCOPY\n\377\r\n\0", a 32-bit flags field and a
    32-bit header-extension length, both zero, the tuples, and the 16-bit trailer -1. Each
    row's encoding is opaque and appears as a byte chunk. Timestamps are microseconds since
    2000-01-01 00:00:00 UTC. */
module CopyFormat {
  import opened Bytes
  import opened Results

  /** "PGCOPY\n\xff\r\n\x00". */
  const Signature: seq<byte> := [0x50, 0x47, 0x43, 0x4F, 0x50, 0x59, 0x0A, 0xFF, 0x0D, 0x0A, 0x00]

  /** The signature, then AppendUint32(0) for the flags and AppendUint32(0) for the header
      extension length. */
  function Header(): (h: seq<byte>)
    ensures |h| == 19
  {
    Signature + ToBigEndian(0, 4) + ToBigEndian(0, 4)
  }

  /** AppendUint16(0xffff): the field count -1 that ends the tuples. */
  function Trailer(): (t: seq<byte>)
    ensures |t| == 2
  {
    ToBigEndian(0xffff, 2)
  }

  /** The row chunks one after the other, in index order. */
  function Concat(chunks: seq<seq<byte>>): (all: seq<byte>)
  {
    if chunks == [] then [] else Concat(chunks[..|chunks| - 1]) + chunks[|chunks| - 1]
  }

  /** A whole COPY buffer around the encoded rows. */
  function Frame(rows: seq<byte>): (buf: seq<byte>)
    ensures |buf| == |rows| + 21
  {
    Header() + rows + Trailer()
  }

  /** Reading a buffer back: check signature, zero flags, zero extension and trailer, and give
      the bytes in between. */
  function Unframe(buf: seq<byte>): (r: Option<seq<byte>>)
    ensures r.Some? ==> |r.value| == |buf| - 21
  {
    if |buf| >= 21 && buf[..19] == Header() && buf[|buf| - 2..] == Trailer() then Some(buf[19..|buf| - 2])
    else None
  }

  /** The header fields read back as the format defines them: flags 0 and extension length 0;
      the trailer read as a signed 16-bit value is -1. */
  lemma HeaderFields()
    ensures Header()[..11] == Signature
    ensures BigEndian(Header()[11..15]) == 0 && BigEndian(Header()[15..19]) == 0
    ensures BigEndian(Trailer()) == 0xffff && BigEndian(Trailer()) - TWO_16 == -1
  {
    var h := Header();
    assert h[11..15] == ToBigEndian(0, 4) && h[15..19] == ToBigEndian(0, 4);
    ToBigEndianRoundTrip(0, 4);
    EncodeDecode(0xffff, 2) by { Pow256Values(); }
  }

  /** Framing then reading back gives the rows. */
  lemma UnframeFrame(rows: seq<byte>)
    ensures Unframe(Frame(rows)) == Some(rows)
  {
    var buf := Frame(rows);
    assert buf[..19] == Header();
    assert buf[|buf| - 2..] == Trailer();
    assert buf[19..|buf| - 2] == rows;
  }

  /** A buffer that reads back is the frame of what it reads back to. */
  lemma FrameUnframe(buf: seq<byte>)
    requires Unframe(buf).Some?
    ensures Frame(Unframe(buf).value) == buf
  {
    assert buf == buf[..19] + buf[19..|buf| - 2] + buf[|buf| - 2..];
  }

  /** With no rows the buffer is header plus trailer: 21 bytes. */
  lemma EmptyFrame()
    ensures Frame(Concat([])) == Header() + Trailer() && |Frame(Concat([]))| == 21
  {
  }

  /** Concatenation distributes, so the rows of a prefix are a prefix of the rows. */
  lemma {:induction false} ConcatAppend(a: seq<seq<byte>>, b: seq<seq<byte>>)
    ensures Concat(a + b) == Concat(a) + Concat(b)
    decreases |b|
  {
    if b == [] {
      assert a + b == a;
    } else {
      var init, last := b[..|b| - 1], b[|b| - 1];
      assert (a + b)[..|a + b| - 1] == a + init && (a + b)[|a + b| - 1] == last;
      ConcatAppend(a, init);
      AppendAssoc(Concat(a), Concat(init), last);
    }
  }

  /** Building the buffer step by step: signature, flags, extension length, one append per row
      in index order, then the trailer. */
  method BuildFrame(chunks: seq<seq<byte>>) returns (buf: seq<byte>)
    ensures buf == Frame(Concat(chunks))
    ensures Unframe(buf) == Some(Concat(chunks))
  {
    buf := Signature;
    buf := buf + ToBigEndian(0, 4);
    buf := buf + ToBigEndian(0, 4);
    assert buf == Header() + Concat(chunks[..0]);
    for i := 0 to |chunks|
      invariant buf == Header() + Concat(chunks[..i])
    {
      assert chunks[..i + 1][..i] == chunks[..i];
      assert Concat(chunks[..i + 1]) == Concat(chunks[..i]) + chunks[i];
      AppendAssoc(Header(), Concat(chunks[..i]), chunks[i]);
      buf := buf + chunks[i];
    }
    assert chunks[..|chunks|] == chunks;
    buf := buf + ToBigEndian(0xffff, 2);
    UnframeFrame(Concat(chunks));
  }

  /** 2000-01-01 00:00:00 UTC in Unix seconds. */
  const PostgresEpoch: int := 946684800

  /** The instant (unix seconds, nanoseconds within the second) in microseconds since
      2000-01-01, computed exactly: (unix - 946684800) * 10^6 + ns / 1000. */
  function Micros(unix: int, ns: nat): (m: int)
  {
    (unix - PostgresEpoch) * 1000000 + ns / 1000
  }

  /** binary.go's rawTime: the int64 expression converted to uint64. int64 arithmetic wraps
      modulo 2^64 and the conversion keeps the bits, so the value is Micros mod 2^64. */
  function RawTimeUnsigned(unix: int, ns: nat): (r: nat)
    ensures r < TWO_64
  {
    Micros(unix, ns) % TWO_64
  }

  /** 2^63: int64 holds [-2^63, 2^63). */
  const HalfRange: int := 0x8000_0000_0000_0000

  /** transactionstore.go's rawTime: the same expression kept as int64, i.e. Micros wrapped
      into [-2^63, 2^63). */
  function RawTimeSigned(unix: int, ns: nat): (r: int)
    ensures -HalfRange <= r < HalfRange
  {
    (Micros(unix, ns) + HalfRange) % TWO_64 - HalfRange
  }

  /** The microsecond count splits back into whole seconds since 2000 and the microseconds of
      the second: ns / 1000 < 10^6 never carries into the seconds. */
  lemma MicrosSplit(unix: int, ns: nat)
    requires ns < 1000000000
    ensures Micros(unix, ns) / 1000000 == unix - PostgresEpoch
    ensures Micros(unix, ns) % 1000000 == ns / 1000
  {
    ModOfDecomposition(Micros(unix, ns), unix - PostgresEpoch, ns / 1000, 1000000);
  }

  /** The PostgreSQL epoch itself is timestamp 0. */
  lemma EpochIsZero()
    ensures RawTimeUnsigned(PostgresEpoch, 0) == 0 && RawTimeSigned(PostgresEpoch, 0) == 0
  {
  }

  /** Within the int64 range at or after 2000, both generations write the same exact count. */
  lemma RawTimesAgree(unix: int, ns: nat)
    requires 0 <= Micros(unix, ns) < HalfRange
    ensures RawTimeUnsigned(unix, ns) == Micros(unix, ns) == RawTimeSigned(unix, ns)
  {
    ModOfDecomposition(Micros(unix, ns), 0, Micros(unix, ns), TWO_64);
    ModOfDecomposition(Micros(unix, ns) + HalfRange, 0, Micros(unix, ns) + HalfRange, TWO_64);
  }

  /** Before 2000 the unsigned value wraps: one microsecond before the epoch is 2^64 - 1. */
  lemma BeforeEpochWraps()
    ensures Micros(PostgresEpoch - 1, 999999000) == -1
    ensures RawTimeUnsigned(PostgresEpoch - 1, 999999000) == TWO_64 - 1
    ensures RawTimeSigned(PostgresEpoch - 1, 999999000) == -1
  {
    ModOfDecomposition(-1, -1, TWO_64 - 1, TWO_64);
    ModOfDecomposition(HalfRange - 1, 0, HalfRange - 1, TWO_64);
  }
}
