/** Bytes and the big-endian integer encodings of Go's encoding/binary package. */
module Bytes {

  newtype byte = x: int | 0 <= x < 256

  /** 256 to the power n: the number of distinct n-byte strings. */
  function Pow256(n: nat): (r: nat)
    ensures r >= 1
  {
    if n == 0 then 1 else 256 * Pow256(n - 1)
  }

  const TWO_16: nat := 0x1_0000
  const TWO_32: nat := 0x1_0000_0000
  const TWO_64: nat := 0x1_0000_0000_0000_0000

  lemma Pow256Values()
    ensures Pow256(2) == TWO_16 && Pow256(4) == TWO_32 && Pow256(8) == TWO_64
  {
    assert Pow256(2) == 65536;
    assert Pow256(4) == 65536 * 65536;
    assert Pow256(6) == 65536 * 65536 * 65536;
  }

  /** The unsigned value of `s` read most significant byte first
      (binary.BigEndian.Uint16/Uint32/Uint64 for |s| = 2, 4, 8). */
  function BigEndian(s: seq<byte>): (v: nat)
  {
    if s == [] then 0 else BigEndian(s[..|s| - 1]) * 256 + s[|s| - 1] as nat
  }

  lemma {:induction false} BigEndianBound(s: seq<byte>)
    ensures BigEndian(s) < Pow256(|s|)
  {
    if s != [] {
      BigEndianBound(s[..|s| - 1]);
    }
  }

  /** Reading from the front: the first byte weighs 256^(|s|-1). */
  lemma {:induction false} BigEndianFront(s: seq<byte>)
    requires |s| >= 1
    ensures BigEndian(s) == s[0] as nat * Pow256(|s| - 1) + BigEndian(s[1..])
  {
    if |s| == 1 {
      assert s[..0] == [] && s[1..] == [];
    } else {
      var p := s[..|s| - 1];
      BigEndianFront(p);
      assert p[0] == s[0];
      assert s[1..][..|s| - 2] == p[1..];
      var a, b, x := s[0] as nat, Pow256(|s| - 2), BigEndian(p[1..]);
      var last := s[|s| - 1] as nat;
      assert BigEndian(s) == BigEndian(p) * 256 + last;
      assert BigEndian(s[1..]) == x * 256 + last;
      assert Pow256(|s| - 1) == 256 * b;
      ShiftByte(a, b, x, last);
    }
  }

  /** The arithmetic of one more trailing byte: (a*b + x)*256 + last regroups as
      a*(256*b) + (x*256 + last). */
  lemma ShiftByte(a: int, b: int, x: int, last: int)
    ensures (a * b + x) * 256 + last == a * (256 * b) + (x * 256 + last)
  {
    assert (a * b + x) * 256 == (a * b) * 256 + x * 256;
    assert (a * b) * 256 == a * (256 * b);
  }

  /** The 8-byte big-endian value of a Go uint64 is always below 2^64. */
  lemma Uint64Bound(s: seq<byte>)
    requires |s| == 8
    ensures BigEndian(s) < TWO_64
  {
    BigEndianBound(s);
    Pow256Values();
  }

  /** The last n bytes of the big-endian encoding of v, i.e. v mod 256^n written
      most significant byte first (binary.BigEndian.PutUintN / AppendUintN). */
  function ToBigEndian(v: nat, n: nat): (r: seq<byte>)
    ensures |r| == n
  {
    if n == 0 then [] else ToBigEndian(v / 256, n - 1) + [(v % 256) as byte]
  }

  lemma {:induction false} ToBigEndianRoundTrip(v: nat, n: nat)
    ensures BigEndian(ToBigEndian(v, n)) == v % Pow256(n)
  {
    if n > 0 {
      var r := ToBigEndian(v, n);
      assert r[..n - 1] == ToBigEndian(v / 256, n - 1);
      ToBigEndianRoundTrip(v / 256, n - 1);
      DivModPow(v, Pow256(n - 1));
    }
  }

  lemma DivModPow(v: nat, p: nat)
    requires p >= 1
    ensures (v / 256) % p * 256 + v % 256 == v % (256 * p)
  {
    var q, lo := v / 256, v % 256;
    var qq, qr := q / p, q % p;
    var m := 256 * p;
    assert q * 256 == (qq * p + qr) * 256;
    assert (qq * p + qr) * 256 == qq * m + qr * 256 by {
      assert (qq * p) * 256 == qq * (p * 256);
    }
    assert v == qq * m + (qr * 256 + lo);
    assert qr * 256 <= (p - 1) * 256;
    ModOfDecomposition(v, qq, qr * 256 + lo, m);
  }

  lemma ModOfDecomposition(v: int, a: int, b: int, m: int)
    requires m > 0 && 0 <= b < m && v == a * m + b
    ensures v % m == b
  {
    var q, r := v / m, v % m;
    assert v == q * m + r;
    var k := a - q;
    assert k * m == r - b;
    MulSign(k, m);
  }

  lemma MulSign(k: int, m: int)
    requires m > 0
    ensures k >= 1 ==> k * m >= m
    ensures k <= -1 ==> k * m <= -m
  {
    if k >= 1 {
      assert k * m == (k - 1) * m + m;
    } else if k <= -1 {
      assert k * m == (k + 1) * m - m;
    }
  }

  /** Encoding an n-byte value and reading it back gives the value. */
  lemma EncodeDecode(v: nat, n: nat)
    requires v < Pow256(n)
    ensures BigEndian(ToBigEndian(v, n)) == v
  {
    ToBigEndianRoundTrip(v, n);
  }

  /** Two values below 256^n have different n-byte encodings. */
  lemma ToBigEndianInjective(v: nat, w: nat, n: nat)
    requires v < Pow256(n) && w < Pow256(n) && v != w
    ensures ToBigEndian(v, n) != ToBigEndian(w, n)
  {
    EncodeDecode(v, n);
    EncodeDecode(w, n);
  }

  /** Incrementing a residue: (x mod m + 1) mod m is (x + 1) mod m. */
  lemma SuccMod(x: nat, m: nat)
    requires m > 0
    ensures (x % m + 1) % m == (x + 1) % m
  {
    var q, r := x / m, x % m;
    assert x + 1 == q * m + (r + 1);
    if r + 1 < m {
      ModOfDecomposition(r + 1, 0, r + 1, m);
      ModOfDecomposition(x + 1, q, r + 1, m);
    } else {
      assert r + 1 == m;
      ModOfDecomposition(m, 1, 0, m);
      assert q * m + m == (q + 1) * m;
      ModOfDecomposition(x + 1, q + 1, 0, m);
    }
  }
}
