/** 16-byte UUIDs (github.com/google/uuid): the canonical string form, the parser,
    and the version and variant fields of section 4 of RFC 9562. */
module Uuid {
  import opened Bytes
  import opened Results

  type Uuid = s: seq<byte> | |s| == 16 witness [0, 0, 0, 0, 0, 0, 0, 0, 0, 0, 0, 0, 0, 0, 0, 0]

  function HexDigit(d: nat): (c: char)
    requires d < 16
  {
    "0123456789abcdef"[d]
  }

  /** The library's xvalues table: the value of a hexadecimal digit of either case. */
  function HexValue(c: char): (v: Option<nat>)
  {
    if '0' <= c <= '9' then Some(c as int - '0' as int)
    else if 'a' <= c <= 'f' then Some(c as int - 'a' as int + 10)
    else if 'A' <= c <= 'F' then Some(c as int - 'A' as int + 10)
    else None
  }

  lemma HexValueOfDigit(d: nat)
    requires d < 16
    ensures HexValue(HexDigit(d)) == Some(d)
  {
  }

  /** xtob: the byte written by two hexadecimal digits, most significant first. */
  function Xtob(hi: char, lo: char): (r: Option<byte>)
    ensures r.Some? <==> HexValue(hi).Some? && HexValue(lo).Some?
  {
    match (HexValue(hi), HexValue(lo))
    case (Some(h), Some(l)) =>
      assert h < 16 && l < 16;
      Some((h * 16 + l) as byte)
    case _ => None
  }

  predicate IsDashPosition(j: nat) { j == 8 || j == 13 || j == 18 || j == 23 }

  /** How many dashes of the 8-4-4-4-12 form stand before position j. */
  function DashesBefore(j: nat): (n: nat)
  {
    (if j > 8 then 1 else 0) + (if j > 13 then 1 else 0) + (if j > 18 then 1 else 0) + (if j > 23 then 1 else 0)
  }

  /** Position of the first hex digit of byte i in the 36-character form
      (the library's table 0, 2, 4, 6, 9, 11, 14, ..., 34). */
  function PairStart(i: nat): (p: nat)
    requires i < 16
    ensures p + 1 < 36 && !IsDashPosition(p) && !IsDashPosition(p + 1)
    ensures DashesBefore(p) == DashesBefore(p + 1) && p - DashesBefore(p) == 2 * i
  {
    2 * i + (if i >= 4 then 1 else 0) + (if i >= 6 then 1 else 0) + (if i >= 8 then 1 else 0) + (if i >= 10 then 1 else 0)
  }

  function CanonicalChar(u: Uuid, j: nat): (ch: char)
    requires j < 36
  {
    if IsDashPosition(j) then '-'
    else
      var q := j - DashesBefore(j);
      if q % 2 == 0 then HexDigit(u[q / 2] as nat / 16) else HexDigit(u[q / 2] as nat % 16)
  }

  /** uuid.UUID.String(): lower-case hex in the form xxxxxxxx-xxxx-xxxx-xxxx-xxxxxxxxxxxx. */
  function ToString(u: Uuid): (s: string)
    ensures |s| == 36
    ensures forall j :: 0 <= j < 36 ==> (s[j] == '-' <==> IsDashPosition(j))
    ensures forall j :: 0 <= j < 36 && !IsDashPosition(j) ==> HexValue(s[j]).Some?
  {
    seq(36, j requires 0 <= j < 36 => CanonicalChar(u, j))
  }

  lemma ToStringHasNoNewline(u: Uuid)
    ensures '\n' !in ToString(u)
  {
    var s := ToString(u);
    forall j | 0 <= j < 36 ensures s[j] != '\n' {
      assert s[j] == '-' || HexValue(s[j]).Some?;
    }
  }

  predicate DashesAt(t: string)
    requires |t| >= 36
  {
    t[8] == '-' && t[13] == '-' && t[18] == '-' && t[23] == '-'
  }

  /** The 36-character form (only its first 36 characters are read, as in the library). */
  function ParseCanonical(t: string): (r: Result<Uuid>)
    requires |t| >= 36
    ensures r.Ok? <==> DashesAt(t) && forall i :: 0 <= i < 16 ==> Xtob(t[PairStart(i)], t[PairStart(i) + 1]).Some?
  {
    if !DashesAt(t) then Err("invalid UUID format")
    else if forall i :: 0 <= i < 16 ==> Xtob(t[PairStart(i)], t[PairStart(i) + 1]).Some? then
      Ok(seq(16, i requires 0 <= i < 16 => Xtob(t[PairStart(i)], t[PairStart(i) + 1]).value))
    else Err("invalid UUID format")
  }

  /** The 32-digit form without dashes. */
  function ParsePlain(t: string): (r: Result<Uuid>)
    requires |t| == 32
    ensures r.Ok? <==> forall i :: 0 <= i < 16 ==> Xtob(t[2 * i], t[2 * i + 1]).Some?
  {
    if forall i :: 0 <= i < 16 ==> Xtob(t[2 * i], t[2 * i + 1]).Some? then
      Ok(seq(16, i requires 0 <= i < 16 => Xtob(t[2 * i], t[2 * i + 1]).value))
    else Err("invalid UUID format")
  }

  function AsciiLower(c: char): (lower: char)
  {
    if 'A' <= c <= 'Z' then (c as int + 32) as char else c
  }

  /** bytes.EqualFold against an ASCII literal. */
  predicate EqualFoldAscii(a: string, b: string)
  {
    |a| == |b| && forall i :: 0 <= i < |a| ==> AsciiLower(a[i]) == AsciiLower(b[i])
  }

  /** The number of bytes UTF-8 spends on one character. */
  function RuneLength(c: char): (n: nat)
    ensures 1 <= n <= 4 && (n == 1 <==> c as int < 0x80)
  {
    if c as int < 0x80 then 1 else if c as int < 0x800 then 2 else if c as int < 0x1_0000 then 3 else 4
  }

  predicate IsAscii(s: string)
  {
    forall i :: 0 <= i < |s| ==> s[i] as int < 0x80
  }

  /** Go's len of a string: its length in UTF-8 bytes, which is its length in characters
      exactly when every character is ASCII. */
  function Utf8Length(s: string): (n: nat)
    ensures n >= |s|
    ensures n == |s| <==> IsAscii(s)
  {
    if s == [] then 0
    else
      var n := RuneLength(s[0]) + Utf8Length(s[1..]);
      assert forall i :: 1 <= i < |s| ==> s[i] == s[1..][i - 1];
      n
  }

  /** uuid.Parse / uuid.ParseBytes: the 36-character form, the same with an "urn:uuid:"
      prefix (any case), the same within one leading and one unchecked trailing byte
      (braces), or 32 digits; any other byte length is an error. Every byte of a non-ASCII
      character is 0x80 or above, which is neither a hex digit, a dash nor a byte of
      "urn:uuid:", and a character of two or more bytes cannot sit wholly in the one
      unchecked byte at either end of the 38-byte form, so a non-ASCII input of an
      accepted length is a format error. */
  function Parse(s: string): (r: Result<Uuid>)
    ensures |s| !in {32, 36, 38, 45} ==> r.Err?
    ensures Utf8Length(s) !in {32, 36, 38, 45} ==> r.Err?
    ensures !IsAscii(s) ==> r.Err?
  {
    if Utf8Length(s) !in {32, 36, 38, 45} then Err("invalid UUID length")
    else if !IsAscii(s) then Err("invalid UUID format")
    else if |s| == 36 then ParseCanonical(s)
    else if |s| == 45 then
      if EqualFoldAscii(s[..9], "urn:uuid:") then ParseCanonical(s[9..]) else Err("invalid urn prefix")
    else if |s| == 38 then ParseCanonical(s[1..])
    else ParsePlain(s)
  }

  lemma {:induction false} CanonicalPair(u: Uuid, i: nat)
    requires i < 16
    ensures Xtob(ToString(u)[PairStart(i)], ToString(u)[PairStart(i) + 1]) == Some(u[i])
  {
    var s := ToString(u);
    var p := PairStart(i);
    PairChars(u, i);
    assert s[p] == CanonicalChar(u, p) && s[p + 1] == CanonicalChar(u, p + 1);
    XtobDigits(u[i]);
  }

  /** xtob reads a byte's two lower-case digits back as the byte. */
  lemma XtobDigits(b: byte)
    ensures Xtob(HexDigit(b as nat / 16), HexDigit(b as nat % 16)) == Some(b)
  {
    HexValueOfDigit(b as nat / 16);
    HexValueOfDigit(b as nat % 16);
  }

  /** The two characters at byte i's position are its high and low hexadecimal digits. */
  lemma PairChars(u: Uuid, i: nat)
    requires i < 16
    ensures CanonicalChar(u, PairStart(i)) == HexDigit(u[i] as nat / 16)
    ensures CanonicalChar(u, PairStart(i) + 1) == HexDigit(u[i] as nat % 16)
  {
    assert (2 * i) % 2 == 0 && (2 * i) / 2 == i;
    assert (2 * i + 1) % 2 == 1 && (2 * i + 1) / 2 == i;
  }

  /** Parsing the canonical string of a UUID gives the UUID back. */
  lemma {:induction false} ParseToString(u: Uuid)
    ensures Parse(ToString(u)) == Ok(u)
  {
    var s := ToString(u);
    forall i | 0 <= i < 16 ensures Xtob(s[PairStart(i)], s[PairStart(i) + 1]) == Some(u[i]) {
      CanonicalPair(u, i);
    }
    forall j | 0 <= j < 36 ensures s[j] as int < 0x80 {
      assert s[j] == '-' || HexValue(s[j]).Some?;
    }
    assert Utf8Length(s) == 36;
    assert DashesAt(s);
    var r := ParseCanonical(s);
    assert r.Ok?;
    assert r.value == u;
  }

  lemma ToStringInjective(u: Uuid, v: Uuid)
    requires ToString(u) == ToString(v)
    ensures u == v
  {
    ParseToString(u);
    ParseToString(v);
  }

  /** The version field: the high four bits of byte 6 (section 4.2 of RFC 9562). */
  function Version(u: Uuid): (v: nat) { u[6] as nat / 16 }

  /** The variant field 0b10 in the high two bits of byte 8 (section 4.1 of RFC 9562). */
  predicate IsRfcVariant(u: Uuid) { u[8] as nat / 64 == 2 }

  /** A version-7 UUID: 48-bit unix_ts_ms, version 7, rand_a, variant 0b10, rand_b
      (section 5.7 of RFC 9562). */
  predicate IsV7(u: Uuid) { Version(u) == 7 && IsRfcVariant(u) }
}
