/** Character strings: splitting, joining, trimming and decimal formatting as Go's
    strings/bytes/fmt packages and JavaScript's String methods do them. */
module Text {

  /** Go strings.Split / bytes.Split and JavaScript String.prototype.split with a
      one-character separator: n separators give n + 1 pieces, empty pieces kept. */
  function Split(s: string, sep: char): (parts: seq<string>)
    ensures |parts| >= 1
    ensures forall i :: 0 <= i < |parts| ==> sep !in parts[i]
  {
    if s == [] then [""]
    else
      var rest := Split(s[1..], sep);
      if s[0] == sep then [""] + rest else [[s[0]] + rest[0]] + rest[1..]
  }

  /** Go strings.Join: the parts with one separator between neighbours. */
  function Join(parts: seq<string>, sep: char): (joined: string)
  {
    if |parts| == 0 then ""
    else if |parts| == 1 then parts[0]
    else parts[0] + [sep] + Join(parts[1..], sep)
  }

  /** Every part followed by the separator, as a loop that writes `line + "\n"` produces. */
  function Terminated(lines: seq<string>, sep: char): (text: string)
  {
    if lines == [] then "" else lines[0] + [sep] + Terminated(lines[1..], sep)
  }

  predicate NoSeparator(parts: seq<string>, sep: char)
  {
    forall i :: 0 <= i < |parts| ==> sep !in parts[i]
  }

  lemma {:induction false} SplitNoSeparator(a: string, sep: char)
    requires sep !in a
    ensures Split(a, sep) == [a]
  {
    if a != [] {
      SplitNoSeparator(a[1..], sep);
      assert [a[0]] + a[1..] == a;
    }
  }

  lemma {:induction false} SplitAtSeparator(a: string, sep: char, t: string)
    requires sep !in a
    ensures Split(a + [sep] + t, sep) == [a] + Split(t, sep)
  {
    if a == [] {
      assert a + [sep] + t == [sep] + t;
      assert ([sep] + t)[1..] == t;
    } else {
      var s := a + [sep] + t;
      assert s[0] == a[0];
      assert s[1..] == a[1..] + [sep] + t;
      SplitAtSeparator(a[1..], sep, t);
      assert [a[0]] + a[1..] == a;
    }
  }

  /** Splitting a join gives back the parts, provided no part contains the separator. */
  lemma {:induction false} SplitJoin(parts: seq<string>, sep: char)
    requires |parts| >= 1 && NoSeparator(parts, sep)
    ensures Split(Join(parts, sep), sep) == parts
  {
    if |parts| == 1 {
      SplitNoSeparator(parts[0], sep);
    } else {
      SplitJoin(parts[1..], sep);
      SplitAtSeparator(parts[0], sep, Join(parts[1..], sep));
      assert [parts[0]] + parts[1..] == parts;
    }
  }

  lemma {:induction false} TerminatedIsJoin(lines: seq<string>, sep: char)
    ensures Terminated(lines, sep) == Join(lines + [""], sep)
  {
    if lines != [] {
      TerminatedIsJoin(lines[1..], sep);
      assert (lines + [""])[1..] == lines[1..] + [""];
    }
  }

  /** Splitting newline-terminated lines gives the lines and one trailing empty piece. */
  lemma SplitTerminated(lines: seq<string>, sep: char)
    requires NoSeparator(lines, sep)
    ensures Split(Terminated(lines, sep), sep) == lines + [""]
  {
    TerminatedIsJoin(lines, sep);
    SplitJoin(lines + [""], sep);
  }

  /** Go strings.TrimLeft with a one-character cutset. */
  function TrimLeft(s: string, c: char): (r: string)
    ensures |r| <= |s| && r == s[|s| - |r|..]
    ensures r == [] || r[0] != c
    ensures forall i :: 0 <= i < |s| - |r| ==> s[i] == c
  {
    if s != [] && s[0] == c then
      var r := TrimLeft(s[1..], c);
      assert s[1..][|s| - 1 - |r|..] == s[|s| - |r|..];
      assert forall i :: 1 <= i < |s| - |r| ==> s[i] == s[1..][i - 1];
      r
    else s
  }

  /** Go strings.TrimRight with a one-character cutset. */
  function TrimRight(s: string, c: char): (r: string)
    ensures |r| <= |s| && r == s[..|r|]
    ensures r == [] || r[|r| - 1] != c
    ensures forall i :: |r| <= i < |s| ==> s[i] == c
  {
    if s != [] && s[|s| - 1] == c then
      var r := TrimRight(s[..|s| - 1], c);
      assert s[..|s| - 1][..|r|] == s[..|r|];
      assert forall i :: |r| <= i < |s| - 1 ==> s[i] == s[..|s| - 1][i];
      r
    else s
  }

  /** TrimLeft removes a leading c and goes on; it stops at any other first character. */
  lemma TrimLeftStep(s: string, c: char)
    ensures s != [] && s[0] == c ==> TrimLeft(s, c) == TrimLeft(s[1..], c)
    ensures s == [] || s[0] != c ==> TrimLeft(s, c) == s
  {
  }

  /** TrimRight removes a trailing c and goes on; it stops at any other last character. */
  lemma TrimRightStep(s: string, c: char)
    ensures s != [] && s[|s| - 1] == c ==> TrimRight(s, c) == TrimRight(s[..|s| - 1], c)
    ensures s == [] || s[|s| - 1] != c ==> TrimRight(s, c) == s
  {
  }

  /** Go strings.Trim(s, cutset) with a one-character cutset. */
  function Trim(s: string, c: char): (trimmed: string)
    ensures |trimmed| <= |s|
    ensures trimmed == [] || (trimmed[0] != c && trimmed[|trimmed| - 1] != c)
  {
    TrimRight(TrimLeft(s, c), c)
  }

  /** Trim removes a run of c from each end and keeps the middle of s. */
  lemma TrimIsInfix(s: string, c: char)
    ensures var i := |s| - |TrimLeft(s, c)|;
      var j := i + |Trim(s, c)|;
      && i <= j <= |s| && Trim(s, c) == s[i..j]
      && (forall k :: 0 <= k < i ==> s[k] == c)
      && (forall k :: j <= k < |s| ==> s[k] == c)
  {
    var l := TrimLeft(s, c);
    var i := |s| - |l|;
    forall k | i + |Trim(s, c)| <= k < |s| ensures s[k] == c {
      assert s[k] == l[k - i];
    }
  }

  predicate IsDigit(ch: char) { '0' <= ch <= '9' }

  function DigitValue(ch: char): (d: nat)
    requires IsDigit(ch)
    ensures d < 10
  {
    ch as int - '0' as int
  }

  function DigitChar(d: nat): (ch: char)
    requires d < 10
    ensures IsDigit(ch)
  {
    ['0', '1', '2', '3', '4', '5', '6', '7', '8', '9'][d]
  }

  /** Decimal rendering of a natural number without leading zeros (fmt's %d, JSON numbers). */
  function NatToString(n: nat): (r: string)
    ensures |r| >= 1 && forall i :: 0 <= i < |r| ==> IsDigit(r[i])
    ensures |r| > 1 ==> r[0] != '0'
  {
    if n < 10 then [DigitChar(n)] else NatToString(n / 10) + [DigitChar(n % 10)]
  }

  /** Go fmt's %d for a signed integer. */
  function IntToString(i: int): (r: string)
    ensures |r| >= 1 && '\n' !in r
  {
    if i < 0 then "-" + NatToString(-i) else NatToString(i)
  }

  /** The value of a string of decimal digits. */
  function DecimalValue(s: string): (n: nat)
    requires forall i :: 0 <= i < |s| ==> IsDigit(s[i])
  {
    if s == [] then 0 else DecimalValue(s[..|s| - 1]) * 10 + DigitValue(s[|s| - 1])
  }

  lemma {:induction false} DecimalRoundTrip(n: nat)
    ensures DecimalValue(NatToString(n)) == n
  {
    if n >= 10 {
      var r := NatToString(n);
      assert r[..|r| - 1] == NatToString(n / 10);
      DecimalRoundTrip(n / 10);
    } else {
      assert DigitValue(DigitChar(n)) == n;
    }
  }

  /** Different numbers render differently. */
  lemma NatToStringInjective(m: nat, n: nat)
    requires NatToString(m) == NatToString(n)
    ensures m == n
  {
    DecimalRoundTrip(m);
    DecimalRoundTrip(n);
  }
}
