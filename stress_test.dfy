/** stress_test.js: the k6 load script. The account list is the file's lines that have
    non-whitespace content; each iteration posts one JSON transaction built from two random
    draws. Math.random() is replaced by the integers the two Math.floor expressions produce. */
module StressTest {
  import Text
  import opened Results

  /** The characters String.prototype.trim removes: ECMAScript WhiteSpace and
      LineTerminator (section 12.2 and 12.3 of ECMA-262). */
  predicate IsJsWhitespace(c: char)
  {
    c == '\t' || c == '\n' || c == '\U{B}' || c == '\U{C}' || c == '\r' || c == ' '
    || c == '\U{A0}' || c == '\U{1680}' || ('\U{2000}' <= c <= '\U{200A}')
    || c == '\U{2028}' || c == '\U{2029}' || c == '\U{202F}' || c == '\U{205F}' || c == '\U{3000}'
    || c == '\U{FEFF}'
  }

  /** String.prototype.trim. */
  function JsTrim(s: string): (r: string)
    ensures |r| <= |s|
  {
    if s != [] && IsJsWhitespace(s[0]) then JsTrim(s[1..])
    else if s != [] && IsJsWhitespace(s[|s| - 1]) then JsTrim(s[..|s| - 1])
    else s
  }

  /** A line the filter drops: nothing but whitespace. */
  predicate Blank(line: string)
  {
    forall i :: 0 <= i < |line| ==> IsJsWhitespace(line[i])
  }

  /** line.trim() !== '' holds exactly for the lines with a non-whitespace character. */
  lemma {:induction false} TrimEmptyIffBlank(s: string)
    ensures JsTrim(s) == "" <==> Blank(s)
    decreases |s|
  {
    if s != [] && IsJsWhitespace(s[0]) {
      TrimEmptyIffBlank(s[1..]);
      assert forall i :: 1 <= i < |s| ==> s[i] == s[1..][i - 1];
    } else if s != [] && IsJsWhitespace(s[|s| - 1]) {
      TrimEmptyIffBlank(s[..|s| - 1]);
      assert forall i :: 0 <= i < |s| - 1 ==> s[i] == s[..|s| - 1][i];
    } else if s != [] {
      assert !IsJsWhitespace(s[0]);
    }
  }

  /** .filter(line => line.trim() !== ''): the non-blank lines, in order, untrimmed. */
  function NonBlank(lines: seq<string>): (kept: seq<string>)
    ensures |kept| <= |lines|
  {
    if lines == [] then []
    else NonBlank(lines[..|lines| - 1]) + if JsTrim(lines[|lines| - 1]) != "" then [lines[|lines| - 1]] else []
  }

  /** The account list: f.split('\n') filtered. */
  function AccountIds(f: string): (ids: seq<string>)
  {
    NonBlank(Text.Split(f, '\n'))
  }

  /** A line is kept exactly when it is one of the lines and is not blank; kept lines are
      the lines themselves. */
  lemma {:induction false} NonBlankMembers(lines: seq<string>, x: string)
    ensures x in NonBlank(lines) <==> x in lines && !Blank(x)
  {
    if lines != [] {
      var init := lines[..|lines| - 1];
      NonBlankMembers(init, x);
      TrimEmptyIffBlank(lines[|lines| - 1]);
      assert lines == init + [lines[|lines| - 1]];
    }
  }

  /** The filter distributes over concatenation, so the kept lines keep their order. */
  lemma {:induction false} NonBlankAppend(a: seq<string>, b: seq<string>)
    ensures NonBlank(a + b) == NonBlank(a) + NonBlank(b)
    decreases |b|
  {
    if b == [] {
      assert a + b == a;
    } else {
      assert (a + b)[..|a + b| - 1] == a + b[..|b| - 1];
      NonBlankAppend(a, b[..|b| - 1]);
    }
  }

  /** The JSON body: JSON.stringify drops an undefined accountId, which is what
      account_ids[0] is when the list is empty. */
  datatype Payload = Payload(accountId: Option<string>, txType: int, amount: int)

  /** The keys of the serialised body, in order. */
  function Keys(p: Payload): (keys: seq<string>)
  {
    (if p.accountId.Some? then ["accountId"] else []) + ["type", "amount"]
  }

  /** One iteration's request: r = Math.floor(Math.random() * len) and
      d = Math.floor(Math.random() * 10000), so 0 <= d < 10000 and r < len, or r == 0 for
      an empty list. */
  function Synthesize(ids: seq<string>, r: nat, d: nat): (p: Payload)
    requires (r < |ids| || (ids == [] && r == 0)) && d < 10000
    ensures ids != [] ==> p.accountId.Some? && p.accountId.value in ids
    ensures ids == [] ==> p.accountId.None?
    ensures 100 <= p.amount <= 10099
    ensures p.txType == 1
  {
    var amount := d + 100;
    Payload(if r < |ids| then Some(ids[r]) else None, if amount > 0 then 1 else 2, amount)
  }

  /** With a non-empty list the body has exactly the keys accountId, type and amount. */
  lemma KeysOfRequest(ids: seq<string>, r: nat, d: nat)
    requires r < |ids| && d < 10000
    ensures Keys(Synthesize(ids, r, d)) == ["accountId", "type", "amount"]
  {
  }

  /** Every draw pair is a transaction of type 1 (Debit); type 2 never occurs. */
  lemma TypeTwoUnreachable(ids: seq<string>, r: nat, d: nat)
    requires (r < |ids| || (ids == [] && r == 0)) && d < 10000
    ensures Synthesize(ids, r, d).txType != 2
  {
  }

  /** The check: a response passes iff its status is 201. */
  predicate Passes(status: int)
  {
    status == 201
  }
}
