/** Strings of bytes: numbers written in decimal, and text split and joined at a character. */
module Texts {
  import opened Options

  // --- Decimal ---

  predicate IsDigit(c: char) {
    '0' <= c <= '9'
  }

  predicate AllDigits(s: string) {
    forall i :: 0 <= i < |s| ==> IsDigit(s[i])
  }

  function DigitOf(n: nat): char
    requires n < 10
  {
    ('0' as int + n) as char
  }

  function Decimal(n: nat): (s: string)
    ensures s != [] && AllDigits(s)
  {
    if n < 10 then [DigitOf(n)] else Decimal(n / 10) + [DigitOf(n % 10)]
  }

  function ValueOf(s: string): nat
    requires AllDigits(s)
  {
    if s == [] then 0
    else 10 * ValueOf(s[..|s| - 1]) + (s[|s| - 1] as int - '0' as int)
  }

  lemma {:induction false} DecimalReadsBack(n: nat)
    ensures ValueOf(Decimal(n)) == n
  {
    if n >= 10 {
      DecimalReadsBack(n / 10);
      var s := Decimal(n);
      assert s[..|s| - 1] == Decimal(n / 10);
    } else {
      assert Decimal(n)[..0] == [];
    }
  }

  /** Different numbers are written differently. */
  lemma DecimalInjective(m: nat, n: nat)
    ensures Decimal(m) == Decimal(n) ==> m == n
  {
    DecimalReadsBack(m);
    DecimalReadsBack(n);
  }

  lemma ShortDecimal(n: nat)
    requires n < 1000
    ensures |Decimal(n)| <= 3
  {
    if n >= 100 {
      assert n / 10 < 100 && n / 10 / 10 < 10;
      assert |Decimal(n / 10 / 10)| == 1;
      assert |Decimal(n / 10)| == 2;
    } else if n >= 10 {
      assert n / 10 < 10;
      assert |Decimal(n / 10)| == 1;
    }
  }

  // --- Letters ---

  predicate IsUpper(c: char) {
    'A' <= c <= 'Z'
  }

  predicate IsAlnum(c: char) {
    IsUpper(c) || 'a' <= c <= 'z' || IsDigit(c)
  }

  function Lower(c: char): char {
    if IsUpper(c) then (c as int + 32) as char else c
  }

  // --- Ends ---

  predicate EndsWith(s: string, c: char) {
    s != "" && s[|s| - 1] == c
  }

  function TrimmedEnd(s: string, c: char): string {
    if EndsWith(s, c) then TrimmedEnd(s[..|s| - 1], c) else s
  }

  lemma {:induction false} TrimmedEndIsPrefix(s: string, c: char)
    ensures TrimmedEnd(s, c) <= s && !EndsWith(TrimmedEnd(s, c), c)
  {
    if EndsWith(s, c) {
      TrimmedEndIsPrefix(s[..|s| - 1], c);
    }
  }

  /** What follows the last `c`. */
  function AfterLast(s: string, c: char): string {
    if s == "" || EndsWith(s, c) then "" else AfterLast(s[..|s| - 1], c) + [s[|s| - 1]]
  }

  lemma {:induction false} AfterLastIs(q: string, d: string, c: char)
    requires (q == "" || EndsWith(q, c)) && AllDigits(d) && !IsDigit(c)
    ensures AfterLast(q + d, c) == d
    decreases |d|
  {
    if d == "" {
      assert q + d == q;
    } else {
      var n := |d| - 1;
      AfterLastIs(q, d[..n], c);
      assert (q + d)[..|q + d| - 1] == q + d[..n];
      assert d == d[..n] + [d[n]];
    }
  }

  // --- Splitting and joining ---

  /** Where `c` first comes, or the length. */
  function Find(s: string, c: char): (i: nat)
    ensures i <= |s| && (i < |s| ==> s[i] == c) && c !in s[..i]
  {
    if s == [] || s[0] == c then 0
    else
      assert s[..1 + Find(s[1..], c)] == [s[0]] + s[1..][..Find(s[1..], c)];
      1 + Find(s[1..], c)
  }

  function Split(s: string, c: char): (parts: seq<string>)
    ensures |parts| >= 1
    decreases |s|
  {
    var i := Find(s, c);
    if i == |s| then [s] else [s[..i]] + Split(s[i + 1..], c)
  }

  function Join(parts: seq<string>, c: char): string {
    if parts == [] then ""
    else if |parts| == 1 then parts[0]
    else parts[0] + [c] + Join(parts[1..], c)
  }

  lemma FindFirst(s: string, c: char, i: nat)
    requires i <= |s| && c !in s[..i] && (i < |s| ==> s[i] == c)
    ensures Find(s, c) == i
  {}

  /** Text joined at a character none of the parts has splits into the parts again. */
  lemma {:induction false} JoinSplits(parts: seq<string>, c: char)
    requires parts != [] && forall i :: 0 <= i < |parts| ==> c !in parts[i]
    ensures Split(Join(parts, c), c) == parts
    decreases |parts|
  {
    var s := Join(parts, c);
    var n := |parts[0]|;
    assert s[..n] == parts[0];
    FindFirst(s, c, n);
    if |parts| == 1 {
      assert [s] == parts;
    } else {
      assert s[n + 1..] == Join(parts[1..], c);
      JoinSplits(parts[1..], c);
      assert [parts[0]] + parts[1..] == parts;
    }
  }

  lemma {:induction false} JoinWithout(parts: seq<string>, c: char, d: char)
    requires c != d && forall i :: 0 <= i < |parts| ==> d !in parts[i]
    ensures d !in Join(parts, c)
    decreases |parts|
  {
    if |parts| > 1 {
      JoinWithout(parts[1..], c, d);
    }
  }

  lemma {:induction false} JoinExtends(parts: seq<string>, c: char, last: string)
    requires parts != []
    ensures Join(parts + [last], c) == Join(parts, c) + [c] + last
    decreases |parts|
  {
    var all := parts + [last];
    assert all[0] == parts[0] && all[1..] == parts[1..] + [last];
    if |parts| > 1 {
      JoinExtends(parts[1..], c, last);
    } else {
      assert Join(all[1..], c) == last;
    }
  }

  // --- The C library's whole-number parser ---

  predicate IsSpace(c: char) {
    c == ' ' || ('\t' <= c <= '\r')
  }

  function WithoutSpace(s: string): string {
    if s != "" && IsSpace(s[0]) then WithoutSpace(s[1..]) else s
  }

  function WithoutSign(s: string): string {
    if s != "" && (s[0] == '+' || s[0] == '-') then s[1..] else s
  }

  predicate Negative(s: string) {
    s != "" && s[0] == '-'
  }

  const NUL: char := 0 as char

  /** A number and nothing after it but, as C strings end, a NUL: whitespace and a sign may lead. None
      for text that is no such number, or one outside a byte. */
  function ParseByte(s: string): (r: Option<nat>)
    ensures r.Some? ==> r.value < 256
  {
    var text := WithoutSpace(s[..Find(s, NUL)]);
    var digits := WithoutSign(text);
    if digits == "" || !AllDigits(digits) then None
    else
      var n := ValueOf(digits);
      if n > 255 || (Negative(text) && n > 0) then None else Some(n)
  }

  lemma DecimalParses(n: nat)
    requires n < 256
    ensures ParseByte(Decimal(n)) == Some(n)
  {
    var s := Decimal(n);
    assert NUL !in s;
    FindFirst(s, NUL, |s|);
    assert s[..|s|] == s;
    assert IsDigit(s[0]);
    DecimalReadsBack(n);
  }

  /** Whitespace before a number is passed over: a space, a tab, and the four line breaks. */
  lemma WhitespaceLeads(c: char, s: string)
    requires c == ' ' || c == '\t' || c == '\n' || c as int == 0x0B || c as int == 0x0C || c == '\r'
    ensures ParseByte([c] + s) == ParseByte(s)
  {
    var t := [c] + s;
    assert t[1..] == s;
    FindFirst(t, NUL, 1 + Find(s, NUL));
    var text := t[..Find(t, NUL)];
    assert text[1..] == s[..Find(s, NUL)];
  }

  /** Anything else that is no digit and no sign is no number. */
  lemma NothingElseLeads(c: char, s: string)
    requires !IsDigit(c) && c !in ['+', '-', ' ', '\t', '\n', '\r'] && c as int != 0x0B && c as int != 0x0C && c != NUL
    ensures ParseByte([c] + s).None?
  {
    var t := [c] + s;
    assert t[1..] == s;
    FindFirst(t, NUL, 1 + Find(s, NUL));
    assert t[..Find(t, NUL)][0] == c;
  }
}
