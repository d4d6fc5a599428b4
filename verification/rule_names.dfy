/** The file name a rule's name maps to (components/automations/automation_storage.cpp). Text is
    bytes: characters below 256. */
module RuleNames {
  import opened Texts

  /** The file system refuses much longer ones. */
  const MAX_FILENAME_BYTES: nat := 48
  const FALLBACK := "automation"

  // --- Cutting at a character ---

  /** The bytes a character led by `lead` takes; 1 for a byte that leads none. */
  function WidthOf(lead: char): (w: nat)
    ensures 1 <= w <= 4
  {
    var b := lead as int;
    if 0xC0 <= b < 0xE0 then 2 else if 0xE0 <= b < 0xF0 then 3 else if 0xF0 <= b < 0xF8 then 4 else 1
  }

  /** Where the last whole character before `limit` ends, from a character that starts at `i`. */
  function CutFrom(text: string, i: nat, limit: nat): (cut: nat)
    requires i <= limit < |text|
    ensures i <= cut <= limit
    decreases limit - i
  {
    if i + WidthOf(text[i]) > limit then i else CutFrom(text, i + WidthOf(text[i]), limit)
  }

  function Truncated(text: string, limit: nat): (r: string)
    ensures |r| <= limit && r <= text
    ensures |text| <= limit ==> r == text
  {
    if |text| <= limit then text else text[..CutFrom(text, 0, limit)]
  }

  // --- Sanitizing ---

  function KeptOf(c: char): string {
    if c as int >= 0x80 then [c]
    else if IsAlnum(c) then [Lower(c)]
    else if c == ' ' || c == '-' || c == '_' then "_"
    else ""
  }

  function Kept(name: string): string {
    if name == "" then "" else Kept(name[..|name| - 1]) + KeptOf(name[|name| - 1])
  }

  function Pushed(s: string, c: char): string {
    if c == '_' && EndsWith(s, '_') then s else s + [c]
  }

  function Collapsed(s: string): string {
    if s == "" then "" else Pushed(Collapsed(s[..|s| - 1]), s[|s| - 1])
  }

  function TrimmedStart(s: string): string {
    if s != "" && s[0] == '_' then TrimmedStart(s[1..]) else s
  }

  function Sanitized(name: string): (r: string)
    ensures r != ""
  {
    var trimmed := TrimmedEnd(TrimmedStart(Collapsed(Kept(name))), '_');
    var cut := TrimmedEnd(Truncated(trimmed, MAX_FILENAME_BYTES), '_');
    if trimmed == "" || cut == "" then FALLBACK else cut
  }

  // --- What sanitizing gives ---

  predicate CleanChar(c: char) {
    c as int >= 0x80 || (IsAlnum(c) && !IsUpper(c)) || c == '_'
  }

  predicate AllClean(s: string) {
    forall i :: 0 <= i < |s| ==> CleanChar(s[i])
  }

  predicate NoPair(s: string) {
    forall i :: 1 <= i < |s| ==> !(s[i - 1] == '_' && s[i] == '_')
  }

  /** A file name that is one already. */
  predicate Clean(s: string) {
    && 0 < |s| <= MAX_FILENAME_BYTES && AllClean(s) && NoPair(s)
    && s[0] != '_' && s[|s| - 1] != '_'
  }

  lemma {:induction false} KeptIsClean(name: string)
    ensures AllClean(Kept(name))
  {
    if name != "" {
      KeptIsClean(name[..|name| - 1]);
    }
  }

  lemma {:induction false} CollapsedIsClean(s: string)
    requires AllClean(s)
    ensures AllClean(Collapsed(s)) && NoPair(Collapsed(s))
  {
    if s != "" {
      CollapsedIsClean(s[..|s| - 1]);
    }
  }

  lemma {:induction false} TrimmedStartIsClean(s: string)
    requires AllClean(s) && NoPair(s)
    ensures AllClean(TrimmedStart(s)) && NoPair(TrimmedStart(s))
    ensures TrimmedStart(s) != "" ==> TrimmedStart(s)[0] != '_'
  {
    if s != "" && s[0] == '_' {
      assert AllClean(s[1..]) && NoPair(s[1..]) by {
        assert forall i :: 0 <= i < |s| - 1 ==> s[1..][i] == s[i + 1];
      }
      TrimmedStartIsClean(s[1..]);
    }
  }

  lemma PrefixIsClean(p: string, s: string)
    requires p <= s && AllClean(s) && NoPair(s)
    ensures AllClean(p) && NoPair(p) && (p != "" ==> p[0] == s[0])
  {
    assert forall i :: 0 <= i < |p| ==> p[i] == s[i];
  }

  lemma SanitizedIsClean(name: string)
    ensures Clean(Sanitized(name))
  {
    KeptIsClean(name);
    CollapsedIsClean(Kept(name));
    var start := TrimmedStart(Collapsed(Kept(name)));
    TrimmedStartIsClean(Collapsed(Kept(name)));
    hide Kept, Collapsed, TrimmedStart, Truncated, CleanChar, IsAlnum;
    var trimmed := TrimmedEnd(start, '_');
    TrimmedEndIsPrefix(start, '_');
    PrefixIsClean(trimmed, start);
    var cut := Truncated(trimmed, MAX_FILENAME_BYTES);
    PrefixIsClean(cut, trimmed);
    TrimmedEndIsPrefix(cut, '_');
    PrefixIsClean(TrimmedEnd(cut, '_'), cut);
    FallbackIsClean();
    hide TrimmedEnd;
  }

  lemma FallbackIsClean()
    ensures Clean(FALLBACK)
  {}

  lemma {:induction false} KeptOfClean(s: string)
    requires AllClean(s)
    ensures Kept(s) == s
  {
    if s != "" {
      KeptOfClean(s[..|s| - 1]);
      assert s == s[..|s| - 1] + [s[|s| - 1]];
      assert KeptOf(s[|s| - 1]) == [s[|s| - 1]];
    }
  }

  lemma {:induction false} CollapsedOfClean(s: string)
    requires NoPair(s)
    ensures Collapsed(s) == s
  {
    if s != "" {
      var n := |s| - 1;
      var init := s[..n];
      CollapsedOfClean(init);
      assert !(s[n] == '_' && EndsWith(init, '_')) by {
        assert n > 0 ==> init[n - 1] == s[n - 1];
      }
      assert Pushed(init, s[n]) == init + [s[n]] == s;
    }
  }

  /** The clean names are exactly those sanitizing leaves alone, and everything sanitizes to one. */
  lemma SanitizingSettles(s: string)
    ensures Sanitized(s) == s <==> Clean(s)
    ensures Sanitized(Sanitized(s)) == Sanitized(s)
  {
    SanitizedIsClean(s);
    if Clean(s) {
      CleanStays(s);
    }
    CleanStays(Sanitized(s));
  }

  lemma CleanStays(s: string)
    requires Clean(s)
    ensures Sanitized(s) == s
  {
    KeptOfClean(s);
    CollapsedOfClean(s);
  }

  // --- A number after a space survives ---

  lemma {:induction false} KeptAppends(a: string, b: string)
    ensures Kept(a + b) == Kept(a) + Kept(b)
    decreases |b|
  {
    hide KeptOf;
    if b == "" {
      assert a + b == a;
    } else {
      var n := |b| - 1;
      var whole := a + b;
      KeptAppends(a, b[..n]);
      assert whole[..|whole| - 1] == a + b[..n];
      assert whole[|whole| - 1] == b[n];
      assert Kept(whole) == Kept(a + b[..n]) + KeptOf(b[n]);
    }
  }

  lemma KeptOfDigits(d: string)
    requires AllDigits(d)
    ensures Kept(d) == d
  {
    KeptOfClean(d);
  }

  lemma {:induction false} CollapsedAppends(s: string, d: string)
    requires AllDigits(d)
    ensures Collapsed(s + d) == Collapsed(s) + d
    decreases |d|
  {
    if d == "" {
      assert s + d == s;
    } else {
      var n := |d| - 1;
      CollapsedAppends(s, d[..n]);
      assert (s + d)[..|s + d| - 1] == s + d[..n];
      assert d == d[..n] + [d[n]];
    }
  }

  lemma {:induction false} CollapsedShrinks(s: string)
    ensures |Collapsed(s)| <= |s|
  {
    if s != "" {
      CollapsedShrinks(s[..|s| - 1]);
    }
  }

  lemma {:induction false} KeptShrinks(s: string)
    ensures |Kept(s)| <= |s|
  {
    if s != "" {
      KeptShrinks(s[..|s| - 1]);
    }
  }

  lemma {:induction false} TrimmedStartKeepsEnd(p: string, d: string)
    requires EndsWith(p, '_') && d != "" && AllDigits(d)
    ensures exists q :: TrimmedStart(p + d) == q + d && (q == "" || EndsWith(q, '_')) && |q| <= |p|
    decreases |p|
  {
    if p[0] == '_' {
      assert (p + d)[1..] == p[1..] + d;
      if |p| == 1 {
        assert p[1..] + d == d && d[0] != '_';
        assert TrimmedStart(p + d) == "" + d;
      } else {
        TrimmedStartKeepsEnd(p[1..], d);
      }
    } else {
      assert TrimmedStart(p + d) == p + d;
    }
  }

  lemma NumberedShape(head: string, d: string)
    requires d != "" && AllDigits(d)
    ensures Collapsed(Kept(head + " " + d)) == Collapsed(Kept(head) + "_") + d
    ensures EndsWith(Collapsed(Kept(head) + "_"), '_') && |Collapsed(Kept(head) + "_")| <= |head| + 1
  {
    KeptAppends(head + " ", d);
    KeptAppends(head, " ");
    SpaceKept();
    KeptOfDigits(d);
    KeptShrinks(head);
    CollapsedAppends(Kept(head) + "_", d);
    LowCollapses(Kept(head));
    hide Kept, Collapsed;
    assert Kept(head + " " + d) == Kept(head) + "_" + d;
  }

  lemma SpaceKept()
    ensures Kept(" ") == "_"
  {
    assert " "[..0] == "";
    assert KeptOf(' ') == "_";
  }

  lemma LowCollapses(k: string)
    ensures EndsWith(Collapsed(k + "_"), '_') && |Collapsed(k + "_")| <= |k| + 1
  {
    var s := k + "_";
    assert s[..|s| - 1] == k && s[|s| - 1] == '_';
    CollapsedShrinks(s);
  }

  /** A number added after a space, the whole short enough, is what follows the last underscore of
      the file name. */
  lemma NumberSurvives(head: string, d: string)
    requires d != "" && AllDigits(d) && |head| + 1 + |d| <= MAX_FILENAME_BYTES
    ensures AfterLast(Sanitized(head + " " + d), '_') == d
  {
    NumberedShape(head, d);
    var p := Collapsed(Kept(head) + "_");
    TrimmedStartKeepsEnd(p, d);
    var q :| TrimmedStart(p + d) == q + d && (q == "" || EndsWith(q, '_')) && |q| <= |p|;
    assert !EndsWith(q + d, '_');
    assert Sanitized(head + " " + d) == q + d;
    AfterLastIs(q, d, '_');
  }

  /** Different numbers on names cut to fit make different file names. */
  lemma NumbersMakeNamesDistinct(head: string, m: nat, other: string, n: nat)
    requires m != n
    requires |head| + 1 + |Decimal(m)| <= MAX_FILENAME_BYTES && |other| + 1 + |Decimal(n)| <= MAX_FILENAME_BYTES
    ensures Sanitized(head + " " + Decimal(m)) != Sanitized(other + " " + Decimal(n))
  {
    NumberSurvives(head, Decimal(m));
    NumberSurvives(other, Decimal(n));
    DecimalInjective(m, n);
  }

  // --- The loops ---

  method TruncateUtf8(text: string, limit: nat) returns (r: string)
    ensures r == Truncated(text, limit)
  {
    if |text| <= limit {
      return text;
    }
    var cut, i := 0, 0;
    while i < |text|
      invariant cut == i <= limit && CutFrom(text, 0, limit) == CutFrom(text, i, limit)
      decreases limit - i
    {
      var width := WidthOf(text[i]);
      if i + width > limit {
        break;
      }
      i := i + width;
      cut := i;
    }
    return text[..cut];
  }

  method FilterName(name: string) returns (result: string)
    ensures result == Kept(name)
  {
    result := "";
    for i := 0 to |name|
      invariant result == Kept(name[..i])
    {
      var c := name[i];
      assert name[..i + 1][..i] == name[..i];
      if c as int >= 0x80 {
        result := result + [c];
      } else if IsAlnum(c) {
        result := result + [Lower(c)];
      } else if c == ' ' || c == '-' || c == '_' {
        result := result + "_";
      }
    }
    assert name[..|name|] == name;
  }

  method CollapseName(result: string) returns (cleaned: string)
    ensures cleaned == Collapsed(result)
  {
    cleaned := "";
    var previousLow := false;
    for i := 0 to |result|
      invariant cleaned == Collapsed(result[..i]) && previousLow == EndsWith(cleaned, '_')
    {
      var c := result[i];
      assert result[..i + 1][..i] == result[..i];
      if c == '_' {
        if !previousLow {
          cleaned := cleaned + [c];
          previousLow := true;
        }
      } else {
        cleaned := cleaned + [c];
        previousLow := false;
      }
    }
    assert result[..|result|] == result;
  }

  method PopLow(text: string) returns (r: string)
    ensures r == TrimmedEnd(text, '_')
  {
    r := text;
    while r != "" && r[|r| - 1] == '_'
      invariant TrimmedEnd(r, '_') == TrimmedEnd(text, '_')
      decreases |r|
    {
      r := r[..|r| - 1];
    }
  }

  method SanitizeFilename(name: string) returns (file: string)
    ensures file == Sanitized(name)
  {
    hide Kept, Collapsed;
    var result := FilterName(name);
    var cleaned := CollapseName(result);
    var start := TrimmedStart(cleaned);
    var inner := PopLow(start);
    if inner == "" {
      return FALLBACK;
    }
    var cut := TruncateUtf8(inner, MAX_FILENAME_BYTES);
    var trimmed := PopLow(cut);
    return if trimmed == "" then FALLBACK else trimmed;
  }
}
