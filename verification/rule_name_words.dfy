/** What a rule's file name keeps of its name (components/automations/automation_storage.cpp): its words, joined
    by single underscores, and as many whole characters as fit. */
module RuleNameWords {
  import opened Texts
  import opened RuleNames
  import opened Utf8
  import opened Words

  // --- Cut at a character ---

  function Chars(bytes: seq<Byte>): (s: string)
    ensures |s| == |bytes|
  {
    seq(|bytes|, i requires 0 <= i < |bytes| => bytes[i] as char)
  }

  /** Where the first `n` characters end. */
  function EndOf(cps: seq<nat>, n: nat): nat
    requires Scalars(cps) && n <= |cps|
  {
    |EncodeAll(cps[..n])|
  }

  lemma LeadTellsLength(cp: nat)
    requires Scalar(cp)
    ensures WidthOf(Encode(cp)[0] as char) == |Encode(cp)|
  {
    assert cp >= 0x10000 ==> 0 <= cp / 262144 <= 4;
  }

  lemma NextCharacter(cps: seq<nat>, n: nat)
    requires Scalars(cps) && n < |cps|
    ensures EndOf(cps, n) < EndOf(cps, n + 1) == EndOf(cps, n) + |Encode(cps[n])| <= |EncodeAll(cps)|
    ensures EncodeAll(cps)[EndOf(cps, n)] == Encode(cps[n])[0]
    ensures EncodeAll(cps)[..EndOf(cps, n)] == EncodeAll(cps[..n])
  {
    hide Encode;
    assert cps[..n + 1] == cps[..n] + [cps[n]];
    assert cps == cps[..n] + ([cps[n]] + cps[n + 1..]);
    EncodeAllAppends(cps[..n], [cps[n]]);
    EncodeAllOne(cps[n]);
    EncodeAllAppends(cps[..n], [cps[n]] + cps[n + 1..]);
    EncodeAllAppends([cps[n]], cps[n + 1..]);
  }

  lemma {:induction false} CutFromCharacter(cps: seq<nat>, n: nat, limit: nat) returns (k: nat)
    requires Scalars(cps) && n <= |cps| && EndOf(cps, n) <= limit < |EncodeAll(cps)|
    ensures n <= k < |cps| && EndOf(cps, k) <= limit < EndOf(cps, k + 1)
    ensures CutFrom(Chars(EncodeAll(cps)), EndOf(cps, n), limit) == EndOf(cps, k)
    decreases |cps| - n
  {
    hide EncodeAll, Encode, WidthOf;
    assert cps[..|cps|] == cps;
    NextCharacter(cps, n);
    LeadTellsLength(cps[n]);
    if EndOf(cps, n + 1) > limit {
      k := n;
    } else {
      k := CutFromCharacter(cps, n + 1, limit);
    }
  }

  /** Text in UTF-8 is cut between characters: what is left are its first characters, and one more would not
      fit. */
  lemma CutKeepsCharacters(cps: seq<nat>, limit: nat) returns (k: nat)
    requires Scalars(cps)
    ensures k <= |cps| && Truncated(Chars(EncodeAll(cps)), limit) == Chars(EncodeAll(cps[..k]))
    ensures EndOf(cps, k) <= limit && (k < |cps| ==> EndOf(cps, k + 1) > limit)
  {
    hide Encode, EncodeAll;
    assert cps[..|cps|] == cps;
    if |EncodeAll(cps)| <= limit {
      k := |cps|;
    } else {
      NoCharacters(cps);
      k := CutFromCharacter(cps, 0, limit);
      NextCharacter(cps, k);
    }
  }

  lemma NoCharacters(cps: seq<nat>)
    requires Scalars(cps)
    ensures EndOf(cps, 0) == 0
  {
    assert cps[..0] == [];
  }

  // --- Words ---

  /** Letters in lower case, digits and what is not ASCII stay, spaces and dashes join like underscores, and
      everything else is left out. */
  function MarksOf(c: char): string {
    if 'A' <= c <= 'Z' then ['a' + (c - 'A')]
    else if 'a' <= c <= 'z' || '0' <= c <= '9' || c as int >= 0x80 then [c]
    else if c == ' ' || c == '-' || c == '_' then "_"
    else ""
  }

  lemma MarksAreKept(c: char)
    ensures Kept([c]) == MarksOf(c)
  {
    assert [c][..0] == "";
  }

  /** Character by character, wherever it stands. */
  lemma KeptCharByChar(a: string, c: char, b: string)
    ensures Kept(a + [c] + b) == Kept(a) + MarksOf(c) + Kept(b)
  {
    hide Kept;
    KeptAppends(a + [c], b);
    KeptAppends(a, [c]);
    MarksAreKept(c);
  }

  lemma CollapsedEnds(s: string, c: char)
    ensures Collapsed(s + [c]) == Pushed(Collapsed(s), c)
  {
    assert (s + [c])[..|s|] == s;
  }

  lemma {:induction false} TrimmedStartEnds(s: string, c: char)
    ensures TrimmedStart(s + [c]) == if TrimmedStart(s) == "" && c == '_' then "" else TrimmedStart(s) + [c]
    decreases |s|
  {
    if s != "" {
      assert (s + [c])[1..] == s[1..] + [c];
      if s[0] == '_' {
        TrimmedStartEnds(s[1..], c);
      }
    }
  }

  lemma {:induction false} TrimmedStartKeepsLast(s: string)
    ensures TrimmedStart(s) != "" ==> EndsWith(TrimmedStart(s), '_') == EndsWith(s, '_')
    ensures TrimmedStart(s) == "" ==> s == "" || EndsWith(s, '_')
  {
    if s != "" && s[0] == '_' {
      TrimmedStartKeepsLast(s[1..]);
    }
  }

  lemma {:induction false} CollapsedIsFolded(s: string)
    ensures TrimmedStart(Collapsed(s)) == Folded(s, '_')
  {
    if s != "" {
      var n := |s| - 1;
      CollapsedIsFolded(s[..n]);
      CollapsedEnds(s[..n], s[n]);
      assert s == s[..n] + [s[n]];
      var c := Collapsed(s[..n]);
      TrimmedStartEnds(c, s[n]);
      TrimmedStartKeepsLast(c);
      FoldedEnds(s[..n], s[n], '_');
      hide Collapsed, TrimmedStart, Folded;
    }
  }

  /** A name with nothing to keep gets the fallback, any other its words with one underscore between any two;
      too long, they are cut to whole characters, and underscores the cut leaves at the end go too. */
  lemma FileNameKeepsWords(name: string)
    ensures var words := Spaced(Kept(name), '_');
            && (words == "" ==> Sanitized(name) == FALLBACK)
            && (0 < |words| <= MAX_FILENAME_BYTES ==> Sanitized(name) == words)
            && (|words| > MAX_FILENAME_BYTES ==>
                  var cut := TrimmedEnd(Truncated(words, MAX_FILENAME_BYTES), '_');
                  Sanitized(name) == if cut == "" then FALLBACK else cut)
  {
    hide Spaced, Folded, Kept, Collapsed, TrimmedStart;
    CollapsedIsFolded(Kept(name));
    FoldedIsSpaced(Kept(name), '_');
    TrimmedEndIsPrefix(Folded(Kept(name), '_'), '_');
  }
}
