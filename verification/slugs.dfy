/** Ids and preset keys made from names (components/climate_hub/climate_config.cpp): slugs of lowercase
    letters, digits and single dashes. Text is bytes: characters below 256. */
module Slugs {
  import opened Pigeonholes
  import opened Texts

  const ID_MAX_LENGTH: nat := 48
  const PRESET_MAX_COUNT: nat := 8
  const MAX_SUFFIX: nat := 999
  const DASH := '-'

  // --- A name reduced ---

  predicate Kept(c: char) {
    IsAlnum(c)
  }

  function Appended(s: string, c: char): string {
    if Kept(c) then s + [Lower(c)]
    else if s != "" && !EndsWith(s, DASH) then s + [DASH]
    else s
  }

  function Dashed(name: string): string {
    if name == "" then "" else Appended(Dashed(name[..|name| - 1]), name[|name| - 1])
  }

  function Cut(s: string, n: nat): (r: string)
    ensures r <= s && |r| <= n && (|s| <= n ==> r == s)
  {
    if |s| > n then s[..n] else s
  }

  function Slug(name: string, fallback: string): string {
    var out := TrimmedEnd(Cut(TrimmedEnd(Dashed(name), DASH), ID_MAX_LENGTH), DASH);
    if out == "" then fallback else out
  }

  // --- What a slug is ---

  predicate SlugChar(c: char) {
    'a' <= c <= 'z' || IsDigit(c) || c == DASH
  }

  /** Its characters, no dash after a dash, and none at the front. */
  predicate Inner(s: string) {
    && (forall i :: 0 <= i < |s| ==> SlugChar(s[i]))
    && (forall i :: 1 <= i < |s| ==> !(s[i - 1] == DASH && s[i] == DASH))
    && (s != "" ==> s[0] != DASH)
  }

  predicate IsSlug(s: string) {
    0 < |s| <= ID_MAX_LENGTH && Inner(s) && !EndsWith(s, DASH)
  }

  lemma {:induction false} DashedIsInner(name: string)
    ensures Inner(Dashed(name))
  {
    if name != "" {
      DashedIsInner(name[..|name| - 1]);
    }
  }

  lemma PrefixIsInner(p: string, s: string)
    requires p <= s && Inner(s)
    ensures Inner(p)
  {
    assert forall i :: 0 <= i < |p| ==> p[i] == s[i];
  }

  lemma SlugIsSlug(name: string, fallback: string)
    requires IsSlug(fallback)
    ensures IsSlug(Slug(name, fallback))
  {
    hide Dashed, Cut, TrimmedEnd, SlugChar;
    var dashed := Dashed(name);
    DashedIsInner(name);
    var trimmed := TrimmedEnd(dashed, DASH);
    TrimmedEndIsPrefix(dashed, DASH);
    PrefixIsInner(trimmed, dashed);
    var cut := Cut(trimmed, ID_MAX_LENGTH);
    PrefixIsInner(cut, trimmed);
    TrimmedEndIsPrefix(cut, DASH);
    PrefixIsInner(TrimmedEnd(cut, DASH), cut);
  }

  lemma {:induction false} DashedOfInner(s: string)
    requires Inner(s)
    ensures Dashed(s) == s
  {
    if s != "" {
      var init, c := s[..|s| - 1], s[|s| - 1];
      PrefixIsInner(init, s);
      DashedOfInner(init);
      AppendedWhole(init, c);
      assert s == init + [c];
      hide Inner, Appended;
    }
  }

  lemma AppendedWhole(init: string, c: char)
    requires Inner(init + [c])
    ensures Appended(init, c) == init + [c]
  {
    var s := init + [c];
    assert s[|init|] == c;
    assert init != "" ==> s[|init| - 1] == init[|init| - 1];
  }

  /** Exactly the slugs are what reducing leaves alone, so a key once made is never made over. */
  lemma SlugSettles(s: string, fallback: string)
    requires IsSlug(fallback)
    ensures IsSlug(s) ==> Slug(s, fallback) == s
    ensures s != "" && s != fallback && Slug(s, fallback) == s ==> IsSlug(s)
    ensures Slug(Slug(s, fallback), fallback) == Slug(s, fallback)
  {
    SlugIsSlug(s, fallback);
    var slug := Slug(s, fallback);
    DashedOfInner(slug);
    if IsSlug(s) {
      DashedOfInner(s);
    }
  }

  // --- A number added ---

  function Suffix(n: nat): string {
    [DASH] + Decimal(n)
  }

  /** `base` for 1, else `base` cut to leave room for a dash and the number. */
  function WithSuffix(base: string, n: nat): string
    requires n <= MAX_SUFFIX
  {
    if n < 2 then base
    else
      ShortDecimal(n);
      var head := TrimmedEnd(Cut(base, ID_MAX_LENGTH - |Suffix(n)|), DASH);
      (if head == "" then "climate" else head) + Suffix(n)
  }

  lemma {:induction false} TrimmedKeepsFirst(s: string, c: char)
    requires s != "" && s[0] != c
    ensures TrimmedEnd(s, c) != "" && TrimmedEnd(s, c)[0] == s[0]
  {
    if EndsWith(s, c) {
      TrimmedKeepsFirst(s[..|s| - 1], c);
    }
  }

  lemma SuffixKeepsSlug(base: string, n: nat)
    requires IsSlug(base) && n <= MAX_SUFFIX
    ensures IsSlug(WithSuffix(base, n))
  {
    if n >= 2 {
      ShortDecimal(n);
      var d := Decimal(n);
      var cut := Cut(base, ID_MAX_LENGTH - |Suffix(n)|);
      assert cut != "" && cut[0] == base[0];
      TrimmedKeepsFirst(cut, DASH);
      var head := TrimmedEnd(cut, DASH);
      TrimmedEndIsPrefix(cut, DASH);
      PrefixIsInner(cut, base);
      PrefixIsInner(head, cut);
      hide Decimal, TrimmedEnd, Cut;
      JoinedIsInner(head, d);
      assert WithSuffix(base, n) == head + ([DASH] + d) == head + [DASH] + d;
    }
  }

  lemma JoinedIsInner(head: string, d: string)
    requires head != "" && Inner(head) && !EndsWith(head, DASH) && d != "" && AllDigits(d)
    ensures Inner(head + [DASH] + d) && !EndsWith(head + [DASH] + d, DASH)
  {
    var s := head + [DASH] + d;
    var k := |head|;
    assert s[k] == DASH && forall i :: 0 <= i < k ==> s[i] == head[i];
    assert forall i :: k < i < |s| ==> s[i] == d[i - k - 1];
    forall i | 0 <= i < |s| ensures SlugChar(s[i]) {
      if i > k {
        assert IsDigit(d[i - k - 1]);
      }
    }
    forall i | 1 <= i < |s| ensures !(s[i - 1] == DASH && s[i] == DASH) {
      if i > k {
        assert IsDigit(d[i - k - 1]);
      } else if i == k {
        assert s[i - 1] == head[k - 1];
      }
    }
    assert s[|s| - 1] == d[|d| - 1];
  }

  /** From 2 on, different numbers make different ids. */
  lemma SuffixesDiffer(base: string, m: nat, n: nat)
    requires 2 <= m <= MAX_SUFFIX && 2 <= n <= MAX_SUFFIX && m != n
    ensures WithSuffix(base, m) != WithSuffix(base, n)
  {
    EndsInNumber(base, m);
    EndsInNumber(base, n);
    DecimalInjective(m, n);
  }

  lemma EndsInNumber(base: string, n: nat)
    requires 2 <= n <= MAX_SUFFIX
    ensures AfterLast(WithSuffix(base, n), DASH) == Decimal(n)
  {
    hide Decimal, AfterLast;
    ShortDecimal(n);
    var head := TrimmedEnd(Cut(base, ID_MAX_LENGTH - |Suffix(n)|), DASH);
    var q := (if head == "" then "climate" else head) + [DASH];
    AfterLastIs(q, Decimal(n), DASH);
    assert WithSuffix(base, n) == q + Decimal(n);
  }

  predicate EndsIn(s: string, end: string) {
    |end| <= |s| && s[|s| - |end|..] == end
  }

  /** A slug cut anywhere ends in one dash at most. */
  lemma OneDashTrimmed(s: string)
    requires Inner(s) && s != ""
    ensures TrimmedEnd(s, DASH) == if EndsWith(s, DASH) then s[..|s| - 1] else s
  {
    if EndsWith(s, DASH) {
      var rest := s[..|s| - 1];
      assert |s| > 1 ==> rest[|rest| - 1] == s[|s| - 2];
    }
  }

  /** What the number is put behind. */
  lemma HeadOf(base: string, n: nat) returns (head: string)
    requires IsSlug(base) && 2 <= n <= MAX_SUFFIX
    ensures |Suffix(n)| <= 4 && head != "" && WithSuffix(base, n) == head + Suffix(n)
    ensures var k := ID_MAX_LENGTH - |Suffix(n)|;
            head == if |base| <= k then base else if base[k - 1] == DASH then base[..k - 1] else base[..k]
  {
    hide Decimal, TrimmedEnd;
    ShortDecimal(n);
    var cut := Cut(base, ID_MAX_LENGTH - |Suffix(n)|);
    assert cut != "" && cut[0] == base[0];
    TrimmedKeepsFirst(cut, DASH);
    PrefixIsInner(cut, base);
    OneDashTrimmed(cut);
    head := TrimmedEnd(cut, DASH);
  }

  /** The unnumbered candidate is one of the others exactly when the base is of full length, or one short
      of it, and ends in that number already. So nine candidates are only sure to be eight keys. */
  lemma FirstMayRepeat(base: string, n: nat)
    requires IsSlug(base) && 2 <= n <= MAX_SUFFIX
    ensures WithSuffix(base, 1) == WithSuffix(base, n) <==> |base| >= ID_MAX_LENGTH - 1 && EndsIn(base, Suffix(n))
  {
    hide WithSuffix, Suffix, IsSlug;
    var head := HeadOf(base, n);
    OneIsBase(base);
    WholeOrShort(base, head, Suffix(n), n);
  }

  lemma WholeOrShort(base: string, head: string, end: string, n: nat)
    requires IsSlug(base) && end == Suffix(n) && |end| <= 4 && head != ""
    requires var k := ID_MAX_LENGTH - |end|;
             head == if |base| <= k then base else if base[k - 1] == DASH then base[..k - 1] else base[..k]
    ensures base == head + end <==> |base| >= ID_MAX_LENGTH - 1 && EndsIn(base, end)
  {
    hide Decimal;
    if head + end == base {
      assert base[|head|..] == end;
    }
    if |base| >= ID_MAX_LENGTH - 1 && EndsIn(base, end) {
      var p := |base| - |end|;
      assert base[p..][0] == base[p];
      assert base[p] == DASH && base[p - 1] != DASH;
      assert base == base[..p] + base[p..];
    }
  }

  lemma OneIsBase(base: string)
    ensures WithSuffix(base, 1) == base
  {}

  // --- Preset keys ---

  datatype Preset = Preset(key: string, name: string)

  function Keys(presets: seq<Preset>): (r: seq<string>)
    ensures |r| == |presets| && forall i :: 0 <= i < |r| ==> r[i] == presets[i].key
  {
    seq(|presets|, i requires 0 <= i < |presets| => presets[i].key)
  }

  function CandidateKey(base: string, i: nat): string
    requires i < PRESET_MAX_COUNT
  {
    WithSuffix(base, i + 2)
  }

  /** With at most eight presets, one of them without a key, one of the numbers 2 to 9 is free. */
  lemma SomeKeyIsFree(base: string, keys: seq<string>)
    requires |keys| <= PRESET_MAX_COUNT && "" in keys && IsSlug(base)
    ensures exists n :: 2 <= n <= PRESET_MAX_COUNT + 1 && WithSuffix(base, n) !in keys
  {
    hide WithSuffix;
    var all := seq(PRESET_MAX_COUNT, i requires 0 <= i < PRESET_MAX_COUNT => CandidateKey(base, i));
    forall i, j | 0 <= i < j < |all| ensures all[i] != all[j] {
      SuffixesDiffer(base, i + 2, j + 2);
    }
    if forall i :: 0 <= i < |all| ==> all[i] in keys {
      NoRoomForEmpty(all, keys, base);
      assert false;
    }
    var i :| 0 <= i < |all| && all[i] !in keys;
    assert all[i] == WithSuffix(base, i + 2);
  }

  lemma NoRoomForEmpty(all: seq<string>, keys: seq<string>, base: string)
    requires |all| == PRESET_MAX_COUNT >= |keys| && Distinct(all) && IsSlug(base)
    requires forall i :: 0 <= i < |all| ==> all[i] in keys && all[i] == CandidateKey(base, i)
    ensures "" !in keys
  {
    if "" in keys {
      forall i | 0 <= i < |all| ensures all[i] != "" {
        SuffixKeepsSlug(base, i + 2);
      }
      hide WithSuffix;
      var more := all + [""];
      Pigeonhole(more, keys);
      assert false;
    }
  }

  /** No two presets share a key they have. */
  predicate KeysApart(presets: seq<Preset>) {
    forall i, j :: 0 <= i < j < |presets| && presets[i].key != "" ==> presets[i].key != presets[j].key
  }

  class PresetList {
    var presets: seq<Preset>

    constructor (presets: seq<Preset>)
      ensures this.presets == presets
    {
      this.presets := presets;
    }

    method FindPreset(key: string) returns (at: int)
      ensures if at < 0 then key == "" || key !in Keys(presets) else at < |presets| && presets[at].key == key != ""
    {
      if key == "" {
        return -1;
      }
      for i := 0 to |presets|
        invariant forall j :: 0 <= j < i ==> presets[j].key != key
      {
        if presets[i].key == key {
          return i;
        }
      }
      return -1;
    }

    /** A free key for preset `i`: the search ends within nine numbers. */
    method MakeKey(i: nat)
      requires i < |presets| <= PRESET_MAX_COUNT && presets[i].key == ""
      modifies this
      ensures |presets| == |old(presets)|
      ensures presets == old(presets)[i := old(presets)[i].(key := presets[i].key)]
      ensures IsSlug(presets[i].key) && presets[i].key !in Keys(old(presets))
    {
      hide Slug, WithSuffix;
      FallbackIsSlug();
      var base := Slug(presets[i].name, "preset");
      SlugIsSlug(presets[i].name, "preset");
      ghost var was := presets;
      assert Keys(was)[i] == "";
      SomeKeyIsFree(base, Keys(was));
      ghost var free :| 2 <= free <= PRESET_MAX_COUNT + 1 && WithSuffix(base, free) !in Keys(was);
      var n := 1;
      while true
        invariant 1 <= n <= free && presets == was
        decreases free - n
      {
        var candidate := WithSuffix(base, n);
        SuffixKeepsSlug(base, n);
        var at := FindPreset(candidate);
        if at < 0 {
          presets := presets[i := presets[i].(key := candidate)];
          return;
        }
        assert Keys(was)[at] == candidate;
        n := n + 1;
      }
    }

    /** Afterwards every preset has a key no other has; those that had one have the same. */
    method AssignPresetKeys()
      requires |presets| <= PRESET_MAX_COUNT && KeysApart(presets)
      modifies this
      ensures |presets| == |old(presets)| && KeysApart(presets)
      ensures forall i :: 0 <= i < |presets| ==>
                && presets[i].key != "" && presets[i].name == old(presets)[i].name
                && (old(presets)[i].key != "" ==> presets[i] == old(presets)[i])
                && (old(presets)[i].key == "" ==> IsSlug(presets[i].key))
    {
      hide IsSlug;
      ghost var was := presets;
      for i := 0 to |presets|
        invariant |presets| == |was| && KeysApart(presets)
        invariant forall j :: i <= j < |presets| ==> presets[j] == was[j]
        invariant forall j :: 0 <= j < i ==> presets[j].key != "" && KeyedFrom(was[j], presets[j])
      {
        if presets[i].key == "" {
          ghost var before := presets;
          MakeKey(i);
          StaysApart(before, presets, i);
          KeyIsNotEmpty(presets[i].key);
        }
      }
    }
  }

  predicate KeyedFrom(was: Preset, p: Preset) {
    && p.name == was.name && (was.key != "" ==> p == was) && (was.key == "" ==> IsSlug(p.key))
  }

  lemma FallbackIsSlug()
    ensures IsSlug("preset")
  {}

  lemma KeyIsNotEmpty(key: string)
    requires IsSlug(key)
    ensures key != ""
  {}

  lemma StaysApart(before: seq<Preset>, presets: seq<Preset>, i: nat)
    requires i < |before| && KeysApart(before) && before[i].key == "" && |presets| == |before|
    requires presets == before[i := before[i].(key := presets[i].key)] && presets[i].key !in Keys(before)
    ensures KeysApart(presets)
  {
    forall j | 0 <= j < |before| && j != i ensures presets[j].key != presets[i].key {
      assert Keys(before)[j] == presets[j].key;
    }
  }
}
