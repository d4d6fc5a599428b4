/** Text for the panel's rows (components/panel_text/panel_text.cpp): labels accepted, bytes made fit
    to draw, rows cut to their width. */
module PanelText {
  import opened Options
  import opened Utf8

  const LABEL_MAX_LENGTH: nat := 24
  const SPACE: Byte := 0x20
  const QUESTION: nat := 0x3F
  const ELLIPSIS: nat := 0x2026
  const ELLIPSIS_BYTES: seq<Byte> := [0xE2, 0x80, 0xA6]
  const COLON: seq<Byte> := [0x3A, 0x20]

  predicate IsControl(cp: nat) {
    cp < 0x20 || 0x7F <= cp <= 0x9F
  }

  predicate IsLead(b: Byte) {
    !(0x80 <= b < 0xC0)
  }

  lemma EllipsisEncodes()
    ensures Scalar(ELLIPSIS) && Encode(ELLIPSIS) == ELLIPSIS_BYTES
  {}

  // --- Labels ---

  function TrimmedFront(s: seq<Byte>): seq<Byte> {
    if s != [] && s[0] == SPACE then TrimmedFront(s[1..]) else s
  }

  function TrimmedBack(s: seq<Byte>): (r: seq<Byte>)
    ensures r <= s
  {
    if s != [] && s[|s| - 1] == SPACE then TrimmedBack(s[..|s| - 1]) else s
  }

  function Trimmed(s: seq<Byte>): seq<Byte> {
    TrimmedBack(TrimmedFront(s))
  }

  /** Every sequence whole and no control character, no more than the limit with `count` before. */
  predicate Accepted(s: seq<Byte>, count: nat)
    decreases |s|
  {
    s == [] ||
    var d := DecodeAt(s);
    Whole(d) && !IsControl(d.codePoint) && count + 1 <= LABEL_MAX_LENGTH && Accepted(s[d.taken..], count + 1)
  }

  function ParseLabel(text: Option<seq<Byte>>): Option<seq<Byte>> {
    if text.Some? && Accepted(Trimmed(text.value), 0) then Some(Trimmed(text.value)) else None
  }

  /** Code points a label may have. */
  predicate LabelPoints(cps: seq<nat>) {
    Scalars(cps) && |cps| <= LABEL_MAX_LENGTH && NoControl(cps)
  }

  /** Unicode's control characters: the first 32 code points of the two Latin blocks of 128, and DELETE. */
  predicate InControlBlock(cp: nat) {
    cp / 32 == 0 || cp / 32 == 4 || cp == 127
  }

  lemma ControlsMean(cp: nat)
    ensures IsControl(cp) <==> InControlBlock(cp)
  {}

  predicate NoControl(cps: seq<nat>) {
    forall i :: 0 <= i < |cps| ==> !InControlBlock(cps[i])
  }

  lemma NoControlAppends(cp: nat, rest: seq<nat>)
    ensures NoControl([cp] + rest) <==> !IsControl(cp) && NoControl(rest)
  {
    ControlsMean(cp);
    hide InControlBlock;
    var cps := [cp] + rest;
    assert cps[0] == cp;
    assert forall i :: 0 <= i < |rest| ==> cps[i + 1] == rest[i];
    assert forall i :: 1 <= i < |cps| ==> cps[i] == rest[i - 1];
  }

  lemma {:induction false} AcceptedMeans(s: seq<Byte>, count: nat)
    requires count <= LABEL_MAX_LENGTH
    ensures Accepted(s, count) <==>
              && CodePoints(s).Some? && count + |CodePoints(s).value| <= LABEL_MAX_LENGTH
              && NoControl(CodePoints(s).value)
    decreases |s|
  {
    hide DecodeAt, IsControl, Whole;
    if s != [] {
      var d := DecodeAt(s);
      var rest := CodePoints(s[d.taken..]);
      if Whole(d) && count + 1 <= LABEL_MAX_LENGTH {
        AcceptedMeans(s[d.taken..], count + 1);
        if rest.Some? {
          NoControlAppends(d.codePoint, rest.value);
        }
      }
    }
  }

  ghost predicate IsLabel(s: seq<Byte>) {
    exists cps :: LabelPoints(cps) && EncodeAll(cps) == s
  }

  lemma {:induction false} TrimmedFrontMeans(s: seq<Byte>)
    ensures var r := TrimmedFront(s);
            && |r| <= |s| && s[|s| - |r|..] == r && (r != [] ==> r[0] != SPACE)
            && forall i :: 0 <= i < |s| - |r| ==> s[i] == SPACE
  {
    if s != [] && s[0] == SPACE {
      TrimmedFrontMeans(s[1..]);
      var r := TrimmedFront(s);
      assert s[|s| - |r|..] == s[1..][|s| - 1 - |r|..];
      assert forall i :: 1 <= i < |s| - |r| ==> s[i] == s[1..][i - 1];
    }
  }

  lemma {:induction false} TrimmedBackMeans(s: seq<Byte>)
    ensures var r := TrimmedBack(s);
            && (r != [] ==> r[|r| - 1] != SPACE)
            && forall i :: |r| <= i < |s| ==> s[i] == SPACE
  {
    if s != [] && s[|s| - 1] == SPACE {
      TrimmedBackMeans(s[..|s| - 1]);
    }
  }

  /** A label is accepted exactly when, without the spaces at both ends, it is well-formed UTF-8 of at
      most 24 code points and no control character among them; what is kept is just that. */
  lemma LabelMeans(text: seq<Byte>)
    ensures ParseLabel(None) == None
    ensures ParseLabel(Some(text)).Some? <==> IsLabel(Trimmed(text))
    ensures ParseLabel(Some(text)).Some? ==> ParseLabel(Some(text)).value == Trimmed(text)
  {
    hide CodePoints, EncodeAll, Accepted;
    var t := Trimmed(text);
    AcceptedMeans(t, 0);
    DecodesIffWellFormed(t);
    if Accepted(t, 0) {
      DecodedEncodes(t);
      assert LabelPoints(CodePoints(t).value);
    }
    if IsLabel(t) {
      var cps :| LabelPoints(cps) && EncodeAll(cps) == t;
      EncodedDecodes(cps);
    }
  }

  /** Trimming takes the spaces at both ends and nothing else. */
  lemma TrimmedMeans(s: seq<Byte>)
    ensures exists a: nat, b: nat :: a <= b <= |s| && Trimmed(s) == s[a..b]
              && (forall i :: 0 <= i < a || b <= i < |s| ==> s[i] == SPACE)
              && (a < b ==> s[a] != SPACE && s[b - 1] != SPACE)
  {
    TrimmedFrontMeans(s);
    var front := TrimmedFront(s);
    TrimmedBackMeans(front);
    var t := TrimmedBack(front);
    var a := |s| - |front|;
    var b := a + |t|;
    assert s[a..b] == front[..|t|] == t;
    forall i | b <= i < |s| ensures s[i] == SPACE {
      assert s[i] == front[i - a];
    }
    if a < b {
      assert s[a] == front[0] == t[0] && s[b - 1] == t[|t| - 1];
    }
  }

  /** Nothing is left to trim. */
  lemma TrimmedStays(s: seq<Byte>)
    ensures Trimmed(Trimmed(s)) == Trimmed(s)
  {
    var front := TrimmedFront(s);
    TrimmedFrontMeans(s);
    TrimmedBackMeans(front);
    assert Trimmed(s) == TrimmedBack(front);
    assert Trimmed(s) != [] ==> Trimmed(s)[0] == front[0];
  }

  // --- Safe to draw ---

  predicate Drawable(cp: nat, has: nat -> bool) {
    !IsControl(cp) && has(cp)
  }

  /** The code points drawn for `s`: one `?` for each that cannot be, and for each ill-formed part; a
      sequence split by a cut gives none. */
  function SafePoints(s: seq<Byte>, cut: bool, has: nat -> bool): seq<nat>
    decreases |s|
  {
    if s == [] then []
    else
      var d := DecodeAt(s);
      if cut && d.taken < d.length && d.taken == |s| then []
      else
        [if Whole(d) && Drawable(d.codePoint, has) then d.codePoint else QUESTION]
        + SafePoints(s[d.taken..], cut, has)
  }

  function SafeBytes(s: seq<Byte>, cut: bool, has: nat -> bool): seq<Byte>
    decreases |s|
  {
    if s == [] then []
    else
      var d := DecodeAt(s);
      if cut && d.taken < d.length && d.taken == |s| then []
      else
        (if Whole(d) && Drawable(d.codePoint, has) then s[..d.taken] else [QUESTION])
        + SafeBytes(s[d.taken..], cut, has)
  }

  function PanelSafe(text: seq<Byte>, maxBytes: nat, has: nat -> bool): seq<Byte> {
    if |text| > maxBytes then SafeBytes(text[..maxBytes], true, has) + ELLIPSIS_BYTES
    else SafeBytes(text, false, has)
  }

  predicate AllSafe(cps: seq<nat>, has: nat -> bool) {
    forall i :: 0 <= i < |cps| ==> cps[i] == QUESTION || (has(cps[i]) && !InControlBlock(cps[i]))
  }

  lemma {:induction false} SafeBytesEncode(s: seq<Byte>, cut: bool, has: nat -> bool)
    ensures var cps := SafePoints(s, cut, has);
            Scalars(cps) && EncodeAll(cps) == SafeBytes(s, cut, has) && AllSafe(cps, has)
    decreases |s|
  {
    hide DecodeAt, IsControl, InControlBlock, Whole, Encode;
    if s != [] {
      var d := DecodeAt(s);
      ControlsMean(d.codePoint);
      if !(cut && d.taken < d.length && d.taken == |s|) {
        var rest := SafePoints(s[d.taken..], cut, has);
        SafeBytesEncode(s[d.taken..], cut, has);
        QuestionEncodes();
        if Whole(d) {
          WholeIsEncoded(s);
        }
        var cps := SafePoints(s, cut, has);
        assert cps[1..] == rest;
      }
    }
  }

  lemma QuestionEncodes()
    ensures Scalar(QUESTION) && Encode(QUESTION) == [QUESTION]
  {}

  /** Whatever the bytes, what is drawn is well-formed UTF-8 of code points the font has and question
      marks, and, for a text that was cut, the ellipsis that ends it. */
  lemma SafeIsWellFormed(text: seq<Byte>, maxBytes: nat, has: nat -> bool)
    ensures exists cps :: Scalars(cps) && AllSafe(cps, has) &&
              PanelSafe(text, maxBytes, has) == EncodeAll(cps) + if |text| > maxBytes then ELLIPSIS_BYTES else []
    ensures WellFormed(PanelSafe(text, maxBytes, has))
  {
    hide SafePoints, SafeBytes, EncodeAll, Encode;
    var cut := |text| > maxBytes;
    var s := if cut then text[..maxBytes] else text;
    var cps := SafePoints(s, cut, has);
    SafeBytesEncode(s, cut, has);
    EllipsisEncodes();
    EncodeAllOne(ELLIPSIS);
    EncodeAllAppends(cps, [ELLIPSIS]);
    if cut {
      assert EncodeAll(cps + [ELLIPSIS]) == PanelSafe(text, maxBytes, has);
    } else {
      assert PanelSafe(text, maxBytes, has) == EncodeAll(cps) + [];
      assert EncodeAll(cps) == PanelSafe(text, maxBytes, has);
    }
  }

  lemma {:induction false} SafeStays(cps: seq<nat>, has: nat -> bool)
    requires Scalars(cps) && AllSafe(cps, has)
    ensures SafeBytes(EncodeAll(cps), false, has) == EncodeAll(cps)
    decreases |cps|
  {
    hide DecodeAt, IsControl, InControlBlock, Encode;
    if cps != [] {
      ControlsMean(cps[0]);
      var rest := EncodeAll(cps[1..]);
      var s := EncodeAll(cps);
      var n := |Encode(cps[0])|;
      assert s == Encode(cps[0]) + rest;
      DecodesEncoded(cps[0], rest);
      assert s[n..] == rest && s[..n] == Encode(cps[0]);
      SafeStays(cps[1..], has);
      QuestionEncodes();
    }
  }

  /** A text within the limit is drawn as it is exactly when it is such a text already. */
  lemma SafeLeavesAlone(text: seq<Byte>, maxBytes: nat, has: nat -> bool)
    requires |text| <= maxBytes
    ensures PanelSafe(text, maxBytes, has) == text <==>
              exists cps :: Scalars(cps) && AllSafe(cps, has) && EncodeAll(cps) == text
  {
    hide SafePoints, SafeBytes, EncodeAll;
    SafeBytesEncode(text, false, has);
    if exists cps :: Scalars(cps) && AllSafe(cps, has) && EncodeAll(cps) == text {
      var cps :| Scalars(cps) && AllSafe(cps, has) && EncodeAll(cps) == text;
      SafeStays(cps, has);
    }
  }

  // --- Rows ---

  function Glyphs(s: seq<Byte>): nat {
    if s == [] then 0 else Glyphs(s[..|s| - 1]) + if IsLead(s[|s| - 1]) then 1 else 0
  }

  lemma {:induction false} GlyphsAppend(a: seq<Byte>, b: seq<Byte>)
    ensures Glyphs(a + b) == Glyphs(a) + Glyphs(b)
    decreases |b|
  {
    if b == [] {
      assert a + b == a;
    } else {
      GlyphsAppend(a, b[..|b| - 1]);
      assert (a + b)[..|a + b| - 1] == a + b[..|b| - 1];
    }
  }

  lemma GlyphOfOne(cp: nat)
    requires Scalar(cp)
    ensures Glyphs(Encode(cp)) == 1 && IsLead(Encode(cp)[0])
  {
    var s := Encode(cp);
    assert forall i :: 1 <= i < |s| ==> !IsLead(s[i]);
    LeadThenTails(s);
  }

  lemma {:induction false} LeadThenTails(s: seq<Byte>)
    requires s != [] && IsLead(s[0]) && forall i :: 1 <= i < |s| ==> !IsLead(s[i])
    ensures Glyphs(s) == 1
  {
    if |s| > 1 {
      LeadThenTails(s[..|s| - 1]);
    }
  }

  /** In well-formed text, glyphs are code points. */
  lemma {:induction false} GlyphsAreCodePoints(cps: seq<nat>)
    requires Scalars(cps)
    ensures Glyphs(EncodeAll(cps)) == |cps|
    decreases |cps|
  {
    hide Encode, Glyphs;
    if cps != [] {
      GlyphsAreCodePoints(cps[1..]);
      GlyphOfOne(cps[0]);
      GlyphsAppend(Encode(cps[0]), EncodeAll(cps[1..]));
    } else {
      GlyphsOfNone();
    }
  }

  lemma GlyphsOfNone()
    ensures Glyphs([]) == 0
  {}

  /** Where the glyph numbered `last` from the start begins, `kept` of them before `i`. */
  function CutAt(text: seq<Byte>, i: nat, kept: nat, last: nat): (at: nat)
    requires i <= |text|
    ensures i <= at <= |text|
    decreases |text| - i
  {
    if i == |text| || (IsLead(text[i]) && kept == last) then i
    else CutAt(text, i + 1, if IsLead(text[i]) then kept + 1 else kept, last)
  }

  function PanelFit(text: seq<Byte>, glyphs: nat): seq<Byte> {
    if Glyphs(text) <= glyphs then text
    else if glyphs == 0 then []
    else TrimmedBack(text[..CutAt(text, 0, 0, glyphs - 1)]) + ELLIPSIS_BYTES
  }

  lemma {:induction false} CutKeeps(text: seq<Byte>, i: nat, kept: nat, last: nat)
    requires i <= |text| && kept == Glyphs(text[..i]) <= last
    ensures var at := CutAt(text, i, kept, last);
            && Glyphs(text[..at]) <= last
            && (at < |text| ==> Glyphs(text[..at]) == last && IsLead(text[at]))
    decreases |text| - i
  {
    if i < |text| && !(IsLead(text[i]) && kept == last) {
      assert text[..i + 1][..i] == text[..i];
      CutKeeps(text, i + 1, if IsLead(text[i]) then kept + 1 else kept, last);
    }
  }

  lemma CutInside(text: seq<Byte>, last: nat)
    requires Glyphs(text) > last
    ensures var at := CutAt(text, 0, 0, last);
            at < |text| && Glyphs(text[..at]) == last && IsLead(text[at])
  {
    CutKeeps(text, 0, 0, last);
    assert text[..|text|] == text;
  }

  lemma {:induction false} TrimmedHasNoMore(s: seq<Byte>)
    ensures Glyphs(TrimmedBack(s)) <= Glyphs(s)
  {
    if s != [] && s[|s| - 1] == SPACE {
      TrimmedHasNoMore(s[..|s| - 1]);
    }
  }

  lemma EllipsisIsOneGlyph()
    ensures Glyphs(ELLIPSIS_BYTES) == 1
  {
    EllipsisEncodes();
    GlyphOfOne(ELLIPSIS);
  }

  /** A fitted text never has more glyphs than asked for, and one that fits is left alone. */
  lemma FitFits(text: seq<Byte>, glyphs: nat)
    ensures Glyphs(PanelFit(text, glyphs)) <= glyphs
    ensures Glyphs(text) <= glyphs ==> PanelFit(text, glyphs) == text
  {
    hide TrimmedBack, CutAt;
    if Glyphs(text) > glyphs > 0 {
      var at := CutAt(text, 0, 0, glyphs - 1);
      CutInside(text, glyphs - 1);
      TrimmedHasNoMore(text[..at]);
      EllipsisIsOneGlyph();
      GlyphsAppend(TrimmedBack(text[..at]), ELLIPSIS_BYTES);
      hide Glyphs;
    } else {
      GlyphsOfNone();
    }
  }

  /** Only one place in a text has `n` glyphs before it and begins one. */
  lemma OneCut(text: seq<Byte>, i: nat, j: nat)
    requires i <= j < |text| && IsLead(text[i]) && Glyphs(text[..i]) == Glyphs(text[..j])
    ensures i == j
  {
    if i < j {
      var upTo := text[..j];
      var next := text[..i + 1];
      assert next[..i] == text[..i] && next[|next| - 1] == text[i];
      assert Glyphs(next) == Glyphs(text[..i]) + 1;
      assert upTo == next + upTo[i + 1..];
      GlyphsAppend(next, upTo[i + 1..]);
    }
  }

  lemma CutsBetween(cps: seq<nat>, n: nat)
    requires Scalars(cps) && n < |cps|
    ensures Scalars(cps[..n])
    ensures var text := EncodeAll(cps);
            text[..CutAt(text, 0, 0, n)] == EncodeAll(cps[..n])
  {
    hide Encode, EncodeAll, Glyphs, CutAt, IsLead;
    var text := EncodeAll(cps);
    var head, tail := cps[..n], cps[n..];
    assert head + tail == cps;
    EncodeAllAppends(head, tail);
    var k := |EncodeAll(head)|;
    assert text[..k] == EncodeAll(head);
    GlyphsAreCodePoints(head);
    GlyphsAreCodePoints(cps);
    FirstEncoded(tail);
    assert text[k] == EncodeAll(tail)[0];
    CutInside(text, n);
    var at := CutAt(text, 0, 0, n);
    if k <= at {
      OneCut(text, k, at);
    } else {
      OneCut(text, at, k);
    }
  }

  lemma FirstEncoded(cps: seq<nat>)
    requires Scalars(cps) && cps != []
    ensures EncodeAll(cps) != [] && IsLead(EncodeAll(cps)[0])
  {
    GlyphOfOne(cps[0]);
    hide Encode;
  }

  /** Spaces dropped at the end of a row. */
  function WithoutSpaces(cps: seq<nat>): (r: seq<nat>)
    ensures r <= cps
  {
    if cps != [] && cps[|cps| - 1] == SPACE then WithoutSpaces(cps[..|cps| - 1]) else cps
  }

  lemma LastByte(cp: nat)
    requires Scalar(cp)
    ensures Encode(cp)[|Encode(cp)| - 1] == SPACE <==> cp == SPACE
    ensures cp == SPACE ==> Encode(cp) == [SPACE]
  {}

  lemma {:induction false} TrimmingIsByCodePoint(cps: seq<nat>)
    requires Scalars(cps)
    ensures TrimmedBack(EncodeAll(cps)) == EncodeAll(WithoutSpaces(cps))
    decreases |cps|
  {
    hide Encode, EncodeAll;
    if cps == [] {
      EncodeAllNone();
    } else {
      var n := |cps| - 1;
      var s := EncodeAll(cps);
      assert cps == cps[..n] + [cps[n]];
      EncodeAllAppends(cps[..n], [cps[n]]);
      EncodeAllOne(cps[n]);
      LastByte(cps[n]);
      assert s[|s| - 1] == Encode(cps[n])[|Encode(cps[n])| - 1];
      if cps[n] == SPACE {
        assert s[..|s| - 1] == EncodeAll(cps[..n]);
        TrimmingIsByCodePoint(cps[..n]);
      }
    }
  }

  lemma EncodeAllNone()
    ensures EncodeAll([]) == []
  {}

  /** What fitting makes of well-formed text, in code points: whole, nothing, or the first ones, the
      spaces after them dropped, and an ellipsis. No code point is ever split. */
  function FitPoints(cps: seq<nat>, glyphs: nat): seq<nat> {
    if |cps| <= glyphs then cps
    else if glyphs == 0 then []
    else WithoutSpaces(cps[..glyphs - 1]) + [ELLIPSIS]
  }

  lemma FitSplitsNoCodePoint(cps: seq<nat>, glyphs: nat)
    requires Scalars(cps)
    ensures Scalars(FitPoints(cps, glyphs))
    ensures PanelFit(EncodeAll(cps), glyphs) == EncodeAll(FitPoints(cps, glyphs))
  {
    hide Encode, EncodeAll, TrimmedBack, Glyphs, CutAt;
    GlyphsAreCodePoints(cps);
    EncodeAllNone();
    if |cps| > glyphs > 0 {
      CutsBetween(cps, glyphs - 1);
      var kept := cps[..glyphs - 1];
      TrimmingIsByCodePoint(kept);
      EllipsisEncodes();
      EncodeAllOne(ELLIPSIS);
      EncodeAllAppends(WithoutSpaces(kept), [ELLIPSIS]);
    }
  }

  function Least(a: nat, b: nat): nat {
    if a < b then a else b
  }

  function Most(a: nat, b: nat): nat {
    if a > b then a else b
  }

  /** The glyphs of the name a row of `width` keeps. */
  function NameKeeps(name: nat, value: nat, width: nat): (k: nat)
    requires width >= 3
    ensures k <= name && k <= width - 2
  {
    var room := width - 2;
    Least(name, Least(room, Most(6, if room > value then room - value else 0)))
  }

  function PanelPair(name: seq<Byte>, value: seq<Byte>, width: nat): seq<Byte> {
    var n, v := Glyphs(name), Glyphs(value);
    if n + 2 + v <= width then name + COLON + value
    else if width < 3 then PanelFit(name + COLON + value, width)
    else
      var keep := NameKeeps(n, v, width);
      PanelFit(name, keep) + COLON + PanelFit(value, width - 2 - keep)
  }

  lemma GlyphsOfPair(a: seq<Byte>, b: seq<Byte>)
    ensures Glyphs(a + COLON + b) == Glyphs(a) + 2 + Glyphs(b)
  {
    assert COLON[..1] == [0x3A] && COLON[..1][..0] == [];
    assert Glyphs(COLON) == Glyphs(COLON[..1]) + 1 == 2;
    GlyphsAppend(a, COLON);
    GlyphsAppend(a + COLON, b);
  }

  /** A name and a value never take more than the row's width, whatever bytes they are; they are whole
      when they fit, and a value loses glyphs to the name only down to six of the name's. */
  lemma PairFits(name: seq<Byte>, value: seq<Byte>, width: nat)
    ensures Glyphs(PanelPair(name, value, width)) <= width
    ensures Glyphs(name) + 2 + Glyphs(value) <= width ==> PanelPair(name, value, width) == name + COLON + value
    ensures width >= 3 && Glyphs(name) + 2 + Glyphs(value) > width && Glyphs(value) + 8 <= width ==>
              PanelPair(name, value, width) == PanelFit(name, width - 2 - Glyphs(value)) + COLON + value
  {
    hide Glyphs, PanelFit;
    var n, v := Glyphs(name), Glyphs(value);
    if n + 2 + v <= width {
      GlyphsOfPair(name, value);
    } else if width < 3 {
      FitFits(name + COLON + value, width);
    } else {
      var keep := NameKeeps(n, v, width);
      FitFits(name, keep);
      FitFits(value, width - 2 - keep);
      GlyphsOfPair(PanelFit(name, keep), PanelFit(value, width - 2 - keep));
    }
  }

  // --- The loops ---

  method Trim(text: seq<Byte>) returns (out: seq<Byte>)
    ensures out == Trimmed(text)
  {
    var begin, end := 0, |text|;
    while begin < end && text[begin] == SPACE
      invariant begin <= end && TrimmedFront(text) == TrimmedFront(text[begin..])
    {
      assert text[begin..][1..] == text[begin + 1..];
      begin := begin + 1;
    }
    assert TrimmedFront(text) == text[begin..end];
    while end > begin && text[end - 1] == SPACE
      invariant begin <= end <= |text| && Trimmed(text) == TrimmedBack(text[begin..end])
    {
      assert text[begin..end][..end - begin - 1] == text[begin..end - 1];
      end := end - 1;
    }
    return text[begin..end];
  }

  /** `out` is left alone for a text that is refused. */
  method ParseLabelBytes(text: seq<Byte>, out: seq<Byte>) returns (ok: bool, kept: seq<Byte>)
    ensures ok <==> ParseLabel(Some(text)).Some?
    ensures kept == if ok then ParseLabel(Some(text)).value else out
  {
    hide DecodeAt, IsControl, Trimmed;
    var t := Trim(text);
    var codePoints, p := 0, 0;
    while p < |t|
      invariant p <= |t| && codePoints <= LABEL_MAX_LENGTH
      invariant Accepted(t, 0) == Accepted(t[p..], codePoints)
    {
      var decoded := Decode(t[p..]);
      if !Whole(decoded) || IsControl(decoded.codePoint) {
        return false, out;
      }
      codePoints := codePoints + 1;
      if codePoints > LABEL_MAX_LENGTH {
        return false, out;
      }
      assert t[p..][decoded.taken..] == t[p + decoded.taken..];
      p := p + decoded.taken;
    }
    return true, t;
  }

  /** What one sequence is drawn as. */
  function Drawn(s: seq<Byte>, has: nat -> bool): seq<Byte>
    requires s != []
  {
    var d := DecodeAt(s);
    if Whole(d) && Drawable(d.codePoint, has) then s[..d.taken] else [QUESTION]
  }

  predicate SplitByCut(s: seq<Byte>, cut: bool)
    requires s != []
  {
    var d := DecodeAt(s);
    cut && d.taken < d.length && d.taken == |s|
  }

  lemma SafeStep(bytes: seq<Byte>, i: nat, cut: bool, has: nat -> bool, out: seq<Byte>)
    requires i < |bytes| && SafeBytes(bytes, cut, has) == out + SafeBytes(bytes[i..], cut, has)
    ensures SplitByCut(bytes[i..], cut) ==> SafeBytes(bytes, cut, has) == out
    ensures !SplitByCut(bytes[i..], cut) ==>
              var n := i + DecodeAt(bytes[i..]).taken;
              SafeBytes(bytes, cut, has) == out + Drawn(bytes[i..], has) + SafeBytes(bytes[n..], cut, has)
  {
    hide DecodeAt, Drawable, Whole;
    var s := bytes[i..];
    var n := i + DecodeAt(s).taken;
    assert s[DecodeAt(s).taken..] == bytes[n..];
    if !SplitByCut(s, cut) {
      assert SafeBytes(s, cut, has) == Drawn(s, has) + SafeBytes(bytes[n..], cut, has);
      hide SafeBytes, Drawn;
      assert out + (Drawn(s, has) + SafeBytes(bytes[n..], cut, has))
          == out + Drawn(s, has) + SafeBytes(bytes[n..], cut, has);
    }
  }

  method MakeSafe(text: seq<Byte>, maxBytes: nat, has: nat -> bool) returns (out: seq<Byte>)
    ensures out == PanelSafe(text, maxBytes, has)
  {
    hide DecodeAt, Drawable, Whole, SafeBytes;
    var cut := |text| > maxBytes;
    var end := if cut then maxBytes else |text|;
    var bytes := text[..end];
    out := [];
    var i := 0;
    SafeOfNone(cut, has);
    while i < end
      invariant i <= end
      invariant SafeBytes(bytes, cut, has) == out + SafeBytes(bytes[i..], cut, has)
    {
      var decoded := Decode(bytes[i..]);
      SafeStep(bytes, i, cut, has, out);
      if cut && decoded.taken < decoded.length && i + decoded.taken == end {
        assert SplitByCut(bytes[i..], cut);
        break;
      }
      if Whole(decoded) && Drawable(decoded.codePoint, has) {
        out := out + bytes[i..][..decoded.taken];
      } else {
        out := out + [QUESTION];
      }
      i := i + decoded.taken;
    }
    if cut {
      out := out + ELLIPSIS_BYTES;
    } else {
      assert bytes == text;
    }
  }

  lemma SafeOfNone(cut: bool, has: nat -> bool)
    ensures SafeBytes([], cut, has) == []
  {}

  method CountGlyphs(text: seq<Byte>) returns (n: nat)
    ensures n == Glyphs(text)
  {
    n := 0;
    for i := 0 to |text|
      invariant n == Glyphs(text[..i])
    {
      assert text[..i + 1][..i] == text[..i];
      if IsLead(text[i]) {
        n := n + 1;
      }
    }
    assert text[..|text|] == text;
  }

  method Fit(text: seq<Byte>, glyphs: nat) returns (row: seq<Byte>)
    ensures row == PanelFit(text, glyphs)
  {
    hide Glyphs;
    var count := CountGlyphs(text);
    if count <= glyphs {
      return text;
    }
    if glyphs == 0 {
      return [];
    }
    var kept, i := 0, 0;
    while i < |text|
      invariant i <= |text| && CutAt(text, 0, 0, glyphs - 1) == CutAt(text, i, kept, glyphs - 1)
    {
      if IsLead(text[i]) {
        if kept == glyphs - 1 {
          break;
        }
        kept := kept + 1;
      }
      i := i + 1;
    }
    ghost var at := i;
    while i > 0 && text[i - 1] == SPACE
      invariant i <= at && TrimmedBack(text[..at]) == TrimmedBack(text[..i])
    {
      assert text[..i][..i - 1] == text[..i - 1];
      i := i - 1;
    }
    return text[..i] + ELLIPSIS_BYTES;
  }

  method Pair(name: seq<Byte>, value: seq<Byte>, width: nat) returns (row: seq<Byte>)
    ensures row == PanelPair(name, value, width)
  {
    hide Glyphs, PanelFit;
    var nameGlyphs := CountGlyphs(name);
    var valueGlyphs := CountGlyphs(value);
    if nameGlyphs + 2 + valueGlyphs <= width {
      return name + COLON + value;
    }
    if width < 3 {
      row := Fit(name + COLON + value, width);
      return;
    }
    var room := width - 2;
    var nameRoom := Least(room, Most(6, if room > valueGlyphs then room - valueGlyphs else 0));
    var keep := Least(nameGlyphs, nameRoom);
    var first := Fit(name, keep);
    var second := Fit(value, room - keep);
    return first + COLON + second;
  }
}
