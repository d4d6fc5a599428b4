/** What a slug keeps of its name (components/climate_hub/climate_config.cpp): its words, in lower case and with
    one dash between any two, as far as they fit. */
module SlugWords {
  import opened Texts
  import opened Slugs
  import opened Words

  /** Letters in lower case and digits; anything else stands between words. */
  function MarkOf(c: char): char {
    if 'A' <= c <= 'Z' then 'a' + (c - 'A') else if 'a' <= c <= 'z' || '0' <= c <= '9' then c else DASH
  }

  function Marked(name: string): (r: string)
    ensures |r| == |name| && forall i :: 0 <= i < |r| ==> r[i] == MarkOf(name[i])
  {
    seq(|name|, i requires 0 <= i < |name| => MarkOf(name[i]))
  }

  lemma MarkGrows(s: string, c: char)
    ensures Appended(s, c) == Grown(s, MarkOf(c), DASH)
  {}

  lemma {:induction false} DashedIsFolded(name: string)
    ensures Dashed(name) == Folded(Marked(name), DASH)
  {
    if name != "" {
      var n := |name| - 1;
      DashedIsFolded(name[..n]);
      MarkGrows(Dashed(name[..n]), name[n]);
      assert Marked(name)[..n] == Marked(name[..n]);
      hide Appended, Grown, MarkOf;
    }
  }

  /** A name without words gets the fallback, any other its words; too long, they are cut, and a dash the cut
      leaves at the end goes too. */
  lemma SlugKeepsWords(name: string, fallback: string)
    ensures var words := Spaced(Marked(name), DASH);
            var slug := Slug(name, fallback);
            && (words == "" ==> slug == fallback)
            && (0 < |words| <= ID_MAX_LENGTH ==> slug == words)
            && (|words| > ID_MAX_LENGTH ==>
                  slug == words[..if words[ID_MAX_LENGTH - 1] == DASH then ID_MAX_LENGTH - 1 else ID_MAX_LENGTH])
  {
    hide Spaced, Dashed, Folded;
    DashedIsFolded(name);
    FoldedIsSpaced(Marked(name), DASH);
    var words := Spaced(Marked(name), DASH);
    assert words == TrimmedEnd(Dashed(name), DASH);
    DashedIsInner(name);
    TrimmedEndIsPrefix(Dashed(name), DASH);
    PrefixIsInner(words, Dashed(name));
    if |words| > ID_MAX_LENGTH {
      var cut := Cut(words, ID_MAX_LENGTH);
      PrefixIsInner(cut, words);
      OneDashTrimmed(cut);
    } else {
      assert TrimmedEnd(words, DASH) == words;
    }
  }
}
