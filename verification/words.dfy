/** Words of a text: what stands between separators, and text that keeps its words and one separator between
    any two. */
module Words {
  import opened Texts

  function NonEmpty(parts: seq<string>): seq<string> {
    if parts == [] then []
    else if parts[0] == "" then NonEmpty(parts[1..])
    else [parts[0]] + NonEmpty(parts[1..])
  }

  /** The words, a separator between any two. */
  function Spaced(s: string, sep: char): string {
    Join(NonEmpty(Split(s, sep)), sep)
  }

  function Grown(t: string, c: char, sep: char): string {
    if c != sep then t + [c]
    else if t != "" && !EndsWith(t, sep) then t + [sep]
    else t
  }

  /** Character by character: no separator at the front, and none after another. */
  function Folded(s: string, sep: char): string {
    if s == "" then "" else Grown(Folded(s[..|s| - 1], sep), s[|s| - 1], sep)
  }

  function Two(x: string, y: string, sep: char): string {
    if x == "" then y else if y == "" then x else x + [sep] + y
  }

  lemma FoldedEnds(s: string, c: char, sep: char)
    ensures Folded(s + [c], sep) == Grown(Folded(s, sep), c, sep)
  {
    assert (s + [c])[..|s|] == s;
  }

  /** What a fold looks like: a word first, and no two separators at the end. */
  predicate Tidy(t: string, sep: char) {
    && (t != "" ==> t[0] != sep)
    && (EndsWith(t, sep) ==> |t| > 1 && !EndsWith(t[..|t| - 1], sep))
  }

  lemma {:induction false} FoldedIsTidy(s: string, sep: char)
    ensures Tidy(Folded(s, sep), sep)
  {
    if s != "" {
      FoldedIsTidy(s[..|s| - 1], sep);
    }
  }

  lemma TidyTrims(t: string, sep: char)
    requires Tidy(t, sep)
    ensures TrimmedEnd(t, sep) == if EndsWith(t, sep) then t[..|t| - 1] else t
    ensures TrimmedEnd(t, sep) == "" <==> t == ""
    ensures t != "" ==> Grown(t, sep, sep) == TrimmedEnd(t, sep) + [sep]
  {}

  /** After a separator the fold starts anew behind what it has. */
  lemma {:induction false} FoldedAfter(x: string, y: string, sep: char)
    ensures Folded(x + [sep] + y, sep) == Grown(Folded(x, sep), sep, sep) + Folded(y, sep)
    decreases |y|
  {
    FoldedIsTidy(x, sep);
    TidyTrims(Folded(x, sep), sep);
    if y == "" {
      assert x + [sep] + y == x + [sep];
      FoldedEnds(x, sep, sep);
    } else {
      var n := |y| - 1;
      assert x + [sep] + y == x + [sep] + y[..n] + [y[n]];
      FoldedEnds(x + [sep] + y[..n], y[n], sep);
      FoldedAfter(x, y[..n], sep);
      hide Folded, TrimmedEnd;
      GrownBehind(Grown(Folded(x, sep), sep, sep), Folded(y[..n], sep), y[n], sep);
      FoldedEnds(y[..n], y[n], sep);
      assert y == y[..n] + [y[n]];
    }
  }

  lemma GrownBehind(head: string, t: string, c: char, sep: char)
    requires head == "" || EndsWith(head, sep)
    ensures Grown(head + t, c, sep) == head + Grown(t, c, sep)
  {
    if t == "" {
      assert head + t == head;
    } else {
      assert (head + t)[|head + t| - 1] == t[|t| - 1];
    }
  }

  lemma {:induction false} TrimmedBehind(head: string, t: string, sep: char)
    requires t != "" && t[0] != sep
    ensures TrimmedEnd(head + t, sep) == head + TrimmedEnd(t, sep) && TrimmedEnd(t, sep) != ""
  {
    assert (head + t)[|head + t| - 1] == t[|t| - 1];
    if EndsWith(t, sep) {
      assert (head + t)[..|head + t| - 1] == head + t[..|t| - 1];
      TrimmedBehind(head, t[..|t| - 1], sep);
    }
  }

  lemma TrimmedTwo(x: string, y: string, sep: char)
    ensures TrimmedEnd(Folded(x + [sep] + y, sep), sep)
         == Two(TrimmedEnd(Folded(x, sep), sep), TrimmedEnd(Folded(y, sep), sep), sep)
  {
    FoldedAfter(x, y, sep);
    FoldedIsTidy(x, sep);
    FoldedIsTidy(y, sep);
    var fx, fy := Folded(x, sep), Folded(y, sep);
    TidyTrims(fx, sep);
    hide Folded;
    if fy == "" {
      if fx != "" {
        var t := TrimmedEnd(fx, sep);
        TrimmedEndIsPrefix(fx, sep);
        assert (t + [sep])[..|t|] == t;
      }
    } else {
      TrimmedBehind(Grown(fx, sep, sep), fy, sep);
    }
  }

  lemma {:induction false} WordFolds(w: string, sep: char)
    requires sep !in w
    ensures Folded(w, sep) == w && TrimmedEnd(w, sep) == w
  {
    if w != "" {
      WordFolds(w[..|w| - 1], sep);
    }
  }

  lemma SplitOnce(s: string, sep: char, i: nat)
    requires i == Find(s, sep) < |s|
    ensures Split(s, sep) == [s[..i]] + Split(s[i + 1..], sep)
    ensures s == s[..i] + [sep] + s[i + 1..]
  {}

  lemma SpacedOnce(w: string, rest: seq<string>, sep: char)
    ensures Join(NonEmpty([w] + rest), sep) == Two(w, Join(NonEmpty(rest), sep), sep)
  {
    assert ([w] + rest)[1..] == rest;
    var after := NonEmpty(rest);
    WordsAreNonEmpty(rest);
    if after != [] {
      JoinIsNonEmpty(after, sep);
    }
    assert ([w] + after)[1..] == after;
  }

  lemma {:induction false} WordsAreNonEmpty(parts: seq<string>)
    ensures "" !in NonEmpty(parts)
  {
    if parts != [] {
      WordsAreNonEmpty(parts[1..]);
    }
  }

  lemma JoinIsNonEmpty(parts: seq<string>, sep: char)
    requires parts != [] && parts[0] != ""
    ensures Join(parts, sep) != ""
  {}

  /** A fold, trimmed, is the words of the text with one separator between any two. */
  lemma {:induction false} FoldedIsSpaced(s: string, sep: char)
    ensures TrimmedEnd(Folded(s, sep), sep) == Spaced(s, sep)
    decreases |s|
  {
    var i := Find(s, sep);
    if i == |s| {
      assert s[..i] == s;
      WordFolds(s, sep);
      SpacedOnce(s, [], sep);
      assert [s] + [] == [s];
    } else {
      SplitOnce(s, sep, i);
      WordFolds(s[..i], sep);
      FoldedIsSpaced(s[i + 1..], sep);
      TrimmedTwo(s[..i], s[i + 1..], sep);
      SpacedOnce(s[..i], Split(s[i + 1..], sep), sep);
    }
  }
}
