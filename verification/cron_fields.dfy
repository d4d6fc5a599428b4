// Cron fields printed and parsed (components/automations/automation_config.cpp). A field is the bytes
// it matches; it prints as `*`, `*/N`, `X-Y`, one number or a list, and is read back from any mix of
// those.
module CronFields {
  import opened Arithmetic
  import opened Options
  import opened Orders
  import opened Texts

  // --- Sorted and unique, as the standard library leaves a vector ---

  predicate Sorted(s: seq<nat>) {
    forall i, j :: 0 <= i < j < |s| ==> s[i] <= s[j]
  }

  function Inserted(s: seq<nat>, x: nat): (r: seq<nat>)
    requires Sorted(s)
    ensures Sorted(r) && multiset(r) == multiset(s) + multiset{x}
  {
    if s == [] then [x]
    else if x <= s[0] then
      var r := [x] + s;
      assert multiset(r) == multiset{x} + multiset(s);
      r
    else
      var rest := Inserted(s[1..], x);
      assert s == [s[0]] + s[1..];
      InsertedAbove(s, x, rest);
      [s[0]] + rest
  }

  lemma InsertedAbove(s: seq<nat>, x: nat, rest: seq<nat>)
    requires Sorted(s) && s != [] && s[0] <= x && multiset(rest) == multiset(s[1..]) + multiset{x}
    ensures forall i :: 0 <= i < |rest| ==> s[0] <= rest[i]
  {
    forall i | 0 <= i < |rest| ensures s[0] <= rest[i] {
      assert rest[i] in multiset(rest);
      if rest[i] != x {
        assert rest[i] in multiset(s[1..]);
        assert rest[i] in s[1..];
      }
    }
  }

  function Sort(s: seq<nat>): (r: seq<nat>)
    ensures Sorted(r) && multiset(r) == multiset(s)
  {
    if s == [] then []
    else
      assert s == s[..|s| - 1] + [s[|s| - 1]];
      Inserted(Sort(s[..|s| - 1]), s[|s| - 1])
  }

  function Unique(s: seq<nat>): seq<nat> {
    if |s| <= 1 then s
    else if s[0] == s[1] then Unique(s[1..])
    else [s[0]] + Unique(s[1..])
  }

  lemma {:induction false} UniqueIncreases(s: seq<nat>)
    requires Sorted(s)
    ensures Increasing(Unique(s))
    ensures forall x :: x in Unique(s) <==> x in s
    ensures s != [] ==> Unique(s) != [] && Unique(s)[0] == s[0]
    decreases |s|
  {
    if |s| > 1 {
      var rest := Unique(s[1..]);
      UniqueIncreases(s[1..]);
      assert s == [s[0]] + s[1..];
      if s[0] != s[1] {
        assert s[0] < s[1] == rest[0];
        forall i | 0 <= i < |rest| ensures s[0] < rest[i] {
          assert i > 0 ==> rest[0] < rest[i];
        }
      }
    }
  }

  function SortedUnique(s: seq<nat>): (r: seq<nat>)
    ensures Increasing(r) && forall x :: x in r <==> x in s
  {
    var sorted := Sort(s);
    UniqueIncreases(sorted);
    SameElements(s, sorted);
    Unique(sorted)
  }

  lemma SameElements(s: seq<nat>, t: seq<nat>)
    requires multiset(s) == multiset(t)
    ensures forall x :: x in s <==> x in t
  {
    forall x ensures x in s <==> x in t {
      assert x in s <==> x in multiset(s);
      assert x in t <==> x in multiset(t);
    }
  }

  /** A strictly increasing sequence is what it holds. */
  lemma {:induction false} IncreasingIsASet(s: seq<nat>, t: seq<nat>)
    requires Increasing(s) && Increasing(t) && forall x :: x in s <==> x in t
    ensures s == t
    decreases |s|
  {
    assert t != [] ==> t[0] in s;
    if s != [] {
      assert s[0] in t;
      assert t[0] in s;
      var i :| 0 <= i < |t| && t[i] == s[0];
      var j :| 0 <= j < |s| && s[j] == t[0];
      assert s[0] == t[0];
      forall x ensures x in s[1..] <==> x in t[1..] {
        InTail(s, x);
        InTail(t, x);
      }
      IncreasingIsASet(s[1..], t[1..]);
      assert s == [s[0]] + s[1..];
      assert t == [t[0]] + t[1..];
    }
  }

  lemma InTail(s: seq<nat>, x: nat)
    requires Increasing(s) && s != []
    ensures x in s[1..] <==> x in s && x != s[0]
  {
    assert s == [s[0]] + s[1..];
  }

  lemma SortOfSorted(s: seq<nat>)
    requires Increasing(s)
    ensures Sort(s) == s
    decreases |s|
  {
    var r := Sort(s);
    SameElements(s, r);
    NoRepeats(s, r);
    IncreasingIsASet(s, r);
  }

  lemma NoRepeats(s: seq<nat>, r: seq<nat>)
    requires Increasing(s) && Sorted(r) && multiset(r) == multiset(s)
    ensures Increasing(r)
  {
    forall i, j | 0 <= i < j < |r| ensures r[i] < r[j] {
      if r[i] == r[j] {
        Twice(r, i, j);
        Once(s, r[i]);
        assert false;
      }
    }
  }

  lemma Twice(r: seq<nat>, i: nat, j: nat)
    requires i < j < |r| && r[i] == r[j]
    ensures multiset(r)[r[i]] >= 2
  {
    assert r == r[..j] + [r[j]] + r[j + 1..];
    assert r[i] in r[..j];
    assert multiset(r) == multiset(r[..j]) + multiset{r[j]} + multiset(r[j + 1..]);
  }

  lemma {:induction false} Once(s: seq<nat>, x: nat)
    requires Increasing(s)
    ensures multiset(s)[x] <= 1
    decreases |s|
  {
    if s != [] {
      Once(s[1..], x);
      InTail(s, x);
      assert s == [s[0]] + s[1..];
      assert multiset(s) == multiset{s[0]} + multiset(s[1..]);
      assert x !in s[1..] ==> multiset(s[1..])[x] == 0;
    }
  }

  // --- One member of a field ---

  /** Every `step`th value from `first` to `last`. */
  datatype Member = Member(first: nat, last: nat, step: nat)

  predicate Denotes(m: Member, v: nat) {
    m.step > 0 && m.first <= v <= m.last && (v - m.first) % m.step == 0
  }

  predicate Within(m: Member, low: nat, high: nat) {
    m.step > 0 && low <= m.first <= m.last <= high
  }

  function RangeOf(base: string, low: nat, high: nat): Option<(nat, nat)> {
    if base == "*" then (if low <= high then Some((low, high)) else None)
    else
      var dash := Find(base, '-');
      var first := ParseByte(base[..dash]);
      var last := if dash < |base| then ParseByte(base[dash + 1..]) else first;
      if first.Some? && last.Some? && low <= first.value <= last.value <= high then Some((first.value, last.value))
      else None
  }

  function StepOf(part: string): Option<nat> {
    var slash := Find(part, '/');
    if slash == |part| then Some(1) else ParseByte(part[slash + 1..])
  }

  // `*`, `*/N`, `X-Y`, `X-Y/N` or `N`; nothing for text that is none of them, has a step of 0, or
  // leaves the field.
  function MemberOf(part: string, low: nat, high: nat): (m: Option<Member>)
    ensures m.Some? ==> Within(m.value, low, high) && m.value.step < 256
  {
    var step := StepOf(part);
    var range := RangeOf(part[..Find(part, '/')], low, high);
    if part != "" && step.Some? && step.value > 0 && range.Some? then
      Some(Member(range.value.0, range.value.1, step.value))
    else None
  }

  function Values(m: Member): (s: seq<nat>)
    requires m.step > 0
    decreases if m.first <= m.last then m.last - m.first + 1 else 0
  {
    if m.first > m.last then [] else [m.first] + Values(m.(first := m.first + m.step))
  }

  lemma {:induction false} ValuesAreDenoted(m: Member, v: nat)
    requires m.step > 0
    ensures v in Values(m) <==> Denotes(m, v)
    decreases if m.first <= m.last then m.last - m.first + 1 else 0
  {
    if m.first <= m.last {
      var next := m.(first := m.first + m.step);
      ValuesAreDenoted(next, v);
      if v >= next.first {
        StepDown(v - m.first, m.step);
      } else if m.first < v {
        Below(v - m.first, m.step);
      }
    }
  }

  lemma StepDown(d: nat, step: nat)
    requires d >= step > 0
    ensures d % step == (d - step) % step
  {
    var q, r := (d - step) / step, (d - step) % step;
    Divided(d - step, step);
    Distribute(q, 1, step);
    Remainder(d, q + 1, r, step);
  }

  lemma Below(d: nat, step: nat)
    requires 0 < d < step
    ensures d % step == d
  {
    Remainder(d, 0, d, step);
  }

  // --- A whole field ---

  /** All of `parts` read, their values in order; nothing when one cannot be. */
  function ValuesOf(parts: seq<string>, low: nat, high: nat): Option<seq<nat>> {
    if parts == [] then Some([])
    else
      var rest := ValuesOf(parts[..|parts| - 1], low, high);
      var m := MemberOf(parts[|parts| - 1], low, high);
      if rest.Some? && m.Some? then Some(rest.value + Values(m.value)) else None
  }

  function ReadField(text: string, low: nat, high: nat): Option<seq<nat>> {
    var values := ValuesOf(Split(text, ','), low, high);
    if values.Some? then Some(SortedUnique(values.value)) else None
  }

  predicate InField(s: seq<nat>, low: nat, high: nat) {
    s != [] && Increasing(s) && forall i :: 0 <= i < |s| ==> low <= s[i] <= high
  }

  /** One of the members says `v`. */
  predicate Says(parts: seq<string>, low: nat, high: nat, v: nat) {
    exists i :: 0 <= i < |parts| && MemberOf(parts[i], low, high).Some? &&
                Denotes(MemberOf(parts[i], low, high).value, v)
  }

  lemma SaysOneMore(parts: seq<string>, low: nat, high: nat, v: nat)
    requires parts != []
    ensures var n := |parts| - 1;
            var m := MemberOf(parts[n], low, high);
            Says(parts, low, high, v) <==> Says(parts[..n], low, high, v) || (m.Some? && Denotes(m.value, v))
  {
    hide MemberOf, Denotes;
    var n := |parts| - 1;
    if Says(parts[..n], low, high, v) {
      var i :| 0 <= i < n && MemberOf(parts[..n][i], low, high).Some?
               && Denotes(MemberOf(parts[..n][i], low, high).value, v);
      assert parts[i] == parts[..n][i];
    }
    if Says(parts, low, high, v) {
      var i :| 0 <= i < |parts| && MemberOf(parts[i], low, high).Some?
               && Denotes(MemberOf(parts[i], low, high).value, v);
      if i < n {
        assert parts[..n][i] == parts[i];
      }
    }
  }

  lemma {:induction false} ValuesAreSaid(parts: seq<string>, low: nat, high: nat, v: nat)
    requires ValuesOf(parts, low, high).Some?
    ensures v in ValuesOf(parts, low, high).value <==> Says(parts, low, high, v)
    decreases |parts|
  {
    hide MemberOf, Denotes, Values;
    if parts != [] {
      var n := |parts| - 1;
      ValuesAreSaid(parts[..n], low, high, v);
      SaysOneMore(parts, low, high, v);
      ValuesAreDenoted(MemberOf(parts[n], low, high).value, v);
    }
  }

  predicate Readable(parts: seq<string>, low: nat, high: nat) {
    forall i :: 0 <= i < |parts| ==> MemberOf(parts[i], low, high).Some?
  }

  lemma {:induction false} EveryPartReads(parts: seq<string>, low: nat, high: nat)
    ensures ValuesOf(parts, low, high).Some? <==> Readable(parts, low, high)
    decreases |parts|
  {
    hide MemberOf, Values;
    if parts != [] {
      var n := |parts| - 1;
      EveryPartReads(parts[..n], low, high);
      assert forall i :: 0 <= i < n ==> parts[..n][i] == parts[i];
    }
  }

  /** What an accepted field means: it is accepted exactly when each of its members can be read, and
      then it is strictly increasing, in range, not empty, and holds what its members denote. */
  lemma AcceptedFieldMeans(text: string, low: nat, high: nat)
    ensures ReadField(text, low, high).Some? <==> Readable(Split(text, ','), low, high)
    ensures ReadField(text, low, high).Some? ==>
              && InField(ReadField(text, low, high).value, low, high)
              && forall v :: v in ReadField(text, low, high).value <==> Says(Split(text, ','), low, high, v)
  {
    hide MemberOf, Denotes, Values;
    var parts := Split(text, ',');
    EveryPartReads(parts, low, high);
    var r := ReadField(text, low, high);
    if r.Some? {
      forall v ensures v in r.value <==> Says(parts, low, high, v) {
        ValuesAreSaid(parts, low, high, v);
      }
      FirstIsSaid(parts, low, high);
      assert MemberOf(parts[0], low, high).value.first in r.value;
      forall i | 0 <= i < |r.value| ensures low <= r.value[i] <= high {
        assert r.value[i] in r.value;
        SaidWithin(parts, low, high, r.value[i]);
      }
    }
  }

  lemma FirstIsSaid(parts: seq<string>, low: nat, high: nat)
    requires parts != [] && MemberOf(parts[0], low, high).Some?
    ensures Says(parts, low, high, MemberOf(parts[0], low, high).value.first)
  {
    hide RangeOf, StepOf;
    var m := MemberOf(parts[0], low, high).value;
    assert (m.first - m.first) % m.step == 0;
    assert Denotes(m, m.first);
  }

  lemma SaidWithin(parts: seq<string>, low: nat, high: nat, v: nat)
    requires Says(parts, low, high, v)
    ensures low <= v <= high
  {
    hide RangeOf, StepOf;
  }

  // --- Printing ---

  predicate FullRange(s: seq<nat>, low: nat, high: nat) {
    |s| == high - low + 1 && forall i :: 0 <= i < |s| ==> s[i] == low + i
  }

  /** The last value a step reaches. */
  function LastStep(from: nat, step: nat, high: nat): nat
    requires step > 0
    decreases if from <= high then high - from else 0
  {
    if from + step <= high then LastStep(from + step, step, high) else from
  }

  predicate Spaced(s: seq<nat>, step: nat) {
    forall i :: 1 <= i < |s| ==> s[i] == s[i - 1] + step
  }

  predicate StepPattern(s: seq<nat>, low: nat, high: nat) {
    && |s| >= 2 && s[0] == low && s[1] > s[0] + 1
    && Spaced(s, s[1] - s[0])
    && s[|s| - 1] == LastStep(low, s[1] - s[0], high)
  }

  function Numbers(s: seq<nat>): (r: seq<string>)
    ensures |r| == |s| && forall i :: 0 <= i < |s| ==> r[i] == Decimal(s[i])
  {
    if s == [] then [] else Numbers(s[..|s| - 1]) + [Decimal(s[|s| - 1])]
  }

  /** How values already sorted print. */
  function TextOf(s: seq<nat>, low: nat, high: nat): string {
    if s == [] || FullRange(s, low, high) then "*"
    else if StepPattern(s, low, high) then "*/" + Decimal(s[1] - s[0])
    else if |s| >= 2 && Spaced(s, 1) then Decimal(s[0]) + "-" + Decimal(s[|s| - 1])
    else Join(Numbers(s), ',')
  }

  function FieldText(values: seq<nat>, low: nat, high: nat): string {
    TextOf(Sort(values), low, high)
  }

  // --- The round trip ---

  predicate Plain(s: string) {
    s != "" && AllDigits(s)
  }

  lemma PlainHasNoMarks(s: string)
    requires Plain(s)
    ensures ',' !in s && '-' !in s && '/' !in s && ' ' !in s && '*' !in s && s != "*"
  {
    assert IsDigit(s[0]);
  }

  lemma NumberReads(n: nat, low: nat, high: nat)
    requires low <= n <= high < 256
    ensures MemberOf(Decimal(n), low, high) == Some(Member(n, n, 1))
  {
    hide ParseByte, Decimal;
    var s := Decimal(n);
    PlainHasNoMarks(s);
    DecimalParses(n);
    FindFirst(s, '/', |s|);
    FindFirst(s, '-', |s|);
    assert s[..|s|] == s;
  }

  lemma RangeReads(first: nat, last: nat, low: nat, high: nat)
    requires low <= first <= last <= high < 256
    ensures MemberOf(Decimal(first) + "-" + Decimal(last), low, high) == Some(Member(first, last, 1))
    ensures ',' !in Decimal(first) + "-" + Decimal(last) && ' ' !in Decimal(first) + "-" + Decimal(last)
  {
    hide ParseByte, Decimal;
    var a, b := Decimal(first), Decimal(last);
    var s := a + "-" + b;
    PlainHasNoMarks(a);
    PlainHasNoMarks(b);
    DecimalParses(first);
    DecimalParses(last);
    FindFirst(s, '/', |s|);
    assert s[..|a|] == a;
    FindFirst(s, '-', |a|);
    assert s[|a| + 1..] == b;
    assert s[..|s|] == s;
    assert s[0] == a[0];
  }

  lemma StarReads(low: nat, high: nat)
    requires low <= high < 256
    ensures MemberOf("*", low, high) == Some(Member(low, high, 1))
  {
    FindFirst("*", '/', 1);
  }

  lemma StepReads(step: nat, low: nat, high: nat)
    requires low <= high < 256 && 0 < step < 256
    ensures MemberOf("*/" + Decimal(step), low, high) == Some(Member(low, high, step))
    ensures ',' !in "*/" + Decimal(step) && ' ' !in "*/" + Decimal(step)
  {
    hide ParseByte, Decimal;
    var b := Decimal(step);
    var s := "*/" + b;
    PlainHasNoMarks(b);
    DecimalParses(step);
    assert s[0] == '*' && s[1] == '/';
    assert s[..1] == "*";
    FindFirst(s, '/', 1);
    assert s[2..] == b;
  }

  /** A field of one member, printed without a comma, holds what the member denotes. */
  lemma OneMember(text: string, m: Member, s: seq<nat>, low: nat, high: nat)
    requires ',' !in text && MemberOf(text, low, high) == Some(m)
    requires Increasing(s) && forall v :: v in s <==> Denotes(m, v)
    ensures ReadField(text, low, high) == Some(s)
  {
    hide MemberOf, Denotes, Values;
    FindFirst(text, ',', |text|);
    var parts := Split(text, ',');
    assert parts == [text];
    AcceptedFieldMeans(text, low, high);
    var r := ReadField(text, low, high);
    forall v ensures v in r.value <==> v in s {
      if Says(parts, low, high, v) {
        assert Denotes(MemberOf(parts[0], low, high).value, v);
      }
      if Denotes(m, v) {
        assert Denotes(MemberOf(parts[0], low, high).value, v);
      }
    }
    IncreasingIsASet(r.value, s);
  }

  lemma Consecutive(s: seq<nat>, first: nat)
    requires s != [] && forall i :: 0 <= i < |s| ==> s[i] == first + i
    ensures Increasing(s) && forall v :: v in s <==> Denotes(Member(first, first + |s| - 1, 1), v)
  {
    forall v ensures v in s <==> first <= v < first + |s| {
      if first <= v < first + |s| {
        assert s[v - first] == v;
      }
    }
  }

  lemma {:induction false} SpacedFrom(s: seq<nat>, step: nat, i: nat)
    requires s != [] && Spaced(s, step) && i < |s|
    ensures s[i] == s[0] + i * step
    decreases i
  {
    if i > 0 {
      SpacedFrom(s, step, i - 1);
      assert i * step == (i - 1) * step + step;
    }
  }

  lemma {:induction false} LastStepReaches(from: nat, step: nat, high: nat) returns (k: nat)
    requires 0 < step && from <= high
    ensures LastStep(from, step, high) == from + k * step <= high < from + k * step + step
    decreases high - from
  {
    if from + step <= high {
      var j := LastStepReaches(from + step, step, high);
      k := j + 1;
      assert k * step == j * step + step;
    } else {
      k := 0;
    }
  }

  lemma SteppedIsDenoted(s: seq<nat>, low: nat, high: nat, k: nat, step: nat, i: nat)
    requires step > 0 && |s| == k + 1 && s[0] == low && Spaced(s, step) && low + k * step <= high && i < |s|
    ensures Denotes(Member(low, high, step), s[i])
  {
    SpacedFrom(s, step, i);
    if i < k {
      Less(i, k, step);
    }
    Remainder(i * step, i, 0, step);
  }

  lemma DenotedIsStepped(s: seq<nat>, low: nat, high: nat, k: nat, step: nat, v: nat)
    requires step > 0 && |s| == k + 1 && s[0] == low && Spaced(s, step) && high < low + k * step + step
    requires Denotes(Member(low, high, step), v)
    ensures v in s
  {
    var q := (v - low) / step;
    Divided(v - low, step);
    if k < q {
      Less(k, q, step);
    }
    SpacedFrom(s, step, q);
    assert s[q] == v;
  }

  lemma SameCount(a: nat, b: nat, step: nat)
    requires step > 0 && a * step == b * step
    ensures a == b
  {
    if a < b {
      Less(a, b, step);
    } else if b < a {
      Less(b, a, step);
    }
  }

  /** Equal steps from the field's first value to the last a step reaches are just what `*` with that
      step says. */
  lemma SteppedMeans(s: seq<nat>, low: nat, high: nat)
    requires StepPattern(s, low, high) && low <= high
    ensures forall v :: v in s <==> Denotes(Member(low, high, s[1] - s[0]), v)
  {
    hide Denotes, Spaced;
    var step := s[1] - s[0];
    var k := LastStepReaches(low, step, high);
    SpacedFrom(s, step, |s| - 1);
    SameCount(k, |s| - 1, step);
    forall v ensures v in s <==> Denotes(Member(low, high, step), v) {
      if v in s {
        var i :| 0 <= i < |s| && s[i] == v;
        SteppedIsDenoted(s, low, high, k, step, i);
      }
      if Denotes(Member(low, high, step), v) {
        DenotedIsStepped(s, low, high, k, step, v);
      }
    }
  }

  lemma OneValue(n: nat)
    ensures Values(Member(n, n, 1)) == [n]
  {
    assert Values(Member(n, n, 1)) == [n] + Values(Member(n + 1, n, 1));
  }

  /** One more part read. */
  lemma PartReads(parts: seq<string>, part: string, low: nat, high: nat)
    requires ValuesOf(parts, low, high).Some? && MemberOf(part, low, high).Some?
    ensures ValuesOf(parts + [part], low, high)
         == Some(ValuesOf(parts, low, high).value + Values(MemberOf(part, low, high).value))
  {
    var all := parts + [part];
    assert all[..|all| - 1] == parts && all[|all| - 1] == part;
    hide MemberOf, Values;
  }

  lemma LastNumber(s: seq<nat>)
    requires s != []
    ensures Numbers(s) == Numbers(s[..|s| - 1]) + [Decimal(s[|s| - 1])]
  {}

  lemma {:induction false} ListReads(s: seq<nat>, low: nat, high: nat)
    requires high < 256 && forall i :: 0 <= i < |s| ==> low <= s[i] <= high
    ensures ValuesOf(Numbers(s), low, high) == Some(s)
    decreases |s|
  {
    hide MemberOf, Decimal, Values, Numbers;
    if s != [] {
      var n := |s| - 1;
      ListReads(s[..n], low, high);
      NumberReads(s[n], low, high);
      PartReads(Numbers(s[..n]), Decimal(s[n]), low, high);
      OneValue(s[n]);
      LastNumber(s);
      hide ValuesOf;
      assert s == s[..n] + [s[n]];
    }
  }

  lemma ListRoundTrips(s: seq<nat>, low: nat, high: nat)
    requires high < 256 && InField(s, low, high)
    ensures ReadField(Join(Numbers(s), ','), low, high) == Some(s)
    ensures ' ' !in Join(Numbers(s), ',')
  {
    hide Values, MemberOf, ValuesOf, Decimal;
    forall i | 0 <= i < |s| ensures ',' !in Numbers(s)[i] && ' ' !in Numbers(s)[i] {
      PlainHasNoMarks(Decimal(s[i]));
    }
    JoinSplits(Numbers(s), ',');
    JoinWithout(Numbers(s), ',', ' ');
    ListReads(s, low, high);
    IncreasingIsASet(SortedUnique(s), s);
  }

  /** What is printed reads back, whichever form is chosen. */
  lemma PrintedReadsBack(s: seq<nat>, low: nat, high: nat)
    requires low <= high < 256 && InField(s, low, high)
    ensures ReadField(TextOf(s, low, high), low, high) == Some(s)
    ensures ' ' !in TextOf(s, low, high) && TextOf(s, low, high) != ""
  {
    hide ReadField, MemberOf, Decimal;
    if FullRange(s, low, high) {
      StarReads(low, high);
      Consecutive(s, low);
      OneMember("*", Member(low, high, 1), s, low, high);
    } else if StepPattern(s, low, high) {
      StepReads(s[1] - s[0], low, high);
      SteppedMeans(s, low, high);
      OneMember("*/" + Decimal(s[1] - s[0]), Member(low, high, s[1] - s[0]), s, low, high);
    } else if |s| >= 2 && Spaced(s, 1) {
      var last := s[|s| - 1];
      SpacedFrom(s, 1, |s| - 1);
      forall i | 0 <= i < |s| ensures s[i] == s[0] + i {
        SpacedFrom(s, 1, i);
      }
      Consecutive(s, s[0]);
      RangeReads(s[0], last, low, high);
      OneMember(Decimal(s[0]) + "-" + Decimal(last), Member(s[0], last, 1), s, low, high);
    } else {
      ListRoundTrips(s, low, high);
      JoinNotEmpty(s);
    }
  }

  lemma JoinNotEmpty(s: seq<nat>)
    requires s != []
    ensures Join(Numbers(s), ',') != ""
  {
    assert Numbers(s)[0] == Decimal(s[0]);
  }

  /** Printing any bytes and reading them back gives them back exactly when they are a field: some
      values, strictly increasing and in range. */
  lemma FieldRoundTrips(values: seq<nat>, low: nat, high: nat)
    requires low <= high < 256
    ensures ReadField(FieldText(values, low, high), low, high) == Some(values) <==> InField(values, low, high)
  {
    hide ReadField, TextOf;
    if InField(values, low, high) {
      SortOfSorted(values);
      PrintedReadsBack(values, low, high);
    }
    AcceptedFieldMeans(FieldText(values, low, high), low, high);
  }
}
