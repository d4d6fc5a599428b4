// The six cron fields of a trigger as one string, and the loops that print and parse them in place
// (components/automations/automation_config.cpp).
module CronStrings {
  import opened CronFields
  import opened Options
  import opened Texts

  datatype Cron = Cron(
    seconds: seq<nat>, minutes: seq<nat>, hours: seq<nat>,
    daysOfMonth: seq<nat>, months: seq<nat>, daysOfWeek: seq<nat>)

  /** Each field a field of its range; a minute may have a leap second. */
  predicate ValidCron(c: Cron) {
    && InField(c.seconds, 0, 60) && InField(c.minutes, 0, 59) && InField(c.hours, 0, 23)
    && InField(c.daysOfMonth, 1, 31) && InField(c.months, 1, 12) && InField(c.daysOfWeek, 1, 7)
  }

  function FieldTexts(c: Cron): (r: seq<string>)
    ensures |r| == 6
  {
    [FieldText(c.seconds, 0, 60), FieldText(c.minutes, 0, 59), FieldText(c.hours, 0, 23),
     FieldText(c.daysOfMonth, 1, 31), FieldText(c.months, 1, 12), FieldText(c.daysOfWeek, 1, 7)]
  }

  function CronText(c: Cron): string {
    Join(FieldTexts(c), ' ')
  }

  /** Split at spaces; nothing after the last one is no field. */
  function FieldsOf(text: string): seq<string> {
    var all := Split(text, ' ');
    if all[|all| - 1] == "" then all[..|all| - 1] else all
  }

  function ReadFields(fields: seq<string>): Option<Cron>
    requires |fields| == 6
  {
    var seconds := ReadField(fields[0], 0, 60);
    var minutes := ReadField(fields[1], 0, 59);
    var hours := ReadField(fields[2], 0, 23);
    var daysOfMonth := ReadField(fields[3], 1, 31);
    var months := ReadField(fields[4], 1, 12);
    var daysOfWeek := ReadField(fields[5], 1, 7);
    if seconds.Some? && minutes.Some? && hours.Some? && daysOfMonth.Some? && months.Some? && daysOfWeek.Some? then
      Some(Cron(seconds.value, minutes.value, hours.value, daysOfMonth.value, months.value, daysOfWeek.value))
    else None
  }

  function ReadCron(text: string): Option<Cron> {
    var fields := FieldsOf(text);
    if |fields| == 6 then ReadFields(fields) else None
  }

  lemma AcceptedInField(text: string, low: nat, high: nat)
    ensures ReadField(text, low, high).Some? ==> InField(ReadField(text, low, high).value, low, high)
  {
    AcceptedFieldMeans(text, low, high);
  }

  /** Whatever string is accepted, each of its fields matches some value, in order and in range: no
      accepted rule can never fire. */
  lemma AcceptedCronIsValid(text: string)
    ensures ReadCron(text).Some? ==> ValidCron(ReadCron(text).value)
  {
    hide InField, ReadField, Split;
    var fields := FieldsOf(text);
    if |fields| == 6 {
      AcceptedInField(fields[0], 0, 60);
      AcceptedInField(fields[1], 0, 59);
      AcceptedInField(fields[2], 0, 23);
      AcceptedInField(fields[3], 1, 31);
      AcceptedInField(fields[4], 1, 12);
      AcceptedInField(fields[5], 1, 7);
    }
  }

  lemma FieldPrints(s: seq<nat>, low: nat, high: nat)
    requires low <= high < 256 && InField(s, low, high)
    ensures ReadField(FieldText(s, low, high), low, high) == Some(s)
    ensures ' ' !in FieldText(s, low, high) && FieldText(s, low, high) != ""
  {
    SortOfSorted(s);
    PrintedReadsBack(s, low, high);
  }

  lemma TextsRoundTrip(c: Cron)
    requires ValidCron(c)
    ensures ReadFields(FieldTexts(c)) == Some(c)
    ensures forall i :: 0 <= i < 6 ==> ' ' !in FieldTexts(c)[i] && FieldTexts(c)[i] != ""
  {
    hide InField, ReadField, FieldText;
    FieldPrints(c.seconds, 0, 60);
    FieldPrints(c.minutes, 0, 59);
    FieldPrints(c.hours, 0, 23);
    FieldPrints(c.daysOfMonth, 1, 31);
    FieldPrints(c.months, 1, 12);
    FieldPrints(c.daysOfWeek, 1, 7);
  }

  /** Any six lists of bytes come back from their string exactly when each is a field of its range. */
  lemma CronRoundTrips(c: Cron)
    ensures ReadCron(CronText(c)) == Some(c) <==> ValidCron(c)
  {
    hide ReadFields, FieldTexts, ValidCron;
    AcceptedCronIsValid(CronText(c));
    if ValidCron(c) {
      TextsRoundTrip(c);
      JoinSplits(FieldTexts(c), ' ');
      assert FieldsOf(CronText(c)) == FieldTexts(c);
    }
  }

  /** So printing what was read and reading it again changes nothing: the device settles on one
      spelling of a rule. */
  lemma ReadingSettles(text: string)
    requires ReadCron(text).Some?
    ensures ReadCron(CronText(ReadCron(text).value)) == ReadCron(text)
  {
    AcceptedCronIsValid(text);
    CronRoundTrips(ReadCron(text).value);
  }

  // --- The loops ---

  method IsFullRange(s: seq<nat>, low: nat, high: nat) returns (full: bool)
    requires low <= high
    ensures full == FullRange(s, low, high)
  {
    if |s| != high - low + 1 {
      return false;
    }
    for i := 0 to |s|
      invariant forall j :: 0 <= j < i ==> s[j] == low + j
    {
      if s[i] != low + i {
        return false;
      }
    }
    return true;
  }

  method IsSpaced(s: seq<nat>, step: nat) returns (even: bool)
    ensures even == Spaced(s, step)
  {
    var i := 1;
    while i < |s|
      invariant 1 <= i && forall j :: 1 <= j < i && j < |s| ==> s[j] == s[j - 1] + step
    {
      if s[i] != s[i - 1] + step {
        return false;
      }
      i := i + 1;
    }
    return true;
  }

  method ExpectedLast(low: nat, step: nat, high: nat) returns (last: nat)
    requires step > 0
    ensures last == LastStep(low, step, high)
  {
    last := low;
    while last + step <= high
      invariant LastStep(low, step, high) == LastStep(last, step, high)
      decreases high - last
    {
      last := last + step;
    }
  }

  method ListText(s: seq<nat>) returns (text: string)
    ensures text == Join(Numbers(s), ',')
  {
    text := "";
    for i := 0 to |s|
      invariant text == Join(Numbers(s[..i]), ',')
    {
      assert s[..i + 1][..i] == s[..i];
      if i > 0 {
        text := text + ",";
        JoinExtends(Numbers(s[..i]), ',', Decimal(s[i]));
      }
      text := text + Decimal(s[i]);
    }
    assert s[..|s|] == s;
  }

  /** The N of a step from the field's first value to the last it reaches; 0 when it is no such step. */
  method CommonStep(s: seq<nat>, low: nat, high: nat) returns (step: nat)
    requires Sorted(s)
    ensures step > 0 <==> StepPattern(s, low, high)
    ensures step > 0 ==> step == s[1] - s[0]
  {
    if |s| >= 2 && s[0] == low {
      var difference := s[1] - s[0];
      if difference > 1 {
        var even := IsSpaced(s, difference);
        if even {
          var last := ExpectedLast(low, difference, high);
          if s[|s| - 1] == last {
            return difference;
          }
        }
      }
    }
    return 0;
  }

  method SerializeField(values: seq<nat>, low: nat, high: nat) returns (text: string)
    requires low <= high
    ensures text == FieldText(values, low, high)
  {
    hide FullRange, StepPattern, Spaced, Sort, Decimal, Join;
    if values == [] {
      SortOfSorted([]);
      return "*";
    }
    var sorted := Sort(values);
    assert |sorted| == |values| by {
      assert |multiset(sorted)| == |multiset(values)|;
    }
    var full := IsFullRange(sorted, low, high);
    if full {
      return "*";
    }
    var step := CommonStep(sorted, low, high);
    if step > 0 {
      return "*/" + Decimal(step);
    }
    if |sorted| >= 2 {
      var contiguous := IsSpaced(sorted, 1);
      if contiguous {
        return Decimal(sorted[0]) + "-" + Decimal(sorted[|sorted| - 1]);
      }
    }
    if |sorted| == 1 {
      JoinOne(sorted);
      return Decimal(sorted[0]);
    }
    text := ListText(sorted);
  }

  lemma JoinOne(s: seq<nat>)
    requires |s| == 1
    ensures Join(Numbers(s), ',') == Decimal(s[0])
  {
    assert Numbers(s) == [Decimal(s[0])];
  }

  const BYTE: nat := 256

  /** The counter is a byte: it never wraps, as no field ends at its last value. */
  method PushValues(m: Member, soFar: seq<nat>) returns (values: seq<nat>)
    requires 0 < m.step < BYTE && m.first <= m.last < BYTE - 1
    ensures values == soFar + Values(m)
  {
    values := soFar;
    var i := m.first;
    while i <= m.last
      invariant i < BYTE && soFar + Values(m) == values + Values(m.(first := i))
      decreases m.last - i
    {
      values := values + [i];
      if i as int > m.last as int - m.step as int && m.step > 1 {
        assert Values(m.(first := i)) == [i] + Values(m.(first := i + m.step));
        assert Values(m.(first := i + m.step)) == [];
        break;
      }
      assert (i + m.step) % BYTE == i + m.step;
      i := (i + m.step) % BYTE;
    }
  }

  /** Appends a member's values; on failure the field is refused as a whole. */
  method ParsePart(part: string, low: nat, high: nat, soFar: seq<nat>) returns (ok: bool, values: seq<nat>)
    requires low <= high < BYTE - 1
    ensures ok == MemberOf(part, low, high).Some?
    ensures ok ==> values == soFar + Values(MemberOf(part, low, high).value)
  {
    hide ParseByte, Values;
    if part == "" {
      return false, soFar;
    }
    var base := part;
    var step := 1;
    var slash := Find(part, '/');
    if slash < |part| {
      base := part[..slash];
      var parsed := ParseByte(part[slash + 1..]);
      if parsed.None? || parsed.value == 0 {
        return false, soFar;
      }
      step := parsed.value;
    }
    assert base == part[..slash];
    var first, last := low, high;
    if base != "*" {
      var dash := Find(base, '-');
      if dash < |base| {
        var one, other := ParseByte(base[..dash]), ParseByte(base[dash + 1..]);
        if one.None? || other.None? {
          return false, soFar;
        }
        first, last := one.value, other.value;
      } else {
        assert base[..dash] == base;
        var one := ParseByte(base);
        if one.None? {
          return false, soFar;
        }
        first, last := one.value, one.value;
      }
      if first < low || last > high || first > last {
        return false, soFar;
      }
    }
    values := PushValues(Member(first, last, step), soFar);
    return true, values;
  }

  lemma SplitOff(s: string, c: char)
    ensures var i := Find(s, c);
            Split(s, c) == if i == |s| then [s[..i]] else [s[..i]] + Split(s[i + 1..], c)
  {
    assert s[..|s|] == s;
  }

  /** One more part, and what is left to split. */
  lemma PartSplit(text: string, fields: seq<string>, start: nat, c: char)
    requires start <= |text| && Split(text, c) == fields + Split(text[start..], c)
    ensures var part := text[start..][..Find(text[start..], c)];
            var next := start + |part| + 1;
            if next <= |text| then Split(text, c) == fields + [part] + Split(text[next..], c)
            else Split(text, c) == fields + [part]
  {
    hide Split, Find;
    var rest := text[start..];
    var at := Find(rest, c);
    SplitOff(rest, c);
    if at < |rest| {
      DroppedTwice(text, start, at + 1);
      Grouped(fields, [rest[..at]], Split(rest[at + 1..], c));
    }
  }

  lemma DroppedTwice(s: string, i: nat, j: nat)
    requires i + j <= |s|
    ensures s[i..][j..] == s[i + j..]
  {}

  lemma Grouped(a: seq<string>, b: seq<string>, c: seq<string>)
    ensures a + (b + c) == a + b + c
  {}

  method DeserializeField(text: string, low: nat, high: nat) returns (ok: bool, values: seq<nat>)
    requires low <= high < BYTE - 1
    ensures ok == ReadField(text, low, high).Some?
    ensures ok ==> values == ReadField(text, low, high).value
  {
    hide MemberOf, Values, ValuesOf, Split, Find, SortedUnique;
    ok, values := true, [];
    var start := 0;
    ghost var parts := [];
    assert text[0..] == text && [] + Split(text, ',') == Split(text, ',');
    NothingRead(low, high);
    while start <= |text|
      invariant start <= |text| + 1
      invariant if start <= |text| then Split(text, ',') == parts + Split(text[start..], ',')
                else Split(text, ',') == parts
      invariant ValuesOf(parts, low, high) == Some(values)
      decreases |text| + 1 - start
    {
      PartSplit(text, parts, start, ',');
      var part := text[start..][..Find(text[start..], ',')];
      var more: seq<nat>;
      ok, more := ParsePart(part, low, high, values);
      if !ok {
        Unreadable(Split(text, ','), |parts|, low, high);
        return false, [];
      }
      PartReads(parts, part, low, high);
      parts := parts + [part];
      values := more;
      start := start + |part| + 1;
    }
    values := SortedUnique(values);
  }

  lemma NothingRead(low: nat, high: nat)
    ensures ValuesOf([], low, high) == Some([])
  {}

  lemma Unreadable(parts: seq<string>, i: nat, low: nat, high: nat)
    requires i < |parts| && MemberOf(parts[i], low, high).None?
    ensures ValuesOf(parts, low, high).None?
  {
    EveryPartReads(parts, low, high);
  }

  lemma LastDropped(fields: seq<string>, rest: string)
    ensures var all := fields + [rest];
            all[|all| - 1] == rest && all[..|all| - 1] == fields
  {}

  /** The text between spaces, as they come. */
  method SplitFields(text: string) returns (fields: seq<string>)
    ensures fields == FieldsOf(text)
  {
    hide Split, Find;
    fields := [];
    var start := 0;
    assert text[0..] == text && [] + Split(text, ' ') == Split(text, ' ');
    while Find(text[start..], ' ') < |text| - start
      invariant start <= |text|
      invariant Split(text, ' ') == fields + Split(text[start..], ' ')
      decreases |text| - start
    {
      PartSplit(text, fields, start, ' ');
      var part := text[start..][..Find(text[start..], ' ')];
      fields := fields + [part];
      start := start + |part| + 1;
    }
    var rest := text[start..];
    PartSplit(text, fields, start, ' ');
    assert rest[..Find(rest, ' ')] == rest;
    LastDropped(fields, rest);
    if start < |text| {
      fields := fields + [rest];
    }
  }

  class TriggerConfig {
    var cron: Cron

    constructor ()
      ensures cron == Cron([], [], [], [], [], [])
    {
      cron := Cron([], [], [], [], [], []);
    }

    method CronString() returns (text: string)
      ensures text == CronText(cron)
    {
      hide FieldText;
      var seconds := SerializeField(cron.seconds, 0, 60);
      var minutes := SerializeField(cron.minutes, 0, 59);
      var hours := SerializeField(cron.hours, 0, 23);
      var daysOfMonth := SerializeField(cron.daysOfMonth, 1, 31);
      var months := SerializeField(cron.months, 1, 12);
      var daysOfWeek := SerializeField(cron.daysOfWeek, 1, 7);
      var texts := [seconds, minutes, hours, daysOfMonth, months, daysOfWeek];
      text := Join(texts, ' ');
    }

    /** Fills the fields; on failure what they hold is not to be used. */
    method Deserialize(text: string) returns (ok: bool)
      modifies this
      ensures ok <==> ReadCron(text).Some?
      ensures ok ==> cron == ReadCron(text).value && ValidCron(cron)
    {
      hide ReadField, FieldsOf, ValidCron;
      AcceptedCronIsValid(text);
      var fields := SplitFields(text);
      if |fields| != 6 {
        return false;
      }
      var seconds, minutes, hours, daysOfMonth, months, daysOfWeek;
      ok, seconds := DeserializeField(fields[0], 0, 60);
      if !ok {
        return false;
      }
      ok, minutes := DeserializeField(fields[1], 0, 59);
      if !ok {
        return false;
      }
      ok, hours := DeserializeField(fields[2], 0, 23);
      if !ok {
        return false;
      }
      ok, daysOfMonth := DeserializeField(fields[3], 1, 31);
      if !ok {
        return false;
      }
      ok, months := DeserializeField(fields[4], 1, 12);
      if !ok {
        return false;
      }
      ok, daysOfWeek := DeserializeField(fields[5], 1, 7);
      if !ok {
        return false;
      }
      cron := Cron(seconds, minutes, hours, daysOfMonth, months, daysOfWeek);
      NoFieldIsEmpty(cron);
      if seconds == [] || minutes == [] || hours == [] || daysOfMonth == [] || months == [] || daysOfWeek == [] {
        return false;
      }
    }
  }

  lemma NoFieldIsEmpty(c: Cron)
    ensures ValidCron(c) ==>
              && c.seconds != [] && c.minutes != [] && c.hours != []
              && c.daysOfMonth != [] && c.months != [] && c.daysOfWeek != []
  {}
}
