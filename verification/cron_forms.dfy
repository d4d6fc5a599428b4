/** Which of the texts that mean a cron field is printed (components/automations/automation_config.cpp): a star, a
    stepped star or a range wherever one of them will do. */
module CronForms {
  import opened Texts
  import opened CronFields

  lemma {:induction false} ValuesAreSpaced(m: Member)
    requires m.step > 0 && m.first <= m.last
    ensures var s := Values(m);
            && s != [] && s[0] == m.first && Spaced(s, m.step)
            && s[|s| - 1] == LastStep(m.first, m.step, m.last)
            && (|s| >= 2 <==> m.first + m.step <= m.last)
    decreases m.last - m.first
  {
    var next := m.(first := m.first + m.step);
    if next.first <= m.last {
      ValuesAreSpaced(next);
      var s, rest := Values(m), Values(next);
      assert s == [m.first] + rest;
      forall i | 1 <= i < |s| ensures s[i] == s[i - 1] + m.step {
        assert s[i] == rest[i - 1];
        if i > 1 {
          assert rest[i - 1] == rest[i - 2] + m.step;
        }
      }
    }
  }

  lemma {:induction false} LastOfOnes(from: nat, last: nat)
    requires from <= last
    ensures LastStep(from, 1, last) == last
    decreases last - from
  {
    if from < last {
      LastOfOnes(from + 1, last);
    }
  }

  lemma OnesCount(s: seq<nat>, first: nat, last: nat)
    requires first <= last && s == Values(Member(first, last, 1))
    ensures |s| == last - first + 1 && forall i :: 0 <= i < |s| ==> s[i] == first + i
  {
    ValuesAreSpaced(Member(first, last, 1));
    LastOfOnes(first, last);
    forall i | 0 <= i < |s| ensures s[i] == first + i {
      SpacedFrom(s, 1, i);
    }
    SpacedFrom(s, 1, |s| - 1);
    hide Values, LastStep;
  }

  /** Everything prints as a star. */
  lemma EverythingIsAStar(low: nat, high: nat)
    requires low <= high
    ensures TextOf(Values(Member(low, high, 1)), low, high) == "*"
  {
    OnesCount(Values(Member(low, high, 1)), low, high);
  }

  /** Every `step`th value of the field as a stepped star. */
  lemma StepsAreAStar(low: nat, high: nat, step: nat)
    requires step >= 2 && low + step <= high
    ensures TextOf(Values(Member(low, high, step)), low, high) == "*/" + Decimal(step)
  {
    var s := Values(Member(low, high, step));
    ValuesAreSpaced(Member(low, high, step));
    assert s[1] == s[0] + step;
    hide Values, LastStep, Decimal;
  }

  /** Neighbours, not all of them, as a range. */
  lemma NeighboursAreARange(low: nat, high: nat, first: nat, last: nat)
    requires low <= first < last <= high && (low < first || last < high)
    ensures TextOf(Values(Member(first, last, 1)), low, high) == Decimal(first) + "-" + Decimal(last)
  {
    var s := Values(Member(first, last, 1));
    ValuesAreSpaced(Member(first, last, 1));
    OnesCount(s, first, last);
    hide Values, LastStep, Decimal;
    assert s[1] == s[0] + 1;
  }

  /** One value of several as itself. */
  lemma OneIsItself(low: nat, high: nat, v: nat)
    requires low < high
    ensures TextOf([v], low, high) == Decimal(v)
  {
    assert Numbers([v]) == Numbers([v][..0]) + [Decimal(v)];
    hide Decimal;
    assert [v][..0] == [];
  }

  /** How a field prints that one member says. */
  lemma PrintedForm(values: seq<nat>, low: nat, high: nat, m: Member)
    requires InField(values, low, high) && low < high && Within(m, low, high) && values == Values(m)
    ensures var text := FieldText(values, low, high);
            && (m == Member(low, high, 1) ==> text == "*")
            && (m.first == low && m.last == high && m.step >= 2 && |values| >= 2 ==> text == "*/" + Decimal(m.step))
            && (m.step == 1 && m.first < m.last && m != Member(low, high, 1) ==>
                  text == Decimal(m.first) + "-" + Decimal(m.last))
            && (|values| == 1 ==> text == Decimal(m.first))
  {
    hide TextOf, Decimal, Values;
    SortOfSorted(values);
    ValuesAreSpaced(m);
    if m == Member(low, high, 1) {
      EverythingIsAStar(low, high);
      OnesCount(values, low, high);
    } else if m.first == low && m.last == high && m.step >= 2 && |values| >= 2 {
      StepsAreAStar(low, high, m.step);
    } else if m.step == 1 && m.first < m.last {
      NeighboursAreARange(low, high, m.first, m.last);
    }
    if |values| == 1 {
      OneIsItself(low, high, values[0]);
      assert values == [values[0]];
    }
  }
}
