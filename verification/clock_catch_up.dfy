/** Seconds fired to the rules as the clock is read now and then
    (components/automations/automation_storage.cpp). */
module ClockCatchUp {
  import opened Options
  import opened Orders

  /** Two readings farther apart are a clock set anew, not time that passed. */
  const MAX_DRIFT: nat := 900

  datatype Reading = Reading(valid: bool, now: nat)

  /** The seconds from `first` to before `end`. */
  function Seconds(first: nat, end: nat): (r: seq<nat>)
    ensures |r| == if first <= end then end - first else 0
    ensures forall i :: 0 <= i < |r| ==> r[i] == first + i
    decreases if first <= end then end - first else 0
  {
    if first >= end then [] else Seconds(first, end - 1) + [end - 1]
  }

  predicate JumpsBack(last: Option<nat>, r: Reading) {
    r.valid && last.Some? && last.value > r.now && last.value - r.now > MAX_DRIFT
  }

  predicate JumpsAhead(last: Option<nat>, r: Reading) {
    r.valid && last.Some? && r.now > last.value && r.now - last.value > MAX_DRIFT
  }

  /** A reading no later than the last, or none at all, changes nothing. */
  predicate Ignored(last: Option<nat>, r: Reading) {
    !r.valid || (last.Some? && last.value >= r.now && !JumpsBack(last, r))
  }

  function LastAfter(last: Option<nat>, r: Reading): Option<nat> {
    if Ignored(last, r) then last else Some(r.now)
  }

  function FiredBy(last: Option<nat>, r: Reading): seq<nat> {
    if Ignored(last, r) || JumpsAhead(last, r) then []
    else if last.None? || JumpsBack(last, r) then [r.now]
    else Seconds(last.value + 1, r.now + 1)
  }

  function LastOf(last: Option<nat>, rs: seq<Reading>): Option<nat> {
    if rs == [] then last else LastAfter(LastOf(last, rs[..|rs| - 1]), rs[|rs| - 1])
  }

  function Fired(last: Option<nat>, rs: seq<Reading>): seq<nat> {
    if rs == [] then []
    else Fired(last, rs[..|rs| - 1]) + FiredBy(LastOf(last, rs[..|rs| - 1]), rs[|rs| - 1])
  }

  /** A reading up to a quarter of an hour ahead fires the seconds in between, one farther ahead none; one as far back
      or less is waited out, one farther back is where it goes on from. */
  lemma ReadingAnswers(last: nat, now: nat)
    ensures var r := Reading(true, now);
            var fired, after := FiredBy(Some(last), r), LastAfter(Some(last), r);
            && (last < now <= last + 900 ==> fired == Seconds(last + 1, now + 1) && after == Some(now))
            && (now > last + 900 ==> fired == [] && after == Some(now))
            && (now <= last <= now + 900 ==> fired == [] && after == Some(last))
            && (last > now + 900 ==> fired == [now] && after == Some(now))
  {}

  /** No reading of `rs` jumps back. */
  predicate NeverBack(last: Option<nat>, rs: seq<Reading>) {
    rs != [] ==> NeverBack(last, rs[..|rs| - 1]) && !JumpsBack(LastOf(last, rs[..|rs| - 1]), rs[|rs| - 1])
  }

  predicate NeverJumps(last: Option<nat>, rs: seq<Reading>) {
    rs != [] ==>
      && NeverJumps(last, rs[..|rs| - 1])
      && !JumpsBack(LastOf(last, rs[..|rs| - 1]), rs[|rs| - 1])
      && !JumpsAhead(LastOf(last, rs[..|rs| - 1]), rs[|rs| - 1])
  }

  /** Increasing, after `last` and up to `now`, as far as there are such readings. */
  predicate FiredBetween(s: seq<nat>, last: Option<nat>, now: Option<nat>) {
    && Increasing(s)
    && (last.Some? ==> After(s, last.value) && now.Some? && now.value >= last.value)
    && (now.Some? ==> UpTo(s, now.value))
    && (now.None? ==> s == [])
  }

  predicate After(s: seq<nat>, last: nat) {
    forall i :: 0 <= i < |s| ==> s[i] > last
  }

  predicate UpTo(s: seq<nat>, now: nat) {
    forall i :: 0 <= i < |s| ==> s[i] <= now
  }

  lemma FiredByIncreases(last: Option<nat>, r: Reading)
    requires !JumpsBack(last, r)
    ensures FiredBetween(FiredBy(last, r), last, LastAfter(last, r))
  {}

  lemma FiredJoins(a: seq<nat>, b: seq<nat>, last: Option<nat>, mid: Option<nat>, now: Option<nat>)
    requires FiredBetween(a, last, mid) && FiredBetween(b, mid, now)
    ensures FiredBetween(a + b, last, now)
  {
    var s := a + b;
    forall i | 0 <= i < |s| ensures s[i] == if i < |a| then a[i] else b[i - |a|] {}
  }

  /** Between jumps back, whatever else the clock does, no second fires twice or out of order, and
      none at or before the reading it began at. */
  lemma {:induction false} FiredIncreases(last: Option<nat>, rs: seq<Reading>)
    requires NeverBack(last, rs)
    ensures FiredBetween(Fired(last, rs), last, LastOf(last, rs))
    decreases |rs|
  {
    hide FiredBetween, FiredBy, LastAfter;
    if rs != [] {
      var init, r := rs[..|rs| - 1], rs[|rs| - 1];
      var before := LastOf(last, init);
      FiredIncreases(last, init);
      FiredByIncreases(before, r);
      FiredJoins(Fired(last, init), FiredBy(before, r), last, before, LastAfter(before, r));
    } else {
      NothingFired(last);
    }
  }

  lemma NothingFired(last: Option<nat>)
    ensures FiredBetween([], last, last)
  {}

  lemma SecondsJoin(a: nat, b: nat, c: nat)
    requires a <= b <= c
    ensures Seconds(a, b) + Seconds(b, c) == Seconds(a, c)
  {
    var whole := Seconds(a, b) + Seconds(b, c);
    assert |whole| == c - a;
    assert forall i :: 0 <= i < |whole| ==> whole[i] == a + i;
  }

  /** Without jumps every second after the reading it began at, up to the last accepted one, fires
      exactly once and in order, however the readings in between wander. */
  lemma {:induction false} EverySecondFiresOnce(last: nat, rs: seq<Reading>)
    requires NeverJumps(Some(last), rs)
    ensures LastOf(Some(last), rs).Some? && LastOf(Some(last), rs).value >= last
    ensures Fired(Some(last), rs) == Seconds(last + 1, LastOf(Some(last), rs).value + 1)
    decreases |rs|
  {
    if rs != [] {
      var init := rs[..|rs| - 1];
      var r := rs[|rs| - 1];
      EverySecondFiresOnce(last, init);
      var before := LastOf(Some(last), init);
      StepFires(last, before.value, r);
      assert Fired(Some(last), rs) == Fired(Some(last), init) + FiredBy(before, r);
      assert LastOf(Some(last), rs) == LastAfter(before, r);
      hide FiredBy, LastAfter, Seconds;
    }
  }

  lemma StepFires(last: nat, before: nat, r: Reading)
    requires last <= before && !JumpsBack(Some(before), r) && !JumpsAhead(Some(before), r)
    ensures var after := LastAfter(Some(before), r).value;
            && after >= before
            && Seconds(last + 1, before + 1) + FiredBy(Some(before), r) == Seconds(last + 1, after + 1)
  {
    hide Seconds;
    if !Ignored(Some(before), r) {
      SecondsJoin(last + 1, before + 1, r.now + 1);
    }
  }

  /** `r` is a jump ahead from `last` over `second`. */
  predicate JumpsOver(last: Option<nat>, r: Reading, second: nat) {
    JumpsAhead(last, r) && last.value < second <= r.now
  }

  /** One of the readings jumps ahead over `second`. */
  predicate Skipped(last: Option<nat>, rs: seq<Reading>, second: nat) {
    rs != [] &&
    (Skipped(last, rs[..|rs| - 1], second) || JumpsOver(LastOf(last, rs[..|rs| - 1]), rs[|rs| - 1], second))
  }

  lemma FiredByUnlessJumped(last: nat, r: Reading, second: nat)
    requires !JumpsBack(Some(last), r) && last < second
    ensures second in FiredBy(Some(last), r) <==>
              second <= LastAfter(Some(last), r).value && !JumpsOver(Some(last), r, second)
  {
    var s := FiredBy(Some(last), r);
    if second <= LastAfter(Some(last), r).value && !JumpsOver(Some(last), r, second) {
      assert s[second - last - 1] == second;
    }
  }

  /** As long as the clock is not set back, a second after the reading it began at and up to the last
      accepted one fires exactly unless a jump ahead passes over it. */
  lemma {:induction false} FiredUnlessJumped(last: nat, rs: seq<Reading>, second: nat)
    requires NeverBack(Some(last), rs) && last < second
    ensures LastOf(Some(last), rs).Some? && LastOf(Some(last), rs).value >= last
    ensures second in Fired(Some(last), rs) <==>
              second <= LastOf(Some(last), rs).value && !Skipped(Some(last), rs, second)
    ensures Skipped(Some(last), rs, second) ==> second <= LastOf(Some(last), rs).value
    decreases |rs|
  {
    hide FiredBetween, FiredBy, LastAfter, JumpsOver;
    if rs != [] {
      var init, r := rs[..|rs| - 1], rs[|rs| - 1];
      FiredUnlessJumped(last, init, second);
      var before := LastOf(Some(last), init).value;
      StepUnlessJumped(before, r, second);
    }
  }

  lemma StepUnlessJumped(before: nat, r: Reading, second: nat)
    requires !JumpsBack(Some(before), r)
    ensures var after := LastAfter(Some(before), r);
            && after.Some? && after.value >= before
            && (second > before ==> (second in FiredBy(Some(before), r) <==>
                                       second <= after.value && !JumpsOver(Some(before), r, second)))
            && (second <= before ==> second !in FiredBy(Some(before), r) && !JumpsOver(Some(before), r, second))
            && (JumpsOver(Some(before), r, second) ==> second <= after.value)
  {
    if second > before {
      FiredByUnlessJumped(before, r, second);
    }
  }

  lemma {:induction false} FiredSplits(last: Option<nat>, a: seq<Reading>, b: seq<Reading>)
    ensures LastOf(last, a + b) == LastOf(LastOf(last, a), b)
    ensures Fired(last, a + b) == Fired(last, a) + Fired(LastOf(last, a), b)
    decreases |b|
  {
    hide FiredBy, LastAfter;
    if b == [] {
      assert a + b == a;
    } else {
      FiredSplits(last, a, b[..|b| - 1]);
      assert (a + b)[..|a + b| - 1] == a + b[..|b| - 1];
    }
  }

  /** A jump back fires the second it lands on, and from there the clock goes on as one that began there. */
  lemma BackJumpStartsOver(last: Option<nat>, before: seq<Reading>, r: Reading, after: seq<Reading>)
    requires JumpsBack(LastOf(last, before), r)
    ensures Fired(last, before + [r] + after) == Fired(last, before) + [r.now] + Fired(Some(r.now), after)
  {
    FiredSplits(last, before, [r]);
    FiredSplits(last, before + [r], after);
    assert [r][..0] == [];
    var was := LastOf(last, before);
    assert LastOf(was, [r]) == Some(r.now) && Fired(was, [r]) == [r.now];
    hide Fired, LastOf;
  }

  lemma FiresUpTo(last: Option<nat>, now: nat, was: seq<nat>, before: seq<nat>, fired: seq<nat>)
    requires !Ignored(last, Reading(true, now)) && !JumpsAhead(last, Reading(true, now))
    requires before == was + if last.None? || last.value > now then [] else Seconds(last.value + 1, now)
    requires fired == before + [now]
    ensures fired == was + FiredBy(last, Reading(true, now))
  {
    if last.Some? && last.value <= now {
      assert Seconds(last.value + 1, now + 1) == Seconds(last.value + 1, now) + [now];
    }
  }

  class RuleClock {
    var lastCheck: Option<nat>
    /** The seconds fired to the rules so far. */
    var fired: seq<nat>

    constructor ()
      ensures lastCheck == None && fired == []
    {
      lastCheck := None;
      fired := [];
    }

    method Fire(second: nat)
      modifies this`fired
      ensures fired == old(fired) + [second]
    {
      fired := fired + [second];
    }

    method CheckTime(now: nat, valid: bool)
      modifies this
      ensures lastCheck == LastAfter(old(lastCheck), Reading(valid, now))
      ensures fired == old(fired) + FiredBy(old(lastCheck), Reading(valid, now))
    {
      if !valid {
        return;
      }
      if lastCheck.Some? {
        var last := lastCheck.value;
        if last > now && last - now > MAX_DRIFT {
          // Goes on below, where the loop ends at once.
        } else if last >= now {
          return;
        } else if now - last > MAX_DRIFT {
          lastCheck := Some(now);
          return;
        }
        ghost var first := last + 1;
        while true
          invariant lastCheck == old(lastCheck)
          invariant if old(lastCheck).value > now then last == first - 1 else first - 1 <= last < now
          invariant fired == old(fired) + if last > now then [] else Seconds(first, last + 1)
          decreases now as int - last as int
        {
          last := last + 1;
          if last >= now {
            break;
          }
          Fire(last);
          assert Seconds(first, last + 1) == Seconds(first, last) + [last];
        }
        assert fired == old(fired) + if old(lastCheck).value > now then [] else Seconds(first, now);
      }
      lastCheck := Some(now);
      ghost var before := fired;
      Fire(now);
      FiresUpTo(old(lastCheck), now, old(fired), before, fired);
    }
  }
}
