/** When a rule's triggers fire and its condition holds (components/automations/runtime_automation.cpp).
    A reading that is no number is absent. */
module RuleTriggers {
  import opened Options

  const CLICK_MIN_MS: nat := 200
  const CLICK_MAX_MS: nat := 1000

  // --- Temperatures ---

  datatype Zone = Below(threshold: real) | Above(threshold: real) | Range(low: real, high: real)

  predicate Inside(z: Zone, value: real) {
    match z
    case Below(threshold) => value < threshold
    case Above(threshold) => value > threshold
    case Range(low, high) => value >= low && value <= high
  }

  /** A threshold divides the readings: below it or above it, and on it neither. A range is what lies neither below
      its lower end nor above its upper one. */
  lemma ZonesDivide(low: real, high: real, value: real)
    ensures value < low ==> Inside(Below(low), value) && !Inside(Above(low), value)
    ensures value > low ==> Inside(Above(low), value) && !Inside(Below(low), value)
    ensures !Inside(Below(low), low) && !Inside(Above(low), low)
    ensures Inside(Range(low, high), value) <==> !Inside(Below(low), value) && !Inside(Above(high), value)
  {}

  /** What lets it fire again. */
  predicate Rearms(z: Zone, value: real) {
    match z
    case Below(threshold) => value >= threshold
    case Above(threshold) => value <= threshold
    case Range(_, _) => !Inside(z, value)
  }

  predicate Fires(z: Zone, armed: bool, value: Option<real>) {
    value.Some? && armed && Inside(z, value.value)
  }

  function ArmedAfter(z: Zone, armed: bool, value: Option<real>): bool {
    if value.None? then armed
    else if armed && Inside(z, value.value) then false
    else armed || Rearms(z, value.value)
  }

  function Armed(z: Zone, armed: bool, readings: seq<Option<real>>): bool {
    if readings == [] then armed
    else ArmedAfter(z, Armed(z, armed, readings[..|readings| - 1]), readings[|readings| - 1])
  }

  /** Reading `i` is the last before the end that is a number. */
  predicate LastNumber(readings: seq<Option<real>>, i: nat) {
    i < |readings| && readings[i].Some? && forall j :: i < j < |readings| ==> readings[j].None?
  }

  /** Armed is: outside the zone at the last reading that was a number, or as it began without one. */
  lemma {:induction false} ArmedMeansOutside(z: Zone, armed: bool, readings: seq<Option<real>>)
    ensures forall i: nat :: LastNumber(readings, i) ==>
              (Armed(z, armed, readings) <==> !Inside(z, readings[i].value))
    ensures (forall i :: 0 <= i < |readings| ==> readings[i].None?) ==> Armed(z, armed, readings) == armed
    decreases |readings|
  {
    if readings != [] {
      var n := |readings| - 1;
      var before := readings[..n];
      ArmedMeansOutside(z, armed, before);
      forall i: nat | LastNumber(readings, i) && i < n
        ensures LastNumber(before, i) && before[i] == readings[i]
      {
        assert readings[n].None?;
      }
    }
  }

  /** A temperature trigger fires exactly when its zone is entered: on a reading inside it, the last
      number before which lay outside. Readings that are no number neither fire nor arm. */
  lemma FiresOnEntry(z: Zone, armed: bool, readings: seq<Option<real>>, value: Option<real>, i: nat)
    requires LastNumber(readings, i)
    ensures Fires(z, Armed(z, armed, readings), value) <==>
              value.Some? && Inside(z, value.value) && !Inside(z, readings[i].value)
  {
    ArmedMeansOutside(z, armed, readings);
  }

  // --- Clicks ---

  /** An edge of an input, or its level put in step without one. */
  datatype Edge = Press(ms: nat) | Release(ms: nat) | Level

  datatype Clicking = Clicking(pressed: bool, since: nat)

  function Followed(c: Clicking, e: Edge): Clicking {
    match e
    case Press(ms) => Clicking(true, ms)
    case Release(_) => c.(pressed := false)
    case Level => c.(pressed := false)
  }

  predicate Clicks(c: Clicking, e: Edge) {
    e.Release? && c.pressed && e.ms >= c.since && CLICK_MIN_MS <= e.ms - c.since <= CLICK_MAX_MS
  }

  function After(c: Clicking, es: seq<Edge>): Clicking {
    if es == [] then c else Followed(After(c, es[..|es| - 1]), es[|es| - 1])
  }

  /** Pressed is: the last edge was the press it counts from. */
  lemma PressedMeans(c: Clicking, es: seq<Edge>)
    requires es != []
    ensures After(c, es).pressed <==> es[|es| - 1].Press?
    ensures es[|es| - 1].Press? ==> After(c, es).since == es[|es| - 1].ms
  {}

  /** A click is a press and the release right after it, 200 to 1000 ms later. */
  lemma ClickIsPressAndRelease(c: Clicking, es: seq<Edge>, e: Edge)
    requires es != []
    ensures var last := es[|es| - 1];
            Clicks(After(c, es), e) <==>
              e.Release? && last.Press? && last.ms + CLICK_MIN_MS <= e.ms <= last.ms + CLICK_MAX_MS
  {
    PressedMeans(c, es);
  }

  // --- Conditions ---

  datatype Condition =
    | Input(sensor: nat, expected: bool)
    | Temperature(sensor: nat, low: Option<real>, high: Option<real>)
    | And(subs: seq<Condition>)
    | Or(subs: seq<Condition>)
    | Xor(subs: seq<Condition>)
    | Never

  /** What the inputs and sensors say; an input without a state reads false. */
  datatype World = World(inputs: map<nat, bool>, readings: map<nat, real>)

  function Reading(w: World, sensor: nat): Option<real> {
    if sensor in w.readings then Some(w.readings[sensor]) else None
  }

  predicate InputIs(w: World, sensor: nat, expected: bool) {
    (sensor in w.inputs && w.inputs[sensor]) == expected
  }

  /** Without a lower end: below the upper one; without an upper: above the lower; with both, the range
      with its ends. */
  predicate InBounds(value: Option<real>, low: Option<real>, high: Option<real>) {
    value.Some? &&
    if low.None? then high.Some? && value.value < high.value
    else if high.None? then value.value > low.value
    else low.value <= value.value && value.value <= high.value
  }

  function Hits(w: World, subs: seq<Condition>): nat
    decreases subs
  {
    if subs == [] then 0
    else Hits(w, subs[..|subs| - 1]) + if Holds(w, subs[|subs| - 1]) then 1 else 0
  }

  predicate Holds(w: World, c: Condition)
    decreases c
  {
    match c
    case Input(sensor, expected) => InputIs(w, sensor, expected)
    case Temperature(sensor, low, high) => InBounds(Reading(w, sensor), low, high)
    case And(subs) => forall i :: 0 <= i < |subs| ==> Holds(w, subs[i])
    case Or(subs) => exists i :: 0 <= i < |subs| && Holds(w, subs[i])
    case Xor(subs) => Hits(w, subs) == 1
    case Never => false
  }

  function Ones(bs: seq<bool>): nat {
    if bs == [] then 0 else Ones(bs[..|bs| - 1]) + if bs[|bs| - 1] then 1 else 0
  }

  predicate OnlyAt(bs: seq<bool>, i: nat) {
    i < |bs| && bs[i] && forall j :: 0 <= j < |bs| && j != i ==> !bs[j]
  }

  lemma {:induction false} OnesMeans(bs: seq<bool>)
    ensures Ones(bs) == 0 <==> forall i :: 0 <= i < |bs| ==> !bs[i]
    ensures Ones(bs) == 1 <==> exists i: nat :: OnlyAt(bs, i)
    decreases |bs|
  {
    if bs != [] {
      var n := |bs| - 1;
      var init := bs[..n];
      OnesMeans(init);
      assert forall i :: 0 <= i < n ==> init[i] == bs[i];
      if i: nat :| OnlyAt(init, i) && !bs[n] {
        assert OnlyAt(bs, i);
      }
      if Ones(init) == 0 && bs[n] {
        assert OnlyAt(bs, n);
      }
      if i: nat :| OnlyAt(bs, i) && i < n {
        assert OnlyAt(init, i);
      }
    }
  }

  function Truths(w: World, subs: seq<Condition>): (bs: seq<bool>)
    ensures |bs| == |subs| && forall i :: 0 <= i < |bs| ==> bs[i] == Holds(w, subs[i])
  {
    seq(|subs|, i requires 0 <= i < |subs| => Holds(w, subs[i]))
  }

  lemma {:induction false} HitsAreOnes(w: World, subs: seq<Condition>)
    ensures Hits(w, subs) == Ones(Truths(w, subs))
    decreases |subs|
  {
    hide Holds;
    if subs != [] {
      var n := |subs| - 1;
      HitsAreOnes(w, subs[..n]);
      assert Truths(w, subs)[..n] == Truths(w, subs[..n]);
    }
  }

  /** Exclusive or over any number of conditions: exactly one of them holds. */
  lemma XorIsExactlyOne(w: World, subs: seq<Condition>)
    ensures Holds(w, Xor(subs)) <==> exists i: nat :: OnlyAt(Truths(w, subs), i)
  {
    assert Holds(w, Xor(subs)) <==> Hits(w, subs) == 1;
    hide Holds;
    HitsAreOnes(w, subs);
    OnesMeans(Truths(w, subs));
  }

  lemma {:induction false} AllAreOnes(bs: seq<bool>)
    ensures Ones(bs) <= |bs| && (Ones(bs) == |bs| <==> forall i :: 0 <= i < |bs| ==> bs[i])
    decreases |bs|
  {
    if bs != [] {
      AllAreOnes(bs[..|bs| - 1]);
    }
  }

  /** A group is decided by how many of its conditions hold: all, at least one, or exactly one. */
  lemma GroupsCount(w: World, subs: seq<Condition>)
    ensures Holds(w, And(subs)) <==> Ones(Truths(w, subs)) == |subs|
    ensures Holds(w, Or(subs)) <==> Ones(Truths(w, subs)) >= 1
    ensures Holds(w, Xor(subs)) <==> Ones(Truths(w, subs)) == 1
    ensures !Holds(w, Never)
  {
    GroupHolds(w, subs);
    HitsAreOnes(w, subs);
    hide Holds;
    AllAreOnes(Truths(w, subs));
    OnesMeans(Truths(w, subs));
  }

  lemma GroupHolds(w: World, subs: seq<Condition>)
    ensures Holds(w, And(subs)) <==> forall i :: 0 <= i < |subs| ==> Holds(w, subs[i])
    ensures Holds(w, Or(subs)) <==> exists i :: 0 <= i < |subs| && Holds(w, subs[i])
    ensures Holds(w, Xor(subs)) <==> Hits(w, subs) == 1
    ensures !Holds(w, Never)
  {}

  /** A bound alone divides the readings, two bounds are met where neither is missed, and without a reading nothing
      is; an input is the opposite of what its opposite expects, off without a state. */
  lemma BoundsDivide(w: World, sensor: nat, low: real, high: real)
    ensures sensor in w.readings ==>
              && (Holds(w, Temperature(sensor, None, Some(low))) <==> w.readings[sensor] < low)
              && (Holds(w, Temperature(sensor, Some(high), None)) <==> w.readings[sensor] > high)
              && (Holds(w, Temperature(sensor, Some(low), Some(high))) <==>
                    && !Holds(w, Temperature(sensor, None, Some(low)))
                    && !Holds(w, Temperature(sensor, Some(high), None)))
    ensures sensor !in w.readings ==> forall a, b :: !Holds(w, Temperature(sensor, a, b))
    ensures !Holds(w, Temperature(sensor, None, None))
    ensures Holds(w, Input(sensor, true)) <==> !Holds(w, Input(sensor, false))
    ensures Holds(w, Input(sensor, true)) <==> sensor in w.inputs && w.inputs[sensor]
  {}

  method Check(w: World, c: Condition) returns (holds: bool)
    ensures holds == Holds(w, c)
    decreases c
  {
    match c
    case Input(sensor, expected) => holds := InputIs(w, sensor, expected);
    case Temperature(sensor, low, high) => holds := InBounds(Reading(w, sensor), low, high);
    case And(subs) =>
      for i := 0 to |subs|
        invariant forall j :: 0 <= j < i ==> Holds(w, subs[j])
      {
        var sub := Check(w, subs[i]);
        if !sub {
          return false;
        }
      }
      holds := true;
    case Or(subs) =>
      for i := 0 to |subs|
        invariant forall j :: 0 <= j < i ==> !Holds(w, subs[j])
      {
        var sub := Check(w, subs[i]);
        if sub {
          return true;
        }
      }
      holds := false;
    case Xor(subs) =>
      var hits := 0;
      for i := 0 to |subs|
        invariant hits == Hits(w, subs[..i])
      {
        var sub := Check(w, subs[i]);
        assert subs[..i + 1][..i] == subs[..i];
        hits := hits + if sub then 1 else 0;
      }
      assert subs[..|subs|] == subs;
      holds := hits == 1;
    case Never => holds := false;
  }

  // --- Triggers, in place ---

  class TemperatureTrigger {
    const zone: Zone
    var armed: bool

    constructor (zone: Zone)
      ensures this.zone == zone && armed
    {
      this.zone := zone;
      armed := true;
    }

    method OnSensor(value: Option<real>) returns (fires: bool)
      modifies this
      ensures fires == Fires(zone, old(armed), value) && armed == ArmedAfter(zone, old(armed), value)
    {
      if value.None? {
        return false;
      }
      var crossed := Inside(zone, value.value);
      var rearm := Rearms(zone, value.value);
      if armed && crossed {
        armed := false;
        return true;
      }
      if rearm {
        armed := true;
      }
      return false;
    }
  }

  class ClickTrigger {
    var pressed: bool
    var pressStart: nat

    function View(): Clicking
      reads this
    {
      Clicking(pressed, pressStart)
    }

    constructor ()
      ensures View() == Clicking(false, 0)
    {
      pressed, pressStart := false, 0;
    }

    method OnBinarySensor(e: Edge) returns (fires: bool)
      requires e.Release? && pressed ==> pressStart <= e.ms
      modifies this
      ensures fires == Clicks(old(View()), e) && View() == Followed(old(View()), e)
    {
      match e
      case Level => pressed := false; fires := false;
      case Press(ms) => pressed := true; pressStart := ms; fires := false;
      case Release(ms) =>
        if !pressed {
          return false;
        }
        pressed := false;
        var length := ms - pressStart;
        fires := length >= CLICK_MIN_MS && length <= CLICK_MAX_MS;
    }
  }
}
