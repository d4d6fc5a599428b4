/** One relay held by one thermostat: the timed state machine that drives it while anything else
    may flip the same switch at any moment (components/climate_hub/relay_claim.cpp).

    `Driven` is the claim's memory together with the switch it drives. The functions say what each
    operation does to the pair; class `RelayClaim` performs the same operations in place. */
module RelayClaims {
  import opened Options

  /** At so many moves a relay counts as contested. */
  const CONTEST_MOVES: nat := 5
  /** A claim left alone this long starts counting anew. */
  const CONTEST_QUIET_MS: nat := 10 * 60 * 1000
  /** No two put-backs of one demand come closer than this. */
  const PUT_BACK_FLOOR_MS: nat := 10 * 1000

  datatype RelayWait = NoWait | MinOn | MinOff

  datatype RelaySwitching = RelaySwitching(on: bool, ms: nat)

  datatype Claim = Claim(
    minOn: nat, minOff: nat, lastChange: nat, putBack: nat, moves: nat, wait: RelayWait,
    moved: bool, state: bool, initialized: bool, pending: bool, unseen: bool)

  const NEW_CLAIM := Claim(0, 0, 0, 0, 0, NoWait, false, false, false, false, true)

  datatype Driven = Driven(claim: Claim, relay: bool)

  // --- What every operation keeps ---

  /** A move is counted, or waits for its put-back, only after one went back at once. */
  predicate Consistent(c: Claim) {
    c.pending || c.moves > 0 ==> c.moved
  }

  /** The claim's clock readings are in the past. */
  predicate Past(c: Claim, now: nat) {
    c.lastChange <= now && c.putBack <= now
  }

  // --- What each operation does ---

  function WithDwell(c: Claim, minOn: nat, minOff: nat): Claim {
    c.(minOn := minOn, minOff := minOff)
  }

  predicate Quiet(c: Claim, now: nat) {
    !c.pending && now - c.putBack >= CONTEST_QUIET_MS
  }

  predicate Contested(c: Claim, now: nat) {
    c.moves >= CONTEST_MOVES && !Quiet(c, now)
  }

  function Forgotten(c: Claim): Claim {
    c.(moves := 0, moved := false)
  }

  function ForgottenIfQuiet(c: Claim, now: nat): Claim {
    if c.moved && Quiet(c, now) then Forgotten(c) else c
  }

  function Settled(c: Claim, now: nat): Claim {
    if c.pending then c.(pending := false, putBack := now) else c
  }

  function Applied(d: Driven, on: bool, now: nat): Driven {
    Driven(Settled(d.claim, now).(state := on, lastChange := now, initialized := true), on)
  }

  /** How long the relay has to stay where the claim's `state` has it. */
  function DwellOf(c: Claim): nat {
    var dwell := if c.state then c.minOn else c.minOff;
    if c.pending && dwell < PUT_BACK_FLOOR_MS then PUT_BACK_FLOOR_MS else dwell
  }

  predicate DwellOver(c: Claim, now: nat) {
    now - c.lastChange >= DwellOf(c)
  }

  function MoveSettled(d: Driven, want: bool, now: nat, paced: bool): Driven {
    var c := d.claim;
    var movedTo := !c.state;
    if want == movedTo && DwellOver(c, now) then
      Applied(d, want, now)
    else if paced && c.moved then
      var kept := c.(state := movedTo, lastChange := now);
      if want == movedTo then d.(claim := Settled(kept, now))
      else d.(claim := kept.(pending := true, moves := kept.moves + 1))
    else
      var counted :=
        if c.unseen then c
        else if want != movedTo then c.(moved := true, moves := c.moves + 1)
        else c.(moved := true);
      var back := Applied(d.(claim := counted), c.state, now);
      back.(claim := back.claim.(putBack := now))
  }

  function WaitOf(c: Claim, want: bool): RelayWait {
    if c.state == want || c.pending then NoWait else if c.state then MinOn else MinOff
  }

  function Requested(d: Driven, want: bool, now: nat): (r: Driven)
    ensures r.relay == r.claim.state && r.claim.initialized && !r.claim.unseen
    ensures Consistent(d.claim) ==> Consistent(r.claim)
    ensures Past(d.claim, now) ==> Past(r.claim, now)
  {
    var c := ForgottenIfQuiet(d.claim, now);
    var seen := d.(claim := c);
    var done :=
      if !c.initialized then Applied(seen, want, now)
      else if d.relay != c.state then MoveSettled(seen, want, now, true)
      else if want != c.state then (if DwellOver(c, now) then Applied(seen, want, now) else seen)
      else seen.(claim := Settled(c, now));
    done.(claim := done.claim.(unseen := false, wait := WaitOf(done.claim, want)))
  }

  /** Unpaced, the relay is open afterwards whatever the claim remembers and whoever moved it;
      paced, it stays closed only while a put-back waits out its dwell. */
  function ForcedOff(d: Driven, now: nat, paced: bool): (r: Driven)
    ensures r.relay == r.claim.state && !r.claim.unseen
    ensures Consistent(d.claim) ==> Consistent(r.claim)
    ensures Past(d.claim, now) ==> Past(r.claim, now)
    ensures !paced ==> !r.relay
    ensures Consistent(d.claim) && r.relay ==> r.claim.pending && r.claim.moved
  {
    var c := ForgottenIfQuiet(d.claim, now);
    var seen := d.(claim := c);
    var done :=
      if !d.relay then (if c.state then Applied(seen, false, now) else seen.(claim := Settled(c, now)))
      else if !c.state then MoveSettled(seen, false, now, paced)
      else if !paced || !c.pending || DwellOver(c, now) then Applied(seen, false, now)
      else seen;
    done.(claim := done.claim.(unseen := false, wait := NoWait))
  }

  function Resumed(c: Claim, last: RelaySwitching): Claim {
    Forgotten(c).(state := last.on, lastChange := last.ms, initialized := true,
                  pending := false, unseen := true, wait := NoWait)
  }

  function HandedOver(c: Claim): Claim {
    Forgotten(c).(pending := false, unseen := true, wait := NoWait)
  }

  function LastSwitching(c: Claim): Option<RelaySwitching> {
    if c.initialized then Some(RelaySwitching(c.state, c.lastChange)) else None
  }

  // --- Pacing against an adversary ---

  /** What may happen to a claim whose thermostat keeps one demand: the switch is flipped from
      elsewhere, the thermostat passes over it (as `request`, or in mode off as a paced
      `force_off`), or a Save changes the dwell. */
  datatype Event = Flip | Pass(ms: nat) | OffPass(ms: nat) | Redwell(minOn: nat, minOff: nat)

  function Performed(d: Driven, want: bool, e: Event): Driven {
    match e
    case Flip => d.(relay := !d.relay)
    case Pass(ms) => Requested(d, want, ms)
    case OffPass(ms) => ForcedOff(d, ms, true)
    case Redwell(minOn, minOff) => d.(claim := WithDwell(d.claim, minOn, minOff))
  }

  /** The claim moved the relay. */
  predicate PutsBack(d: Driven, want: bool, e: Event) {
    !e.Flip? && Performed(d, want, e).relay != d.relay
  }

  function TimeOf(e: Event, clock: nat): nat {
    if e.Pass? || e.OffPass? then e.ms else clock
  }

  /** When the claim moved the relay, over a whole run. */
  function PutBacks(d: Driven, want: bool, es: seq<Event>): seq<nat>
    decreases |es|
  {
    if es == [] then []
    else
      var rest := PutBacks(Performed(d, want, es[0]), want, es[1..]);
      if PutsBack(d, want, es[0]) then [TimeOf(es[0], 0)] + rest else rest
  }

  /** The clock never runs back, and only a thermostat that wants the relay open passes with
      `force_off`. */
  predicate Plausible(es: seq<Event>, want: bool, clock: nat) {
    es == [] ||
    var now := TimeOf(es[0], clock);
    now >= clock && (es[0].OffPass? ==> !want) && Plausible(es[1..], want, now)
  }

  /** Past its first look, where the demand is, nothing waiting. */
  predicate Reached(c: Claim, want: bool) {
    c.initialized && !c.unseen && !c.pending && c.state == want
  }

  /** Between events of a run with one demand: `last` is the latest put-back. */
  predicate Paced(c: Claim, want: bool, clock: nat, last: Option<nat>) {
    && c.initialized && !c.unseen && Past(c, clock) && Consistent(c)
    && (c.pending <==> c.state != want)
    && (last.Some? ==>
          && last.value <= clock
          && (c.moved ==> c.putBack >= last.value)
          && (c.pending ==> c.lastChange >= last.value)
          && (!c.moved ==> clock >= last.value + PUT_BACK_FLOOR_MS))
  }

  lemma PacedStep(d: Driven, want: bool, e: Event, clock: nat, last: Option<nat>)
    requires Paced(d.claim, want, clock, last)
    requires TimeOf(e, clock) >= clock && (e.OffPass? ==> !want)
    ensures var now := TimeOf(e, clock);
            var r := Performed(d, want, e);
            && Paced(r.claim, want, now, if PutsBack(d, want, e) then Some(now) else last)
            && (PutsBack(d, want, e) ==>
                  r.relay == want && (last.Some? ==> now - last.value >= PUT_BACK_FLOOR_MS))
  {}

  /** Any two of `times` lie PUT_BACK_FLOOR_MS apart, and all of them that far after `last`. */
  predicate Spaced(times: seq<nat>, last: Option<nat>) {
    && (forall i :: 0 <= i < |times| && last.Some? ==> times[i] - last.value >= PUT_BACK_FLOOR_MS)
    && (forall i, j :: 0 <= i < j < |times| ==> times[j] - times[i] >= PUT_BACK_FLOOR_MS)
  }

  lemma {:induction false} PutBacksArePaced(d: Driven, want: bool, es: seq<Event>, clock: nat, last: Option<nat>)
    requires Paced(d.claim, want, clock, last) && Plausible(es, want, clock)
    ensures Spaced(PutBacks(d, want, es), last)
    decreases |es|
  {
    if es != [] {
      var e := es[0];
      PacedStep(d, want, e, clock, last);
      var next := Performed(d, want, e);
      var now := TimeOf(e, clock);
      var rest := PutBacks(next, want, es[1..]);
      if PutsBack(d, want, e) {
        PutBacksArePaced(next, want, es[1..], now, Some(now));
        assert PutBacks(d, want, es) == [now] + rest;
      } else {
        PutBacksArePaced(next, want, es[1..], now, last);
        assert PutBacks(d, want, es) == rest;
      }
    }
  }

  /** The pacing promise: once the claim is past its first look and where the demand is, any two of
      its put-backs are PUT_BACK_FLOOR_MS apart, under every interleaving of flips and passes, however
      often and whenever the switch is flipped. */
  lemma PacingHolds(d: Driven, want: bool, es: seq<Event>, clock: nat)
    requires Reached(d.claim, want) && Consistent(d.claim) && Past(d.claim, clock)
    requires Plausible(es, want, clock)
    ensures var times := PutBacks(d, want, es);
            forall i, j :: 0 <= i < j < |times| ==> times[j] - times[i] >= PUT_BACK_FLOOR_MS
  {
    PutBacksArePaced(d, want, es, clock, None);
  }

  /** The other half: a pass with nothing waiting either finds the relay at the demand or starts
      the wait, and the wait ends at the first pass once its dwell is over. */
  lemma MoveIsUndone(d: Driven, want: bool, clock: nat, last: Option<nat>, now: nat)
    requires Paced(d.claim, want, clock, last) && now >= clock
    ensures var r := Requested(d, want, now);
            && (!d.claim.pending && !d.claim.moved ==> r.relay == want)
            && (!d.claim.pending && r.relay != want ==> r.claim.pending && r.claim.lastChange == now)
            && (d.claim.pending && DwellOver(d.claim, now) ==> r.relay == want && !r.claim.pending)
  {}

  // --- When a relay counts as contested ---

  /** A pass finds the relay moved away from its demand, not just still away. */
  predicate FoundAway(d: Driven, want: bool, e: Event) {
    (e.Pass? || e.OffPass?) && d.relay != want && !d.claim.pending
  }

  function TimesAway(d: Driven, want: bool, es: seq<Event>): nat
    decreases |es|
  {
    if es == [] then 0
    else TimesAway(Performed(d, want, es[0]), want, es[1..]) + if FoundAway(d, want, es[0]) then 1 else 0
  }

  function PerformedAll(d: Driven, want: bool, es: seq<Event>): Driven
    decreases |es|
  {
    if es == [] then d else PerformedAll(Performed(d, want, es[0]), want, es[1..])
  }

  /** No pass comes as late after a put-back as to start counting anew. */
  predicate NeverQuiet(d: Driven, want: bool, es: seq<Event>)
    decreases |es|
  {
    es != [] ==>
      && (es[0].Pass? || es[0].OffPass? ==> !(d.claim.moved && Quiet(d.claim, es[0].ms)))
      && NeverQuiet(Performed(d, want, es[0]), want, es[1..])
  }

  /** A pass counts the move it finds; ten quiet minutes after the last put-back it forgets those before. */
  lemma MoveCounts(d: Driven, want: bool, e: Event, clock: nat, last: Option<nat>)
    requires Paced(d.claim, want, clock, last) && TimeOf(e, clock) >= clock && (e.OffPass? ==> !want)
    ensures var now := TimeOf(e, clock);
            var anew := (e.Pass? || e.OffPass?) && d.claim.moved && !d.claim.pending
                        && now - d.claim.putBack >= 10 * 60 * 1000;
            Performed(d, want, e).claim.moves
              == (if anew then 0 else d.claim.moves) + (if FoundAway(d, want, e) then 1 else 0)
  {}

  lemma {:induction false} MovesAreCounted(d: Driven, want: bool, es: seq<Event>, clock: nat, last: Option<nat>)
    requires Paced(d.claim, want, clock, last) && Plausible(es, want, clock) && NeverQuiet(d, want, es)
    ensures PerformedAll(d, want, es).claim.moves == d.claim.moves + TimesAway(d, want, es)
    decreases |es|
  {
    hide Performed, Paced, FoundAway;
    if es != [] {
      PacedStep(d, want, es[0], clock, last);
      MoveCounts(d, want, es[0], clock, last);
      var now := TimeOf(es[0], clock);
      var before := if PutsBack(d, want, es[0]) then Some(now) else last;
      MovesAreCounted(Performed(d, want, es[0]), want, es[1..], now, before);
    }
  }

  /** Under every interleaving without ten quiet minutes, a relay counts as contested exactly once passes have
      found it away from its demand five times, and until ten minutes after its last put-back. */
  lemma ContestedMeansFiveMoves(d: Driven, want: bool, es: seq<Event>, clock: nat, now: nat)
    requires Reached(d.claim, want) && Consistent(d.claim) && Past(d.claim, clock) && d.claim.moves == 0
    requires Plausible(es, want, clock) && NeverQuiet(d, want, es)
    ensures var c := PerformedAll(d, want, es).claim;
            Contested(c, now) <==> TimesAway(d, want, es) >= 5 && (c.pending || now - c.putBack < 10 * 60 * 1000)
  {
    MovesAreCounted(d, want, es, clock, None);
    hide PerformedAll, TimesAway;
  }

  /** Whatever is wanted: a relay put back against a move is remembered as such, so the next one waits. */
  lemma PutBackIsRemembered(d: Driven, want: bool, now: nat)
    requires d.claim.initialized && !d.claim.unseen && d.relay != d.claim.state
    ensures var r := Requested(d, want, now);
            r.relay != d.relay ==> r.claim.moved && r.claim.putBack == now
  {}

  /** A claim that carries on remembers what it was told, and waits for nothing yet. */
  lemma ResumedRemembers(c: Claim, last: RelaySwitching)
    ensures LastSwitching(Resumed(c, last)) == Some(last)
    ensures Resumed(c, last).wait.NoWait? && !Resumed(c, last).pending && HandedOver(c).wait.NoWait?
  {}

  /** What moved a relay before its thermostat's first look is nobody's count. */
  lemma FirstLookCountsNothing(c: Claim, last: RelaySwitching, relay: bool, want: bool, now: nat)
    requires c.initialized
    ensures var r := Requested(Driven(HandedOver(c), relay), want, now);
            r.claim.moves == 0 && !r.claim.moved && !r.claim.pending
    ensures var r := Requested(Driven(Resumed(c, last), relay), want, now);
            r.claim.moves == 0 && !r.claim.moved && !r.claim.pending
  {}

  // --- No short-cycling, whoever holds the relay ---

  /** A relay over its life: held or not, and what it remembers of its last switching. */
  datatype Life = Life(claim: Option<Claim>, history: Option<RelaySwitching>, relay: bool)

  const BOOT := Life(None, None, false)

  /** The steps of a life without outside moves: claims, new owners, new dwells, passes that drive the
      relay or hold it open, and releases. */
  datatype Op =
    | Claimed(minOn: nat, minOff: nat)
    | TakenOver(minOn: nat, minOff: nat)
    | Saved(minOn: nat, minOff: nat)
    | Driving(want: bool)
    | CutOut(paced: bool)
    | LetGo

  datatype TimedOp = At(ms: nat, op: Op)

  /** A claim on a relay unclaimed since boot counts it as opened at boot. */
  function FreshClaim(history: Option<RelaySwitching>): Claim {
    Resumed(NEW_CLAIM, if history.Some? then history.value else RelaySwitching(false, 0))
  }

  function Drive(l: Life, t: TimedOp): Life {
    match (t.op, l.claim)
    case (Claimed(minOn, minOff), None) =>
      l.(claim := Some(WithDwell(FreshClaim(l.history), minOn, minOff)))
    case (TakenOver(minOn, minOff), Some(c)) => l.(claim := Some(WithDwell(HandedOver(c), minOn, minOff)))
    case (Saved(minOn, minOff), Some(c)) => l.(claim := Some(WithDwell(c, minOn, minOff)))
    case (Driving(want), Some(c)) =>
      var r := Requested(Driven(c, l.relay), want, t.ms);
      l.(claim := Some(r.claim), relay := r.relay)
    case (CutOut(paced), Some(c)) =>
      var r := ForcedOff(Driven(c, l.relay), t.ms, paced);
      l.(claim := Some(r.claim), relay := r.relay)
    case (LetGo, Some(c)) =>
      var r := ForcedOff(Driven(c, l.relay), t.ms, false);
      Life(None, LastSwitching(r.claim), r.relay)
    case _ => l
  }

  /** A run with what an observer of the contacts sees: when they last opened and closed. */
  datatype Watched = Watched(life: Life, openedAt: nat, closedAt: nat, clock: nat)

  function Watch(w: Watched, t: TimedOp): Watched {
    var next := Drive(w.life, t);
    Watched(next,
            if w.life.relay && !next.relay then t.ms else w.openedAt,
            if !w.life.relay && next.relay then t.ms else w.closedAt,
            t.ms)
  }

  function Lived(ts: seq<TimedOp>): Watched {
    if ts == [] then Watched(BOOT, 0, 0, 0) else Watch(Lived(ts[..|ts| - 1]), ts[|ts| - 1])
  }

  predicate Forward(ts: seq<TimedOp>) {
    forall i :: 0 < i < |ts| ==> ts[i - 1].ms <= ts[i].ms
  }

  /** What a claim remembers is what happened. */
  predicate Truthful(w: Watched) {
    && w.openedAt <= w.clock && w.closedAt <= w.clock
    && match w.life.claim
       case None =>
         && !w.life.relay
         && (w.life.history.None? ==> w.openedAt == 0)
         && (w.life.history.Some? ==> !w.life.history.value.on && w.life.history.value.ms == w.openedAt)
       case Some(c) =>
         && c.initialized && !c.pending && !c.moved && c.moves == 0
         && c.state == w.life.relay
         && c.lastChange == (if c.state then w.closedAt else w.openedAt)
  }

  lemma LifeStep(w: Watched, t: TimedOp)
    requires Truthful(w) && w.clock <= t.ms
    ensures var next := Watch(w, t);
            && Truthful(next)
            && (!w.life.relay && next.life.relay ==>
                  w.life.claim.Some? && t.ms - w.openedAt >= w.life.claim.value.minOff)
            && (w.life.relay && !next.life.relay && t.op.Driving? ==>
                  w.life.claim.Some? && t.ms - w.closedAt >= w.life.claim.value.minOn)
  {}

  lemma {:induction false} ClaimsAreTruthful(ts: seq<TimedOp>)
    requires Forward(ts)
    ensures Truthful(Lived(ts)) && Lived(ts).clock == (if ts == [] then 0 else ts[|ts| - 1].ms)
  {
    if ts != [] {
      ClaimsAreTruthful(ts[..|ts| - 1]);
      LifeStep(Lived(ts[..|ts| - 1]), ts[|ts| - 1]);
    }
  }

  /** Nothing else moving the relay, it closes only once it has been open, or the device up, for the
      min_off then in force, and a pass opens it only once it has been closed for min_on: over any
      sequence of claims, passes, cut-outs, Saves, take-overs and releases. */
  lemma NeverShortCycles(ts: seq<TimedOp>, next: TimedOp)
    requires Forward(ts) && (ts != [] ==> ts[|ts| - 1].ms <= next.ms)
    ensures var before := Lived(ts);
            var after := Lived(ts + [next]);
            && (!before.life.relay && after.life.relay ==>
                  && before.life.claim.Some?
                  && next.ms - before.openedAt >= before.life.claim.value.minOff)
            && (before.life.relay && !after.life.relay && next.op.Driving? ==>
                  && before.life.claim.Some?
                  && next.ms - before.closedAt >= before.life.claim.value.minOn)
  {
    ClaimsAreTruthful(ts);
    LifeStep(Lived(ts), next);
    assert (ts + [next])[..|ts|] == ts;
  }

  datatype Dwells = Dwells(minOn: nat, minOff: nat)

  /** The dwell a relay was last given. */
  function DwellsGiven(ts: seq<TimedOp>): Option<Dwells> {
    if ts == [] then None
    else
      match ts[|ts| - 1].op
      case Claimed(minOn, minOff) =>
        if Lived(ts[..|ts| - 1]).life.claim.None? then Some(Dwells(minOn, minOff)) else DwellsGiven(ts[..|ts| - 1])
      case TakenOver(minOn, minOff) => Some(Dwells(minOn, minOff))
      case Saved(minOn, minOff) => Some(Dwells(minOn, minOff))
      case _ => DwellsGiven(ts[..|ts| - 1])
  }

  /** The dwell in force is the one last given: with the claim, the take-over or a Save. */
  lemma {:induction false} DwellIsTheLastGiven(ts: seq<TimedOp>)
    ensures var claim := Lived(ts).life.claim;
            claim.Some? ==> DwellsGiven(ts) == Some(Dwells(claim.value.minOn, claim.value.minOff))
  {
    if ts != [] {
      DwellIsTheLastGiven(ts[..|ts| - 1]);
      DriveKeepsDwell(Lived(ts[..|ts| - 1]).life, ts[|ts| - 1]);
      hide Drive;
    }
  }

  lemma DriveKeepsDwell(l: Life, t: TimedOp)
    ensures var claim := Drive(l, t).claim;
            claim.Some? ==>
              match t.op
              case Claimed(minOn, minOff) =>
                if l.claim.None? then claim.value.minOn == minOn && claim.value.minOff == minOff else claim == l.claim
              case TakenOver(minOn, minOff) => claim.value.minOn == minOn && claim.value.minOff == minOff
              case Saved(minOn, minOff) => claim.value.minOn == minOn && claim.value.minOff == minOff
              case _ =>
                && l.claim.Some?
                && claim.value.minOn == l.claim.value.minOn && claim.value.minOff == l.claim.value.minOff
  {}

  /** What a claim is waiting for, if the relay is not where its thermostat wants it. */
  function Waiting(relay: bool, want: bool): RelayWait {
    if relay == want then NoWait else if relay then MinOn else MinOff
  }

  /** How long the contact has been where it is. */
  function Rested(w: Watched, now: nat): int {
    now - if w.life.relay then w.closedAt else w.openedAt
  }

  /** The dwell in force where the contact is. */
  function Dwell(c: Claim, relay: bool): nat {
    if relay then c.minOn else c.minOff
  }

  lemma DriveFollows(w: Watched, want: bool, now: nat)
    requires Truthful(w) && w.clock <= now && w.life.claim.Some?
    ensures var next := Drive(w.life, At(now, Driving(want)));
            && (next.relay == want <==>
                  w.life.relay == want || Rested(w, now) >= Dwell(w.life.claim.value, w.life.relay))
            && next.claim.Some? && next.claim.value.wait == Waiting(next.relay, want)
            && next.claim.value.minOn == w.life.claim.value.minOn
            && next.claim.value.minOff == w.life.claim.value.minOff
  {}

  /** The other half of `NeverShortCycles`: nothing else moving the relay, a pass that drives it leaves it where
      it is wanted exactly when it was there already or has been the other way for the dwell in force, and
      otherwise says which dwell it waits for. */
  lemma DemandIsFollowed(ts: seq<TimedOp>, want: bool, now: nat)
    requires Forward(ts) && (ts != [] ==> ts[|ts| - 1].ms <= now) && Lived(ts).life.claim.Some?
    ensures var before := Lived(ts);
            var after := Lived(ts + [At(now, Driving(want))]);
            && (after.life.relay == want <==>
                  before.life.relay == want || Rested(before, now) >= Dwell(before.life.claim.value, before.life.relay))
            && after.life.claim.Some? && after.life.claim.value.wait == Waiting(after.life.relay, want)
  {
    ClaimsAreTruthful(ts);
    DriveFollows(Lived(ts), want, now);
    assert (ts + [At(now, Driving(want))])[..|ts|] == ts;
  }

  /** Held open: what is left of the claim, or remembered of it, is when the contact opened. */
  predicate LeftOpen(l: Life, openedAt: nat) {
    && !l.relay
    && (l.claim.Some? ==> !l.claim.value.state && l.claim.value.lastChange == openedAt)
    && (l.claim.None? ==> l.history == Some(RelaySwitching(false, openedAt)))
  }

  lemma DriveOpens(w: Watched, t: TimedOp)
    requires Truthful(w) && w.clock <= t.ms && w.life.claim.Some? && (t.op.CutOut? || t.op.LetGo?)
    ensures LeftOpen(Drive(w.life, t), if w.life.relay then t.ms else w.openedAt)
    ensures Drive(w.life, t).claim.None? <==> t.op.LetGo?
  {}

  /** A cut-out, paced or not, and a release leave the contact open at once, whatever dwell is in force, and
      a release hands the time on to the next claim. */
  lemma CutOutOpens(ts: seq<TimedOp>, next: TimedOp)
    requires Forward(ts) && (ts != [] ==> ts[|ts| - 1].ms <= next.ms) && Lived(ts).life.claim.Some?
    requires next.op.CutOut? || next.op.LetGo?
    ensures var after := Lived(ts + [next]);
            LeftOpen(after.life, after.openedAt) && (after.life.claim.None? <==> next.op.LetGo?)
  {
    hide LeftOpen, Truthful, Drive;
    ClaimsAreTruthful(ts);
    DriveOpens(Lived(ts), next);
    OpenIsOpen(Drive(Lived(ts).life, next), if Lived(ts).life.relay then next.ms else Lived(ts).openedAt);
    assert (ts + [next])[..|ts|] == ts;
  }

  lemma OpenIsOpen(l: Life, openedAt: nat)
    requires LeftOpen(l, openedAt)
    ensures !l.relay
  {}

  // --- The claim and its switch, in place ---

  class Switch {
    var state: bool

    constructor (on: bool)
      ensures state == on
    {
      state := on;
    }

    method TurnOn()
      modifies this
      ensures state
    {
      state := true;
    }

    method TurnOff()
      modifies this
      ensures !state
    {
      state := false;
    }
  }

  class RelayClaim {
    const sw: Switch
    var minOn: nat
    var minOff: nat
    var lastChange: nat
    var putBack: nat
    var moves: nat
    var wait: RelayWait
    var moved: bool
    var state: bool
    var initialized: bool
    var pending: bool
    var unseen: bool

    function Memory(): Claim
      reads this
    {
      Claim(minOn, minOff, lastChange, putBack, moves, wait, moved, state, initialized, pending, unseen)
    }

    function View(): Driven
      reads this, sw
    {
      Driven(Memory(), sw.state)
    }

    constructor (sw: Switch)
      ensures this.sw == sw && Memory() == NEW_CLAIM
    {
      this.sw := sw;
      minOn, minOff, lastChange, putBack, moves := 0, 0, 0, 0, 0;
      wait, moved, state, initialized, pending, unseen := NoWait, false, false, false, false, true;
    }

    predicate IsContested(now: nat)
      reads this
    {
      moves >= CONTEST_MOVES && (pending || now - putBack < CONTEST_QUIET_MS)
    }

    method SetDwell(minOn: nat, minOff: nat)
      modifies this
      ensures Memory() == WithDwell(old(Memory()), minOn, minOff)
    {
      this.minOn := minOn;
      this.minOff := minOff;
    }

    method ForgetMoves()
      modifies this
      ensures Memory() == Forgotten(old(Memory()))
    {
      moves := 0;
      moved := false;
    }

    method Settle(now: nat)
      modifies this
      ensures Memory() == Settled(old(Memory()), now)
    {
      if !pending {
        return;
      }
      pending := false;
      putBack := now;
    }

    method Apply(on: bool, now: nat)
      modifies this, sw
      ensures View() == Applied(old(View()), on, now)
    {
      Settle(now);
      state := on;
      lastChange := now;
      initialized := true;
      if on {
        sw.TurnOn();
      } else {
        sw.TurnOff();
      }
    }

    method SettleMove(want: bool, now: nat, paced: bool)
      modifies this, sw
      ensures View() == MoveSettled(old(View()), want, now, paced)
    {
      hide DwellOver;
      var movedTo := !state;
      if want == movedTo && DwellOver(Memory(), now) {
        Apply(want, now);
        return;
      }
      if paced && moved {
        state := movedTo;
        lastChange := now;
        if want == movedTo {
          Settle(now);
          return;
        }
        pending := true;
        moves := moves + 1;
        return;
      }
      if !unseen {
        moved := true;
        if want != movedTo {
          moves := moves + 1;
        }
      }
      Apply(state, now);
      putBack := now;
    }

    /** Refines `Requested`; claim and contact agree afterwards, on `at`. */
    method Request(want: bool, now: nat) returns (at: bool)
      requires Past(Memory(), now)
      modifies this, sw
      ensures View() == Requested(old(View()), want, now)
      ensures at == state == sw.state
    {
      hide MoveSettled, DwellOver, Past;
      if moved && Quiet(Memory(), now) {
        ForgetMoves();
      }
      if !initialized {
        Apply(want, now);
      } else if sw.state != state {
        SettleMove(want, now, true);
      } else if want != state {
        if DwellOver(Memory(), now) {
          Apply(want, now);
        }
      } else {
        Settle(now);
      }
      unseen := false;
      if state == want || pending {
        wait := NoWait;
      } else {
        wait := if state then MinOn else MinOff;
      }
      return state;
    }

    method ForceOff(now: nat, paced: bool)
      requires Past(Memory(), now)
      modifies this, sw
      ensures View() == ForcedOff(old(View()), now, paced)
      ensures !paced ==> !sw.state
    {
      if moved && Quiet(Memory(), now) {
        ForgetMoves();
      }
      if !sw.state {
        if state {
          Apply(false, now);
        } else {
          Settle(now);
        }
      } else if !state {
        SettleMove(false, now, paced);
      } else if !paced || !pending || DwellOver(Memory(), now) {
        Apply(false, now);
      }
      unseen := false;
      wait := NoWait;
    }

    method Resume(last: RelaySwitching)
      modifies this
      ensures Memory() == Resumed(old(Memory()), last)
    {
      state := last.on;
      lastChange := last.ms;
      initialized := true;
      ForgetMoves();
      pending := false;
      unseen := true;
      wait := NoWait;
    }

    method SetOwner()
      modifies this
      ensures Memory() == HandedOver(old(Memory()))
    {
      ForgetMoves();
      pending := false;
      unseen := true;
      wait := NoWait;
    }
  }
}
