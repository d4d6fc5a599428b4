/** The handshake between a task waiting for a job and the loop task that runs it
    (components/loop_job/loop_job.h), as every interleaving of their atomic steps. */
module LoopJobs {
  const TIMEOUT_MS: nat := 5000
  const POLL_MS: nat := 2

  datatype SlotState = Pending | Running | Done | Abandoned

  /** Where the loop task is: between calls, inside the job, or with its result stored but not yet
      published. */
  datatype LoopAt = Away | InJob | ToPublish

  datatype Answer = NotRun | Result(value: bool)

  /** Where the caller is: polling, past its wait, waiting out a job that did start, or answered. */
  datatype CallerAt = Polling(waited: nat) | GivingUp | WaitingOut | Told(answer: Answer)

  /** `runs` and `finished` are what an onlooker sees: how often the job began, and what it returned. */
  datatype World = World(
    slot: SlotState, result: bool, loop: LoopAt, caller: CallerAt, runs: nat, finished: seq<bool>)

  const BEGIN := World(Pending, false, Away, Polling(0), 0, [])

  /** Steps: the loop task enters `run`, the job returns, its result is published; the caller moves on. */
  datatype Step = Enter | Return(value: bool) | Publish | Call

  function CallerMoved(w: World): World {
    match w.caller
    case Polling(waited) =>
      if w.slot.Done? || waited >= TIMEOUT_MS then w.(caller := GivingUp)
      else w.(caller := Polling(waited + POLL_MS))
    case GivingUp =>
      if w.slot.Pending? then w.(slot := Abandoned, caller := Told(NotRun)) else w.(caller := WaitingOut)
    case WaitingOut => if w.slot.Done? then w.(caller := Told(Result(w.result))) else w
    case Told(_) => w
  }

  /** A step that is not due changes nothing. The loop task may enter as often as it likes. */
  function Stepped(w: World, step: Step): World {
    match step
    case Enter =>
      if w.loop.Away? && w.slot.Pending? then w.(slot := Running, loop := InJob, runs := w.runs + 1) else w
    case Return(value) =>
      if w.loop.InJob? then w.(result := value, loop := ToPublish, finished := w.finished + [value]) else w
    case Publish => if w.loop.ToPublish? then w.(slot := Done, loop := Away) else w
    case Call => CallerMoved(w)
  }

  function After(w: World, steps: seq<Step>): World {
    if steps == [] then w else Stepped(After(w, steps[..|steps| - 1]), steps[|steps| - 1])
  }

  predicate Sound(w: World) {
    && (w.slot.Pending? || w.slot.Abandoned? ==> w.runs == 0 && w.finished == [] && w.loop.Away?)
    && (w.slot.Running? ==> w.runs == 1 && !w.loop.Away?)
    && (w.slot.Done? ==> w.runs == 1 && w.loop.Away? && w.finished == [w.result])
    && (w.loop.InJob? ==> w.finished == [])
    && (w.loop.ToPublish? ==> w.finished == [w.result])
    && (w.caller.WaitingOut? ==> w.slot.Running? || w.slot.Done?)
    && (w.slot.Abandoned? <==> w.caller == Told(NotRun))
    && (w.caller.Told? && w.caller.answer.Result? ==> w.slot.Done? && w.caller.answer.value == w.result)
  }

  lemma {:induction false} EveryInterleavingIsSound(w: World, steps: seq<Step>)
    requires Sound(w)
    ensures Sound(After(w, steps))
  {
    if steps != [] {
      EveryInterleavingIsSound(w, steps[..|steps| - 1]);
    }
  }

  lemma {:induction false} AfterJoins(w: World, a: seq<Step>, b: seq<Step>)
    ensures After(w, a + b) == After(After(w, a), b)
    decreases |b|
  {
    if b == [] {
      assert a + b == a;
    } else {
      AfterJoins(w, a, b[..|b| - 1]);
      assert (a + b)[..|a + b| - 1] == a + b[..|b| - 1];
    }
  }

  lemma {:induction false} ToldStays(w: World, steps: seq<Step>)
    requires w.caller.Told?
    ensures After(w, steps).caller == w.caller
  {
    if steps != [] {
      ToldStays(w, steps[..|steps| - 1]);
    }
  }

  /** However the two tasks interleave, and whatever comes after: the job begins at most once; a caller
      told it did not run is right for ever; a caller given a result was given what the finished job
      returned, and that stays the job's only result. */
  lemma TheCallerHearsTheTruth(steps: seq<Step>, later: seq<Step>)
    ensures var told := After(BEGIN, steps).caller;
            var w := After(BEGIN, steps + later);
            && w.runs <= 1
            && (told == Told(NotRun) ==> w.runs == 0 && w.finished == [])
            && (told.Told? && told.answer.Result? ==> w.runs == 1 && w.finished == [told.answer.value])
  {
    EveryInterleavingIsSound(BEGIN, steps + later);
    AfterJoins(BEGIN, steps, later);
    if After(BEGIN, steps).caller.Told? {
      ToldStays(After(BEGIN, steps), later);
    }
  }

  // --- The wait ends ---

  /** `n` more steps of the caller alone. */
  function Alone(w: World, n: nat): World
    decreases n
  {
    if n == 0 then w else Alone(CallerMoved(w), n - 1)
  }

  lemma {:induction false} PollsRunOut(w: World, waited: nat, n: nat)
    requires w.caller == Polling(waited) && w.slot.Pending?
    requires n >= 2 && waited + n * POLL_MS >= TIMEOUT_MS + 2 * POLL_MS
    ensures Alone(w, n).caller == Told(NotRun)
    decreases n
  {
    if waited >= TIMEOUT_MS {
      AloneGivesUp(w, n);
    } else {
      PollsRunOut(CallerMoved(w), waited + POLL_MS, n - 1);
    }
  }

  lemma AloneGivesUp(w: World, n: nat)
    requires w.caller.Polling? && w.caller.waited >= TIMEOUT_MS && w.slot.Pending?
    ensures n >= 2 ==> Alone(w, n).caller == Told(NotRun)
  {
    if n >= 2 {
      var given := CallerMoved(w);
      var told := CallerMoved(given);
      assert Alone(w, n) == Alone(told, n - 2);
      AloneToldStays(told, n - 2);
    }
  }

  lemma {:induction false} AloneToldStays(w: World, n: nat)
    requires w.caller.Told?
    ensures Alone(w, n) == w
  {
    if n > 0 {
      AloneToldStays(w, n - 1);
    }
  }

  /** A loop task that never comes leaves the caller waiting its five seconds and no longer; one in
      the middle of the job, until the job is published. */
  lemma TheWaitEnds(steps: seq<Step>)
    ensures var w := After(BEGIN, steps);
            && (w.slot.Pending? && w.caller.Polling? ==> Alone(w, TIMEOUT_MS / POLL_MS + 2).caller == Told(NotRun))
            && (w.caller.WaitingOut? ==> !w.loop.Away? || CallerMoved(w).caller == Told(Result(w.result)))
            && (w.slot.Done? && !w.caller.Told? ==> Alone(w, 3).caller == Told(Result(w.result)))
  {
    var w := After(BEGIN, steps);
    EveryInterleavingIsSound(BEGIN, steps);
    if w.slot.Pending? && w.caller.Polling? {
      PollsRunOut(w, w.caller.waited, TIMEOUT_MS / POLL_MS + 2);
    }
    if w.slot.Done? && !w.caller.Told? {
      var one := CallerMoved(w);
      var two := CallerMoved(one);
      var three := CallerMoved(two);
      assert Alone(w, 3) == Alone(one, 2) == Alone(two, 1) == Alone(three, 0);
    }
  }

  /** The slot itself: its atomic state, changed by compare-and-swap. */
  class LoopJobSlot {
    var state: SlotState
    var result: bool

    constructor ()
      ensures state == BEGIN.slot && result == BEGIN.result
    {
      state := Pending;
      result := false;
    }

    method CompareExchange(expected: SlotState, desired: SlotState) returns (swapped: bool)
      modifies this`state
      ensures swapped == (old(state) == expected)
      ensures state == if swapped then desired else old(state)
    {
      if state != expected {
        return false;
      }
      state := desired;
      return true;
    }

    /** Loop side, on entering `run`. */
    method Enter(ghost w: World) returns (begun: bool)
      requires w.slot == state && w.result == result && w.loop.Away?
      modifies this`state
      ensures state == Stepped(w, Step.Enter).slot && result == Stepped(w, Step.Enter).result
      ensures begun == Stepped(w, Step.Enter).loop.InJob?
    {
      begun := CompareExchange(Pending, Running);
    }

    /** Loop side, as the job returns. */
    method Return(value: bool, ghost w: World)
      requires w.slot == state && w.result == result && w.loop.InJob?
      modifies this`result
      ensures state == Stepped(w, Step.Return(value)).slot && result == Stepped(w, Step.Return(value)).result
    {
      result := value;
    }

    method Publish(ghost w: World)
      requires w.slot == state && w.result == result && w.loop.ToPublish?
      modifies this`state
      ensures state == Stepped(w, Step.Publish).slot && result == Stepped(w, Step.Publish).result
    {
      state := Done;
    }

    /** The caller's claim on the slot, against the loop's: `abandoned` is the answer `NotRun`, which
        `TheCallerHearsTheTruth` says is final. */
    method Abandon(ghost w: World) returns (abandoned: bool)
      requires w.slot == state && w.result == result && w.caller.GivingUp?
      modifies this`state
      ensures state == CallerMoved(w).slot && result == CallerMoved(w).result
      ensures abandoned == (CallerMoved(w).caller == Told(NotRun))
    {
      abandoned := CompareExchange(Pending, Abandoned);
    }
  }
}
