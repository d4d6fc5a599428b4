/** The runs of the automation rules (components/automations/runtime_automation.cpp:326-510, 588-614).

    A switch action may synchronously fire any rule again, the one being stepped included, so the
    machine keeps its own call stack: one frame for each `step_` that is under way. Only the top frame
    moves, and while it plays an action any rule may fire on top of it. Everything else waits for an
    empty stack: the scheduler's timers and the edits of the rules. */
module RuleMachine {
  /** A rule's id has to leave 4 bits of a 32-bit timer id for the run. */
  const MAX_RULE_ID: nat := 0xFFF_FFFF
  const MAX_RUNS: nat := 8
  const SLOTS: nat := 16

  datatype Action = SwitchAction | Delay(ms: nat) | ClimateAction

  datatype Mode = Single | Restart | Parallel

  datatype Run = Run(slot: nat, cursor: nat, branch: seq<Action>, hasState: bool, state: bool)

  /** `obj` tells apart the objects built one after another for one rule id. */
  datatype Rule = Rule(
    obj: nat, mode: Mode, enabled: bool, thenActions: seq<Action>, elseActions: seq<Action>,
    runs: map<nat, Run>, lastToken: nat)

  /** What a pending timer calls: a step of one run of one rule object, `ms` after it was set. */
  datatype Timer = Timer(rule: nat, obj: nat, token: nat, ms: nat)

  /** A `step_` under way; `playing` while its action has the control. */
  datatype Frame = Frame(rule: nat, obj: nat, token: nat, scheduled: bool, playing: bool)

  /** A step a run has got past. */
  datatype Played = Played(obj: nat, token: nat, index: nat)

  datatype Engine = Engine(
    rules: map<nat, Rule>, timers: map<nat, Timer>, stack: seq<Frame>, nextObj: nat, log: seq<Played>)

  const EMPTY := Engine(map[], map[], [], 0, [])

  function TimerId(rule: nat, slot: nat): nat {
    rule * SLOTS + slot
  }

  /** Timer ids fit 32 bits and never collide, within a rule or across rules. */
  lemma TimerIdsDiffer(r: nat, s: nat, q: nat, t: nat)
    requires s < SLOTS && t < SLOTS && r <= MAX_RULE_ID
    ensures TimerId(r, s) < 0x1_0000_0000
    ensures TimerId(r, s) == TimerId(q, t) <==> r == q && s == t
  {}

  function Capacity(mode: Mode): nat {
    if mode.Parallel? then MAX_RUNS else 1
  }

  // --- Starting and stopping runs ---

  function SlotsOf(runs: map<nat, Run>): set<nat> {
    set t | t in runs :: runs[t].slot
  }

  function FreeSlotFrom(runs: map<nat, Run>, slot: nat): nat
    decreases SLOTS - slot
  {
    if slot >= SLOTS then 0
    else if slot !in SlotsOf(runs) then slot
    else FreeSlotFrom(runs, slot + 1)
  }

  function Stopped(e: Engine, r: nat): Engine
    requires r in e.rules
  {
    var cancelled := set t | t in e.rules[r].runs :: TimerId(r, e.rules[r].runs[t].slot);
    e.(timers := e.timers - cancelled, rules := e.rules[r := e.rules[r].(runs := map[])])
  }

  /** Every run of the rule takes the state of an edge its mode refuses. */
  function Noted(rule: Rule, state: bool): Rule {
    rule.(runs := map t | t in rule.runs :: rule.runs[t].(hasState := true, state := state))
  }

  predicate Refuses(rule: Rule) {
    rule.runs != map[] && (rule.mode.Single? || (rule.mode.Parallel? && |rule.runs| >= MAX_RUNS))
  }

  function Launched(e: Engine, r: nat, branch: seq<Action>, hasState: bool, state: bool): Engine
    requires r in e.rules
  {
    var rule := e.rules[r];
    var token := rule.lastToken + 1;
    var run := Run(FreeSlotFrom(rule.runs, 0), 0, branch, hasState, state);
    e.(rules := e.rules[r := rule.(runs := rule.runs[token := run], lastToken := token)],
       stack := e.stack + [Frame(r, rule.obj, token, false, false)])
  }

  /** What a start goes on from: a restart ends the run there is. */
  function Made(e: Engine, r: nat): (g: Engine)
    requires r in e.rules
    ensures r in g.rules
  {
    if e.rules[r].mode.Restart? && e.rules[r].runs != map[] then Stopped(e, r) else e
  }

  function Started(e: Engine, r: nat, hasState: bool, state: bool, otherwise: bool): Engine
    requires r in e.rules
  {
    var rule := e.rules[r];
    if Refuses(rule) then
      (if rule.mode.Single? && hasState then e.(rules := e.rules[r := Noted(rule, state)]) else e)
    else
      Launched(Made(e, r), r, if otherwise then rule.elseActions else rule.thenActions, hasState, state)
  }

  // --- Stepping the top frame ---

  function Top(e: Engine): Frame
    requires e.stack != []
  {
    e.stack[|e.stack| - 1]
  }

  function Popped(e: Engine): Engine
    requires e.stack != []
  {
    e.(stack := e.stack[..|e.stack| - 1])
  }

  function WithRun(e: Engine, r: nat, token: nat, run: Run): Engine
    requires r in e.rules
  {
    e.(rules := e.rules[r := e.rules[r].(runs := e.rules[r].runs[token := run])])
  }

  /** One turn of the loop in `step_`. */
  function Stepped(e: Engine): Engine
    requires e.stack != [] && !Top(e).playing && Top(e).rule in e.rules
  {
    var f := Top(e);
    var rule := e.rules[f.rule];
    if f.token !in rule.runs then Popped(e)
    else
      var run := rule.runs[f.token];
      if run.cursor >= |run.branch| then
        Popped(e.(rules := e.rules[f.rule := rule.(runs := rule.runs - {f.token})]))
      else
        var action := run.branch[run.cursor];
        var waitForLoop := action.ClimateAction? && !f.scheduled;
        var next := if waitForLoop then run else run.(cursor := run.cursor + 1);
        var log := if waitForLoop then e.log else e.log + [Played(f.obj, f.token, run.cursor)];
        var moved := WithRun(e, f.rule, f.token, next).(log := log);
        if action.Delay? || waitForLoop then
          Popped(moved.(timers := e.timers[TimerId(f.rule, run.slot) :=
                                           Timer(f.rule, f.obj, f.token, if waitForLoop then 0 else action.ms)]))
        else
          moved.(stack := e.stack[..|e.stack| - 1] + [f.(playing := true)])
  }

  // --- Events ---

  datatype Event =
    | Fire(rule: nat, hasState: bool, state: bool, condition: bool)
    | RunNow(rule: nat)
    | Step
    | ActionReturns
    | TimerFires(timer: nat)
    | SetEnabled(rule: nat, on: bool)
    | Build(rule: nat, mode: Mode, on: bool, thenActions: seq<Action>, elseActions: seq<Action>)
    | Drop(rule: nat)

  /** Whether `v` can happen now: a rule fires from a callback at any time no loop of `step_` has the
      control; timers and edits wait for an empty stack. */
  predicate Possible(e: Engine, v: Event) {
    match v
    case Fire(r, _, _, _) => r in e.rules && e.rules[r].enabled && (e.stack == [] || Top(e).playing)
    case RunNow(r) => r in e.rules && e.stack == []
    case Step => e.stack != [] && !Top(e).playing && Top(e).rule in e.rules
    case ActionReturns => e.stack != [] && Top(e).playing
    case TimerFires(t) => e.stack == [] && t in e.timers
    case SetEnabled(r, _) => e.stack == [] && r in e.rules
    case Build(r, _, _, _, _) => e.stack == [] && 1 <= r <= MAX_RULE_ID
    case Drop(r) => e.stack == [] && r in e.rules
  }

  function Dropped(e: Engine, r: nat): Engine
    requires r in e.rules
  {
    var stopped := Stopped(e, r);
    stopped.(rules := stopped.rules - {r})
  }

  function Happened(e: Engine, v: Event): Engine {
    if !Possible(e, v) then e
    else
      match v
      case Fire(r, hasState, state, condition) => Started(e, r, hasState, state, !condition)
      case RunNow(r) => Started(e, r, false, false, false)
      case Step => Stepped(e)
      case ActionReturns => e.(stack := e.stack[..|e.stack| - 1] + [Top(e).(playing := false)])
      case TimerFires(t) =>
        var timer := e.timers[t];
        e.(timers := e.timers - {t}, stack := [Frame(timer.rule, timer.obj, timer.token, true, false)])
      case SetEnabled(r, on) =>
        var stopped := if on then e else Stopped(e, r);
        stopped.(rules := stopped.rules[r := stopped.rules[r].(enabled := on)])
      case Build(r, mode, on, thenActions, elseActions) =>
        var gone := if r in e.rules then Dropped(e, r) else e;
        gone.(rules := gone.rules[r := Rule(gone.nextObj, mode, on, thenActions, elseActions, map[], 0)],
              nextObj := gone.nextObj + 1)
      case Drop(r) => Dropped(e, r)
  }

  function After(e: Engine, vs: seq<Event>): Engine
    decreases |vs|
  {
    if vs == [] then e else After(Happened(e, vs[0]), vs[1..])
  }
}
