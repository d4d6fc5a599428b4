/** What the run machine answers (components/automations/runtime_automation.cpp:326-510): when a trigger or
    a run-now comes to a run and to which, what it does to the runs there are, and what each waiting run
    waits for. */
module RuleAnswers {
  import opened RuleInvariants
  import opened RuleMachine

  // --- Starting ---

  /** A trigger that fires, or a run-now. */
  predicate Starts(v: Event) {
    v.Fire? || v.RunNow?
  }

  /** No run is live, or the mode makes room for one more. */
  predicate Room(rule: Rule) {
    || rule.runs == map[]
    || rule.mode.Restart?
    || (rule.mode.Parallel? && |rule.runs| < 8)
  }

  /** What is played: the else branch only where a condition was asked and did not hold. */
  function Chosen(rule: Rule, v: Event): seq<Action>
    requires Starts(v)
  {
    if v.Fire? && !v.condition then rule.elseActions else rule.thenActions
  }

  /** The runs that go on beside a new one. */
  function GoingOn(rule: Rule): map<nat, Run> {
    if rule.mode.Restart? then map[] else rule.runs
  }

  ghost predicate Begins(e: Engine, g: Engine, v: Event)
    requires Starts(v) && v.rule in e.rules
  {
    var rule := e.rules[v.rule];
    var token := rule.lastToken + 1;
    && token !in rule.runs && Live(g, v.rule, token)
    && var run := g.rules[v.rule].runs[token];
       && run.cursor == 0 && run.branch == Chosen(rule, v)
       && run.hasState == (v.Fire? && v.hasState) && run.state == (v.Fire? && v.state)
       && (forall t :: t in GoingOn(rule) ==> run.slot != rule.runs[t].slot)
       && g.rules == e.rules[v.rule := rule.(lastToken := token, runs := GoingOn(rule)[token := run])]
       && g.stack == e.stack + [Frame(v.rule, rule.obj, token, false, false)]
       && g.log == e.log && g.nextObj == e.nextObj
  }

  /** The timers of the runs a restart ends are gone; no other is touched. */
  ghost predicate KeepsTimers(e: Engine, g: Engine, r: nat)
    requires r in e.rules
  {
    && (forall t :: t in g.timers ==> t in e.timers && g.timers[t] == e.timers[t])
    && (forall t :: t in e.timers && (e.timers[t].rule != r || !e.rules[r].mode.Restart?) ==> t in g.timers)
    && (forall t :: t in g.timers && e.rules[r].mode.Restart? ==> g.timers[t].rule != r)
  }

  /** A refused edge leaves the engine alone, but for the runs of a single rule, which take its state. */
  ghost predicate Refused(e: Engine, g: Engine, v: Event)
    requires Starts(v) && v.rule in e.rules
  {
    var rule := e.rules[v.rule];
    if rule.mode.Single? && v.Fire? && v.hasState then
      && v.rule in g.rules
      && g == e.(rules := e.rules[v.rule := rule.(runs := g.rules[v.rule].runs)])
      && g.rules[v.rule].runs.Keys == rule.runs.Keys
      && forall t :: t in rule.runs ==> g.rules[v.rule].runs[t] == rule.runs[t].(hasState := true, state := v.state)
    else g == e
  }

  lemma RoomOrRefuses(e: Engine, r: nat)
    requires Inv(e) && r in e.rules
    ensures Room(e.rules[r]) <==> !Refuses(e.rules[r])
    ensures Room(e.rules[r]) ==> |GoingOn(e.rules[r])| < SLOTS
  {
    hide TimersOk, NoneStranded, StackOk, LogOk;
    assert RuleKnown(e, r);
  }

  /** What a launch starts from has the runs that go on, and their timers. */
  lemma MadeIs(e: Engine, r: nat)
    requires Inv(e) && r in e.rules && !Refuses(e.rules[r])
    ensures var m := Made(e, r);
            && m == e.(rules := e.rules[r := e.rules[r].(runs := GoingOn(e.rules[r]))], timers := m.timers)
            && KeepsTimers(e, m, r)
  {
    hide RulesOk, NoneStranded, StackOk, LogOk;
    var rule := e.rules[r];
    if rule.mode.Restart? && rule.runs != map[] {
      StoppedTimers(e, r);
      OthersKeepTimers(e, r);
    } else {
      assert rule == rule.(runs := GoingOn(rule));
      assert e.rules == e.rules[r := rule];
      forall t | t in e.timers && rule.mode.Restart? ensures e.timers[t].rule != r {
        assert TimerOk(e, t);
      }
    }
  }

  lemma OthersKeepTimers(e: Engine, r: nat)
    requires TimersOk(e) && RulesOk(e) && r in e.rules
    ensures forall t :: t in e.timers && e.timers[t].rule != r ==> t in Stopped(e, r).timers
    ensures forall t :: t in Stopped(e, r).timers ==> t in e.timers && Stopped(e, r).timers[t] == e.timers[t]
  {
    forall t | t in e.timers && e.timers[t].rule != r ensures t in Stopped(e, r).timers {
      assert TimerOk(e, t);
      var timer := e.timers[t];
      forall u | u in e.rules[r].runs ensures TimerId(r, e.rules[r].runs[u].slot) != t {
        assert Live(e, r, u) && Live(e, timer.rule, timer.token);
        if TimerId(r, e.rules[r].runs[u].slot) == t {
          OwnTimer(e, r, u, timer.rule, timer.token);
        }
      }
    }
  }

  lemma TokenIsFresh(e: Engine, r: nat)
    requires RulesOk(e) && r in e.rules
    ensures e.rules[r].lastToken + 1 !in e.rules[r].runs
  {
    if e.rules[r].lastToken + 1 in e.rules[r].runs {
      SlotInRange(e, r, e.rules[r].lastToken + 1);
      assert false;
    }
  }

  /** A run added, to be stepped at once. */
  ghost predicate Launches(e: Engine, g: Engine, r: nat, branch: seq<Action>, hasState: bool, state: bool)
    requires r in e.rules
  {
    var rule := e.rules[r];
    var token := rule.lastToken + 1;
    && r in g.rules && token in g.rules[r].runs
    && var run := g.rules[r].runs[token];
       && run.cursor == 0 && run.branch == branch && run.hasState == hasState && run.state == state
       && (forall t :: t in rule.runs ==> run.slot != rule.runs[t].slot)
       && g == e.(rules := e.rules[r := rule.(lastToken := token, runs := rule.runs[token := run])],
                  stack := e.stack + [Frame(r, rule.obj, token, false, false)])
  }

  lemma LaunchIs(e: Engine, r: nat, branch: seq<Action>, hasState: bool, state: bool)
    requires r in e.rules && |e.rules[r].runs| < SLOTS
    ensures Launches(e, Launched(e, r, branch, hasState, state), r, branch, hasState, state)
  {
    FreeSlotFound(e.rules[r].runs, 0);
    hide FreeSlotFrom;
  }

  /** Made ready and launched, seen as one. */
  lemma LaunchBegins(e: Engine, m: Engine, g: Engine, v: Event)
    requires Starts(v) && v.rule in e.rules && e.rules[v.rule].lastToken + 1 !in e.rules[v.rule].runs
    requires m == e.(rules := e.rules[v.rule := e.rules[v.rule].(runs := GoingOn(e.rules[v.rule]))], timers := m.timers)
    requires Launches(m, g, v.rule, Chosen(e.rules[v.rule], v), v.Fire? && v.hasState, v.Fire? && v.state)
    ensures Begins(e, g, v) && g.timers == m.timers
  {
    hide Chosen;
    var rule := e.rules[v.rule];
    assert m.rules[v.rule] == rule.(runs := GoingOn(rule));
    var last := g.rules[v.rule];
    assert e.rules[v.rule := m.rules[v.rule]][v.rule := last] == e.rules[v.rule := last];
  }

  lemma TimersKept(e: Engine, m: Engine, g: Engine, r: nat)
    requires r in e.rules && KeepsTimers(e, m, r) && g.timers == m.timers
    ensures KeepsTimers(e, g, r)
  {}

  lemma StartedBegins(e: Engine, v: Event)
    requires Inv(e) && Starts(v) && v.rule in e.rules && !Refuses(e.rules[v.rule])
    ensures var g := Started(e, v.rule, v.Fire? && v.hasState, v.Fire? && v.state, v.Fire? && !v.condition);
            Begins(e, g, v) && KeepsTimers(e, g, v.rule)
  {
    hide Inv, Made, Launched, Refuses, Begins, KeepsTimers, Launches, GoingOn, Room;
    var m := Made(e, v.rule);
    var rule := e.rules[v.rule];
    MadeIs(e, v.rule);
    RoomOrRefuses(e, v.rule);
    InvRules(e);
    TokenIsFresh(e, v.rule);
    var g := Launched(m, v.rule, Chosen(rule, v), v.Fire? && v.hasState, v.Fire? && v.state);
    LaunchIs(m, v.rule, Chosen(rule, v), v.Fire? && v.hasState, v.Fire? && v.state);
    LaunchBegins(e, m, g, v);
    TimersKept(e, m, g, v.rule);
  }

  lemma InvRules(e: Engine)
    requires Inv(e)
    ensures RulesOk(e) && TimersOk(e)
  {}

  lemma StartedRefused(e: Engine, v: Event)
    requires Starts(v) && v.rule in e.rules && Refuses(e.rules[v.rule])
    ensures Refused(e, Started(e, v.rule, v.Fire? && v.hasState, v.Fire? && v.state, v.Fire? && !v.condition), v)
  {}

  /** A trigger or a run-now starts a run exactly when no run of the rule is live, or the mode is restart, or it
      is parallel with fewer than eight. The run begins at the first step of its branch, the else branch only
      for a condition that did not hold, with the trigger's state; the runs there are go on beside it, or end
      with their timers where it restarts. Refused, nothing changes but the state a single rule's run has. */
  lemma StartAnswers(e: Engine, v: Event)
    requires Inv(e) && Starts(v) && Possible(e, v)
    ensures var g := Happened(e, v);
            if Room(e.rules[v.rule]) then Begins(e, g, v) && KeepsTimers(e, g, v.rule) else Refused(e, g, v)
  {
    hide Inv, Started, Refuses, Begins, KeepsTimers, Refused;
    RoomOrRefuses(e, v.rule);
    HappenedStarts(e, v);
    if Room(e.rules[v.rule]) {
      StartedBegins(e, v);
    } else {
      StartedRefused(e, v);
    }
  }

  lemma HappenedStarts(e: Engine, v: Event)
    requires Starts(v) && Possible(e, v)
    ensures v.rule in e.rules
    ensures Happened(e, v) == Started(e, v.rule, v.Fire? && v.hasState, v.Fire? && v.state, v.Fire? && !v.condition)
  {
    hide Started;
  }

  // --- What a waiting run waits for ---

  /** The run stands behind the delay the timer was set for, or before a thermostat step that waits for
      the loop. */
  ghost predicate WaitsRight(e: Engine, t: nat)
    requires t in e.timers
  {
    var timer := e.timers[t];
    Live(e, timer.rule, timer.token) &&
    var run := e.rules[timer.rule].runs[timer.token];
    || (0 < run.cursor <= |run.branch| && run.branch[run.cursor - 1] == Delay(timer.ms))
    || (timer.ms == 0 && run.cursor < |run.branch| && run.branch[run.cursor].ClimateAction?)
  }

  ghost predicate AllWaitRight(e: Engine) {
    forall t :: t in e.timers ==> WaitsRight(e, t)
  }

  /** Timer and run are as they were. */
  ghost predicate WaitsOn(e: Engine, g: Engine, t: nat)
    requires t in g.timers
  {
    && t in e.timers && g.timers[t] == e.timers[t]
    && var timer := g.timers[t];
       && Live(e, timer.rule, timer.token) && Live(g, timer.rule, timer.token)
       && g.rules[timer.rule].runs[timer.token].cursor == e.rules[timer.rule].runs[timer.token].cursor
       && g.rules[timer.rule].runs[timer.token].branch == e.rules[timer.rule].runs[timer.token].branch
  }

  lemma WaitingOn(e: Engine, g: Engine)
    requires AllWaitRight(e) && forall t :: t in g.timers ==> WaitsOn(e, g, t)
    ensures AllWaitRight(g)
  {
    forall t | t in g.timers ensures WaitsRight(g, t) {
      assert WaitsOn(e, g, t) && WaitsRight(e, t);
    }
  }

  lemma StartedWaits(e: Engine, v: Event)
    requires Inv(e) && Inv(Happened(e, v)) && Starts(v) && Possible(e, v) && AllWaitRight(e)
    ensures AllWaitRight(Happened(e, v))
  {
    hide Inv, Happened, Room, Begins, KeepsTimers, Refused, WaitsOn, TimersOk, RulesOk, AllWaitRight;
    var g := Happened(e, v);
    StartAnswers(e, v);
    InvRules(e);
    TokenIsFresh(e, v.rule);
    InvRules(g);
    forall t | t in g.timers ensures WaitsOn(e, g, t) {
      if Room(e.rules[v.rule]) {
        BegunWaitsOn(e, g, v, t);
      } else {
        RefusedWaitsOn(e, g, v, t);
      }
    }
    WaitingOn(e, g);
  }

  lemma BegunWaitsOn(e: Engine, g: Engine, v: Event, t: nat)
    requires Starts(v) && v.rule in e.rules && Begins(e, g, v) && KeepsTimers(e, g, v.rule) && TimersOk(e)
    requires t in g.timers
    ensures WaitsOn(e, g, t)
  {
    hide Chosen;
    assert TimerOk(e, t);
  }

  lemma RefusedWaitsOn(e: Engine, g: Engine, v: Event, t: nat)
    requires Starts(v) && v.rule in e.rules && Refused(e, g, v) && TimersOk(e) && t in g.timers
    ensures WaitsOn(e, g, t)
  {
    assert TimerOk(e, t);
  }

  /** A turn touches no timer but its own run's, which it sets for the step it comes to. */
  lemma SteppedWaits(e: Engine)
    requires Inv(e) && e.stack != [] && !Top(e).playing && Top(e).rule in e.rules && AllWaitRight(e)
    requires Inv(Stepped(e))
    ensures AllWaitRight(Stepped(e))
  {
    var f := Top(e);
    var g := Stepped(e);
    TopIsOwn(e);
    forall t | t in g.timers ensures WaitsRight(g, t) {
      SteppedWaitsAt(e, t);
    }
  }

  lemma SteppedWaitsAt(e: Engine, t: nat)
    requires Inv(e) && e.stack != [] && !Top(e).playing && Top(e).rule in e.rules && AllWaitRight(e)
    requires Inv(Stepped(e)) && t in Stepped(e).timers
    ensures WaitsRight(Stepped(e), t)
  {
    hide LogOk, RulesOk, NoneStranded;
    var f := Top(e);
    var g := Stepped(e);
    TopIsOwn(e);
    assert TimerOk(g, t);
    if t in e.timers && g.timers[t] == e.timers[t] && (g.timers[t].obj, g.timers[t].token) != (f.obj, f.token) {
      assert WaitsRight(e, t);
    }
  }

  lemma OthersWait(e: Engine, v: Event)
    requires Inv(e) && Inv(Happened(e, v)) && AllWaitRight(e) && !Starts(v) && !v.Step? && Possible(e, v)
    ensures AllWaitRight(Happened(e, v))
  {
    hide LogOk, RulesOk, NoneStranded, StackOk;
    var g := Happened(e, v);
    forall t | t in g.timers ensures WaitsOn(e, g, t) {
      assert TimerOk(g, t);
      assert t in e.timers;
      assert TimerOk(e, t);
    }
    WaitingOn(e, g);
  }

  lemma HappenedWaits(e: Engine, v: Event)
    requires Inv(e) && AllWaitRight(e)
    ensures Inv(Happened(e, v)) && AllWaitRight(Happened(e, v))
  {
    hide Inv, AllWaitRight;
    HappenedKeeps(e, v);
    if Possible(e, v) {
      if Starts(v) {
        StartedWaits(e, v);
      } else if v.Step? {
        SteppedWaits(e);
      } else {
        OthersWait(e, v);
      }
    }
  }

  /** In every reachable state each timer is set for just the wait its run has come to. */
  lemma {:induction false} EveryTimerIsItsRuns(e: Engine, vs: seq<Event>)
    requires Inv(e) && AllWaitRight(e)
    ensures Inv(After(e, vs)) && AllWaitRight(After(e, vs))
    decreases |vs|
  {
    hide Inv, AllWaitRight, Happened;
    if vs != [] {
      HappenedWaits(e, vs[0]);
      EveryTimerIsItsRuns(Happened(e, vs[0]), vs[1..]);
    }
  }

  lemma ReachableWaitsRight(vs: seq<Event>)
    ensures AllWaitRight(After(EMPTY, vs))
  {
    ReachableIsSound([]);
    assert After(EMPTY, []) == EMPTY;
    EveryTimerIsItsRuns(EMPTY, vs);
  }

  // --- A turn ---

  /** The action is played in this turn: a switch always, a thermostat only from the scheduler. */
  predicate PlaysNow(f: Frame, action: Action) {
    action.SwitchAction? || (action.ClimateAction? && f.scheduled)
  }

  /** A turn of a live run: at its end the run goes. An action that is played keeps the control until it
      returns: rules may fire from it, and no further turn comes before. A delay, or a thermostat met inside a
      callback, gives the frame up, and the run goes on from its timer: past the delay, at the thermostat. */
  lemma TurnAnswers(e: Engine)
    requires Inv(e) && e.stack != [] && !Top(e).playing && Live(e, Top(e).rule, Top(e).token)
    ensures var f := Top(e);
            var run := e.rules[f.rule].runs[f.token];
            var g := Stepped(e);
            if run.cursor >= |run.branch| then !Live(g, f.rule, f.token) && |g.stack| == |e.stack| - 1
            else
              var action := run.branch[run.cursor];
              && Live(g, f.rule, f.token)
              && g.rules[f.rule].runs[f.token].cursor
                   == run.cursor + (if PlaysNow(f, action) || action.Delay? then 1 else 0)
              && (PlaysNow(f, action) ==>
                    && |g.stack| == |e.stack| && Possible(g, ActionReturns) && !Possible(g, Step)
                    && forall r, s, x, c :: r in g.rules && g.rules[r].enabled ==> Possible(g, Fire(r, s, x, c)))
              && (!PlaysNow(f, action) ==>
                    && |g.stack| == |e.stack| - 1 && TimerId(f.rule, run.slot) in g.timers
                    && g.timers[TimerId(f.rule, run.slot)]
                         == Timer(f.rule, f.obj, f.token, if action.Delay? then action.ms else 0))
  {
    hide RulesOk, TimersOk, NoneStranded, StackOk, LogOk;
    TopIsOwn(e);
  }
}
