/** What holds of the rule machine in every reachable state, those reached from inside a switch action
    included (components/automations/runtime_automation.cpp:326-510, 588-614). */
module RuleInvariants {
  import opened RuleMachine

  // --- Slots ---

  lemma {:induction false} SlotsBound(runs: map<nat, Run>)
    ensures |SlotsOf(runs)| <= |runs|
    decreases |runs|
  {
    if runs != map[] {
      var t :| t in runs;
      var rest := runs - {t};
      assert rest.Keys == runs.Keys - {t};
      SlotsBound(rest);
      assert SlotsOf(runs) == SlotsOf(rest) + {runs[t].slot};
    } else {
      assert SlotsOf(runs) == {};
    }
  }

  function Below(n: nat): (r: set<nat>)
    ensures |r| == n && forall s: nat :: s in r <==> s < n
  {
    if n == 0 then {} else Below(n - 1) + {n - 1}
  }

  /** A full prefix of used slots needs as many runs: so below 16 runs the search always finds one. */
  lemma {:induction false} FreeSlotFound(runs: map<nat, Run>, slot: nat)
    requires |runs| < SLOTS && slot <= SLOTS
    requires forall s: nat :: s < slot ==> s in SlotsOf(runs)
    ensures var s := FreeSlotFrom(runs, slot); s < SLOTS && s !in SlotsOf(runs)
    decreases SLOTS - slot
  {
    if slot == SLOTS {
      SlotsBound(runs);
      Contained(Below(SLOTS), SlotsOf(runs));
    } else if slot in SlotsOf(runs) {
      FreeSlotFound(runs, slot + 1);
    }
  }

  lemma {:induction false} Contained(a: set<nat>, b: set<nat>)
    requires a <= b
    ensures |a| <= |b|
  {
    if a != {} {
      var x :| x in a;
      Contained(a - {x}, b - {x});
    }
  }

  // --- The invariant ---

  ghost predicate RunOk(rule: Rule, t: nat)
    requires t in rule.runs
  {
    var run := rule.runs[t];
    && 1 <= t <= rule.lastToken && run.slot < SLOTS && run.cursor <= |run.branch|
    && (run.branch == rule.thenActions || run.branch == rule.elseActions)
  }

  ghost predicate RunsOk(rule: Rule) {
    forall t :: t in rule.runs ==> RunOk(rule, t)
  }

  ghost predicate SlotsDiffer(runs: map<nat, Run>) {
    forall t, u :: t in runs && u in runs && t != u ==> runs[t].slot != runs[u].slot
  }

  /** Within its mode's capacity, with distinct tokens and slots. */
  ghost predicate RuleOk(rule: Rule) {
    |rule.runs| <= Capacity(rule.mode) && RunsOk(rule) && SlotsDiffer(rule.runs)
  }

  ghost predicate RuleKnown(e: Engine, r: nat)
    requires r in e.rules
  {
    1 <= r <= MAX_RULE_ID && e.rules[r].obj < e.nextObj && RuleOk(e.rules[r])
  }

  ghost predicate ObjectsDiffer(rules: map<nat, Rule>) {
    forall r, q :: r in rules && q in rules && r != q ==> rules[r].obj != rules[q].obj
  }

  ghost predicate RulesOk(e: Engine) {
    (forall r :: r in e.rules ==> RuleKnown(e, r)) && ObjectsDiffer(e.rules)
  }

  /** The runs whose `step_` is under way. */
  function Stepping(stack: seq<Frame>): set<(nat, nat)> {
    set f | f in stack :: (f.obj, f.token)
  }

  /** A timer belongs to a live run of a live rule that no `step_` is at, under that run's own id. */
  ghost predicate TimerOk(e: Engine, t: nat)
    requires t in e.timers
  {
    var timer := e.timers[t];
    && timer.rule in e.rules && e.rules[timer.rule].obj == timer.obj
    && timer.token in e.rules[timer.rule].runs
    && t == TimerId(timer.rule, e.rules[timer.rule].runs[timer.token].slot)
    && (timer.obj, timer.token) !in Stepping(e.stack)
  }

  ghost predicate TimersOk(e: Engine) {
    forall t :: t in e.timers ==> TimerOk(e, t)
  }

  ghost predicate Live(e: Engine, r: nat, token: nat) {
    r in e.rules && token in e.rules[r].runs
  }

  /** A live run is being stepped, or has its timer pending under its own id. */
  ghost predicate Attended(e: Engine, r: nat, token: nat)
    requires Live(e, r, token)
  {
    var id := TimerId(r, e.rules[r].runs[token].slot);
    || (e.rules[r].obj, token) in Stepping(e.stack)
    || (id in e.timers && e.timers[id] == Timer(r, e.rules[r].obj, token, e.timers[id].ms))
  }

  ghost predicate NoneStranded(e: Engine) {
    forall r, t :: Live(e, r, t) ==> Attended(e, r, t)
  }

  ghost predicate FrameOk(e: Engine, i: nat)
    requires i < |e.stack|
  {
    var f := e.stack[i];
    && f.rule in e.rules && e.rules[f.rule].obj == f.obj && f.token <= e.rules[f.rule].lastToken
    && (i < |e.stack| - 1 ==> f.playing)
    && (f.scheduled ==> i == 0)
  }

  /** Below the top every frame plays an action; no two step the same run. */
  ghost predicate StackOk(e: Engine) {
    && (forall i :: 0 <= i < |e.stack| ==> FrameOk(e, i))
    && (forall i, j :: 0 <= i < j < |e.stack| ==>
          (e.stack[i].obj, e.stack[i].token) != (e.stack[j].obj, e.stack[j].token))
  }

  /** The steps a run has got past, in the order it did. */
  function Steps(log: seq<Played>, obj: nat, token: nat): seq<nat> {
    if log == [] then []
    else
      var last := log[|log| - 1];
      Steps(log[..|log| - 1], obj, token) + if last.obj == obj && last.token == token then [last.index] else []
  }

  /** The first `n` steps, each once, in order. */
  ghost predicate Counts(xs: seq<nat>, n: nat) {
    |xs| == n && forall k :: 0 <= k < n ==> xs[k] == k
  }

  /** Every run has got past a prefix of its branch, each step once and in order. */
  ghost predicate InOrder(log: seq<Played>) {
    forall obj, t :: Counts(Steps(log, obj, t), |Steps(log, obj, t)|)
  }

  /** A live one up to its cursor. */
  ghost predicate CursorOk(e: Engine, r: nat, t: nat)
    requires Live(e, r, t)
  {
    |Steps(e.log, e.rules[r].obj, t)| == e.rules[r].runs[t].cursor
  }

  ghost predicate LogOk(e: Engine) {
    && InOrder(e.log)
    && (forall r, t :: Live(e, r, t) ==> CursorOk(e, r, t))
    && (forall r, t: nat :: r in e.rules && t > e.rules[r].lastToken ==> Steps(e.log, e.rules[r].obj, t) == [])
    && (forall obj, t :: obj >= e.nextObj ==> Steps(e.log, obj, t) == [])
  }

  ghost predicate Inv(e: Engine) {
    RulesOk(e) && TimersOk(e) && NoneStranded(e) && StackOk(e) && LogOk(e)
  }

  lemma LogGrows(log: seq<Played>, p: Played, obj: nat, token: nat)
    ensures Steps(log + [p], obj, token)
         == Steps(log, obj, token) + if p.obj == obj && p.token == token then [p.index] else []
  {
    assert (log + [p])[..|log|] == log;
  }

  lemma PoppedStepping(stack: seq<Frame>)
    requires stack != []
    requires forall i, j :: 0 <= i < j < |stack| ==> (stack[i].obj, stack[i].token) != (stack[j].obj, stack[j].token)
    ensures var top := stack[|stack| - 1];
            Stepping(stack[..|stack| - 1]) == Stepping(stack) - {(top.obj, top.token)}
  {
    var rest := stack[..|stack| - 1];
    var top := stack[|stack| - 1];
    assert stack == rest + [top];
    forall f | f in rest ensures (f.obj, f.token) != (top.obj, top.token) {
      var i :| 0 <= i < |rest| && rest[i] == f;
      assert stack[i] == f;
    }
  }

  // --- Stopping a rule ---

  lemma RuleReplaced(e: Engine, g: Engine, r: nat, rule: Rule)
    requires RulesOk(e) && r in e.rules && RuleOk(rule) && rule.obj == e.rules[r].obj
    requires g.rules == e.rules[r := rule] && g.nextObj == e.nextObj
    ensures RulesOk(g)
  {
    hide RuleOk;
    forall q | q in g.rules ensures RuleKnown(g, q) {
      assert RuleKnown(e, q) && RuleKnown(e, r);
    }
  }

  lemma StoppedRules(e: Engine, r: nat)
    requires RulesOk(e) && r in e.rules
    ensures RulesOk(Stopped(e, r))
  {
    RuleReplaced(e, Stopped(e, r), r, e.rules[r].(runs := map[]));
  }

  lemma StoppedTimers(e: Engine, r: nat)
    requires TimersOk(e) && r in e.rules
    ensures TimersOk(Stopped(e, r)) && forall t :: t in Stopped(e, r).timers ==> e.timers[t].rule != r
  {
    var g := Stopped(e, r);
    forall t | t in g.timers ensures TimerOk(g, t) && e.timers[t].rule != r {
      assert TimerOk(e, t);
    }
  }

  lemma SlotInRange(e: Engine, r: nat, t: nat)
    requires RulesOk(e) && Live(e, r, t)
    ensures e.rules[r].runs[t].slot < SLOTS && 1 <= r <= MAX_RULE_ID && 1 <= t <= e.rules[r].lastToken
  {
    assert RuleKnown(e, r) && RunOk(e.rules[r], t);
  }

  lemma StoppedStrandsNone(e: Engine, r: nat)
    requires RulesOk(e) && NoneStranded(e) && r in e.rules
    ensures NoneStranded(Stopped(e, r))
  {
    var g := Stopped(e, r);
    forall q: nat, t: nat | Live(g, q, t) ensures Attended(g, q, t) {
      assert q != r && Live(e, q, t) && Attended(e, q, t);
      SlotInRange(e, q, t);
      forall u | u in e.rules[r].runs
        ensures TimerId(r, e.rules[r].runs[u].slot) != TimerId(q, e.rules[q].runs[t].slot) {
        assert Live(e, r, u);
        SlotInRange(e, r, u);
      }
    }
  }

  lemma FramesKept(e: Engine, g: Engine)
    requires StackOk(e) && g.stack == e.stack
    requires forall r :: r in e.rules ==>
      r in g.rules && g.rules[r].obj == e.rules[r].obj && g.rules[r].lastToken >= e.rules[r].lastToken
    ensures StackOk(g)
  {
    forall i | 0 <= i < |g.stack| ensures FrameOk(g, i) {
      assert FrameOk(e, i);
    }
  }

  lemma StoppedLog(e: Engine, r: nat)
    requires LogOk(e) && r in e.rules
    ensures LogOk(Stopped(e, r))
  {
    var g := Stopped(e, r);
    forall q: nat, t: nat | Live(g, q, t) ensures CursorOk(g, q, t) {
      assert Live(e, q, t);
    }
  }

  lemma StoppedKeeps(e: Engine, r: nat)
    requires Inv(e) && r in e.rules
    ensures Inv(Stopped(e, r)) && Stopped(e, r).rules[r].runs == map[]
  {
    StoppedRules(e, r);
    StoppedTimers(e, r);
    StoppedStrandsNone(e, r);
    StoppedLog(e, r);
    hide RulesOk, TimersOk, NoneStranded, LogOk, StackOk;
    FramesKept(e, Stopped(e, r));
  }

  // --- Starting a run ---

  lemma NewRunKeepsRule(rule: Rule, run: Run)
    requires RuleOk(rule) && |rule.runs| < Capacity(rule.mode)
    requires run.slot == FreeSlotFrom(rule.runs, 0) && run.cursor == 0
    requires run.branch == rule.thenActions || run.branch == rule.elseActions
    ensures var token := rule.lastToken + 1;
            token !in rule.runs && RuleOk(rule.(runs := rule.runs[token := run], lastToken := token))
  {
    FreeSlotFound(rule.runs, 0);
    var token := rule.lastToken + 1;
    forall t | t in rule.runs ensures RunOk(rule, t) && t != token && rule.runs[t].slot in SlotsOf(rule.runs) {}
    var more := rule.(runs := rule.runs[token := run], lastToken := token);
    forall t | t in more.runs ensures RunOk(more, t) {
      if t != token {
        assert RunOk(rule, t);
      }
    }
  }

  ghost predicate Ready(e: Engine, r: nat) {
    && r in e.rules && |e.rules[r].runs| < Capacity(e.rules[r].mode)
    && (e.stack == [] || Top(e).playing)
  }

  lemma LaunchedRules(e: Engine, r: nat, branch: seq<Action>, hasState: bool, state: bool)
    requires RulesOk(e) && Ready(e, r)
    requires branch == e.rules[r].thenActions || branch == e.rules[r].elseActions
    ensures RulesOk(Launched(e, r, branch, hasState, state)) && e.rules[r].lastToken + 1 !in e.rules[r].runs
  {
    hide FreeSlotFrom, SlotsOf;
    assert RuleKnown(e, r);
    var rule := e.rules[r];
    var run := Run(FreeSlotFrom(rule.runs, 0), 0, branch, hasState, state);
    NewRunKeepsRule(rule, run);
    hide RulesOk, RuleOk;
    RuleReplaced(e, Launched(e, r, branch, hasState, state), r,
                 rule.(runs := rule.runs[rule.lastToken + 1 := run], lastToken := rule.lastToken + 1));
  }

  lemma PushedStepping(stack: seq<Frame>, f: Frame)
    ensures Stepping(stack + [f]) == Stepping(stack) + {(f.obj, f.token)}
  {
    assert forall x :: x in stack + [f] <==> x in stack || x == f;
    assert f in stack + [f];
  }

  lemma FreshToken(e: Engine, r: nat)
    requires StackOk(e) && ObjectsDiffer(e.rules) && r in e.rules
    ensures forall i :: 0 <= i < |e.stack| ==>
      (e.stack[i].obj, e.stack[i].token) != (e.rules[r].obj, e.rules[r].lastToken + 1)
    ensures (e.rules[r].obj, e.rules[r].lastToken + 1) !in Stepping(e.stack)
  {
    forall i | 0 <= i < |e.stack|
      ensures (e.stack[i].obj, e.stack[i].token) != (e.rules[r].obj, e.rules[r].lastToken + 1) {
      assert FrameOk(e, i);
    }
    forall f | f in e.stack ensures (f.obj, f.token) != (e.rules[r].obj, e.rules[r].lastToken + 1) {
      var i :| 0 <= i < |e.stack| && e.stack[i] == f;
    }
  }

  lemma LaunchedStack(e: Engine, r: nat, branch: seq<Action>, hasState: bool, state: bool)
    requires StackOk(e) && ObjectsDiffer(e.rules) && r in e.rules && (e.stack == [] || Top(e).playing)
    ensures StackOk(Launched(e, r, branch, hasState, state))
  {
    var g := Launched(e, r, branch, hasState, state);
    var n := |e.stack|;
    FreshToken(e, r);
    forall i | 0 <= i < |g.stack| ensures FrameOk(g, i) {
      if i < n {
        assert FrameOk(e, i) && g.stack[i] == e.stack[i];
      }
    }
  }

  lemma LaunchedTimers(e: Engine, r: nat, branch: seq<Action>, hasState: bool, state: bool)
    requires TimersOk(e) && ObjectsDiffer(e.rules) && r in e.rules && e.rules[r].lastToken + 1 !in e.rules[r].runs
    ensures TimersOk(Launched(e, r, branch, hasState, state))
  {
    var g := Launched(e, r, branch, hasState, state);
    PushedStepping(e.stack, g.stack[|e.stack|]);
    forall t | t in g.timers ensures TimerOk(g, t) {
      assert TimerOk(e, t);
    }
  }

  lemma LaunchedStrandsNone(e: Engine, r: nat, branch: seq<Action>, hasState: bool, state: bool)
    requires NoneStranded(e) && r in e.rules && e.rules[r].lastToken + 1 !in e.rules[r].runs
    ensures NoneStranded(Launched(e, r, branch, hasState, state))
  {
    var g := Launched(e, r, branch, hasState, state);
    PushedStepping(e.stack, g.stack[|e.stack|]);
    forall q: nat, t: nat | Live(g, q, t) ensures Attended(g, q, t) {
      if (q, t) != (r, e.rules[r].lastToken + 1) {
        assert Live(e, q, t) && Attended(e, q, t);
      }
    }
  }

  lemma LaunchedLog(e: Engine, r: nat, branch: seq<Action>, hasState: bool, state: bool)
    requires LogOk(e) && r in e.rules
    ensures LogOk(Launched(e, r, branch, hasState, state))
  {
    var g := Launched(e, r, branch, hasState, state);
    forall q: nat, t: nat | Live(g, q, t) ensures CursorOk(g, q, t) {
      if (q, t) != (r, e.rules[r].lastToken + 1) {
        assert Live(e, q, t) && CursorOk(e, q, t);
      }
    }
  }

  lemma LaunchedKeeps(e: Engine, r: nat, branch: seq<Action>, hasState: bool, state: bool)
    requires Inv(e) && Ready(e, r)
    requires branch == e.rules[r].thenActions || branch == e.rules[r].elseActions
    ensures Inv(Launched(e, r, branch, hasState, state))
  {
    assert ObjectsDiffer(e.rules);
    hide RulesOk, StackOk, TimersOk, NoneStranded, LogOk, Launched;
    LaunchedRules(e, r, branch, hasState, state);
    LaunchedStack(e, r, branch, hasState, state);
    LaunchedTimers(e, r, branch, hasState, state);
    LaunchedStrandsNone(e, r, branch, hasState, state);
    LaunchedLog(e, r, branch, hasState, state);
  }

  // --- A refused edge ---

  lemma NotedRule(rule: Rule, state: bool)
    requires RuleOk(rule)
    ensures RuleOk(Noted(rule, state)) && Noted(rule, state).runs.Keys == rule.runs.Keys
  {
    var noted := Noted(rule, state);
    assert noted.runs.Keys == rule.runs.Keys;
    assert |noted.runs.Keys| == |rule.runs.Keys|;
    forall t | t in noted.runs ensures RunOk(noted, t) {
      assert RunOk(rule, t);
    }
  }

  lemma NotedKeeps(e: Engine, r: nat, state: bool)
    requires Inv(e) && r in e.rules
    ensures Inv(e.(rules := e.rules[r := Noted(e.rules[r], state)]))
  {
    var g := e.(rules := e.rules[r := Noted(e.rules[r], state)]);
    assert RuleKnown(e, r);
    NotedRule(e.rules[r], state);
    RuleReplaced(e, g, r, Noted(e.rules[r], state));
    NotedTimers(e, g, r, state);
    hide RulesOk, RuleOk, TimersOk, NoneStranded, LogOk, StackOk, Noted;
    FramesKept(e, g);
  }

  lemma NotedTimers(e: Engine, g: Engine, r: nat, state: bool)
    requires r in e.rules && TimersOk(e) && NoneStranded(e) && LogOk(e)
    requires g == e.(rules := e.rules[r := Noted(e.rules[r], state)])
    ensures TimersOk(g) && NoneStranded(g) && LogOk(g)
  {
    forall t | t in g.timers ensures TimerOk(g, t) {
      assert TimerOk(e, t);
    }
    forall q: nat, t: nat | Live(g, q, t) ensures Attended(g, q, t) && CursorOk(g, q, t) {
      assert Live(e, q, t) && Attended(e, q, t) && CursorOk(e, q, t);
    }
  }

  /** The rule a launch finds: of the same branches, and free for one more run. */
  lemma MadeReady(e: Engine, r: nat)
    requires Inv(e) && r in e.rules && (e.stack == [] || Top(e).playing) && !Refuses(e.rules[r])
    ensures var ready := Made(e, r);
            && Inv(ready) && Ready(ready, r) && ready.rules[r] == e.rules[r].(runs := ready.rules[r].runs)
  {
    hide Inv, Stopped;
    RunsWithin(e, r);
    if e.rules[r].mode.Restart? && e.rules[r].runs != map[] {
      StoppedKeeps(e, r);
      StoppedIs(e, r);
    }
  }

  lemma RunsWithin(e: Engine, r: nat)
    requires Inv(e) && r in e.rules
    ensures |e.rules[r].runs| <= Capacity(e.rules[r].mode)
  {
    assert RuleKnown(e, r);
  }

  lemma StartedKeeps(e: Engine, r: nat, hasState: bool, state: bool, otherwise: bool)
    requires Inv(e) && r in e.rules && (e.stack == [] || Top(e).playing)
    ensures Inv(Started(e, r, hasState, state, otherwise))
  {
    hide Inv;
    var rule := e.rules[r];
    if Refuses(rule) {
      NotedKeeps(e, r, state);
    } else {
      hide Launched, Made, Ready;
      MadeReady(e, r);
      LaunchedKeeps(Made(e, r), r, if otherwise then rule.elseActions else rule.thenActions, hasState, state);
    }
  }

  // --- Stepping ---

  lemma PoppedStack(e: Engine, g: Engine)
    requires StackOk(e) && e.stack != [] && g.stack == e.stack[..|e.stack| - 1]
    requires forall r :: r in e.rules ==>
      r in g.rules && g.rules[r].obj == e.rules[r].obj && g.rules[r].lastToken == e.rules[r].lastToken
    ensures StackOk(g) && (g.stack == [] || Top(g).playing)
    ensures Stepping(g.stack) == Stepping(e.stack) - {(Top(e).obj, Top(e).token)}
  {
    forall i | 0 <= i < |g.stack| ensures FrameOk(g, i) {
      assert FrameOk(e, i);
    }
    if g.stack != [] {
      assert FrameOk(e, |g.stack| - 1);
    }
    PoppedStepping(e.stack);
  }

  /** A run's cursor moves on, or stays, and nothing else of its rule. */
  lemma MovedRule(rule: Rule, t: nat, run: Run)
    requires RuleOk(rule) && t in rule.runs && run == rule.runs[t].(cursor := run.cursor) && run.cursor <= |run.branch|
    ensures RuleOk(rule.(runs := rule.runs[t := run]))
  {
    var moved := rule.(runs := rule.runs[t := run]);
    assert moved.runs.Keys == rule.runs.Keys;
    assert |moved.runs.Keys| == |rule.runs.Keys|;
    assert RunOk(rule, t);
    forall u | u in moved.runs ensures RunOk(moved, u) {
      if u != t {
        assert RunOk(rule, u);
      }
    }
  }

  lemma EndedRule(rule: Rule, t: nat)
    requires RuleOk(rule) && t in rule.runs
    ensures RuleOk(rule.(runs := rule.runs - {t}))
  {
    var ended := rule.(runs := rule.runs - {t});
    assert ended.runs.Keys == rule.runs.Keys - {t};
    assert |ended.runs.Keys| <= |rule.runs.Keys|;
    forall u | u in ended.runs ensures RunOk(ended, u) {
      assert RunOk(rule, u);
    }
  }

  /** The frame of a run that is gone goes. */
  lemma ReturnKeepsRules(e: Engine, g: Engine)
    requires RulesOk(e) && g == e.(stack := g.stack)
    ensures RulesOk(g)
  {
    hide RuleOk;
    forall q | q in g.rules ensures RuleKnown(g, q) {
      assert RuleKnown(e, q);
    }
  }

  /** A frame whose run is gone leaves nothing behind that it alone attended. */
  lemma ReturnKeepsRuns(e: Engine, g: Engine, f: Frame)
    requires g == e.(stack := g.stack) && Stepping(g.stack) == Stepping(e.stack) - {(f.obj, f.token)}
    requires RulesOk(e) && f.rule in e.rules && e.rules[f.rule].obj == f.obj && !Live(e, f.rule, f.token)
    requires TimersOk(e) && NoneStranded(e) && LogOk(e)
    ensures TimersOk(g) && NoneStranded(g) && LogOk(g)
  {
    hide RuleKnown, Stepping, InOrder;
    forall t | t in g.timers ensures TimerOk(g, t) {
      assert TimerOk(e, t);
    }
    forall q: nat, t: nat | Live(g, q, t) ensures Attended(g, q, t) && CursorOk(g, q, t) {
      assert Live(e, q, t) && Attended(e, q, t) && CursorOk(e, q, t);
    }
  }

  lemma ReturnKeeps(e: Engine, g: Engine)
    requires Inv(e) && e.stack != [] && g == Popped(e)
    requires Top(e).rule in e.rules && Top(e).token !in e.rules[Top(e).rule].runs
    ensures Inv(g)
  {
    PoppedStack(e, g);
    TopIsOwn(e);
    ReturnKeepsRules(e, g);
    ReturnKeepsRuns(e, g, Top(e));
    hide RulesOk, TimersOk, NoneStranded, StackOk, LogOk;
  }

  lemma TopIsOwn(e: Engine)
    requires StackOk(e) && e.stack != []
    ensures var f := Top(e);
            f.rule in e.rules && e.rules[f.rule].obj == f.obj && (f.obj, f.token) in Stepping(e.stack)
            && (f.scheduled ==> |e.stack| == 1)
  {
    assert FrameOk(e, |e.stack| - 1);
    assert Top(e) in e.stack;
  }

  ghost predicate Finishes(e: Engine, g: Engine) {
    && e.stack != [] && Live(e, Top(e).rule, Top(e).token)
    && var f := Top(e);
       g == Popped(e.(rules := e.rules[f.rule := e.rules[f.rule].(runs := e.rules[f.rule].runs - {f.token})]))
  }

  lemma FinishedTimers(e: Engine, g: Engine)
    requires TimersOk(e) && Finishes(e, g) && StackOk(e)
    ensures TimersOk(g)
  {
    TopIsOwn(e);
    PoppedStack(e, g);
    hide StackOk;
    forall t | t in g.timers ensures TimerOk(g, t) {
      assert TimerOk(e, t);
    }
  }

  lemma FinishedStrandsNone(e: Engine, g: Engine)
    requires NoneStranded(e) && Finishes(e, g) && StackOk(e) && ObjectsDiffer(e.rules)
    ensures NoneStranded(g)
  {
    TopIsOwn(e);
    PoppedStack(e, g);
    hide StackOk;
    forall q: nat, t: nat | Live(g, q, t) ensures Attended(g, q, t) {
      assert Live(e, q, t) && Attended(e, q, t);
    }
  }

  lemma FinishedLog(e: Engine, g: Engine)
    requires LogOk(e) && Finishes(e, g)
    ensures LogOk(g)
  {
    hide Steps;
    forall q: nat, t: nat | Live(g, q, t) ensures CursorOk(g, q, t) {
      assert Live(e, q, t) && CursorOk(e, q, t);
    }
  }

  lemma TopKnown(e: Engine)
    requires Inv(e) && e.stack != []
    ensures Top(e).rule in e.rules
  {
    TopIsOwn(e);
  }

  /** A run with no step left goes with its frame. */
  lemma FinishKeeps(e: Engine, g: Engine)
    requires Inv(e) && Finishes(e, g)
    ensures Inv(g)
  {
    TopIsOwn(e);
    PoppedStack(e, g);
    hide StackOk, TimersOk, NoneStranded, LogOk;
    FinishedRules(e, g);
    FinishedTimers(e, g);
    FinishedStrandsNone(e, g);
    FinishedLog(e, g);
  }

  lemma FinishedRules(e: Engine, g: Engine)
    requires RulesOk(e) && Finishes(e, g)
    ensures RulesOk(g)
  {
    var f := Top(e);
    assert RuleKnown(e, f.rule);
    EndedRule(e.rules[f.rule], f.token);
    RuleReplaced(e, g, f.rule, e.rules[f.rule].(runs := e.rules[f.rule].runs - {f.token}));
  }

  /** What a step that goes on does to the books: the run's cursor moves by `n`, logged. */
  ghost predicate Advances(e: Engine, g: Engine, n: nat) {
    && e.stack != [] && Live(e, Top(e).rule, Top(e).token) && n <= 1
    && var f := Top(e);
       var run := e.rules[f.rule].runs[f.token];
       && run.cursor + n <= |run.branch|
       && g.rules == WithRun(e, f.rule, f.token, run.(cursor := run.cursor + n)).rules
       && g.nextObj == e.nextObj
       && g.log == if n == 1 then e.log + [Played(f.obj, f.token, run.cursor)] else e.log
  }

  lemma AdvancesRules(e: Engine, g: Engine, n: nat)
    requires RulesOk(e) && Advances(e, g, n)
    ensures RulesOk(g)
  {
    var f := Top(e);
    var rule := e.rules[f.rule];
    var run := rule.runs[f.token].(cursor := rule.runs[f.token].cursor + n);
    assert RuleKnown(e, f.rule);
    MovedRule(rule, f.token, run);
    RuleReplaced(e, g, f.rule, rule.(runs := rule.runs[f.token := run]));
  }

  lemma LogGrew(log: seq<Played>, p: Played)
    ensures forall obj: nat, t: nat ::
      Steps(log + [p], obj, t) == Steps(log, obj, t) + if p.obj == obj && p.token == t then [p.index] else []
  {
    forall obj: nat, t: nat ensures
      Steps(log + [p], obj, t) == Steps(log, obj, t) + if p.obj == obj && p.token == t then [p.index] else [] {
      LogGrows(log, p, obj, t);
    }
  }

  lemma AdvancesLog(e: Engine, g: Engine, n: nat)
    requires LogOk(e) && Advances(e, g, n) && e.rules[Top(e).rule].obj == Top(e).obj && RulesOk(e)
    ensures LogOk(g)
  {
    var f := Top(e);
    var run := e.rules[f.rule].runs[f.token];
    SlotInRange(e, f.rule, f.token);
    assert RuleKnown(e, f.rule);
    hide RuleKnown, LogOk, Steps;
    if n == 1 {
      LogGrew(e.log, Played(f.obj, f.token, run.cursor));
      AdvancedLog(e, g, f, run);
    } else {
      AdvancedNot(e, g);
    }
  }

  lemma AdvancedNot(e: Engine, g: Engine)
    requires LogOk(e) && Advances(e, g, 0)
    ensures LogOk(g)
  {
    forall q: nat, t: nat | Live(g, q, t) ensures CursorOk(g, q, t) {
      assert Live(e, q, t) && CursorOk(e, q, t);
    }
  }

  lemma AdvancedLog(e: Engine, g: Engine, f: Frame, run: Run)
    requires LogOk(e) && ObjectsDiffer(e.rules) && Live(e, f.rule, f.token) && run == e.rules[f.rule].runs[f.token]
    requires e.rules[f.rule].obj == f.obj < e.nextObj && f.token <= e.rules[f.rule].lastToken
    requires g.rules == WithRun(e, f.rule, f.token, run.(cursor := run.cursor + 1)).rules && g.nextObj == e.nextObj
    requires forall obj: nat, t: nat ::
      Steps(g.log, obj, t) == Steps(e.log, obj, t) + if f.obj == obj && f.token == t then [run.cursor] else []
    ensures LogOk(g)
  {
    assert CursorOk(e, f.rule, f.token);
    forall obj: nat, t: nat ensures Counts(Steps(g.log, obj, t), |Steps(g.log, obj, t)|) {
      assert Counts(Steps(e.log, obj, t), |Steps(e.log, obj, t)|);
    }
    forall q: nat, t: nat | Live(g, q, t) ensures CursorOk(g, q, t) {
      assert Live(e, q, t) && CursorOk(e, q, t);
    }
  }

  /** Two live runs share a timer id only if they are one. */
  lemma OwnTimer(e: Engine, r: nat, t: nat, q: nat, u: nat)
    requires RulesOk(e) && Live(e, r, t) && Live(e, q, u)
    requires TimerId(r, e.rules[r].runs[t].slot) == TimerId(q, e.rules[q].runs[u].slot)
    ensures r == q && t == u
  {
    SlotInRange(e, r, t);
    SlotInRange(e, q, u);
    assert RuleKnown(e, r);
  }

  /** The run waits for its timer, and its frame goes. */
  ghost predicate Suspends(e: Engine, g: Engine, n: nat) {
    && Advances(e, g, n) && g.stack == e.stack[..|e.stack| - 1]
    && var f := Top(e);
       var id := TimerId(f.rule, e.rules[f.rule].runs[f.token].slot);
       id in g.timers && g.timers == e.timers[id := Timer(f.rule, f.obj, f.token, g.timers[id].ms)]
  }

  lemma SuspendedTimers(e: Engine, g: Engine, n: nat)
    requires TimersOk(e) && StackOk(e) && Suspends(e, g, n)
    ensures TimersOk(g)
  {
    TopIsOwn(e);
    PoppedStack(e, g);
    hide StackOk;
    forall t | t in g.timers ensures TimerOk(g, t) {
      if t in e.timers {
        assert TimerOk(e, t);
      }
    }
  }

  lemma SuspendedAttends(e: Engine, g: Engine, n: nat, q: nat, t: nat)
    requires RulesOk(e) && StackOk(e) && Suspends(e, g, n) && Live(g, q, t) && Live(e, q, t) && Attended(e, q, t)
    requires Stepping(g.stack) == Stepping(e.stack) - {(Top(e).obj, Top(e).token)}
    ensures Attended(g, q, t)
  {
    TopIsOwn(e);
    var f := Top(e);
    hide StackOk, RulesOk, Stepping;
    if TimerId(q, e.rules[q].runs[t].slot) == TimerId(f.rule, e.rules[f.rule].runs[f.token].slot) {
      OwnTimer(e, q, t, f.rule, f.token);
    } else if (e.rules[q].obj, t) == (f.obj, f.token) {
      SameObject(e, q, f.rule);
    }
  }

  lemma SuspendedStrandsNone(e: Engine, g: Engine, n: nat)
    requires RulesOk(e) && NoneStranded(e) && StackOk(e) && Suspends(e, g, n)
    ensures NoneStranded(g)
  {
    PoppedStack(e, g);
    AdvancesLive(e, g, n);
    hide StackOk, RulesOk, Stepping, Suspends, Attended;
    forall q: nat, t: nat | Live(g, q, t) ensures Attended(g, q, t) {
      SuspendedAttends(e, g, n, q, t);
    }
  }

  /** The same runs, in the same slots, of the same objects. */
  ghost predicate SameRuns(e: Engine, g: Engine) {
    && (forall r: nat, t: nat :: Live(g, r, t) ==>
          (Live(e, r, t) && g.rules[r].obj == e.rules[r].obj && g.rules[r].runs[t].slot == e.rules[r].runs[t].slot))
    && (forall r: nat, t: nat :: Live(e, r, t) ==> Live(g, r, t))
  }

  lemma AdvancesLive(e: Engine, g: Engine, n: nat)
    requires Advances(e, g, n)
    ensures SameRuns(e, g)
  {}

  lemma SameObject(e: Engine, r: nat, q: nat)
    requires RulesOk(e) && r in e.rules && q in e.rules && e.rules[r].obj == e.rules[q].obj
    ensures r == q
  {}

  lemma SuspendKeeps(e: Engine, g: Engine, n: nat)
    requires Inv(e) && Suspends(e, g, n)
    ensures Inv(g)
  {
    TopIsOwn(e);
    PoppedStack(e, g);
    AdvancesRules(e, g, n);
    AdvancesLog(e, g, n);
    hide RulesOk, StackOk, TimersOk, NoneStranded, LogOk, Advances;
    SuspendedTimers(e, g, n);
    SuspendedStrandsNone(e, g, n);
  }

  /** The top frame changes hands with its action: it is the same run's. */
  ghost predicate Retops(e: Engine, g: Engine) {
    && e.stack != [] && |g.stack| == |e.stack| && g.stack[..|e.stack| - 1] == e.stack[..|e.stack| - 1]
    && Top(g) == Top(e).(playing := Top(g).playing)
    && g.timers == e.timers
  }

  lemma RetoppedStack(e: Engine, g: Engine)
    requires StackOk(e) && Retops(e, g)
    requires forall r :: r in e.rules ==>
      r in g.rules && g.rules[r].obj == e.rules[r].obj && g.rules[r].lastToken == e.rules[r].lastToken
    ensures StackOk(g) && Stepping(g.stack) == Stepping(e.stack)
  {
    var n := |e.stack| - 1;
    var rest := e.stack[..n];
    assert e.stack == rest + [Top(e)] && g.stack == rest + [Top(g)];
    PushedStepping(rest, Top(e));
    PushedStepping(rest, Top(g));
    forall i | 0 <= i < |g.stack| ensures FrameOk(g, i) {
      assert FrameOk(e, i);
      assert i < n ==> g.stack[i] == rest[i] == e.stack[i];
    }
    assert forall i :: 0 <= i < |g.stack| ==>
      g.stack[i].obj == e.stack[i].obj && g.stack[i].token == e.stack[i].token by {
      forall i | 0 <= i < |g.stack|
        ensures g.stack[i].obj == e.stack[i].obj && g.stack[i].token == e.stack[i].token {
        assert i < n ==> g.stack[i] == rest[i] == e.stack[i];
      }
    }
  }

  lemma RetoppedTimers(e: Engine, g: Engine)
    requires TimersOk(e) && NoneStranded(e) && g.timers == e.timers && Stepping(g.stack) == Stepping(e.stack)
    requires SameRuns(e, g)
    ensures TimersOk(g) && NoneStranded(g)
  {
    forall t | t in g.timers ensures TimerOk(g, t) {
      assert TimerOk(e, t) && Live(e, e.timers[t].rule, e.timers[t].token);
      assert Live(g, e.timers[t].rule, e.timers[t].token);
    }
    forall q: nat, t: nat | Live(g, q, t) ensures Attended(g, q, t) {
      assert Live(e, q, t) && Attended(e, q, t);
    }
  }

  lemma PlayKeeps(e: Engine, g: Engine)
    requires Inv(e) && Advances(e, g, 1) && Retops(e, g)
    ensures Inv(g)
  {
    TopIsOwn(e);
    RetoppedStack(e, g);
    hide StackOk, TimersOk, NoneStranded;
    AdvancesLive(e, g, 1);
    AdvancesRules(e, g, 1);
    AdvancesLog(e, g, 1);
    hide RulesOk, LogOk, Advances, SameRuns;
    RetoppedTimers(e, g);
  }

  lemma ReturnsKeeps(e: Engine, g: Engine)
    requires Inv(e) && Retops(e, g) && g == e.(stack := g.stack)
    ensures Inv(g)
  {
    RetoppedStack(e, g);
    SameRules(e, g);
    assert SameRuns(e, g);
    hide RulesOk, StackOk, TimersOk, NoneStranded, LogOk;
    RetoppedTimers(e, g);
  }

  lemma SameRules(e: Engine, g: Engine)
    requires RulesOk(e) && LogOk(e) && g.rules == e.rules && g.nextObj == e.nextObj && g.log == e.log
    ensures RulesOk(g) && LogOk(g)
  {
    hide Steps, RuleOk;
    forall q | q in g.rules ensures RuleKnown(g, q) {
      assert RuleKnown(e, q);
    }
    forall q: nat, t: nat | Live(g, q, t) ensures CursorOk(g, q, t) {
      assert Live(e, q, t) && CursorOk(e, q, t);
    }
  }

  lemma SteppedKeeps(e: Engine)
    requires Inv(e) && e.stack != [] && !Top(e).playing && Top(e).rule in e.rules
    ensures Inv(Stepped(e))
  {
    hide Inv;
    var f := Top(e);
    var rule := e.rules[f.rule];
    var g := Stepped(e);
    if f.token !in rule.runs {
      ReturnKeeps(e, g);
    } else {
      var run := rule.runs[f.token];
      if run.cursor >= |run.branch| {
          FinishKeeps(e, g);
      } else {
        var action := run.branch[run.cursor];
          if action.ClimateAction? && !f.scheduled {
          assert run.(cursor := run.cursor + 0) == run;
          SuspendKeeps(e, g, 0);
        } else if action.Delay? {
          SuspendKeeps(e, g, 1);
        } else {
          PlayKeeps(e, g);
        }
      }
    }
  }

  // --- Timers and edits ---

  lemma FiredFrame(e: Engine, g: Engine, t: nat)
    requires RulesOk(e) && TimersOk(e) && e.stack == [] && t in e.timers
    requires var timer := e.timers[t];
             g == e.(timers := e.timers - {t}, stack := [Frame(timer.rule, timer.obj, timer.token, true, false)])
    ensures StackOk(g) && Stepping(g.stack) == {(e.timers[t].obj, e.timers[t].token)}
  {
    var timer := e.timers[t];
    assert TimerOk(e, t);
    SlotInRange(e, timer.rule, timer.token);
    hide RulesOk, TimersOk, TimerOk, TimerId;
    OneStepping(g.stack[0]);
    hide Stepping;
    assert FrameOk(g, 0);
  }

  lemma OneStepping(f: Frame)
    ensures Stepping([f]) == {(f.obj, f.token)}
  {
    PushedStepping([], f);
    assert [] + [f] == [f];
  }

  lemma TimerFiresKeeps(e: Engine, t: nat)
    requires Inv(e) && e.stack == [] && t in e.timers
    ensures Inv(Happened(e, TimerFires(t)))
  {
    var g := Happened(e, TimerFires(t));
    FiredFrame(e, g, t);
    SameRules(e, g);
    hide RulesOk, StackOk, TimersOk, NoneStranded, LogOk, Stepping;
    FiredTimers(e, g, t);
  }

  lemma FiredTimersOk(e: Engine, g: Engine, t: nat)
    requires TimersOk(e) && RulesOk(e) && t in e.timers && g == e.(timers := e.timers - {t}, stack := g.stack)
    requires Stepping(g.stack) == {(e.timers[t].obj, e.timers[t].token)}
    ensures TimersOk(g)
  {
    hide RuleKnown, Stepping;
    var timer := e.timers[t];
    assert TimerOk(e, t);
    forall u | u in g.timers ensures TimerOk(g, u) {
      assert TimerOk(e, u);
      assert e.timers[u].obj == timer.obj ==> e.timers[u].rule == timer.rule;
    }
  }

  lemma NoneStepping()
    ensures Stepping([]) == {}
  {}

  lemma TimerMeans(e: Engine, t: nat)
    requires TimersOk(e) && t in e.timers
    ensures var timer := e.timers[t];
            && Live(e, timer.rule, timer.token) && e.rules[timer.rule].obj == timer.obj
            && t == TimerId(timer.rule, e.rules[timer.rule].runs[timer.token].slot)
  {
    assert TimerOk(e, t);
  }

  lemma FiredTimers(e: Engine, g: Engine, t: nat)
    requires RulesOk(e) && TimersOk(e) && NoneStranded(e) && e.stack == [] && t in e.timers
    requires g == e.(timers := e.timers - {t}, stack := g.stack)
    requires Stepping(g.stack) == {(e.timers[t].obj, e.timers[t].token)}
    ensures TimersOk(g) && NoneStranded(g)
  {
    hide TimersOk, RulesOk, TimerId, Stepping;
    var timer := e.timers[t];
    FiredTimersOk(e, g, t);
    TimerMeans(e, t);
    NoneStepping();
    forall q: nat, u: nat | Live(g, q, u) ensures Attended(g, q, u) {
      assert Live(e, q, u) && Attended(e, q, u);
      if TimerId(q, e.rules[q].runs[u].slot) == t {
        OwnTimer(e, q, u, timer.rule, timer.token);
      }
    }
  }

  lemma FlagRule(rule: Rule, on: bool)
    requires RuleOk(rule)
    ensures RuleOk(rule.(enabled := on))
  {
    forall t | t in rule.runs ensures RunOk(rule.(enabled := on), t) {
      assert RunOk(rule, t);
    }
  }

  lemma FlagLog(e: Engine, g: Engine, r: nat, on: bool)
    requires LogOk(e) && r in e.rules && g == e.(rules := e.rules[r := e.rules[r].(enabled := on)])
    ensures LogOk(g) && SameRuns(e, g)
  {
    hide Steps;
    forall q: nat, t: nat | Live(g, q, t) ensures CursorOk(g, q, t) {
      assert Live(e, q, t) && CursorOk(e, q, t);
    }
  }

  lemma FlagKeeps(e: Engine, r: nat, on: bool)
    requires Inv(e) && r in e.rules
    ensures Inv(e.(rules := e.rules[r := e.rules[r].(enabled := on)]))
  {
    var g := e.(rules := e.rules[r := e.rules[r].(enabled := on)]);
    assert RuleKnown(e, r);
    FlagRule(e.rules[r], on);
    hide RuleOk, StackOk, TimersOk, NoneStranded, LogOk;
    RuleReplaced(e, g, r, e.rules[r].(enabled := on));
    hide RulesOk;
    FramesKept(e, g);
    FlagLog(e, g, r, on);
    hide SameRuns;
    RetoppedTimers(e, g);
  }

  /** A rule without runs can go: no timer is its. */
  lemma GoneKeeps(e: Engine, g: Engine, r: nat)
    requires Inv(e) && e.stack == [] && r in e.rules && e.rules[r].runs == map[]
    requires g == e.(rules := e.rules - {r})
    ensures Inv(g)
  {
    hide Steps, RuleOk;
    forall q | q in g.rules ensures RuleKnown(g, q) {
      assert RuleKnown(e, q);
    }
    forall t | t in g.timers ensures TimerOk(g, t) {
      assert TimerOk(e, t);
    }
    forall q: nat, t: nat | Live(g, q, t) ensures Attended(g, q, t) && CursorOk(g, q, t) {
      assert Live(e, q, t) && Attended(e, q, t) && CursorOk(e, q, t);
    }
  }

  lemma DroppedKeeps(e: Engine, r: nat)
    requires Inv(e) && e.stack == [] && r in e.rules
    ensures Inv(Dropped(e, r))
  {
    StoppedKeeps(e, r);
    hide Inv;
    GoneKeeps(Stopped(e, r), Dropped(e, r), r);
  }

  ghost predicate Builds(e: Engine, g: Engine, r: nat, rule: Rule) {
    && e.stack == [] && r !in e.rules && 1 <= r <= MAX_RULE_ID
    && rule.runs == map[] && rule.lastToken == 0 && rule.obj == e.nextObj
    && g == e.(rules := e.rules[r := rule], nextObj := e.nextObj + 1)
  }

  lemma BuiltRules(e: Engine, g: Engine, r: nat, rule: Rule)
    requires RulesOk(e) && Builds(e, g, r, rule)
    ensures RulesOk(g)
  {
    assert RuleOk(rule);
    hide RuleOk;
    forall q | q in g.rules ensures RuleKnown(g, q) {
      assert q != r ==> RuleKnown(e, q);
    }
    forall q | q in e.rules ensures e.rules[q].obj < e.nextObj {
      assert RuleKnown(e, q);
    }
  }

  lemma BuiltLog(e: Engine, g: Engine, r: nat, rule: Rule)
    requires LogOk(e) && Builds(e, g, r, rule)
    ensures LogOk(g) && SameRuns(e, g)
  {
    hide Steps;
    forall q: nat, t: nat | Live(g, q, t) ensures CursorOk(g, q, t) {
      assert Live(e, q, t) && CursorOk(e, q, t);
    }
  }

  lemma BuiltKeeps(e: Engine, g: Engine, r: nat, rule: Rule)
    requires Inv(e) && Builds(e, g, r, rule)
    ensures Inv(g)
  {
    hide RulesOk, LogOk, TimersOk, NoneStranded;
    BuiltRules(e, g, r, rule);
    BuiltLog(e, g, r, rule);
    hide SameRuns;
    RetoppedTimers(e, g);
  }

  // --- Every reachable state ---

  lemma HappenedKeeps(e: Engine, v: Event)
    requires Inv(e)
    ensures Inv(Happened(e, v))
  {
    hide Inv;
    if Possible(e, v) {
      match v
      case Fire(r, hasState, state, condition) => StartedKeeps(e, r, hasState, state, !condition);
      case RunNow(r) => StartedKeeps(e, r, false, false, false);
      case Step => SteppedKeeps(e);
      case ActionReturns => ActionReturnsKeeps(e);
      case TimerFires(t) => TimerFiresKeeps(e, t);
      case SetEnabled(r, on) =>
        if on {
          FlagKeeps(e, r, on);
        } else {
          StoppedKeeps(e, r);
          FlagKeeps(Stopped(e, r), r, on);
        }
      case Build(r, mode, on, thenActions, elseActions) =>
        if r in e.rules {
          DroppedKeeps(e, r);
        }
        var gone := if r in e.rules then Dropped(e, r) else e;
        BuiltKeeps(gone, Happened(e, v), r, Rule(gone.nextObj, mode, on, thenActions, elseActions, map[], 0));
      case Drop(r) => DroppedKeeps(e, r);
    }
  }

  lemma ActionReturnsKeeps(e: Engine)
    requires Inv(e) && e.stack != [] && Top(e).playing
    ensures Inv(Happened(e, ActionReturns))
  {
    var g := Happened(e, ActionReturns);
    assert g.stack[..|e.stack| - 1] == e.stack[..|e.stack| - 1];
    hide Inv;
    ReturnsKeeps(e, g);
  }

  /** In every reachable state, whatever fires in whatever action: runs within capacity with distinct
      tokens and slots, each on the call stack once or waiting for exactly its own timer, no timer
      left of a run or rule that is gone, and every branch played in order. */
  lemma {:induction false} EveryRunIsSound(e: Engine, vs: seq<Event>)
    requires Inv(e)
    ensures Inv(After(e, vs))
    decreases |vs|
  {
    if vs != [] {
      HappenedKeeps(e, vs[0]);
      EveryRunIsSound(Happened(e, vs[0]), vs[1..]);
    }
  }

  lemma ReachableIsSound(vs: seq<Event>)
    ensures Inv(After(EMPTY, vs))
  {
    assert Inv(EMPTY) by {
      assert forall obj: nat, t: nat :: Steps(EMPTY.log, obj, t) == [];
    }
    EveryRunIsSound(EMPTY, vs);
  }

  // --- What that means ---

  /** A run that goes because it reached its end has played its whole branch, each step once, in
      order. */
  lemma FinishedRunPlayedAll(e: Engine)
    requires Inv(e) && e.stack != [] && !Top(e).playing && Live(e, Top(e).rule, Top(e).token)
    requires !Live(Stepped(e), Top(e).rule, Top(e).token)
    ensures var f := Top(e);
            Counts(Steps(e.log, f.obj, f.token), |e.rules[f.rule].runs[f.token].branch|)
  {
    var f := Top(e);
    TopIsOwn(e);
    assert RuleKnown(e, f.rule) && RunOk(e.rules[f.rule], f.token);
    assert CursorOk(e, f.rule, f.token);
    assert Counts(Steps(e.log, f.obj, f.token), |Steps(e.log, f.obj, f.token)|);
  }

  /** A thermostat moves only from the scheduler, nothing else under way: never inside the callback
      that fired the rule. */
  lemma ClimateOnlyFromLoop(e: Engine)
    requires Inv(e) && e.stack != [] && !Top(e).playing && Live(e, Top(e).rule, Top(e).token)
    requires var run := e.rules[Top(e).rule].runs[Top(e).token];
             run.cursor < |run.branch| && run.branch[run.cursor].ClimateAction?
    ensures |Stepped(e).stack| == |e.stack| ==> |e.stack| == 1 && Top(e).scheduled
  {
    TopIsOwn(e);
    if |e.stack| > 1 {
      assert FrameOk(e, |e.stack| - 1);
    }
  }

  /** With nothing under way, a live run has exactly one timer, under its own id. */
  lemma IdleRunsWait(e: Engine, r: nat, t: nat)
    requires Inv(e) && e.stack == [] && Live(e, r, t)
    ensures var id := TimerId(r, e.rules[r].runs[t].slot);
            id in e.timers && e.timers[id] == Timer(r, e.rules[r].obj, t, e.timers[id].ms)
    ensures forall u :: u in e.timers && e.timers[u].rule == r && e.timers[u].token == t ==>
              u == TimerId(r, e.rules[r].runs[t].slot)
  {
    assert Attended(e, r, t);
    forall u | u in e.timers && e.timers[u].rule == r && e.timers[u].token == t
      ensures u == TimerId(r, e.rules[r].runs[t].slot) {
      assert TimerOk(e, u);
    }
  }

  /** A restart from inside the run's own action ends that run for good: back in its `step_`, the
      frame only returns. */
  lemma LaunchedLeaves(e: Engine, r: nat, branch: seq<Action>, hasState: bool, state: bool)
    requires r in e.rules && e.rules[r].runs == map[]
    ensures var g := Launched(e, r, branch, hasState, state);
            && g.rules[r].runs.Keys == {e.rules[r].lastToken + 1} && |g.rules[r].runs| == 1
            && Top(g).token == e.rules[r].lastToken + 1 && g.timers == e.timers
  {
    hide FreeSlotFrom;
    var g := Launched(e, r, branch, hasState, state);
    assert g.rules[r].runs.Keys == {e.rules[r].lastToken + 1};
    assert |g.rules[r].runs| == |g.rules[r].runs.Keys|;
  }

  lemma RestartIs(e: Engine, r: nat, hasState: bool, state: bool, otherwise: bool)
    requires r in e.rules && e.rules[r].mode.Restart? && e.rules[r].runs != map[]
    ensures Started(e, r, hasState, state, otherwise)
         == Launched(Stopped(e, r), r, if otherwise then e.rules[r].elseActions else e.rules[r].thenActions,
                     hasState, state)
  {
    hide Stopped, Launched;
  }

  lemma RestartEndsTheOld(e: Engine, hasState: bool, state: bool, otherwise: bool)
    requires Inv(e) && e.stack != [] && Top(e).playing && Live(e, Top(e).rule, Top(e).token)
    requires e.rules[Top(e).rule].mode.Restart?
    ensures var f := Top(e);
            var g := Started(e, f.rule, hasState, state, otherwise);
            && !Live(g, f.rule, f.token)
            && |g.rules[f.rule].runs| == 1 && Top(g).token == e.rules[f.rule].lastToken + 1
            && (forall t :: t in g.timers ==> g.timers[t].rule != f.rule)
  {
    hide Stopped, Launched, Started, Top, RulesOk, TimersOk, NoneStranded, StackOk, LogOk;
    var f := Top(e);
    SlotInRange(e, f.rule, f.token);
    StoppedTimers(e, f.rule);
    StoppedIs(e, f.rule);
    RestartIs(e, f.rule, hasState, state, otherwise);
    var branch := if otherwise then e.rules[f.rule].elseActions else e.rules[f.rule].thenActions;
    LaunchedLeaves(Stopped(e, f.rule), f.rule, branch, hasState, state);
  }

  lemma StoppedIs(e: Engine, r: nat)
    requires r in e.rules
    ensures var g := Stopped(e, r);
            && g.rules.Keys == e.rules.Keys && g.rules[r] == e.rules[r].(runs := map[]) && g.stack == e.stack
            && forall t :: t in g.timers ==> t in e.timers && g.timers[t] == e.timers[t]
  {}
}
