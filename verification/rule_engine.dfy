/** The rules, their runs and the scheduler's timers, changed in place
    (components/automations/runtime_automation.cpp:326-510, 588-614). Each method does what
    `RuleMachine` says of its event, and so keeps `RuleInvariants.Inv`. */
module RuleEngines {
  import M = RuleMachine
  import I = RuleInvariants

  class RuleEngine {
    var rules: map<nat, M.Rule>
    var timers: map<nat, M.Timer>
    var stack: seq<M.Frame>
    var nextObj: nat
    ghost var log: seq<M.Played>

    ghost function View(): M.Engine
      reads this
    {
      M.Engine(rules, timers, stack, nextObj, log)
    }

    constructor ()
      ensures View() == M.EMPTY && I.Inv(View())
    {
      rules, timers, stack, nextObj := map[], map[], [], 0;
      log := [];
      new;
      I.ReachableIsSound([]);
    }

    static method SlotUsed(runs: map<nat, M.Run>, slot: nat) returns (used: bool)
      ensures used == (slot in M.SlotsOf(runs))
    {
      used := false;
      var todo := runs.Keys;
      while todo != {}
        invariant todo <= runs.Keys
        invariant used <==> exists t :: t in runs && t !in todo && runs[t].slot == slot
      {
        var t :| t in todo;
        used := used || runs[t].slot == slot;
        todo := todo - {t};
      }
    }

    /** The lowest slot no run has; 0 if all had one, which never comes up. */
    static method FreeSlot(runs: map<nat, M.Run>) returns (slot: nat)
      ensures slot == M.FreeSlotFrom(runs, 0)
      ensures |runs| < M.SLOTS ==> slot < M.SLOTS && slot !in M.SlotsOf(runs)
    {
      if |runs| < M.SLOTS {
        I.FreeSlotFound(runs, 0);
      }
      for s := 0 to M.SLOTS
        invariant M.FreeSlotFrom(runs, s) == M.FreeSlotFrom(runs, 0)
      {
        var used := SlotUsed(runs, s);
        if !used {
          return s;
        }
      }
      return 0;
    }

    /** Every run's delay is cancelled, and the runs are gone. */
    method StopRuns(r: nat)
      requires r in rules
      modifies this
      ensures View() == M.Stopped(old(View()), r)
    {
      var runs := rules[r].runs;
      var todo := runs.Keys;
      ghost var cancelled: set<nat> := {};
      assert timers == old(timers) - {};
      while todo != {}
        invariant todo <= runs.Keys
        invariant rules == old(rules) && stack == old(stack) && nextObj == old(nextObj) && log == old(log)
        invariant cancelled == set t | t in runs && t !in todo :: M.TimerId(r, runs[t].slot)
        invariant timers == old(timers) - cancelled
      {
        var t :| t in todo;
        timers := timers - {M.TimerId(r, runs[t].slot)};
        cancelled := cancelled + {M.TimerId(r, runs[t].slot)};
        todo := todo - {t};
      }
      rules := rules[r := rules[r].(runs := map[])];
    }

    /** One edge or run-now, as an event: `ok` is whether a run came of it. */
    method Start(r: nat, hasState: bool, state: bool, otherwise: bool) returns (ok: bool)
      requires I.Inv(View()) && r in rules && (stack == [] || M.Top(View()).playing)
      modifies this
      ensures View() == M.Started(old(View()), r, hasState, state, otherwise)
      ensures I.Inv(View())
      ensures ok == !M.Refuses(old(rules)[r])
    {
      hide I.Inv;
      I.StartedKeeps(View(), r, hasState, state, otherwise);
      var rule := rules[r];
      if rule.runs != map[] {
        match rule.mode {
          case Single =>
            if hasState {
              rules := rules[r := M.Noted(rule, state)];
            }
            return false;
          case Restart =>
            StopRuns(r);
          case Parallel =>
            if |rule.runs| >= M.MAX_RUNS {
              return false;
            }
        }
      }
      Launch(r, if otherwise then rule.elseActions else rule.thenActions, hasState, state);
      return true;
    }

    method Launch(r: nat, branch: seq<M.Action>, hasState: bool, state: bool)
      requires r in rules
      modifies this
      ensures View() == M.Launched(old(View()), r, branch, hasState, state)
    {
      var rule := rules[r];
      var slot := FreeSlot(rule.runs);
      var token := rule.lastToken + 1;
      var run := M.Run(slot, 0, branch, hasState, state);
      rules := rules[r := rule.(runs := rule.runs[token := run], lastToken := token)];
      stack := stack + [M.Frame(r, rule.obj, token, false, false)];
    }

    /** One turn of the loop over a run's actions: it ends, suspends on a delay or for the loop, or
        hands the control to its next action. */
    method Step()
      requires I.Inv(View()) && stack != [] && !M.Top(View()).playing
      modifies this
      ensures View() == M.Happened(old(View()), M.Step) && I.Inv(View())
    {
      I.TopKnown(View());
      hide I.Inv;
      I.HappenedKeeps(View(), M.Step);
      Turn();
    }

    method Turn()
      requires stack != [] && !M.Top(View()).playing && M.Top(View()).rule in rules
      modifies this
      ensures View() == M.Stepped(old(View()))
    {
      var f := stack[|stack| - 1];
      var rest := stack[..|stack| - 1];
      var rule := rules[f.rule];
      if f.token !in rule.runs {
        stack := rest;
        return;
      }
      var run := rule.runs[f.token];
      if run.cursor >= |run.branch| {
        rules := rules[f.rule := rule.(runs := rule.runs - {f.token})];
        stack := rest;
        return;
      }
      var action := run.branch[run.cursor];
      var waitForLoop := action.ClimateAction? && !f.scheduled;
      if !waitForLoop {
        log := log + [M.Played(f.obj, f.token, run.cursor)];
        run := run.(cursor := run.cursor + 1);
      }
      rules := rules[f.rule := rule.(runs := rule.runs[f.token := run])];
      if action.Delay? || waitForLoop {
        var ms := if waitForLoop then 0 else action.ms;
        timers := timers[M.TimerId(f.rule, run.slot) := M.Timer(f.rule, f.obj, f.token, ms)];
        stack := rest;
      } else {
        stack := rest + [f.(playing := true)];
      }
    }

    method ActionReturns()
      requires I.Inv(View()) && stack != [] && M.Top(View()).playing
      modifies this
      ensures View() == M.Happened(old(View()), M.ActionReturns) && I.Inv(View())
    {
      I.ActionReturnsKeeps(View());
      hide I.Inv;
      stack := stack[..|stack| - 1] + [stack[|stack| - 1].(playing := false)];
    }

    method TimerFires(t: nat)
      requires I.Inv(View()) && stack == [] && t in timers
      modifies this
      ensures View() == M.Happened(old(View()), M.TimerFires(t)) && I.Inv(View())
    {
      hide I.Inv;
      I.TimerFiresKeeps(View(), t);
      var timer := timers[t];
      timers := timers - {t};
      stack := [M.Frame(timer.rule, timer.obj, timer.token, true, false)];
    }

    method SetEnabled(r: nat, on: bool)
      requires I.Inv(View()) && stack == [] && r in rules
      modifies this
      ensures View() == M.Happened(old(View()), M.SetEnabled(r, on)) && I.Inv(View())
    {
      hide I.Inv;
      I.HappenedKeeps(View(), M.SetEnabled(r, on));
      if !on {
        StopRuns(r);
      }
      rules := rules[r := rules[r].(enabled := on)];
    }

    method Drop(r: nat)
      requires I.Inv(View()) && stack == [] && r in rules
      modifies this
      ensures View() == M.Dropped(old(View()), r) && I.Inv(View())
    {
      hide I.Inv;
      I.DroppedKeeps(View(), r);
      StopRuns(r);
      rules := rules - {r};
    }

    /** A rule added, or rebuilt in place of the one it replaces. */
    method Build(r: nat, mode: M.Mode, on: bool, thenActions: seq<M.Action>, elseActions: seq<M.Action>)
      requires I.Inv(View()) && stack == [] && 1 <= r <= M.MAX_RULE_ID
      modifies this
      ensures View() == M.Happened(old(View()), M.Build(r, mode, on, thenActions, elseActions)) && I.Inv(View())
    {
      hide I.Inv;
      I.HappenedKeeps(View(), M.Build(r, mode, on, thenActions, elseActions));
      if r in rules {
        Drop(r);
      }
      rules := rules[r := M.Rule(nextObj, mode, on, thenActions, elseActions, map[], 0)];
      nextObj := nextObj + 1;
    }
  }
}
