/** Ids and names re-established over the rules loaded from flash, whose files anyone may have written
    (components/automations/automation_storage.cpp). */
module RuleStorage {
  import opened Pigeonholes
  import RuleMachine
  import opened RuleNames
  import opened Texts

  const MAX_AUTOMATIONS: nat := 255
  datatype Rule = Rule(id: nat, name: string)

  function Ids(rules: seq<Rule>): (r: seq<nat>)
    ensures |r| == |rules| && forall i :: 0 <= i < |r| ==> r[i] == rules[i].id
  {
    if rules == [] then [] else Ids(rules[..|rules| - 1]) + [rules[|rules| - 1].id]
  }

  function Files(rules: seq<Rule>): seq<string> {
    seq(|rules|, i requires 0 <= i < |rules| => Sanitized(rules[i].name))
  }

  predicate ValidId(id: nat) {
    0 < id <= RuleMachine.MAX_RULE_ID
  }

  // --- A free id ---

  /** The `k`th id tried from `first` on, going round. */
  function Tried(first: nat, k: nat): nat
    requires ValidId(first) && k < RuleMachine.MAX_RULE_ID
  {
    if first + k <= RuleMachine.MAX_RULE_ID then first + k else first + k - RuleMachine.MAX_RULE_ID
  }

  function Tries(first: nat, k: nat): (r: seq<nat>)
    requires ValidId(first) && k <= RuleMachine.MAX_RULE_ID
    ensures |r| == k && forall i :: 0 <= i < k ==> r[i] == Tried(first, i)
  {
    if k == 0 then [] else Tries(first, k - 1) + [Tried(first, k - 1)]
  }

  /** More ids in use than there are rules is impossible, so the search ends. */
  lemma NotAllInUse(first: nat, k: nat, used: seq<nat>)
    requires ValidId(first) && k <= RuleMachine.MAX_RULE_ID && forall i :: 0 <= i < k ==> Tried(first, i) in used
    ensures k <= |used|
  {
    Pigeonhole(Tries(first, k), used);
  }

  // --- A free name ---

  const FIRST_SUFFIX: nat := 2
  const LAST_SUFFIX: nat := MAX_AUTOMATIONS + 2

  function Tail(suffix: nat): string {
    " " + Decimal(suffix)
  }

  function Candidate(original: string, suffix: nat): string
    requires suffix <= LAST_SUFFIX
  {
    ShortDecimal(suffix);
    Truncated(original, MAX_FILENAME_BYTES - |Tail(suffix)|) + Tail(suffix)
  }

  lemma CandidatesDiffer(original: string, m: nat, n: nat)
    requires m <= LAST_SUFFIX && n <= LAST_SUFFIX && m != n
    ensures Sanitized(Candidate(original, m)) != Sanitized(Candidate(original, n))
  {
    hide Decimal, Sanitized, Truncated;
    ShortDecimal(m);
    ShortDecimal(n);
    var a := Truncated(original, MAX_FILENAME_BYTES - |Tail(m)|);
    var b := Truncated(original, MAX_FILENAME_BYTES - |Tail(n)|);
    NumbersMakeNamesDistinct(a, m, b, n);
    assert a + (" " + Decimal(m)) == a + " " + Decimal(m);
    assert b + (" " + Decimal(n)) == b + " " + Decimal(n);
  }

  function CandidateFile(original: string, i: nat): string
    requires i < 256
  {
    Sanitized(Candidate(original, FIRST_SUFFIX + i))
  }

  /** With at most 255 rules, some suffix makes a file name no rule has: there are 256 to try, all
      different. */
  lemma SomeSuffixIsFree(original: string, files: seq<string>)
    requires |files| <= MAX_AUTOMATIONS
    ensures exists n :: FIRST_SUFFIX <= n <= LAST_SUFFIX && Sanitized(Candidate(original, n)) !in files
  {
    hide Sanitized, Candidate, Decimal;
    var all := seq(256, i requires 0 <= i < 256 => CandidateFile(original, i));
    forall i, j | 0 <= i < j < |all| ensures all[i] != all[j] {
      CandidatesDiffer(original, FIRST_SUFFIX + i, FIRST_SUFFIX + j);
    }
    if forall i :: 0 <= i < |all| ==> all[i] in files {
      Pigeonhole(all, files);
      assert false;
    }
    var i :| 0 <= i < |all| && all[i] !in files;
    assert all[i] == Sanitized(Candidate(original, FIRST_SUFFIX + i));
  }

  // --- The storage, in place ---

  /** Some rule but those with `except` as id has the file name `name` maps to. */
  predicate NameTaken(rules: seq<Rule>, name: string, except: nat) {
    exists i :: 0 <= i < |rules| && rules[i].id != except && Sanitized(rules[i].name) == Sanitized(name)
  }

  /** Rule `i` shares its file name with no other. */
  predicate Alone(rules: seq<Rule>, i: nat)
    requires i < |rules|
  {
    forall j :: 0 <= j < |rules| && j != i ==> Sanitized(rules[j].name) != Sanitized(rules[i].name)
  }

  /** An id that stays: one a timer can carry that no earlier rule has. */
  predicate Stays(rules: seq<Rule>, i: nat)
    requires i < |rules|
  {
    ValidId(rules[i].id) && forall j :: 0 <= j < i ==> rules[j].id != rules[i].id
  }

  /** What resolving leaves: every id one a timer can carry, no two alike, no two file names alike. */
  predicate Resolved(rules: seq<Rule>) {
    && Distinct(Ids(rules)) && (forall i :: 0 <= i < |rules| ==> ValidId(rules[i].id))
    && Distinct(Files(rules))
  }

  lemma OwnIds(rules: seq<Rule>, i: nat, j: nat)
    requires i < |rules| && j < |rules| && Distinct(Ids(rules))
    ensures rules[j].id == rules[i].id <==> j == i
  {
    assert Ids(rules)[j] == rules[j].id && Ids(rules)[i] == rules[i].id;
  }

  lemma NameTakenMeans(rules: seq<Rule>, name: string, i: nat)
    requires i < |rules| && Distinct(Ids(rules))
    ensures NameTaken(rules, name, rules[i].id) <==>
              exists j :: 0 <= j < |rules| && j != i && Sanitized(rules[j].name) == Sanitized(name)
  {
    hide Sanitized, Distinct, Ids;
    if NameTaken(rules, name, rules[i].id) {
      var j :| 0 <= j < |rules| && rules[j].id != rules[i].id && Sanitized(rules[j].name) == Sanitized(name);
      OwnIds(rules, i, j);
    }
    if j :| 0 <= j < |rules| && j != i && Sanitized(rules[j].name) == Sanitized(name) {
      OwnIds(rules, i, j);
    }
  }

  lemma AloneMeans(rules: seq<Rule>, i: nat)
    requires i < |rules| && Distinct(Ids(rules))
    ensures Alone(rules, i) <==> !NameTaken(rules, rules[i].name, rules[i].id)
  {
    hide Sanitized, NameTaken;
    NameTakenMeans(rules, rules[i].name, i);
  }

  /** A rule renamed to a free name is alone, and whoever was alone still is. */
  lemma RenamedIsAlone(rules: seq<Rule>, i: nat, name: string)
    requires i < |rules| && Distinct(Ids(rules)) && !NameTaken(rules, name, rules[i].id)
    ensures var renamed := rules[i := rules[i].(name := name)];
            && Alone(renamed, i)
            && Ids(renamed) == Ids(rules)
            && forall j :: 0 <= j < |rules| && j != i && Alone(rules, j) ==> Alone(renamed, j)
  {
    hide Sanitized, NameTaken;
    var renamed := rules[i := rules[i].(name := name)];
    NameTakenMeans(rules, name, i);
    assert Ids(renamed) == Ids(rules);
    forall j | 0 <= j < |rules| && j != i && Alone(rules, j) ensures Alone(renamed, j) {
      forall k | 0 <= k < |rules| && k != j ensures Sanitized(renamed[k].name) != Sanitized(renamed[j].name) {
        if k == i {
          assert Sanitized(rules[j].name) != Sanitized(name);
        }
      }
    }
  }

  lemma FreeCandidate(rules: seq<Rule>, original: string, i: nat)
    requires i < |rules| <= MAX_AUTOMATIONS && Distinct(Ids(rules))
    ensures exists n :: FIRST_SUFFIX <= n <= LAST_SUFFIX && !NameTaken(rules, Candidate(original, n), rules[i].id)
  {
    hide Sanitized, Candidate;
    SomeSuffixIsFree(original, Files(rules));
    var n :| FIRST_SUFFIX <= n <= LAST_SUFFIX && Sanitized(Candidate(original, n)) !in Files(rules);
    NameTakenMeans(rules, Candidate(original, n), i);
    forall j | 0 <= j < |rules| ensures Sanitized(rules[j].name) != Sanitized(Candidate(original, n)) {
      assert Files(rules)[j] == Sanitized(rules[j].name);
    }
  }

  class AutomationStorage {
    var rules: seq<Rule>
    var nextId: nat

    constructor (loaded: seq<Rule>)
      ensures rules == loaded && nextId == 1
    {
      rules := loaded;
      nextId := 1;
    }

    method FindIndexById(id: nat) returns (index: int)
      ensures if index < 0 then forall i :: 0 <= i < |rules| ==> rules[i].id != id
              else index < |rules| && rules[index].id == id
    {
      for i := 0 to |rules|
        invariant forall j :: 0 <= j < i ==> rules[j].id != id
      {
        if rules[i].id == id {
          return i;
        }
      }
      return -1;
    }

    /** An id no rule has; the search ends, as fewer are in use than there are. */
    method AllocateId() returns (id: nat)
      requires |rules| <= MAX_AUTOMATIONS
      modifies this`nextId
      ensures ValidId(id) && id !in Ids(rules)
    {
      hide Ids;
      ghost var first := if nextId == 0 || nextId > RuleMachine.MAX_RULE_ID then 1 else nextId;
      ghost var k := 0;
      while true
        invariant k <= |rules|
        invariant Tried(first, k) == if nextId == 0 || nextId > RuleMachine.MAX_RULE_ID then 1 else nextId
        invariant forall j :: 0 <= j < k ==> Tried(first, j) in Ids(rules)
        decreases |rules| - k
      {
        if nextId == 0 || nextId > RuleMachine.MAX_RULE_ID {
          nextId := 1;
        }
        var at := FindIndexById(nextId);
        if at < 0 {
          id := nextId;
          nextId := nextId + 1;
          return;
        }
        assert Ids(rules)[at] == nextId;
        assert forall j :: 0 <= j < k + 1 ==> Tried(first, j) in Ids(rules);
        NotAllInUse(first, k + 1, Ids(rules));
        nextId := nextId + 1;
        k := k + 1;
      }
    }

    method IsNameTaken(name: string, except: nat) returns (taken: bool)
      ensures taken == NameTaken(rules, name, except)
    {
      hide Sanitized;
      var wanted := SanitizeFilename(name);
      for i := 0 to |rules|
        invariant forall j :: 0 <= j < i ==> rules[j].id == except || Sanitized(rules[j].name) != wanted
      {
        if rules[i].id != except {
          var file := SanitizeFilename(rules[i].name);
          if file == wanted {
            return true;
          }
        }
      }
      return false;
    }

    method LargestId() returns (largest: nat)
      ensures largest <= RuleMachine.MAX_RULE_ID
      ensures forall i :: 0 <= i < |rules| && ValidId(rules[i].id) ==> rules[i].id <= largest
    {
      largest := 0;
      for i := 0 to |rules|
        invariant largest <= RuleMachine.MAX_RULE_ID
        invariant forall j :: 0 <= j < i && ValidId(rules[j].id) ==> rules[j].id <= largest
      {
        if rules[i].id > largest && rules[i].id <= RuleMachine.MAX_RULE_ID {
          largest := rules[i].id;
        }
      }
    }

    /** Ids: exactly those that stay stay, the others become ids no rule had. */
    method ResolveIds() returns (changed: seq<bool>)
      requires |rules| <= MAX_AUTOMATIONS
      modifies this
      ensures |rules| == |old(rules)| == |changed| && Distinct(Ids(rules))
      ensures forall i :: 0 <= i < |rules| ==>
                && ValidId(rules[i].id) && rules[i].name == old(rules)[i].name
                && (Stays(old(rules), i) <==> rules[i].id == old(rules)[i].id)
                && changed[i] == !Stays(old(rules), i)
                && (changed[i] ==> rules[i].id !in Ids(old(rules)))
    {
      hide Ids, Sanitized, Distinct, Stays;
      ghost var was := rules;
      var largest := LargestId();
      nextId := largest + 1;
      changed := seq(|rules|, i => false);
      var seen := [];
      for i := 0 to |rules|
        invariant |rules| == |was| == |changed| && |seen| == i
        invariant forall j :: 0 <= j < i ==> seen[j] == rules[j].id
        invariant forall j :: i <= j < |rules| ==> rules[j] == was[j]
        invariant forall j :: i <= j < |rules| ==> !changed[j]
        invariant forall j, k :: 0 <= j < k < i ==> rules[j].id != rules[k].id
        invariant forall j :: 0 <= j < i ==> ResolvedAt(was, rules[j], changed[j], j)
        invariant forall j :: 0 <= j < i && ValidId(was[j].id) ==> was[j].id in seen
      {
        var id := rules[i].id;
        StaysMeans(was, rules, changed, seen, i);
        if id == 0 || id > RuleMachine.MAX_RULE_ID || id in seen {
          var unused := AllocateId();
          Unused(was, rules, changed, seen, i, unused);
          rules := rules[i := rules[i].(id := unused)];
          changed := changed[i := true];
        }
        seen := seen + [rules[i].id];
      }
      IdsApart(rules);
    }

    /** A free name for a rule whose name is taken: "no free name" never comes up. */
    method Rename(i: nat)
      requires i < |rules| <= MAX_AUTOMATIONS && Distinct(Ids(rules))
      requires NameTaken(rules, rules[i].name, rules[i].id)
      modifies this`rules
      ensures exists n :: FIRST_SUFFIX <= n <= LAST_SUFFIX &&
                rules == old(rules)[i := old(rules)[i].(name := Candidate(old(rules)[i].name, n))] &&
                !NameTaken(old(rules), Candidate(old(rules)[i].name, n), old(rules)[i].id)
    {
      hide NameTaken, Sanitized, Truncated, Ids, Distinct, Candidate;
      ghost var was := rules;
      var original := rules[i].name;
      for suffix := FIRST_SUFFIX to LAST_SUFFIX + 1
        invariant rules == was
        invariant forall n :: FIRST_SUFFIX <= n < suffix ==> NameTaken(rules, Candidate(original, n), rules[i].id)
      {
        var candidate := Numbered(original, suffix);
        var taken := IsNameTaken(candidate, rules[i].id);
        if !taken {
          rules := rules[i := rules[i].(name := candidate)];
          return;
        }
      }
      FreeCandidate(rules, original, i);
      assert false;
    }

    /** Rule `i` alone in its file name afterwards, renamed if it was not; the others as they were. */
    method MakeAlone(i: nat) returns (renamed: bool)
      requires i < |rules| <= MAX_AUTOMATIONS && Distinct(Ids(rules))
      modifies this`rules
      ensures |rules| == |old(rules)| && Ids(rules) == Ids(old(rules)) && Alone(rules, i)
      ensures rules[i].id == old(rules)[i].id
      ensures forall j :: 0 <= j < |rules| && j != i ==>
                rules[j] == old(rules)[j] && (Alone(old(rules), j) ==> Alone(rules, j))
      ensures renamed == !Alone(old(rules), i) == (rules[i] != old(rules)[i])
      ensures !renamed ==> rules == old(rules)
    {
      hide Sanitized, Ids, NameTaken, Distinct, Candidate, Alone;
      AloneMeans(rules, i);
      renamed := IsNameTaken(rules[i].name, rules[i].id);
      if renamed {
        Rename(i);
        RenamedTo(old(rules), rules, i);
      }
    }

    /** Ids and names of any up to 255 loaded rules, whatever their files say: no two ids and no two
        file names alike afterwards. Rules alone in their file name from the start keep their name. */
    method ResolveDuplicates() returns (changed: seq<bool>)
      requires |rules| <= MAX_AUTOMATIONS
      modifies this
      ensures Resolved(rules) && |rules| == |old(rules)| == |changed|
      ensures forall i :: 0 <= i < |rules| ==>
                && (Stays(old(rules), i) <==> rules[i].id == old(rules)[i].id)
                && (changed[i] <==> rules[i] != old(rules)[i])
                && (Alone(old(rules), i) ==> rules[i].name == old(rules)[i].name)
    {
      hide Sanitized, Ids, NameTaken, Distinct, Stays, Alone;
      changed := ResolveIds();
      ghost var begun := rules;
      SameNames(old(rules), begun);
      for i := 0 to |rules|
        invariant |rules| == |begun| == |changed| && Ids(rules) == Ids(begun)
        invariant forall j :: 0 <= j < |rules| ==> rules[j].id == begun[j].id
        invariant forall j :: i <= j < |rules| ==> rules[j] == begun[j]
        invariant forall j :: 0 <= j < i ==> Alone(rules, j)
        invariant forall j :: 0 <= j < |rules| && Alone(begun, j) ==> Alone(rules, j) && rules[j] == begun[j]
        invariant forall j :: 0 <= j < |rules| ==> (changed[j] <==> rules[j] != old(rules)[j])
      {
        var renamed := MakeAlone(i);
        if renamed {
          changed := changed[i := true];
        }
      }
      AllAlone(rules);
    }

    method Numbered(original: string, suffix: nat) returns (candidate: string)
      requires suffix <= LAST_SUFFIX
      ensures candidate == Candidate(original, suffix)
    {
      hide Truncated, Decimal;
      ShortDecimal(suffix);
      var tail := " " + Decimal(suffix);
      var head := TruncateUtf8(original, MAX_FILENAME_BYTES - |tail|);
      return head + tail;
    }
  }

  // --- Steps of the loops ---

  /** What became of rule `i`'s id. */
  predicate ResolvedAt(was: seq<Rule>, r: Rule, changed: bool, i: nat)
    requires i < |was|
  {
    && ValidId(r.id) && r.name == was[i].name
    && (Stays(was, i) <==> r.id == was[i].id) && changed == !Stays(was, i)
    && (changed ==> r.id !in Ids(was))
  }

  lemma IdsApart(rules: seq<Rule>)
    requires forall j, k :: 0 <= j < k < |rules| ==> rules[j].id != rules[k].id
    ensures Distinct(Ids(rules))
  {}

  lemma StaysMeans(was: seq<Rule>, rules: seq<Rule>, changed: seq<bool>, seen: seq<nat>, i: nat)
    requires |was| == |rules| == |changed| && |seen| == i < |rules|
    requires forall j :: 0 <= j < i ==> seen[j] == rules[j].id && ResolvedAt(was, rules[j], changed[j], j)
    requires forall j :: 0 <= j < i && ValidId(was[j].id) ==> was[j].id in seen
    ensures Stays(was, i) <==> ValidId(was[i].id) && was[i].id !in seen
  {
    if ValidId(was[i].id) && was[i].id in seen {
      var j :| 0 <= j < i && seen[j] == was[i].id;
      assert ResolvedAt(was, rules[j], changed[j], j);
      assert Ids(was)[i] == was[i].id;
    }
  }

  lemma Unused(was: seq<Rule>, rules: seq<Rule>, changed: seq<bool>, seen: seq<nat>, i: nat, id: nat)
    requires |was| == |rules| == |changed| && |seen| == i < |rules|
    requires forall j :: 0 <= j < i ==> seen[j] == rules[j].id
    requires forall j :: i <= j < |rules| ==> rules[j] == was[j]
    requires forall j :: 0 <= j < i && ValidId(was[j].id) ==> was[j].id in seen
    requires ValidId(id) && id !in Ids(rules)
    ensures id !in Ids(was) && id !in seen
    ensures ValidId(was[i].id) && was[i].id in seen ==> was[i].id in seen + [id]
  {
    forall j | 0 <= j < |was| ensures Ids(was)[j] != id {
      if j < i {
        if ValidId(was[j].id) {
          var k :| 0 <= k < i && seen[k] == was[j].id;
          assert Ids(rules)[k] == seen[k];
        }
      } else {
        assert Ids(rules)[j] == was[j].id;
      }
    }
    forall j | 0 <= j < i ensures seen[j] != id {
      assert Ids(rules)[j] == seen[j];
    }
  }

  lemma SameNames(was: seq<Rule>, rules: seq<Rule>)
    requires |was| == |rules| && forall i :: 0 <= i < |was| ==> rules[i].name == was[i].name
    ensures forall i :: 0 <= i < |was| ==> Alone(was, i) == Alone(rules, i)
  {
    hide Sanitized;
  }

  lemma RenamedTo(before: seq<Rule>, rules: seq<Rule>, i: nat)
    requires i < |before| && Distinct(Ids(before)) && NameTaken(before, before[i].name, before[i].id)
    requires exists n :: FIRST_SUFFIX <= n <= LAST_SUFFIX &&
               rules == before[i := before[i].(name := Candidate(before[i].name, n))] &&
               !NameTaken(before, Candidate(before[i].name, n), before[i].id)
    ensures |rules| == |before| && Ids(rules) == Ids(before)
    ensures Alone(rules, i) && rules[i].id == before[i].id && rules[i].name != before[i].name
    ensures forall j :: 0 <= j < |rules| && j != i ==> rules[j] == before[j] && (Alone(before, j) ==> Alone(rules, j))
    ensures !Alone(before, i)
  {
    hide Sanitized, NameTaken, Candidate, Distinct;
    var n :| FIRST_SUFFIX <= n <= LAST_SUFFIX &&
               rules == before[i := before[i].(name := Candidate(before[i].name, n))] &&
               !NameTaken(before, Candidate(before[i].name, n), before[i].id);
    RenamedIsAlone(before, i, Candidate(before[i].name, n));
    AloneMeans(before, i);
  }

  lemma AllAlone(rules: seq<Rule>)
    requires forall j :: 0 <= j < |rules| ==> Alone(rules, j)
    ensures Distinct(Files(rules))
  {
    hide Sanitized;
    var files := Files(rules);
    forall i, j | 0 <= i < j < |files| ensures files[i] != files[j] {
      assert Alone(rules, i);
      assert files[i] == Sanitized(rules[i].name) && files[j] == Sanitized(rules[j].name);
    }
  }
}
