/** Where the rules end up on disk (components/automations/automation_storage.cpp), as long as every
    write succeeds and every canonical file is free or one that was loaded. */
module RuleFiles {
  import opened Pigeonholes
  import opened RuleNames
  import opened RuleStorage

  /** What a file of the folder holds. */
  datatype Content = Stored(rule: Rule) | Refused

  type Folder = map<string, Content>

  function FileOf(r: Rule): string {
    Sanitized(r.name) + ".json"
  }

  function Canonical(rules: seq<Rule>): seq<string> {
    seq(|rules|, i requires 0 <= i < |rules| => FileOf(rules[i]))
  }

  lemma CanonicalDistinct(rules: seq<Rule>)
    requires Distinct(Files(rules))
    ensures Distinct(Canonical(rules)) && |Canonical(rules)| == |rules|
  {
    hide Sanitized;
    var names := Canonical(rules);
    forall i, j | 0 <= i < j < |names| ensures names[i] != names[j] {
      assert Files(rules)[i] != Files(rules)[j];
      Unsuffixed(Sanitized(rules[i].name), Sanitized(rules[j].name));
    }
  }

  lemma Unsuffixed(a: string, b: string)
    ensures a + ".json" == b + ".json" ==> a == b
  {
    if a + ".json" == b + ".json" {
      assert |a| == |b|;
      assert a == (a + ".json")[..|a|] == (b + ".json")[..|b|] == b;
    }
  }

  /** As loaded: each rule from a file of its own, which holds it unless it was changed since. */
  predicate LoadedFrom(disk: Folder, rules: seq<Rule>, from: seq<string>, changed: seq<bool>) {
    && |rules| == |from| == |changed| && Distinct(from)
    && forall i :: 0 <= i < |rules| ==>
         from[i] in disk && disk[from[i]].Stored? && (!changed[i] ==> disk[from[i]] == Stored(rules[i]))
  }

  /** Canonical files are absent or hold a rule that was loaded. */
  predicate NoneInTheWay(disk: Folder, canonical: seq<string>) {
    forall i :: 0 <= i < |canonical| && canonical[i] in disk ==> disk[canonical[i]].Stored?
  }

  /** The files that hold rules are exactly those the rules were loaded from. */
  predicate OnlyLoaded(disk: Folder, from: seq<string>) {
    forall name :: name in disk && disk[name].Stored? ==> name in from
  }

  /** Each canonical file holds its own rule, and every other file that was loaded is gone. */
  predicate Normalized(disk: Folder, was: Folder, rules: seq<Rule>, canonical: seq<string>) {
    && |canonical| == |rules|
    && (forall i :: 0 <= i < |rules| ==> canonical[i] in disk && disk[canonical[i]] == Stored(rules[i]))
    && (forall name :: name in disk && name !in canonical ==> name in was && disk[name] == was[name] == Refused)
    && (forall name :: name in was && was[name] == Refused ==> name in disk && disk[name] == Refused)
  }

  class RuleFolder {
    var rules: seq<Rule>
    var files: seq<string>
    var disk: Folder

    constructor (rules: seq<Rule>, files: seq<string>, disk: Folder)
      requires |rules| == |files|
      ensures this.rules == rules && this.files == files && this.disk == disk
    {
      this.rules := rules;
      this.files := files;
      this.disk := disk;
    }

    method Save(i: nat)
      requires i < |rules| == |files|
      modifies this`disk
      ensures disk == old(disk)[files[i] := Stored(rules[i])]
    {
      disk := disk[files[i] := Stored(rules[i])];
    }

    method Delete(name: string)
      modifies this`disk
      ensures disk == old(disk) - {name}
    {
      disk := disk - {name};
    }

    /** One rule of one round. */
    method Place(i: nat, canonical: seq<string>, loaded: seq<string>, changed: bool, first: bool)
      requires |rules| == |files| == |canonical| == |loaded| && i < |rules|
      requires files[i] != canonical[i] && canonical[i] !in loaded ==> canonical[i] !in disk
      modifies this`files, this`disk
      ensures var from := old(files)[i];
              var moved := from != canonical[i];
              var vacates := moved && from in canonical;
              if (!moved && !changed) || vacates != first then files == old(files) && disk == old(disk)
              else
                && files == old(files)[i := canonical[i]]
                && disk == old(disk)[canonical[i] := Stored(rules[i])] - (if moved && !vacates then {from} else {})
    {
      var from := files[i];
      var moved := from != canonical[i];
      if !moved && !changed {
        return;
      }
      var vacating := moved && from in canonical;
      if vacating != first {
        return;
      }
      // Such a file was on disk and refused at load, so it is not overwritten.
      if moved && canonical[i] !in loaded && canonical[i] in disk {
        return;
      }
      files := files[i := canonical[i]];
      Save(i);
      if !moved {
        return;
      }
      if vacating {
        return;
      }
      Delete(from);
    }

    /** The rules in a file another one belongs in vacate it first; then the rest move. */
    method NormalizeFilenames(changed: seq<bool>)
      requires LoadedFrom(disk, rules, files, changed) && OnlyLoaded(disk, files)
      requires Distinct(Files(rules)) && NoneInTheWay(disk, Canonical(rules))
      modifies this`files, this`disk
      ensures files == Canonical(rules)
      ensures Normalized(disk, old(disk), rules, Canonical(rules))
    {
      hide Canonical, FileOf, Files, LoadedFrom, OnlyLoaded, NoneInTheWay, Normalized, Distinct, Reached;
      CanonicalDistinct(rules);
      var canonical := Canonical(rules);
      var loaded := files;
      Starts(old(disk), rules, loaded, changed, canonical);
      for round := 0 to 2
        invariant |files| == |rules| == |loaded|
        invariant Reached(disk, old(disk), files, rules, loaded, changed, canonical, round, 0)
      {
        for i := 0 to |rules|
          invariant |files| == |rules| == |loaded|
          invariant Reached(disk, old(disk), files, rules, loaded, changed, canonical, round, i)
        {
          ghost var before, at := disk, files;
          TargetIsFree(before, old(disk), at, rules, loaded, changed, canonical, round, i);
          Place(i, canonical, loaded, changed[i], round == 0);
          PlacedStep(before, old(disk), at, disk, files, rules, loaded, changed, canonical, round, i);
        }
        NextRound(disk, old(disk), files, rules, loaded, changed, canonical, round);
      }
      Finished(disk, old(disk), files, rules, loaded, changed, canonical);
    }
  }

  // --- The state between two rules of a round ---

  predicate Vacates(loaded: seq<string>, canonical: seq<string>, k: nat)
    requires k < |loaded| == |canonical|
  {
    loaded[k] != canonical[k] && loaded[k] in canonical
  }

  /** Rule `k` has had its turn, with `i` rules of `round` done. */
  predicate TurnOver(loaded: seq<string>, canonical: seq<string>, round: nat, i: nat, k: nat)
    requires k < |loaded| == |canonical|
  {
    if Vacates(loaded, canonical, k) then round > 0 || k < i else round > 1 || (round == 1 && k < i)
  }

  predicate Settled(disk: Folder, files: seq<string>, rules: seq<Rule>, canonical: seq<string>, k: nat)
    requires k < |files| == |rules| == |canonical|
  {
    files[k] == canonical[k] && canonical[k] in disk && disk[canonical[k]] == Stored(rules[k])
  }

  /** What stays as it is through the rounds. */
  ghost predicate Begun(
      was: Folder, rules: seq<Rule>, loaded: seq<string>, changed: seq<bool>, canonical: seq<string>) {
    && |rules| == |loaded| == |changed| == |canonical| && Distinct(canonical)
    && LoadedFrom(was, rules, loaded, changed) && OnlyLoaded(was, loaded) && NoneInTheWay(was, canonical)
  }

  /** Rules whose turn is over are in their file, as are those that were there unchanged; the others
      are where they were. */
  predicate InPlace(disk: Folder, files: seq<string>, rules: seq<Rule>, loaded: seq<string>, changed: seq<bool>,
                    canonical: seq<string>, round: nat, i: nat)
    requires |files| == |rules| == |loaded| == |changed| == |canonical|
  {
    && (forall k :: 0 <= k < |rules| && TurnOver(loaded, canonical, round, i, k) ==>
          Settled(disk, files, rules, canonical, k))
    && (forall k :: 0 <= k < |rules| && !TurnOver(loaded, canonical, round, i, k) ==> files[k] == loaded[k])
    && (forall k :: 0 <= k < |rules| && loaded[k] == canonical[k] && !changed[k] ==>
          Settled(disk, files, rules, canonical, k))
  }

  /** Files no rule belongs in are gone or as they were, and refused ones are there. */
  ghost predicate Untouched(disk: Folder, was: Folder, canonical: seq<string>) {
    && (forall name :: name in disk && name !in canonical ==> name in was && disk[name] == was[name])
    && (forall name :: name in was && was[name] == Refused ==> name in disk && disk[name] == Refused)
  }

  /** A new file belongs to a rule whose turn is over, and what such a rule came from is gone unless
      another belongs there. */
  ghost predicate Clean(disk: Folder, loaded: seq<string>, canonical: seq<string>, round: nat, i: nat)
    requires |loaded| == |canonical|
  {
    && (forall name :: name in disk && name in canonical && name !in loaded ==>
          exists k :: 0 <= k < |loaded| && canonical[k] == name && TurnOver(loaded, canonical, round, i, k))
    && (forall k :: 0 <= k < |loaded| && TurnOver(loaded, canonical, round, i, k) && loaded[k] !in canonical ==>
          loaded[k] !in disk)
  }

  ghost predicate Reached(disk: Folder, was: Folder, files: seq<string>, rules: seq<Rule>, loaded: seq<string>,
                          changed: seq<bool>, canonical: seq<string>, round: nat, i: nat) {
    && Begun(was, rules, loaded, changed, canonical) && |files| == |rules| && i <= |rules| && round <= 2
    && InPlace(disk, files, rules, loaded, changed, canonical, round, i)
    && Untouched(disk, was, canonical) && Clean(disk, loaded, canonical, round, i)
  }

  lemma Starts(disk: Folder, rules: seq<Rule>, loaded: seq<string>, changed: seq<bool>, canonical: seq<string>)
    requires LoadedFrom(disk, rules, loaded, changed) && OnlyLoaded(disk, loaded) && NoneInTheWay(disk, canonical)
    requires |canonical| == |rules| && Distinct(canonical)
    ensures Reached(disk, disk, loaded, rules, loaded, changed, canonical, 0, 0)
  {
    forall name | name in disk && name in canonical ensures name in loaded {
      var k :| 0 <= k < |canonical| && canonical[k] == name;
      assert disk[canonical[k]].Stored?;
    }
  }

  lemma TargetIsFree(disk: Folder, was: Folder, files: seq<string>, rules: seq<Rule>, loaded: seq<string>,
                     changed: seq<bool>, canonical: seq<string>, round: nat, i: nat)
    requires Reached(disk, was, files, rules, loaded, changed, canonical, round, i) && round < 2 && i < |rules|
    ensures |files| == |canonical| == |loaded| == |changed| == |rules|
    ensures files[i] != canonical[i] && canonical[i] !in loaded ==> canonical[i] !in disk
  {
    forall k | 0 <= k < |rules| && canonical[k] == canonical[i] ensures k == i {}
    assert TurnOver(loaded, canonical, round, i, i) ==> Settled(disk, files, rules, canonical, i);
  }

  ghost predicate PlacedOne(disk: Folder, files: seq<string>, next: Folder, at: seq<string>, rules: seq<Rule>,
                            canonical: seq<string>, changed: bool, first: bool, i: nat)
    requires i < |files| == |rules| == |canonical|
  {
    var from := files[i];
    var moved := from != canonical[i];
    var vacates := moved && from in canonical;
    if (!moved && !changed) || vacates != first then at == files && next == disk
    else
      && at == files[i := canonical[i]]
      && next == disk[canonical[i] := Stored(rules[i])] - (if moved && !vacates then {from} else {})
  }

  /** A rule's place is written in the round its turn comes in, or was right all along. */
  lemma TurnComes(files: seq<string>, disk: Folder, rules: seq<Rule>, loaded: seq<string>, changed: seq<bool>,
                  canonical: seq<string>, round: nat, i: nat)
    requires |files| == |rules| == |loaded| == |changed| == |canonical| && round < 2 && i < |rules|
    requires InPlace(disk, files, rules, loaded, changed, canonical, round, i)
    ensures var moved := files[i] != canonical[i];
            var skipped := (!moved && !changed[i]) || ((moved && files[i] in canonical) != (round == 0));
            && (skipped && !TurnOver(loaded, canonical, round, i, i) && TurnOver(loaded, canonical, round, i + 1, i) ==>
                  loaded[i] == canonical[i] && !changed[i])
            && (!skipped ==> TurnOver(loaded, canonical, round, i + 1, i))
            && (moved ==> files[i] == loaded[i])
  {
    assert TurnOver(loaded, canonical, round, i, i) ==> Settled(disk, files, rules, canonical, i);
  }

  lemma OthersTurns(loaded: seq<string>, canonical: seq<string>, round: nat, i: nat)
    requires i < |loaded| == |canonical|
    ensures forall k :: 0 <= k < |loaded| && k != i ==>
              (TurnOver(loaded, canonical, round, i + 1, k) <==> TurnOver(loaded, canonical, round, i, k))
    ensures TurnOver(loaded, canonical, round, i, i) ==> TurnOver(loaded, canonical, round, i + 1, i)
  {}

  lemma StaysInPlace(disk: Folder, files: seq<string>, next: Folder, at: seq<string>, rules: seq<Rule>,
                     loaded: seq<string>, changed: seq<bool>, canonical: seq<string>, round: nat, i: nat)
    requires |files| == |rules| == |loaded| == |changed| == |canonical| && round < 2 && i < |rules|
    requires Distinct(canonical) && InPlace(disk, files, rules, loaded, changed, canonical, round, i)
    requires PlacedOne(disk, files, next, at, rules, canonical, changed[i], round == 0, i)
    ensures |at| == |rules| && InPlace(next, at, rules, loaded, changed, canonical, round, i + 1)
  {
    TurnComes(files, disk, rules, loaded, changed, canonical, round, i);
    OthersTurns(loaded, canonical, round, i);
    hide TurnOver;
    forall k | 0 <= k < |rules| && k != i && Settled(disk, files, rules, canonical, k)
      ensures Settled(next, at, rules, canonical, k)
    {
      assert canonical[k] in canonical && canonical[i] != canonical[k];
    }
    assert canonical[i] in canonical;
  }

  lemma StaysUntouched(disk: Folder, was: Folder, files: seq<string>, next: Folder, at: seq<string>,
                       rules: seq<Rule>, loaded: seq<string>, changed: seq<bool>, canonical: seq<string>,
                       round: nat, i: nat)
    requires Begun(was, rules, loaded, changed, canonical) && |files| == |rules| && round < 2 && i < |rules|
    requires InPlace(disk, files, rules, loaded, changed, canonical, round, i) && Untouched(disk, was, canonical)
    requires PlacedOne(disk, files, next, at, rules, canonical, changed[i], round == 0, i)
    ensures Untouched(next, was, canonical)
  {
    TurnComes(files, disk, rules, loaded, changed, canonical, round, i);
    assert canonical[i] in canonical && loaded[i] in was && was[loaded[i]].Stored?;
    assert canonical[i] in was ==> was[canonical[i]].Stored?;
    hide InPlace, TurnOver, Begun;
  }

  lemma StaysClean(disk: Folder, files: seq<string>, next: Folder, at: seq<string>, rules: seq<Rule>,
                   loaded: seq<string>, changed: seq<bool>, canonical: seq<string>, round: nat, i: nat)
    requires |files| == |rules| == |loaded| == |changed| == |canonical| && round < 2 && i < |rules|
    requires InPlace(disk, files, rules, loaded, changed, canonical, round, i)
    requires Clean(disk, loaded, canonical, round, i)
    requires PlacedOne(disk, files, next, at, rules, canonical, changed[i], round == 0, i)
    ensures Clean(next, loaded, canonical, round, i + 1)
  {
    TurnComes(files, disk, rules, loaded, changed, canonical, round, i);
    OthersTurns(loaded, canonical, round, i);
    hide InPlace, TurnOver;
    assert canonical[i] in canonical;
    forall name | name in next && name in canonical && name !in loaded
      ensures exists k :: 0 <= k < |loaded| && canonical[k] == name && TurnOver(loaded, canonical, round, i + 1, k)
    {
      if name in disk {
        var k :| 0 <= k < |loaded| && canonical[k] == name && TurnOver(loaded, canonical, round, i, k);
        assert TurnOver(loaded, canonical, round, i + 1, k);
      } else {
        assert canonical[i] == name;
      }
    }
    forall k | 0 <= k < |loaded| && TurnOver(loaded, canonical, round, i + 1, k) && loaded[k] !in canonical
      ensures loaded[k] !in next
    {
      if k == i && !TurnOver(loaded, canonical, round, i, i) {
        LeavesNothing(disk, files, next, at, rules, loaded, changed, canonical, round, i);
      }
    }
  }

  lemma LeavesNothing(disk: Folder, files: seq<string>, next: Folder, at: seq<string>, rules: seq<Rule>,
                      loaded: seq<string>, changed: seq<bool>, canonical: seq<string>, round: nat, i: nat)
    requires |files| == |rules| == |loaded| == |changed| == |canonical| && round < 2 && i < |rules|
    requires InPlace(disk, files, rules, loaded, changed, canonical, round, i)
    requires !TurnOver(loaded, canonical, round, i, i) && TurnOver(loaded, canonical, round, i + 1, i)
    requires loaded[i] !in canonical
    requires PlacedOne(disk, files, next, at, rules, canonical, changed[i], round == 0, i)
    ensures loaded[i] !in next
  {
    assert canonical[i] in canonical;
    assert files[i] == loaded[i];
    hide Settled;
  }

  lemma PlacedStep(disk: Folder, was: Folder, files: seq<string>, next: Folder, at: seq<string>, rules: seq<Rule>,
                   loaded: seq<string>, changed: seq<bool>, canonical: seq<string>, round: nat, i: nat)
    requires Reached(disk, was, files, rules, loaded, changed, canonical, round, i) && round < 2 && i < |rules|
    requires |files| == |rules| == |canonical| == |changed|
    requires PlacedOne(disk, files, next, at, rules, canonical, changed[i], round == 0, i)
    ensures Reached(next, was, at, rules, loaded, changed, canonical, round, i + 1)
  {
    hide InPlace, Clean, PlacedOne, Untouched;
    StaysInPlace(disk, files, next, at, rules, loaded, changed, canonical, round, i);
    StaysUntouched(disk, was, files, next, at, rules, loaded, changed, canonical, round, i);
    StaysClean(disk, files, next, at, rules, loaded, changed, canonical, round, i);
  }

  lemma NextRound(disk: Folder, was: Folder, files: seq<string>, rules: seq<Rule>, loaded: seq<string>,
                  changed: seq<bool>, canonical: seq<string>, round: nat)
    requires Reached(disk, was, files, rules, loaded, changed, canonical, round, |rules|) && round < 2
    ensures Reached(disk, was, files, rules, loaded, changed, canonical, round + 1, 0)
  {}

  lemma Finished(disk: Folder, was: Folder, files: seq<string>, rules: seq<Rule>, loaded: seq<string>,
                 changed: seq<bool>, canonical: seq<string>)
    requires Reached(disk, was, files, rules, loaded, changed, canonical, 2, 0)
    ensures files == canonical && Normalized(disk, was, rules, canonical)
  {
    forall k | 0 <= k < |rules| ensures Settled(disk, files, rules, canonical, k) {
      assert TurnOver(loaded, canonical, 2, 0, k);
    }
    forall name | name in loaded && name !in canonical ensures name !in disk {
      var k :| 0 <= k < |loaded| && loaded[k] == name;
      assert TurnOver(loaded, canonical, 2, 0, k);
    }
  }
}
