/** `identify_strategy_groups` (plotter/DataImporter_plotter.py:806-873): runs are
    grouped by the sorted names of their entry and exit indicators. */
module StrategyGrouper {
  import opened Wrappers
  import opened Text
  import opened Dicts
  import opened Json
  import opened Sorting

  /** One indicator of a run's entry or exit side. */
  datatype Leg = Leg(indicatorType: Json, stratIdx: Json, name: string, full: Dict)

  /** A strategy group: its descriptors come from the first run that has its key. */
  datatype Group = Group(
    entryStrategies: seq<Leg>,
    exitStrategies: seq<Leg>,
    entryNames: seq<string>,
    exitNames: seq<string>,
    combinations: seq<nat>,
    count: nat,
    displayName: string)

  /** Groups by strategy key, in the order the keys first appear. */
  type Groups = seq<(string, Group)>

  const EntrySide: string := "Entry_params"
  const ExitSide: string := "Exit_params"

  /** Python's `sorted` on strings orders by code points, a total order. */
  lemma LexOrder()
    ensures TotalPreorder(LexLeq) && Antisymmetric(LexLeq)
  {
    forall a, b ensures LexLeq(a, b) || LexLeq(b, a) {
      LexLeqTotal(a, b);
    }
    forall a, b, c | LexLeq(a, b) && LexLeq(b, c) ensures LexLeq(a, c) {
      LexLeqTransitive(a, b, c);
    }
    forall a, b | LexLeq(a, b) && LexLeq(b, a) ensures a == b {
      LexLeqAntisymmetric(a, b);
    }
  }

  /** A leg's indicator type and index default to "Unknown"; its name is both
      rendered with `str()` and concatenated. */
  function MakeLeg(fields: Dict): (l: Leg)
    ensures l.full == fields
    ensures l.name == Str(l.indicatorType) + Str(l.stratIdx)
    ensures l.indicatorType == GetOr(fields, "indicator_type", JStr("Unknown"))
    ensures l.stratIdx == GetOr(fields, "strat_idx", JStr("Unknown"))
  {
    var it := GetOr(fields, "indicator_type", JStr("Unknown"));
    var si := GetOr(fields, "strat_idx", JStr("Unknown"));
    Leg(it, si, Str(it) + Str(si), fields)
  }

  /** The legs of a parameter list: its objects in order, anything else skipped. */
  function DictLegs(items: seq<Json>): (legs: seq<Leg>)
    ensures |legs| <= |items|
    ensures (forall i :: 0 <= i < |items| ==> !items[i].JObj?) ==> legs == []
    ensures forall l :: l in legs ==> exists i :: 0 <= i < |items| && items[i] == JObj(l.full)
  {
    if items == [] then []
    else
      var prev := DictLegs(items[..|items| - 1]);
      assert forall i :: 0 <= i < |items| - 1 ==> items[..|items| - 1][i] == items[i];
      var last := items[|items| - 1];
      if last.JObj? then prev + [MakeLeg(last.fields)] else prev
  }

  /** The legs of one side of a run; a missing side or a non-list gives none. */
  function LegsOf(run: Dict, side: string): seq<Leg> {
    var v: Option<Json> := Get(run, side);
    if v.Some? && v.value.JArr? then DictLegs(v.value.items) else []
  }

  function Names(legs: seq<Leg>): (names: seq<string>)
    ensures |names| == |legs| && forall i :: 0 <= i < |legs| ==> names[i] == legs[i].name
  {
    seq(|legs|, i requires 0 <= i < |legs| => legs[i].name)
  }

  /** `sorted(names)`. */
  function SortNames(names: seq<string>): (r: seq<string>)
    ensures multiset(r) == multiset(names)
  {
    SortBy(names, LexLeq)
  }

  lemma {:induction false} SortNamesSorted(names: seq<string>)
    ensures SortedBy(SortNames(names), LexLeq)
  {
    LexOrder();
    SortSorted(names, LexLeq);
  }

  /** `Entry_<names joined by '+'>_Exit_<names joined by '+'>`. */
  function StrategyKey(entryNames: seq<string>, exitNames: seq<string>): string {
    "Entry_" + Join(entryNames, "+") + "_Exit_" + Join(exitNames, "+")
  }

  function DisplayName(entryNames: seq<string>, exitNames: seq<string>): string {
    "Entry: " + Join(entryNames, ", ") + " | Exit: " + Join(exitNames, ", ")
  }

  /** The key of a run, or None when either side has no legs. */
  function Signature(run: Dict): (r: Option<string>)
    ensures r.Some? <==> LegsOf(run, EntrySide) != [] && LegsOf(run, ExitSide) != []
  {
    var entries := LegsOf(run, EntrySide);
    var exits := LegsOf(run, ExitSide);
    if entries == [] || exits == [] then None
    else Some(StrategyKey(SortNames(Names(entries)), SortNames(Names(exits))))
  }

  /** The group a run opens, holding the given combinations. */
  function NewGroup(run: Dict, combinations: seq<nat>): (g: Group)
    ensures g.count == |combinations| && g.combinations == combinations
  {
    var entries := LegsOf(run, EntrySide);
    var exits := LegsOf(run, ExitSide);
    var entryNames := SortNames(Names(entries));
    var exitNames := SortNames(Names(exits));
    Group(entries, exits, entryNames, exitNames, combinations, |combinations|,
          DisplayName(entryNames, exitNames))
  }

  /** One turn of the loop: run `i` joins (or opens) the group of its key. */
  function AddRun(groups: Groups, run: Dict, i: nat): Groups {
    match Signature(run)
    case None => groups
    case Some(key) => Joined(groups, run, key, i)
  }

  /** Run `i` with key `key` is appended to its group, which it opens if new. */
  function Joined(groups: Groups, run: Dict, key: string, i: nat): (r: Groups)
    ensures Get(r, key) == Some(Grow(Get(groups, key).GetOr(NewGroup(run, [])), i))
    ensures forall k :: k != key ==> Get(r, k) == Get(groups, k)
  {
    var g := match Get(groups, key) case Some(g) => g case None => NewGroup(run, []);
    Put(groups, key, Grow(g, i))
  }

  /** `parameter_combinations.append(i)` and `count += 1`. */
  function Grow(g: Group, i: nat): (r: Group)
    ensures r.combinations == g.combinations + [i] && r.count == g.count + 1
  {
    g.(combinations := g.combinations + [i], count := g.count + 1)
  }

  /** The result of `identify_strategy_groups`. */
  function GroupsOf(runs: seq<Dict>): Groups {
    if runs == [] then []
    else AddRun(GroupsOf(runs[..|runs| - 1]), runs[|runs| - 1], |runs| - 1)
  }

  function Signatures(runs: seq<Dict>): (sigs: seq<Option<string>>)
    ensures |sigs| == |runs| && forall i :: 0 <= i < |runs| ==> sigs[i] == Signature(runs[i])
  {
    seq(|runs|, i requires 0 <= i < |runs| => Signature(runs[i]))
  }

  /** Reference definition: the positions whose key is `key`, in order. */
  function IndicesOf(sigs: seq<Option<string>>, key: string): (r: seq<nat>)
    ensures forall j :: 0 <= j < |r| ==> r[j] < |sigs| && sigs[r[j]] == Some(key)
    ensures forall j, k :: 0 <= j < k < |r| ==> r[j] < r[k]
    ensures forall i :: 0 <= i < |sigs| && sigs[i] == Some(key) ==> i in r
  {
    if sigs == [] then []
    else
      var n := |sigs| - 1;
      var prev := IndicesOf(sigs[..n], key);
      assert forall i :: 0 <= i < n ==> sigs[..n][i] == sigs[i];
      if sigs[n] == Some(key) then prev + [n] else prev
  }

  /** Reference definition of one group: the runs with its key, described by the
      first of them. */
  function GroupOf(runs: seq<Dict>, key: string): Option<Group> {
    var indices := IndicesOf(Signatures(runs), key);
    if indices == [] then None else Some(NewGroup(runs[indices[0]], indices))
  }

  /** The positions with `key` grow by the last run exactly when it has that key. */
  lemma {:induction false} IndicesSnoc(runs: seq<Dict>, key: string)
    requires runs != []
    ensures var n := |runs| - 1;
      IndicesOf(Signatures(runs), key)
        == IndicesOf(Signatures(runs[..n]), key) + (if Signature(runs[n]) == Some(key) then [n] else [])
  {
    var n := |runs| - 1;
    assert Signatures(runs)[..n] == Signatures(runs[..n]);
  }

  lemma NewGroupGrows(run: Dict, combinations: seq<nat>, i: nat)
    ensures Grow(NewGroup(run, combinations), i) == NewGroup(run, combinations + [i])
  {
  }

  /** One turn of the loop, when the run opens a new group. */
  lemma {:induction false} AddRunOpens(runs: seq<Dict>, key: string)
    requires runs != [] && Signature(runs[|runs| - 1]) == Some(key)
    requires Get(GroupsOf(runs[..|runs| - 1]), key) == None
    requires GroupOf(runs[..|runs| - 1], key) == None
    ensures Get(GroupsOf(runs), key) == GroupOf(runs, key)
  {
    var n := |runs| - 1;
    var prev := GroupsOf(runs[..n]);
    assert GroupsOf(runs) == Joined(prev, runs[n], key, n);
    IndicesSnoc(runs, key);
    var none: seq<nat> := [];
    assert none + [n] == [n];
    assert IndicesOf(Signatures(runs), key) == [n];
    NewGroupGrows(runs[n], none, n);
  }

  /** One turn of the loop, when the run joins an existing group. */
  lemma {:induction false} AddRunJoins(runs: seq<Dict>, key: string)
    requires runs != [] && Signature(runs[|runs| - 1]) == Some(key)
    requires Get(GroupsOf(runs[..|runs| - 1]), key) == GroupOf(runs[..|runs| - 1], key)
    requires GroupOf(runs[..|runs| - 1], key).Some?
    ensures Get(GroupsOf(runs), key) == GroupOf(runs, key)
  {
    var n := |runs| - 1;
    var prefix := runs[..n];
    var prev := GroupsOf(prefix);
    assert GroupsOf(runs) == Joined(prev, runs[n], key, n);
    IndicesSnoc(runs, key);
    var before := IndicesOf(Signatures(prefix), key);
    var after := IndicesOf(Signatures(runs), key);
    var first := prefix[before[0]];
    assert runs[before[0]] == first;
    assert after == before + [n] && after[0] == before[0];
    NewGroupGrows(first, before, n);
  }

  /** A run with another key leaves the group of `key` alone. */
  lemma AddRunOther(groups: Groups, run: Dict, i: nat, key: string)
    requires Signature(run) != Some(key)
    ensures Get(AddRun(groups, run, i), key) == Get(groups, key)
  {
  }

  /** A run without `key` leaves the reference group of `key` alone. */
  lemma {:induction false} GroupOfMiss(runs: seq<Dict>, key: string)
    requires runs != [] && Signature(runs[|runs| - 1]) != Some(key)
    ensures GroupOf(runs, key) == GroupOf(runs[..|runs| - 1], key)
  {
    var n := |runs| - 1;
    var prefix := runs[..n];
    IndicesSnoc(runs, key);
    var before := IndicesOf(Signatures(prefix), key);
    assert IndicesOf(Signatures(runs), key) == before;
    if before != [] {
      assert runs[before[0]] == prefix[before[0]];
    }
  }

  /** One turn of the loop, for every other key. */
  lemma {:induction false} AddRunMiss(runs: seq<Dict>, key: string)
    requires runs != [] && Signature(runs[|runs| - 1]) != Some(key)
    requires Get(GroupsOf(runs[..|runs| - 1]), key) == GroupOf(runs[..|runs| - 1], key)
    ensures Get(GroupsOf(runs), key) == GroupOf(runs, key)
  {
    var n := |runs| - 1;
    AddRunOther(GroupsOf(runs[..n]), runs[n], n, key);
    GroupOfMiss(runs, key);
  }

  /** Every group is exactly the runs with its key, in order, counted, and described
      by the first of them; a key has a group exactly when some run has it. */
  lemma {:induction false} GroupsOfCharacterized(runs: seq<Dict>)
    ensures forall key :: Get(GroupsOf(runs), key) == GroupOf(runs, key)
  {
    if runs != [] {
      GroupsOfCharacterized(runs[..|runs| - 1]);
      forall key ensures Get(GroupsOf(runs), key) == GroupOf(runs, key) {
        if Signature(runs[|runs| - 1]) != Some(key) {
          AddRunMiss(runs, key);
        } else if GroupOf(runs[..|runs| - 1], key).Some? {
          AddRunJoins(runs, key);
        } else {
          AddRunOpens(runs, key);
        }
      }
    }
  }

  /** A key has a group exactly when some run has that key. */
  lemma {:induction false} GroupExists(runs: seq<Dict>, key: string)
    ensures Get(GroupsOf(runs), key).Some? <==> exists j :: 0 <= j < |runs| && Signature(runs[j]) == Some(key)
  {
    GroupsOfCharacterized(runs);
    var sigs := Signatures(runs);
    var indices := IndicesOf(sigs, key);
    if exists j :: 0 <= j < |runs| && Signature(runs[j]) == Some(key) {
      var j :| 0 <= j < |runs| && Signature(runs[j]) == Some(key);
      assert sigs[j] == Some(key);
      assert j in indices;
    }
    if indices != [] {
      assert sigs[indices[0]] == Some(key);
    }
  }

  /** A group's members are exactly the runs with its key, its count is their
      number, and it is described by the first of them. */
  lemma {:induction false} GroupMembers(runs: seq<Dict>, key: string, i: nat)
    requires i < |runs| && Get(GroupsOf(runs), key).Some?
    ensures var g := Get(GroupsOf(runs), key).value;
      && (i in g.combinations <==> Signature(runs[i]) == Some(key))
      && g.count == |g.combinations| > 0
      && (forall j :: 0 <= j < |g.combinations| ==> g.combinations[j] < |runs|)
      && g.entryStrategies == LegsOf(runs[g.combinations[0]], EntrySide)
      && g.exitStrategies == LegsOf(runs[g.combinations[0]], ExitSide)
      && g.entryNames == SortNames(Names(g.entryStrategies))
      && g.exitNames == SortNames(Names(g.exitStrategies))
  {
    GroupsOfCharacterized(runs);
    var sigs := Signatures(runs);
    var indices := IndicesOf(sigs, key);
    if Signature(runs[i]) == Some(key) {
      assert sigs[i] == Some(key);
    }
    if i in indices {
      var j :| 0 <= j < |indices| && indices[j] == i;
    }
  }

  /** Group keys are never repeated. */
  lemma {:induction false} GroupKeysDistinct(runs: seq<Dict>)
    ensures Distinct(Keys(GroupsOf(runs)))
  {
    if runs != [] {
      var n := |runs| - 1;
      var prev := GroupsOf(runs[..n]);
      GroupKeysDistinct(runs[..n]);
      match Signature(runs[n])
      case None =>
      case Some(key) =>
        HasKeyKeys(prev, key);
    }
  }

  /** The key does not depend on the order of the legs: runs whose sides carry the
      same names, in any order and with the same repetitions, share a key. */
  lemma {:induction false} SignatureOrderFree(a: Dict, b: Dict)
    requires multiset(Names(LegsOf(a, EntrySide))) == multiset(Names(LegsOf(b, EntrySide)))
    requires multiset(Names(LegsOf(a, ExitSide))) == multiset(Names(LegsOf(b, ExitSide)))
    ensures Signature(a) == Signature(b)
  {
    var ea, eb := Names(LegsOf(a, EntrySide)), Names(LegsOf(b, EntrySide));
    var xa, xb := Names(LegsOf(a, ExitSide)), Names(LegsOf(b, ExitSide));
    assert |multiset(ea)| == |ea| && |multiset(eb)| == |eb|;
    assert |multiset(xa)| == |xa| && |multiset(xb)| == |xb|;
    SortedNamesUnique(ea, eb);
    SortedNamesUnique(xa, xb);
  }

  /** Sorting names gives the same list for any arrangement of the same names. */
  lemma {:induction false} SortedNamesUnique(a: seq<string>, b: seq<string>)
    requires multiset(a) == multiset(b)
    ensures SortNames(a) == SortNames(b)
  {
    SortNamesSorted(a);
    SortNamesSorted(b);
    LexOrder();
    SortedUnique(SortNames(a), SortNames(b), LexLeq);
  }

  /** The legs of one side, collected as the loop does. */
  method CollectLegs(run: Dict, side: string) returns (legs: seq<Leg>)
    ensures legs == LegsOf(run, side)
  {
    legs := [];
    var v := Get(run, side);
    if v.Some? && v.value.JArr? {
      var items := v.value.items;
      for j := 0 to |items|
        invariant legs == DictLegs(items[..j])
      {
        assert items[..j + 1][..j] == items[..j];
        if items[j].JObj? {
          legs := legs + [MakeLeg(items[j].fields)];
        }
      }
      assert items[..|items|] == items;
    }
  }

  /** The body of the loop: run `i` joins the group of its key, if it has one. */
  method JoinGroup(groups: Groups, run: Dict, i: nat) returns (next: Groups)
    ensures next == AddRun(groups, run, i)
  {
    next := groups;
    var entries := CollectLegs(run, EntrySide);
    var exits := CollectLegs(run, ExitSide);
    if entries != [] && exits != [] {
      var key := StrategyKey(SortNames(Names(entries)), SortNames(Names(exits)));
      assert Signature(run) == Some(key);
      next := Joined(groups, run, key, i);
    }
  }

  /** `identify_strategy_groups`. */
  method IdentifyGroups(runs: seq<Dict>) returns (groups: Groups)
    ensures groups == GroupsOf(runs)
    ensures forall key :: Get(groups, key) == GroupOf(runs, key)
  {
    groups := [];
    for i := 0 to |runs|
      invariant groups == GroupsOf(runs[..i])
    {
      assert runs[..i + 1][..i] == runs[..i];
      groups := JoinGroup(groups, runs[i], i);
    }
    assert runs[..|runs|] == runs;
    GroupsOfCharacterized(runs);
  }
}
