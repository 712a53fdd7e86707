/** The parameter summaries of plotter/DataImporter_plotter.py: every value seen
    per parameter name over the entry and exit legs of a list of runs
    (`parse_all_parameters`, `parse_entry_exit_parameters`), the same per
    indicator type (`parse_indicator_param_structure`), and the selection of runs
    whose parameters match a set of filters (`filter_data_by_parameters`).
    Python sets become lists without repeats in first-seen order; each is then
    sorted. */
module ParamSummary {
  import opened Wrappers
  import opened Text
  import opened Dicts
  import opened Json
  import opened Sorting
  import opened StrategyGrouper
  import opened Seqs

  // ---------------------------------------------------------------------------
  // Values seen per name

  /** A `{name: values}` dictionary. */
  type Values = seq<(string, seq<string>)>

  /** `v in d[k]`, false when `k` is missing. */
  predicate Holds(d: Values, k: string, v: string) {
    Get(d, k).Some? && v in Get(d, k).value
  }

  /** No repeated name, and each name holds a nonempty list without repeats. */
  predicate WellFormed(d: Values) {
    DistinctKeys(d) && forall i :: 0 <= i < |d| ==> d[i].1 != [] && Distinct(d[i].1)
  }

  /** `s.add(v)` on a set kept as a list. */
  function AddValue(vals: seq<string>, v: string): (r: seq<string>)
    ensures forall w :: w in r <==> w in vals || w == v
    ensures Distinct(vals) ==> Distinct(r)
    ensures r != []
  {
    if v in vals then vals else vals + [v]
  }

  /** `if k not in d: d[k] = set()`, then `d[k].add(v)`. */
  function Note(d: Values, p: (string, string)): Values {
    Put(d, p.0, AddValue(Get(d, p.0).GetOr([]), p.1))
  }

  /** Noting each pair in turn. */
  function NoteAll(d: Values, pairs: seq<(string, string)>): Values {
    if pairs == [] then d else Note(NoteAll(d, pairs[..|pairs| - 1]), pairs[|pairs| - 1])
  }

  /** One noted pair adds exactly itself. */
  lemma NoteHolds(d: Values, p: (string, string))
    ensures forall k, v :: Holds(Note(d, p), k, v) <==> Holds(d, k, v) || (k, v) == p
    ensures forall k :: HasKey(Note(d, p), k) <==> HasKey(d, k) || k == p.0
  {
    var prior := Get(d, p.0).GetOr([]);
    var r := Note(d, p);
    assert Get(r, p.0) == Some(AddValue(prior, p.1));
    forall k, v ensures Holds(r, k, v) <==> Holds(d, k, v) || (k, v) == p {
      if k != p.0 {
        assert Get(r, k) == Get(d, k);
      }
    }
    forall k ensures HasKey(r, k) <==> HasKey(d, k) || k == p.0 {
      if k != p.0 {
        assert Get(r, k) == Get(d, k);
      }
    }
  }

  /** Noting a list of pairs adds exactly those pairs and their names. */
  lemma NoteAllHolds(d: Values, pairs: seq<(string, string)>)
    ensures forall k, v :: Holds(NoteAll(d, pairs), k, v) <==> Holds(d, k, v) || (k, v) in pairs
    ensures forall k :: HasKey(NoteAll(d, pairs), k) <==> HasKey(d, k) || k in Keys(pairs)
  {
    forall k, v ensures Holds(NoteAll(d, pairs), k, v) <==> Holds(d, k, v) || (k, v) in pairs {
      NoteAllValues(d, pairs, k, v);
    }
    forall k ensures HasKey(NoteAll(d, pairs), k) <==> HasKey(d, k) || k in Keys(pairs) {
      NoteAllKeys(d, pairs, k);
    }
  }

  lemma {:induction false} NoteAllValues(d: Values, pairs: seq<(string, string)>, k: string, v: string)
    ensures Holds(NoteAll(d, pairs), k, v) <==> Holds(d, k, v) || (k, v) in pairs
  {
    if pairs != [] {
      var init, last := pairs[..|pairs| - 1], pairs[|pairs| - 1];
      NoteAllValues(d, init, k, v);
      NoteValue(NoteAll(d, init), last, k, v);
      assert NoteAll(d, pairs) == Note(NoteAll(d, init), last);
      SnocMember(pairs, (k, v));
    }
  }

  lemma {:induction false} NoteAllKeys(d: Values, pairs: seq<(string, string)>, k: string)
    ensures HasKey(NoteAll(d, pairs), k) <==> HasKey(d, k) || k in Keys(pairs)
  {
    if pairs != [] {
      var init, last := pairs[..|pairs| - 1], pairs[|pairs| - 1];
      NoteAllKeys(d, init, k);
      NoteKey(NoteAll(d, init), last, k);
      assert NoteAll(d, pairs) == Note(NoteAll(d, init), last);
      HasKeyKeys(pairs, k);
      HasKeyKeys(init, k);
      HasKeySnoc(pairs, k);
    }
  }

  lemma NoteKey(d: Values, p: (string, string), k: string)
    ensures HasKey(Note(d, p), k) <==> HasKey(d, k) || k == p.0
  {
    NoteHolds(d, p);
  }

  lemma NoteValue(d: Values, p: (string, string), k: string, v: string)
    ensures Holds(Note(d, p), k, v) <==> Holds(d, k, v) || (k, v) == p
  {
    NoteHolds(d, p);
  }

  /** Noting keeps names distinct and value lists nonempty and without repeats. */
  lemma {:induction false} NoteAllWellFormed(d: Values, pairs: seq<(string, string)>)
    requires WellFormed(d)
    ensures WellFormed(NoteAll(d, pairs))
  {
    if pairs != [] {
      var prev := NoteAll(d, pairs[..|pairs| - 1]);
      NoteAllWellFormed(d, pairs[..|pairs| - 1]);
      var p := pairs[|pairs| - 1];
      var prior := Get(prev, p.0).GetOr([]);
      assert Distinct(prior) by {
        if Get(prev, p.0).Some? {
          var i :| 0 <= i < |prev| && prev[i] == (p.0, prior);
        }
      }
      PutDistinct(prev, p.0, AddValue(prior, p.1));
      var r := Put(prev, p.0, AddValue(prior, p.1));
      forall i | 0 <= i < |r| ensures r[i].1 != [] && Distinct(r[i].1) {
        assert r[i] in r;
      }
    }
  }

  lemma {:induction false} NoteAllAppend(d: Values, a: seq<(string, string)>, b: seq<(string, string)>)
    ensures NoteAll(d, a + b) == NoteAll(NoteAll(d, a), b)
    decreases |b|
  {
    if b != [] {
      assert (a + b)[..|a + b| - 1] == a + b[..|b| - 1];
      NoteAllAppend(d, a, b[..|b| - 1]);
    } else {
      assert a + b == a;
    }
  }

  /** `sorted(list(s))` for every name. */
  function SortAll(d: Values): (r: Values)
    ensures Keys(r) == Keys(d)
  {
    MapValues(d, SortNames)
  }

  /** Sorting every list keeps what each name holds, sorts it, and keeps it
      free of repeats. */
  lemma SortAllSpec(d: Values)
    requires WellFormed(d)
    ensures var r := SortAll(d);
      && DistinctKeys(r)
      && (forall i :: 0 <= i < |r| ==> r[i].1 != [] && Distinct(r[i].1) && SortedBy(r[i].1, LexLeq))
      && (forall k, v :: Holds(r, k, v) <==> Holds(d, k, v))
  {
    var r := SortAll(d);
    MapValuesDistinct(d, SortNames);
    forall k ensures Get(r, k) == if Get(d, k).Some? then Some(SortNames(Get(d, k).value)) else None {
      MapValuesGet(d, SortNames, k);
    }
    forall i | 0 <= i < |r| ensures r[i].1 != [] && Distinct(r[i].1) && SortedBy(r[i].1, LexLeq) {
      assert Keys(r)[i] == Keys(d)[i];
      GetDistinct(r, i);
      GetDistinct(d, i);
      assert r[i].1 == SortNames(d[i].1);
      assert |multiset(r[i].1)| == |multiset(d[i].1)|;
      PermutationDistinct(d[i].1, r[i].1);
      SortNamesSorted(d[i].1);
    }
    forall k, v ensures Holds(r, k, v) <==> Holds(d, k, v) {
      if Get(d, k).Some? {
        assert v in Get(r, k).value <==> v in multiset(Get(d, k).value);
      }
    }
  }

  // ---------------------------------------------------------------------------
  // The legs of a list of runs

  /** The legs of the given sides of one run, side after side. */
  function RunLegs(run: Dict, sides: seq<string>): seq<Leg> {
    if sides == [] then [] else RunLegs(run, sides[..|sides| - 1]) + LegsOf(run, sides[|sides| - 1])
  }

  /** The legs of the given sides of every run, run after run. */
  function AllLegs(runs: seq<Dict>, sides: seq<string>): seq<Leg> {
    if runs == [] then [] else AllLegs(runs[..|runs| - 1], sides) + RunLegs(runs[|runs| - 1], sides)
  }

  /** A leg's `(name, str(value))` pairs, in its key order. */
  function LegPairs(fields: Dict): seq<(string, string)> {
    seq(|fields|, i requires 0 <= i < |fields| => (fields[i].0, Str(GetOr(fields, fields[i].0, JNull))))
  }

  /** The pairs of a list of legs, leg after leg. */
  function PairsOf(legs: seq<Leg>): seq<(string, string)> {
    if legs == [] then [] else PairsOf(legs[..|legs| - 1]) + LegPairs(legs[|legs| - 1].full)
  }

  lemma {:induction false} PairsOfAppend(a: seq<Leg>, b: seq<Leg>)
    ensures PairsOf(a + b) == PairsOf(a) + PairsOf(b)
    decreases |b|
  {
    if b != [] {
      var ab, init, last := a + b, b[..|b| - 1], LegPairs(b[|b| - 1].full);
      assert ab[..|ab| - 1] == a + init && ab[|ab| - 1] == b[|b| - 1];
      assert PairsOf(ab) == PairsOf(a + init) + last;
      assert PairsOf(b) == PairsOf(init) + last;
      PairsOfAppend(a, init);
      assert PairsOf(ab) == PairsOf(a) + PairsOf(init) + last;
    } else {
      assert a + b == a;
    }
  }

  /** A pair is seen exactly when some leg has that name with that value. */
  lemma {:induction false} PairsOfMember(legs: seq<Leg>, k: string, v: string)
    ensures (k, v) in PairsOf(legs) <==> exists j :: 0 <= j < |legs| && (k, v) in LegPairs(legs[j].full)
  {
    if legs != [] {
      var init := legs[..|legs| - 1];
      PairsOfMember(init, k, v);
      assert forall j :: 0 <= j < |init| ==> init[j] == legs[j];
    }
  }

  /** The values seen per name over the given sides, each list sorted. */
  function ValuesOf(runs: seq<Dict>, sides: seq<string>): Values {
    SortAll(NoteAll([], PairsOf(AllLegs(runs, sides))))
  }

  /** What the summary holds: distinct names, each with a sorted list without
      repeats of exactly the values seen for it, in the order the names were
      first seen. */
  lemma ValuesSpec(runs: seq<Dict>, sides: seq<string>)
    ensures var r, seen := ValuesOf(runs, sides), PairsOf(AllLegs(runs, sides));
      && DistinctKeys(r)
      && (forall i :: 0 <= i < |r| ==> r[i].1 != [] && Distinct(r[i].1) && SortedBy(r[i].1, LexLeq))
      && (forall k, v :: Holds(r, k, v) <==> (k, v) in seen)
      && (forall k :: HasKey(r, k) <==> k in Keys(seen))
  {
    var seen := PairsOf(AllLegs(runs, sides));
    var d := NoteAll([], seen);
    NoteAllHolds([], seen);
    NoteAllWellFormed([], seen);
    SortAllSpec(d);
    var r := SortAll(d);
    forall k ensures HasKey(r, k) <==> HasKey(d, k) {
      HasKeyKeys(r, k);
      HasKeyKeys(d, k);
    }
  }

  /** `parse_all_parameters(parameters)`. */
  function AllParameters(runs: seq<Dict>): Values {
    ValuesOf(runs, [EntrySide, ExitSide])
  }

  /** `parse_entry_exit_parameters(parameters)`. */
  function EntryExitParameters(runs: seq<Dict>): (Values, Values) {
    (ValuesOf(runs, [EntrySide]), ValuesOf(runs, [ExitSide]))
  }

  /** The legs of both sides of one run are its entry legs, then its exit legs. */
  lemma BothSides(run: Dict)
    ensures RunLegs(run, [EntrySide, ExitSide]) == RunLegs(run, [EntrySide]) + RunLegs(run, [ExitSide])
  {
    assert [EntrySide, ExitSide][..1] == [EntrySide];
    assert [EntrySide][..0] == [] && [ExitSide][..0] == [];
  }

  /** Over both sides a pair is seen exactly when it is seen over one of them. */
  lemma {:induction false} BothSidesSeen(runs: seq<Dict>)
    ensures forall p :: (p in PairsOf(AllLegs(runs, [EntrySide, ExitSide]))
                         <==> p in PairsOf(AllLegs(runs, [EntrySide])) || p in PairsOf(AllLegs(runs, [ExitSide])))
  {
    if runs != [] {
      var init, run := runs[..|runs| - 1], runs[|runs| - 1];
      BothSidesSeen(init);
      BothSides(run);
      PairsOfAppend(AllLegs(init, [EntrySide, ExitSide]), RunLegs(run, [EntrySide, ExitSide]));
      PairsOfAppend(RunLegs(run, [EntrySide]), RunLegs(run, [ExitSide]));
      PairsOfAppend(AllLegs(init, [EntrySide]), RunLegs(run, [EntrySide]));
      PairsOfAppend(AllLegs(init, [ExitSide]), RunLegs(run, [ExitSide]));
    }
  }

  /** The combined summary is the union of the entry and the exit summaries. */
  lemma AllIsUnion(runs: seq<Dict>)
    ensures var all, sides := AllParameters(runs), EntryExitParameters(runs);
      forall k, v :: Holds(all, k, v) <==> Holds(sides.0, k, v) || Holds(sides.1, k, v)
  {
    ValuesSpec(runs, [EntrySide, ExitSide]);
    ValuesSpec(runs, [EntrySide]);
    ValuesSpec(runs, [ExitSide]);
    BothSidesSeen(runs);
  }

  /** `for k, v in d.items(): ...` over one leg. */
  method CollectLeg(acc: Values, fields: Dict) returns (r: Values)
    ensures r == NoteAll(acc, LegPairs(fields))
  {
    r := acc;
    ghost var ps := LegPairs(fields);
    for i := 0 to |fields|
      invariant r == NoteAll(acc, ps[..i])
    {
      var name := fields[i].0;
      NoteAllSnoc(acc, ps, i);
      assert ps[i] == (name, Str(GetOr(fields, name, JNull)));
      r := Note(r, (name, Str(GetOr(fields, name, JNull))));
    }
    assert ps[..|fields|] == ps;
  }

  lemma NoteAllSnoc(acc: Values, ps: seq<(string, string)>, i: nat)
    requires i < |ps|
    ensures NoteAll(acc, ps[..i + 1]) == Note(NoteAll(acc, ps[..i]), ps[i])
  {
    assert ps[..i + 1][..i] == ps[..i];
  }

  /** `for d in param[key]: if isinstance(d, dict): ...` over one side's legs. */
  method CollectLegs(acc: Values, legs: seq<Leg>) returns (r: Values)
    ensures r == NoteAll(acc, PairsOf(legs))
  {
    r := acc;
    for l := 0 to |legs|
      invariant r == NoteAll(acc, PairsOf(legs[..l]))
    {
      assert legs[..l + 1][..l] == legs[..l];
      NoteAllAppend(acc, PairsOf(legs[..l]), LegPairs(legs[l].full));
      r := CollectLeg(r, legs[l].full);
    }
    assert legs[..|legs|] == legs;
  }

  /** `for key in sides: ...` over one run. */
  method CollectRun(acc: Values, run: Dict, sides: seq<string>) returns (r: Values)
    ensures r == NoteAll(acc, PairsOf(RunLegs(run, sides)))
  {
    r := acc;
    for s := 0 to |sides|
      invariant r == NoteAll(acc, PairsOf(RunLegs(run, sides[..s])))
    {
      assert sides[..s + 1][..s] == sides[..s];
      var legs := LegsOf(run, sides[s]);
      PairsOfAppend(RunLegs(run, sides[..s]), legs);
      NoteAllAppend(acc, PairsOf(RunLegs(run, sides[..s])), PairsOf(legs));
      r := CollectLegs(r, legs);
    }
    assert sides[..|sides|] == sides;
  }

  /** The collecting loops as written, then `sorted(list(...))` per name. */
  method CollectValues(runs: seq<Dict>, sides: seq<string>) returns (r: Values)
    ensures r == ValuesOf(runs, sides)
  {
    var acc: Values := [];
    for j := 0 to |runs|
      invariant acc == NoteAll([], PairsOf(AllLegs(runs[..j], sides)))
    {
      assert runs[..j + 1][..j] == runs[..j];
      PairsOfAppend(AllLegs(runs[..j], sides), RunLegs(runs[j], sides));
      NoteAllAppend([], PairsOf(AllLegs(runs[..j], sides)), PairsOf(RunLegs(runs[j], sides)));
      acc := CollectRun(acc, runs[j], sides);
    }
    assert runs[..|runs|] == runs;
    r := SortEach(acc);
  }

  /** `for k in d: d[k] = sorted(list(d[k]))`. */
  method SortEach(d: Values) returns (r: Values)
    ensures r == SortAll(d)
  {
    r := [];
    for i := 0 to |d|
      invariant r == SortAll(d[..i])
    {
      assert d[..i + 1][..i] == d[..i];
      r := r + [(d[i].0, SortNames(d[i].1))];
    }
    assert d[..|d|] == d;
  }

  /** `parse_all_parameters` as written. */
  method ParseAllParameters(runs: seq<Dict>) returns (r: Values)
    ensures r == AllParameters(runs)
  {
    r := CollectValues(runs, [EntrySide, ExitSide]);
  }

  /** `parse_entry_exit_parameters` as written. */
  method ParseEntryExitParameters(runs: seq<Dict>) returns (entry: Values, exit: Values)
    ensures (entry, exit) == EntryExitParameters(runs)
  {
    entry := CollectValues(runs, [EntrySide]);
    exit := CollectValues(runs, [ExitSide]);
  }

  // ---------------------------------------------------------------------------
  // Values seen per indicator type

  /** `{indicator_type: {name: values}}`. */
  type Indicators = seq<(string, Values)>

  /** The result of `parse_indicator_param_structure`. */
  datatype IndicatorStructure = IndicatorStructure(entry: Indicators, exit: Indicators)

  const IndicatorKey: string := "indicator_type"

  /** `str(d.get('indicator_type', 'Unknown'))`. */
  function IndicatorOf(leg: Leg): string {
    Str(leg.indicatorType)
  }

  /** The pairs whose name is not `key`, in order. */
  function Without(pairs: seq<(string, string)>, key: string): (r: seq<(string, string)>)
    ensures forall p :: p in r <==> p in pairs && p.0 != key
  {
    if pairs == [] then []
    else
      var prev := Without(pairs[..|pairs| - 1], key);
      var last := pairs[|pairs| - 1];
      assert pairs == pairs[..|pairs| - 1] + [last];
      if last.0 == key then prev else prev + [last]
  }

  /** A leg's pairs other than its indicator type. */
  function ParamPairs(leg: Leg): seq<(string, string)> {
    Without(LegPairs(leg.full), IndicatorKey)
  }

  /** `v in d[ind][k]`, false when either is missing. */
  predicate HoldsUnder(d: Indicators, ind: string, k: string, v: string) {
    Get(d, ind).Some? && Holds(Get(d, ind).value, k, v)
  }

  /** No repeated indicator type, and a well-formed summary under each. */
  predicate IndicatorsWellFormed(d: Indicators) {
    DistinctKeys(d) && forall i :: 0 <= i < |d| ==> WellFormed(d[i].1)
  }

  /** One leg: register its indicator type, then note its other pairs under it. */
  function AddLeg(d: Indicators, leg: Leg): Indicators {
    var ind := IndicatorOf(leg);
    Put(d, ind, NoteAll(Get(d, ind).GetOr([]), ParamPairs(leg)))
  }

  /** Adding each leg in turn. */
  function AddLegs(d: Indicators, legs: seq<Leg>): Indicators {
    if legs == [] then d else AddLeg(AddLegs(d, legs[..|legs| - 1]), legs[|legs| - 1])
  }

  lemma {:induction false} AddLegsAppend(d: Indicators, a: seq<Leg>, b: seq<Leg>)
    ensures AddLegs(d, a + b) == AddLegs(AddLegs(d, a), b)
    decreases |b|
  {
    if b != [] {
      assert (a + b)[..|a + b| - 1] == a + b[..|b| - 1];
      AddLegsAppend(d, a, b[..|b| - 1]);
    } else {
      assert a + b == a;
    }
  }

  /** Some leg of type `ind` has the pair `(k, v)`. */
  predicate SeenUnder(legs: seq<Leg>, ind: string, k: string, v: string) {
    exists j :: 0 <= j < |legs| && IndicatorOf(legs[j]) == ind && (k, v) in ParamPairs(legs[j])
  }

  /** Some leg has type `ind`. */
  predicate TypeSeen(legs: seq<Leg>, ind: string) {
    exists j :: 0 <= j < |legs| && IndicatorOf(legs[j]) == ind
  }

  /** One leg adds its indicator type and exactly its own pairs under it. */
  lemma AddLegHolds(d: Indicators, leg: Leg, ind: string, k: string, v: string)
    ensures HoldsUnder(AddLeg(d, leg), ind, k, v)
      <==> HoldsUnder(d, ind, k, v) || (ind == IndicatorOf(leg) && (k, v) in ParamPairs(leg))
    ensures HasKey(AddLeg(d, leg), ind) <==> HasKey(d, ind) || ind == IndicatorOf(leg)
  {
    var ind0 := IndicatorOf(leg);
    var prior := Get(d, ind0).GetOr([]);
    var r := AddLeg(d, leg);
    assert Get(r, ind0) == Some(NoteAll(prior, ParamPairs(leg)));
    if ind != ind0 {
      assert Get(r, ind) == Get(d, ind);
    } else {
      NoteAllHolds(prior, ParamPairs(leg));
      assert Get(prior, k).None? ==> !Holds(prior, k, v);
    }
  }

  /** One leg more is seen exactly when it or an earlier one is. */
  lemma SeenSnoc(legs: seq<Leg>, ind: string, k: string, v: string)
    requires legs != []
    ensures var init, last := legs[..|legs| - 1], legs[|legs| - 1];
      && (SeenUnder(legs, ind, k, v) <==> SeenUnder(init, ind, k, v) || (IndicatorOf(last) == ind && (k, v) in ParamPairs(last)))
      && (TypeSeen(legs, ind) <==> TypeSeen(init, ind) || IndicatorOf(last) == ind)
  {
    var init := legs[..|legs| - 1];
    assert forall j :: 0 <= j < |init| ==> init[j] == legs[j];
  }

  /** Adding legs to nothing holds a pair under a type exactly when some leg of
      that type has it, and a type exactly when some leg has it. */
  lemma {:induction false} AddLegsHolds(legs: seq<Leg>, ind: string, k: string, v: string)
    ensures HoldsUnder(AddLegs([], legs), ind, k, v) <==> SeenUnder(legs, ind, k, v)
    ensures HasKey(AddLegs([], legs), ind) <==> TypeSeen(legs, ind)
  {
    if legs != [] {
      var init, last := legs[..|legs| - 1], legs[|legs| - 1];
      AddLegsHolds(init, ind, k, v);
      AddLegHolds(AddLegs([], init), last, ind, k, v);
      SeenSnoc(legs, ind, k, v);
    }
  }

  /** Adding a leg keeps types distinct and each summary well formed. */
  lemma {:induction false} AddLegsWellFormed(d: Indicators, legs: seq<Leg>)
    requires IndicatorsWellFormed(d)
    ensures IndicatorsWellFormed(AddLegs(d, legs))
  {
    if legs != [] {
      var prev := AddLegs(d, legs[..|legs| - 1]);
      AddLegsWellFormed(d, legs[..|legs| - 1]);
      var leg := legs[|legs| - 1];
      var ind := IndicatorOf(leg);
      var prior := Get(prev, ind).GetOr([]);
      assert WellFormed(prior) by {
        if Get(prev, ind).Some? {
          var i :| 0 <= i < |prev| && prev[i] == (ind, prior);
        }
      }
      NoteAllWellFormed(prior, ParamPairs(leg));
      PutDistinct(prev, ind, NoteAll(prior, ParamPairs(leg)));
      var r := Put(prev, ind, NoteAll(prior, ParamPairs(leg)));
      forall i | 0 <= i < |r| ensures WellFormed(r[i].1) {
        assert r[i] in r;
      }
    }
  }

  /** `sorted(list(...))` under every type. */
  function SortIndicators(d: Indicators): (r: Indicators)
    ensures Keys(r) == Keys(d)
  {
    MapValues(d, SortAll)
  }

  /** Sorting under every type keeps what each holds and sorts each list. */
  lemma SortIndicatorsSpec(d: Indicators)
    requires IndicatorsWellFormed(d)
    ensures var r := SortIndicators(d);
      && DistinctKeys(r)
      && (forall i, j :: 0 <= i < |r| && 0 <= j < |r[i].1| ==> SortedBy(r[i].1[j].1, LexLeq) && Distinct(r[i].1[j].1))
      && (forall ind, k, v :: HoldsUnder(r, ind, k, v) <==> HoldsUnder(d, ind, k, v))
      && (forall ind :: HasKey(r, ind) <==> HasKey(d, ind))
  {
    var r := SortIndicators(d);
    MapValuesDistinct(d, SortAll);
    forall i | 0 <= i < |r|
      ensures forall j :: 0 <= j < |r[i].1| ==> SortedBy(r[i].1[j].1, LexLeq) && Distinct(r[i].1[j].1)
    {
      assert Keys(r)[i] == Keys(d)[i];
      GetDistinct(r, i);
      GetDistinct(d, i);
      MapValuesGet(d, SortAll, d[i].0);
      SortAllSpec(d[i].1);
    }
    forall ind ensures Get(r, ind) == if Get(d, ind).Some? then Some(SortAll(Get(d, ind).value)) else None {
      MapValuesGet(d, SortAll, ind);
    }
    forall ind, k, v ensures HoldsUnder(r, ind, k, v) <==> HoldsUnder(d, ind, k, v) {
      if Get(d, ind).Some? {
        var i :| 0 <= i < |d| && d[i] == (ind, Get(d, ind).value);
        SortAllSpec(d[i].1);
      }
    }
    forall ind ensures HasKey(r, ind) <==> HasKey(d, ind) {
      HasKeyKeys(r, ind);
      HasKeyKeys(d, ind);
    }
  }

  /** The per-type summary of one side. */
  function IndicatorsOf(runs: seq<Dict>, side: string): Indicators {
    SortIndicators(AddLegs([], AllLegs(runs, [side])))
  }

  /** `parse_indicator_param_structure(parameters)`. */
  function IndicatorStructureOf(runs: seq<Dict>): IndicatorStructure {
    IndicatorStructure(IndicatorsOf(runs, EntrySide), IndicatorsOf(runs, ExitSide))
  }

  /** What the per-type summary holds: every type seen, once, and under it
      exactly the pairs of its legs, each list sorted and without repeats. */
  lemma IndicatorsSpec(runs: seq<Dict>, side: string)
    ensures var r, legs := IndicatorsOf(runs, side), AllLegs(runs, [side]);
      && DistinctKeys(r)
      && (forall i, j :: 0 <= i < |r| && 0 <= j < |r[i].1| ==> SortedBy(r[i].1[j].1, LexLeq) && Distinct(r[i].1[j].1))
      && (forall ind :: HasKey(r, ind) <==> TypeSeen(legs, ind))
      && (forall ind, k, v :: HoldsUnder(r, ind, k, v) <==> SeenUnder(legs, ind, k, v))
  {
    var legs := AllLegs(runs, [side]);
    var d := AddLegs([], legs);
    AddLegsWellFormed([], legs);
    SortIndicatorsSpec(d);
    forall ind, k, v ensures HoldsUnder(d, ind, k, v) <==> SeenUnder(legs, ind, k, v) {
      AddLegsHolds(legs, ind, k, v);
    }
    forall ind ensures HasKey(d, ind) <==> TypeSeen(legs, ind) {
      AddLegsHolds(legs, ind, "", "");
    }
  }

  /** A pair other than the indicator type is seen in some leg exactly when it
      is seen under that leg's type. */
  lemma SeenAnyType(legs: seq<Leg>, k: string, v: string)
    requires k != IndicatorKey
    ensures (k, v) in PairsOf(legs) <==> exists ind :: SeenUnder(legs, ind, k, v)
  {
    PairsOfMember(legs, k, v);
    if (k, v) in PairsOf(legs) {
      var j :| 0 <= j < |legs| && (k, v) in LegPairs(legs[j].full);
      assert SeenUnder(legs, IndicatorOf(legs[j]), k, v);
    }
    if exists ind :: SeenUnder(legs, ind, k, v) {
      var ind :| SeenUnder(legs, ind, k, v);
      var j :| 0 <= j < |legs| && IndicatorOf(legs[j]) == ind && (k, v) in ParamPairs(legs[j]);
      assert (k, v) in LegPairs(legs[j].full);
    }
  }

  /** The per-type summary splits the plain summary of the same side by type:
      a pair other than the indicator type is seen under some type exactly when
      the plain summary holds it. */
  lemma IndicatorsRefineValues(runs: seq<Dict>, side: string, k: string, v: string)
    requires k != IndicatorKey
    ensures Holds(ValuesOf(runs, [side]), k, v)
      <==> exists ind :: HoldsUnder(IndicatorsOf(runs, side), ind, k, v)
  {
    ValuesSpec(runs, [side]);
    IndicatorsSpec(runs, side);
    SeenAnyType(AllLegs(runs, [side]), k, v);
  }

  /** One field more notes its pair unless it is the indicator type. */
  lemma SkipStep(start: Values, fields: Dict, i: nat)
    requires i < |fields|
    ensures var p := (fields[i].0, Str(GetOr(fields, fields[i].0, JNull)));
      NoteAll(start, Without(LegPairs(fields)[..i + 1], IndicatorKey))
        == if p.0 == IndicatorKey then NoteAll(start, Without(LegPairs(fields)[..i], IndicatorKey))
           else Note(NoteAll(start, Without(LegPairs(fields)[..i], IndicatorKey)), p)
  {
    var pairs := LegPairs(fields)[..i + 1];
    assert pairs[..i] == LegPairs(fields)[..i];
    var w := Without(LegPairs(fields)[..i], IndicatorKey);
    if fields[i].0 != IndicatorKey {
      assert (w + [pairs[i]])[..|w|] == w;
    }
  }

  /** One leg as written: its type, then `for k, v in d.items()`, skipping the type. */
  method CollectIndicatorLeg(d: Indicators, leg: Leg) returns (r: Indicators)
    ensures r == AddLeg(d, leg)
  {
    var ind := Str(leg.indicatorType);
    var fields := leg.full;
    var start := Get(d, ind).GetOr([]);
    var inner := start;
    for i := 0 to |fields|
      invariant inner == NoteAll(start, Without(LegPairs(fields)[..i], IndicatorKey))
    {
      var name := fields[i].0;
      SkipStep(start, fields, i);
      if name == IndicatorKey {
        continue;
      }
      inner := Note(inner, (name, Str(GetOr(fields, name, JNull))));
    }
    assert LegPairs(fields)[..|fields|] == LegPairs(fields);
    r := Put(d, ind, inner);
  }

  /** `for d in param[key]: if isinstance(d, dict): ...` over one side's legs. */
  method CollectIndicatorLegs(d: Indicators, legs: seq<Leg>) returns (r: Indicators)
    ensures r == AddLegs(d, legs)
  {
    r := d;
    for l := 0 to |legs|
      invariant r == AddLegs(d, legs[..l])
    {
      assert legs[..l + 1][..l] == legs[..l];
      r := CollectIndicatorLeg(r, legs[l]);
    }
    assert legs[..|legs|] == legs;
  }

  /** The legs of one side of every run, as `AllLegs` over that side alone. */
  lemma OneSide(runs: seq<Dict>, side: string, j: nat)
    requires j < |runs|
    ensures AllLegs(runs[..j + 1], [side]) == AllLegs(runs[..j], [side]) + LegsOf(runs[j], side)
  {
    assert runs[..j + 1][..j] == runs[..j];
    assert [side][..0] == [];
    assert RunLegs(runs[j], [side]) == RunLegs(runs[j], []) + LegsOf(runs[j], side);
  }

  /** The loops of `parse_indicator_param_structure` for one side, then the sort. */
  method CollectIndicators(runs: seq<Dict>, side: string) returns (r: Indicators)
    ensures r == IndicatorsOf(runs, side)
  {
    var acc: Indicators := [];
    for j := 0 to |runs|
      invariant acc == AddLegs([], AllLegs(runs[..j], [side]))
    {
      var legs := LegsOf(runs[j], side);
      OneSide(runs, side, j);
      AddLegsAppend([], AllLegs(runs[..j], [side]), legs);
      acc := CollectIndicatorLegs(acc, legs);
    }
    assert runs[..|runs|] == runs;
    r := SortIndicatorsEach(acc);
  }

  /** `for ind in result[target]: for k in ...: ... = sorted(list(...))`. */
  method SortIndicatorsEach(d: Indicators) returns (r: Indicators)
    ensures r == SortIndicators(d)
  {
    r := [];
    for i := 0 to |d|
      invariant r == SortIndicators(d[..i])
    {
      assert d[..i + 1][..i] == d[..i];
      var sorted := SortEach(d[i].1);
      r := r + [(d[i].0, sorted)];
    }
    assert d[..|d|] == d;
  }

  /** `parse_indicator_param_structure` as written. */
  method ParseIndicatorStructure(runs: seq<Dict>) returns (s: IndicatorStructure)
    ensures s == IndicatorStructureOf(runs)
  {
    var entry := CollectIndicators(runs, EntrySide);
    var exit := CollectIndicators(runs, ExitSide);
    s := IndicatorStructure(entry, exit);
  }

  // ---------------------------------------------------------------------------
  // Filtering runs by parameter values

  const ParametersKey: string := "parameters"

  /** Whether one run's entry passes the filter `name: values`, or `None` when
      evaluating it raises: the entry must be an object whose `parameters`
      (default `{}`) contains `name`, and then that value must be an object
      whose `str()` of the named value lies in `values`. */
  function Matches(entry: Json, name: string, values: Json): (r: Option<bool>)
    ensures !entry.JObj? ==> r.None?
    ensures r == Some(true) ==> entry.JObj? && GetOr(entry.fields, ParametersKey, JObj([])).JObj?
  {
    if !entry.JObj? then None
    else
      var dict := GetOr(entry.fields, ParametersKey, JObj([]));
      match StrIn(name, dict)
      case None => None
      case Some(present) =>
        if !present then Some(false)
        else if dict.JObj? then StrIn(Str(GetOr(dict.fields, name, JNull)), values)
        else None
  }

  /** The value a Python dictionary holds for the key at position `i`. */
  function ValueAt(d: Dict, i: nat): Json
    requires i < |d|
  {
    GetOr(d, d[i].0, JNull)
  }

  /** The outcome of the filter `name: values` on each run, in key order. */
  function Outcomes(ps: Dict, name: string, values: Json): (r: seq<Option<bool>>)
    ensures |r| == |ps|
  {
    seq(|ps|, i requires 0 <= i < |ps| => Matches(ValueAt(ps, i), name, values))
  }

  /** The keys among the first `n` whose outcome is a pass, or `None` once an
      outcome raises. */
  function KeysWhere(keys: seq<string>, out: seq<Option<bool>>, n: nat): Option<set<string>>
    requires n <= |keys| && n <= |out|
  {
    if n == 0 then Some({})
    else
      match KeysWhere(keys, out, n - 1)
      case None => None
      case Some(found) =>
        match out[n - 1]
        case None => None
        case Some(pass) => Some(if pass then found + {keys[n - 1]} else found)
  }

  /** `matching_keys` over the first `n` runs, or `None` once one raises. */
  function MatchingKeys(ps: Dict, n: nat, name: string, values: Json): Option<set<string>>
    requires n <= |ps|
  {
    KeysWhere(Keys(ps), Outcomes(ps, name, values), n)
  }

  lemma {:induction false} KeysWhereRaise(keys: seq<string>, out: seq<Option<bool>>, n: nat)
    requires n <= |keys| && n <= |out|
    ensures KeysWhere(keys, out, n).None? <==> exists i :: 0 <= i < n && out[i].None?
  {
    if n > 0 {
      KeysWhereRaise(keys, out, n - 1);
    }
  }

  lemma {:induction false} KeysWhereMember(keys: seq<string>, out: seq<Option<bool>>, n: nat, key: string)
    requires n <= |keys| && n <= |out| && KeysWhere(keys, out, n).Some?
    ensures key in KeysWhere(keys, out, n).value <==> exists i :: 0 <= i < n && keys[i] == key && out[i] == Some(true)
  {
    if n > 0 {
      KeysWhereMember(keys, out, n - 1, key);
    }
  }

  lemma KeysWhereStep(keys: seq<string>, out: seq<Option<bool>>, i: nat, found: set<string>)
    requires i < |keys| && i < |out| && KeysWhere(keys, out, i) == Some(found)
    ensures out[i].None? ==> KeysWhere(keys, out, i + 1).None?
    ensures out[i] == Some(true) ==> KeysWhere(keys, out, i + 1) == Some(found + {keys[i]})
    ensures out[i] == Some(false) ==> KeysWhere(keys, out, i + 1) == Some(found)
  {
  }

  lemma {:induction false} KeysWhereStaysNone(keys: seq<string>, out: seq<Option<bool>>, a: nat, b: nat)
    requires a <= b <= |keys| && b <= |out| && KeysWhere(keys, out, a).None?
    ensures KeysWhere(keys, out, b).None?
    decreases b
  {
    if a < b {
      KeysWhereStaysNone(keys, out, a, b - 1);
    }
  }

  /** Evaluating one filter raises exactly when it raises for some run, and
      otherwise matches exactly the runs that pass it. */
  lemma MatchingKeysSpec(ps: Dict, n: nat, name: string, values: Json)
    requires n <= |ps|
    ensures MatchingKeys(ps, n, name, values).None?
      <==> exists i :: 0 <= i < n && Matches(ValueAt(ps, i), name, values).None?
    ensures MatchingKeys(ps, n, name, values).Some? ==>
      forall key :: key in MatchingKeys(ps, n, name, values).value
        <==> exists i :: 0 <= i < n && ps[i].0 == key && Matches(ValueAt(ps, i), name, values) == Some(true)
  {
    var keys, out := Keys(ps), Outcomes(ps, name, values);
    assert forall i :: 0 <= i < n ==> keys[i] == ps[i].0 && out[i] == Matches(ValueAt(ps, i), name, values);
    KeysWhereRaise(keys, out, n);
    if KeysWhere(keys, out, n).Some? {
      forall key ensures key in KeysWhere(keys, out, n).value
        <==> exists i :: 0 <= i < n && ps[i].0 == key && Matches(ValueAt(ps, i), name, values) == Some(true)
      {
        KeysWhereMember(keys, out, n, key);
      }
    }
  }

  /** What one filter does to `filtered_keys`: nothing when it is switched
      off, raise, or narrow the keys to the runs that pass it. */
  datatype FilterStep = Off | Raises | Narrows(matching: set<string>)

  function StepOf(ps: Dict, filters: Dict, j: nat): FilterStep
    requires j < |filters|
  {
    var values := ValueAt(filters, j);
    if !Truthy(values) then Off
    else
      match MatchingKeys(ps, |ps|, filters[j].0, values)
      case None => Raises
      case Some(matching) => Narrows(matching)
  }

  /** The step of each filter, in filter order. */
  function Steps(ps: Dict, filters: Dict): (r: seq<FilterStep>)
    ensures |r| == |filters|
  {
    seq(|filters|, j requires 0 <= j < |filters| => StepOf(ps, filters, j))
  }

  /** The keys of `start` left after the first `n` steps, or `None` once a
      step raises. */
  function Narrowed(start: set<string>, steps: seq<FilterStep>, n: nat): Option<set<string>>
    requires n <= |steps|
  {
    if n == 0 then Some(start)
    else
      match Narrowed(start, steps, n - 1)
      case None => None
      case Some(kept) =>
        match steps[n - 1]
        case Off => Some(kept)
        case Raises => None
        case Narrows(matching) => Some(kept * matching)
  }

  /** `filtered_keys` after the first `n` filters, or `None` once one raises. */
  function Surviving(ps: Dict, filters: Dict, n: nat): Option<set<string>>
    requires n <= |filters|
  {
    Narrowed(set i | 0 <= i < |ps| :: ps[i].0, Steps(ps, filters), n)
  }

  lemma {:induction false} NarrowedRaise(start: set<string>, steps: seq<FilterStep>, n: nat)
    requires n <= |steps|
    ensures Narrowed(start, steps, n).None? <==> exists j :: 0 <= j < n && steps[j].Raises?
  {
    if n > 0 {
      NarrowedRaise(start, steps, n - 1);
    }
  }

  lemma {:induction false} NarrowedMember(start: set<string>, steps: seq<FilterStep>, n: nat, key: string)
    requires n <= |steps| && Narrowed(start, steps, n).Some?
    ensures key in Narrowed(start, steps, n).value
      <==> key in start && forall j :: 0 <= j < n && steps[j].Narrows? ==> key in steps[j].matching
  {
    if n > 0 {
      NarrowedMember(start, steps, n - 1, key);
    }
  }

  lemma NarrowedStep(start: set<string>, steps: seq<FilterStep>, n: nat, kept: set<string>)
    requires n < |steps| && Narrowed(start, steps, n) == Some(kept)
    ensures steps[n].Off? ==> Narrowed(start, steps, n + 1) == Some(kept)
    ensures steps[n].Raises? ==> Narrowed(start, steps, n + 1).None?
    ensures steps[n].Narrows? ==> Narrowed(start, steps, n + 1) == Some(kept * steps[n].matching)
  {
  }

  lemma {:induction false} NarrowedStaysNone(start: set<string>, steps: seq<FilterStep>, a: nat, b: nat)
    requires a <= b <= |steps| && Narrowed(start, steps, a).None?
    ensures Narrowed(start, steps, b).None?
    decreases b
  {
    if a < b {
      NarrowedStaysNone(start, steps, a, b - 1);
    }
  }

  /** Run `key` passes filter `j`: the filter is switched off, or the run's
      entry passes it. */
  predicate Passes(ps: Dict, filters: Dict, j: nat, key: string)
    requires j < |filters|
  {
    !Truthy(ValueAt(filters, j))
      || exists i :: 0 <= i < |ps| && ps[i].0 == key && Matches(ValueAt(ps, i), filters[j].0, ValueAt(filters, j)) == Some(true)
  }

  /** A switched-on filter raises for some run. */
  predicate RaisesAt(ps: Dict, filters: Dict, j: nat)
    requires j < |filters|
  {
    Truthy(ValueAt(filters, j)) && exists i :: 0 <= i < |ps| && Matches(ValueAt(ps, i), filters[j].0, ValueAt(filters, j)).None?
  }

  /** The step of filter `j` raises exactly when the filter raises, and a run
      it does not drop is one that passes it. */
  lemma StepSpec(ps: Dict, filters: Dict, j: nat, key: string)
    requires j < |filters|
    ensures RaisesAt(ps, filters, j) <==> Steps(ps, filters)[j].Raises?
    ensures !RaisesAt(ps, filters, j) ==>
      (Passes(ps, filters, j, key) <==> (Steps(ps, filters)[j].Narrows? ==> key in Steps(ps, filters)[j].matching))
  {
    MatchingKeysSpec(ps, |ps|, filters[j].0, ValueAt(filters, j));
  }

  /** The filters raise exactly when one of them raises. */
  lemma SurvivingRaises(ps: Dict, filters: Dict, n: nat)
    requires n <= |filters|
    ensures Surviving(ps, filters, n).None? <==> exists j :: 0 <= j < n && RaisesAt(ps, filters, j)
  {
    var steps := Steps(ps, filters);
    NarrowedRaise(set i | 0 <= i < |ps| :: ps[i].0, steps, n);
    forall j | 0 <= j < n ensures RaisesAt(ps, filters, j) <==> steps[j].Raises? {
      StepSpec(ps, filters, j, "");
    }
  }

  /** Filters that do not raise keep exactly the runs that pass every one. */
  lemma SurvivingKeeps(ps: Dict, filters: Dict, n: nat, key: string)
    requires n <= |filters| && Surviving(ps, filters, n).Some?
    ensures key in Surviving(ps, filters, n).value
      <==> HasKey(ps, key) && forall j :: 0 <= j < n ==> Passes(ps, filters, j, key)
  {
    var start, steps := set i | 0 <= i < |ps| :: ps[i].0, Steps(ps, filters);
    NarrowedMember(start, steps, n, key);
    NarrowedRaise(start, steps, n);
    forall j | 0 <= j < n
      ensures Passes(ps, filters, j, key) <==> (steps[j].Narrows? ==> key in steps[j].matching)
    {
      StepSpec(ps, filters, j, key);
    }
    HasKeyKeys(ps, key);
    if key in Keys(ps) {
      var i :| 0 <= i < |ps| && Keys(ps)[i] == key;
      assert ps[i].0 == key;
    }
  }

  /** `filtered_data[key] = data.get(key, {})` for each kept key, in the order
      of the parameter keys. */
  function Selected(data: Dict, ps: Dict, kept: set<string>, n: nat): (r: Dict)
    requires n <= |ps|
  {
    if n == 0 then []
    else
      var prev := Selected(data, ps, kept, n - 1);
      var key := ps[n - 1].0;
      if key in kept then Put(prev, key, GetOr(data, key, JObj([]))) else prev
  }

  /** The selection holds exactly the kept keys among the parameter keys, each
      bound to what `data` holds for it. */
  lemma {:induction false} SelectedSpec(data: Dict, ps: Dict, kept: set<string>, n: nat, key: string)
    requires n <= |ps|
    ensures HasKey(Selected(data, ps, kept, n), key) <==> key in kept && exists i :: 0 <= i < n && ps[i].0 == key
    ensures HasKey(Selected(data, ps, kept, n), key) ==> Get(Selected(data, ps, kept, n), key) == Some(GetOr(data, key, JObj([])))
  {
    if n > 0 {
      SelectedSpec(data, ps, kept, n - 1, key);
      var prev := Selected(data, ps, kept, n - 1);
      if ps[n - 1].0 in kept && ps[n - 1].0 != key {
        assert Get(Selected(data, ps, kept, n), key) == Get(prev, key);
      }
    }
  }

  /** `filter_data_by_parameters(data, filters)`: any exception gives `data`
      back unchanged. */
  function FilterOf(data: Dict, filters: Dict): Dict {
    var params := GetOr(data, ParametersKey, JObj([]));
    if filters == [] || !params.JObj? then data
    else
      match Surviving(params.fields, filters, |filters|)
      case None => data
      case Some(kept) => Selected(data, params.fields, kept, |params.fields|)
  }

  /** What filtering returns: `data` itself without filters, when `parameters`
      is not an object (the list that `load_and_parse_data` builds included),
      or when a filter raises; otherwise exactly the runs that pass every
      switched-on filter, each bound to what `data` holds for it. */
  lemma FilterSpec(data: Dict, filters: Dict)
    ensures filters == [] ==> FilterOf(data, filters) == data
    ensures filters != [] && !GetOr(data, ParametersKey, JObj([])).JObj? ==> FilterOf(data, filters) == data
    ensures GetOr(data, ParametersKey, JObj([])).JObj? ==>
      var ps := GetOr(data, ParametersKey, JObj([])).fields;
      (exists j :: 0 <= j < |filters| && RaisesAt(ps, filters, j)) ==> FilterOf(data, filters) == data
    ensures GetOr(data, ParametersKey, JObj([])).JObj? && filters != [] ==>
      var ps, r := GetOr(data, ParametersKey, JObj([])).fields, FilterOf(data, filters);
      (forall j :: 0 <= j < |filters| ==> !RaisesAt(ps, filters, j)) ==>
        forall key :: (HasKey(r, key) <==> HasKey(ps, key) && forall j :: 0 <= j < |filters| ==> Passes(ps, filters, j, key))
          && (HasKey(r, key) ==> Get(r, key) == Some(GetOr(data, key, JObj([]))))
  {
    var params := GetOr(data, ParametersKey, JObj([]));
    if params.JObj? && filters != [] {
      var ps := params.fields;
      SurvivingRaises(ps, filters, |filters|);
      if Surviving(ps, filters, |filters|).Some? {
        var kept := Surviving(ps, filters, |filters|).value;
        var r := Selected(data, ps, kept, |ps|);
        assert FilterOf(data, filters) == r;
        forall key ensures
          && (HasKey(r, key) <==> HasKey(ps, key) && forall j :: 0 <= j < |filters| ==> Passes(ps, filters, j, key))
          && (HasKey(r, key) ==> Get(r, key) == Some(GetOr(data, key, JObj([]))))
        {
          SelectedSpec(data, ps, kept, |ps|, key);
          SurvivingKeeps(ps, filters, |filters|, key);
        }
      }
    }
  }

  /** Once a run raises, the filter raises. */
  lemma MatchingStaysNone(ps: Dict, a: nat, b: nat, name: string, values: Json)
    requires a <= b <= |ps| && MatchingKeys(ps, a, name, values).None?
    ensures MatchingKeys(ps, b, name, values).None?
  {
    KeysWhereStaysNone(Keys(ps), Outcomes(ps, name, values), a, b);
  }

  /** Once a filter raises, filtering raises. */
  lemma SurvivingStaysNone(ps: Dict, filters: Dict, a: nat, b: nat)
    requires a <= b <= |filters| && Surviving(ps, filters, a).None?
    ensures Surviving(ps, filters, b).None?
  {
    NarrowedStaysNone(set i | 0 <= i < |ps| :: ps[i].0, Steps(ps, filters), a, b);
  }

  /** The inner loop of one filter: `None` as soon as a run raises. */
  method MatchingKeysOf(ps: Dict, name: string, values: Json) returns (m: Option<set<string>>)
    ensures m == MatchingKeys(ps, |ps|, name, values)
  {
    var matching: set<string> := {};
    ghost var keys, out := Keys(ps), Outcomes(ps, name, values);
    for i := 0 to |ps|
      invariant KeysWhere(keys, out, i) == Some(matching)
    {
      var passes := Matches(GetOr(ps, ps[i].0, JNull), name, values);
      KeysWhereStep(keys, out, i, matching);
      assert out[i] == passes && keys[i] == ps[i].0;
      if passes.None? {
        MatchingStaysNone(ps, i + 1, |ps|, name, values);
        return None;
      }
      if passes.value {
        matching := matching + {ps[i].0};
      }
    }
    return Some(matching);
  }

  /** The closing loop: `filtered_data[key] = data.get(key, {})`. */
  method SelectKeys(data: Dict, ps: Dict, kept: set<string>) returns (r: Dict)
    ensures r == Selected(data, ps, kept, |ps|)
  {
    r := [];
    for i := 0 to |ps|
      invariant r == Selected(data, ps, kept, i)
    {
      if ps[i].0 in kept {
        r := Put(r, ps[i].0, GetOr(data, ps[i].0, JObj([])));
      }
    }
  }

  /** `filter_data_by_parameters` as written; an exception returns `data`. */
  method FilterDataByParameters(data: Dict, filters: Dict) returns (r: Dict)
    ensures r == FilterOf(data, filters)
  {
    if filters == [] {
      return data;
    }
    var params := GetOr(data, ParametersKey, JObj([]));
    if !params.JObj? {
      return data;
    }
    var ps := params.fields;
    var kept: set<string> := set i | 0 <= i < |ps| :: ps[i].0;
    ghost var start, steps := kept, Steps(ps, filters);
    for n := 0 to |filters|
      invariant Narrowed(start, steps, n) == Some(kept)
    {
      NarrowedStep(start, steps, n, kept);
      var values := GetOr(filters, filters[n].0, JNull);
      if !Truthy(values) {
        continue;
      }
      var matching := MatchingKeysOf(ps, filters[n].0, values);
      if matching.None? {
        SurvivingStaysNone(ps, filters, n + 1, |filters|);
        return data;
      }
      kept := kept * matching.value;
    }
    r := SelectKeys(data, ps, kept);
  }
}
