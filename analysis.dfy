/** `analyze_strategy_parameters` (plotter/DataImporter_plotter.py:876-1016): the
    runs of one strategy group are scanned, every parameter value is decoded into
    a set per parameter, and parameters with several values are told apart from
    those with one. */
module ParamAnalysis {
  import opened Wrappers
  import opened Text
  import opened Dicts
  import opened Json
  import opened Sorting
  import opened ParamCodec
  import opened StrategyGrouper

  /** Why the analysis raises instead of returning. */
  datatype Failure =
    | NotIterable   // a side's value cannot be iterated (TypeError)
    | LegNotObject  // an item of a side has no `.get` (AttributeError)
    | Unhashable    // a list or object value cannot go into a set (TypeError)
    | EmptySet      // `list(s)[0]` on an empty set (IndexError)

  /** A Python set of decoded values, listed in the order members were first added. */
  type ValueSet = seq<Decoded>

  /** Parameter name to value set, in the order names were first seen. */
  type Acc = seq<(string, ValueSet)>

  /** The returned dictionary: `{}` when the key has no group. */
  datatype Analysis =
    | NoGroup
    | Found(
        strategyKey: string,
        info: Group,
        variable: seq<(string, seq<Decoded>)>,
        fixed: seq<(string, Decoded)>,
        variableList: seq<string>,
        total: nat,
        indices: seq<nat>)

  // ---------------------------------------------------------------------------
  // Python equality and sets

  /** The number a value compares as: integers, decimals and booleans. */
  function NumValue(v: Decoded): Option<real> {
    match v
    case Int(i) => Some(i as real)
    case Dec(d) => Some(d)
    case Opaque(JBool(b)) => Some(if b then 1.0 else 0.0)
    case Opaque(JInt(i)) => Some(i as real)
    case Opaque(JFloat(d, _)) => Some(d)
    case Opaque(_) => None
  }

  /** `a == b`: numbers (booleans included) by value, anything else structurally. */
  predicate PyEq(a: Decoded, b: Decoded) {
    if NumValue(a).Some? && NumValue(b).Some? then NumValue(a) == NumValue(b) else a == b
  }

  lemma {:induction false} PyEqEquivalence()
    ensures forall a :: PyEq(a, a)
    ensures forall a, b :: PyEq(a, b) ==> PyEq(b, a)
    ensures forall a, b, c :: PyEq(a, b) && PyEq(b, c) ==> PyEq(a, c)
  {
  }

  /** Lists and objects cannot be set members. */
  predicate Hashable(v: Decoded) {
    !(v.Opaque? && (v.raw.JArr? || v.raw.JObj?))
  }

  /** `x in s`. */
  predicate InSet(s: ValueSet, x: Decoded) {
    exists y :: y in s && PyEq(y, x)
  }

  /** No two members of a set are equal. */
  predicate PyDistinct(s: ValueSet) {
    forall i, j :: 0 <= i < j < |s| ==> !PyEq(s[i], s[j])
  }

  /** `s.add(x)`: an equal member already present keeps its place. */
  function SetAdd(s: ValueSet, x: Decoded): (r: ValueSet)
    ensures forall z :: InSet(r, z) <==> InSet(s, z) || PyEq(x, z)
    ensures PyDistinct(s) ==> PyDistinct(r)
    ensures |s| <= |r| <= |s| + 1 && r[..|s|] == s
    ensures InSet(r, x)
  {
    PyEqEquivalence();
    if InSet(s, x) then s
    else
      var r := s + [x];
      assert r[|s|] == x;
      r
  }

  /** Add every value in order. */
  function AddAll(s: ValueSet, xs: seq<Decoded>): (r: ValueSet)
    ensures forall z :: InSet(r, z) <==> InSet(s, z) || exists x :: x in xs && PyEq(x, z)
    ensures PyDistinct(s) ==> PyDistinct(r)
    ensures xs != [] ==> r != []
    ensures |r| >= |s|
    decreases |xs|
  {
    if xs == [] then s
    else
      var r := AddAll(SetAdd(s, xs[0]), xs[1..]);
      assert forall x :: x in xs <==> x == xs[0] || x in xs[1..];
      r
  }

  // ---------------------------------------------------------------------------
  // Accumulating the values of a side

  /** A well-formed accumulator: names are not repeated and every set is a
      non-empty set of distinct values. */
  predicate AccOk(acc: Acc) {
    DistinctKeys(acc) && forall p :: p in acc ==> p.1 != [] && PyDistinct(p.1)
  }

  /** The set name `<side>_<indicator>_<key>`; it starts with the side. */
  function ParamName(side: string, indicator: string, key: string): (r: string)
    ensures |r| > |side| && r[..|side|] == side
  {
    var r := side + "_" + indicator + "_" + key;
    assert r == side + ("_" + indicator + "_" + key);
    r
  }

  /** One `key, value` pair of a leg: fixed fields are skipped, the value is decoded
      and its values added to the set named `<side>_<indicator>_<key>`. */
  function FieldStep(acc: Acc, side: string, indicator: string, key: string, value: Json): (r: Result<Acc, Failure>)
    ensures AccOk(acc) && r.Ok? ==> AccOk(r.value)
    ensures r.Err? <==> key != "indicator_type" && key != "strat_idx" && exists p :: p in Decode(value) && !Hashable(p)
    ensures r.Err? ==> r.error != EmptySet
  {
    if key == "indicator_type" || key == "strat_idx" then Ok(acc)
    else
      var name := ParamName(side, indicator, key);
      var parsed := Decode(value);
      if exists p :: p in parsed && !Hashable(p) then Err(Unhashable)
      else
        var prior := Get(acc, name).GetOr([]);
        PutKeepsAcc(acc, name, prior, parsed);
        Ok(Put(acc, name, AddAll(prior, parsed)))
  }

  lemma {:induction false} PutKeepsAcc(acc: Acc, name: string, prior: ValueSet, parsed: seq<Decoded>)
    requires prior == Get(acc, name).GetOr([]) && parsed != []
    ensures AccOk(acc) ==> AccOk(Put(acc, name, AddAll(prior, parsed)))
  {
    if AccOk(acc) {
      PutDistinct(acc, name, AddAll(prior, parsed));
      if Get(acc, name).Some? {
        assert (name, prior) in acc;
      }
    }
  }

  /** The pairs of one leg, in order, stopping at the first failure. */
  function FieldsStep(acc: Acc, side: string, indicator: string, fields: Dict): (r: Result<Acc, Failure>)
    ensures AccOk(acc) && r.Ok? ==> AccOk(r.value)
    decreases |fields|
    ensures r.Err? ==> r.error != EmptySet
  {
    if fields == [] then Ok(acc)
    else
      match FieldStep(acc, side, indicator, fields[0].0, fields[0].1)
      case Err(e) => Err(e)
      case Ok(a) => FieldsStep(a, side, indicator, fields[1..])
  }

  lemma FieldsUnfold(acc: Acc, side: string, indicator: string, fields: Dict, j: nat)
    requires j < |fields|
    ensures var step := FieldStep(acc, side, indicator, fields[j].0, fields[j].1);
      && (step.Err? ==> FieldsStep(acc, side, indicator, fields[j..]) == Err(step.error))
      && (step.Ok? ==> FieldsStep(acc, side, indicator, fields[j..]) == FieldsStep(step.value, side, indicator, fields[j + 1..]))
  {
    assert fields[j..][1..] == fields[j + 1..];
  }

  /** One item of a side: it must be an object; its indicator key is the leg name. */
  function LegStep(acc: Acc, side: string, item: Json): (r: Result<Acc, Failure>)
    ensures AccOk(acc) && r.Ok? ==> AccOk(r.value)
    ensures !item.JObj? ==> r == Err(LegNotObject)
    ensures r.Err? ==> r.error != EmptySet
  {
    if !item.JObj? then Err(LegNotObject)
    else FieldsStep(acc, side, MakeLeg(item.fields).name, item.fields)
  }

  function LegsStep(acc: Acc, side: string, items: seq<Json>): (r: Result<Acc, Failure>)
    ensures AccOk(acc) && r.Ok? ==> AccOk(r.value)
    decreases |items|
    ensures r.Err? ==> r.error != EmptySet
  {
    if items == [] then Ok(acc)
    else
      match LegStep(acc, side, items[0])
      case Err(e) => Err(e)
      case Ok(a) => LegsStep(a, side, items[1..])
  }

  /** What `for x in v` walks: list items, the characters of a string, the keys of
      an object; anything else cannot be iterated. */
  function SideItems(v: Json): (r: Result<seq<Json>, Failure>)
    ensures v.JArr? ==> r == Ok(v.items)
    ensures r.Err? <==> !(v.JArr? || v.JStr? || v.JObj?)
  {
    match v
    case JArr(items) => Ok(items)
    case JStr(s) => Ok(seq(|s|, i requires 0 <= i < |s| => JStr([s[i]])))
    case JObj(fields) => Ok(seq(|fields|, i requires 0 <= i < |fields| => JStr(fields[i].0)))
    case _ => Err(NotIterable)
  }

  /** One side (`"Entry"` or `"Exit"`) of one run; a run without it adds nothing. */
  function SideStep(acc: Acc, side: string, run: Dict): (r: Result<Acc, Failure>)
    ensures AccOk(acc) && r.Ok? ==> AccOk(r.value)
    ensures !HasKey(run, side + "_params") ==> r == Ok(acc)
    ensures r.Err? ==> r.error != EmptySet
  {
    match Get(run, side + "_params")
    case None => Ok(acc)
    case Some(v) =>
      match SideItems(v)
      case Err(e) => Err(e)
      case Ok(items) => LegsStep(acc, side, items)
  }

  /** The loop over the selected runs: entry values into one accumulator, exit
      values into the other. */
  function Accumulate(entry: Acc, exit: Acc, runs: seq<Dict>): (r: Result<(Acc, Acc), Failure>)
    ensures AccOk(entry) && AccOk(exit) && r.Ok? ==> AccOk(r.value.0) && AccOk(r.value.1)
    decreases |runs|
    ensures r.Err? ==> r.error != EmptySet
  {
    if runs == [] then Ok((entry, exit))
    else
      match SideStep(entry, "Entry", runs[0])
      case Err(e) => Err(e)
      case Ok(en) =>
        match SideStep(exit, "Exit", runs[0])
        case Err(e) => Err(e)
        case Ok(ex) => Accumulate(en, ex, runs[1..])
  }

  /** `{**entry, **exit}` over the accumulated sets of the selected runs. */
  function ParamSets(selected: seq<Dict>): (r: Result<Acc, Failure>)
    ensures r.Ok? ==> AccOk(r.value)
    ensures r.Err? ==> r.error != EmptySet
  {
    match Accumulate([], [], selected)
    case Err(e) => Err(e)
    case Ok(sides) =>
      UpdateDistinct(sides.0, sides.1);
      Ok(Update(sides.0, sides.1))
  }

  lemma ParamSetsUnfold(selected: seq<Dict>)
    ensures var sides := Accumulate([], [], selected);
      && (sides.Err? ==> ParamSets(selected) == Err(sides.error))
      && (sides.Ok? ==> ParamSets(selected) == Ok(Update(sides.value.0, sides.value.1)))
  {
  }

  // ---------------------------------------------------------------------------
  // What the accumulated sets hold

  /** `z in all_param_values[k]`. */
  predicate Holds(acc: Acc, k: string, z: Decoded) {
    Get(acc, k).Some? && InSet(Get(acc, k).value, z)
  }

  /** Reference definition: the pair `key: value` of a leg named `indicator` on
      `side` puts `z` into the set named `k`. */
  predicate FieldGives(side: string, indicator: string, key: string, value: Json, k: string, z: Decoded) {
    && key != "indicator_type" && key != "strat_idx"
    && k == ParamName(side, indicator, key)
    && exists x :: x in Decode(value) && PyEq(x, z)
  }

  /** A leg (an object) has a pair that puts `z` into the set named `k`. */
  predicate LegGives(side: string, item: Json, k: string, z: Decoded) {
    item.JObj? && exists f :: f in item.fields && FieldGives(side, MakeLeg(item.fields).name, f.0, f.1, k, z)
  }

  /** A leg of the run's `<side>_params` puts `z` into the set named `k`. */
  predicate SideGives(side: string, run: Dict, k: string, z: Decoded) {
    var v := Get(run, side + "_params");
    v.Some? && SideItems(v.value).Ok? && exists item :: item in SideItems(v.value).value && LegGives(side, item, k, z)
  }

  /** One field adds its decoded values to the set named after its side, its leg
      and its key, and leaves the other sets alone; the fixed fields add nothing. */
  lemma {:induction false} FieldHolds(acc: Acc, side: string, indicator: string, key: string, value: Json, k: string, z: Decoded)
    requires FieldStep(acc, side, indicator, key, value).Ok?
    ensures Holds(FieldStep(acc, side, indicator, key, value).value, k, z) <==>
      Holds(acc, k, z) || FieldGives(side, indicator, key, value, k, z)
  {
    if key != "indicator_type" && key != "strat_idx" {
      PutHolds(acc, ParamName(side, indicator, key), Decode(value), k, z);
    }
  }

  /** Adding values to the set named `name` puts exactly them into it. */
  lemma PutHolds(acc: Acc, name: string, parsed: seq<Decoded>, k: string, z: Decoded)
    ensures Holds(Put(acc, name, AddAll(Get(acc, name).GetOr([]), parsed)), k, z) <==>
      Holds(acc, k, z) || (k == name && exists x :: x in parsed && PyEq(x, z))
  {
    var prior := Get(acc, name).GetOr([]);
    assert InSet(prior, z) <==> Holds(acc, name, z);
  }

  /** A leg's fields add exactly what each of them gives. */
  lemma {:induction false} FieldsHolds(acc: Acc, side: string, indicator: string, fields: Dict, k: string, z: Decoded)
    requires FieldsStep(acc, side, indicator, fields).Ok?
    ensures Holds(FieldsStep(acc, side, indicator, fields).value, k, z) <==>
      Holds(acc, k, z) || exists f :: f in fields && FieldGives(side, indicator, f.0, f.1, k, z)
    decreases |fields|
  {
    if fields != [] {
      var a := FieldStep(acc, side, indicator, fields[0].0, fields[0].1).value;
      FieldHolds(acc, side, indicator, fields[0].0, fields[0].1, k, z);
      FieldsHolds(a, side, indicator, fields[1..], k, z);
      assert forall f :: f in fields <==> f == fields[0] || f in fields[1..];
    }
  }

  /** A leg adds exactly what its fields give under its own name. */
  lemma {:induction false} LegHolds(acc: Acc, side: string, item: Json, k: string, z: Decoded)
    requires LegStep(acc, side, item).Ok?
    ensures Holds(LegStep(acc, side, item).value, k, z) <==> Holds(acc, k, z) || LegGives(side, item, k, z)
  {
    FieldsHolds(acc, side, MakeLeg(item.fields).name, item.fields, k, z);
  }

  /** The legs of a side add exactly what each of them gives. */
  lemma {:induction false} LegsHolds(acc: Acc, side: string, items: seq<Json>, k: string, z: Decoded)
    requires LegsStep(acc, side, items).Ok?
    ensures Holds(LegsStep(acc, side, items).value, k, z) <==>
      Holds(acc, k, z) || exists item :: item in items && LegGives(side, item, k, z)
    decreases |items|
  {
    if items != [] {
      var a := LegStep(acc, side, items[0]).value;
      LegHolds(acc, side, items[0], k, z);
      LegsHolds(a, side, items[1..], k, z);
      assert forall item :: item in items <==> item == items[0] || item in items[1..];
    }
  }

  /** One side of a run adds exactly what its legs give. */
  lemma {:induction false} SideHolds(acc: Acc, side: string, run: Dict, k: string, z: Decoded)
    requires SideStep(acc, side, run).Ok?
    ensures Holds(SideStep(acc, side, run).value, k, z) <==> Holds(acc, k, z) || SideGives(side, run, k, z)
  {
    var v := Get(run, side + "_params");
    if v.Some? {
      LegsHolds(acc, side, SideItems(v.value).value, k, z);
    }
  }

  /** The runs add to the entry sets exactly what their entry legs give, and to
      the exit sets exactly what their exit legs give. */
  lemma {:induction false} AccumulateHolds(entry: Acc, exit: Acc, runs: seq<Dict>, k: string, z: Decoded)
    requires Accumulate(entry, exit, runs).Ok?
    ensures var r := Accumulate(entry, exit, runs).value;
      && (Holds(r.0, k, z) <==> Holds(entry, k, z) || exists run :: run in runs && SideGives("Entry", run, k, z))
      && (Holds(r.1, k, z) <==> Holds(exit, k, z) || exists run :: run in runs && SideGives("Exit", run, k, z))
    decreases |runs|
  {
    if runs != [] {
      var en := SideStep(entry, "Entry", runs[0]).value;
      var ex := SideStep(exit, "Exit", runs[0]).value;
      SideHolds(entry, "Entry", runs[0], k, z);
      SideHolds(exit, "Exit", runs[0], k, z);
      AccumulateHolds(en, ex, runs[1..], k, z);
      assert forall run :: run in runs <==> run == runs[0] || run in runs[1..];
    }
  }

  /** A set's name starts with the side that produced it. */
  lemma SideGivesPrefix(side: string, run: Dict, k: string, z: Decoded)
    requires SideGives(side, run, k, z)
    ensures |k| > |side| && k[..|side|] == side
  {
    var v := Get(run, side + "_params").value;
    var item :| item in SideItems(v).value && LegGives(side, item, k, z);
    var f :| f in item.fields && FieldGives(side, MakeLeg(item.fields).name, f.0, f.1, k, z);
  }

  /** Every name of a well-formed accumulator names a set with a member. */
  lemma SomeMember(acc: Acc, k: string)
    requires AccOk(acc) && HasKey(acc, k)
    ensures Holds(acc, k, Get(acc, k).value[0])
  {
    PyEqEquivalence();
    var s := Get(acc, k).value;
    assert (k, s) in acc;
    assert s[0] in s && PyEq(s[0], s[0]);
  }

  /** No name starts with both `Entry` and `Exit`. */
  lemma EntryNotExit(k: string)
    requires |k| > |"Entry"| && k[..|"Entry"|] == "Entry"
    ensures !(|k| > |"Exit"| && k[..|"Exit"|] == "Exit")
  {
    assert k[1] == k[..5][1] == 'n';
    assert k[..4][1] == k[1] && "Exit"[1] == 'x';
  }

  /** Names produced from the entry side start with `Entry`, those from the exit
      side with `Exit`, so `{**entry, **exit}` never overwrites a set. */
  lemma {:induction false} SidesDisjoint(runs: seq<Dict>, k: string)
    requires Accumulate([], [], runs).Ok?
    ensures var r := Accumulate([], [], runs).value;
      !(HasKey(r.0, k) && HasKey(r.1, k))
  {
    var r := Accumulate([], [], runs).value;
    if HasKey(r.0, k) && HasKey(r.1, k) {
      var a := Get(r.0, k).value[0];
      var b := Get(r.1, k).value[0];
      SomeMember(r.0, k);
      SomeMember(r.1, k);
      AccumulateHolds([], [], runs, k, a);
      AccumulateHolds([], [], runs, k, b);
      var ra :| ra in runs && SideGives("Entry", ra, k, a);
      var rb :| rb in runs && SideGives("Exit", rb, k, b);
      SideGivesPrefix("Entry", ra, k, a);
      SideGivesPrefix("Exit", rb, k, b);
      EntryNotExit(k);
    }
  }

  /** The merged sets hold `z` under `k` exactly when some selected run has, on its
      entry or exit side, a leg with a pair (other than `indicator_type` and
      `strat_idx`) named `<side>_<indicator_type><strat_idx>_<key>` whose decoded
      values include `z`. */
  lemma {:induction false} ParamSetsHolds(selected: seq<Dict>, k: string, z: Decoded)
    requires ParamSets(selected).Ok?
    ensures Holds(ParamSets(selected).value, k, z) <==>
      exists run :: run in selected && (SideGives("Entry", run, k, z) || SideGives("Exit", run, k, z))
  {
    var r := Accumulate([], [], selected).value;
    AccumulateHolds([], [], selected, k, z);
    SidesDisjoint(selected, k);
    assert Get(ParamSets(selected).value, k) == if HasKey(r.1, k) then Get(r.1, k) else Get(r.0, k);
  }

  // ---------------------------------------------------------------------------
  // Classifying the parameters

  /** The sort key `float(x)` for numbers and strings, 0 for anything else; None
      when `float` raises. */
  function SortKey(v: Decoded): Option<real> {
    match v
    case Opaque(JStr(s)) => ParseDec(Strip(s))
    case Opaque(JNull) => Some(0.0)
    case Opaque(JArr(_)) => Some(0.0)
    case Opaque(JObj(_)) => Some(0.0)
    case _ => NumValue(v)
  }

  predicate KeyLeq(a: Decoded, b: Decoded) {
    SortKey(a).GetOr(0.0) <= SortKey(b).GetOr(0.0)
  }

  lemma {:induction false} KeyOrder()
    ensures TotalPreorder(KeyLeq)
  {
  }

  /** The values of a variable parameter: sorted by their key when every value has
      one, otherwise as the set lists them. */
  function Ordered(vals: ValueSet): (r: seq<Decoded>)
    ensures multiset(r) == multiset(vals)
  {
    if forall v :: v in vals ==> SortKey(v).Some? then SortBy(vals, KeyLeq) else vals
  }

  /** `Ordered` is a sorted permutation when every value has a key, and leaves the
      set's order alone otherwise. */
  lemma {:induction false} OrderedSpec(vals: ValueSet)
    ensures multiset(Ordered(vals)) == multiset(vals)
    ensures (forall v :: v in vals ==> SortKey(v).Some?) ==> SortedBy(Ordered(vals), KeyLeq)
    ensures (exists v :: v in vals && SortKey(v).None?) ==> Ordered(vals) == vals
  {
    KeyOrder();
    SortSorted(vals, KeyLeq);
  }

  type Split = (seq<(string, seq<Decoded>)>, seq<(string, Decoded)>)

  /** The loop over `all_param_values`: several values make a variable parameter,
      one value a fixed one, and an empty set raises. */
  function Classify(all: Acc): Result<Split, Failure> {
    if all == [] then Ok(([], []))
    else
      match Classify(all[..|all| - 1])
      case Err(e) => Err(e)
      case Ok(split) =>
        var p := all[|all| - 1];
        if |p.1| > 1 then Ok((Put(split.0, p.0, Ordered(p.1)), split.1))
        else if p.1 == [] then Err(EmptySet)
        else Ok((split.0, Put(split.1, p.0, p.1[0])))
  }

  /** Reference definitions of the two results for one name. */
  function VariableOf(v: Option<ValueSet>): Option<seq<Decoded>> {
    if v.Some? && |v.value| > 1 then Some(Ordered(v.value)) else None
  }

  function FixedOf(v: Option<ValueSet>): Option<Decoded> {
    if v.Some? && |v.value| == 1 then Some(v.value[0]) else None
  }

  /** Classification fails only on an empty set. */
  lemma {:induction false} ClassifyFails(all: Acc)
    ensures Classify(all).Err? <==> exists p :: p in all && p.1 == []
    ensures Classify(all).Err? ==> Classify(all) == Err(EmptySet)
  {
    if all != [] {
      var prefix := all[..|all| - 1];
      ClassifyFails(prefix);
      assert forall p :: p in all <==> p in prefix || p == all[|all| - 1];
    }
  }

  /** Every parameter with several values is variable, with its values ordered;
      every parameter with one value is fixed at it; no other name appears. */
  lemma {:induction false} ClassifyPartition(all: Acc)
    requires DistinctKeys(all) && Classify(all).Ok?
    ensures forall k :: Get(Classify(all).value.0, k) == VariableOf(Get(all, k))
    ensures forall k :: Get(Classify(all).value.1, k) == FixedOf(Get(all, k))
  {
    if all != [] {
      var n := |all| - 1;
      var prefix := all[..n];
      assert DistinctKeys(prefix);
      ClassifyPartition(prefix);
      var p := all[n];
      assert !HasKey(prefix, p.0) by {
        forall i | 0 <= i < n ensures prefix[i].0 != p.0 {
          assert prefix[i] == all[i];
        }
      }
      assert Get(all, p.0) == Some(p.1);
      forall k | k != p.0 ensures Get(all, k) == Get(prefix, k) {
      }
    }
  }

  /** After a failure the classification loop stops for good. */
  lemma {:induction false} ClassifyStops(all: Acc, i: nat)
    requires i <= |all| && Classify(all[..i]).Err?
    ensures Classify(all) == Classify(all[..i])
    decreases |all| - i
  {
    if i < |all| {
      assert all[..i + 1][..i] == all[..i];
      ClassifyStops(all, i + 1);
    } else {
      assert all[..i] == all;
    }
  }

  // ---------------------------------------------------------------------------
  // The whole analysis

  /** `[parameters[i] for i in indices]`. */
  function SelectRuns(runs: seq<Dict>, indices: seq<nat>): (r: seq<Dict>)
    requires forall j :: 0 <= j < |indices| ==> indices[j] < |runs|
    ensures |r| == |indices| && forall j :: 0 <= j < |indices| ==> r[j] == runs[indices[j]]
  {
    seq(|indices|, j requires 0 <= j < |indices| => runs[indices[j]])
  }

  /** The combinations of a group index the runs. */
  lemma {:induction false} GroupIndicesInRange(runs: seq<Dict>, key: string)
    ensures Get(GroupsOf(runs), key).Some? ==>
      forall j :: 0 <= j < |Get(GroupsOf(runs), key).value.combinations| ==>
        Get(GroupsOf(runs), key).value.combinations[j] < |runs|
  {
    GroupsOfCharacterized(runs);
  }

  /** `analyze_strategy_parameters(parameters, strategy_key)`. */
  function AnalysisOf(runs: seq<Dict>, key: string): Result<Analysis, Failure> {
    GroupIndicesInRange(runs, key);
    match Get(GroupsOf(runs), key)
    case None => Ok(NoGroup)
    case Some(g) =>
      var selected := SelectRuns(runs, g.combinations);
      match ParamSets(selected)
      case Err(e) => Err(e)
      case Ok(all) =>
        match Classify(all)
        case Err(e) => Err(e)
        case Ok(split) =>
          Ok(Found(key, g, split.0, split.1, SortNames(Keys(split.0)), |selected|, g.combinations))
  }

  /** `{}` comes back exactly when no run has the key. */
  lemma {:induction false} AnalysisNoGroup(runs: seq<Dict>, key: string)
    ensures AnalysisOf(runs, key) == Ok(NoGroup) <==> forall i :: 0 <= i < |runs| ==> Signature(runs[i]) != Some(key)
  {
    GroupExists(runs, key);
    assert AnalysisOf(runs, key) == Ok(NoGroup) <==> Get(GroupsOf(runs), key).None?;
  }

  /** The sets of the analysis never come out empty, so the fixed-parameter lookup
      never raises. */
  lemma {:induction false} AnalysisNeverEmptySet(runs: seq<Dict>, key: string)
    ensures AnalysisOf(runs, key) != Err(EmptySet)
  {
    GroupIndicesInRange(runs, key);
    match Get(GroupsOf(runs), key)
    case None =>
    case Some(g) =>
      var selected := SelectRuns(runs, g.combinations);
      var sets := ParamSets(selected);
      if sets.Ok? {
        assert AccOk(sets.value);
        ClassifyFails(sets.value);
      }
  }

  /** A found analysis describes the group of its key: its runs, their number,
      the variable and fixed parameters of their merged value sets, and the sorted
      names of the variable ones. */
  lemma {:induction false} AnalysisFound(runs: seq<Dict>, key: string)
    requires AnalysisOf(runs, key).Ok? && AnalysisOf(runs, key).value.Found?
    ensures var a := AnalysisOf(runs, key).value;
      && Some(a.info) == GroupOf(runs, key)
      && a.strategyKey == key
      && a.indices == IndicesOf(Signatures(runs), key)
      && a.total == |a.indices| > 0
      && var all := ParamSets(SelectRuns(runs, a.indices)).value;
      && (forall k :: Get(a.variable, k) == VariableOf(Get(all, k)))
      && (forall k :: Get(a.fixed, k) == FixedOf(Get(all, k)))
      && SortedBy(a.variableList, LexLeq)
      && multiset(a.variableList) == multiset(Keys(a.variable))
  {
    GroupsOfCharacterized(runs);
    GroupIndicesInRange(runs, key);
    var g := Get(GroupsOf(runs), key).value;
    var all := ParamSets(SelectRuns(runs, g.combinations)).value;
    ClassifyPartition(all);
    SortNamesSorted(Keys(Classify(all).value.0));
  }

  // ---------------------------------------------------------------------------
  // The loops as written

  lemma AddAllUnfold(s: ValueSet, xs: seq<Decoded>, j: nat)
    requires j < |xs|
    ensures AddAll(s, xs[j..]) == AddAll(SetAdd(s, xs[j]), xs[j + 1..])
  {
    assert xs[j..][1..] == xs[j + 1..];
  }

  /** `for parsed_val in parsed_values: s.add(parsed_val)`. */
  method AddValues(s: ValueSet, xs: seq<Decoded>) returns (r: Result<ValueSet, Failure>)
    ensures r == if exists p :: p in xs && !Hashable(p) then Err(Unhashable) else Ok(AddAll(s, xs))
  {
    var cur := s;
    for j := 0 to |xs|
      invariant AddAll(cur, xs[j..]) == AddAll(s, xs)
      invariant forall i :: 0 <= i < j ==> Hashable(xs[i])
    {
      if !Hashable(xs[j]) {
        return Err(Unhashable);
      }
      AddAllUnfold(cur, xs, j);
      cur := SetAdd(cur, xs[j]);
    }
    assert forall p :: p in xs ==> Hashable(p);
    return Ok(cur);
  }

  /** One `key, value` pair of a leg: the body of the loop over its fields. */
  method ScanField(acc: Acc, side: string, indicator: string, key: string, value: Json) returns (r: Result<Acc, Failure>)
    ensures r == FieldStep(acc, side, indicator, key, value)
  {
    if key == "indicator_type" || key == "strat_idx" {
      return Ok(acc);
    }
    var name := ParamName(side, indicator, key);
    var added := AddValues(Get(acc, name).GetOr([]), Decode(value));
    if added.Err? {
      return Err(added.error);
    }
    return Ok(Put(acc, name, added.value));
  }

  /** The loop over one leg's `key, value` pairs. */
  method ScanLeg(acc: Acc, side: string, item: Json) returns (r: Result<Acc, Failure>)
    ensures r == LegStep(acc, side, item)
  {
    if !item.JObj? {
      return Err(LegNotObject);
    }
    var fields := item.fields;
    var indicator := MakeLeg(fields).name;
    var cur := acc;
    for j := 0 to |fields|
      invariant FieldsStep(cur, side, indicator, fields[j..]) == FieldsStep(acc, side, indicator, fields)
    {
      FieldsUnfold(cur, side, indicator, fields, j);
      var step := ScanField(cur, side, indicator, fields[j].0, fields[j].1);
      if step.Err? {
        return step;
      }
      cur := step.value;
    }
    return Ok(cur);
  }

  /** The loop over one side of one run. */
  method ScanSide(acc: Acc, side: string, run: Dict) returns (r: Result<Acc, Failure>)
    ensures r == SideStep(acc, side, run)
  {
    var v := Get(run, side + "_params");
    if v.None? {
      return Ok(acc);
    }
    var items := SideItems(v.value);
    if items.Err? {
      return Err(items.error);
    }
    var cur := acc;
    for j := 0 to |items.value|
      invariant LegsStep(cur, side, items.value[j..]) == LegsStep(acc, side, items.value)
    {
      assert items.value[j..][1..] == items.value[j + 1..];
      var step := ScanLeg(cur, side, items.value[j]);
      if step.Err? {
        return step;
      }
      cur := step.value;
    }
    return Ok(cur);
  }

  /** The loop that sorts parameters into variable and fixed ones. */
  method ClassifyParams(all: Acc) returns (r: Result<Split, Failure>)
    ensures r == Classify(all)
  {
    var variable: seq<(string, seq<Decoded>)> := [];
    var fixed: seq<(string, Decoded)> := [];
    for i := 0 to |all|
      invariant Classify(all[..i]) == Ok((variable, fixed))
    {
      assert all[..i + 1][..i] == all[..i];
      var key, vals := all[i].0, all[i].1;
      if |vals| > 1 {
        variable := Put(variable, key, Ordered(vals));
      } else if vals == [] {
        ClassifyStops(all, i + 1);
        return Err(EmptySet);
      } else {
        fixed := Put(fixed, key, vals[0]);
      }
    }
    assert all[..|all|] == all;
    return Ok((variable, fixed));
  }

  lemma AccumulateUnfold(entry: Acc, exit: Acc, runs: seq<Dict>, j: nat)
    requires j < |runs|
    ensures var en, ex := SideStep(entry, "Entry", runs[j]), SideStep(exit, "Exit", runs[j]);
      && (en.Err? ==> Accumulate(entry, exit, runs[j..]) == Err(en.error))
      && (en.Ok? && ex.Err? ==> Accumulate(entry, exit, runs[j..]) == Err(ex.error))
      && (en.Ok? && ex.Ok? ==> Accumulate(entry, exit, runs[j..]) == Accumulate(en.value, ex.value, runs[j + 1..]))
  {
    assert runs[j..][1..] == runs[j + 1..];
  }

  /** The loop over the selected runs, entry values into `entry_params` and exit
      values into `exit_params`. */
  method CollectSides(selected: seq<Dict>) returns (r: Result<(Acc, Acc), Failure>)
    ensures r == Accumulate([], [], selected)
  {
    var entry: Acc := [];
    var exit: Acc := [];
    for j := 0 to |selected|
      invariant Accumulate(entry, exit, selected[j..]) == Accumulate([], [], selected)
    {
      AccumulateUnfold(entry, exit, selected, j);
      var en := ScanSide(entry, "Entry", selected[j]);
      if en.Err? {
        return Err(en.error);
      }
      var ex := ScanSide(exit, "Exit", selected[j]);
      if ex.Err? {
        return Err(ex.error);
      }
      entry, exit := en.value, ex.value;
    }
    return Ok((entry, exit));
  }

  /** `analyze_strategy_parameters`. */
  method AnalyzeStrategy(runs: seq<Dict>, key: string) returns (r: Result<Analysis, Failure>)
    ensures r == AnalysisOf(runs, key)
  {
    var groups := IdentifyGroups(runs);
    var found := Get(groups, key);
    if found.None? {
      return Ok(NoGroup);
    }
    var g := found.value;
    GroupIndicesInRange(runs, key);
    var selected := SelectRuns(runs, g.combinations);
    var sides := CollectSides(selected);
    if sides.Err? {
      return Err(sides.error);
    }
    var entry, exit := sides.value.0, sides.value.1;
    ParamSetsUnfold(selected);
    var split := ClassifyParams(Update(entry, exit));
    if split.Err? {
      return Err(split.error);
    }
    var variable, fixed := split.value.0, split.value.1;
    return Ok(Found(key, g, variable, fixed, SortNames(Keys(variable)), |selected|, g.combinations));
  }
}
