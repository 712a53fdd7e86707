/** The metadata side of `MetricsExporter.export`
    (metricstracker/MetricsExporter_metricstracker.py): one metadata entry per
    group of the run table, the field-level merge with the `batch_metadata`
    already stored in the file, and the rewrite of the schema metadata. The
    metrics of a group are given; computing them is not part of this model. */
module MetricsExport {
  import opened Wrappers
  import opened Text
  import opened Dicts
  import opened Json
  import opened Seqs
  import Sorting

  const IdKey: string := "Backtest_id"

  // ---------------------------------------------------------------------------
  // New metadata entries

  /** One group of the run table: its `Backtest_id` (`None` when the table has
      no such column) and the strategy and buy-and-hold metrics computed for it. */
  datatype Group = Group(id: Option<Json>, strategy: Dict, bah: Dict)

  /** `{"Backtest_id": id}`, or `{}` without an id. */
  function StartMeta(id: Option<Json>): (d: Dict) {
    if id.Some? then [(IdKey, id.value)] else []
  }

  /** The metadata entry of one group: its id, then each strategy metric, then
      each buy-and-hold metric, a later key overriding an earlier one. */
  function NewMeta(g: Group): (meta: Dict)
    ensures forall k :: (Get(meta, k) ==
      if HasKey(g.bah, k) then Get(g.bah, k)
      else if HasKey(g.strategy, k) then Get(g.strategy, k)
      else if k == IdKey then g.id
      else None)
    ensures g.id.Some? ==> meta != [] && meta[0].0 == IdKey
    ensures g.id.None? ==> forall k :: HasKey(meta, k) <==> HasKey(g.strategy, k) || HasKey(g.bah, k)
  {
    var start := StartMeta(g.id);
    assert forall k :: Get(start, k) == if k == IdKey then g.id else None;
    var withStrategy := Update(start, g.strategy);
    Update(withStrategy, g.bah)
  }

  /** The entries of all groups, in group order. */
  function NewMetas(groups: seq<Group>): (metas: seq<Dict>)
    ensures |metas| == |groups| && forall i :: 0 <= i < |groups| ==> metas[i] == NewMeta(groups[i])
  {
    seq(|groups|, i requires 0 <= i < |groups| => NewMeta(groups[i]))
  }

  /** `for k in metrics: meta[k] = metrics[k]`. */
  method CopyMetrics(meta: Dict, metrics: Dict) returns (r: Dict)
    ensures r == Update(meta, metrics)
  {
    r := meta;
    for i := 0 to |metrics|
      invariant r == Update(meta, metrics[..i])
    {
      assert metrics[..i + 1][..i] == metrics[..i];
      r := Put(r, metrics[i].0, metrics[i].1);
    }
    assert metrics[..|metrics|] == metrics;
  }

  /** The group loop as written. */
  method BuildBatch(groups: seq<Group>) returns (batch: seq<Dict>)
    ensures batch == NewMetas(groups)
  {
    ghost var all := NewMetas(groups);
    batch := [];
    for j := 0 to |groups|
      invariant batch == all[..j]
    {
      PrefixSnoc(all, j);
      var g := groups[j];
      var meta: Dict := if g.id.Some? then [(IdKey, g.id.value)] else [];
      meta := CopyMetrics(meta, g.strategy);
      meta := CopyMetrics(meta, g.bah);
      batch := batch + [meta];
    }
    assert all[..|groups|] == all;
  }

  // ---------------------------------------------------------------------------
  // Merging with the stored metadata

  /** What `"Backtest_id" in m` and `m["Backtest_id"]` give for one stored
      record: no id, or an id and the record's fields. */
  datatype IdLookup = NoId | HasId(id: Json, fields: Dict)

  /** The id of one record, or `None` where Python raises: a record that is not
      a container, a list or string that contains `"Backtest_id"` (it cannot be
      indexed by a string), or an id that is a list or an object (it cannot be a
      dictionary key). */
  function IdOf(m: Json): (r: Option<IdLookup>)
    ensures r.Some? && r.value.HasId? ==> m == JObj(r.value.fields) && Get(r.value.fields, IdKey) == Some(r.value.id)
    ensures m.JObj? && !HasKey(m.fields, IdKey) ==> r == Some(NoId)
  {
    var present := StrIn(IdKey, m);
    if present.None? then None
    else if !present.value then Some(NoId)
    else if !m.JObj? then None
    else
      var id := GetOr(m.fields, IdKey, JNull);
      if id.JArr? || id.JObj? then None else Some(HasId(id, m.fields))
  }

  /** The lookup found the id `id`. */
  predicate Binds(l: Option<IdLookup>, id: Json) {
    l.Some? && l.value.HasId? && l.value.id == id
  }

  /** Record `m` carries the id `id`. */
  predicate Carries(m: Json, id: Json) {
    Binds(IdOf(m), id)
  }

  /** A map from id to record fields, as the comprehensions build it. */
  type IdMap = seq<(Json, Dict)>

  /** Distinct ids, each bound to fields whose own `Backtest_id` is that id. */
  predicate IdMapValid(d: IdMap) {
    DistinctKeys(d) && forall i :: 0 <= i < |d| ==> Get(d[i].1, IdKey) == Some(d[i].0)
  }

  /** Every id found was read from the fields found with it. */
  predicate LookupsSound(ls: seq<Option<IdLookup>>) {
    forall k :: 0 <= k < |ls| && ls[k].Some? && ls[k].value.HasId? ==>
      Get(ls[k].value.fields, IdKey) == Some(ls[k].value.id)
  }

  /** The lookup of every record, in order. */
  function Lookups(items: seq<Json>): (ls: seq<Option<IdLookup>>)
    ensures |ls| == |items| && forall k :: 0 <= k < |items| ==> ls[k] == IdOf(items[k])
    ensures LookupsSound(ls)
  {
    seq(|items|, k requires 0 <= k < |items| => IdOf(items[k]))
  }

  /** The comprehension over the lookups: each found id bound to the fields
      found with it, a later record replacing an earlier one, or `None` once a
      lookup raises. */
  function IdMapFold(ls: seq<Option<IdLookup>>): (r: Option<IdMap>)
    ensures r.Some? ==> DistinctKeys(r.value)
    ensures r.Some? && LookupsSound(ls) ==> IdMapValid(r.value)
  {
    if ls == [] then Some([])
    else
      var n := |ls| - 1;
      var prev := IdMapFold(ls[..n]);
      assert forall k :: 0 <= k < n ==> ls[..n][k] == ls[k];
      if prev.None? || ls[n].None? then None
      else if ls[n].value.NoId? then prev
      else
        var l := ls[n].value;
        var r := Put(prev.value, l.id, l.fields);
        PutDistinct(prev.value, l.id, l.fields);
        assert forall i :: 0 <= i < |r| ==> r[i] in prev.value || r[i] == (l.id, l.fields);
        Some(r)
  }

  /** `{m["Backtest_id"]: m for m in items if "Backtest_id" in m}`, or `None`
      when evaluating it raises. */
  function IdMapOf(items: seq<Json>): (r: Option<IdMap>)
    ensures r.Some? ==> IdMapValid(r.value)
  {
    IdMapFold(Lookups(items))
  }

  /** Some record makes the comprehension raise. */
  predicate SomeRaises(items: seq<Json>) {
    exists i :: 0 <= i < |items| && IdOf(items[i]).None?
  }

  /** Some record carries `id`. */
  predicate CarriedIn(items: seq<Json>, id: Json) {
    exists i :: 0 <= i < |items| && Carries(items[i], id)
  }

  /** Some lookup raises. */
  predicate AnyRaises(ls: seq<Option<IdLookup>>) {
    exists i :: 0 <= i < |ls| && ls[i].None?
  }

  /** Some lookup finds `id`. */
  predicate Finds(ls: seq<Option<IdLookup>>, id: Json) {
    exists i :: 0 <= i < |ls| && Binds(ls[i], id)
  }

  /** Some lookup of a non-empty list raises, or finds `id`, exactly when one of
      its front does or its last one does. */
  lemma LookupsSnoc(ls: seq<Option<IdLookup>>, id: Json)
    requires ls != []
    ensures AnyRaises(ls) <==> AnyRaises(ls[..|ls| - 1]) || ls[|ls| - 1].None?
    ensures Finds(ls, id) <==> Finds(ls[..|ls| - 1], id) || Binds(ls[|ls| - 1], id)
  {
    var n := |ls| - 1;
    var init := ls[..n];
    if AnyRaises(ls) {
      var i :| 0 <= i < |ls| && ls[i].None?;
      if i < n {
        assert init[i] == ls[i];
      }
    }
    if AnyRaises(init) {
      var i :| 0 <= i < n && init[i].None?;
      assert ls[i] == init[i];
    }
    if Finds(ls, id) {
      var i :| 0 <= i < |ls| && Binds(ls[i], id);
      if i < n {
        assert init[i] == ls[i];
      }
    }
    if Finds(init, id) {
      var i :| 0 <= i < n && Binds(init[i], id);
      assert ls[i] == init[i];
    }
  }

  /** The fold fails exactly when some lookup raises. */
  lemma {:induction false} FoldRaises(ls: seq<Option<IdLookup>>)
    ensures IdMapFold(ls).None? <==> AnyRaises(ls)
  {
    if ls != [] {
      FoldRaises(ls[..|ls| - 1]);
      LookupsSnoc(ls, JNull);
    }
  }

  /** One lookup more: if it finds `id` it rebinds it, otherwise the binding of
      `id` stays. */
  lemma FoldSnoc(ls: seq<Option<IdLookup>>, id: Json)
    requires ls != [] && IdMapFold(ls).Some?
    ensures IdMapFold(ls[..|ls| - 1]).Some? && ls[|ls| - 1].Some?
    ensures Get(IdMapFold(ls).value, id) ==
      if Binds(ls[|ls| - 1], id) then Some(ls[|ls| - 1].value.fields) else Get(IdMapFold(ls[..|ls| - 1]).value, id)
  {
  }

  /** The fold maps exactly the ids some lookup finds. */
  lemma {:induction false} FoldKeys(ls: seq<Option<IdLookup>>, id: Json)
    requires IdMapFold(ls).Some?
    ensures Get(IdMapFold(ls).value, id).Some? <==> Finds(ls, id)
  {
    if ls != [] {
      FoldSnoc(ls, id);
      FoldKeys(ls[..|ls| - 1], id);
      LookupsSnoc(ls, id);
    }
  }

  /** The fold binds each id to the fields of the last lookup that finds it. */
  lemma {:induction false} FoldLast(ls: seq<Option<IdLookup>>, id: Json, i: nat)
    requires IdMapFold(ls).Some? && i < |ls| && Binds(ls[i], id)
    requires forall j :: i < j < |ls| ==> !Binds(ls[j], id)
    ensures Get(IdMapFold(ls).value, id) == Some(ls[i].value.fields)
  {
    var n := |ls| - 1;
    FoldSnoc(ls, id);
    if i < n {
      forall j | i < j < n ensures !Binds(ls[..n][j], id) {
        assert ls[..n][j] == ls[j];
      }
      assert ls[..n][i] == ls[i];
      FoldLast(ls[..n], id, i);
    }
  }

  /** The comprehension raises exactly when one of the records raises. */
  lemma IdMapRaises(items: seq<Json>)
    ensures IdMapOf(items).None? <==> SomeRaises(items)
  {
    var ls := Lookups(items);
    FoldRaises(ls);
    if AnyRaises(ls) {
      var i :| 0 <= i < |ls| && ls[i].None?;
      assert IdOf(items[i]).None?;
    }
    if SomeRaises(items) {
      var i :| 0 <= i < |items| && IdOf(items[i]).None?;
      assert ls[i].None?;
    }
  }

  /** Otherwise it maps exactly the ids some record carries. */
  lemma IdMapKeys(items: seq<Json>, id: Json)
    requires IdMapOf(items).Some?
    ensures HasKey(IdMapOf(items).value, id) <==> CarriedIn(items, id)
  {
    var ls := Lookups(items);
    FoldKeys(ls, id);
    if Finds(ls, id) {
      var i :| 0 <= i < |ls| && Binds(ls[i], id);
      assert Carries(items[i], id);
    }
    if CarriedIn(items, id) {
      var i :| 0 <= i < |items| && Carries(items[i], id);
      assert Binds(ls[i], id);
    }
  }

  /** Each id is mapped to the fields of the last record that carries it. */
  lemma IdMapLast(items: seq<Json>, id: Json, i: nat)
    requires IdMapOf(items).Some? && i < |items| && Carries(items[i], id)
    requires forall j :: i < j < |items| ==> !Carries(items[j], id)
    ensures Get(IdMapOf(items).value, id) == Some(IdOf(items[i]).value.fields)
  {
    var ls := Lookups(items);
    forall j | i < j < |ls| ensures !Binds(ls[j], id) {
      assert !Carries(items[j], id);
    }
    FoldLast(ls, id, i);
  }

  /** The ids of the new side that the old side lacks, in order. */
  function NewOnly(ids: seq<Json>, oldMap: IdMap): (r: seq<Json>)
    ensures forall x :: x in r <==> x in ids && !HasKey(oldMap, x)
    ensures Sorting.Distinct(ids) ==> Sorting.Distinct(r)
  {
    if ids == [] then []
    else
      var prev := NewOnly(ids[..|ids| - 1], oldMap);
      var last := ids[|ids| - 1];
      assert ids == ids[..|ids| - 1] + [last];
      if HasKey(oldMap, last) then prev else prev + [last]
  }

  /** `set(old_map) | set(new_map)` in the order the model fixes for it: the old
      ids, then the new ones. */
  function AllIds(oldMap: IdMap, newMap: IdMap): seq<Json> {
    Keys(oldMap) + NewOnly(Keys(newMap), oldMap)
  }

  /** The merged record of one id: the old fields updated by the new ones when
      both sides have it, otherwise the one side's record. */
  function MergedRecord(oldMap: IdMap, newMap: IdMap, bid: Json): (m: Json)
    ensures m.JObj?
  {
    var o := Get(oldMap, bid);
    var n := Get(newMap, bid);
    if o.Some? && n.Some? then JObj(Update(o.value, n.value))
    else if n.Some? then JObj(n.value)
    else JObj(o.GetOr([]))
  }

  /** The merged list, one record per id. */
  function MergedOf(oldMap: IdMap, newMap: IdMap): (r: seq<Json>)
    ensures |r| == |AllIds(oldMap, newMap)|
    ensures forall i :: 0 <= i < |r| ==> r[i] == MergedRecord(oldMap, newMap, AllIds(oldMap, newMap)[i])
  {
    var ids := AllIds(oldMap, newMap);
    seq(|ids|, i requires 0 <= i < |ids| => MergedRecord(oldMap, newMap, ids[i]))
  }

  /** The ids of the merged list are distinct, and are exactly those of either side. */
  lemma AllIdsSpec(oldMap: IdMap, newMap: IdMap)
    requires DistinctKeys(oldMap) && DistinctKeys(newMap)
    ensures Sorting.Distinct(AllIds(oldMap, newMap))
    ensures forall x :: x in AllIds(oldMap, newMap) <==> HasKey(oldMap, x) || HasKey(newMap, x)
  {
    var a, b := Keys(oldMap), NewOnly(Keys(newMap), oldMap);
    assert Sorting.Distinct(a) by {
      forall i, j | 0 <= i < j < |a| ensures a[i] != a[j] {
        assert a[i] == oldMap[i].0 && a[j] == oldMap[j].0;
      }
    }
    assert Sorting.Distinct(Keys(newMap)) by {
      forall i, j | 0 <= i < j < |newMap| ensures Keys(newMap)[i] != Keys(newMap)[j] {
        assert Keys(newMap)[i] == newMap[i].0 && Keys(newMap)[j] == newMap[j].0;
      }
    }
    forall i, j | 0 <= i < |a| && 0 <= j < |b| ensures a[i] != b[j] {
      assert b[j] in b;
      HasKeyKeys(oldMap, a[i]);
    }
    var ids := a + b;
    forall i, j | 0 <= i < j < |ids| ensures ids[i] != ids[j] {
      if j < |a| {
      } else if i >= |a| {
        assert ids[i] == b[i - |a|] && ids[j] == b[j - |a|];
      } else {
        assert ids[j] == b[j - |a|];
      }
    }
    forall x ensures x in ids <==> HasKey(oldMap, x) || HasKey(newMap, x) {
      HasKeyKeys(oldMap, x);
      HasKeyKeys(newMap, x);
    }
  }

  /** The fields a valid map binds to `bid` carry `bid` as their own id. */
  lemma ValidGet(d: IdMap, bid: Json)
    requires IdMapValid(d) && HasKey(d, bid)
    ensures Get(Get(d, bid).value, IdKey) == Some(bid)
  {
    var k :| 0 <= k < |d| && d[k].0 == bid;
    GetDistinct(d, k);
  }

  /** What the merge keeps for one id: the merged record carries that id; when
      both sides have it, each field is read from the new side if the new side
      has it and from the old side otherwise; an id on one side keeps that
      side's record unchanged. */
  lemma MergedRecordSpec(oldMap: IdMap, newMap: IdMap, bid: Json)
    requires IdMapValid(oldMap) && IdMapValid(newMap) && (HasKey(oldMap, bid) || HasKey(newMap, bid))
    ensures var m := MergedRecord(oldMap, newMap, bid);
      && Get(m.fields, IdKey) == Some(bid)
      && (HasKey(oldMap, bid) && HasKey(newMap, bid) ==>
            forall f :: Get(m.fields, f) == if HasKey(Get(newMap, bid).value, f) then Get(Get(newMap, bid).value, f) else Get(Get(oldMap, bid).value, f))
      && (HasKey(newMap, bid) && !HasKey(oldMap, bid) ==> m == JObj(Get(newMap, bid).value))
      && (HasKey(oldMap, bid) && !HasKey(newMap, bid) ==> m == JObj(Get(oldMap, bid).value))
  {
    if HasKey(newMap, bid) {
      ValidGet(newMap, bid);
    } else {
      ValidGet(oldMap, bid);
    }
  }

  /** The merged list has one record per id of either side, in the order of
      `AllIds`, each carrying its id, and no id twice. */
  lemma MergeSpec(oldMap: IdMap, newMap: IdMap)
    requires IdMapValid(oldMap) && IdMapValid(newMap)
    ensures var ids, r := AllIds(oldMap, newMap), MergedOf(oldMap, newMap);
      && Sorting.Distinct(ids)
      && (forall x :: x in ids <==> HasKey(oldMap, x) || HasKey(newMap, x))
      && (forall i :: 0 <= i < |r| ==> r[i] == MergedRecord(oldMap, newMap, ids[i]) && Get(r[i].fields, IdKey) == Some(ids[i]))
  {
    AllIdsSpec(oldMap, newMap);
    var ids := AllIds(oldMap, newMap);
    forall i | 0 <= i < |ids| ensures Get(MergedRecord(oldMap, newMap, ids[i]).fields, IdKey) == Some(ids[i]) {
      assert ids[i] in ids;
      MergedRecordSpec(oldMap, newMap, ids[i]);
    }
  }

  /** Why the merge can fail: `TypeError`s Python raises while merging. */
  datatype MergeError = TypeError

  /** The new entries as JSON objects. */
  function NewBatch(groups: seq<Group>): (r: seq<Json>)
    ensures |r| == |groups| && forall i :: 0 <= i < |groups| ==> r[i] == JObj(NewMeta(groups[i]))
  {
    var metas := NewMetas(groups);
    seq(|metas|, i requires 0 <= i < |metas| => JObj(metas[i]))
  }

  /** The `batch_metadata` written back: the new entries as they are when the
      stored list is missing, undecodable or empty, and otherwise their
      field-level merge with the stored one. `stored` is the decoded stored
      value, `None` when it is missing or does not decode. */
  function BatchOf(groups: seq<Group>, stored: Option<Json>): Result<seq<Json>, MergeError> {
    var batch := NewBatch(groups);
    if stored.None? || !Truthy(stored.value) then Ok(batch)
    else
      var items := Items(stored.value);
      if items.None? then Err(TypeError)
      else
        var oldMap := IdMapOf(items.value);
        var newMap := IdMapOf(batch);
        if oldMap.None? || newMap.None? then Err(TypeError)
        else Ok(MergedOf(oldMap.value, newMap.value))
  }

  /** Without stored entries the new entries are written unchanged; a stored
      value that is not a container, or a record on either side that raises,
      fails the merge; after a merge every id carried on either side appears in
      exactly one record, which carries it. */
  lemma BatchSpec(groups: seq<Group>, stored: Option<Json>)
    ensures stored.None? || !Truthy(stored.value) ==> BatchOf(groups, stored) == Ok(NewBatch(groups))
    ensures stored.Some? && Truthy(stored.value) ==>
      (BatchOf(groups, stored).Err? <==>
        Items(stored.value).None? || SomeRaises(Items(stored.value).value) || SomeRaises(NewBatch(groups)))
    ensures BatchOf(groups, stored).Ok? && stored.Some? && Truthy(stored.value) ==>
      var items, r := Items(stored.value).value, BatchOf(groups, stored).value;
      var ids := AllIds(IdMapOf(items).value, IdMapOf(NewBatch(groups)).value);
      && |r| == |ids| && Sorting.Distinct(ids)
      && (forall i :: 0 <= i < |r| ==> r[i].JObj? && Get(r[i].fields, IdKey) == Some(ids[i]))
      && (forall id :: id in ids <==> CarriedIn(items, id) || CarriedIn(NewBatch(groups), id))
  {
    var batch := NewBatch(groups);
    IdMapRaises(batch);
    if stored.Some? && Truthy(stored.value) && Items(stored.value).Some? {
      var items := Items(stored.value).value;
      IdMapRaises(items);
      if BatchOf(groups, stored).Ok? {
        var oldMap, newMap := IdMapOf(items).value, IdMapOf(batch).value;
        MergeSpec(oldMap, newMap);
        forall id ensures HasKey(oldMap, id) <==> CarriedIn(items, id) {
          IdMapKeys(items, id);
        }
        forall id ensures HasKey(newMap, id) <==> CarriedIn(batch, id) {
          IdMapKeys(batch, id);
        }
      }
    }
  }

  /** The body of the merge loop for one id. */
  method MergeOne(oldMap: IdMap, newMap: IdMap, bid: Json) returns (rec: Json)
    ensures rec == MergedRecord(oldMap, newMap, bid)
  {
    var o := Get(oldMap, bid);
    var n := Get(newMap, bid);
    if o.Some? && n.Some? {
      var fields := CopyMetrics(o.value, n.value);
      rec := JObj(fields);
    } else if n.Some? {
      rec := JObj(n.value);
    } else {
      rec := JObj(o.GetOr([]));
    }
  }

  /** The merge loop as written: `for bid in all_ids`, appending one record each. */
  method MergeBatch(oldMap: IdMap, newMap: IdMap) returns (merged: seq<Json>)
    ensures merged == MergedOf(oldMap, newMap)
  {
    var ids := Keys(oldMap) + NewOnly(Keys(newMap), oldMap);
    ghost var all := MergedOf(oldMap, newMap);
    assert ids == AllIds(oldMap, newMap);
    merged := [];
    for i := 0 to |ids|
      invariant merged == all[..i]
    {
      var rec := MergeOne(oldMap, newMap, ids[i]);
      PrefixSnoc(all, i);
      merged := merged + [rec];
    }
    assert all[..|ids|] == all;
  }

  // ---------------------------------------------------------------------------
  // The schema metadata

  /** A schema-metadata key: bytes, or text that is encoded before writing. */
  datatype SchemaKey = Raw(bytes: seq<bv8>) | Text(text: string)

  /** UTF-8 encoding of one character. */
  function Utf8Char(c: char): (r: seq<bv8>)
    ensures 1 <= |r| <= 4
  {
    var n := c as int;
    if n < 0x80 then [n as bv8]
    else if n < 0x800 then [(0xC0 + n / 64) as bv8, (0x80 + n % 64) as bv8]
    else if n < 0x10000 then [(0xE0 + n / 4096) as bv8, (0x80 + (n / 64) % 64) as bv8, (0x80 + n % 64) as bv8]
    else [(0xF0 + n / 262144) as bv8, (0x80 + (n / 4096) % 64) as bv8, (0x80 + (n / 64) % 64) as bv8, (0x80 + n % 64) as bv8]
  }

  /** `s.encode()`. */
  function Utf8(s: string): (r: seq<bv8>)
    ensures |r| >= |s|
  {
    if s == [] then [] else Utf8(s[..|s| - 1]) + Utf8Char(s[|s| - 1])
  }

  /** `k if isinstance(k, bytes) else str(k).encode()`. */
  function KeyBytes(k: SchemaKey): seq<bv8> {
    match k
    case Raw(b) => b
    case Text(s) => Utf8(s)
  }

  /** Text made only of ASCII characters. */
  predicate Ascii(s: string) {
    forall i :: 0 <= i < |s| ==> s[i] as int < 0x80
  }

  /** The bytes of ASCII text, one per character. */
  function AsciiBytes(s: string): seq<bv8>
    requires Ascii(s)
  {
    seq(|s|, i requires 0 <= i < |s| => s[i] as int as bv8)
  }

  /** `b"batch_metadata"`. */
  const BatchKey: seq<bv8> := [0x62, 0x61, 0x74, 0x63, 0x68, 0x5f, 0x6d, 0x65, 0x74, 0x61, 0x64, 0x61, 0x74, 0x61]

  /** The stored entries with their keys in bytes, in order. */
  function Rekeyed(orig: seq<(SchemaKey, seq<bv8>)>): (r: seq<(seq<bv8>, seq<bv8>)>)
    ensures |r| == |orig| && forall i :: 0 <= i < |orig| ==> r[i] == (KeyBytes(orig[i].0), orig[i].1)
  {
    seq(|orig|, i requires 0 <= i < |orig| => (KeyBytes(orig[i].0), orig[i].1))
  }

  /** The comprehension that turns every key into bytes; two keys with the same
      bytes collapse, the later value winning. */
  function Normalized(orig: seq<(SchemaKey, seq<bv8>)>): (r: seq<(seq<bv8>, seq<bv8>)>)
    ensures DistinctKeys(r)
  {
    if orig == [] then []
    else
      var prev := Normalized(orig[..|orig| - 1]);
      var last := orig[|orig| - 1];
      PutDistinct(prev, KeyBytes(last.0), last.1);
      Put(prev, KeyBytes(last.0), last.1)
  }

  /** One stored entry more: one byte-keyed entry more. */
  lemma RekeyedSnoc(orig: seq<(SchemaKey, seq<bv8>)>)
    requires orig != []
    ensures var n := |orig| - 1;
      Rekeyed(orig) == Rekeyed(orig[..n]) + [(KeyBytes(orig[n].0), orig[n].1)]
  {
    var n := |orig| - 1;
    var a := Rekeyed(orig);
    var b := Rekeyed(orig[..n]) + [(KeyBytes(orig[n].0), orig[n].1)];
    forall i | 0 <= i < |a| ensures a[i] == b[i] {
      if i < n {
        assert orig[..n][i] == orig[i];
      }
    }
  }

  /** Normalising reads as the last binding of each encoded key. */
  lemma {:induction false} NormalizedGet(orig: seq<(SchemaKey, seq<bv8>)>, k: seq<bv8>)
    ensures Get(Normalized(orig), k) == Get(Rekeyed(orig), k)
  {
    if orig != [] {
      var init := orig[..|orig| - 1];
      var last := orig[|orig| - 1];
      NormalizedGet(init, k);
      RekeyedSnoc(orig);
      GetSnoc(Rekeyed(init), (KeyBytes(last.0), last.1), k);
    }
  }

  /** When the encoded keys are already distinct, normalising changes nothing. */
  lemma {:induction false} NormalizedDistinct(orig: seq<(SchemaKey, seq<bv8>)>)
    requires DistinctKeys(Rekeyed(orig))
    ensures Normalized(orig) == Rekeyed(orig)
  {
    if orig != [] {
      var init := orig[..|orig| - 1];
      var k := KeyBytes(orig[|orig| - 1].0);
      var re := Rekeyed(orig);
      var prev := Rekeyed(init);
      RekeyedSnoc(orig);
      assert re == prev + [(k, orig[|orig| - 1].1)];
      assert DistinctKeys(prev) by {
        forall i, j | 0 <= i < j < |prev| ensures prev[i].0 != prev[j].0 {
          assert prev[i] == re[i] && prev[j] == re[j];
        }
      }
      NormalizedDistinct(init);
      assert !HasKey(prev, k) by {
        forall i | 0 <= i < |prev| ensures prev[i].0 != k {
          assert prev[i] == re[i];
        }
      }
    }
  }

  /** The rewritten schema metadata: the stored entries with byte keys, and
      `batch_metadata` set to `payload` (the serialised merged list). */
  function SchemaOf(orig: seq<(SchemaKey, seq<bv8>)>, payload: seq<bv8>): seq<(seq<bv8>, seq<bv8>)> {
    Put(Normalized(orig), BatchKey, payload)
  }

  /** The rewritten schema reads `payload` under `batch_metadata` and, under
      every other key, the last value stored under it. */
  lemma SchemaGet(orig: seq<(SchemaKey, seq<bv8>)>, payload: seq<bv8>, k: seq<bv8>)
    ensures Get(SchemaOf(orig, payload), k) == if k == BatchKey then Some(payload) else Get(Rekeyed(orig), k)
  {
    NormalizedGet(orig, k);
  }

  /** Every stored key survives, encoded to bytes and in its place, keeping
      its value; only `batch_metadata` is replaced, or added last. */
  lemma SchemaSpec(orig: seq<(SchemaKey, seq<bv8>)>, payload: seq<bv8>)
    ensures var r := SchemaOf(orig, payload);
      && DistinctKeys(r)
      && Get(r, BatchKey) == Some(payload)
      && (forall k :: k != BatchKey ==> Get(r, k) == Get(Rekeyed(orig), k))
      && (forall i :: 0 <= i < |orig| ==> HasKey(r, KeyBytes(orig[i].0)))
      && Keys(r)[..|Normalized(orig)|] == Keys(Normalized(orig))
  {
    var norm := Normalized(orig);
    var r := SchemaOf(orig, payload);
    PutDistinct(norm, BatchKey, payload);
    forall k ensures Get(r, k) == if k == BatchKey then Some(payload) else Get(Rekeyed(orig), k) {
      SchemaGet(orig, payload, k);
    }
    forall i | 0 <= i < |orig| ensures HasKey(r, KeyBytes(orig[i].0)) {
      var k := KeyBytes(orig[i].0);
      assert Rekeyed(orig)[i].0 == k;
      assert HasKey(Rekeyed(orig), k);
      if k != BatchKey {
        assert Get(Rekeyed(orig), k).Some?;
      }
    }
  }

  /** An ASCII character encodes to its own code, in one byte. */
  lemma AsciiChar(c: char)
    requires c as int < 0x80
    ensures Utf8Char(c) == [c as int as bv8]
  {
  }

  /** ASCII text with one character more has one byte more. */
  lemma AsciiBytesSnoc(s: string)
    requires s != [] && Ascii(s)
    ensures Ascii(s[..|s| - 1])
    ensures AsciiBytes(s) == AsciiBytes(s[..|s| - 1]) + [s[|s| - 1] as int as bv8]
  {
    var n := |s| - 1;
    var init := s[..n];
    forall i | 0 <= i < n ensures init[i] as int < 0x80 {
      assert init[i] == s[i];
    }
    var a := AsciiBytes(s);
    var b := AsciiBytes(init) + [s[n] as int as bv8];
    forall i | 0 <= i < |a| ensures a[i] == b[i] {
      if i < n {
        assert init[i] == s[i];
      }
    }
  }

  /** Text made of ASCII characters encodes to one byte per character. */
  lemma {:induction false} Utf8Ascii(s: string)
    requires Ascii(s)
    ensures Utf8(s) == AsciiBytes(s)
  {
    if s != [] {
      var n := |s| - 1;
      AsciiBytesSnoc(s);
      Utf8Ascii(s[..n]);
      AsciiChar(s[n]);
    }
  }

  /** A text key `batch_metadata` encodes onto the same key, so it is replaced too. */
  lemma BatchKeyText()
    ensures KeyBytes(Text("batch_metadata")) == BatchKey
  {
    var s := "batch_metadata";
    assert Ascii(s);
    Utf8Ascii(s);
    assert AsciiBytes(s) == BatchKey;
  }
}
