/** Reading backtest result files into per-run records (plotter/DataImporter_plotter.py):
    the file-name rule, the one-file loader that joins the rows of a result table
    with its `batch_metadata`, the serial loader, the file-selection rule and the
    aggregation of all records by `Backtest_id`. A file is given as its selected
    columns, its rows and its decoded metadata; reading it from disk is not part
    of this model. */
module RecordLoader {
  import opened Wrappers
  import opened Text
  import opened Dicts
  import opened Json
  import opened StrategyGrouper
  import opened ParamCodec
  import opened Seqs

  // ---------------------------------------------------------------------------
  // File names

  /** The last position of `c` in `s`. */
  function LastIndexOf(s: string, c: char): (r: Option<nat>)
    ensures r.Some? ==> r.value < |s| && s[r.value] == c && forall k :: r.value < k < |s| ==> s[k] != c
    ensures r.None? ==> c !in s
  {
    if s == [] then None
    else if s[|s| - 1] == c then Some(|s| - 1)
    else
      var r := LastIndexOf(s[..|s| - 1], c);
      assert forall k :: 0 <= k < |s| - 1 ==> s[..|s| - 1][k] == s[k];
      r
  }

  /** `os.path.basename`: what follows the last `/`. */
  function BaseName(path: string): (r: string)
    ensures '/' !in r
    ensures '/' !in path ==> r == path
  {
    match LastIndexOf(path, '/')
    case None => path
    case Some(i) => path[i + 1..]
  }

  /** `os.path.splitext(name)[0]`: the name without its last extension; a name
      whose dots all lead has none. */
  function Stem(name: string): (r: string)
    ensures '.' !in name ==> r == name
  {
    match LastIndexOf(name, '.')
    case None => name
    case Some(i) => if exists k :: 0 <= k < i && name[k] != '.' then name[..i] else name
  }

  /** What `parse_parameters_from_filename` returns; its `parameters` entry is
      always empty and is left out. */
  datatype FileParams = FileParams(filename: string, referenceCode: string)

  /** `parse_parameters_from_filename(filename)`: the reference code is the second
      `_`-separated token of the stem when the stem contains `_metrics`. */
  function FilenameParams(path: string): (r: FileParams)
    ensures r.filename == BaseName(path)
    ensures !Contains(Stem(BaseName(path)), "_metrics") ==> r.referenceCode == ""
    ensures r.referenceCode != "" ==> '_' !in r.referenceCode && Contains(Stem(BaseName(path)), "_" + r.referenceCode)
  {
    var base := BaseName(path);
    var stem := Stem(base);
    if Contains(stem, "_metrics") then
      var parts := Split(stem, '_');
      if |parts| >= 2 then
        var code := parts[1];
        if code != "" then
          CodeInStem(stem);
          FileParams(base, code)
        else FileParams(base, code)
      else FileParams(base, "")
    else FileParams(base, "")
  }

  /** The second `_`-separated token of a stem holds no `_` and follows one in the stem. */
  lemma CodeInStem(stem: string)
    requires |Split(stem, '_')| >= 2
    ensures '_' !in Split(stem, '_')[1] && Contains(stem, "_" + Split(stem, '_')[1])
  {
    var parts := Split(stem, '_');
    JoinSplit(stem, '_');
    JoinTwo(parts);
    ContainsAt(stem, "_" + parts[1], |parts[0]|);
  }

  /** `Join` spelled out over its first two parts. */
  lemma JoinTwo(parts: seq<string>)
    requires |parts| >= 2
    ensures var s := Join(parts, "_");
      |parts[0]| + 1 + |parts[1]| <= |s| && s[|parts[0]|..|parts[0]| + 1 + |parts[1]|] == "_" + parts[1]
  {
    var s := Join(parts, "_");
    var tail := Join(parts[1..], "_");
    assert s == parts[0] + "_" + tail;
    JoinStarts(parts[1..], "_");
    assert tail[..|parts[1]|] == parts[1];
    assert s[|parts[0]|..|parts[0]| + 1 + |parts[1]|] == "_" + tail[..|parts[1]|];
  }

  /** A join starts with its first part. */
  lemma JoinStarts(parts: seq<string>, sep: string)
    requires parts != []
    ensures |parts[0]| <= |Join(parts, sep)| && Join(parts, sep)[..|parts[0]|] == parts[0]
  {
    if |parts| > 1 {
      assert Join(parts, sep) == parts[0] + (sep + Join(parts[1..], sep));
    }
  }

  lemma BaseNameOf(dir: string, name: string)
    requires '/' !in name
    ensures BaseName(dir + "/" + name) == name
  {
    var path := dir + "/" + name;
    assert path[|dir|] == '/';
    forall k | |dir| < k < |path| ensures path[k] != '/' {
      assert path[k] == name[k - |dir| - 1];
    }
    assert LastIndexOf(path, '/') == Some(|dir|);
    assert path[|dir| + 1..] == name;
  }

  lemma StemOf(stem: string, ext: string)
    requires stem != [] && stem[0] != '.' && '.' !in ext
    ensures Stem(stem + "." + ext) == stem
  {
    var name := stem + "." + ext;
    assert name[|stem|] == '.';
    forall k | |stem| < k < |name| ensures name[k] != '.' {
      assert name[k] == ext[k - |stem| - 1];
    }
    assert LastIndexOf(name, '.') == Some(|stem|);
    assert name[0] == stem[0];
    assert name[..|stem|] == stem;
  }

  /** `date_code_metrics` is the join of its three parts. */
  lemma MetricsJoin(date: string, code: string)
    ensures date + "_" + code + "_metrics" == Join([date, code, "metrics"], "_")
  {
    var parts := [date, code, "metrics"];
    var tail := Join([code, "metrics"], "_");
    assert [code, "metrics"][1..] == ["metrics"];
    assert Join(["metrics"], "_") == "metrics";
    assert tail == code + "_" + "metrics";
    assert parts[1..] == [code, "metrics"];
    assert Join(parts, "_") == date + "_" + tail;
  }

  lemma MetricsStem(date: string, code: string)
    requires '_' !in date && '_' !in code
    ensures Split(date + "_" + code + "_metrics", '_') == [date, code, "metrics"]
    ensures Contains(date + "_" + code + "_metrics", "_metrics")
  {
    var stem := date + "_" + code + "_metrics";
    MetricsJoin(date, code);
    assert '_' !in "metrics";
    SplitJoin([date, code, "metrics"], '_');
    var at := |date| + 1 + |code|;
    assert stem[at..] == "_metrics";
    ContainsAt(stem, "_metrics", at);
  }

  /** The documented name shape holds no `/` when its date and code hold none. */
  lemma MetricsName(date: string, code: string)
    requires '/' !in date && '/' !in code
    ensures var name := date + "_" + code + "_metrics.parquet";
      && '/' !in name
      && name == (date + "_" + code + "_metrics") + "." + "parquet"
  {
    var name := date + "_" + code + "_metrics.parquet";
    var rest := "_metrics.parquet";
    assert forall k :: 0 <= k < |rest| ==> rest[k] != '/';
    forall k | 0 <= k < |name| ensures name[k] != '/' {
      if k < |date| {
        assert name[k] == date[k];
      } else if |date| < k < |date| + 1 + |code| {
        assert name[k] == code[k - |date| - 1];
      } else if k >= |date| + 1 + |code| {
        assert name[k] == rest[k - |date| - 1 - |code|];
      }
    }
  }

  /** The documented name shape `<date>_<code>_metrics.parquet` gives back its code. */
  lemma FilenameRoundTrip(dir: string, date: string, code: string)
    requires date != [] && code != []
    requires '_' !in date && '_' !in code && '/' !in date && '/' !in code && date[0] != '.'
    ensures FilenameParams(dir + "/" + date + "_" + code + "_metrics.parquet")
      == FileParams(date + "_" + code + "_metrics.parquet", code)
  {
    var stem := date + "_" + code + "_metrics";
    var name := date + "_" + code + "_metrics.parquet";
    MetricsName(date, code);
    assert dir + "/" + date + "_" + code + "_metrics.parquet" == dir + "/" + name;
    BaseNameOf(dir, name);
    assert stem[0] == date[0];
    StemOf(stem, "parquet");
    MetricsStem(date, code);
    ParamsOfStem(dir + "/" + name, name, stem, date, code);
  }

  /** The code read from a stem already split into date, code and `metrics`. */
  lemma ParamsOfStem(path: string, base: string, stem: string, date: string, code: string)
    requires BaseName(path) == base && Stem(base) == stem && code != []
    requires Contains(stem, "_metrics") && Split(stem, '_') == [date, code, "metrics"]
    ensures FilenameParams(path) == FileParams(base, code)
  {
  }

  // ---------------------------------------------------------------------------
  // One result file

  /** One row of a result table, over the selected columns `Backtest_id`, `Time`,
      `Equity_value` and `BAH_Equity` (a missing value is `JNull`). */
  datatype Row = Row(id: Json, time: Json, equity: Json, bah: Json)

  /** Which of the selected columns the table has. */
  datatype Columns = Columns(time: bool, equity: bool, bah: bool, id: bool)

  /** The `batch_metadata` entry of the schema metadata: missing, not decodable
      as JSON text, or the decoded value. */
  datatype MetaField = Absent | Undecodable | Decoded(value: Json)

  /** A result file: unreadable, or its columns, rows and metadata. */
  datatype ResultFile = Unreadable | Table(columns: Columns, rows: seq<Row>, meta: MetaField)

  /** A curve as (time, value) pairs in row order. */
  type Curve = seq<(Json, Json)>

  /** One loaded run: its id, its metadata entry, its two curves and its file. */
  datatype Record = Record(id: Json, metrics: Dict, equity: Option<Curve>, bah: Option<Curve>, path: string)

  /** What `for i, meta_item in enumerate(batch_metadata)` walks over, or `None`
      when the metadata cannot be decoded or iterated. */
  function MetaEntries(meta: MetaField): Option<seq<Json>> {
    match meta
    case Absent => Some([])
    case Undecodable => None
    case Decoded(v) => Items(v)
  }

  /** The rows carrying `id`, in row order. */
  function RowsWith(rows: seq<Row>, id: Json): (r: seq<Row>)
    ensures |r| <= |rows|
    ensures forall row :: row in r <==> row in rows && row.id == id
  {
    if rows == [] then []
    else
      var prev := RowsWith(rows[..|rows| - 1], id);
      assert rows == rows[..|rows| - 1] + [rows[|rows| - 1]];
      if rows[|rows| - 1].id == id then prev + [rows[|rows| - 1]] else prev
  }

  /** `df.groupby('Backtest_id')` looked up at `id`: the rows of a non-null id
      that occurs. */
  function RowGroup(rows: seq<Row>, id: Json): Option<seq<Row>> {
    if id != JNull && RowsWith(rows, id) != [] then Some(RowsWith(rows, id)) else None
  }

  /** Some row has a non-null id, so `groupby` yields at least one group. */
  predicate AnyGroup(rows: seq<Row>) {
    exists k :: 0 <= k < |rows| && rows[k].id != JNull
  }

  /** Lists and objects cannot be group labels or dictionary keys: hashing them
      raises a `TypeError`. */
  predicate HashableId(id: Json) {
    !(id.JArr? || id.JObj?)
  }

  /** `groupby('Backtest_id')` can hash every id of the column. */
  predicate RowIdsHashable(rows: seq<Row>) {
    forall k :: 0 <= k < |rows| ==> HashableId(rows[k].id)
  }

  /** Every metadata entry is an object (it has `.get`) whose id can be looked up
      among the groups (`backtest_id in grouped_data`). */
  predicate EntriesUsable(items: seq<Json>) {
    forall k :: 0 <= k < |items| ==> items[k].JObj? && HashableId(GetOr(items[k].fields, "Backtest_id", JNull))
  }

  function EquityCurve(rows: seq<Row>): (c: Curve)
    ensures |c| == |rows| && forall k :: 0 <= k < |rows| ==> c[k] == (rows[k].time, rows[k].equity)
  {
    seq(|rows|, k requires 0 <= k < |rows| => (rows[k].time, rows[k].equity))
  }

  function BahCurve(rows: seq<Row>): (c: Curve)
    ensures |c| == |rows| && forall k :: 0 <= k < |rows| ==> c[k] == (rows[k].time, rows[k].bah)
  {
    seq(|rows|, k requires 0 <= k < |rows| => (rows[k].time, rows[k].bah))
  }

  /** The record of one metadata entry: its id's rows as curves when they
      exist, no curves otherwise. */
  function RecordFor(path: string, c: Columns, rows: seq<Row>, fields: Dict): Record {
    var id := GetOr(fields, "Backtest_id", JNull);
    match RowGroup(rows, id)
    case Some(group) =>
      Record(id, fields, if c.equity then Some(EquityCurve(group)) else None,
             if c.bah then Some(BahCurve(group)) else None, path)
    case None => Record(id, fields, None, None, path)
  }

  predicate AllObjects(items: seq<Json>) {
    forall k :: 0 <= k < |items| ==> items[k].JObj?
  }

  /** The records of the metadata entries, in metadata order. */
  function RecordsFor(path: string, c: Columns, rows: seq<Row>, items: seq<Json>): (r: seq<Record>)
    requires AllObjects(items)
    ensures |r| == |items|
    ensures forall k :: 0 <= k < |items| ==> r[k] == RecordFor(path, c, rows, items[k].fields)
  {
    if items == [] then []
    else RecordsFor(path, c, rows, items[..|items| - 1]) + [RecordFor(path, c, rows, items[|items| - 1].fields)]
  }

  /** `_load_single_parquet_file_optimized(file_path)`: any failure (unreadable
      file, undecodable or non-iterable metadata, no `Backtest_id` column, a list
      or object id in that column, curves without a `Time` column, an entry that
      is not an object or whose id is a list or object) gives `[]`. */
  function FileRecords(path: string, f: ResultFile): seq<Record> {
    match f
    case Unreadable => []
    case Table(c, rows, meta) =>
      match MetaEntries(meta)
      case None => []
      case Some(items) =>
        if !c.id || !RowIdsHashable(rows) || (AnyGroup(rows) && (c.equity || c.bah) && !c.time)
           || !EntriesUsable(items) then []
        else RecordsFor(path, c, rows, items)
  }

  /** A readable file yields exactly one record per metadata entry, in order, whose
      metrics are that entry and whose curves are the rows with its id in row
      order, or nothing when the id is null or has no rows. */
  lemma FileRecordsSpec(path: string, c: Columns, rows: seq<Row>, meta: MetaField, k: nat)
    requires MetaEntries(meta).Some? && c.id && RowIdsHashable(rows) && !(AnyGroup(rows) && (c.equity || c.bah) && !c.time)
    requires EntriesUsable(MetaEntries(meta).value) && k < |MetaEntries(meta).value|
    ensures var items := MetaEntries(meta).value;
      var r := FileRecords(path, Table(c, rows, meta));
      var id := GetOr(items[k].fields, "Backtest_id", JNull);
      var group := RowsWith(rows, id);
      && |r| == |items|
      && r[k].metrics == items[k].fields && r[k].id == id && r[k].path == path
      && (r[k].equity.Some? <==> c.equity && id != JNull && group != [])
      && (r[k].bah.Some? <==> c.bah && id != JNull && group != [])
      && (r[k].equity.Some? ==>
            && |r[k].equity.value| == |group|
            && forall j :: 0 <= j < |group| ==> r[k].equity.value[j] == (group[j].time, group[j].equity) && group[j].id == id)
      && (r[k].bah.Some? ==>
            && |r[k].bah.value| == |group|
            && forall j :: 0 <= j < |group| ==> r[k].bah.value[j] == (group[j].time, group[j].bah) && group[j].id == id)
  {
    var items := MetaEntries(meta).value;
    var id := GetOr(items[k].fields, "Backtest_id", JNull);
    forall j | 0 <= j < |RowsWith(rows, id)| ensures RowsWith(rows, id)[j].id == id {
      assert RowsWith(rows, id)[j] in RowsWith(rows, id);
    }
  }

  /** A list or object id, in the id column or in a metadata entry, makes the
      whole file yield nothing: the `TypeError` it raises is caught. */
  lemma FileRecordsUnhashable(path: string, c: Columns, rows: seq<Row>, meta: MetaField)
    requires (exists k :: 0 <= k < |rows| && !HashableId(rows[k].id))
          || (MetaEntries(meta).Some? &&
              exists item :: item in MetaEntries(meta).value && item.JObj? && !HashableId(GetOr(item.fields, "Backtest_id", JNull)))
    ensures FileRecords(path, Table(c, rows, meta)) == []
  {
    if MetaEntries(meta).Some? && RowIdsHashable(rows) {
      var items := MetaEntries(meta).value;
      var item :| item in items && item.JObj? && !HashableId(GetOr(item.fields, "Backtest_id", JNull));
      var k :| 0 <= k < |items| && items[k] == item;
      assert !EntriesUsable(items);
    }
  }

  /** A file whose only metadata entry has the id `[1]` loads as nothing, even
      though its one row carries the id 1. */
  lemma UnhashableIdExample()
    ensures FileRecords("r.parquet", Table(Columns(true, true, true, true), [Row(JInt(1), JStr("t"), JInt(0), JInt(0))],
      Decoded(JArr([JObj([("Backtest_id", JArr([JInt(1)]))])])))) == []
  {
    var item := JObj([("Backtest_id", JArr([JInt(1)]))]);
    GetDistinct(item.fields, 0);
    assert !HashableId(GetOr([item][0].fields, "Backtest_id", JNull));
  }

  /** Every record of a file names that file. */
  lemma FileRecordsPath(path: string, f: ResultFile)
    ensures forall r :: r in FileRecords(path, f) ==> r.path == path
  {
  }

  /** One row more: the group of its id grows by it, the other groups stay. */
  lemma RowGroupSnoc(rows: seq<Row>, row: Row, id: Json)
    ensures RowGroup(rows + [row], id) ==
      if row.id == id && id != JNull then Some(RowsWith(rows, id) + [row]) else RowGroup(rows, id)
    ensures AnyGroup(rows + [row]) <==> AnyGroup(rows) || row.id != JNull
  {
    var r := rows + [row];
    assert r[..|rows|] == rows;
    if AnyGroup(r) && row.id == JNull {
      var k :| 0 <= k < |r| && r[k].id != JNull;
      assert rows[k] == r[k];
    }
    if AnyGroup(rows) {
      var k :| 0 <= k < |rows| && rows[k].id != JNull;
      assert r[k] == rows[k];
    }
    if row.id != JNull {
      assert r[|rows|].id != JNull;
    }
  }

  /** The `groupby('Backtest_id')` loop: each non-null id is bound to its rows in
      row order, and a list or object id raises (`None`). */
  method GroupRows(rows: seq<Row>) returns (result: Option<seq<(Json, seq<Row>)>>)
    ensures result.None? <==> !RowIdsHashable(rows)
    ensures result.Some? ==> forall id :: Get(result.value, id) == RowGroup(rows, id)
    ensures result.Some? ==> (result.value == [] <==> !AnyGroup(rows))
  {
    var grouped := [];
    for j := 0 to |rows|
      invariant RowIdsHashable(rows[..j])
      invariant forall id :: Get(grouped, id) == RowGroup(rows[..j], id)
      invariant grouped == [] <==> !AnyGroup(rows[..j])
    {
      var row := rows[j];
      if !HashableId(row.id) {
        return None;
      }
      assert rows[..j + 1] == rows[..j] + [row];
      forall id ensures RowGroup(rows[..j + 1], id) ==
        if row.id == id && id != JNull then Some(RowsWith(rows[..j], id) + [row]) else RowGroup(rows[..j], id)
      {
        RowGroupSnoc(rows[..j], row, id);
      }
      RowGroupSnoc(rows[..j], row, row.id);
      if row.id != JNull {
        var prior := Get(grouped, row.id).GetOr([]);
        grouped := Put(grouped, row.id, prior + [row]);
      }
    }
    assert rows[..|rows|] == rows;
    return Some(grouped);
  }

  /** One metadata entry more: one record more. */
  lemma RecordsForStep(path: string, c: Columns, rows: seq<Row>, items: seq<Json>, k: nat)
    requires k < |items| && AllObjects(items[..k]) && items[k].JObj?
    ensures AllObjects(items[..k + 1])
    ensures RecordsFor(path, c, rows, items[..k + 1]) ==
      RecordsFor(path, c, rows, items[..k]) + [RecordFor(path, c, rows, items[k].fields)]
  {
    assert items[..k + 1] == items[..k] + [items[k]];
    assert items[..k + 1][..k] == items[..k];
  }

  /** One metadata entry more keeps the entries usable exactly when it is an
      object with a hashable id; otherwise the whole list is not usable. */
  lemma EntriesStep(items: seq<Json>, k: nat)
    requires k < |items| && EntriesUsable(items[..k])
    ensures AllObjects(items[..k])
    ensures items[k].JObj? && HashableId(GetOr(items[k].fields, "Backtest_id", JNull)) ==> EntriesUsable(items[..k + 1])
    ensures !(items[k].JObj? && HashableId(GetOr(items[k].fields, "Backtest_id", JNull))) ==> !EntriesUsable(items)
  {
    assert items[..k + 1] == items[..k] + [items[k]];
    assert forall j :: 0 <= j < k ==> items[..k][j] == items[j];
  }

  /** The body of the metadata loop: the entry's id looked up among the groups;
      a list or object id raises (`None`). */
  method MakeRecord(path: string, c: Columns, rows: seq<Row>, grouped: seq<(Json, seq<Row>)>, fields: Dict)
    returns (record: Option<Record>)
    requires forall id :: Get(grouped, id) == RowGroup(rows, id)
    ensures record == if HashableId(GetOr(fields, "Backtest_id", JNull)) then Some(RecordFor(path, c, rows, fields)) else None
  {
    var id := GetOr(fields, "Backtest_id", JNull);
    if id != JNull && !HashableId(id) {
      return None;
    }
    var group := if id != JNull then Get(grouped, id) else None;
    record := match group
      case Some(rs) =>
        Some(Record(id, fields, if c.equity then Some(EquityCurve(rs)) else None,
                    if c.bah then Some(BahCurve(rs)) else None, path))
      case None => Some(Record(id, fields, None, None, path));
  }

  /** The metadata loop: one record per entry, or `[]` once an entry is not an
      object or its id is a list or object. */
  method BuildRecords(path: string, c: Columns, rows: seq<Row>, grouped: seq<(Json, seq<Row>)>, items: seq<Json>)
    returns (records: seq<Record>)
    requires forall id :: Get(grouped, id) == RowGroup(rows, id)
    ensures records == if EntriesUsable(items) then RecordsFor(path, c, rows, items) else []
  {
    records := [];
    for k := 0 to |items|
      invariant EntriesUsable(items[..k])
      invariant records == RecordsFor(path, c, rows, items[..k])
    {
      EntriesStep(items, k);
      if !items[k].JObj? {
        return [];
      }
      var record := MakeRecord(path, c, rows, grouped, items[k].fields);
      if record.None? {
        return [];
      }
      RecordsForStep(path, c, rows, items, k);
      records := records + [record.value];
    }
    assert items[..|items|] == items;
  }

  /** The steps of the loader as written: metadata, then `groupby`, then one
      record per metadata entry. */
  method LoadFile(path: string, f: ResultFile) returns (records: seq<Record>)
    ensures records == FileRecords(path, f)
  {
    if f.Unreadable? {
      return [];
    }
    var c, rows := f.columns, f.rows;
    var entries := MetaEntries(f.meta);
    if entries.None? || !c.id {
      return [];
    }
    var grouped := GroupRows(rows);
    if grouped.None? || (grouped.value != [] && (c.equity || c.bah) && !c.time) {
      return [];
    }
    records := BuildRecords(path, c, rows, grouped.value, entries.value);
  }

  // ---------------------------------------------------------------------------
  // Several files

  /** Reading `path` from a disk given as a map; a missing path is unreadable. */
  function FileAt(disk: map<string, ResultFile>, path: string): ResultFile {
    if path in disk then disk[path] else Unreadable
  }

  /** `_fallback_serial_load(file_paths)`: the files' records, file after file. */
  function SerialRecords(disk: map<string, ResultFile>, paths: seq<string>): seq<Record> {
    ConcatMap(paths, p => FileRecords(p, FileAt(disk, p)))
  }

  /** Loading two lists of files one after the other is loading their concatenation. */
  lemma SerialAppend(disk: map<string, ResultFile>, a: seq<string>, b: seq<string>)
    ensures SerialRecords(disk, a + b) == SerialRecords(disk, a) + SerialRecords(disk, b)
  {
    ConcatMapAppend(a, b, p => FileRecords(p, FileAt(disk, p)));
  }

  /** Every loaded record comes from one of the listed files. */
  lemma SerialPaths(disk: map<string, ResultFile>, paths: seq<string>)
    ensures forall r :: r in SerialRecords(disk, paths) ==> r.path in paths
  {
    forall r | r in SerialRecords(disk, paths) ensures r.path in paths {
      ConcatMapMember(paths, p => FileRecords(p, FileAt(disk, p)), r);
      var k :| 0 <= k < |paths| && r in FileRecords(paths[k], FileAt(disk, paths[k]));
      FileRecordsPath(paths[k], FileAt(disk, paths[k]));
    }
  }

  /** The order in which files complete does not change which records are loaded. */
  lemma SerialPermutation(disk: map<string, ResultFile>, a: seq<string>, b: seq<string>)
    requires multiset(a) == multiset(b)
    ensures multiset(SerialRecords(disk, a)) == multiset(SerialRecords(disk, b))
  {
    ConcatMapPermutation(a, b, p => FileRecords(p, FileAt(disk, p)));
  }

  /** The serial loop as written. */
  method FallbackSerialLoad(disk: map<string, ResultFile>, paths: seq<string>) returns (results: seq<Record>)
    ensures results == SerialRecords(disk, paths)
  {
    results := [];
    for j := 0 to |paths|
      invariant results == SerialRecords(disk, paths[..j])
    {
      assert paths[..j + 1][..j] == paths[..j];
      var fileData := LoadFile(paths[j], FileAt(disk, paths[j]));
      results := results + fileData;
    }
    assert paths[..|paths|] == paths;
  }

  // ---------------------------------------------------------------------------
  // File selection

  /** Every value, in order, or `None` when one is missing. */
  function AllSome(xs: seq<Option<int>>): (r: Option<seq<int>>)
    ensures r.Some? ==> |r.value| == |xs|
  {
    if xs == [] then Some([])
    else
      match xs[|xs| - 1]
      case None => None
      case Some(i) =>
        match AllSome(xs[..|xs| - 1])
        case None => None
        case Some(prev) => Some(prev + [i])
  }

  lemma {:induction false} AllSomeSome(xs: seq<Option<int>>)
    ensures AllSome(xs).Some? <==> forall k :: 0 <= k < |xs| ==> xs[k].Some?
  {
    if xs != [] {
      var init := xs[..|xs| - 1];
      AllSomeSome(init);
      assert forall k :: 0 <= k < |init| ==> init[k] == xs[k];
    }
  }

  lemma {:induction false} AllSomeValues(xs: seq<Option<int>>)
    requires AllSome(xs).Some?
    ensures forall k :: 0 <= k < |xs| ==> xs[k] == Some(AllSome(xs).value[k])
  {
    if xs != [] {
      var init := xs[..|xs| - 1];
      AllSomeValues(init);
      var r, prev := AllSome(xs).value, AllSome(init).value;
      assert r == prev + [r[|r| - 1]];
      forall k | 0 <= k < |init| ensures xs[k] == Some(r[k]) {
        assert init[k] == xs[k] && r[k] == prev[k];
      }
    }
  }

  lemma {:induction false} AllSomeExact(xs: seq<Option<int>>, ys: seq<int>)
    requires |xs| == |ys| && forall k :: 0 <= k < |xs| ==> xs[k] == Some(ys[k])
    ensures AllSome(xs) == Some(ys)
  {
    if xs != [] {
      var n := |xs| - 1;
      AllSomeExact(xs[..n], ys[..n]);
      assert ys == ys[..n] + [ys[n]];
    }
  }

  /** `int(x.strip())` for each token. */
  function TokenInts(tokens: seq<string>): (r: seq<Option<int>>)
    ensures |r| == |tokens|
  {
    seq(|tokens|, k requires 0 <= k < |tokens| => ParseInt(Strip(tokens[k])))
  }

  /** `[int(x.strip()) for x in tokens]`, or `None` when one raises. */
  function ParseIndices(tokens: seq<string>): (r: Option<seq<int>>)
    ensures r.Some? ==> |r.value| == |tokens|
  {
    AllSome(TokenInts(tokens))
  }

  /** The answer parses exactly when every stripped token is an integer, and
      then gives one number per token, in order. */
  lemma ParseIndicesSpec(tokens: seq<string>)
    ensures ParseIndices(tokens).Some? <==> forall k :: 0 <= k < |tokens| ==> ParseInt(Strip(tokens[k])).Some?
    ensures ParseIndices(tokens).Some? ==>
      forall k :: 0 <= k < |tokens| ==> ParseInt(Strip(tokens[k])) == Some(ParseIndices(tokens).value[k])
  {
    var xs := TokenInts(tokens);
    forall k | 0 <= k < |tokens| ensures ParseInt(Strip(tokens[k])) == xs[k] {
    }
    AllSomeSome(xs);
    if AllSome(xs).Some? {
      AllSomeValues(xs);
    }
  }

  /** `[files[i-1] for i in indices if 1 <= i <= len(files)]`. */
  function PickFiles(files: seq<string>, indices: seq<int>): (r: seq<string>)
    ensures forall f :: f in r ==> f in files
    ensures |r| <= |indices|
    ensures (forall k :: 0 <= k < |indices| ==> 1 <= indices[k] <= |files|) ==>
      |r| == |indices| && forall k :: 0 <= k < |indices| ==> r[k] == files[indices[k] - 1]
  {
    if indices == [] then []
    else
      var prev := PickFiles(files, indices[..|indices| - 1]);
      var i := indices[|indices| - 1];
      if 1 <= i <= |files| then prev + [files[i - 1]] else prev
  }

  /** The positions of `indices` that hold a valid 1-based file number, in
      increasing order. */
  function ValidPositions(files: seq<string>, indices: seq<int>): (r: seq<nat>)
    ensures forall j :: 0 <= j < |r| ==> r[j] < |indices|
    ensures forall j, l :: 0 <= j < l < |r| ==> r[j] < r[l]
    ensures forall k :: 0 <= k < |indices| ==> (k in r <==> 1 <= indices[k] <= |files|)
  {
    if indices == [] then []
    else
      var n := |indices| - 1;
      var prev := ValidPositions(files, indices[..n]);
      assert forall k :: 0 <= k < n ==> indices[..n][k] == indices[k];
      if 1 <= indices[n] <= |files| then prev + [n] else prev
  }

  /** The picked files are the files named by the valid numbers, in the order
      given: out-of-range numbers are skipped and nothing else is. */
  lemma {:induction false} PickFilesSpec(files: seq<string>, indices: seq<int>)
    ensures var r, pos := PickFiles(files, indices), ValidPositions(files, indices);
      |r| == |pos| && forall j :: 0 <= j < |r| ==> r[j] == files[indices[pos[j]] - 1]
    ensures PickFiles(files, indices) == [] <==> forall k :: 0 <= k < |indices| ==> !(1 <= indices[k] <= |files|)
  {
    if indices != [] {
      var n := |indices| - 1;
      PickFilesSpec(files, indices[..n]);
      assert forall k :: 0 <= k < n ==> indices[..n][k] == indices[k];
      var pos := ValidPositions(files, indices);
      if pos != [] {
        assert pos[0] in pos;
      }
    }
  }

  /** The selection rule of `load_and_parse_data`: the stripped input, `all` when
      empty, split at commas into 1-based file numbers; out-of-range numbers are
      dropped, and an unparsable or empty selection means every file. */
  function SelectFiles(files: seq<string>, input: string): (r: seq<string>)
    ensures forall f :: f in r ==> f in files
    ensures files != [] ==> r != []
  {
    var s := Strip(input);
    var text := if s == [] then "all" else s;
    match ParseIndices(Split(text, ','))
    case None => files
    case Some(indices) =>
      var picked := PickFiles(files, indices);
      if picked == [] then files else picked
  }

  /** A word that is not a number and holds no comma makes `int()` raise. */
  lemma WordRaises(t: string)
    requires t != [] && ',' !in t && !IsDigit(t[0]) && t[0] != '+' && t[0] != '-'
    requires Strip(t) == t
    ensures ParseIndices(Split(t, ',')).None?
  {
    SplitNoSep(t, "", ',');
    assert Split("", ',') == [""];
    assert t + "" == t && t + [] == t;
    assert Split(t, ',') == [t];
    assert ParseInt(t).None?;
  }

  /** An answer that is a word, such as `all`, falls back to every file. */
  lemma SelectWord(files: seq<string>, input: string)
    requires Strip(input) != [] && ',' !in Strip(input) && !IsDigit(Strip(input)[0])
    requires Strip(input)[0] != '+' && Strip(input)[0] != '-'
    ensures SelectFiles(files, input) == files
  {
    StripTwice(input);
    WordRaises(Strip(input));
  }

  /** Stripping twice is stripping once. */
  lemma StripTwice(s: string)
    ensures Strip(Strip(s)) == Strip(s)
  {
    var t := Strip(s);
    assert StripLeft(t) == t;
    assert StripRight(t) == t;
  }

  /** An empty answer stands for `all` and selects every file. */
  lemma SelectEmpty(files: seq<string>, input: string)
    requires Strip(input) == []
    ensures SelectFiles(files, input) == files
  {
    var t: string := "all";
    assert |t| == 3 && t[0] == 'a' && t[1] == 'l' && t[2] == 'l';
    assert forall i :: 0 <= i < |t| ==> !IsSpace(t[i]) && t[i] != ',';
    WordRaises(t);
  }

  /** Written-out integers joined by commas hold no white space. */
  lemma {:induction false} JoinNoSpace(xs: seq<int>)
    ensures forall j :: 0 <= j < |Join(IntTexts(xs), ",")| ==> !IsSpace(Join(IntTexts(xs), ",")[j])
  {
    var tokens := IntTexts(xs);
    var s := Join(tokens, ",");
    if |xs| == 1 {
      assert s == IntToString(xs[0]);
    } else if |xs| > 1 {
      JoinNoSpace(xs[1..]);
      assert tokens[1..] == IntTexts(xs[1..]);
      var tail := Join(tokens[1..], ",");
      var head := IntToString(xs[0]);
      assert s == head + "," + tail;
      forall j | 0 <= j < |s| ensures !IsSpace(s[j]) {
        if j < |head| {
          assert s[j] == head[j];
        } else if j > |head| {
          assert s[j] == tail[j - |head| - 1];
        }
      }
    }
  }

  /** Written-out integers joined by commas parse back to themselves. */
  lemma ParseJoined(xs: seq<int>)
    requires xs != []
    ensures ParseIndices(Split(Join(IntTexts(xs), ","), ',')) == Some(xs)
  {
    var tokens := IntTexts(xs);
    var ps := TokenInts(tokens);
    forall k | 0 <= k < |tokens| ensures ',' !in tokens[k] && ps[k] == Some(xs[k]) {
      IntTextChars(xs[k]);
      IntRoundTrip(xs[k]);
    }
    SplitJoin(tokens, ',');
    AllSomeExact(ps, xs);
  }

  /** A stripped, nonempty answer that parses selects what its numbers pick, or
      every file when they pick nothing. */
  lemma SelectParsed(files: seq<string>, text: string, indices: seq<int>)
    requires Strip(text) == text != []
    requires ParseIndices(Split(text, ',')) == Some(indices)
    ensures SelectFiles(files, text) == if PickFiles(files, indices) == [] then files else PickFiles(files, indices)
  {
  }

  /** Written-out integers joined by commas form a stripped, nonempty answer
      that parses back to them. */
  lemma JoinedAnswer(indices: seq<int>)
    requires indices != []
    ensures var text := Join(IntTexts(indices), ",");
      Strip(text) == text != [] && ParseIndices(Split(text, ',')) == Some(indices)
  {
    JoinNoSpace(indices);
    StripNoSpace(Join(IntTexts(indices), ","));
    JoinStarts(IntTexts(indices), ",");
    assert |IntTexts(indices)[0]| > 0;
    ParseJoined(indices);
  }

  /** Comma-separated in-range file numbers select exactly those files, in the
      order given, repeats included. */
  lemma SelectNumbers(files: seq<string>, indices: seq<int>)
    requires indices != [] && forall k :: 0 <= k < |indices| ==> 1 <= indices[k] <= |files|
    ensures var r := SelectFiles(files, Join(IntTexts(indices), ","));
      |r| == |indices| && forall k :: 0 <= k < |indices| ==> r[k] == files[indices[k] - 1]
  {
    var text := Join(IntTexts(indices), ",");
    JoinedAnswer(indices);
    var picked := PickFiles(files, indices);
    assert |picked| == |indices| && forall k :: 0 <= k < |indices| ==> picked[k] == files[indices[k] - 1];
    SelectParsed(files, text, indices);
  }

  /** Comma-separated file numbers select the files of the valid numbers, in the
      order given, and every file when none of them is valid. */
  lemma SelectJoined(files: seq<string>, indices: seq<int>)
    requires indices != []
    ensures var r := SelectFiles(files, Join(IntTexts(indices), ","));
      && ((exists k :: 0 <= k < |indices| && 1 <= indices[k] <= |files|) ==> r == PickFiles(files, indices))
      && ((forall k :: 0 <= k < |indices| ==> !(1 <= indices[k] <= |files|)) ==> r == files)
  {
    var text := Join(IntTexts(indices), ",");
    JoinedAnswer(indices);
    SelectParsed(files, text, indices);
    PickFilesSpec(files, indices);
  }

  /** With three files, `1,9` picks the first file only. */
  lemma PickMixedExample(files: seq<string>)
    requires |files| == 3
    ensures PickFiles(files, [1, 9]) == [files[0]]
  {
    assert [1, 9][..1] == [1] && [1][..0] == [];
  }

  /** With three files, `1,9` selects the first file only and `9` selects all three. */
  lemma SelectRangeExamples(files: seq<string>)
    requires |files| == 3
    ensures SelectFiles(files, Join(IntTexts([1, 9]), ",")) == [files[0]]
    ensures SelectFiles(files, Join(IntTexts([9]), ",")) == files
  {
    PickMixedExample(files);
    SelectJoined(files, [1, 9]);
    SelectJoined(files, [9]);
    assert 1 <= [1, 9][0] <= |files|;
  }

  // ---------------------------------------------------------------------------
  // Aggregation

  /** The id-keyed collections `load_and_parse_data` builds. */
  datatype Aggregate = Aggregate(
    ids: seq<Json>,
    parameters: seq<Dict>,
    metrics: seq<(Json, Dict)>,
    equityCurves: seq<(Json, Option<Curve>)>,
    bahCurves: seq<(Json, Option<Curve>)>,
    filePaths: seq<(Json, string)>)

  /** The records with a non-null id, in order. */
  function Kept(items: seq<Record>): (r: seq<Record>)
    ensures |r| <= |items|
    ensures forall x :: x in r <==> x in items && x.id != JNull
  {
    if items == [] then []
    else
      var prev := Kept(items[..|items| - 1]);
      var x := items[|items| - 1];
      assert items == items[..|items| - 1] + [x];
      if x.id != JNull then prev + [x] else prev
  }

  /** The last record with a given non-null id. */
  function LastWith(items: seq<Record>, id: Json): (r: Option<Record>)
    ensures r.Some? ==> r.value in items && r.value.id == id && id != JNull
    ensures r.None? ==> id == JNull || forall x :: x in items ==> x.id != id
  {
    if items == [] then None
    else
      var x := items[|items| - 1];
      assert items == items[..|items| - 1] + [x];
      if x.id == id && id != JNull then Some(x) else LastWith(items[..|items| - 1], id)
  }

  /** One id-keyed map of the aggregation: `m[item['Backtest_id']] = field(item)`
      for every record with an id. */
  function Column<V>(items: seq<Record>, field: Record -> V): seq<(Json, V)> {
    if items == [] then []
    else
      var prev := Column(items[..|items| - 1], field);
      var x := items[|items| - 1];
      if x.id == JNull then prev else Put(prev, x.id, field(x))
  }

  /** Each id-keyed map holds the field of the last record with that id. */
  lemma {:induction false} ColumnSpec<V>(items: seq<Record>, field: Record -> V, id: Json)
    ensures Get(Column(items, field), id) ==
      if LastWith(items, id).Some? then Some(field(LastWith(items, id).value)) else None
  {
    if items != [] {
      ColumnSpec(items[..|items| - 1], field, id);
    }
  }

  /** `all_backtest_ids` and `all_parameters`: one entry per record with an id. */
  function IdList(items: seq<Record>): seq<Json> {
    if items == [] then []
    else
      var prev := IdList(items[..|items| - 1]);
      var x := items[|items| - 1];
      if x.id == JNull then prev else prev + [x.id]
  }

  function ParameterList(items: seq<Record>): seq<Dict> {
    if items == [] then []
    else
      var prev := ParameterList(items[..|items| - 1]);
      var x := items[|items| - 1];
      if x.id == JNull then prev else prev + [x.metrics]
  }

  /** The two lists follow the records that have an id, in order. */
  lemma {:induction false} ListsFollowKept(items: seq<Record>)
    ensures |IdList(items)| == |ParameterList(items)| == |Kept(items)|
    ensures forall k :: 0 <= k < |Kept(items)| ==>
      IdList(items)[k] == Kept(items)[k].id && ParameterList(items)[k] == Kept(items)[k].metrics
  {
    if items != [] {
      ListsFollowKept(items[..|items| - 1]);
    }
  }

  function Metrics(x: Record): Dict { x.metrics }
  function Equity(x: Record): Option<Curve> { x.equity }
  function Bah(x: Record): Option<Curve> { x.bah }
  function PathOf(x: Record): string { x.path }

  /** The aggregation loop of `load_and_parse_data` over all records. */
  function AggregateOf(items: seq<Record>): Aggregate {
    Aggregate(IdList(items), ParameterList(items),
              Column(items, Metrics), Column(items, Equity), Column(items, Bah), Column(items, PathOf))
  }

  /** Records without an id are skipped; the id and parameter lists keep every
      other record in order, and each id-keyed map holds the last record with
      that id. */
  lemma AggregateSpec(items: seq<Record>)
    ensures var agg := AggregateOf(items);
      && |agg.ids| == |agg.parameters| == |Kept(items)|
      && (forall k :: 0 <= k < |Kept(items)| ==> agg.ids[k] == Kept(items)[k].id && agg.parameters[k] == Kept(items)[k].metrics)
      && (forall id :: Get(agg.metrics, id) == if LastWith(items, id).Some? then Some(LastWith(items, id).value.metrics) else None)
      && (forall id :: Get(agg.equityCurves, id) == if LastWith(items, id).Some? then Some(LastWith(items, id).value.equity) else None)
      && (forall id :: Get(agg.bahCurves, id) == if LastWith(items, id).Some? then Some(LastWith(items, id).value.bah) else None)
      && (forall id :: Get(agg.filePaths, id) == if LastWith(items, id).Some? then Some(LastWith(items, id).value.path) else None)
  {
    ListsFollowKept(items);
    forall id ensures Get(Column(items, Metrics), id) == if LastWith(items, id).Some? then Some(LastWith(items, id).value.metrics) else None {
      ColumnSpec(items, Metrics, id);
    }
    forall id ensures Get(Column(items, Equity), id) == if LastWith(items, id).Some? then Some(LastWith(items, id).value.equity) else None {
      ColumnSpec(items, Equity, id);
    }
    forall id ensures Get(Column(items, Bah), id) == if LastWith(items, id).Some? then Some(LastWith(items, id).value.bah) else None {
      ColumnSpec(items, Bah, id);
    }
    forall id ensures Get(Column(items, PathOf), id) == if LastWith(items, id).Some? then Some(LastWith(items, id).value.path) else None {
      ColumnSpec(items, PathOf, id);
    }
  }

  /** One record more extends each list and map of the aggregation by it. */
  lemma AggregateSnoc(items: seq<Record>, j: nat)
    requires j < |items|
    ensures var x, prev, next := items[j], items[..j], items[..j + 1];
      && IdList(next) == (if x.id == JNull then IdList(prev) else IdList(prev) + [x.id])
      && ParameterList(next) == (if x.id == JNull then ParameterList(prev) else ParameterList(prev) + [x.metrics])
      && Column(next, Metrics) == (if x.id == JNull then Column(prev, Metrics) else Put(Column(prev, Metrics), x.id, x.metrics))
      && Column(next, Equity) == (if x.id == JNull then Column(prev, Equity) else Put(Column(prev, Equity), x.id, x.equity))
      && Column(next, Bah) == (if x.id == JNull then Column(prev, Bah) else Put(Column(prev, Bah), x.id, x.bah))
      && Column(next, PathOf) == (if x.id == JNull then Column(prev, PathOf) else Put(Column(prev, PathOf), x.id, x.path))
  {
    assert items[..j + 1][..j] == items[..j];
  }

  /** The aggregation loop as written. */
  method AggregateRecords(items: seq<Record>) returns (agg: Aggregate)
    ensures agg == AggregateOf(items)
  {
    var ids: seq<Json> := [];
    var parameters: seq<Dict> := [];
    var metrics: seq<(Json, Dict)> := [];
    var equityCurves: seq<(Json, Option<Curve>)> := [];
    var bahCurves: seq<(Json, Option<Curve>)> := [];
    var filePaths: seq<(Json, string)> := [];
    for j := 0 to |items|
      invariant ids == IdList(items[..j]) && parameters == ParameterList(items[..j])
      invariant metrics == Column(items[..j], Metrics) && equityCurves == Column(items[..j], Equity)
      invariant bahCurves == Column(items[..j], Bah) && filePaths == Column(items[..j], PathOf)
    {
      AggregateSnoc(items, j);
      var item := items[j];
      if item.id != JNull {
        ids := ids + [item.id];
        parameters := parameters + [item.metrics];
        metrics := Put(metrics, item.id, item.metrics);
        equityCurves := Put(equityCurves, item.id, item.equity);
        bahCurves := Put(bahCurves, item.id, item.bah);
        filePaths := Put(filePaths, item.id, item.path);
      }
    }
    assert items[..|items|] == items;
    agg := Aggregate(ids, parameters, metrics, equityCurves, bahCurves, filePaths);
  }

  // ---------------------------------------------------------------------------
  // The whole load

  /** Why `load_and_parse_data` raises. */
  datatype LoadError =
    | NoFiles    // no result file was found (FileNotFoundError)
    | NoRecords  // no loaded record has an id (ValueError)

  /** The parts of the returned dictionary this model covers. */
  datatype Loaded = Loaded(data: Aggregate, groups: Groups, totalFiles: nat)

  /** `load_and_parse_data()` given the sorted file list, the typed answer and the
      disk, with the serial loading path. */
  function LoadOf(files: seq<string>, input: string, disk: map<string, ResultFile>): Result<Loaded, LoadError> {
    if files == [] then Err(NoFiles)
    else
      var selected := SelectFiles(files, input);
      var agg := AggregateOf(SerialRecords(disk, selected));
      if agg.parameters == [] then Err(NoRecords)
      else Ok(Loaded(agg, GroupsOf(agg.parameters), |selected|))
  }

  /** A successful load has at least one run, counts the selected files, and
      groups exactly the loaded parameter records. */
  lemma {:induction false} LoadSpec(files: seq<string>, input: string, disk: map<string, ResultFile>)
    ensures LoadOf(files, input, disk).Ok? <==>
      files != [] && exists x :: x in SerialRecords(disk, SelectFiles(files, input)) && x.id != JNull
    ensures var r := LoadOf(files, input, disk);
      r.Ok? ==>
        && 1 <= r.value.totalFiles
        && |r.value.data.parameters| == |Kept(SerialRecords(disk, SelectFiles(files, input)))| > 0
        && forall key :: Get(r.value.groups, key) == GroupOf(r.value.data.parameters, key)
  {
    if files != [] {
      var records := SerialRecords(disk, SelectFiles(files, input));
      AggregateSpec(records);
      var agg := AggregateOf(records);
      if exists x :: x in records && x.id != JNull {
        var x :| x in records && x.id != JNull;
        assert x in Kept(records);
      }
      GroupsOfCharacterized(agg.parameters);
    }
  }

  /** `load_and_parse_data()` as written, on the serial loading path. */
  method LoadAndParse(files: seq<string>, input: string, disk: map<string, ResultFile>) returns (r: Result<Loaded, LoadError>)
    ensures r == LoadOf(files, input, disk)
  {
    if files == [] {
      return Err(NoFiles);
    }
    var selected := SelectFiles(files, input);
    var records := FallbackSerialLoad(disk, selected);
    var agg := AggregateRecords(records);
    if agg.parameters == [] {
      return Err(NoRecords);
    }
    var groups := IdentifyGroups(agg.parameters);
    return Ok(Loaded(agg, groups, |selected|));
  }
}
