# lo2cin4bt result ingestion and parameter analysis, modelled in Dafny

This project models the part of lo2cin4bt that reads backtest results back in and
analyses their parameter space, together with two small rule sets next to it:

- **Result ingestion** (`DataImporterPlotter`).
  - It reads each selected result file: a table of equity rows plus a `batch_metadata` list of per-run metric records.
  - It turns the file into one record per metadata entry.
  - It aggregates the records of all files by `Backtest_id`.
  - It derives the reference code from a file name.
  - It applies the interactive file-selection rule to a given answer.
- **Parameter-space analysis.**
  - `identify_strategy_groups` groups runs by the sorted names of their entry and exit indicators.
  - `parse_parameter_value` decodes one raw parameter value.
  - `analyze_strategy_parameters` collects the decoded values per parameter and splits parameters into variable and fixed ones.
  - A memoising cache sits in front of the analysis, with hit and miss counters and eviction of the oldest entries.
  - `parse_all_parameters`, `parse_entry_exit_parameters` and `parse_indicator_param_structure` summarise the values seen.
  - `filter_data_by_parameters` filters runs by parameter values.
- **Batch-metadata merge** (`MetricsExporter.export`).
  - It builds one metadata entry per run group.
  - It merges field by field with the list already stored in the file.
  - It rewrites the schema metadata under byte keys.
- **Difference columns** (`PredictorLoader`).
  - It decides which difference kinds a predictor series admits and dispatches on the kind.
  - It adds the difference columns to a copy of the table.
  - It detects the time column automatically.

Python dictionaries are association lists in insertion order (`Dicts`): `Get` reads a key's binding, `Put` is `d[k] = v` and `Update` is `d.update(e)`. JSON values are the `Json` datatype.

Several parts of the source work by changing state. They are methods with loops, proved equal to a specification function:

- the grouping;
- the analysis scans;
- the summaries;
- the loaders and the aggregation;
- the exporter's loops;
- `process_difference`.

Lemmas about those functions state the promised properties. The cache is a class whose fields are the cache dictionary and the counters.

A few behaviours of the code as written are worth knowing:

- **Filter with list parameters.** `load_and_parse_data` returns `parameters` as a list. `filter_data_by_parameters` reads it as a dictionary, so it raises on that list and returns its input unchanged (`ParamSummary.FilterSpec`).
- **Merge drops records without an id.** When the file already holds metadata, the merge keeps only records that carry a `Backtest_id`. An export without a `Backtest_id` column therefore writes only the old records (`MetricsExport.BatchSpec`).
- **Cache key ignores run contents.** The key is the strategy key plus the number of runs. A hit returns the analysis of *some* run list of that length, not necessarily the current one (`AnalysisCache.HitTracked`).

## Model

| member | source | states |
|---|---|---|
| `ParamCodec.RangeValues` | plotter/DataImporter_plotter.py:921-924 | `range(start, end + 1, step)`: empty iff start > end; otherwise starts at start, stays at most end, each element k steps from start, the next step would pass end |
| `ParamCodec.RangeMembers` | plotter/DataImporter_plotter.py:921-924 | a number is in the range iff it is at most end and a whole number of steps from start |
| `ParamCodec.DecodeTokensSpec` | plotter/DataImporter_plotter.py:929-934 | the comma list decodes iff every stripped token is a decimal, and then gives one decimal per token in order |
| `ParamCodec.DecodeScalar` | plotter/DataImporter_plotter.py:936-943 | a single number never comes out opaque |
| `ParamCodec.DecodeText` | plotter/DataImporter_plotter.py:916-946 | the decoded list of a string is never empty, and contains an opaque value only as the whole original string |
| `ParamCodec.Decode` | plotter/DataImporter_plotter.py:909-946 | the codec never returns an empty list, for any value |
| `ParamCodec.RangeRoundTrip` | plotter/DataImporter_plotter.py:918-924 | rendering `a:b:c` with a < b and c > 0 decodes to the inclusive arithmetic sequence |
| `ParamCodec.InvalidRangeIsOpaque` | plotter/DataImporter_plotter.py:918-946 | a range text with a >= b or c <= 0 falls through every grammar and stays the opaque string |
| `ParamCodec.IntTextRoundTrip` | plotter/DataImporter_plotter.py:936-941 | a rendered integer decodes to that integer |
| `ParamCodec.ListRoundTrip` | plotter/DataImporter_plotter.py:929-932 | two or more integers joined by commas decode to the same numbers as decimals |
| `ParamCodec.RangeExample` | plotter/DataImporter_plotter.py:918-924 | `"10:20:5"` decodes to `[10, 15, 20]` |
| `ParamCodec.ReversedRangeExample` | plotter/DataImporter_plotter.py:918-946 | `"20:10:5"` decodes to `["20:10:5"]` |
| `ParamCodec.ListExample` | plotter/DataImporter_plotter.py:929-932 | `"2,2.5,3"` decodes to `[2.0, 2.5, 3.0]` |
| `ParamCodec.IntExample` | plotter/DataImporter_plotter.py:936-941 | `"7"` gives `[7]` |
| `ParamCodec.DecimalExample` | plotter/DataImporter_plotter.py:936-939 | `"7.5"` gives `[7.5]` |
| `ParamCodec.TextExample` | plotter/DataImporter_plotter.py:936-946 | `"abc"` gives `["abc"]` |
| `StrategyGrouper.LexOrder` | plotter/DataImporter_plotter.py:853-854 | the order `sorted` uses on names is total, transitive and antisymmetric |
| `StrategyGrouper.MakeLeg` | plotter/DataImporter_plotter.py:825-834 | a leg keeps its dictionary, reads `indicator_type` and `strat_idx` with default `Unknown`, and is named by their concatenation |
| `StrategyGrouper.DictLegs` | plotter/DataImporter_plotter.py:823-834 | only dictionary items become legs, each keeping its dictionary |
| `StrategyGrouper.SortNamesSorted` | plotter/DataImporter_plotter.py:853-854 | the sorted names are in lexicographic order |
| `StrategyGrouper.Signature` | plotter/DataImporter_plotter.py:851-856 | a run has a strategy key iff it has both entry and exit legs |
| `StrategyGrouper.NewGroup` | plotter/DataImporter_plotter.py:858-867 | a new group's count equals its combination list |
| `StrategyGrouper.Grow` | plotter/DataImporter_plotter.py:870-871 | joining appends the run index and increments the count |
| `StrategyGrouper.GroupsOfCharacterized` | plotter/DataImporter_plotter.py:816-873 | the group under each key is exactly the group described by the runs with that key |
| `StrategyGrouper.GroupExists` | plotter/DataImporter_plotter.py:851-870 | a key has a group iff some run has that key |
| `StrategyGrouper.GroupMembers` | plotter/DataImporter_plotter.py:858-871 | a group's members are exactly the runs with its key, its count is their number, and it is described by the first of them |
| `StrategyGrouper.GroupKeysDistinct` | plotter/DataImporter_plotter.py:858-859 | no key is grouped twice |
| `StrategyGrouper.SignatureOrderFree` | plotter/DataImporter_plotter.py:852-856 | runs whose legs have the same names in any order get the same key |
| `StrategyGrouper.SortedNamesUnique` | plotter/DataImporter_plotter.py:853-854 | permutations of the same names sort to the same list |
| `StrategyGrouper.CollectLegs` | plotter/DataImporter_plotter.py:823-848 | the leg loop of one side yields exactly the legs of that side |
| `StrategyGrouper.JoinGroup` | plotter/DataImporter_plotter.py:858-871 | one iteration opens or grows the run's group |
| `StrategyGrouper.IdentifyGroups` | plotter/DataImporter_plotter.py:806-873 | the grouping loop returns the grouping specification, so each key's group is the one its runs describe |
| `ParamAnalysis.PyEqEquivalence` | plotter/DataImporter_plotter.py:966-967 | the equality that set membership uses is an equivalence |
| `ParamAnalysis.SetAdd` | plotter/DataImporter_plotter.py:967 | `s.add(x)` holds the old members plus x, keeps members distinct, and appends at most one |
| `ParamAnalysis.AddAll` | plotter/DataImporter_plotter.py:965-967 | adding a decoded list holds the old members plus every value, and a non-empty list leaves a non-empty set |
| `ParamAnalysis.FieldStep` | plotter/DataImporter_plotter.py:957-967 | one field keeps every set non-empty and distinct, and raises iff it is a parameter field with an unhashable decoded value; what it adds is stated by `FieldHolds` |
| `ParamAnalysis.FieldsStep` | plotter/DataImporter_plotter.py:957-967 | the fields of one leg keep every set non-empty and distinct, and never raise the empty-set error; what they add is stated by `FieldsHolds` |
| `ParamAnalysis.LegStep` | plotter/DataImporter_plotter.py:951-967 | a leg that is not a dictionary raises `AttributeError`; otherwise the sets stay non-empty and distinct; what it adds is stated by `LegHolds` |
| `ParamAnalysis.LegsStep` | plotter/DataImporter_plotter.py:951-967 | the legs of one side keep the sets non-empty and distinct; what they add is stated by `LegsHolds` |
| `ParamAnalysis.SideItems` | plotter/DataImporter_plotter.py:950-951 | a side list iterates its items, and a value that cannot be iterated raises |
| `ParamAnalysis.SideStep` | plotter/DataImporter_plotter.py:950-987 | a run without the side is skipped; otherwise the sets stay non-empty and distinct; what it adds is stated by `SideHolds` |
| `ParamAnalysis.Accumulate` | plotter/DataImporter_plotter.py:948-987 | scanning all runs keeps both sides' sets non-empty and distinct; what they hold is stated by `AccumulateHolds` |
| `ParamAnalysis.ParamSets` | plotter/DataImporter_plotter.py:948-990 | the merged entry-and-exit sets are non-empty and distinct, and collecting them never raises the empty-set error; what they hold is stated by `ParamSetsHolds` |
| `ParamAnalysis.ParamName` | plotter/DataImporter_plotter.py:953-960 | the set name `<side>_<indicator_type><strat_idx>_<key>` starts with its side |
| `ParamAnalysis.PutHolds` | plotter/DataImporter_plotter.py:961-967 | adding parsed values to the set of a name puts exactly those values under that name and changes no other set |
| `ParamAnalysis.FieldHolds` | plotter/DataImporter_plotter.py:957-967 | a value is in the set of a name after one field iff it was before, or the field is not `indicator_type`/`strat_idx`, the name is `<side>_<leg name>_<key>` and some decoded value of the field equals it |
| `ParamAnalysis.FieldsHolds` | plotter/DataImporter_plotter.py:957-967 | after a leg's fields a value is in a set iff it was before or some field of the leg gives it under that name |
| `ParamAnalysis.LegHolds` | plotter/DataImporter_plotter.py:951-967 | after one leg a value is in a set iff it was before or a field of the leg, named by the leg's indicator type and index, gives it |
| `ParamAnalysis.LegsHolds` | plotter/DataImporter_plotter.py:951-967 | after the legs of a side a value is in a set iff it was before or some leg gives it |
| `ParamAnalysis.SideHolds` | plotter/DataImporter_plotter.py:950-967 | after one side of a run a value is in a set iff it was before or a leg of the run's `<side>_params` gives it |
| `ParamAnalysis.AccumulateHolds` | plotter/DataImporter_plotter.py:948-987 | the entry sets hold exactly what the runs' entry legs give, and the exit sets exactly what their exit legs give |
| `ParamAnalysis.SidesDisjoint` | plotter/DataImporter_plotter.py:959-990 | no set name comes from both sides, so merging the two dictionaries overwrites nothing |
| `ParamAnalysis.ParamSetsHolds` | plotter/DataImporter_plotter.py:948-990 | the merged sets hold `z` under `k` iff some selected run has, on its entry or exit side, a leg with a non-fixed field named `k` whose decoded values include `z` |
| `ParamAnalysis.KeyOrder` | plotter/DataImporter_plotter.py:997 | the numeric sort key orders values totally |
| `ParamAnalysis.OrderedSpec` | plotter/DataImporter_plotter.py:996-1001 | the variable values are a permutation of the set; they are sorted when all are numeric, otherwise left in set order |
| `ParamAnalysis.ClassifyFails` | plotter/DataImporter_plotter.py:1003 | classification raises iff some set is empty, and then with `IndexError` |
| `ParamAnalysis.ClassifyPartition` | plotter/DataImporter_plotter.py:993-1003 | a parameter is variable with its ordered values iff it has several values, otherwise fixed to its one value |
| `ParamAnalysis.ClassifyStops` | plotter/DataImporter_plotter.py:993-1003 | the first empty set stops classification |
| `ParamAnalysis.SelectRuns` | plotter/DataImporter_plotter.py:899 | `[parameters[i] for i in parameter_indices]` picks exactly the indexed runs |
| `ParamAnalysis.GroupIndicesInRange` | plotter/DataImporter_plotter.py:896-899 | a group's combinations index the run list |
| `ParamAnalysis.AnalysisNoGroup` | plotter/DataImporter_plotter.py:890-893 | `{}` is returned iff no run has the strategy key |
| `ParamAnalysis.AnalysisNeverEmptySet` | plotter/DataImporter_plotter.py:1002-1003 | the fixed-parameter lookup `list(s)[0]` never raises |
| `ParamAnalysis.AnalysisFound` | plotter/DataImporter_plotter.py:895-1016 | a found analysis carries the key, its group, the group's indices and count, the variable/fixed split of the merged sets and the sorted variable names |
| `ParamAnalysis.AddValues` | plotter/DataImporter_plotter.py:966-967 | the add loop raises on an unhashable value and otherwise adds every value |
| `ParamAnalysis.ScanField` | plotter/DataImporter_plotter.py:957-967 | one field of a leg as written computes `FieldStep`, so by `FieldHolds` the fixed fields are skipped and any other adds its parsed values to the set of its name |
| `ParamAnalysis.ScanLeg` | plotter/DataImporter_plotter.py:951-967 | the loop over one leg's fields computes the leg step, whose contents `LegHolds` states |
| `ParamAnalysis.CollectSides` | plotter/DataImporter_plotter.py:948-987 | the loop over the runs collects the entry and the exit values as the fold over the runs does, whose contents `AccumulateHolds` states |
| `ParamAnalysis.ScanSide` | plotter/DataImporter_plotter.py:950-987 | the loop over one side's legs computes the side step, whose contents `SideHolds` states |
| `ParamAnalysis.ClassifyParams` | plotter/DataImporter_plotter.py:993-1003 | the classification loop computes the classification |
| `ParamAnalysis.AnalyzeStrategy` | plotter/DataImporter_plotter.py:876-1016 | the analysis as written returns the analysis specification |
| `AnalysisCache.CacheKey` | plotter/DataImporter_plotter.py:1043 | the cache key is longer than the strategy key plus its prefix |
| `AnalysisCache.CacheKeyInjective` | plotter/DataImporter_plotter.py:1043 | two cache keys are equal iff their strategy keys and run counts are |
| `AnalysisCache.StatsOf` | plotter/DataImporter_plotter.py:1018-1025 | the hit rate lies in [0, 1], is 0 without lookups, and is hits over lookups otherwise |
| `AnalysisCache.HitRateMoves` | plotter/DataImporter_plotter.py:1024 | a hit never lowers the hit rate and a miss never raises it |
| `AnalysisCache.StoredSpec` | plotter/DataImporter_plotter.py:1062-1082 | storing a new key appends it, keeps keys distinct and at most 100 entries, drops exactly the 25 oldest when full, makes the new entry readable and keeps every survivor's value |
| `AnalysisCache.HitTracked` | plotter/DataImporter_plotter.py:1047-1051 | a hit returns the analysis of some run list of the requested length for the requested key |
| `AnalysisCache.StoreTracked` | plotter/DataImporter_plotter.py:1059-1064 | storing a fresh analysis keeps every entry the analysis its key names |
| `AnalysisCache.DropManyTracked` | plotter/DataImporter_plotter.py:1079-1081 | deleting the oldest entries keeps every remaining entry the analysis its key names |
| `AnalysisCache.DeleteOldest` | plotter/DataImporter_plotter.py:1079-1081 | deleting the first keys in insertion order, one by one, removes exactly those entries and keeps the rest in order |
| `AnalysisCache.Cache.constructor` | plotter/DataImporter_plotter.py:129-132 | the cache starts empty with zero counters |
| `AnalysisCache.Cache.Stats` | plotter/DataImporter_plotter.py:1018-1025 | `get_cache_stats` reports the counters, a size equal to the entry count and at most 100, and the hit rate |
| `AnalysisCache.Cache.Cleanup` | plotter/DataImporter_plotter.py:1075-1083 | with more than 50 entries the 25 oldest are deleted and the size reset to the count; otherwise nothing changes |
| `AnalysisCache.Cache.Store` | plotter/DataImporter_plotter.py:1062-1071 | a miss stores the new analysis with eviction past 100 entries, readable under its key, counters untouched |
| `AnalysisCache.Cache.Trim` | plotter/DataImporter_plotter.py:1070-1071 | the cleanup runs exactly when the size counter passes 100, and then drops the 25 oldest entries |
| `AnalysisCache.Cache.Fetch` | plotter/DataImporter_plotter.py:1027-1073 | a hit counts and returns the stored analysis with nothing else changed; a miss counts, runs the analysis and stores a successful result with eviction |
| `RecordLoader.BaseName` | plotter/DataImporter_plotter.py:189 | the base name has no `/`, and a name without `/` is its own base name |
| `RecordLoader.Stem` | plotter/DataImporter_plotter.py:190 | a name without an extension is its own stem |
| `RecordLoader.FilenameParams` | plotter/DataImporter_plotter.py:177-210 | the file name is the base name; the reference code is empty unless the stem contains `_metrics`, and is otherwise an `_`-free part of the stem |
| `RecordLoader.FilenameRoundTrip` | plotter/DataImporter_plotter.py:199-204 | `dir/<date>_<code>_metrics.parquet` gives back the file name and `code` |
| `RecordLoader.RowsWith` | plotter/DataImporter_plotter.py:329-333 | a row group holds exactly the rows with that id |
| `RecordLoader.EquityCurve` | plotter/DataImporter_plotter.py:331 | the equity curve is the group's time and equity columns row by row |
| `RecordLoader.BahCurve` | plotter/DataImporter_plotter.py:332 | the buy-and-hold curve is the group's time and buy-and-hold columns row by row |
| `RecordLoader.RecordsFor` | plotter/DataImporter_plotter.py:336-356 | one record per metadata entry, in order |
| `RecordLoader.FileRecordsSpec` | plotter/DataImporter_plotter.py:285-366 | a readable file whose ids are all hashable gives one record per entry, with the entry as metrics and curves exactly when the id is non-null and has rows |
| `RecordLoader.FileRecordsUnhashable` | plotter/DataImporter_plotter.py:329-339 | a list or object id in the id column or in a metadata entry raises, so the file yields `[]` |
| `RecordLoader.UnhashableIdExample` | plotter/DataImporter_plotter.py:337-366 | a file whose one entry has the id `[1]` yields `[]` even though a row has the id 1 |
| `RecordLoader.FileRecordsPath` | plotter/DataImporter_plotter.py:341-356 | every record of a file names that file |
| `RecordLoader.RowGroupSnoc` | plotter/DataImporter_plotter.py:329 | one row more extends exactly the group of its id |
| `RecordLoader.GroupRows` | plotter/DataImporter_plotter.py:328-333 | the grouping loop raises iff some id is a list or object, and otherwise maps each id to its rows and is empty iff no row has an id |
| `RecordLoader.MakeRecord` | plotter/DataImporter_plotter.py:338-356 | one entry's record raises for a list or object id, and otherwise has its id's rows as curves when the id is non-null and has rows, no curves otherwise |
| `RecordLoader.BuildRecords` | plotter/DataImporter_plotter.py:336-356 | the record loop builds one record per entry, or nothing when an entry is not a dictionary or its id is a list or object |
| `RecordLoader.LoadFile` | plotter/DataImporter_plotter.py:285-366 | loading one file as written gives the file's records, and `[]` on any failure |
| `RecordLoader.SerialAppend` | plotter/DataImporter_plotter.py:483-491 | the serial load of two path lists is the concatenation of their loads |
| `RecordLoader.SerialPaths` | plotter/DataImporter_plotter.py:484-487 | every loaded record comes from a listed path |
| `RecordLoader.SerialPermutation` | plotter/DataImporter_plotter.py:434-464 | loading the paths in any order gives the same multiset of records |
| `RecordLoader.FallbackSerialLoad` | plotter/DataImporter_plotter.py:472-491 | the serial loop returns the serial load |
| `RecordLoader.ParseIndicesSpec` | plotter/DataImporter_plotter.py:545 | the answer parses iff every stripped token is an integer, one number per token |
| `RecordLoader.PickFiles` | plotter/DataImporter_plotter.py:546 | only listed files are picked; with in-range numbers exactly `files[i-1]` per number in order |
| `RecordLoader.ValidPositions` | plotter/DataImporter_plotter.py:546 | the positions holding an in-range number, exactly those, in increasing order |
| `RecordLoader.PickFilesSpec` | plotter/DataImporter_plotter.py:546 | the picked files are `files[i-1]` for each in-range number, in the order given, and nothing is picked iff no number is in range |
| `RecordLoader.SelectFiles` | plotter/DataImporter_plotter.py:539-552 | the selection only holds listed files and is never empty when files exist |
| `RecordLoader.SelectJoined` | plotter/DataImporter_plotter.py:545-549 | comma-separated numbers select the files of the in-range numbers in order, and every file when none is in range |
| `RecordLoader.SelectRangeExamples` | plotter/DataImporter_plotter.py:545-549 | with three files `1,9` selects the first file and `9` selects all three |
| `RecordLoader.WordRaises` | plotter/DataImporter_plotter.py:545 | a word that does not start like a number makes the index parse fail |
| `RecordLoader.SelectWord` | plotter/DataImporter_plotter.py:543-552 | an answer such as `all` selects every file |
| `RecordLoader.SelectEmpty` | plotter/DataImporter_plotter.py:539-552 | an empty answer selects every file |
| `RecordLoader.SelectNumbers` | plotter/DataImporter_plotter.py:545-546 | comma-separated in-range numbers select exactly those files, in the order given |
| `RecordLoader.Kept` | plotter/DataImporter_plotter.py:572 | the aggregated records are exactly those with an id |
| `RecordLoader.LastWith` | plotter/DataImporter_plotter.py:575-578 | the record an id maps to is the last with that id, and there is none for a null or absent id |
| `RecordLoader.ColumnSpec` | plotter/DataImporter_plotter.py:575-578 | each id-keyed map holds the field of the last record with that id |
| `RecordLoader.ListsFollowKept` | plotter/DataImporter_plotter.py:573-574 | the id and parameter lists follow the records with an id, in order |
| `RecordLoader.AggregateSpec` | plotter/DataImporter_plotter.py:570-578 | the aggregation skips id-less records, lists the rest in order and maps each id to its last record's fields |
| `RecordLoader.AggregateSnoc` | plotter/DataImporter_plotter.py:586-594 | one record more extends each list and map by that record |
| `RecordLoader.AggregateRecords` | plotter/DataImporter_plotter.py:583-597 | the aggregation loop returns the aggregation |
| `RecordLoader.LoadSpec` | plotter/DataImporter_plotter.py:493-641 | the load succeeds iff files exist and some loaded record has an id; then it counts at least one file, its parameter list has one entry per loaded record with an id, and every strategy key maps to the group of those parameters |
| `RecordLoader.LoadAndParse` | plotter/DataImporter_plotter.py:493-641 | the load as written, on the serial path, returns the load specification |
| `ParamSummary.AddValue` | plotter/DataImporter_plotter.py:740 | `set.add` keeps the old values plus the new one, without repeats |
| `ParamSummary.NoteHolds` | plotter/DataImporter_plotter.py:738-740 | noting one pair adds exactly that pair and that name |
| `ParamSummary.NoteAllHolds` | plotter/DataImporter_plotter.py:732-740 | after noting pairs a name holds a value iff it did before or the pair was noted |
| `ParamSummary.NoteAllWellFormed` | plotter/DataImporter_plotter.py:738-740 | noting keeps names distinct and value lists non-empty without repeats |
| `ParamSummary.NoteAllAppend` | plotter/DataImporter_plotter.py:732-740 | noting two pair lists is noting one after the other |
| `ParamSummary.SortAll` | plotter/DataImporter_plotter.py:742-743 | sorting every list keeps the names in place |
| `ParamSummary.SortAllSpec` | plotter/DataImporter_plotter.py:742-743 | sorting keeps what each name holds, and each list is sorted and without repeats |
| `ParamSummary.PairsOfAppend` | plotter/DataImporter_plotter.py:732-737 | the pairs of two leg lists are the pairs of each in turn |
| `ParamSummary.PairsOfMember` | plotter/DataImporter_plotter.py:735-740 | a pair is seen iff some leg holds it, stringified |
| `ParamSummary.ValuesSpec` | plotter/DataImporter_plotter.py:727-744 | the summary has distinct names, each with a sorted repeat-free list of exactly the values seen for it |
| `ParamSummary.BothSidesSeen` | plotter/DataImporter_plotter.py:733 | over both sides a pair is seen iff it is seen over one of them |
| `ParamSummary.AllIsUnion` | plotter/DataImporter_plotter.py:727-772 | `parse_all_parameters` is the union of the two `parse_entry_exit_parameters` summaries |
| `ParamSummary.CollectLeg` | plotter/DataImporter_plotter.py:737-740 | the field loop of one leg notes its pairs |
| `ParamSummary.CollectLegs` | plotter/DataImporter_plotter.py:735-740 | the leg loop notes every leg's pairs |
| `ParamSummary.CollectRun` | plotter/DataImporter_plotter.py:733-740 | the side loop of one run notes its legs' pairs |
| `ParamSummary.CollectValues` | plotter/DataImporter_plotter.py:732-743 | the loops return the summary specification |
| `ParamSummary.SortEach` | plotter/DataImporter_plotter.py:742-743 | the sorting loop sorts every list |
| `ParamSummary.ParseAllParameters` | plotter/DataImporter_plotter.py:727-744 | `parse_all_parameters` returns the summary over both sides |
| `ParamSummary.ParseEntryExitParameters` | plotter/DataImporter_plotter.py:747-772 | `parse_entry_exit_parameters` returns the summaries of each side |
| `ParamSummary.Without` | plotter/DataImporter_plotter.py:793-794 | the indicator-type field is skipped and every other pair kept |
| `ParamSummary.AddLegsAppend` | plotter/DataImporter_plotter.py:787-797 | adding two leg lists is adding one after the other |
| `ParamSummary.AddLegHolds` | plotter/DataImporter_plotter.py:789-797 | one leg adds its type and exactly its own pairs under that type |
| `ParamSummary.AddLegsHolds` | plotter/DataImporter_plotter.py:784-797 | a type holds a pair iff a leg of that type has it, and a type is present iff some leg has it |
| `ParamSummary.AddLegsWellFormed` | plotter/DataImporter_plotter.py:784-797 | types and names stay distinct and lists non-empty without repeats |
| `ParamSummary.SortIndicators` | plotter/DataImporter_plotter.py:799-802 | sorting keeps the types in place |
| `ParamSummary.SortIndicatorsSpec` | plotter/DataImporter_plotter.py:799-802 | sorting under every type keeps what each holds and sorts each list |
| `ParamSummary.IndicatorsSpec` | plotter/DataImporter_plotter.py:775-803 | every type seen appears once, holding exactly its legs' pairs in sorted repeat-free lists |
| `ParamSummary.SeenAnyType` | plotter/DataImporter_plotter.py:789-797 | a non-type pair is seen in a leg iff it is seen under some type |
| `ParamSummary.IndicatorsRefineValues` | plotter/DataImporter_plotter.py:775-803 | the per-type summary splits the plain summary of the same side by type |
| `ParamSummary.SkipStep` | plotter/DataImporter_plotter.py:792-797 | one field more notes its pair unless it is the indicator type |
| `ParamSummary.OneSide` | plotter/DataImporter_plotter.py:785-787 | one run more adds its legs of the side |
| `ParamSummary.CollectIndicatorLeg` | plotter/DataImporter_plotter.py:789-797 | the field loop adds one leg |
| `ParamSummary.CollectIndicatorLegs` | plotter/DataImporter_plotter.py:787-797 | the leg loop adds every leg |
| `ParamSummary.CollectIndicators` | plotter/DataImporter_plotter.py:784-802 | the loops return the per-type summary of one side |
| `ParamSummary.SortIndicatorsEach` | plotter/DataImporter_plotter.py:799-802 | the sorting loops sort every list |
| `ParamSummary.ParseIndicatorStructure` | plotter/DataImporter_plotter.py:775-803 | `parse_indicator_param_structure` returns the entry and exit summaries per type |
| `ParamSummary.Matches` | plotter/DataImporter_plotter.py:707-711 | a run that is not a dictionary raises, and a run passes only with a dictionary of parameters |
| `ParamSummary.MatchingKeysSpec` | plotter/DataImporter_plotter.py:705-711 | one filter raises iff it raises for some run, and otherwise matches exactly the passing runs |
| `ParamSummary.SurvivingRaises` | plotter/DataImporter_plotter.py:701-713 | the filters raise iff one switched-on filter raises |
| `ParamSummary.SurvivingKeeps` | plotter/DataImporter_plotter.py:698-713 | filters that do not raise keep exactly the runs that pass every one |
| `ParamSummary.SelectedSpec` | plotter/DataImporter_plotter.py:716-718 | the result holds exactly the kept keys, each bound to `data.get(key, {})` |
| `ParamSummary.FilterSpec` | plotter/DataImporter_plotter.py:682-724 | no filters, non-dictionary parameters or a raising filter give `data` back; otherwise exactly the runs passing every filter |
| `ParamSummary.MatchingStaysNone` | plotter/DataImporter_plotter.py:706-711 | once one run raises, the filter raises |
| `ParamSummary.SurvivingStaysNone` | plotter/DataImporter_plotter.py:701-713 | once one filter raises, filtering raises |
| `ParamSummary.MatchingKeysOf` | plotter/DataImporter_plotter.py:705-711 | the matching loop computes the matching keys |
| `ParamSummary.SelectKeys` | plotter/DataImporter_plotter.py:716-718 | the building loop computes the selection |
| `ParamSummary.FilterDataByParameters` | plotter/DataImporter_plotter.py:682-724 | the filter as written returns the filter specification |
| `MetricsExport.NewMeta` | metricstracker/MetricsExporter_metricstracker.py:102-106 | buy-and-hold metrics override strategy metrics, which override the id; the id comes first |
| `MetricsExport.NewMetas` | metricstracker/MetricsExporter_metricstracker.py:96-107 | one entry per group, in group order |
| `MetricsExport.CopyMetrics` | metricstracker/MetricsExporter_metricstracker.py:103-106 | copying the metrics key by key is `update` |
| `MetricsExport.BuildBatch` | metricstracker/MetricsExporter_metricstracker.py:96-107 | the group loop builds the new entries |
| `MetricsExport.IdOf` | metricstracker/MetricsExporter_metricstracker.py:110-115 | a dictionary without `Backtest_id` is skipped, and a found id is the record's own `Backtest_id` |
| `MetricsExport.IdMapOf` | metricstracker/MetricsExporter_metricstracker.py:110-115 | the id map has distinct ids, each bound to a record carrying that id |
| `MetricsExport.IdMapRaises` | metricstracker/MetricsExporter_metricstracker.py:110-115 | the comprehension raises iff some record raises |
| `MetricsExport.IdMapKeys` | metricstracker/MetricsExporter_metricstracker.py:110-115 | the id map has exactly the ids some record carries |
| `MetricsExport.IdMapLast` | metricstracker/MetricsExporter_metricstracker.py:110-115 | a repeated id keeps its last record |
| `MetricsExport.NewOnly` | metricstracker/MetricsExporter_metricstracker.py:116 | the new-only ids are exactly the new ids the old side lacks, without repeats |
| `MetricsExport.AllIdsSpec` | metricstracker/MetricsExporter_metricstracker.py:116 | the union has no repeats and holds exactly the ids of either side |
| `MetricsExport.MergedRecordSpec` | metricstracker/MetricsExporter_metricstracker.py:119-126 | a merged record carries its id; both sides give new-over-old fields; a one-sided id keeps that side's record |
| `MetricsExport.MergeSpec` | metricstracker/MetricsExporter_metricstracker.py:116-127 | the merged list has one record per id of either side, each carrying its id, no id twice |
| `MetricsExport.BatchSpec` | metricstracker/MetricsExporter_metricstracker.py:90-127 | missing, unreadable or empty old metadata leaves the new entries unchanged; the merge raises iff a value cannot be iterated or a record raises; otherwise every carried id appears exactly once |
| `MetricsExport.MergeBatch` | metricstracker/MetricsExporter_metricstracker.py:117-127 | the merge loop computes the merged list |
| `MetricsExport.Utf8` | metricstracker/MetricsExporter_metricstracker.py:150 | encoding never shortens the text |
| `MetricsExport.Utf8Ascii` | metricstracker/MetricsExporter_metricstracker.py:150 | ASCII text encodes to one byte per character |
| `MetricsExport.Rekeyed` | metricstracker/MetricsExporter_metricstracker.py:149-152 | each entry keeps its value under its encoded key |
| `MetricsExport.Normalized` | metricstracker/MetricsExporter_metricstracker.py:148-152 | the byte-keyed metadata has distinct keys |
| `MetricsExport.NormalizedGet` | metricstracker/MetricsExporter_metricstracker.py:149-152 | each encoded key reads the last value stored under it |
| `MetricsExport.NormalizedDistinct` | metricstracker/MetricsExporter_metricstracker.py:149-152 | keys that are already distinct bytes are left as they are |
| `MetricsExport.SchemaSpec` | metricstracker/MetricsExporter_metricstracker.py:148-155 | every original key survives in place as bytes with its value, and only `batch_metadata` is replaced or added last |
| `MetricsExport.BatchKeyText` | metricstracker/MetricsExporter_metricstracker.py:150-153 | a text key `batch_metadata` encodes to the same key, so it is replaced too |
| `PredictorDiff.DiffOptions` | dataloader/Predictor_loader.py:189-194 | the ratio difference is offered iff the series has no zero, and subtraction always |
| `PredictorDiff.DivRaw` | dataloader/Predictor_loader.py:199-200 | the ratio difference is defined after a non-zero value, and then that value times one plus the ratio gives the next value |
| `PredictorDiff.ApplyDiff` | dataloader/Predictor_loader.py:196-204 | an unknown kind raises `ValueError`; a known one keeps the length and is undefined in the first row |
| `PredictorDiff.OptionsApply` | dataloader/Predictor_loader.py:189-204 | every offered kind applies and is defined in every row but the first |
| `PredictorDiff.FillNa` | dataloader/Predictor_loader.py:227 | `fillna(0)` keeps defined values and puts 0 elsewhere |
| `PredictorDiff.SubDiff` | dataloader/Predictor_loader.py:227 | the subtraction difference keeps the length, starts at 0 and is then `x[i] - x[i-1]` |
| `PredictorDiff.SubDiffSum` | dataloader/Predictor_loader.py:227 | summing the subtraction difference onto the first value gives back every value |
| `PredictorDiff.NamesDistinct` | dataloader/Predictor_loader.py:228-239 | the predictor and its difference column names are distinct |
| `PredictorDiff.DiffColumnsSpec` | dataloader/Predictor_loader.py:220-242 | the assigned columns are the predictor, then `_diff_sub`, then `_diff_div` for a zero-free series |
| `PredictorDiff.DiffColsSpec` | dataloader/Predictor_loader.py:217-243 | `diff_cols` depends on a zero in the series, `used_series` is the subtraction column in both branches, and the table holds it |
| `PredictorDiff.ProcessedKeeps` | dataloader/Predictor_loader.py:248-249 | the original columns stay in place with their values, and only the difference columns are new or overwritten |
| `PredictorDiff.AssignColumns` | dataloader/Predictor_loader.py:248-249 | the assignment loop updates the copy with the difference columns |
| `PredictorDiff.ProcessDifference` | dataloader/Predictor_loader.py:206-268 | `process_difference` as written returns the specification, or `KeyError` for a missing column |
| `PredictorDiff.IdentifyTimeCol` | dataloader/Predictor_loader.py:270-275 | the first column, in order, whose lowercase name is `time`, `date` or `timestamp`; none iff no such column |

## Left out

- Parallel loading (`load_parquet_files_parallel`) is concurrency. Only the serial path is modelled, and `RecordLoader.SerialPermutation` shows that any completion order gives the same multiset of records.
- File and parquet I/O is not modelled: globbing, reading and writing tables, `to_pandas` and directories. A file is given as its rows, its columns and its metadata field, already decoded or marked undecodable. `json.loads` and `json.dumps` are not modelled: the exporter takes the decoded stored list and the serialised payload as parameters.
- The console is not modelled: prompts, `input()`, `rich` panels and tables, logging and debug prints. The file-selection answer and the column list are parameters, and the prompting loop of `_identify_time_col` is represented by `None`.
- Memory probes, timings and the timing fields of the loaded result (`loaded_at`, `load_time_seconds`, `cache_stats`) are left out.
- `MetricsCalculatorMetricTracker` and `add_drawdown_bah` are float series arithmetic. The metrics of a group are given, and so is the concatenation of the frames.
- `PredictorDiff.DivRaw`: `pct_change` is exact rational arithmetic here. Division by zero gives a missing value instead of an infinity, and an input series holding `NaN` is not modelled.
- `_align_and_merge`, `PredictorLoader.load`, `extract_metrics_from_metadata`, `extract_equity_curve_data`, `load_parquet_file` and `get_parameter_summary` are pandas or JSON wrappers outside the modelled core. The statistics modules are not part of this model.
- Python's numeric grammar is reduced to plain decimals: `int()` accepts underscores and surrounding whitespace, and `float('nan')`, `'inf'` and exponents parse. Numbers are exact integers and rationals instead of IEEE floats.
- Equal numbers of different types are not merged in the exporter's id maps or in `MetricsExport.IdMapOf`: Python treats `1`, `1.0` and `True` as one dictionary key. The analysis sets do merge them (`ParamAnalysis.PyEq`).
- `RecordLoader.RowsWith`, `RecordLoader.RowGroup` and `RecordLoader.LastWith` join and key records by structural equality of ids. Python's `groupby`, `in grouped_data` and the `all_metrics`, `all_equity_curves` and `all_bah_curves` dictionaries treat `1`, `1.0` and `True` as one id. So a float id column holding `1.0` joins metadata id `1` in Python but not in the model, and the model keeps `1` and `1.0` as two aggregated ids.
- `MetricsExport.AllIds`: Python set iteration order is not modelled. The merged list takes the old ids, then the new-only ids. `filter_data_by_parameters` likewise lists its result in parameter-key order. Where the analysis cannot sort a set, it lists the set in first-seen order.
- `ParamSummary.LegPairs` renders values with `str()` through `Json.Str`. Python's float rendering is carried by each float value instead of being computed, and string escapes in `repr` of containers are not modelled.
- `Text.Lower` and `Text.Strip` handle ASCII case and ASCII whitespace only. Python's Unicode case mapping and whitespace are not modelled.
- `MetricsExport.KeyBytes` covers byte keys and text keys only; other key types (`str(k)` of a number) are not modelled, because parquet schema keys are bytes.
- `AnalysisCache.Cache.Fetch` models the cache as always initialised; the `hasattr` branches for a missing cache cannot occur after construction.
