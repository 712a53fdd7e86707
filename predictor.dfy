/** The difference-column rules of `PredictorLoader`
    (dataloader/Predictor_loader.py): which difference kinds a predictor series
    admits, the dispatch on the kind, the columns `process_difference` adds to a
    copy of the table, and the automatic detection of the time column. A table
    is a list of named columns of exact numbers; a missing value (`NaN`) is
    `None` where it arises. */
module PredictorDiff {
  import opened Wrappers
  import opened Text
  import opened Dicts

  type Series = seq<real>

  /** A table: its columns, by name, in order. */
  type Frame = seq<(string, Series)>

  datatype LoaderError = KeyError(column: string) | ValueError(kind: string)

  // ---------------------------------------------------------------------------
  // Difference kinds

  /** `get_diff_options`: a series holding a zero admits only the subtraction
      difference, any other series both. */
  function DiffOptions(xs: Series): (r: seq<string>)
    ensures r == ["sub"] || r == ["sub", "div"]
    ensures "div" in r <==> 0.0 !in xs
  {
    if 0.0 in xs then ["sub"] else ["sub", "div"]
  }

  /** `series.diff()`: undefined in the first row, then each value minus the one before. */
  function SubRaw(xs: Series): (r: seq<Option<real>>)
    ensures |r| == |xs|
  {
    seq(|xs|, i requires 0 <= i < |xs| => if i == 0 then None else Some(xs[i] - xs[i - 1]))
  }

  /** `series.pct_change()`: undefined in the first row and after a zero, then
      each value's ratio to the one before, minus one. */
  function DivRaw(xs: Series): (r: seq<Option<real>>)
    ensures |r| == |xs|
    ensures forall i :: 0 < i < |xs| && r[i].Some? ==> xs[i] == xs[i - 1] * (1.0 + r[i].value)
    ensures forall i :: 0 < i < |xs| ==> (r[i].Some? <==> xs[i - 1] != 0.0)
  {
    seq(|xs|, i requires 0 <= i < |xs| => if i == 0 || xs[i - 1] == 0.0 then None else Some(xs[i] / xs[i - 1] - 1.0))
  }

  /** `apply_diff`: the difference of the named kind, or `ValueError` for an
      unknown kind. */
  function ApplyDiff(xs: Series, kind: string): (r: Result<seq<Option<real>>, LoaderError>)
    ensures r.Err? <==> kind != "sub" && kind != "div"
    ensures r.Err? ==> r.error == ValueError(kind)
    ensures r.Ok? ==> |r.value| == |xs| && (|xs| > 0 ==> r.value[0].None?)
  {
    if kind == "sub" then Ok(SubRaw(xs))
    else if kind == "div" then Ok(DivRaw(xs))
    else Err(ValueError(kind))
  }

  /** Every kind `get_diff_options` offers can be applied, and its difference is
      defined in every row but the first: the ratio is only offered when no
      value is zero. */
  lemma OptionsApply(xs: Series, kind: string)
    requires kind in DiffOptions(xs)
    ensures ApplyDiff(xs, kind).Ok?
    ensures forall i :: 0 < i < |xs| ==> ApplyDiff(xs, kind).value[i].Some?
  {
    if kind == "div" {
      forall i | 0 < i < |xs| ensures ApplyDiff(xs, kind).value[i].Some? {
        assert xs[i - 1] in xs;
      }
    }
  }

  /** `fillna(0)`. */
  function FillNa(s: seq<Option<real>>): (r: Series)
    ensures |r| == |s|
    ensures forall i :: 0 <= i < |s| ==> r[i] == if s[i].Some? then s[i].value else 0.0
  {
    seq(|s|, i requires 0 <= i < |s| => s[i].GetOr(0.0))
  }

  /** `series.diff().fillna(0)`: the subtraction difference column. */
  function SubDiff(xs: Series): (r: Series)
    ensures |r| == |xs|
    ensures |xs| > 0 ==> r[0] == 0.0
    ensures forall i :: 0 < i < |xs| ==> r[i] == xs[i] - xs[i - 1]
  {
    FillNa(SubRaw(xs))
  }

  function Sum(s: Series): real {
    if s == [] then 0.0 else Sum(s[..|s| - 1]) + s[|s| - 1]
  }

  /** The subtraction difference loses only the first value: adding its first
      `i + 1` entries to the first value gives back value `i`. */
  lemma {:induction false} SubDiffSum(xs: Series, i: nat)
    requires i < |xs|
    ensures xs[0] + Sum(SubDiff(xs)[..i + 1]) == xs[i]
  {
    var d := SubDiff(xs);
    if i == 0 {
      assert d[..1] == [0.0];
      assert Sum(d[..1]) == Sum([]) + 0.0;
    } else {
      SubDiffSum(xs, i - 1);
      assert d[..i + 1][..i] == d[..i];
    }
  }

  // ---------------------------------------------------------------------------
  // process_difference

  /** The columns `process_difference` assigns, in insertion order: the
      predictor itself, its subtraction difference and, for a series without a
      zero, its ratio difference. */
  function DiffColumns(col: string, xs: Series): (m: Frame) {
    var sub := [(col, xs), (col + "_diff_sub", SubDiff(xs))];
    if 0.0 in xs then sub else sub + [(col + "_diff_div", FillNa(DivRaw(xs)))]
  }

  /** The result of `process_difference`: the table, `diff_cols` and `used_series`. */
  datatype Difference = Difference(frame: Frame, diffCols: seq<string>, used: Series)

  /** `process_difference` on a table: `KeyError` when the predictor column is
      missing, otherwise the copy with the difference columns assigned. */
  function ProcessedOf(data: Frame, col: string): Result<Difference, LoaderError> {
    if !HasKey(data, col) then Err(KeyError(col))
    else
      var xs := Get(data, col).value;
      var m := DiffColumns(col, xs);
      Ok(Difference(Update(data, m), Keys(m), SubDiff(xs)))
  }

  /** The three column names are distinct. */
  lemma NamesDistinct(col: string)
    ensures col + "_diff_sub" != col && col + "_diff_div" != col
    ensures col + "_diff_sub" != col + "_diff_div"
  {
    assert |col + "_diff_sub"| > |col| && |col + "_diff_div"| > |col|;
    assert (col + "_diff_sub")[|col| + 6] == 's';
    assert (col + "_diff_div")[|col| + 6] == 'd';
  }

  /** What the assigned columns hold. */
  lemma DiffColumnsSpec(col: string, xs: Series)
    ensures var m := DiffColumns(col, xs);
      && Keys(m) == (if 0.0 in xs then [col, col + "_diff_sub"] else [col, col + "_diff_sub", col + "_diff_div"])
      && Get(m, col) == Some(xs)
      && Get(m, col + "_diff_sub") == Some(SubDiff(xs))
  {
    NamesDistinct(col);
    var sub := [(col, xs), (col + "_diff_sub", SubDiff(xs))];
    assert sub[..1] == [(col, xs)];
    assert Get(sub, col) == Some(xs);
    if 0.0 !in xs {
      var m := sub + [(col + "_diff_div", FillNa(DivRaw(xs)))];
      assert m[..2] == sub;
    }
  }

  /** The names and order of `diff_cols`, and `used_series` being the
      subtraction difference in both branches. */
  lemma DiffColsSpec(data: Frame, col: string)
    ensures ProcessedOf(data, col).Err? <==> !HasKey(data, col)
    ensures HasKey(data, col) ==>
      var xs, r := Get(data, col).value, ProcessedOf(data, col).value;
      && r.diffCols == (if 0.0 in xs then [col, col + "_diff_sub"] else [col, col + "_diff_sub", col + "_diff_div"])
      && r.used == SubDiff(xs)
      && Get(r.frame, col + "_diff_sub") == Some(r.used)
  {
    if HasKey(data, col) {
      var xs := Get(data, col).value;
      DiffColumnsSpec(col, xs);
      var m := DiffColumns(col, xs);
      HasKeyKeys(m, col + "_diff_sub");
    }
  }

  /** The original table is kept: its columns stay in their places with their
      values, except the difference columns that already existed, which are
      overwritten; the only new columns are the difference columns. */
  lemma ProcessedKeeps(data: Frame, col: string)
    requires HasKey(data, col)
    ensures var r := ProcessedOf(data, col).value;
      && |r.frame| >= |data|
      && (forall i :: 0 <= i < |data| ==> r.frame[i].0 == data[i].0)
      && (forall k :: k !in r.diffCols[1..] ==> Get(r.frame, k) == Get(data, k))
      && (forall k :: HasKey(r.frame, k) <==> HasKey(data, k) || k in r.diffCols)
  {
    var xs := Get(data, col).value;
    var m := DiffColumns(col, xs);
    DiffColumnsSpec(col, xs);
    forall k ensures HasKey(m, k) <==> k in Keys(m) {
      HasKeyKeys(m, k);
    }
    forall k | k !in Keys(m)[1..] ensures Get(Update(data, m), k) == Get(data, k) {
      if k != col {
        assert k !in Keys(m);
      }
    }
  }

  /** `for col, series in diff_col_map.items(): df[col] = series`. */
  method AssignColumns(df: Frame, m: Frame) returns (r: Frame)
    ensures r == Update(df, m)
  {
    r := df;
    for i := 0 to |m|
      invariant r == Update(df, m[..i])
    {
      assert m[..i + 1][..i] == m[..i];
      r := Put(r, m[i].0, m[i].1);
    }
    assert m[..|m|] == m;
  }

  /** `process_difference` as written: the branch on a zero, the appends to
      `diff_cols` and the column assignments into the copy. */
  method ProcessDifference(data: Frame, col: string) returns (r: Result<Difference, LoaderError>)
    ensures r == ProcessedOf(data, col)
  {
    if !HasKey(data, col) {
      return Err(KeyError(col));
    }
    var factor := Get(data, col).value;
    var diffCols := [col];
    var diffColMap: Frame := [(col, factor)];
    var used: Series;
    if 0.0 in factor {
      var sub := SubDiff(factor);
      diffCols := diffCols + [col + "_diff_sub"];
      diffColMap := diffColMap + [(col + "_diff_sub", sub)];
      used := sub;
    } else {
      var sub := SubDiff(factor);
      var div := FillNa(DivRaw(factor));
      diffCols := diffCols + [col + "_diff_sub", col + "_diff_div"];
      diffColMap := diffColMap + [(col + "_diff_sub", sub), (col + "_diff_div", div)];
      used := sub;
    }
    assert diffColMap == DiffColumns(col, factor);
    assert diffCols == Keys(diffColMap);
    var df := AssignColumns(data, diffColMap);
    return Ok(Difference(df, diffCols, used));
  }

  // ---------------------------------------------------------------------------
  // Time column

  /** A column name that lowercases to `time`, `date` or `timestamp`. */
  predicate IsTimeName(c: string) {
    Lower(c) in ["time", "date", "timestamp"]
  }

  /** The automatic part of `_identify_time_col`: the first column, in column
      order, with a time name, or `None` when the user would be asked. */
  method IdentifyTimeCol(columns: seq<string>) returns (r: Option<string>)
    ensures r.Some? ==> exists i :: (0 <= i < |columns| && columns[i] == r.value && IsTimeName(columns[i])
      && forall j :: 0 <= j < i ==> !IsTimeName(columns[j]))
    ensures r.None? <==> forall i :: 0 <= i < |columns| ==> !IsTimeName(columns[i])
  {
    for i := 0 to |columns|
      invariant forall j :: 0 <= j < i ==> !IsTimeName(columns[j])
    {
      if Lower(columns[i]) in ["time", "date", "timestamp"] {
        return Some(columns[i]);
      }
    }
    return None;
  }
}
