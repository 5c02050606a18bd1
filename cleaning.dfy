/**
  `clean_data` (utils.py): drop incomplete rows, or fill missing cells with
  a column's mean, median or mode, or with a given value.

  Filling writes each column back into the caller's DataFrame one column at
  a time, so a KeyError part-way through leaves the earlier columns filled;
  dropping builds a new DataFrame and leaves the caller's alone.
 */
module Cleaning {
  import opened Wrappers
  import opened Tables

  /** `s.fillna(v)`: every missing cell becomes `v`. */
  function FillNa(cells: Cells, v: Value): (r: Cells)
    ensures |r| == |cells|
    ensures forall i :: 0 <= i < |r| ==> r[i].Some?
  {
    if cells == [] then [] else [if cells[0].None? then Some(v) else cells[0]] + FillNa(cells[1..], v)
  }

  /** Filling touches only missing cells and leaves none. */
  lemma {:induction false} FillNaCells(cells: Cells, v: Value)
    ensures forall i :: 0 <= i < |cells| && cells[i].Some? ==> FillNa(cells, v)[i] == cells[i]
    ensures forall i :: 0 <= i < |cells| && cells[i].None? ==> FillNa(cells, v)[i] == Some(v)
  {
    if cells != [] {
      FillNaCells(cells[1..], v);
      assert forall i :: 1 <= i < |cells| ==> cells[i] == cells[1..][i - 1];
    }
  }

  /** Filling moves exactly the missing count over to `v`'s count, and no other value's count changes. */
  lemma {:induction false} FillNaCounts(cells: Cells, v: Value)
    ensures multiset(FillNa(cells, v)) == multiset(cells)[None := 0][Some(v) := Count(cells, v) + MissingCount(cells)]
  {
    if cells != [] {
      FillNaCounts(cells[1..], v);
      assert cells == [cells[0]] + cells[1..];
      var head: Option<Value> := if cells[0].None? then Some(v) else cells[0];
      assert FillNa(cells, v) == [head] + FillNa(cells[1..], v);
      assert multiset(cells) == multiset{cells[0]} + multiset(cells[1..]);
    }
  }

  /** Filling leaves no missing cell, adds the missing count to `v`'s count and keeps every other count. */
  lemma FillNaSpec(cells: Cells, v: Value)
    ensures MissingCount(FillNa(cells, v)) == 0
    ensures Count(FillNa(cells, v), v) == Count(cells, v) + MissingCount(cells)
    ensures forall w :: w != v ==> Count(FillNa(cells, v), w) == Count(cells, w)
  {
    FillNaCounts(cells, v);
  }

  /** `s.mean()` / `s.median()` / `s.mode()[0]`-based filling of one column, as the loop body does it. */
  function FillStep(c: Column, how: string, stats: Numerics): (r: Result<Column, Failure>)
    ensures r.Ok? ==> r.value.name == c.name && r.value.kind == c.kind && |r.value.cells| == |c.cells|
  {
    if how == "mode" then
      var vc := ValueCounts(c.cells);
      // `mode()` of a column with no present value is empty, and `[0]` on it raises KeyError
      if vc == [] then Err(KeyError) else Ok(c.(cells := FillNa(c.cells, vc[0].0)))
    else
      var center := Center(c.cells, how, stats);
      if IsNumericDtype(c.kind) && center.Some? then Ok(c.(cells := FillNa(c.cells, Num(center.value))))
      else Ok(c)  // not numeric, or the statistic is NaN and `fillna(NaN)` changes nothing
  }

  /** `s.mean()` for "mean", `s.median()` otherwise; None is NaN. */
  function Center(cells: Cells, how: string, stats: Numerics): Option<real> {
    if how == "mean" then stats.mean(cells) else stats.median(cells)
  }

  /** The columns after the fill loop, and the exception that stopped it if any. */
  datatype Outcome = Outcome(cols: seq<Column>, failure: Option<Failure>)

  /** `for col in columns: df[col] = df[col].fillna(...)`, stopping at the first exception. */
  function FillAll(cols: seq<Column>, names: seq<string>, how: string, stats: Numerics): (o: Outcome)
    ensures |o.cols| == |cols|
  {
    FillEach(cols, names, FillerOf(how, stats))
  }

  /** The loop body's filling of one column by `how`. */
  function FillerOf(how: string, stats: Numerics): Column -> Result<Column, Failure> {
    c => FillStep(c, how, stats)
  }

  /** Each named column in turn replaced by what `fill` makes of it, stopping at an unknown name or the first failure. */
  function FillEach(cols: seq<Column>, names: seq<string>, fill: Column -> Result<Column, Failure>): (o: Outcome)
    decreases |names|
    ensures |o.cols| == |cols|
  {
    if names == [] then Outcome(cols, None)
    else
      match FindColumn(cols, names[0])
      case None => Outcome(cols, Some(KeyError))
      case Some(i) =>
        match fill(cols[i])
        case Err(e) => Outcome(cols, Some(e))
        case Ok(c) => FillEach(cols[i := c], names[1..], fill)
  }

  /** `columns` when given, `df.columns` otherwise. */
  function ChosenNames(cols: seq<Column>, columns: Option<seq<string>>): seq<string> {
    if columns.Some? then columns.value else Names(cols)
  }

  predicate AllFound(cols: seq<Column>, names: seq<string>) {
    forall k :: 0 <= k < |names| ==> names[k] in Names(cols)
  }

  /** No cell of row `r` is missing in the chosen columns. */
  predicate RowComplete(cols: seq<Column>, names: seq<string>, r: nat) {
    forall i :: 0 <= i < |cols| && cols[i].name in names ==> r < |cols[i].cells| && cols[i].cells[r].Some?
  }

  /** The positions below `n` of the complete rows, ascending. */
  function CompleteRows(cols: seq<Column>, names: seq<string>, n: nat): seq<nat> {
    if n == 0 then []
    else CompleteRows(cols, names, n - 1) + (if RowComplete(cols, names, n - 1) then [n - 1] else [])
  }

  /** `CompleteRows` lists exactly the complete rows, each once, in table order. */
  lemma {:induction false} CompleteRowsSpec(cols: seq<Column>, names: seq<string>, n: nat)
    ensures forall k :: 0 <= k < |CompleteRows(cols, names, n)| ==>
              CompleteRows(cols, names, n)[k] < n && RowComplete(cols, names, CompleteRows(cols, names, n)[k])
    ensures forall k, l :: 0 <= k < l < |CompleteRows(cols, names, n)| ==>
              CompleteRows(cols, names, n)[k] < CompleteRows(cols, names, n)[l]
    ensures forall r: nat :: r < n && RowComplete(cols, names, r) ==> r in CompleteRows(cols, names, n)
  {
    if n > 0 {
      CompleteRowsSpec(cols, names, n - 1);
    }
  }

  function SelectRows(cells: Cells, idx: seq<nat>): (r: Cells)
    requires forall k :: 0 <= k < |idx| ==> idx[k] < |cells|
    ensures |r| == |idx|
  {
    seq(|idx|, k requires 0 <= k < |idx| => cells[idx[k]])
  }

  /** `df.dropna(subset=names)` on a table whose chosen names all exist. */
  function DropIncomplete(t: Table, names: seq<string>): (r: Table)
    requires WellFormed(t)
    ensures WellFormed(r) && Names(r.cols) == Names(t.cols)
  {
    var idx := CompleteRows(t.cols, names, t.rows);
    CompleteRowsSpec(t.cols, names, t.rows);
    Table(|idx|, seq(|t.cols|, i requires 0 <= i < |t.cols| => t.cols[i].(cells := SelectRows(t.cols[i].cells, idx))))
  }

  /**
    Dropping keeps the columns, their names and dtypes, and exactly the
    complete rows in their original order; no chosen column has a missing
    cell afterwards.
   */
  lemma DropIncompleteSpec(t: Table, names: seq<string>)
    requires WellFormed(t)
    ensures var d := DropIncomplete(t, names);
      var idx := CompleteRows(t.cols, names, t.rows);
      && WellFormed(d)
      && |d.cols| == |t.cols|
      && d.rows == |idx|
      && (forall k :: 0 <= k < |idx| ==> idx[k] < t.rows)
      && (forall k, l :: 0 <= k < l < |idx| ==> idx[k] < idx[l])
      && (forall r: nat :: r < t.rows ==> (r in idx <==> RowComplete(t.cols, names, r)))
      && (forall i :: 0 <= i < |t.cols| ==>
            d.cols[i].name == t.cols[i].name && d.cols[i].kind == t.cols[i].kind
            && (forall k :: 0 <= k < |idx| ==> d.cols[i].cells[k] == t.cols[i].cells[idx[k]]))
      && (forall i, k :: 0 <= i < |t.cols| && t.cols[i].name in names && 0 <= k < d.rows ==> d.cols[i].cells[k].Some?)
  {
    CompleteRowsSpec(t.cols, names, t.rows);
  }

  /** `df[columns].fillna(v)` written back: the chosen columns filled, the others kept. */
  function FillChosen(cols: seq<Column>, names: seq<string>, v: Value): (r: seq<Column>)
    ensures |r| == |cols|
  {
    seq(|cols|, i requires 0 <= i < |cols| =>
      if cols[i].name in names then cols[i].(cells := FillNa(cols[i].cells, v)) else cols[i])
  }

  /**
    The mean/median loop never raises except for an unknown name, leaves
    non-numeric and unchosen columns as they were, and changes no present cell.
   */
  lemma {:induction false} FillAllCenter(cols: seq<Column>, names: seq<string>, how: string, stats: Numerics)
    requires how == "mean" || how == "median"
    decreases |names|
    ensures var o := FillAll(cols, names, how, stats);
      && (o.failure.Some? <==> !AllFound(cols, names))
      && (o.failure.Some? ==> o.failure.value == KeyError)
      && |o.cols| == |cols|
      && forall i :: 0 <= i < |cols| ==>
           && o.cols[i].name == cols[i].name && o.cols[i].kind == cols[i].kind
           && |o.cols[i].cells| == |cols[i].cells|
           && (!IsNumericDtype(cols[i].kind) || cols[i].name !in names ==> o.cols[i] == cols[i])
           && (forall r :: 0 <= r < |cols[i].cells| && cols[i].cells[r].Some? ==> o.cols[i].cells[r] == cols[i].cells[r])
  {
    if names != [] {
      match FindColumn(cols, names[0])
      case None =>
        assert names[0] !in Names(cols);
      case Some(j) =>
        CenterFill(cols[j], how, stats);
        var c := FillStep(cols[j], how, stats).value;
        var next := cols[j := c];
        assert FillAll(cols, names, how, stats) == FillAll(next, names[1..], how, stats);
        FillAllCenter(next, names[1..], how, stats);
        assert Names(next) == Names(cols);
        FoundAfterFirst(cols, next, names);
    }
  }

  /**
    Mean or median filling of one column never raises; a numeric column
    whose statistic is a number has every missing cell replaced by it and
    is left with none, and any other column is kept whole.
   */
  lemma CenterFill(c: Column, how: string, stats: Numerics)
    requires how == "mean" || how == "median"
    ensures var r := FillStep(c, how, stats);
      && r.Ok? && r.value.name == c.name && r.value.kind == c.kind && |r.value.cells| == |c.cells|
      && (!IsNumericDtype(c.kind) || Center(c.cells, how, stats).None? ==> r.value == c)
      && (IsNumericDtype(c.kind) && Center(c.cells, how, stats).Some? ==>
            && r.value.cells == FillNa(c.cells, Num(Center(c.cells, how, stats).value))
            && (forall k :: 0 <= k < |c.cells| && c.cells[k].None? ==> r.value.cells[k] == Some(Num(Center(c.cells, how, stats).value)))
            && (forall k :: 0 <= k < |c.cells| ==> r.value.cells[k].Some?))
      && forall k :: 0 <= k < |c.cells| && c.cells[k].Some? ==> r.value.cells[k] == c.cells[k]
  {
    var center := Center(c.cells, how, stats);
    if center.Some? {
      FillNaCells(c.cells, Num(center.value));
    }
  }

  /**
    When the mean/median loop finishes, each chosen numeric column whose
    statistic is a number has had its missing cells replaced by that
    statistic, and none is left missing.
   */
  lemma {:induction false} CenterFillsChosen(cols: seq<Column>, names: seq<string>, how: string, stats: Numerics)
    requires how == "mean" || how == "median"
    decreases |names|
    ensures var o := FillAll(cols, names, how, stats);
      o.failure.None? ==>
        forall i :: 0 <= i < |cols| && cols[i].name in names && FindColumn(cols, cols[i].name) == Some(i)
                    && IsNumericDtype(cols[i].kind) && Center(cols[i].cells, how, stats).Some? ==>
          && |o.cols| == |cols|
          && o.cols[i].cells == FillNa(cols[i].cells, Num(Center(cols[i].cells, how, stats).value))
          && forall k :: 0 <= k < |o.cols[i].cells| ==> o.cols[i].cells[k].Some?
  {
    if names != [] {
      match FindColumn(cols, names[0])
      case None =>
      case Some(j) =>
        CenterFill(cols[j], how, stats);
        var c := FillStep(cols[j], how, stats).value;
        var next := cols[j := c];
        var o := FillAll(cols, names, how, stats);
        assert o == FillAll(next, names[1..], how, stats);
        assert Names(next) == Names(cols);
        CenterFillsChosen(next, names[1..], how, stats);
        FillAllCenter(next, names[1..], how, stats);
        if o.failure.None? {
          forall i | 0 <= i < |cols| && cols[i].name in names && FindColumn(cols, cols[i].name) == Some(i)
                     && IsNumericDtype(cols[i].kind) && Center(cols[i].cells, how, stats).Some?
            ensures |o.cols| == |cols|
            ensures o.cols[i].cells == FillNa(cols[i].cells, Num(Center(cols[i].cells, how, stats).value))
            ensures forall k :: 0 <= k < |o.cols[i].cells| ==> o.cols[i].cells[k].Some?
          {
            FindColumnByNames(cols, next, cols[i].name);
            if i == j {
              KeptWhenComplete(c.cells, o.cols[j].cells);
            } else {
              assert cols[i].name != names[0];
              assert cols[i].name in names[1..];
            }
          }
        }
    }
  }

  /** Cells that keep every present cell of a column without missing cells are that column. */
  lemma KeptWhenComplete(before: Cells, after: Cells)
    requires |after| == |before| && forall k :: 0 <= k < |before| ==> before[k].Some?
    requires forall k :: 0 <= k < |before| && before[k].Some? ==> after[k] == before[k]
    ensures after == before
  {
  }

  /** Once the first name is found, all names are found exactly when the rest are found in a table with the same names. */
  lemma FoundAfterFirst(cols: seq<Column>, next: seq<Column>, names: seq<string>)
    requires names != [] && names[0] in Names(cols) && Names(next) == Names(cols)
    ensures AllFound(cols, names) <==> AllFound(next, names[1..])
  {
    assert forall k :: 1 <= k < |names| ==> names[k] == names[1..][k - 1];
    assert forall k :: 0 <= k < |names[1..]| ==> names[1..][k] == names[k + 1];
  }

  /**
    The mode loop fills every missing cell of each chosen column with a most
    frequent value of it; it raises KeyError for an unknown name or a column
    with no present value.
   */
  lemma ModeFillsMostFrequent(c: Column, stats: Numerics)
    ensures FillStep(c, "mode", stats).Err? <==> forall r :: 0 <= r < |c.cells| ==> c.cells[r].None?
    ensures FillStep(c, "mode", stats).Ok? ==>
      exists v :: FillStep(c, "mode", stats).value.cells == FillNa(c.cells, v)
        && Count(c.cells, v) > 0
        && forall w :: Count(c.cells, w) <= Count(c.cells, v)
  {
    var vc := ValueCounts(c.cells);
    ValueCountsSpec(c.cells);
    if vc != [] {
      var v := vc[0].0;
      forall w ensures Count(c.cells, w) <= Count(c.cells, v) {
        TopCountIsMaximal(c.cells, w);
      }
      TopCountIsMaximal(c.cells, v);
      assert Some(v) in c.cells;
    }
  }

  /** The mean/median/mode branch: the fill loop over the chosen names, writing each column back in place. */
  method FillLoop(df: Frame, names: seq<string>, how: string, stats: Numerics) returns (failure: Option<Failure>)
    requires df.Valid()
    modifies df
    ensures df.Valid() && df.rows == old(df.rows)
    ensures Outcome(df.cols, failure) == FillAll(old(df.cols), names, how, stats)
  {
    var fill := FillerOf(how, stats);
    forall c ensures fill(c).Ok? ==> fill(c).value.name == c.name && |fill(c).value.cells| == |c.cells| {
      assert fill(c) == FillStep(c, how, stats);
    }
    failure := FillEachLoop(df, names, fill);
  }

  /** The loop itself: looks each name up, fills that column and writes it back, until a name is unknown or a fill raises. */
  method FillEachLoop(df: Frame, names: seq<string>, fill: Column -> Result<Column, Failure>) returns (failure: Option<Failure>)
    requires df.Valid()
    requires forall c :: fill(c).Ok? ==> fill(c).value.name == c.name && |fill(c).value.cells| == |c.cells|
    modifies df
    ensures df.Valid() && df.rows == old(df.rows)
    ensures Outcome(df.cols, failure) == FillEach(old(df.cols), names, fill)
  {
    var k := 0;
    failure := None;
    while k < |names| && failure.None?
      invariant 0 <= k <= |names|
      invariant df.Valid() && df.rows == old(df.rows)
      invariant failure.None? ==> FillEach(df.cols, names[k..], fill) == FillEach(old(df.cols), names, fill)
      invariant failure.Some? ==> Outcome(df.cols, failure) == FillEach(old(df.cols), names, fill)
      decreases |names| - k, if failure.None? then 1 else 0
    {
      assert names[k..][1..] == names[k + 1..];
      var found := FindColumn(df.cols, names[k]);
      match found {
        case None =>
          failure := Some(KeyError);
        case Some(i) =>
          var step := fill(df.cols[i]);
          match step {
            case Err(e) =>
              failure := Some(e);
            case Ok(c) =>
              df.SetColumn(i, c);
              k := k + 1;
          }
      }
    }
    if failure.None? {
      assert names[k..] == [];
    }
  }

  /** The "value" branch once the names are known and the fill value is given. */
  method FillChosenInPlace(df: Frame, names: seq<string>, v: Value)
    requires df.Valid()
    modifies df
    ensures df.Valid() && df.rows == old(df.rows)
    ensures df.cols == FillChosen(old(df.cols), names, v)
  {
    var target := FillChosen(df.cols, names, v);
    var i := 0;
    while i < |df.cols|
      invariant 0 <= i <= |df.cols| == |old(df.cols)|
      invariant df.Valid() && df.rows == old(df.rows)
      invariant df.cols[..i] == target[..i] && df.cols[i..] == old(df.cols)[i..]
    {
      if df.cols[i].name in names {
        df.SetColumn(i, df.cols[i].(cells := FillNa(df.cols[i].cells, v)));
      }
      i := i + 1;
    }
    assert df.cols == df.cols[..i];
  }

  /**
    `clean_data(df, method, fill_value, columns)`. Returns the resulting
    DataFrame (the caller's own, or a new one for "drop"), or the exception.
   */
  method CleanData(df: Frame, how: string, fillValue: Option<Value>, columns: Option<seq<string>>, stats: Numerics)
    returns (r: Result<Frame, Failure>)
    requires df.Valid()
    modifies df
    ensures df.Valid() && df.rows == old(df.rows)
    ensures var names := ChosenNames(old(df.cols), columns);
      if how == "drop" then
        && unchanged(df)
        && (if AllFound(old(df.cols), names)
            then r.Ok? && fresh(r.value) && r.value.Valid() && r.value.Snapshot() == DropIncomplete(old(df.Snapshot()), names)
            else r == Err(KeyError))
      else if how == "mean" || how == "median" || how == "mode" then
        var o := FillAll(old(df.cols), names, how, stats);
        && df.cols == o.cols
        && r == (if o.failure.None? then Ok(df) else Err(o.failure.value))
      else if how == "value" then
        if !AllFound(old(df.cols), names) then unchanged(df) && r == Err(KeyError)
        else if fillValue.None? then unchanged(df) && r == Err(ValueError)
        else df.cols == FillChosen(old(df.cols), names, fillValue.value) && r == Ok(df)
      else unchanged(df) && r == Ok(df)
  {
    var names := ChosenNames(df.cols, columns);
    if how == "drop" {
      if AllFound(df.cols, names) {
        DropIncompleteSpec(df.Snapshot(), names);
        var kept := new Frame(DropIncomplete(df.Snapshot(), names));
        r := Ok(kept);
      } else {
        r := Err(KeyError);
      }
    } else if how == "mean" || how == "median" || how == "mode" {
      var failure := FillLoop(df, names, how, stats);
      r := if failure.None? then Ok(df) else Err(failure.value);
    } else if how == "value" {
      if !AllFound(df.cols, names) {
        r := Err(KeyError);
      } else if fillValue.None? {
        // `fillna(None)` raises: a fill value or method must be given
        r := Err(ValueError);
      } else {
        FillChosenInPlace(df, names, fillValue.value);
        r := Ok(df);
      }
    } else {
      r := Ok(df);
    }
  }
}
