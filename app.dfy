/**
  The pieces of the Streamlit page (app.py) that carry logic: IQR-based
  outlier capping of one numeric column in place, the cleaning labels the
  page offers, and the report's download file name.
 */
module App {
  import opened Wrappers
  import opened Text
  import opened Tables

  /** `Q1 - 1.5 * IQR` and `Q3 + 1.5 * IQR`. */
  function LowerBound(q1: real, q3: real): real {
    q1 - 1.5 * (q3 - q1)
  }

  function UpperBound(q1: real, q3: real): real {
    q3 + 1.5 * (q3 - q1)
  }

  /** The fences hug the quartiles from outside whenever Q1 <= Q3. */
  lemma BoundsOrdered(q1: real, q3: real)
    requires q1 <= q3
    ensures LowerBound(q1, q3) <= q1 <= q3 <= UpperBound(q1, q3)
  {
  }

  /** A cell the outlier mask selects; a missing cell compares false with everything. */
  predicate Outside(cell: Option<Value>, lo: real, hi: real) {
    cell.Some? && cell.value.Num? && (cell.value.x < lo || cell.value.x > hi)
  }

  /** `outlier_mask.sum()`. */
  function OutlierCount(cells: Cells, lo: real, hi: real): (n: nat)
    ensures n <= |cells|
  {
    if cells == [] then 0 else (if Outside(cells[0], lo, hi) then 1 else 0) + OutlierCount(cells[1..], lo, hi)
  }

  /** `df.loc[df[c] < lo, c] = lo` for one cell. */
  function RaiseLow(cell: Option<Value>, lo: real): Option<Value> {
    if cell.Some? && cell.value.Num? && cell.value.x < lo then Some(Num(lo)) else cell
  }

  /** `df.loc[df[c] > hi, c] = hi` for one cell. */
  function LowerHigh(cell: Option<Value>, hi: real): Option<Value> {
    if cell.Some? && cell.value.Num? && cell.value.x > hi then Some(Num(hi)) else cell
  }

  /** The column after both assignments, the low one first. */
  function Capped(cells: Cells, lo: real, hi: real): (r: Cells)
    ensures |r| == |cells|
    ensures forall i :: 0 <= i < |cells| ==> (r[i].None? <==> cells[i].None?)
  {
    seq(|cells|, i requires 0 <= i < |cells| => LowerHigh(RaiseLow(cells[i], lo), hi))
  }

  /** With ordered fences, every number of the capped column lies within them, and missing cells stay missing. */
  lemma CappedWithinBounds(cells: Cells, lo: real, hi: real)
    requires lo <= hi
    ensures forall i :: 0 <= i < |cells| && Capped(cells, lo, hi)[i].Some? && Capped(cells, lo, hi)[i].value.Num? ==>
      lo <= Capped(cells, lo, hi)[i].value.x <= hi
    ensures forall i :: 0 <= i < |cells| ==> (Capped(cells, lo, hi)[i].None? <==> cells[i].None?)
  {
  }

  /** Exactly the selected cells change: with ordered fences, a cell changes if and only if it was outside them. */
  lemma CappedChangesOnlyOutliers(cells: Cells, lo: real, hi: real)
    requires lo <= hi
    ensures forall i :: 0 <= i < |cells| ==> (Capped(cells, lo, hi)[i] != cells[i] <==> Outside(cells[i], lo, hi))
  {
  }

  /** With ordered fences, capping a second time changes nothing. */
  lemma CappedIdempotent(cells: Cells, lo: real, hi: real)
    requires lo <= hi
    ensures Capped(Capped(cells, lo, hi), lo, hi) == Capped(cells, lo, hi)
  {
  }

  /** The number of positions at which two columns of equal length differ. */
  function Differences(a: Cells, b: Cells): nat
    requires |a| == |b|
  {
    if a == [] then 0 else (if a[0] != b[0] then 1 else 0) + Differences(a[1..], b[1..])
  }

  /** With ordered fences, the reported count is the number of values capping changes. */
  lemma {:induction false} OutlierCountIsChanges(cells: Cells, lo: real, hi: real)
    requires lo <= hi
    ensures OutlierCount(cells, lo, hi) == Differences(cells, Capped(cells, lo, hi))
  {
    if cells != [] {
      OutlierCountIsChanges(cells[1..], lo, hi);
      assert Capped(cells, lo, hi)[1..] == Capped(cells[1..], lo, hi);
      CappedChangesOnlyOutliers(cells, lo, hi);
    }
  }

  /**
    The "Handle Outliers" button on column `i`: the quartiles are given
    (None is NaN, which makes every comparison false). Counts the outliers,
    then caps the column in place with two passes over its values.
   */
  method CapOutliers(df: Frame, i: nat, q1: Option<real>, q3: Option<real>) returns (count: nat)
    requires df.Valid() && i < |df.cols| && df.cols[i].kind == Numeric
    modifies df
    ensures df.Valid() && df.rows == old(df.rows)
    ensures q1.None? || q3.None? ==> count == 0 && df.cols == old(df.cols)
    ensures q1.Some? && q3.Some? ==>
      var lo, hi := LowerBound(q1.value, q3.value), UpperBound(q1.value, q3.value);
      && count == OutlierCount(old(df.cols[i].cells), lo, hi)
      && df.cols == old(df.cols)[i := old(df.cols[i]).(cells := Capped(old(df.cols[i].cells), lo, hi))]
  {
    if q1.None? || q3.None? {
      return 0;
    }
    var lo, hi := LowerBound(q1.value, q3.value), UpperBound(q1.value, q3.value);
    var cells := df.cols[i].cells;
    var values := new Option<Value>[|cells|](k requires 0 <= k < |cells| => cells[k]);

    assert values[..] == cells;
    count := CountOutside(values, lo, hi);
    RaiseLowPass(values, lo);
    LowerHighPass(values, hi);
    assert values[..] == Capped(cells, lo, hi);
    df.SetColumn(i, df.cols[i].(cells := values[..]));
  }

  /** `outlier_mask.sum()` as a pass over the column's values. */
  method CountOutside(values: array<Option<Value>>, lo: real, hi: real) returns (count: nat)
    ensures count == OutlierCount(values[..], lo, hi)
  {
    count := 0;
    var k := 0;
    while k < values.Length
      invariant 0 <= k <= values.Length
      invariant count + OutlierCount(values[k..], lo, hi) == OutlierCount(values[..], lo, hi)
    {
      assert values[k..][1..] == values[k + 1..];
      if Outside(values[k], lo, hi) {
        count := count + 1;
      }
      k := k + 1;
    }
  }

  /** `df.loc[df[c] < lo, c] = lo` over the column's values. */
  method RaiseLowPass(values: array<Option<Value>>, lo: real)
    modifies values
    ensures forall j :: 0 <= j < values.Length ==> values[j] == RaiseLow(old(values[j]), lo)
  {
    var k := 0;
    while k < values.Length
      invariant 0 <= k <= values.Length
      invariant forall j :: 0 <= j < k ==> values[j] == RaiseLow(old(values[j]), lo)
      invariant forall j :: k <= j < values.Length ==> values[j] == old(values[j])
    {
      values[k] := RaiseLow(values[k], lo);
      k := k + 1;
    }
  }

  /** `df.loc[df[c] > hi, c] = hi` over the column's values. */
  method LowerHighPass(values: array<Option<Value>>, hi: real)
    modifies values
    ensures forall j :: 0 <= j < values.Length ==> values[j] == LowerHigh(old(values[j]), hi)
  {
    var k := 0;
    while k < values.Length
      invariant 0 <= k <= values.Length
      invariant forall j :: 0 <= j < k ==> values[j] == LowerHigh(old(values[j]), hi)
      invariant forall j :: k <= j < values.Length ==> values[j] == old(values[j])
    {
      values[k] := LowerHigh(values[k], hi);
      k := k + 1;
    }
  }

  /** The cleaning choices on the page and the `clean_data` method each one runs. */
  const CleaningMethods: map<string, string> := map[
    "Drop missing rows" := "drop",
    "Fill with mean" := "mean",
    "Fill with median" := "median",
    "Fill with mode" := "mode"]

  /** The four labels map one-to-one onto the four methods. */
  lemma CleaningMethodsOneToOne()
    ensures |CleaningMethods.Keys| == 4
    ensures CleaningMethods.Values == {"drop", "mean", "median", "mode"}
    ensures forall a, b :: a in CleaningMethods && b in CleaningMethods && a != b ==> CleaningMethods[a] != CleaningMethods[b]
  {
    assert CleaningMethods.Keys == {"Drop missing rows", "Fill with mean", "Fill with median", "Fill with mode"};
    assert CleaningMethods.Values == {"drop", "mean", "median", "mode"} by {
      assert CleaningMethods["Drop missing rows"] == "drop";
      assert CleaningMethods["Fill with mean"] == "mean";
      assert CleaningMethods["Fill with median"] == "median";
      assert CleaningMethods["Fill with mode"] == "mode";
    }
  }

  /** `report_title.lower().replace(" ", "_") + ".html"`. */
  function DownloadFilename(title: string): (r: string)
    ensures |r| == |title| + 5 && r[|title|..] == ".html"
    ensures forall k :: 0 <= k < |title| ==> r[k] != ' '
  {
    ReplaceChar(Lower(title), ' ', '_') + ".html"
  }

  /**
    The file name is the title, lower-cased, with each space made an
    underscore, then ".html": one character per title character, and no
    space left in it.
   */
  lemma DownloadFilenameShape(title: string)
    ensures var f := DownloadFilename(title);
      && |f| == |title| + 5
      && f[|title|..] == ".html"
      && (forall k :: 0 <= k < |title| ==> f[k] != ' ' && !('A' <= f[k] <= 'Z'))
      && (forall k :: 0 <= k < |title| ==> (f[k] == '_' <==> title[k] == ' ' || title[k] == '_'))
      && (forall k :: 0 <= k < |title| && title[k] != ' ' ==> f[k] == LowerChar(title[k]))
  {
    var f := DownloadFilename(title);
    assert forall k :: 0 <= k < |title| ==> f[k] == ReplaceChar(Lower(title), ' ', '_')[k];
  }
}
