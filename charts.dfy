/**
  `get_automatic_visualizations` (utils.py): which charts are produced, in
  what order, for a table. Figures are abstract chart specs. The planner
  overwrites the first date-named column of the caller's DataFrame with its
  datetime conversion when that conversion succeeds.
 */
module Charts {
  import opened Wrappers
  import opened Text
  import opened Tables
  import opened Profiling

  datatype Chart =
    | Histogram(column: string)
    | Line(x: string, y: string)
    | Bar(column: string)
    | Box(x: string, y: string)
    | Scatter(x: string, y: string)

  /** Position of `date_cols[0]`: the first column whose lower-cased name contains "date" or "time". */
  function FirstDateNamed(cols: seq<Column>): (r: Option<nat>)
    ensures r.Some? ==> (r.value < |cols| && IsDateNamed(cols[r.value].name)
      && forall j :: 0 <= j < r.value ==> !IsDateNamed(cols[j].name))
    ensures r.None? ==> forall j :: 0 <= j < |cols| ==> !IsDateNamed(cols[j].name)
  {
    if cols == [] then None
    else if IsDateNamed(cols[0].name) then Some(0)
    else match FirstDateNamed(cols[1..])
      case None => None
      case Some(i) => Some(i + 1)
  }

  /** `df[date_cols[0]] = pd.to_datetime(df[date_cols[0]])` when it does not raise. */
  function ConvertDates(cols: seq<Column>, parseCell: Value -> Option<(int, int)>): seq<Column> {
    match FirstDateNamed(cols)
    case None => cols
    case Some(i) =>
      match ToDatetime(cols[i], parseCell)
      case None => cols
      case Some(c) => cols[i := c]
  }

  /** The x axis of the line charts: the date column, when its conversion succeeds. */
  function LineAxis(cols: seq<Column>, parseCell: Value -> Option<(int, int)>): Option<string> {
    match FirstDateNamed(cols)
    case None => None
    case Some(i) => if ToDatetime(cols[i], parseCell).Some? then Some(cols[i].name) else None
  }

  /** The table as the categorical part sees it: converted only if the numeric loop ran. */
  function AfterDates(cols: seq<Column>, parseCell: Value -> Option<(int, int)>): seq<Column> {
    if KindNames(cols, IsNumber) == [] then cols else ConvertDates(cols, parseCell)
  }

  /** `df.select_dtypes(include=['object', 'category'])`, as columns. */
  function CategoricalColumns(cols: seq<Column>): seq<Column> {
    if cols == [] then []
    else (if IsCategorical(cols[0].kind) then [cols[0]] else []) + CategoricalColumns(cols[1..])
  }

  /** One numeric column's charts: its histogram, then its line chart when there is a date axis. */
  function NumericHead(name: string, axis: Option<string>): seq<Chart> {
    [Histogram(name)] + (if axis.Some? then [Line(axis.value, name)] else [])
  }

  /** A histogram per numeric column, each followed by its line chart when there is a date axis. */
  function NumericCharts(nums: seq<string>, axis: Option<string>): seq<Chart> {
    if nums == [] then [] else NumericHead(nums[0], axis) + NumericCharts(nums[1..], axis)
  }

  /** One categorical column's charts: a bar chart when it has fewer than 15 distinct values, then a box plot when a numeric column exists. */
  function CategoryHead(c: Column, nums: seq<string>): seq<Chart> {
    if NUnique(c.cells) < 15 then [Bar(c.name)] + (if |nums| > 0 then [Box(c.name, nums[0])] else []) else []
  }

  /** A bar chart per categorical column with fewer than 15 distinct values, each followed by a box plot when a numeric column exists. */
  function CategoryCharts(cats: seq<Column>, nums: seq<string>): seq<Chart> {
    if cats == [] then [] else CategoryHead(cats[0], nums) + CategoryCharts(cats[1..], nums)
  }

  function ScatterChart(nums: seq<string>): seq<Chart> {
    if |nums| >= 2 then [Scatter(nums[0], nums[1])] else []
  }

  /** The charts `get_automatic_visualizations` returns for a table. */
  function Plan(cols: seq<Column>, parseCell: Value -> Option<(int, int)>): (r: seq<Chart>)
    ensures KindNames(cols, IsNumber) != [] ==> r != [] && r[0] == Histogram(KindNames(cols, IsNumber)[0])
  {
    var nums := KindNames(cols, IsNumber);
    NumericCharts(Take(nums, 5), LineAxis(cols, parseCell))
      + CategoryCharts(Take(CategoricalColumns(AfterDates(cols, parseCell)), 5), nums)
      + ScatterChart(nums)
  }

  /** Converting again changes nothing: a datetime column converts to itself, a failed conversion fails again. */
  lemma ConvertDatesStable(cols: seq<Column>, parseCell: Value -> Option<(int, int)>)
    ensures Names(ConvertDates(cols, parseCell)) == Names(cols)
    ensures FirstDateNamed(ConvertDates(cols, parseCell)) == FirstDateNamed(cols)
    ensures ConvertDates(ConvertDates(cols, parseCell), parseCell) == ConvertDates(cols, parseCell)
    ensures LineAxis(ConvertDates(cols, parseCell), parseCell) == LineAxis(cols, parseCell)
  {
    var conv := ConvertDates(cols, parseCell);
    assert Names(conv) == Names(cols);
    FirstDateNamedByNames(cols, conv);
  }

  /** The first date-named column depends on the names alone. */
  lemma {:induction false} FirstDateNamedByNames(a: seq<Column>, b: seq<Column>)
    requires Names(a) == Names(b)
    ensures FirstDateNamed(a) == FirstDateNamed(b)
  {
    if a != [] {
      assert a[0].name == Names(a)[0] == Names(b)[0] == b[0].name;
      assert Names(a[1..]) == Names(a)[1..] == Names(b)[1..] == Names(b[1..]);
      FirstDateNamedByNames(a[1..], b[1..]);
    }
  }

  function Histograms(charts: seq<Chart>): seq<string> {
    if charts == [] then [] else (if charts[0].Histogram? then [charts[0].column] else []) + Histograms(charts[1..])
  }

  function LineCount(charts: seq<Chart>): nat {
    if charts == [] then 0 else (if charts[0].Line? then 1 else 0) + LineCount(charts[1..])
  }

  function ScatterCount(charts: seq<Chart>): nat {
    if charts == [] then 0 else (if charts[0].Scatter? then 1 else 0) + ScatterCount(charts[1..])
  }

  function Bars(charts: seq<Chart>): seq<string> {
    if charts == [] then [] else (if charts[0].Bar? then [charts[0].column] else []) + Bars(charts[1..])
  }

  /** The categorical columns with fewer than 15 distinct values, in order: those that get a bar chart. */
  function FewValued(cats: seq<Column>): seq<string> {
    if cats == [] then [] else (if NUnique(cats[0].cells) < 15 then [cats[0].name] else []) + FewValued(cats[1..])
  }

  lemma {:induction false} HistogramsAppend(a: seq<Chart>, b: seq<Chart>)
    ensures Histograms(a + b) == Histograms(a) + Histograms(b)
    ensures Bars(a + b) == Bars(a) + Bars(b)
    ensures LineCount(a + b) == LineCount(a) + LineCount(b)
    ensures ScatterCount(a + b) == ScatterCount(a) + ScatterCount(b)
  {
    if a != [] {
      assert (a + b)[1..] == a[1..] + b;
      HistogramsAppend(a[1..], b);
    } else {
      assert a + b == b;
    }
  }

  lemma NumericHeadShape(name: string, axis: Option<string>)
    ensures var h := NumericHead(name, axis);
      && |h| <= 2 && Histograms(h) == [name] && LineCount(h) == (if axis.Some? then 1 else 0) && ScatterCount(h) == 0
      && (forall c :: c in h && c.Line? ==> axis == Some(c.x) && c.y == name)
      && (forall c :: c in h ==> c.Histogram? || c.Line?)
  {
    var h := NumericHead(name, axis);
    var hist: seq<Chart> := [Histogram(name)];
    assert hist[1..] == [];
    if axis.Some? {
      var line: seq<Chart> := [Line(axis.value, name)];
      assert line[1..] == [];
      HistogramsAppend(hist, line);
    }
  }

  lemma {:induction false} NumericChartsShape(nums: seq<string>, axis: Option<string>)
    ensures |NumericCharts(nums, axis)| <= 2 * |nums|
    ensures Histograms(NumericCharts(nums, axis)) == nums
    ensures LineCount(NumericCharts(nums, axis)) == if axis.Some? then |nums| else 0
    ensures ScatterCount(NumericCharts(nums, axis)) == 0
    ensures forall c :: c in NumericCharts(nums, axis) && c.Line? ==> axis == Some(c.x) && c.y in nums
    ensures forall c :: c in NumericCharts(nums, axis) ==> c.Histogram? || c.Line?
  {
    if nums != [] {
      var head, tail := NumericHead(nums[0], axis), NumericCharts(nums[1..], axis);
      assert NumericCharts(nums, axis) == head + tail;
      NumericHeadShape(nums[0], axis);
      NumericChartsShape(nums[1..], axis);
      HistogramsAppend(head, tail);
      assert nums == [nums[0]] + nums[1..];
    }
  }

  lemma CategoryHeadShape(c: Column, nums: seq<string>)
    ensures var h := CategoryHead(c, nums);
      && |h| <= 2 && Histograms(h) == [] && LineCount(h) == 0 && ScatterCount(h) == 0
      && (forall x :: x in h && x.Box? ==> |nums| > 0 && x.y == nums[0])
      && (forall x :: x in h ==> x.Bar? || x.Box?)
      && (h == [] <==> NUnique(c.cells) >= 15)
  {
    var h := CategoryHead(c, nums);
    var bar: seq<Chart> := [Bar(c.name)];
    assert bar[1..] == [];
    if h != [] && |nums| > 0 {
      var box: seq<Chart> := [Box(c.name, nums[0])];
      assert box[1..] == [];
      HistogramsAppend(bar, box);
    }
  }

  lemma {:induction false} CategoryChartsShape(cats: seq<Column>, nums: seq<string>)
    ensures |CategoryCharts(cats, nums)| <= 2 * |cats|
    ensures Histograms(CategoryCharts(cats, nums)) == [] && LineCount(CategoryCharts(cats, nums)) == 0
    ensures ScatterCount(CategoryCharts(cats, nums)) == 0
    ensures forall c :: c in CategoryCharts(cats, nums) && c.Box? ==> |nums| > 0 && c.y == nums[0]
    ensures forall c :: c in CategoryCharts(cats, nums) ==> c.Bar? || c.Box?
    ensures CategoryCharts(cats, nums) == [] <==> forall k :: 0 <= k < |cats| ==> NUnique(cats[k].cells) >= 15
  {
    if cats != [] {
      var head, tail := CategoryHead(cats[0], nums), CategoryCharts(cats[1..], nums);
      assert CategoryCharts(cats, nums) == head + tail;
      CategoryHeadShape(cats[0], nums);
      CategoryChartsShape(cats[1..], nums);
      HistogramsAppend(head, tail);
      assert forall k :: 1 <= k < |cats| ==> cats[k] == cats[1..][k - 1];
    }
  }

  /** The bar charts name exactly the categorical columns with fewer than 15 distinct values, in order. */
  lemma {:induction false} CategoryBars(cats: seq<Column>, nums: seq<string>)
    ensures Bars(CategoryCharts(cats, nums)) == FewValued(cats)
  {
    if cats != [] {
      var head, tail := CategoryHead(cats[0], nums), CategoryCharts(cats[1..], nums);
      assert CategoryCharts(cats, nums) == head + tail;
      HistogramsAppend(head, tail);
      CategoryBars(cats[1..], nums);
      HeadBars(cats[0], nums);
    }
  }

  /** One categorical column's bar chart names it, when it has fewer than 15 distinct values. */
  lemma HeadBars(c: Column, nums: seq<string>)
    ensures Bars(CategoryHead(c, nums)) == if NUnique(c.cells) < 15 then [c.name] else []
  {
    if NUnique(c.cells) < 15 {
      var bar: seq<Chart> := [Bar(c.name)];
      assert bar[1..] == [];
      if |nums| > 0 {
        var box: seq<Chart> := [Box(c.name, nums[0])];
        assert box[1..] == [];
        HistogramsAppend(bar, box);
      }
    }
  }

  /** Where the line charts and box plots of the three parts take their axes from. */
  lemma PlanAxesOfParts(a: seq<Chart>, b: seq<Chart>, nums: seq<string>, axis: Option<string>)
    requires forall c :: c in a ==> (c.Histogram? || c.Line?) && (c.Line? ==> axis == Some(c.x))
    requires forall c :: c in b ==> (c.Bar? || c.Box?) && (c.Box? ==> |nums| > 0 && c.y == nums[0])
    ensures forall c :: c in a + b + ScatterChart(nums) && c.Line? ==> axis == Some(c.x)
    ensures forall c :: c in a + b + ScatterChart(nums) && c.Box? ==> |nums| > 0 && c.y == nums[0]
  {
  }

  /**
    The whole plan: a histogram for each of the first five numeric columns
    in order, a line chart per histogram exactly when the date axis exists,
    box plots on the first numeric column, one scatter plot, last, exactly
    when there are two numeric columns, and at most 21 charts in all.
   */
  lemma PlanShape(cols: seq<Column>, parseCell: Value -> Option<(int, int)>)
    ensures var p, nums, axis := Plan(cols, parseCell), KindNames(cols, IsNumber), LineAxis(cols, parseCell);
      && |p| <= 21
      && Histograms(p) == Take(nums, 5)
      && LineCount(p) == (if axis.Some? then |Take(nums, 5)| else 0)
      && ScatterCount(p) == (if |nums| >= 2 then 1 else 0)
      && (|nums| >= 2 ==> p[|p| - 1] == Scatter(nums[0], nums[1]))
      && (forall c :: c in p && c.Line? ==> axis == Some(c.x))
      && (forall c :: c in p && c.Box? ==> |nums| > 0 && c.y == nums[0])
  {
    PlanParts(KindNames(cols, IsNumber), LineAxis(cols, parseCell), Take(CategoricalColumns(AfterDates(cols, parseCell)), 5));
  }

  /** The plan's three parts, for given numeric names, date axis and (at most five) categorical columns. */
  lemma PlanParts(nums: seq<string>, axis: Option<string>, cats: seq<Column>)
    requires |cats| <= 5
    ensures var p := NumericCharts(Take(nums, 5), axis) + CategoryCharts(cats, nums) + ScatterChart(nums);
      && |p| <= 21
      && Histograms(p) == Take(nums, 5)
      && LineCount(p) == (if axis.Some? then |Take(nums, 5)| else 0)
      && ScatterCount(p) == (if |nums| >= 2 then 1 else 0)
      && (|nums| >= 2 ==> p[|p| - 1] == Scatter(nums[0], nums[1]))
      && (forall c :: c in p && c.Line? ==> axis == Some(c.x))
      && (forall c :: c in p && c.Box? ==> |nums| > 0 && c.y == nums[0])
  {
    var a := NumericCharts(Take(nums, 5), axis);
    var b := CategoryCharts(cats, nums);
    NumericChartsShape(Take(nums, 5), axis);
    CategoryChartsShape(cats, nums);
    ScatterShape(nums);
    CombineParts(a, b, ScatterChart(nums), nums, axis);
  }

  /** Three runs of charts with known kinds, put one after the other. */
  lemma CombineParts(a: seq<Chart>, b: seq<Chart>, sc: seq<Chart>, nums: seq<string>, axis: Option<string>)
    requires |a| <= 10 && Histograms(a) == Take(nums, 5) && LineCount(a) == (if axis.Some? then |Take(nums, 5)| else 0)
    requires ScatterCount(a) == 0 && forall c :: c in a ==> (c.Histogram? || c.Line?) && (c.Line? ==> axis == Some(c.x))
    requires |b| <= 10 && Histograms(b) == [] && LineCount(b) == 0 && ScatterCount(b) == 0
    requires forall c :: c in b ==> (c.Bar? || c.Box?) && (c.Box? ==> |nums| > 0 && c.y == nums[0])
    requires sc == ScatterChart(nums) && |sc| == (if |nums| >= 2 then 1 else 0)
    requires Histograms(sc) == [] && LineCount(sc) == 0 && ScatterCount(sc) == |sc|
    requires |nums| >= 2 ==> sc[0] == Scatter(nums[0], nums[1])
    ensures var p := a + b + sc;
      && |p| <= 21
      && Histograms(p) == Take(nums, 5)
      && LineCount(p) == (if axis.Some? then |Take(nums, 5)| else 0)
      && ScatterCount(p) == (if |nums| >= 2 then 1 else 0)
      && (|nums| >= 2 ==> p[|p| - 1] == Scatter(nums[0], nums[1]))
      && (forall c :: c in p && c.Line? ==> axis == Some(c.x))
      && (forall c :: c in p && c.Box? ==> |nums| > 0 && c.y == nums[0])
  {
    HistogramsAppend(a, b);
    HistogramsAppend(a + b, sc);
    PlanAxesOfParts(a, b, nums, axis);
    var p := a + b + sc;
    if |nums| >= 2 {
      assert p[|p| - 1] == sc[0];
    }
  }

  /** The scatter part: one scatter plot of the first two numeric columns when there are two. */
  lemma ScatterShape(nums: seq<string>)
    ensures var sc := ScatterChart(nums);
      && |sc| == (if |nums| >= 2 then 1 else 0)
      && Histograms(sc) == [] && LineCount(sc) == 0 && ScatterCount(sc) == |sc|
      && (|nums| >= 2 ==> sc[0] == Scatter(nums[0], nums[1]))
  {
    if |nums| >= 2 {
      assert ScatterChart(nums)[1..] == [];
    }
  }

  /** No chart at all exactly when there is no numeric column and none of the first five categorical columns has fewer than 15 distinct values. */
  lemma PlanEmpty(cols: seq<Column>, parseCell: Value -> Option<(int, int)>)
    ensures var cats := Take(CategoricalColumns(cols), 5);
      Plan(cols, parseCell) == [] <==>
        KindNames(cols, IsNumber) == [] && forall k :: 0 <= k < |cats| ==> NUnique(cats[k].cells) >= 15
  {
    var nums := KindNames(cols, IsNumber);
    var a := NumericCharts(Take(nums, 5), LineAxis(cols, parseCell));
    var b := CategoryCharts(Take(CategoricalColumns(AfterDates(cols, parseCell)), 5), nums);
    assert Plan(cols, parseCell) == a + b + ScatterChart(nums);
    if nums != [] {
      NumericChartsShape(Take(nums, 5), LineAxis(cols, parseCell));
      assert Histograms(a) != [];
    } else {
      assert AfterDates(cols, parseCell) == cols;
      assert a == [] && ScatterChart(nums) == [];
      CategoryChartsShape(Take(CategoricalColumns(cols), 5), nums);
    }
  }

  /** The numeric loop: a histogram per column, and a line chart after each successful in-place date conversion. */
  method NumericPass(df: Frame, first: seq<string>, parseCell: Value -> Option<(int, int)>) returns (charts: seq<Chart>)
    requires df.Valid()
    modifies df
    ensures df.Valid() && df.rows == old(df.rows)
    ensures df.cols == if first == [] then old(df.cols) else ConvertDates(old(df.cols), parseCell)
    ensures charts == NumericCharts(first, LineAxis(old(df.cols), parseCell))
  {
    ghost var cols := df.cols;
    var axis := LineAxis(df.cols, parseCell);
    ghost var parts := NumericParts(first, axis);
    NumericChartsConcat(first, axis);
    ConvertDatesStable(cols, parseCell);
    charts := [];
    var k := 0;
    while k < |first|
      invariant 0 <= k <= |first|
      invariant df.Valid() && df.rows == old(df.rows)
      invariant df.cols == if k == 0 then cols else ConvertDates(cols, parseCell)
      invariant charts + Concat(parts[k..]) == Concat(parts)
    {
      ConcatStep(charts, parts, k);
      assert LineAxis(df.cols, parseCell) == axis;
      var step := NumericStep(df, first[k], parseCell);
      assert step == parts[k];
      charts := charts + step;
      k := k + 1;
    }
    assert parts[k..] == [];
  }

  /** One pass of the numeric loop: the histogram, then the date conversion in place and, when it succeeds, the line chart. */
  method NumericStep(df: Frame, name: string, parseCell: Value -> Option<(int, int)>) returns (step: seq<Chart>)
    requires df.Valid()
    modifies df
    ensures df.Valid() && df.rows == old(df.rows)
    ensures df.cols == ConvertDates(old(df.cols), parseCell)
    ensures step == NumericHead(name, LineAxis(old(df.cols), parseCell))
  {
    step := [Histogram(name)];
    var date := FirstDateNamed(df.cols);
    if date.Some? {
      var i := date.value;
      var converted := ToDatetime(df.cols[i], parseCell);
      if converted.Some? {
        df.SetColumn(i, converted.value);
        step := step + [Line(df.cols[i].name, name)];
      }
    }
  }

  /** The categorical loop over the first five categorical columns. */
  method CategoryPass(cats: seq<Column>, nums: seq<string>) returns (charts: seq<Chart>)
    ensures charts == CategoryCharts(cats, nums)
  {
    ghost var parts := CategoryParts(cats, nums);
    CategoryChartsConcat(cats, nums);
    charts := [];
    var j := 0;
    while j < |cats|
      invariant 0 <= j <= |cats|
      invariant charts + Concat(parts[j..]) == Concat(parts)
    {
      ConcatStep(charts, parts, j);
      ghost var before := charts;
      if NUnique(cats[j].cells) < 15 {
        charts := charts + [Bar(cats[j].name)];
        if |nums| > 0 {
          charts := charts + [Box(cats[j].name, nums[0])];
        }
      }
      assert charts == before + parts[j];
      j := j + 1;
    }
    assert parts[j..] == [];
  }

  /** Each numeric column's charts, column by column. */
  function NumericParts(nums: seq<string>, axis: Option<string>): (r: seq<seq<Chart>>)
    ensures |r| == |nums|
  {
    seq(|nums|, k requires 0 <= k < |nums| => NumericHead(nums[k], axis))
  }

  /** Each categorical column's charts, column by column. */
  function CategoryParts(cats: seq<Column>, nums: seq<string>): (r: seq<seq<Chart>>)
    ensures |r| == |cats|
  {
    seq(|cats|, k requires 0 <= k < |cats| => CategoryHead(cats[k], nums))
  }

  lemma {:induction false} NumericChartsConcat(nums: seq<string>, axis: Option<string>)
    ensures NumericCharts(nums, axis) == Concat(NumericParts(nums, axis))
  {
    if nums != [] {
      NumericChartsConcat(nums[1..], axis);
      assert NumericParts(nums, axis)[1..] == NumericParts(nums[1..], axis);
    }
  }

  lemma {:induction false} CategoryChartsConcat(cats: seq<Column>, nums: seq<string>)
    ensures CategoryCharts(cats, nums) == Concat(CategoryParts(cats, nums))
  {
    if cats != [] {
      var ps := CategoryParts(cats, nums);
      CategoryChartsConcat(cats[1..], nums);
      assert ps[1..] == CategoryParts(cats[1..], nums);
      assert Concat(ps) == ps[0] + Concat(ps[1..]);
    }
  }

  /**
    `get_automatic_visualizations(df)`: builds the chart list, converting
    the date column in place on each numeric pass.
   */
  method AutomaticVisualizations(df: Frame, parseCell: Value -> Option<(int, int)>) returns (charts: seq<Chart>)
    requires df.Valid()
    modifies df
    ensures df.Valid() && df.rows == old(df.rows)
    ensures df.cols == AfterDates(old(df.cols), parseCell)
    ensures charts == Plan(old(df.cols), parseCell)
  {
    var nums := KindNames(df.cols, IsNumber);
    var first := Take(nums, 5);
    assert first == [] <==> nums == [];
    var numeric := NumericPass(df, first, parseCell);
    var categorical := CategoryPass(Take(CategoricalColumns(df.cols), 5), nums);
    charts := numeric + categorical;
    if |nums| >= 2 {
      charts := charts + [Scatter(nums[0], nums[1])];
    }
  }
}
