/**
  `get_automatic_insights` (utils.py): heuristic observations about a
  table, produced in five stages: missing share, numeric columns
  (skewness, IQR outliers), categorical columns (cardinality, imbalance),
  date spans, and strong correlations between numeric columns. The date
  stage converts each date-named column of the caller's DataFrame in place.
 */
module Insights {
  import opened Wrappers
  import opened Text
  import opened Tables
  import opened Profiling
  import App

  datatype Insight =
    | MissingShare(percent: real)
    | Skewed(column: string, right: bool, skewness: real)
    | Outliers(column: string, count: nat, percent: real)
    | Constant(column: string, firstCell: Option<Value>)  // `df[col].iloc[0]`, which may be missing
    | LowCardinality(column: string, unique: nat)
    | Imbalanced(column: string, top: Value, share: real)
    | Span(column: string, years: Option<(int, int)>)  // None when every timestamp is NaT: NaN != NaN
    | Correlated(first: string, second: string, positive: bool, r: real)

  /** The stage that produces an insight. */
  function Stage(i: Insight): nat {
    match i
    case MissingShare(_) => 0
    case Skewed(_, _, _) => 1
    case Outliers(_, _, _) => 1
    case Constant(_, _) => 2
    case LowCardinality(_, _) => 2
    case Imbalanced(_, _, _) => 2
    case Span(_, _) => 3
    case Correlated(_, _, _, _) => 4
  }

  predicate AllOfStage(s: seq<Insight>, n: nat) {
    forall i :: 0 <= i < |s| ==> Stage(s[i]) == n
  }

  predicate Abs1(x: real, bound: real) {
    x > bound || x < -bound
  }

  // ---- stage 1: missing values

  function MissingInsights(t: Table): seq<Insight> {
    match MissingPct(t)
    case Some(p) => if p > 0.0 then [MissingShare(p)] else []
    case None => []  // 0/0 is NaN, and NaN > 0 is false
  }

  // ---- stage 2: numeric columns

  /** The positions of the numeric columns (`select_dtypes(include=['number'])`), in order. */
  function NumberPositions(cols: seq<Column>): (r: seq<nat>)
    ensures forall k :: 0 <= k < |r| ==> r[k] < |cols| && cols[r[k]].kind == Numeric
    ensures forall k, l :: 0 <= k < l < |r| ==> r[k] < r[l]
    ensures forall p :: 0 <= p < |cols| && cols[p].kind == Numeric ==> p in r
  {
    if cols == [] then []
    else
      var rest := NumberPositions(cols[..|cols| - 1]);
      if cols[|cols| - 1].kind == Numeric then rest + [|cols| - 1] else rest
  }

  function OutlierCountOf(c: Column, stats: Numerics): nat {
    match (stats.q1(c.cells), stats.q3(c.cells))
    case (Some(q1), Some(q3)) => App.OutlierCount(c.cells, App.LowerBound(q1, q3), App.UpperBound(q1, q3))
    case _ => 0  // a NaN quartile makes every comparison false
  }

  /** At most a skew and an outlier insight, both about `c`. */
  function NumericInsight(c: Column, stats: Numerics): (r: seq<Insight>)
    ensures |r| <= 2
    ensures forall k :: 0 <= k < |r| ==> (r[k].Skewed? || r[k].Outliers?) && r[k].column == c.name
  {
    var skew :=
      match stats.skew(c.cells)
      case Some(s) => if Abs1(s, 1.0) then [Skewed(c.name, s > 0.0, s)] else []
      case None => [];
    var n := OutlierCountOf(c, stats);
    skew + (if n > 0 then [Outliers(c.name, n, OutlierShare(c, stats))] else [])
  }

  /** `len(outliers) / len(df) * 100`; only asked for when some value is an outlier. */
  function OutlierShare(c: Column, stats: Numerics): real {
    var n := OutlierCountOf(c, stats);
    if |c.cells| == 0 then 0.0 else n as real / |c.cells| as real * 100.0
  }

  function NumericInsights(cols: seq<Column>, stats: Numerics): seq<Insight> {
    if cols == [] then [] else NumericInsight(cols[0], stats) + NumericInsights(cols[1..], stats)
  }

  // ---- stage 3: categorical columns

  /** The cardinality check: one distinct value quotes the first cell, two to four are called low. */
  function Cardinality(c: Column): (r: seq<Insight>)
    requires c.cells != []
    ensures |r| <= 1 && forall k :: 0 <= k < |r| ==> (r[k].Constant? || r[k].LowCardinality?) && r[k].column == c.name
  {
    var u := NUnique(c.cells);
    if u == 1 then [Constant(c.name, c.cells[0])] else if u < 5 then [LowCardinality(c.name, u)] else []
  }

  /** The imbalance check on the most frequent value `top` and its count, as a share of the present cells. */
  function Imbalance(c: Column, top: (Value, nat)): (r: seq<Insight>)
    requires Present(c.cells) > 0
    ensures |r| <= 1 && forall k :: 0 <= k < |r| ==> r[k].Imbalanced? && r[k].column == c.name
  {
    var share := top.1 as real / Present(c.cells) as real;
    if share > 0.8 then [Imbalanced(c.name, top.0, share)] else []
  }

  /**
    Cardinality, then imbalance, for one categorical column.
    `value_counts(normalize=True).iloc[0]` raises IndexError when the
    column has no present value.
   */
  function CategoryInsight(c: Column): (r: Result<seq<Insight>, Failure>)
    ensures r.Err? ==> r.error == IndexError
    ensures r.Ok? ==> |r.value| <= 2 && forall k :: 0 <= k < |r.value| ==>
      (r.value[k].Constant? || r.value[k].LowCardinality? || r.value[k].Imbalanced?) && r.value[k].column == c.name
  {
    var vc := ValueCounts(c.cells);
    if vc == [] then Err(IndexError)
    else
      TopCounted(c.cells);
      var card, imb := Cardinality(c), Imbalance(c, vc[0]);
      assert forall k :: |card| <= k < |card + imb| ==> (card + imb)[k] == imb[k - |card|];
      Ok(card + imb)
  }

  /** A column with a value count has cells, and its top count is positive and within the present cells. */
  lemma TopCounted(cells: Cells)
    requires ValueCounts(cells) != []
    ensures cells != [] && 0 < ValueCounts(cells)[0].1 <= Present(cells)
  {
    var vc := ValueCounts(cells);
    ValueCountsSpec(cells);
    assert vc[0] in vc;
    CountsWithinLength(cells, vc[0].0);
  }

  function CategoryInsights(cats: seq<Column>): Result<seq<Insight>, Failure> {
    Gather(cats, CategoryInsight)
  }

  /** Runs `check` on each column in turn: the first failure ends the run, otherwise what each yields is gathered in order. */
  function Gather(cats: seq<Column>, check: Column -> Result<seq<Insight>, Failure>): Result<seq<Insight>, Failure> {
    if cats == [] then Ok([])
    else
      match check(cats[0])
      case Err(e) => Err(e)
      case Ok(s) =>
        match Gather(cats[1..], check)
        case Err(e) => Err(e)
        case Ok(rest) => Ok(s + rest)
  }

  function CategoricalOf(cols: seq<Column>): seq<Column> {
    if cols == [] then [] else (if IsCategorical(cols[0].kind) then [cols[0]] else []) + CategoricalOf(cols[1..])
  }

  // ---- stage 4: date spans

  /** The years of the timestamps of a datetime column, NaT skipped. */
  function Years(cells: Cells): seq<int> {
    if cells == [] then []
    else (if cells[0].Some? && cells[0].value.Stamp? then [cells[0].value.year] else []) + Years(cells[1..])
  }

  function MinOf(s: seq<int>): (m: int)
    requires s != []
    ensures m in s && forall x :: x in s ==> m <= x
  {
    if |s| == 1 then s[0]
    else
      var rest := MinOf(s[1..]);
      assert forall x :: x in s ==> x == s[0] || x in s[1..];
      if s[0] <= rest then s[0] else rest
  }

  function MaxOf(s: seq<int>): (m: int)
    requires s != []
    ensures m in s && forall x :: x in s ==> x <= m
  {
    if |s| == 1 then s[0]
    else
      var rest := MaxOf(s[1..]);
      assert forall x :: x in s ==> x == s[0] || x in s[1..];
      if s[0] >= rest then s[0] else rest
  }

  /** `if df[c].min().year != df[c].max().year` on a converted column. */
  function SpanInsight(d: Column): (r: seq<Insight>)
    ensures |r| <= 1
    ensures forall k :: 0 <= k < |r| ==>
      r[k].Span? && r[k].column == d.name && (r[k].years.Some? ==> r[k].years.value.0 < r[k].years.value.1)
    ensures r == [] <==> Years(d.cells) != [] && MinOf(Years(d.cells)) == MaxOf(Years(d.cells))
  {
    var ys := Years(d.cells);
    if ys == [] then [Span(d.name, None)]
    else if MinOf(ys) != MaxOf(ys) then [Span(d.name, Some((MinOf(ys), MaxOf(ys))))]
    else []
  }

  /** One column of the date loop: its value afterwards and its insights; a failed conversion is swallowed. */
  function DateStep(c: Column, parseCell: Value -> Option<(int, int)>): (Column, seq<Insight>) {
    if !IsDateNamed(c.name) then (c, [])
    else
      match ToDatetime(c, parseCell)
      case None => (c, [])
      case Some(d) => (d, SpanInsight(d))
  }

  function DateColumns(cols: seq<Column>, parseCell: Value -> Option<(int, int)>): (r: seq<Column>)
    ensures |r| == |cols|
  {
    seq(|cols|, k requires 0 <= k < |cols| => DateStep(cols[k], parseCell).0)
  }

  function DateInsights(cols: seq<Column>, parseCell: Value -> Option<(int, int)>): seq<Insight> {
    if cols == [] then [] else DateStep(cols[0], parseCell).1 + DateInsights(cols[1..], parseCell)
  }

  // ---- stage 5: correlations

  function PairInsights(a: Column, rest: seq<Column>, stats: Numerics): seq<Insight> {
    if rest == [] then []
    else
      PairFact(a, rest[0], stats) + PairInsights(a, rest[1..], stats)
  }

  /** The report on one pair, when its correlation is strong. */
  function PairFact(a: Column, b: Column, stats: Numerics): seq<Insight> {
    if Strong(a, b, stats) then [PairReport(a, b, stats)] else []
  }

  function AllPairs(nums: seq<Column>, stats: Numerics): seq<Insight> {
    if nums == [] then [] else PairInsights(nums[0], nums[1..], stats) + AllPairs(nums[1..], stats)
  }

  function CorrelationInsights(nums: seq<Column>, stats: Numerics): seq<Insight> {
    if |nums| >= 2 then AllPairs(nums, stats) else []
  }

  function Pick(cols: seq<Column>, pos: seq<nat>): seq<Column>
    requires forall k :: 0 <= k < |pos| ==> pos[k] < |cols|
  {
    seq(|pos|, k requires 0 <= k < |pos| => cols[pos[k]])
  }

  // ---- the whole function

  /** `get_automatic_insights(df)`: the insights, or the exception it raises. */
  function AutomaticInsights(t: Table, stats: Numerics, parseCell: Value -> Option<(int, int)>): (r: Result<seq<Insight>, Failure>)
    ensures r.Err? ==> r.error == IndexError
  {
    var pos := NumberPositions(t.cols);
    CategoryInsightsRaise(CategoricalOf(t.cols));
    match CategoryInsights(CategoricalOf(t.cols))
    case Err(e) => Err(e)
    case Ok(cat) =>
      var converted := DateColumns(t.cols, parseCell);
      Ok(MissingInsights(t)
        + NumericInsights(Pick(t.cols, pos), stats)
        + cat
        + DateInsights(t.cols, parseCell)
        + CorrelationInsights(Pick(converted, pos), stats))
  }

  // ---- properties

  lemma {:induction false} NumericStage(cols: seq<Column>, stats: Numerics)
    ensures AllOfStage(NumericInsights(cols, stats), 1)
  {
    if cols != [] {
      NumericStage(cols[1..], stats);
    }
  }

  lemma {:induction false} CategoryStage(cats: seq<Column>)
    ensures CategoryInsights(cats).Ok? ==> AllOfStage(CategoryInsights(cats).value, 2)
  {
    if cats != [] {
      CategoryInsightStage(cats[0]);
      CategoryStage(cats[1..]);
    }
  }

  lemma {:induction false} DateStage(cols: seq<Column>, parseCell: Value -> Option<(int, int)>)
    ensures AllOfStage(DateInsights(cols, parseCell), 3)
  {
    if cols != [] {
      DateStage(cols[1..], parseCell);
    }
  }

  lemma {:induction false} PairStage(a: Column, rest: seq<Column>, stats: Numerics)
    ensures AllOfStage(PairInsights(a, rest, stats), 4)
  {
    if rest != [] {
      PairStage(a, rest[1..], stats);
    }
  }

  lemma {:induction false} CorrelationStage(nums: seq<Column>, stats: Numerics)
    ensures AllOfStage(AllPairs(nums, stats), 4)
  {
    if nums != [] {
      PairStage(nums[0], nums[1..], stats);
      CorrelationStage(nums[1..], stats);
    }
  }

  /** The insights come in stage order: missing, numeric, categorical, date span, correlation. */
  lemma InsightsInStageOrder(t: Table, stats: Numerics, parseCell: Value -> Option<(int, int)>)
    requires AutomaticInsights(t, stats, parseCell).Ok?
    ensures var s := AutomaticInsights(t, stats, parseCell).value;
      forall i, j :: 0 <= i < j < |s| ==> Stage(s[i]) <= Stage(s[j])
  {
    var pos := NumberPositions(t.cols);
    var nums, converted := Pick(t.cols, pos), Pick(DateColumns(t.cols, parseCell), pos);
    var a := MissingInsights(t);
    var b := NumericInsights(nums, stats);
    var c := CategoryInsights(CategoricalOf(t.cols)).value;
    var d := DateInsights(t.cols, parseCell);
    var e := CorrelationInsights(converted, stats);
    assert AutomaticInsights(t, stats, parseCell).value == a + b + c + d + e;
    assert AllOfStage(a, 0);
    NumericStage(nums, stats);
    CategoryStage(CategoricalOf(t.cols));
    DateStage(t.cols, parseCell);
    CorrelationStage(converted, stats);
    StagesInOrder(a, b, c, d, e);
  }

  /** Five runs of stages 0 to 4, one after the other, are in stage order. */
  lemma StagesInOrder(a: seq<Insight>, b: seq<Insight>, c: seq<Insight>, d: seq<Insight>, e: seq<Insight>)
    requires AllOfStage(a, 0) && AllOfStage(b, 1) && AllOfStage(c, 2) && AllOfStage(d, 3) && AllOfStage(e, 4)
    ensures var s := a + b + c + d + e;
      forall i, j :: 0 <= i < j < |s| ==> Stage(s[i]) <= Stage(s[j])
  {
    var s := a + b + c + d + e;
    forall i | 0 <= i < |s|
      ensures Stage(s[i]) == if i < |a| then 0 else if i < |a| + |b| then 1 else if i < |a| + |b| + |c| then 2
        else if i < |a| + |b| + |c| + |d| then 3 else 4
    {
      if i < |a| {
        assert s[i] == a[i];
      } else if i < |a| + |b| {
        assert s[i] == b[i - |a|];
      } else if i < |a| + |b| + |c| {
        assert s[i] == c[i - |a| - |b|];
      } else if i < |a| + |b| + |c| + |d| {
        assert s[i] == d[i - |a| - |b| - |c|];
      } else {
        assert s[i] == e[i - |a| - |b| - |c| - |d|];
      }
    }
  }

  /** The missing-share insight appears exactly when the table has cells and some are missing. */
  lemma MissingInsightIff(t: Table)
    requires WellFormed(t)
    ensures |MissingInsights(t)| <= 1
    ensures MissingInsights(t) != [] <==>
      t.rows > 0 && |t.cols| > 0 && exists i :: 0 <= i < |t.cols| && None in t.cols[i].cells
  {
    MissingPctBounds(t);
  }

  /**
    A numeric column is called skewed exactly when |skewness| > 1, to the
    right exactly when the skewness is positive; it gets an outlier insight
    exactly when some value lies strictly outside the IQR fences.
   */
  lemma NumericInsightSpec(c: Column, stats: Numerics)
    ensures var s := NumericInsight(c, stats);
      && ((exists k :: 0 <= k < |s| && s[k].Skewed?) <==> stats.skew(c.cells).Some? && Abs1(stats.skew(c.cells).value, 1.0))
      && (forall k :: 0 <= k < |s| && s[k].Skewed? ==> s[k].right == (s[k].skewness > 0.0) && s[k].skewness == stats.skew(c.cells).value)
      && ((exists k :: 0 <= k < |s| && s[k].Outliers?) <==> OutlierCountOf(c, stats) > 0)
      && (forall k :: 0 <= k < |s| && s[k].Outliers? ==> s[k].count == OutlierCountOf(c, stats) && 0.0 < s[k].percent <= 100.0)
  {
    var n := OutlierCountOf(c, stats);
    var s := NumericInsight(c, stats);
    if stats.skew(c.cells).Some? && Abs1(stats.skew(c.cells).value, 1.0) {
      assert s[0].Skewed?;
    }
    if n > 0 {
      ShareAtMost100(n, |c.cells|);
      assert s[|s| - 1].Outliers?;
    }
  }

  lemma ShareAtMost100(n: nat, total: nat)
    requires 0 < n <= total
    ensures 0.0 < n as real / total as real * 100.0 <= 100.0
  {
    var q := n as real / total as real;
    assert q * total as real == n as real;
    assert q <= 1.0;
  }

  /** A categorical column raises exactly when it has no present value. */
  lemma CategoryRaisesIff(c: Column)
    ensures CategoryInsight(c).Err? <==> AllMissing(c.cells)
    ensures CategoryInsight(c).Err? ==> CategoryInsight(c).error == IndexError
  {
    ValueCountsSpec(c.cells);
    if ValueCounts(c.cells) != [] {
      var v := ValueCounts(c.cells)[0].0;
      assert Some(v) in c.cells;
    }
  }

  /** A categorical column that does not raise gets its cardinality insights, then its imbalance insights. */
  lemma CategoryParts(c: Column)
    requires CategoryInsight(c).Ok?
    ensures ValueCounts(c.cells) != [] && c.cells != [] && Present(c.cells) > 0
    ensures CategoryInsight(c).value == Cardinality(c) + Imbalance(c, ValueCounts(c.cells)[0])
  {
    var vc := ValueCounts(c.cells);
    ValueCountsSpec(c.cells);
    assert vc[0] in vc;
    CountsWithinLength(c.cells, vc[0].0);
  }

  lemma CategoryInsightStage(c: Column)
    ensures CategoryInsight(c).Ok? ==> AllOfStage(CategoryInsight(c).value, 2)
  {
    if CategoryInsight(c).Ok? {
      CategoryParts(c);
    }
  }

  /**
    A categorical column that does not raise is called constant exactly
    when it has one distinct value (quoting its first cell), of low
    cardinality exactly when it has two to four, and never both.
   */
  lemma CardinalitySpec(c: Column)
    requires CategoryInsight(c).Ok?
    ensures var s := CategoryInsight(c).value; var u := NUnique(c.cells);
      && ((exists k :: 0 <= k < |s| && s[k].Constant?) <==> u == 1)
      && (forall k :: 0 <= k < |s| && s[k].Constant? ==> s[k].firstCell == c.cells[0])
      && ((exists k :: 0 <= k < |s| && s[k].LowCardinality?) <==> 2 <= u < 5)
      && (forall k :: 0 <= k < |s| && s[k].LowCardinality? ==> s[k].unique == u)
      && !((exists k :: 0 <= k < |s| && s[k].Constant?) && (exists l :: 0 <= l < |s| && s[l].LowCardinality?))
  {
    CategoryParts(c);
    ValueCountsSpec(c.cells);
    CardinalityThenOthers(c, Imbalance(c, ValueCounts(c.cells)[0]));
  }

  /** The cardinality insights followed by insights of another kind. */
  lemma CardinalityThenOthers(c: Column, imb: seq<Insight>)
    requires c.cells != [] && NUnique(c.cells) >= 1
    requires forall k :: 0 <= k < |imb| ==> imb[k].Imbalanced?
    ensures var s := Cardinality(c) + imb; var u := NUnique(c.cells);
      && ((exists k :: 0 <= k < |s| && s[k].Constant?) <==> u == 1)
      && (forall k :: 0 <= k < |s| && s[k].Constant? ==> s[k].firstCell == c.cells[0])
      && ((exists k :: 0 <= k < |s| && s[k].LowCardinality?) <==> 2 <= u < 5)
      && (forall k :: 0 <= k < |s| && s[k].LowCardinality? ==> s[k].unique == u)
      && !((exists k :: 0 <= k < |s| && s[k].Constant?) && (exists l :: 0 <= l < |s| && s[l].LowCardinality?))
  {
    var card := Cardinality(c);
    var s := card + imb;
    assert forall k :: |card| <= k < |s| ==> s[k] == imb[k - |card|] && s[k].Imbalanced?;
    if card != [] {
      assert s[0] == card[0];
    }
  }

  /**
    A categorical column that does not raise is called imbalanced exactly
    when its most frequent value covers more than 80% of the present cells;
    the value it names is a most frequent one.
   */
  lemma ImbalanceSpec(c: Column)
    requires CategoryInsight(c).Ok?
    ensures var s := CategoryInsight(c).value;
      && ((exists k :: 0 <= k < |s| && s[k].Imbalanced?) <==> 5 * ValueCounts(c.cells)[0].1 > 4 * Present(c.cells))
      && (forall k :: 0 <= k < |s| && s[k].Imbalanced? ==>
            s[k].share > 0.8 && Some(s[k].top) in c.cells && forall v :: Count(c.cells, v) <= Count(c.cells, s[k].top))
  {
    CategoryParts(c);
    var top := ValueCounts(c.cells)[0];
    ImbalanceOfTop(c);
    var s := CategoryInsight(c).value;
    var card := Cardinality(c);
    var imb := Imbalance(c, top);
    assert forall k :: 0 <= k < |card| ==> s[k] == card[k] && !s[k].Imbalanced?;
    assert forall k :: |card| <= k < |s| ==> s[k] == imb[k - |card|];
    if imb != [] {
      assert s[|card|] == imb[0];
    }
  }

  /** The categorical stage fails exactly when one of its columns does, always with IndexError. */
  lemma {:induction false} CategoryInsightsRaise(cats: seq<Column>)
    ensures CategoryInsights(cats).Err? <==> exists k :: 0 <= k < |cats| && CategoryInsight(cats[k]).Err?
    ensures CategoryInsights(cats).Err? ==> CategoryInsights(cats).error == IndexError
  {
    forall c ensures CategoryInsight(c).Err? ==> CategoryInsight(c).error == IndexError {
      CategoryRaisesIff(c);
    }
    GatherRaises(cats, CategoryInsight, IndexError);
  }

  /** Gathering fails exactly when the check fails on some column, with the one error the check raises. */
  lemma {:induction false} GatherRaises(cats: seq<Column>, check: Column -> Result<seq<Insight>, Failure>, e: Failure)
    requires forall c :: check(c).Err? ==> check(c).error == e
    ensures Gather(cats, check).Err? <==> exists k :: 0 <= k < |cats| && check(cats[k]).Err?
    ensures Gather(cats, check).Err? ==> Gather(cats, check).error == e
  {
    if cats != [] {
      GatherRaises(cats[1..], check, e);
      forall k | 1 <= k < |cats| ensures cats[k] == cats[1..][k - 1] { }
    }
  }

  lemma {:induction false} CategoricalOfMember(cols: seq<Column>)
    ensures forall c :: c in CategoricalOf(cols) <==> c in cols && IsCategorical(c.kind)
  {
    if cols != [] {
      CategoricalOfMember(cols[1..]);
      assert forall c :: c in cols <==> c == cols[0] || c in cols[1..];
    }
  }

  /**
    `get_automatic_insights` raises, with IndexError, exactly when some
    object or category column has no present value.
   */
  lemma AutomaticInsightsRaiseIff(t: Table, stats: Numerics, parseCell: Value -> Option<(int, int)>)
    ensures AutomaticInsights(t, stats, parseCell).Err? <==>
      exists i :: 0 <= i < |t.cols| && IsCategorical(t.cols[i].kind) && AllMissing(t.cols[i].cells)
    ensures AutomaticInsights(t, stats, parseCell).Err? ==> AutomaticInsights(t, stats, parseCell).error == IndexError
  {
    CategoricalRaiseIff(t.cols);
  }

  /** The categorical stage over the object and category columns of a table. */
  lemma CategoricalRaiseIff(cols: seq<Column>)
    ensures CategoryInsights(CategoricalOf(cols)).Err? <==>
      exists i :: 0 <= i < |cols| && IsCategorical(cols[i].kind) && AllMissing(cols[i].cells)
    ensures CategoryInsights(CategoricalOf(cols)).Err? ==> CategoryInsights(CategoricalOf(cols)).error == IndexError
  {
    var cats := CategoricalOf(cols);
    CategoryInsightsRaise(cats);
    CategoricalOfMember(cols);
    forall c | c in cats ensures CategoryInsight(c).Err? <==> AllMissing(c.cells) {
      CategoryRaisesIff(c);
    }
    if exists i :: 0 <= i < |cols| && IsCategorical(cols[i].kind) && AllMissing(cols[i].cells) {
      var i :| 0 <= i < |cols| && IsCategorical(cols[i].kind) && AllMissing(cols[i].cells);
      assert cols[i] in cats;
    }
  }

  predicate AllMissing(cells: Cells) {
    forall r :: 0 <= r < |cells| ==> cells[r].None?
  }

  /** The imbalance check on the top of `value_counts` alone. */
  lemma ImbalanceOfTop(c: Column)
    requires ValueCounts(c.cells) != [] && Present(c.cells) > 0
    ensures var imb := Imbalance(c, ValueCounts(c.cells)[0]);
      && (imb != [] <==> 5 * ValueCounts(c.cells)[0].1 > 4 * Present(c.cells))
      && (forall k :: 0 <= k < |imb| ==>
            imb[k].Imbalanced? && imb[k].share > 0.8 && Some(imb[k].top) in c.cells
            && forall v :: Count(c.cells, v) <= Count(c.cells, imb[k].top))
  {
    var vc := ValueCounts(c.cells);
    ValueCountsSpec(c.cells);
    assert vc[0] in vc;
    forall v ensures Count(c.cells, v) <= vc[0].1 {
      TopCountIsMaximal(c.cells, v);
    }
    TopCountIsMaximal(c.cells, vc[0].0);
    CountsWithinLength(c.cells, vc[0].0);
    ShareThreshold(vc[0].1, Present(c.cells));
    assert Some(vc[0].0) in c.cells;
  }

  lemma ShareThreshold(top: nat, present: nat)
    requires 0 < top <= present
    ensures top as real / present as real > 0.8 <==> 5 * top > 4 * present
  {
    var t, p := top as real, present as real;
    RealShare(t, p);
    assert (5 * top) as real == 5.0 * t && (4 * present) as real == 4.0 * p;
  }

  /** A share above 0.8 is a part more than four fifths of the whole. */
  lemma RealShare(t: real, p: real)
    requires p > 0.0
    ensures t / p > 0.8 <==> 5.0 * t > 4.0 * p
  {
    var q := t / p;
    ScaledDifference(q, p, t);
    if q > 0.8 {
      PositiveProduct(q - 0.8, p);
    } else {
      PositiveProduct(0.8 - q, p);
    }
  }

  /** With `t == q * p`, the distance of `t` from `0.8 * p` is `p` times that of `q` from 0.8. */
  lemma ScaledDifference(q: real, p: real, t: real)
    requires p > 0.0 && q == t / p
    ensures t - 0.8 * p == (q - 0.8) * p && 0.8 * p - t == (0.8 - q) * p
  {
    assert q * p == t;
  }

  lemma PositiveProduct(d: real, p: real)
    requires d >= 0.0 && p > 0.0
    ensures d * p >= 0.0 && (d > 0.0 ==> d * p > 0.0)
  {
  }

  /** A span insight names a date-named column whose conversion succeeded, and its first year is the earliest and strictly before the last. */
  lemma {:induction false} DateInsightsSpec(cols: seq<Column>, parseCell: Value -> Option<(int, int)>)
    ensures forall k :: 0 <= k < |DateInsights(cols, parseCell)| ==>
      var ins := DateInsights(cols, parseCell)[k];
      && ins.Span?
      && IsDateNamed(ins.column)
      && (ins.years.Some? ==> ins.years.value.0 < ins.years.value.1)
  {
    if cols != [] {
      DateInsightsSpec(cols[1..], parseCell);
      var step := DateStep(cols[0], parseCell).1;
      forall k | 0 <= k < |step|
        ensures step[k].Span? && IsDateNamed(step[k].column) && (step[k].years.Some? ==> step[k].years.value.0 < step[k].years.value.1)
      {
        var d := ToDatetime(cols[0], parseCell).value;
        var ys := Years(d.cells);
        if ys != [] {
          assert MinOf(ys) <= MaxOf(ys);
        }
      }
      var rest := DateInsights(cols[1..], parseCell);
      assert DateInsights(cols, parseCell) == step + rest;
      assert forall k :: |step| <= k < |step| + |rest| ==> (step + rest)[k] == rest[k - |step|];
    }
  }

  /**
    Every date-named column whose conversion succeeds gets its span: the
    unknown span when it holds no timestamp, and its earliest and latest
    years when they differ.
   */
  lemma {:induction false} DateInsightsComplete(cols: seq<Column>, parseCell: Value -> Option<(int, int)>)
    ensures forall k :: 0 <= k < |cols| && IsDateNamed(cols[k].name) && ToDatetime(cols[k], parseCell).Some? ==>
      var ys := Years(ToDatetime(cols[k], parseCell).value.cells);
      && (ys == [] ==> Span(cols[k].name, None) in DateInsights(cols, parseCell))
      && (ys != [] && MinOf(ys) != MaxOf(ys) ==> Span(cols[k].name, Some((MinOf(ys), MaxOf(ys)))) in DateInsights(cols, parseCell))
  {
    if cols != [] {
      DateInsightsComplete(cols[1..], parseCell);
      var step, rest := DateStep(cols[0], parseCell).1, DateInsights(cols[1..], parseCell);
      assert DateInsights(cols, parseCell) == step + rest;
      forall k | 1 <= k < |cols| ensures cols[k] == cols[1..][k - 1] {
      }
      match ToDatetime(cols[0], parseCell)
      case None =>
      case Some(d) =>
        assert d.name == cols[0].name;
    }
  }

  /** `ins` reports the correlation of `a` with `b`, which exceeds 0.7 in absolute value. */
  predicate ReportsPair(ins: Insight, a: Column, b: Column, stats: Numerics) {
    && ins.Correlated?
    && ins.first == a.name && ins.second == b.name
    && stats.corr(a.cells, b.cells) == Some(ins.r)
    && Abs1(ins.r, 0.7)
    && ins.positive == (ins.r > 0.0)
  }

  /** The insight for a strongly correlated pair. */
  function PairReport(a: Column, b: Column, stats: Numerics): Insight
    requires stats.corr(a.cells, b.cells).Some?
  {
    var r := stats.corr(a.cells, b.cells).value;
    Correlated(a.name, b.name, r > 0.0, r)
  }

  predicate Strong(a: Column, b: Column, stats: Numerics) {
    stats.corr(a.cells, b.cells).Some? && Abs1(stats.corr(a.cells, b.cells).value, 0.7)
  }

  /** The insights for one column against the later ones are exactly its strong pairs. */
  lemma {:induction false} PairInsightsSpec(a: Column, rest: seq<Column>, stats: Numerics)
    ensures forall k :: 0 <= k < |PairInsights(a, rest, stats)| ==>
      exists j :: 0 <= j < |rest| && ReportsPair(PairInsights(a, rest, stats)[k], a, rest[j], stats)
    ensures forall j :: 0 <= j < |rest| && Strong(a, rest[j], stats) ==>
      PairReport(a, rest[j], stats) in PairInsights(a, rest, stats)
  {
    if rest != [] {
      PairInsightsSpec(a, rest[1..], stats);
      var head: seq<Insight> := if Strong(a, rest[0], stats) then [PairReport(a, rest[0], stats)] else [];
      var tail := PairInsights(a, rest[1..], stats);
      assert PairInsights(a, rest, stats) == head + tail;
      forall k | 0 <= k < |head + tail|
        ensures exists j :: 0 <= j < |rest| && ReportsPair((head + tail)[k], a, rest[j], stats)
      {
        if k < |head| {
          assert ReportsPair((head + tail)[k], a, rest[0], stats);
        } else {
          assert (head + tail)[k] == tail[k - |head|];
          var j :| 0 <= j < |rest[1..]| && ReportsPair(tail[k - |head|], a, rest[1..][j], stats);
          assert rest[1..][j] == rest[j + 1];
          assert ReportsPair((head + tail)[k], a, rest[j + 1], stats);
        }
      }
      forall j | 0 <= j < |rest| && Strong(a, rest[j], stats)
        ensures PairReport(a, rest[j], stats) in head + tail
      {
        if j > 0 {
          assert rest[j] == rest[1..][j - 1];
        }
      }
    } else {
      assert PairInsights(a, rest, stats) == [];
    }
  }

  /**
    The correlation insights are exactly the strong pairs i < j of numeric
    columns, the earlier column named first.
   */
  lemma {:induction false} AllPairsSpec(nums: seq<Column>, stats: Numerics)
    ensures forall k :: 0 <= k < |AllPairs(nums, stats)| ==>
      exists i, j :: 0 <= i < j < |nums| && ReportsPair(AllPairs(nums, stats)[k], nums[i], nums[j], stats)
    ensures forall i, j :: 0 <= i < j < |nums| && Strong(nums[i], nums[j], stats) ==>
      PairReport(nums[i], nums[j], stats) in AllPairs(nums, stats)
  {
    if nums != [] {
      var head := PairInsights(nums[0], nums[1..], stats);
      var tail := AllPairs(nums[1..], stats);
      PairInsightsSpec(nums[0], nums[1..], stats);
      AllPairsSpec(nums[1..], stats);
      assert AllPairs(nums, stats) == head + tail;
      forall k | 0 <= k < |head + tail|
        ensures exists i, j :: 0 <= i < j < |nums| && ReportsPair((head + tail)[k], nums[i], nums[j], stats)
      {
        if k < |head| {
          assert (head + tail)[k] == head[k];
          var j :| 0 <= j < |nums[1..]| && ReportsPair(head[k], nums[0], nums[1..][j], stats);
          assert nums[1..][j] == nums[j + 1];
          assert ReportsPair((head + tail)[k], nums[0], nums[j + 1], stats);
        } else {
          assert (head + tail)[k] == tail[k - |head|];
          var i, j :| 0 <= i < j < |nums[1..]| && ReportsPair(tail[k - |head|], nums[1..][i], nums[1..][j], stats);
          assert nums[1..][i] == nums[i + 1] && nums[1..][j] == nums[j + 1];
          assert ReportsPair((head + tail)[k], nums[i + 1], nums[j + 1], stats);
        }
      }
      forall i, j | 0 <= i < j < |nums| && Strong(nums[i], nums[j], stats)
        ensures PairReport(nums[i], nums[j], stats) in head + tail
      {
        if i == 0 {
          assert nums[j] == nums[1..][j - 1];
        } else {
          assert nums[i] == nums[1..][i - 1] && nums[j] == nums[1..][j - 1];
        }
      }
    } else {
      assert AllPairs(nums, stats) == [];
    }
  }

  // ---- the imperative rendering

  method NumericLoop(cols: seq<Column>, stats: Numerics) returns (out: seq<Insight>)
    ensures out == NumericInsights(cols, stats)
  {
    ghost var found := NumericFound(cols, stats);
    NumericInsightsConcat(cols, stats);
    out := [];
    var k := 0;
    while k < |cols|
      invariant 0 <= k <= |cols|
      invariant out + Concat(found[k..]) == Concat(found)
    {
      ConcatStep(out, found, k);
      out := out + NumericInsight(cols[k], stats);
      k := k + 1;
    }
    assert found[k..] == [];
  }

  /** The insights each numeric column yields, column by column. */
  function NumericFound(cols: seq<Column>, stats: Numerics): (r: seq<seq<Insight>>)
    ensures |r| == |cols|
  {
    seq(|cols|, k requires 0 <= k < |cols| => NumericInsight(cols[k], stats))
  }

  lemma {:induction false} NumericInsightsConcat(cols: seq<Column>, stats: Numerics)
    ensures NumericInsights(cols, stats) == Concat(NumericFound(cols, stats))
  {
    if cols != [] {
      NumericInsightsConcat(cols[1..], stats);
      assert NumericFound(cols, stats)[1..] == NumericFound(cols[1..], stats);
    }
  }

  /** The insights gathered so far in front of those still to come, or the failure that ends the loop. */
  function Prepend(acc: seq<Insight>, r: Result<seq<Insight>, Failure>): Result<seq<Insight>, Failure> {
    if r.Err? then r else Ok(acc + r.value)
  }

  /** One column of a gathering loop: its failure ends the loop, its insights join those gathered. */
  lemma {:induction false} GatherStep(acc: seq<Insight>, cats: seq<Column>, k: nat, check: Column -> Result<seq<Insight>, Failure>)
    requires k < |cats|
    ensures check(cats[k]).Err? ==> Prepend(acc, Gather(cats[k..], check)) == check(cats[k])
    ensures check(cats[k]).Ok? ==>
      Prepend(acc, Gather(cats[k..], check)) == Prepend(acc + check(cats[k]).value, Gather(cats[k + 1..], check))
  {
    assert cats[k..][0] == cats[k] && cats[k..][1..] == cats[k + 1..];
    var head, rest := check(cats[k]), Gather(cats[k + 1..], check);
    if head.Ok? && rest.Ok? {
      assert acc + head.value + rest.value == acc + (head.value + rest.value);
    }
  }

  /** The categorical loop: each column's checks in turn, stopping at the first IndexError. */
  method CategoryLoop(cats: seq<Column>) returns (out: Result<seq<Insight>, Failure>)
    ensures out == CategoryInsights(cats)
  {
    out := GatherLoop(cats, CategoryInsight);
  }

  method GatherLoop(cats: seq<Column>, check: Column -> Result<seq<Insight>, Failure>) returns (out: Result<seq<Insight>, Failure>)
    ensures out == Gather(cats, check)
  {
    var acc: seq<Insight> := [];
    var k := 0;
    assert Gather(cats, check).Ok? ==> [] + Gather(cats, check).value == Gather(cats, check).value;
    while k < |cats|
      invariant 0 <= k <= |cats|
      invariant Gather(cats, check) == Prepend(acc, Gather(cats[k..], check))
    {
      var step := check(cats[k]);
      GatherStep(acc, cats, k, check);
      if step.Err? {
        return step;
      }
      acc := acc + step.value;
      k := k + 1;
    }
    assert cats[k..] == [];
    assert acc + [] == acc;
    out := Ok(acc);
  }

  /** The date loop: converts each date-named column in place, collecting the span insights. */
  method DateLoop(df: Frame, parseCell: Value -> Option<(int, int)>) returns (out: seq<Insight>)
    requires df.Valid()
    modifies df
    ensures df.Valid() && df.rows == old(df.rows)
    ensures df.cols == DateColumns(old(df.cols), parseCell)
    ensures out == DateInsights(old(df.cols), parseCell)
  {
    ghost var cols := df.cols;
    ghost var target := DateColumns(cols, parseCell);
    ghost var found := DateFound(cols, parseCell);
    DateInsightsConcat(cols, parseCell);
    out := [];
    var k := 0;
    while k < |df.cols|
      invariant 0 <= k <= |df.cols| == |cols|
      invariant df.Valid() && df.rows == old(df.rows)
      invariant forall j :: 0 <= j < k ==> df.cols[j] == target[j]
      invariant forall j :: k <= j < |cols| ==> df.cols[j] == cols[j]
      invariant out + Concat(found[k..]) == Concat(found)
    {
      ConcatStep(out, found, k);
      var step := DateColumnStep(df, k, parseCell, cols);
      out := out + step;
      k := k + 1;
    }
    assert found[k..] == [];
  }

  /** The insights each column of the date loop yields, column by column. */
  function DateFound(cols: seq<Column>, parseCell: Value -> Option<(int, int)>): (r: seq<seq<Insight>>)
    ensures |r| == |cols|
  {
    seq(|cols|, k requires 0 <= k < |cols| => DateStep(cols[k], parseCell).1)
  }

  lemma {:induction false} DateInsightsConcat(cols: seq<Column>, parseCell: Value -> Option<(int, int)>)
    ensures DateInsights(cols, parseCell) == Concat(DateFound(cols, parseCell))
  {
    if cols != [] {
      DateInsightsConcat(cols[1..], parseCell);
      assert DateFound(cols, parseCell)[1..] == DateFound(cols[1..], parseCell);
    }
  }

  /** One pass of the date loop over `cols`: column `k` converted in place when its name looks like a date and it parses. */
  method DateColumnStep(df: Frame, k: nat, parseCell: Value -> Option<(int, int)>, ghost cols: seq<Column>) returns (found: seq<Insight>)
    requires df.Valid() && k < |df.cols| == |cols| && df.cols[k] == cols[k]
    modifies df
    ensures df.Valid() && df.rows == old(df.rows)
    ensures df.cols == old(df.cols)[k := DateColumns(cols, parseCell)[k]]
    ensures found == DateFound(cols, parseCell)[k]
  {
    var c := df.cols[k];
    if IsDateNamed(c.name) {
      var converted := ToDatetime(c, parseCell);
      if converted.Some? {
        df.SetColumn(k, converted.value);
      }
    }
    found := DateStep(c, parseCell).1;
  }

  /** The inner loop: column `a` against each later numeric column. */
  method PairLoop(a: Column, rest: seq<Column>, stats: Numerics) returns (out: seq<Insight>)
    ensures out == PairInsights(a, rest, stats)
  {
    ghost var found := PairFound(a, rest, stats);
    PairInsightsConcat(a, rest, stats);
    out := [];
    var j := 0;
    while j < |rest|
      invariant 0 <= j <= |rest|
      invariant out + Concat(found[j..]) == Concat(found)
    {
      ConcatStep(out, found, j);
      var step := PairFact(a, rest[j], stats);
      assert step == found[j];
      out := out + step;
      j := j + 1;
    }
    assert found[j..] == [];
  }

  /** The report on `a` and each later column, one by one. */
  function PairFound(a: Column, rest: seq<Column>, stats: Numerics): (r: seq<seq<Insight>>)
    ensures |r| == |rest|
  {
    seq(|rest|, k requires 0 <= k < |rest| => PairFact(a, rest[k], stats))
  }

  lemma {:induction false} PairInsightsConcat(a: Column, rest: seq<Column>, stats: Numerics)
    ensures PairInsights(a, rest, stats) == Concat(PairFound(a, rest, stats))
  {
    if rest != [] {
      PairInsightsConcat(a, rest[1..], stats);
      assert PairFound(a, rest, stats)[1..] == PairFound(a, rest[1..], stats);
    }
  }


  /** The outer loop over the numeric columns, run only when there are at least two. */
  method CorrelationLoop(nums: seq<Column>, stats: Numerics) returns (out: seq<Insight>)
    ensures out == CorrelationInsights(nums, stats)
  {
    out := [];
    if |nums| < 2 {
      return;
    }
    ghost var found := AllPairsFound(nums, stats);
    AllPairsConcat(nums, stats);
    var i := 0;
    while i < |nums|
      invariant 0 <= i <= |nums|
      invariant out + Concat(found[i..]) == Concat(found)
    {
      ConcatStep(out, found, i);
      var pairs := PairLoop(nums[i], nums[i + 1..], stats);
      out := out + pairs;
      i := i + 1;
    }
    assert found[i..] == [];
  }

  /** The pairs each column opens, column by column. */
  function AllPairsFound(nums: seq<Column>, stats: Numerics): (r: seq<seq<Insight>>)
    ensures |r| == |nums|
  {
    seq(|nums|, i requires 0 <= i < |nums| => PairInsights(nums[i], nums[i + 1..], stats))
  }

  lemma {:induction false} AllPairsConcat(nums: seq<Column>, stats: Numerics)
    ensures AllPairs(nums, stats) == Concat(AllPairsFound(nums, stats))
  {
    if nums != [] {
      AllPairsConcat(nums[1..], stats);
      forall i | 0 <= i < |nums| - 1
        ensures AllPairsFound(nums, stats)[1..][i] == AllPairsFound(nums[1..], stats)[i]
      {
        assert nums[1..][i + 1..] == nums[i + 2..];
      }
      assert AllPairsFound(nums, stats)[1..] == AllPairsFound(nums[1..], stats);
    }
  }

  method GetAutomaticInsights(df: Frame, stats: Numerics, parseCell: Value -> Option<(int, int)>)
    returns (r: Result<seq<Insight>, Failure>)
    requires df.Valid()
    modifies df
    ensures df.Valid() && df.rows == old(df.rows)
    ensures r == AutomaticInsights(old(df.Snapshot()), stats, parseCell)
    ensures df.cols == if r.Ok? then DateColumns(old(df.cols), parseCell) else old(df.cols)
  {
    var insights := MissingInsights(df.Snapshot());
    var pos := NumberPositions(df.cols);
    var numeric := NumericLoop(Pick(df.cols, pos), stats);
    insights := insights + numeric;
    var categorical := CategoryLoop(CategoricalOf(df.cols));
    if categorical.Err? {
      return Err(categorical.error);
    }
    insights := insights + categorical.value;
    var spans := DateLoop(df, parseCell);
    insights := insights + spans;
    var correlations := CorrelationLoop(Pick(df.cols, pos), stats);
    insights := insights + correlations;
    r := Ok(insights);
  }
}
