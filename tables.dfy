/**
  The abstract data frame the whole system works on.

  A table is an ordered sequence of named columns, each with a dtype kind
  and one cell per row; a missing cell (NaN, None, NaT) is `None`.
  Statistics that pandas computes in floating point (mean, median,
  quantiles, skewness, Pearson r) are not computed here: they reach the
  model as given functions of a column's cells, in `Numerics`.
 */
module Tables {
  import opened Wrappers
  import opened Text
  import opened Ranking

  /** One cell's value. A `Stamp` is a parsed timestamp: its year and its position within the year. */
  datatype Value = Num(x: real) | Str(s: string) | Flag(b: bool) | Stamp(year: int, withinYear: int)

  type Cells = seq<Option<Value>>

  /** The dtype of a column, as pandas reports it. */
  datatype Kind = Numeric | Object | Category | Datetime | Boolean | Other

  datatype Column = Column(name: string, kind: Kind, cells: Cells)

  datatype Table = Table(rows: nat, cols: seq<Column>)

  /** The exceptions the modelled code can raise. */
  datatype Failure = IndexError | KeyError | ValueError

  /** Every column has one cell per row, and column labels are unique. */
  predicate WellFormed(t: Table) {
    && (forall i :: 0 <= i < |t.cols| ==> |t.cols[i].cells| == t.rows)
    && (forall i, j :: 0 <= i < j < |t.cols| ==> t.cols[i].name != t.cols[j].name)
  }

  /** `pd.api.types.is_numeric_dtype`: true for numbers and for booleans. */
  predicate IsNumericDtype(k: Kind) {
    k == Numeric || k == Boolean
  }

  /** `select_dtypes(include=['number'])`: numbers only, booleans excluded. */
  predicate IsNumber(k: Kind) {
    k == Numeric
  }

  /** `select_dtypes(include=['object', 'category'])`. */
  predicate IsCategorical(k: Kind) {
    k == Object || k == Category
  }

  /** `'date' in c.lower() or 'time' in c.lower()`. */
  predicate IsDateNamed(name: string) {
    Contains(Lower(name), "date") || Contains(Lower(name), "time")
  }

  /** `df.columns.tolist()`. */
  function Names(cols: seq<Column>): (r: seq<string>)
    ensures |r| == |cols|
    ensures forall i :: 0 <= i < |cols| ==> r[i] == cols[i].name
  {
    seq(|cols|, i requires 0 <= i < |cols| => cols[i].name)
  }

  /** `[c for c in cols if p(c)]`. */
  function Filter(cols: seq<Column>, p: Column -> bool): (r: seq<Column>)
    ensures |r| <= |cols|
    ensures forall c :: c in r <==> c in cols && p(c)
  {
    if cols == [] then []
    else (if p(cols[0]) then [cols[0]] else []) + Filter(cols[1..], p)
  }

  /** The position of the column called `name`, if there is one. */
  function FindColumn(cols: seq<Column>, name: string): (r: Option<nat>)
    ensures r.Some? ==> r.value < |cols| && cols[r.value].name == name
    ensures r.None? ==> forall i :: 0 <= i < |cols| ==> cols[i].name != name
  {
    if cols == [] then None
    else if cols[0].name == name then Some(0)
    else match FindColumn(cols[1..], name)
      case None => None
      case Some(i) => Some(i + 1)
  }

  /** The lookup depends on the labels alone. */
  lemma {:induction false} FindColumnByNames(a: seq<Column>, b: seq<Column>, name: string)
    requires Names(a) == Names(b)
    ensures FindColumn(a, name) == FindColumn(b, name)
  {
    if a != [] {
      assert a[0].name == Names(a)[0] == Names(b)[0] == b[0].name;
      assert Names(a[1..]) == Names(a)[1..] && Names(b[1..]) == Names(b)[1..];
      FindColumnByNames(a[1..], b[1..], name);
    }
  }

  /** `s.isna().sum()`. */
  function MissingCount(cells: Cells): nat {
    multiset(cells)[None]
  }

  /** The number of cells holding `v`. */
  function Count(cells: Cells, v: Value): nat {
    multiset(cells)[Some(v)]
  }

  /** The cells holding one value and the missing cells together are at most all the cells. */
  lemma {:induction false} CountsWithinLength(cells: Cells, v: Value)
    ensures Count(cells, v) + MissingCount(cells) <= |cells|
  {
    if cells != [] {
      CountsWithinLength(cells[1..], v);
      assert cells == [cells[0]] + cells[1..];
      assert multiset(cells) == multiset{cells[0]} + multiset(cells[1..]);
    }
  }

  /** `s.count()`: the cells that are not missing. */
  function Present(cells: Cells): nat
  {
    |cells| - MissingCount(cells)
  }

  /** The distinct values of a column, in order of first appearance (missing cells skipped). */
  function Distinct(cells: Cells): (r: seq<Value>)
    ensures forall v :: v in r <==> Some(v) in cells
    ensures forall i, j :: 0 <= i < j < |r| ==> r[i] != r[j]
  {
    if cells == [] then []
    else
      var init := cells[..|cells| - 1];
      var last := cells[|cells| - 1];
      assert cells == init + [last];
      var d := Distinct(init);
      if last.Some? && last.value !in d then d + [last.value] else d
  }

  /** `s.nunique()`. */
  function NUnique(cells: Cells): nat {
    |Distinct(cells)|
  }

  function CountRank(p: (Value, nat)): Rank {
    Score(p.1 as real)
  }

  /** `s.value_counts()`: each distinct value with its number of occurrences, most frequent first. */
  function ValueCounts(cells: Cells): seq<(Value, nat)>
  {
    var d := Distinct(cells);
    SortDesc(seq(|d|, k requires 0 <= k < |d| => (d[k], Count(cells, d[k]))), CountRank)
  }

  /** What `value_counts()` promises: exact counts, every present value once, largest count first. */
  lemma ValueCountsSpec(cells: Cells)
    ensures |ValueCounts(cells)| == NUnique(cells)
    ensures forall p :: p in ValueCounts(cells) ==> p.1 == Count(cells, p.0) && p.1 > 0
    ensures forall v :: Some(v) in cells <==> exists k :: 0 <= k < |ValueCounts(cells)| && ValueCounts(cells)[k].0 == v
    ensures forall i, j :: 0 <= i < j < |ValueCounts(cells)| ==> ValueCounts(cells)[i].1 >= ValueCounts(cells)[j].1
  {
    var d := Distinct(cells);
    var pairs := seq(|d|, k requires 0 <= k < |d| => (d[k], Count(cells, d[k])));
    var vc := ValueCounts(cells);
    assert multiset(vc) == multiset(pairs);
    CountedPairs(cells, d, pairs, vc);
    forall i, j | 0 <= i < j < |vc| ensures vc[i].1 >= vc[j].1 {
      assert AtLeast(CountRank(vc[i]), CountRank(vc[j]));
    }
  }

  /** A reordering of the distinct values paired with their counts holds exact, positive counts and every present value. */
  lemma CountedPairs(cells: Cells, d: seq<Value>, pairs: seq<(Value, nat)>, vc: seq<(Value, nat)>)
    requires d == Distinct(cells)
    requires |pairs| == |d| && forall k :: 0 <= k < |d| ==> pairs[k] == (d[k], Count(cells, d[k]))
    requires multiset(vc) == multiset(pairs)
    ensures forall p :: p in vc ==> p.1 == Count(cells, p.0) && p.1 > 0
    ensures forall v :: Some(v) in cells <==> exists k :: 0 <= k < |vc| && vc[k].0 == v
  {
    forall p | p in vc ensures p.1 == Count(cells, p.0) && p.1 > 0 {
      assert p in multiset(pairs);
      var k :| 0 <= k < |pairs| && pairs[k] == p;
      assert d[k] in d;
    }
    forall v ensures Some(v) in cells <==> exists k :: 0 <= k < |vc| && vc[k].0 == v {
      if Some(v) in cells {
        var k :| 0 <= k < |d| && d[k] == v;
        assert pairs[k] in multiset(vc);
        var m :| 0 <= m < |vc| && vc[m] == pairs[k];
      }
      if exists k :: 0 <= k < |vc| && vc[k].0 == v {
        var k :| 0 <= k < |vc| && vc[k].0 == v;
        assert vc[k] in vc;
      }
    }
  }

  /** The first entry of `value_counts()` is a most frequent value (what `mode()` looks for). */
  lemma {:induction false} TopCountIsMaximal(cells: Cells, v: Value)
    requires ValueCounts(cells) != []
    ensures Count(cells, v) <= ValueCounts(cells)[0].1
    ensures ValueCounts(cells)[0].1 == Count(cells, ValueCounts(cells)[0].0) > 0
  {
    var vc := ValueCounts(cells);
    ValueCountsSpec(cells);
    assert vc[0] in vc;
    if Some(v) in cells {
      var k :| 0 <= k < |vc| && vc[k].0 == v;
      assert vc[k] in vc;
    } else {
      assert Some(v) !in multiset(cells);
    }
  }

  /** The sort key pandas uses for a numeric cell: booleans count as 0 and 1, missing sorts last. */
  function NumKey(cell: Option<Value>): Rank {
    match cell
    case Some(Num(x)) => Score(x)
    case Some(Flag(b)) => Score(if b then 1.0 else 0.0)
    case _ => Absent
  }

  /** The sort key of row `i` of a column. */
  function RowRanker(cells: Cells): nat -> Rank {
    (i: nat) => if i < |cells| then NumKey(cells[i]) else Absent
  }

  function RowRange(n: nat): (r: seq<nat>)
    ensures |r| == n && forall i :: 0 <= i < n ==> r[i] == i
  {
    seq(n, i requires 0 <= i < n => i)
  }

  /** `df.sort_values(by=col, ascending=False).head(n)`, as the row positions it keeps. */
  function TopRows(cells: Cells, n: nat): seq<nat>
  {
    Take(SortDesc(RowRange(|cells|), RowRanker(cells)), n)
  }

  /** Two positions of a reordering of `0..n` hold different values. */
  lemma CountOnce(s: seq<nat>, n: nat, i: nat, j: nat)
    requires multiset(s) == multiset(RowRange(n))
    requires i < j < |s|
    ensures s[i] != s[j]
  {
    var range := RowRange(n);
    var x := s[i];
    assert x in multiset(range);
    assert multiset(range)[x] <= 1 by {
      assert range == range[..x] + [x] + range[x + 1..];
      assert x !in range[..x] && x !in range[x + 1..];
    }
    if s[j] == x {
      TwoOccurrences(s, i, j);
    }
  }

  lemma TwoOccurrences(s: seq<nat>, i: nat, j: nat)
    requires i < j < |s| && s[i] == s[j]
    ensures multiset(s)[s[i]] >= 2
  {
    assert s == s[..j] + [s[j]] + s[j + 1..];
    assert s[i] in s[..j];
  }

  /** A reordering of `0..n` holds every position below `n` exactly once. */
  lemma PermutationOfRange(s: seq<nat>, n: nat)
    requires multiset(s) == multiset(RowRange(n))
    ensures forall k :: 0 <= k < |s| ==> s[k] < n
    ensures forall i, j :: 0 <= i < j < |s| ==> s[i] != s[j]
    ensures forall row :: 0 <= row < n ==> row in s
  {
    var range := RowRange(n);
    forall k | 0 <= k < |s| ensures s[k] < n {
      assert s[k] in multiset(range);
    }
    forall i, j | 0 <= i < j < |s| ensures s[i] != s[j] {
      CountOnce(s, n, i, j);
    }
    forall row | 0 <= row < n ensures row in s {
      assert row == range[row];
      assert row in multiset(range);
    }
  }

  /** `TopRows` keeps the n highest rows, each once, in non-increasing order, and no row it drops ranks higher. */
  lemma TopRowsAreTop(cells: Cells, n: nat)
    ensures |TopRows(cells, n)| == if |cells| < n then |cells| else n
    ensures forall i :: 0 <= i < |TopRows(cells, n)| ==> TopRows(cells, n)[i] < |cells|
    ensures forall i, j :: 0 <= i < j < |TopRows(cells, n)| ==> TopRows(cells, n)[i] != TopRows(cells, n)[j]
    ensures forall i, j :: 0 <= i < j < |TopRows(cells, n)| ==>
              AtLeast(NumKey(cells[TopRows(cells, n)[i]]), NumKey(cells[TopRows(cells, n)[j]]))
    ensures forall i, row :: 0 <= i < |TopRows(cells, n)| && 0 <= row < |cells| && row !in TopRows(cells, n) ==>
              AtLeast(NumKey(cells[TopRows(cells, n)[i]]), NumKey(cells[row]))
  {
    var rank := RowRanker(cells);
    var sorted := SortDesc(RowRange(|cells|), rank);
    var top := TopRows(cells, n);
    PermutationOfRange(sorted, |cells|);
    assert forall i :: 0 <= i < |top| ==> top[i] == sorted[i];
    forall i, row | 0 <= i < |top| && 0 <= row < |cells| && row !in top
      ensures AtLeast(NumKey(cells[top[i]]), NumKey(cells[row]))
    {
      assert row in sorted;
      var k :| 0 <= k < |sorted| && sorted[k] == row;
      assert k >= |top|;
      assert AtLeast(rank(sorted[i]), rank(sorted[k]));
    }
    forall i, j | 0 <= i < j < |top| ensures AtLeast(NumKey(cells[top[i]]), NumKey(cells[top[j]])) {
      assert AtLeast(rank(sorted[i]), rank(sorted[j]));
    }
  }

  /** Every non-missing cell converts to a timestamp. */
  predicate Parses(c: Column, parseCell: Value -> Option<(int, int)>) {
    forall i :: 0 <= i < |c.cells| && c.cells[i].Some? ==> parseCell(c.cells[i].value).Some?
  }

  function ParsedCell(cell: Option<Value>, parseCell: Value -> Option<(int, int)>): Option<Value> {
    match cell
    case None => None
    case Some(v) =>
      match parseCell(v)
      case None => None
      case Some(p) => Some(Stamp(p.0, p.1))
  }

  /**
    `pd.to_datetime(df[c])`, with the per-value parser as a given input.
    A datetime column converts to itself; otherwise one value that does not
    parse makes the whole conversion raise (None).
   */
  function ToDatetime(c: Column, parseCell: Value -> Option<(int, int)>): (r: Option<Column>)
    ensures r.Some? <==> c.kind == Datetime || Parses(c, parseCell)
    ensures r.Some? ==> r.value.name == c.name && r.value.kind == Datetime && |r.value.cells| == |c.cells|
    ensures r.Some? ==> forall i :: 0 <= i < |c.cells| ==> (r.value.cells[i].None? <==> c.cells[i].None?)
  {
    if c.kind == Datetime then Some(c)
    else if Parses(c, parseCell) then
      Some(Column(c.name, Datetime, seq(|c.cells|, i requires 0 <= i < |c.cells| => ParsedCell(c.cells[i], parseCell))))
    else None
  }

  /** The floating-point statistics pandas computes, given rather than computed; None is NaN. */
  datatype Numerics = Numerics(
    mean: Cells -> Option<real>,
    median: Cells -> Option<real>,
    min: Cells -> Option<real>,
    max: Cells -> Option<real>,
    skew: Cells -> Option<real>,
    q1: Cells -> Option<real>,
    q3: Cells -> Option<real>,
    corr: (Cells, Cells) -> Option<real>)

  /** A pandas DataFrame object, whose columns the program overwrites in place. */
  class Frame {
    var rows: nat
    var cols: seq<Column>

    ghost predicate Valid()
      reads this
    {
      WellFormed(Table(rows, cols))
    }

    function Snapshot(): Table
      reads this
    {
      Table(rows, cols)
    }

    constructor (t: Table)
      requires WellFormed(t)
      ensures Valid() && Snapshot() == t
    {
      rows, cols := t.rows, t.cols;
    }

    /** `df[cols[i].name] = c`: replaces one column by another of the same length. */
    method SetColumn(i: nat, c: Column)
      requires Valid() && i < |cols|
      requires c.name == cols[i].name && |c.cells| == rows
      modifies this
      ensures Valid()
      ensures rows == old(rows) && cols == old(cols)[i := c]
    {
      cols := cols[i := c];
    }
  }
}
