/**
  `process_natural_language_query` (utils.py): a keyword rule chain over
  the lower-cased question. The columns it talks about are those whose
  lower-cased name occurs in the question, in table order. The keyword
  rules are tried in order (average/mean, show...by, where/most/highest/top);
  when the first one whose keywords occur produces nothing, the default rule
  answers on the first matched column.
 */
module Query {
  import opened Wrappers
  import opened Text
  import opened Ranking
  import opened Tables
  import opened Profiling

  /** The figures the interpreter can return, as specs. */
  datatype Figure =
    | Distribution(column: string)            // histogram of a numeric column
    | CountsBar(column: string)               // bar chart of value counts
    | GroupMeans(group: string, value: string) // bar chart of the mean of `value` per `group`

  datatype Payload =
    | TopValues(column: string, rows: seq<nat>)       // the positions of the rows kept, in the order shown
    | CategoryCounts(column: string, counts: seq<(Value, nat)>)

  /** The result dictionary: its "type", "data" and "message". */
  datatype QueryResult =
    | NoColumns
    | Statistic(means: seq<(string, Option<real>)>, message: string)
    | Visualization(figure: Figure, message: string)
    | Data(payload: Payload, message: string)

  const NoColumnsMessage := "Couldn't identify any columns in your query. Please be more specific."

  /** The "type" field. */
  function TypeName(r: QueryResult): string {
    match r
    case NoColumns => "error"
    case Statistic(_, _) => "statistic"
    case Visualization(_, _) => "visualization"
    case Data(_, _) => "data"
  }

  /** The "message" field. */
  function MessageOf(r: QueryResult): string {
    if r.NoColumns? then NoColumnsMessage else r.message
  }

  /** `[col for col in df.columns if col.lower() in query]`. */
  function MatchedColumns(cols: seq<Column>, q: string): seq<Column> {
    if cols == [] then []
    else (if Contains(q, Lower(cols[0].name)) then [cols[0]] else []) + MatchedColumns(cols[1..], q)
  }

  predicate IsNumericColumn(c: Column) {
    IsNumericDtype(c.kind)
  }

  predicate NotNumericColumn(c: Column) {
    !IsNumericDtype(c.kind)
  }

  /** The columns of `cols` satisfying `p`, in order. */
  function Where(cols: seq<Column>, p: Column -> bool): seq<Column> {
    if cols == [] then [] else (if p(cols[0]) then [cols[0]] else []) + Where(cols[1..], p)
  }

  function MeansOf(cols: seq<Column>, stats: Numerics): (r: seq<(string, Option<real>)>)
    ensures |r| == |cols|
  {
    seq(|cols|, i requires 0 <= i < |cols| => (cols[i].name, stats.mean(cols[i].cells)))
  }

  predicate AskAverage(q: string) {
    Contains(q, "average") || Contains(q, "mean")
  }

  predicate AskShowBy(q: string) {
    Contains(q, "show") && Contains(q, "by")
  }

  predicate AskRanking(q: string) {
    Contains(q, "where") || Contains(q, "most") || Contains(q, "highest") || Contains(q, "top")
  }

  /**
    The `if/elif` chain on a non-empty match: Ok(None) when the rule that
    fires leaves the type unset, Err when it raises.
   */
  function KeywordRule(q: string, matched: seq<Column>, stats: Numerics): (r: Result<Option<QueryResult>, Failure>)
    ensures r.Err? ==> r.error == IndexError && AskRanking(q) && Contains(q, "top") && Where(matched, IsNumericColumn) == []
    ensures r.Ok? && r.value.Some? ==> !r.value.value.NoColumns?
  {
    if AskAverage(q) then
      var nums := Where(matched, IsNumericColumn);
      if nums == [] then Ok(None)
      else Ok(Some(Statistic(MeansOf(nums, stats), "Average of " + Join(Names(nums), ", "))))
    else if AskShowBy(q) then
      if |matched| >= 2 && IsNumericDtype(matched[1].kind) then
        Ok(Some(Visualization(GroupMeans(matched[0].name, matched[1].name),
          "Showing " + matched[1].name + " by " + matched[0].name)))
      else Ok(None)
    else if AskRanking(q) then
      var nums := Where(matched, IsNumericColumn);
      var others := Where(matched, NotNumericColumn);
      // as written: `numeric_cols and "highest" in query or "top" in query`
      if (nums != [] && Contains(q, "highest")) || Contains(q, "top") then
        if nums == [] then Err(IndexError)  // `numeric_cols[0]` on an empty list
        else Ok(Some(Data(TopValues(nums[0].name, TopRows(nums[0].cells, 5)), "Showing top values by " + nums[0].name)))
      else if others != [] then
        Ok(Some(Data(CategoryCounts(others[0].name, Take(ValueCounts(others[0].cells), 5)), "Showing counts for " + others[0].name)))
      else Ok(None)
    else Ok(None)
  }

  /** The closing `if result["type"] is None and columns:` rule. */
  function DefaultRule(c: Column): (r: QueryResult)
    ensures r.Visualization? && (r.figure == Distribution(c.name) || r.figure == CountsBar(c.name))
    ensures r.figure.Distribution? <==> IsNumericDtype(c.kind)
  {
    if IsNumericDtype(c.kind) then Visualization(Distribution(c.name), "Showing distribution of " + c.name)
    else Visualization(CountsBar(c.name), "Showing counts for " + c.name)
  }

  /** `process_natural_language_query(query, df)`: the answer, or the exception it raises. */
  function Interpret(query: string, cols: seq<Column>, stats: Numerics): (r: Result<QueryResult, Failure>)
    ensures r == Ok(NoColumns) <==> MatchedColumns(cols, Lower(query)) == []
    ensures r.Err? ==> r.error == IndexError
  {
    var q := Lower(query);
    var matched := MatchedColumns(cols, q);
    if matched == [] then Ok(NoColumns)
    else
      match KeywordRule(q, matched, stats)
      case Err(e) => Err(e)
      case Ok(Some(r)) => Ok(r)
      case Ok(None) => Ok(DefaultRule(matched[0]))
  }

  lemma {:induction false} MatchedColumnsAppend(a: seq<Column>, b: seq<Column>, q: string)
    ensures MatchedColumns(a + b, q) == MatchedColumns(a, q) + MatchedColumns(b, q)
  {
    if a == [] {
      assert a + b == b;
    } else {
      assert (a + b)[1..] == a[1..] + b;
      MatchedColumnsAppend(a[1..], b, q);
    }
  }

  lemma {:induction false} WhereMember(cols: seq<Column>, p: Column -> bool)
    ensures forall c :: c in Where(cols, p) <==> c in cols && p(c)
    ensures |Where(cols, p)| <= |cols|
  {
    if cols != [] {
      WhereMember(cols[1..], p);
      assert cols == [cols[0]] + cols[1..];
    }
  }

  /** The matched columns are exactly the columns whose lower-cased name occurs in the question. */
  lemma {:induction false} MatchedMember(cols: seq<Column>, q: string)
    ensures forall c :: c in MatchedColumns(cols, q) <==> c in cols && Contains(q, Lower(c.name))
  {
    if cols != [] {
      MatchedMember(cols[1..], q);
      assert cols == [cols[0]] + cols[1..];
    }
  }

  /** The matched columns keep the table's order. */
  lemma {:induction false} MatchedInOrder(cols: seq<Column>, q: string)
    ensures IsSubsequence(Names(MatchedColumns(cols, q)), Names(cols))
  {
    if cols != [] {
      var rest := MatchedColumns(cols[1..], q);
      MatchedInOrder(cols[1..], q);
      assert Names(cols)[1..] == Names(cols[1..]);
      if Contains(q, Lower(cols[0].name)) {
        assert MatchedColumns(cols, q) == [cols[0]] + rest;
        assert Names([cols[0]] + rest) == [cols[0].name] + Names(rest);
        assert ([cols[0].name] + Names(rest))[1..] == Names(rest);
      } else {
        assert MatchedColumns(cols, q) == rest;
      }
    }
  }

  /** The first matched column is the first column of the table whose name occurs in the question. */
  lemma {:induction false} MatchedFirst(cols: seq<Column>, q: string)
    ensures MatchedColumns(cols, q) != [] ==>
      exists i :: 0 <= i < |cols| && MatchedColumns(cols, q)[0] == cols[i]
        && forall j :: 0 <= j < i ==> !Contains(q, Lower(cols[j].name))
  {
    if cols != [] && !Contains(q, Lower(cols[0].name)) {
      var rest := MatchedColumns(cols[1..], q);
      MatchedFirst(cols[1..], q);
      assert MatchedColumns(cols, q) == rest;
      if rest != [] {
        var i :| 0 <= i < |cols[1..]| && rest[0] == cols[1..][i]
          && forall j :: 0 <= j < i ==> !Contains(q, Lower(cols[1..][j].name));
        assert rest[0] == cols[i + 1];
        forall j | 0 <= j < i + 1 ensures !Contains(q, Lower(cols[j].name)) {
          if j > 0 {
            assert cols[j] == cols[1..][j - 1];
          }
        }
      }
    }
  }

  /** A non-empty match never yields the "error" type: every answer that is not an exception has one of the three others. */
  lemma MatchedNeverError(query: string, cols: seq<Column>, stats: Numerics)
    requires MatchedColumns(cols, Lower(query)) != []
    ensures Interpret(query, cols, stats).Ok? ==> TypeName(Interpret(query, cols, stats).value) in {"statistic", "visualization", "data"}
  {
  }

  /** The "error" answer comes exactly when no column name occurs in the question. */
  lemma NoColumnsIff(query: string, cols: seq<Column>, stats: Numerics)
    ensures Interpret(query, cols, stats) == Ok(NoColumns) <==>
      forall i :: 0 <= i < |cols| ==> !Contains(Lower(query), Lower(cols[i].name))
  {
    var q := Lower(query);
    var m := MatchedColumns(cols, q);
    MatchedMember(cols, q);
    if m != [] {
      MatchedNeverError(query, cols, stats);
      assert m[0] in m;
    }
    forall i | 0 <= i < |cols| && Contains(q, Lower(cols[i].name))
      ensures m != []
    {
      assert cols[i] in m;
    }
  }

  /**
    When the question asks for an average and mentions a numeric column, the
    answer is the mean of each numeric matched column, in table order,
    whatever else the question says.
   */
  lemma AverageWins(query: string, cols: seq<Column>, stats: Numerics)
    requires AskAverage(Lower(query))
    requires Where(MatchedColumns(cols, Lower(query)), IsNumericColumn) != []
    ensures var nums := Where(MatchedColumns(cols, Lower(query)), IsNumericColumn);
      && Interpret(query, cols, stats) == Ok(Statistic(MeansOf(nums, stats), "Average of " + Join(Names(nums), ", ")))
      && forall k :: 0 <= k < |nums| ==> Interpret(query, cols, stats).value.means[k].0 == nums[k].name
  {
  }

  /**
    "show ... by" with no average keyword groups the second matched column
    by the first, when the second is numeric.
   */
  lemma ShowByGroupsFirstTwo(query: string, cols: seq<Column>, stats: Numerics)
    requires !AskAverage(Lower(query)) && AskShowBy(Lower(query))
    requires var m := MatchedColumns(cols, Lower(query)); |m| >= 2 && IsNumericDtype(m[1].kind)
    ensures var m := MatchedColumns(cols, Lower(query));
      Interpret(query, cols, stats) == Ok(Visualization(GroupMeans(m[0].name, m[1].name), "Showing " + m[1].name + " by " + m[0].name))
  {
  }

  /**
    The interpreter raises exactly when a column matched, neither the
    average nor the show-by rule applies, "top" occurs and no matched column
    is numeric; and then it raises IndexError.
   */
  lemma RaisesIff(query: string, cols: seq<Column>, stats: Numerics)
    ensures var q := Lower(query); var m := MatchedColumns(cols, q);
      Interpret(query, cols, stats).Err? <==>
        m != [] && !AskAverage(q) && !AskShowBy(q) && Contains(q, "top") && Where(m, IsNumericColumn) == []
    ensures Interpret(query, cols, stats).Err? ==> Interpret(query, cols, stats).error == IndexError
  {
  }

  /**
    Whenever the first rule whose keywords occur produces nothing, the
    default rule answers on the first matched column.
   */
  lemma FallsThroughToDefault(query: string, cols: seq<Column>, stats: Numerics)
    requires MatchedColumns(cols, Lower(query)) != []
    requires KeywordRule(Lower(query), MatchedColumns(cols, Lower(query)), stats) == Ok(None)
    ensures Interpret(query, cols, stats) == Ok(DefaultRule(MatchedColumns(cols, Lower(query))[0]))
    ensures Interpret(query, cols, stats).value.Visualization?
  {
  }

  /** A ranking answer is the top five rows of the first numeric matched column. */
  lemma RankingAnswerSource(query: string, cols: seq<Column>, stats: Numerics, name: string, rows: seq<nat>)
    requires Interpret(query, cols, stats) == Ok(Data(TopValues(name, rows), "Showing top values by " + name))
    ensures var nums := Where(MatchedColumns(cols, Lower(query)), IsNumericColumn);
      nums != [] && name == nums[0].name && rows == TopRows(nums[0].cells, 5)
  {
  }

  /**
    A ranking answer holds at most five rows of the first numeric matched
    column, highest first, and no row left out ranks above one kept.
   */
  lemma RankingAnswerIsTopFive(query: string, cols: seq<Column>, stats: Numerics, name: string, rows: seq<nat>)
    requires Interpret(query, cols, stats) == Ok(Data(TopValues(name, rows), "Showing top values by " + name))
    ensures var c := Where(MatchedColumns(cols, Lower(query)), IsNumericColumn)[0];
      && name == c.name
      && |rows| <= 5
      && (forall i :: 0 <= i < |rows| ==> rows[i] < |c.cells|)
      && (forall i, j :: 0 <= i < j < |rows| ==> AtLeast(NumKey(c.cells[rows[i]]), NumKey(c.cells[rows[j]])))
      && (forall i, row :: 0 <= i < |rows| && 0 <= row < |c.cells| && row !in rows ==>
            AtLeast(NumKey(c.cells[rows[i]]), NumKey(c.cells[row])))
  {
    RankingAnswerSource(query, cols, stats, name, rows);
    TopRowsAreTop(Where(MatchedColumns(cols, Lower(query)), IsNumericColumn)[0].cells, 5);
  }

  /** A counts answer is the first five value counts of the first non-numeric matched column. */
  lemma CountsAnswerSource(query: string, cols: seq<Column>, stats: Numerics, name: string, counts: seq<(Value, nat)>)
    requires Interpret(query, cols, stats) == Ok(Data(CategoryCounts(name, counts), "Showing counts for " + name))
    ensures var others := Where(MatchedColumns(cols, Lower(query)), NotNumericColumn);
      others != [] && name == others[0].name && counts == Take(ValueCounts(others[0].cells), 5)
  {
  }

  /** A counts answer holds at most five values with their exact counts, most frequent first. */
  lemma CountsAnswerIsTopFive(query: string, cols: seq<Column>, stats: Numerics, name: string, counts: seq<(Value, nat)>)
    requires Interpret(query, cols, stats) == Ok(Data(CategoryCounts(name, counts), "Showing counts for " + name))
    ensures var c := Where(MatchedColumns(cols, Lower(query)), NotNumericColumn)[0];
      && name == c.name
      && |counts| <= 5
      && (forall i :: 0 <= i < |counts| ==> counts[i].1 == Count(c.cells, counts[i].0) > 0)
      && (forall i, j :: 0 <= i < j < |counts| ==> counts[i].1 >= counts[j].1)
  {
    CountsAnswerSource(query, cols, stats, name, counts);
    var c := Where(MatchedColumns(cols, Lower(query)), NotNumericColumn)[0];
    var vc := ValueCounts(c.cells);
    ValueCountsSpec(c.cells);
    assert forall i :: 0 <= i < |counts| ==> counts[i] == vc[i] && vc[i] in vc;
  }

  /**
    `process_natural_language_query(query, df)` as the source runs it:
    the matching loop, then the rule chain filling in the result.
   */
  method ProcessQuery(query: string, df: Frame, stats: Numerics) returns (r: Result<QueryResult, Failure>)
    ensures r == Interpret(query, df.cols, stats)
  {
    var q := Lower(query);
    var columns: seq<Column> := [];
    var i := 0;
    while i < |df.cols|
      invariant 0 <= i <= |df.cols|
      invariant columns == MatchedColumns(df.cols[..i], q)
    {
      MatchedColumnsAppend(df.cols[..i], [df.cols[i]], q);
      assert df.cols[..i + 1] == df.cols[..i] + [df.cols[i]];
      if Contains(q, Lower(df.cols[i].name)) {
        columns := columns + [df.cols[i]];
      }
      i := i + 1;
    }
    assert df.cols[..i] == df.cols;
    if columns == [] {
      return Ok(NoColumns);
    }
    var result: Option<QueryResult> := None;
    if AskAverage(q) {
      var nums := Where(columns, IsNumericColumn);
      if nums != [] {
        result := Some(Statistic(MeansOf(nums, stats), "Average of " + Join(Names(nums), ", ")));
      }
    } else if AskShowBy(q) {
      if |columns| >= 2 {
        var group, value := columns[0], columns[1];
        if IsNumericDtype(value.kind) {
          result := Some(Visualization(GroupMeans(group.name, value.name), "Showing " + value.name + " by " + group.name));
        }
      }
    } else if AskRanking(q) {
      var nums := Where(columns, IsNumericColumn);
      var others := Where(columns, NotNumericColumn);
      if (nums != [] && Contains(q, "highest")) || Contains(q, "top") {
        if nums == [] {
          return Err(IndexError);
        }
        var col := nums[0];
        result := Some(Data(TopValues(col.name, TopRows(col.cells, 5)), "Showing top values by " + col.name));
      } else if others != [] {
        var col := others[0];
        result := Some(Data(CategoryCounts(col.name, Take(ValueCounts(col.cells), 5)), "Showing counts for " + col.name));
      }
    }
    if result.None? {
      result := Some(DefaultRule(columns[0]));
    }
    r := Ok(result.value);
  }

  /**
    The ranking test as evidently intended, `numeric_cols and ("highest" in
    query or "top" in query)`: a question with "top" and no numeric column
    falls to the categorical counts instead of raising.
   */
  function KeywordRuleIntended(q: string, matched: seq<Column>, stats: Numerics): Option<QueryResult> {
    if AskRanking(q) && !AskAverage(q) && !AskShowBy(q) then
      var nums := Where(matched, IsNumericColumn);
      var others := Where(matched, NotNumericColumn);
      if nums != [] && (Contains(q, "highest") || Contains(q, "top")) then
        Some(Data(TopValues(nums[0].name, TopRows(nums[0].cells, 5)), "Showing top values by " + nums[0].name))
      else if others != [] then
        Some(Data(CategoryCounts(others[0].name, Take(ValueCounts(others[0].cells), 5)), "Showing counts for " + others[0].name))
      else None
    else
      match KeywordRule(q, matched, stats)
      case Err(_) => None
      case Ok(r) => r
  }

  /** The corrected interpreter: it never raises, and answers "error" exactly when no column matched. */
  function InterpretIntended(query: string, cols: seq<Column>, stats: Numerics): (r: QueryResult)
    ensures r == NoColumns <==> MatchedColumns(cols, Lower(query)) == []
  {
    var q := Lower(query);
    var matched := MatchedColumns(cols, q);
    if matched == [] then NoColumns
    else
      match KeywordRuleIntended(q, matched, stats)
      case Some(r) => r
      case None => DefaultRule(matched[0])
  }

  /**
    The intended interpreter agrees with the source wherever the source does
    not raise, and where it raises answers with the counts of the first
    matched non-numeric column.
   */
  lemma IntendedAgreesWhereSourceAnswers(query: string, cols: seq<Column>, stats: Numerics)
    ensures Interpret(query, cols, stats).Ok? ==> InterpretIntended(query, cols, stats) == Interpret(query, cols, stats).value
    ensures Interpret(query, cols, stats).Err? ==>
      var others := Where(MatchedColumns(cols, Lower(query)), NotNumericColumn);
      && others != []
      && InterpretIntended(query, cols, stats)
         == Data(CategoryCounts(others[0].name, Take(ValueCounts(others[0].cells), 5)), "Showing counts for " + others[0].name)
  {
    var q := Lower(query);
    var matched := MatchedColumns(cols, q);
    if matched != [] {
      RuleIntendedAgrees(q, matched, stats);
    }
  }

  /** `IntendedAgreesWhereSourceAnswers` for one non-empty match. */
  lemma RuleIntendedAgrees(q: string, matched: seq<Column>, stats: Numerics)
    requires matched != []
    ensures KeywordRule(q, matched, stats).Ok? ==> KeywordRuleIntended(q, matched, stats) == KeywordRule(q, matched, stats).value
    ensures KeywordRule(q, matched, stats).Err? ==>
      var others := Where(matched, NotNumericColumn);
      && others != []
      && KeywordRuleIntended(q, matched, stats)
         == Some(Data(CategoryCounts(others[0].name, Take(ValueCounts(others[0].cells), 5)), "Showing counts for " + others[0].name))
  {
    if KeywordRule(q, matched, stats).Err? {
      WhereMember(matched, IsNumericColumn);
      WhereMember(matched, NotNumericColumn);
      assert matched[0] in Where(matched, NotNumericColumn);
    }
  }

  /** "top" alone, asked of a table whose only column is a text column called "top", raises IndexError as written. */
  lemma TopWithoutNumericRaises(stats: Numerics)
    ensures var cols := [Column("top", Object, [Some(Str("a"))])];
      Interpret("top", cols, stats) == Err(IndexError)
      && InterpretIntended("top", cols, stats) == Data(CategoryCounts("top", [(Str("a"), 1)]), "Showing counts for top")
  {
    var cols := [Column("top", Object, [Some(Str("a"))])];
    TopQueryWords();
    assert MatchedColumns(cols, "top") == cols;
    assert Where(cols, IsNumericColumn) == [];
    assert Where(cols, NotNumericColumn) == cols;
    SingleCellCounts(cols[0].cells);
  }

  /** The question "top" names the column "top" and none of the other keywords but "top". */
  lemma TopQueryWords()
    ensures Lower("top") == "top" && Contains("top", "top")
    ensures !Contains("top", "average") && !Contains("top", "mean") && !Contains("top", "show") && !Contains("top", "highest")
  {
    assert Lower("top") == "top";
    assert Contains("top", "top") by {
      assert IsPrefix("top", "top");
    }
    ContainsIff("top", "average");
    ContainsIff("top", "mean");
    ContainsIff("top", "show");
    ContainsIff("top", "highest");
  }

  lemma SingleCellCounts(cells: Cells)
    requires cells == [Some(Str("a"))]
    ensures ValueCounts(cells) == [(Str("a"), 1)]
  {
    assert Distinct(cells) == [Str("a")];
    assert Count(cells, Str("a")) == 1 by {
      assert multiset(cells) == multiset{Some(Str("a"))};
    }
  }
}
