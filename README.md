# Insight-Agent core, modelled in Dafny

Insight-Agent is a browser data-exploration assistant: a user uploads a
table, the tool profiles and cleans it, plans charts, derives heuristic
insights, answers keyword questions, writes an HTML report, and asks a
Gemini model for summaries, insights and follow-up questions, with rule-based
fallbacks when the model is missing or fails. This project models the
deterministic rules of that tool and proves what they promise.

A table is `Tables.Table(rows, cols)`: a sequence of columns, each with a
name, a pandas dtype kind (`Numeric`, `Object`, `Category`, `Datetime`,
`Boolean`, `Other`) and one `Option<Value>` cell per row (`None` is NaN,
None or NaT). The pandas DataFrame that the program changes in place is the
class `Tables.Frame`, whose `cols` field the in-place operations reassign.
The floating-point statistics pandas computes (mean, median, min, max, skew,
quantiles, Pearson r) are the inputs of `Tables.Numerics`, where `None` is
NaN. `pd.to_datetime` is a given per-cell parser, and one cell that does not
parse makes the whole conversion fail. Each Gemini reply is an
`Option<string>` parameter: the text, or `None` when the call raised.

Modules, one per concern of the source:

- `Wrappers`: `Option` and `Result`.
- `Text`: `lower` on ASCII letters, `in`, `find`, `split`, `join`, `strip`
  over Python's whitespace characters, and the sentence split
  `re.split(r'(?<=[.!?])\s+', ...)`.
- `Ranking`: a stable descending sort, used for `sort_values` and `value_counts`.
- `Tables`: the table, the dtype tests, `value_counts`, `nunique`,
  `sort_values(...).head(n)`, `to_datetime`, and the `Frame` class.
- `Profiling`: `get_data_profile` (utils.py).
- `Cleaning`: `clean_data` (utils.py).
- `Charts`: `get_automatic_visualizations` (utils.py).
- `Insights`: `get_automatic_insights` (utils.py).
- `Query`: `process_natural_language_query` (utils.py).
- `Report`: which sections `create_report` (utils.py) emits, in which order.
- `App`: the IQR outlier capping, the cleaning labels and the download file name (app.py).
- `Agent`: the API-key check, the `.env` fallback, reply splitting and the
  fallback insights and questions (gemini_agent.py).

Three behaviours of the code that a reader might not expect, modelled as
written:

- A ranking answer is stored with type "data", the same type as the value
  counts (utils.py:406).
- The three kind lists of the profile are pairwise disjoint but do not cover
  every column: boolean and other dtypes appear in none of them
  (utils.py:35-37).
- A categorical column gets at most one of the "constant" and "low
  cardinality" insights. It gets neither when it has five or more distinct
  values (utils.py:469-474).

## Model

| member | source | states |
|---|---|---|
| Profiling.GetDataProfile | utils.py:28-32 | the profile's rows and columns are the table's shape |
| Profiling.Dtypes | utils.py:34 | the dtype map has exactly the column names as keys |
| Profiling.KindListsPartition | utils.py:35-37 | the numerical, categorical and datetime lists are subsequences of the column names in table order, pairwise disjoint, and list a column exactly when its dtype is number / object-or-category / datetime |
| Profiling.KindNamesMember | utils.py:35-37 | a name is listed exactly when some column of that name has a matching dtype |
| Profiling.KindNamesInOrder | utils.py:35-37 | each kind list keeps the table's column order |
| Profiling.NameListedIffKind | utils.py:35-37 | with distinct labels, a column's name is listed exactly when its own dtype matches |
| Profiling.KindNamesDisjoint | utils.py:35-37 | lists for dtype tests that never both hold share no name |
| Profiling.MissingPctBounds | utils.py:33 | the missing percentage is defined exactly when rows and columns are non-zero, lies in [0, 100], and is 0 exactly when no cell is missing |
| Profiling.TotalMissingBounds | utils.py:33 | the missing-cell total is at most rows times columns, and is 0 exactly when no column has a missing cell |
| Profiling.MissingWithinLength | utils.py:33 | a column has at most as many missing cells as cells, and none exactly when no cell is missing |
| Cleaning.CleanData | utils.py:41-62 | per method: 'drop' returns a new frame of the complete rows or raises KeyError for an unknown name; mean/median/mode run the fill loop in place; 'value' fills the chosen columns or raises KeyError/ValueError; any other method leaves the frame unchanged |
| Cleaning.DropIncompleteSpec | utils.py:46-47 | 'drop' keeps exactly the rows with no missing cell in the chosen columns, in their original order, with every column's name, dtype and kept cells unchanged |
| Cleaning.CompleteRowsSpec | utils.py:47 | the kept row positions are exactly the complete rows, ascending, each once |
| Cleaning.FillLoop | utils.py:48-58 | the mean/median/mode loop leaves the frame's columns and the raised exception as the fill specification says |
| Cleaning.FillEachLoop | utils.py:48-58 | the loop looks up each chosen name in turn, writes the filled column back in place, and stops at an unknown name or the first failure |
| Cleaning.FillStep | utils.py:50-58 | filling one column keeps its name, dtype and length |
| Cleaning.FillAllCenter | utils.py:48-55 | mean/median filling raises (KeyError) exactly when a chosen name is missing, keeps non-numeric and unchosen columns whole, and never changes a present cell |
| Cleaning.CenterFill | utils.py:50-55 | mean/median filling of one column never raises and keeps a non-numeric column (or one whose statistic is NaN) whole; a numeric column becomes `fillna(statistic)`: present cells kept, every missing cell the mean or median |
| Cleaning.FoundAfterFirst | utils.py:49 | once the first name is found, all names are found exactly when the rest are, since filling keeps the names |
| Cleaning.ModeFillsMostFrequent | utils.py:56-58 | mode filling raises exactly when the column has no present value, and otherwise fills with a value no other value outnumbers |
| Cleaning.FillNa | utils.py:51 | `fillna(v)` keeps the length and leaves no missing cell |
| Cleaning.FillAll | utils.py:48-58 | the fill loop keeps the number of columns |
| Cleaning.CenterFillsChosen | utils.py:48-55 | when mean/median filling does not raise, each chosen numeric column whose statistic exists becomes `fillna(statistic)` with no missing cell left |
| Cleaning.DropIncomplete | utils.py:46-47 | dropping gives a well-formed table with the same column names |
| Cleaning.FillNaSpec | utils.py:51 | `fillna(v)` leaves no missing cell, adds the missing count to v's count and keeps every other value's count |
| Cleaning.FillNaCells | utils.py:51 | `fillna(v)` keeps every present cell and turns every missing cell into v |
| Cleaning.FillNaCounts | utils.py:51 | as multisets, `fillna(v)` moves exactly the missing cells over to v |
| Cleaning.FillChosenInPlace | utils.py:59-60 | the 'value' branch fills exactly the chosen columns in place |
| Charts.AutomaticVisualizations | utils.py:80-126 | returns the planned charts, and leaves the frame with the first date-named column converted only when the numeric loop ran |
| Charts.NumericPass | utils.py:88-101 | the numeric loop yields a histogram per column, each followed by a line chart on the date axis, converting the date column in place |
| Charts.NumericStep | utils.py:89-101 | one pass: the histogram, then the in-place conversion and the line chart when the conversion succeeds |
| Charts.CategoryPass | utils.py:107-119 | the categorical loop yields the bar and box charts the plan describes |
| Charts.Plan | utils.py:80-126 | with a numeric column, the first chart is the histogram of the first numeric column |
| Charts.PlanShape | utils.py:80-126 | the histograms are the first five numeric columns in order; there is one line chart per histogram exactly when the date axis exists; box plots use the first numeric column; one scatter, last, exactly when there are two numeric columns; at most 21 charts |
| Charts.PlanParts | utils.py:85-124 | the same facts for the three parts of the plan, for any numeric names, axis and at most five categorical columns |
| Charts.CombineParts | utils.py:85-124 | putting a numeric run, a categorical run and the scatter part together keeps the facts of each part |
| Charts.PlanEmpty | utils.py:80-126 | no chart exactly when there is no numeric column and none of the first five categorical columns has fewer than 15 distinct values |
| Charts.CategoryBars | utils.py:107-113 | the bar charts name exactly the categorical columns with fewer than 15 distinct values, in order |
| Charts.HeadBars | utils.py:108-113 | one categorical column gets a bar chart of itself exactly when it has fewer than 15 distinct values |
| Charts.CategoryChartsShape | utils.py:107-119 | categorical charts are bars and box plots only, at most two per column, box plots on the first numeric column, and none at all exactly when every column has 15 or more distinct values |
| Charts.CategoryHeadShape | utils.py:108-119 | one categorical column gets at most a bar and a box plot, and none exactly when it has 15 or more distinct values |
| Charts.NumericChartsShape | utils.py:88-101 | the numeric charts are the histograms of the given columns in order, each with its line chart on the axis when there is one |
| Charts.NumericHeadShape | utils.py:89-99 | one numeric column gets its histogram and, with a date axis, one line chart against it |
| Charts.ScatterShape | utils.py:122-124 | the scatter plot of the first two numeric columns exists exactly when there are two |
| Charts.PlanAxesOfParts | utils.py:98-118 | every line chart uses the date axis and every box plot the first numeric column |
| Charts.FirstDateNamed | utils.py:94 | the first column whose lower-cased name contains "date" or "time" |
| Charts.FirstDateNamedByNames | utils.py:94 | the date column depends on the column names alone |
| Charts.ConvertDatesStable | utils.py:94-97 | converting keeps the names and the date column, and converting again changes nothing |
| Insights.GetAutomaticInsights | utils.py:438-501 | returns the modelled insights or the raised exception, and leaves the date-named columns converted in place when it does not raise |
| Insights.InsightsInStageOrder | utils.py:438-501 | the insights come in the order missing, numeric, categorical, date span, correlation |
| Insights.AutomaticInsightsRaiseIff | utils.py:438-501 | it raises exactly when some object or category column has no present value, and then with IndexError |
| Insights.CategoricalRaiseIff | utils.py:466-479 | the categorical stage over a table raises exactly when one of its object or category columns has no present value |
| Insights.MissingInsightIff | utils.py:442-445 | at most one missing-share insight, present exactly when the table has cells and some are missing |
| Insights.AutomaticInsights | utils.py:438-501 | the only exception it raises is IndexError |
| Insights.NumericInsight | utils.py:450-463 | at most a skew and an outlier insight, both about the column |
| Insights.NumericInsightSpec | utils.py:450-463 | a skew insight exactly when abs(skew) > 1, pointing right exactly when skew > 0; an outlier insight exactly when some value is strictly outside the IQR fences, with that count and a share in (0, 100] |
| Insights.NumericLoop | utils.py:450-463 | the numeric loop yields the insights of each numeric column in order |
| Insights.NumberPositions | utils.py:448 | the numeric columns' positions, ascending, all of them |
| Insights.ShareAtMost100 | utils.py:463 | the outlier share is positive and at most 100% |
| Insights.CategoryLoop | utils.py:468-479 | the categorical loop yields each column's insights in order and stops at the first IndexError |
| Insights.GatherLoop | utils.py:468-479 | a loop over columns that stops at the first failure yields the gathered results |
| Insights.CategoryInsightsRaise | utils.py:468-479 | the categorical stage fails exactly when one column does, with IndexError |
| Insights.GatherRaises | utils.py:468-479 | gathering fails exactly when the per-column check fails on some column, with that check's error |
| Insights.CategoryInsight | utils.py:468-479 | one column raises only IndexError; otherwise at most two insights, cardinality or imbalance, about that column |
| Insights.Cardinality | utils.py:469-474 | at most one insight, constant or low cardinality, about the column |
| Insights.Imbalance | utils.py:476-479 | at most one imbalance insight, about the column |
| Insights.CategoryRaisesIff | utils.py:477-478 | a categorical column raises IndexError exactly when it has no present value |
| Insights.CategoryParts | utils.py:468-479 | a column that does not raise gets its cardinality insights, then its imbalance insights |
| Insights.CardinalitySpec | utils.py:469-474 | "constant" exactly when there is one distinct value, and it quotes the first cell; "low cardinality" exactly when there are 2 to 4, and it gives that number; never both |
| Insights.ImbalanceSpec | utils.py:476-479 | an imbalance insight exactly when the most frequent value covers more than 80% of the present cells, and it names a most frequent value |
| Insights.ImbalanceOfTop | utils.py:477-479 | the imbalance check on the top of `value_counts`: present exactly when 5 times the top count exceeds 4 times the present cells |
| Insights.ShareThreshold | utils.py:478 | a share above 0.8 is the same as 5 times the count exceeding 4 times the total |
| Insights.RealShare | utils.py:478 | t / p > 0.8 exactly when 5t > 4p, for positive p |
| Insights.CategoricalOfMember | utils.py:466 | the categorical stage sees exactly the object and category columns |
| Insights.DateLoop | utils.py:482-490 | the date loop converts each date-named column that parses in place and yields their span insights in column order |
| Insights.DateColumnStep | utils.py:483-490 | one pass converts column k when its name looks like a date and it parses, and yields its span insight |
| Insights.DateInsightsSpec | utils.py:482-490 | every span insight names a date-named column, with its first year strictly before its last when both are known |
| Insights.DateInsightsComplete | utils.py:482-490 | every date-named column that converts gets its span: the unknown span when it holds no timestamp, its earliest and latest years when they differ |
| Insights.SpanInsight | utils.py:486-488 | at most one span, about the column, with its first year before its last; none exactly when the column's known years all agree |
| Insights.MinOf | utils.py:486-488 | the earliest year, one of the years |
| Insights.MaxOf | utils.py:486-488 | the latest year, one of the years |
| Insights.PairLoop | utils.py:495-499 | the inner loop yields the strong pairs of one column with each later column, in order |
| Insights.PairInsightsSpec | utils.py:495-499 | every insight reports a pair of the column with a later one whose abs(r) > 0.7, and every such pair is reported |
| Insights.CorrelationLoop | utils.py:493-499 | the outer loop, run only with two or more numeric columns, yields all strong pairs i < j in column order |
| Insights.AllPairsSpec | utils.py:493-499 | every insight reports a pair i < j with abs(r) > 0.7, and every such pair is reported |
| Query.ProcessQuery | utils.py:360-436 | the imperative interpreter returns the answer of the rule chain, or the raised exception |
| Query.MatchedMember | utils.py:366 | the matched columns are exactly the columns whose lower-cased name occurs in the lower-cased question |
| Query.MatchedInOrder | utils.py:366 | the matched columns keep the table's order |
| Query.MatchedFirst | utils.py:366 | the first matched column is the first column of the table whose name occurs in the question |
| Query.NoColumnsIff | utils.py:366-369 | the "error" answer comes exactly when no column name occurs in the question |
| Query.MatchedNeverError | utils.py:368-434 | with a matched column, every answer that is not an exception is a statistic, a visualization or data |
| Query.AverageWins | utils.py:372-378 | with "average" or "mean" and a numeric matched column, the answer is the means of exactly the numeric matched columns, in order |
| Query.ShowByGroupsFirstTwo | utils.py:380-395 | "show ... by" with two matched columns, the second numeric, groups by the first over the second |
| Query.RaisesIff | utils.py:397-404 | the interpreter raises exactly when a ranking question contains "top" and no numeric column matched, and then with IndexError |
| Query.FallsThroughToDefault | utils.py:419-434 | when the keyword rule that fires yields nothing, the default rule answers with a chart of the first matched column |
| Query.RankingAnswerSource | utils.py:402-408 | a ranking answer is the top five rows of the first numeric matched column |
| Query.RankingAnswerIsTopFive | utils.py:402-408 | a ranking answer has at most five rows, in non-increasing order of that column, and no row left out ranks higher |
| Query.CountsAnswerSource | utils.py:410-416 | a counts answer is the first five value counts of the first non-numeric matched column |
| Query.CountsAnswerIsTopFive | utils.py:410-416 | a counts answer has at most five values with their exact counts, most frequent first |
| Query.TopWithoutNumericRaises | utils.py:402-404 | the question "top" on a table whose only column is a text column named "top" raises IndexError as written |
| Query.IntendedAgreesWhereSourceAnswers | utils.py:397-416 | the corrected interpreter agrees with the source wherever the source does not raise; where it raises, it answers with the top five value counts of the first non-numeric matched column |
| Query.RuleIntendedAgrees | utils.py:397-416 | the same agreement for the keyword rules on one non-empty match |
| Query.Interpret | utils.py:360-436 | the "error" answer comes exactly when no column matched, and the only exception raised is IndexError |
| Query.KeywordRule | utils.py:372-416 | a rule raises only on a ranking question with "top" and no numeric matched column, with IndexError, and never answers "error" |
| Query.DefaultRule | utils.py:419-434 | the default answer is a chart of the given column: its distribution exactly when it is numeric, otherwise its value counts |
| Query.InterpretIntended | utils.py:397-416 | the corrected interpreter never raises and answers "error" exactly when no column matched |
| Query.WhereMember | utils.py:374 | the numeric (or non-numeric) matched columns are exactly those matched columns with that dtype |
| Report.ReportLayout | utils.py:128-331 | 4 to 7 sections, header first and footer last, each kind at most once in the fixed page order, the overview and profile always present, and the summary, insights and recommendations sections are present exactly when their inputs are non-empty |
| Report.PageLayout | utils.py:243-326 | the page built from optional and fixed parts has each optional section exactly when its part is present |
| Report.LayoutOrdered | utils.py:243-326 | the page's sections follow their fixed order and hold exactly the kinds of their parts |
| Report.SummaryIff | utils.py:249-256 | the Executive Summary section is present exactly when the summary is non-empty, and quotes it |
| Report.InsightsIff | utils.py:131-136 | the Key Insights section is present exactly when the insight list (or markup) is non-empty, and holds its cards (or the markup) |
| Report.RecommendationsIff | utils.py:138-142 | the Recommendations section is present exactly when the list is non-empty, just before the footer, with one card per item |
| Report.RenderCards | utils.py:133-134 | the card loop appends one card per item, in list order |
| Report.CardsInOrder | utils.py:141-142 | card k of the markup is item k's card, between the earlier and the later items' cards |
| Report.CardsHtmlAppend | utils.py:141-142 | the cards of a concatenation are the cards of each part, one after the other |
| Report.CardsEmptyIff | utils.py:139-142 | the card markup is empty exactly when the list is |
| Report.IgnoresVisualizations | utils.py:128 | the report never depends on the visualizations argument |
| Report.ColumnInfo | utils.py:291-296 | the per-column table lists each column's name, dtype, missing count and missing share of the rows (NaN for an empty table), in order; with one cell per row the share lies in [0, 100] and is 0 exactly when no cell is missing |
| Report.CreateReport | utils.py:128-331 | the page has 4 to 7 sections, the header first and the footer last |
| Tables.ValueCountsSpec | utils.py:477 | `value_counts()` lists every present value once with its exact count, most frequent first |
| Tables.CountedPairs | utils.py:477 | a reordering of the distinct values with their counts keeps exact, positive counts and every present value |
| Tables.TopCountIsMaximal | utils.py:58 | the first entry of `value_counts()` is a most frequent value |
| Tables.TopRowsAreTop | utils.py:405 | `sort_values(ascending=False).head(n)` keeps min(n, rows) distinct rows in non-increasing order, and no dropped row ranks higher |
| Tables.PermutationOfRange | utils.py:405 | a reordering of the row positions holds each position exactly once |
| Tables.Distinct | utils.py:470 | the distinct present values, each once |
| Tables.ToDatetime | utils.py:485 | the conversion succeeds exactly when the column is already datetime or every present cell parses, keeping the name, length and missing cells |
| Tables.Filter | utils.py:374 | the filtered columns are exactly the columns that pass the test |
| Tables.FindColumn | utils.py:374 | the position of the column with a given label, or none when no column has it |
| Tables.Frame.SetColumn | utils.py:485 | replaces one column in place and nothing else |
| Ranking.SortDesc | utils.py:405 | the stable descending sort is sorted and a permutation of its input |
| Ranking.Insert | utils.py:405 | inserting into a sorted list keeps it sorted and adds exactly that item |
| App.CapOutliers | app.py:750-766 | counts the values strictly outside the fences, then caps the column in place; with a NaN quartile nothing changes and the count is 0 |
| App.CountOutside | app.py:759-760 | the mask sum is the number of values strictly outside the fences |
| App.OutlierCount | app.py:759-760 | the count of values outside the fences is at most the number of cells |
| App.Capped | app.py:763-764 | capping keeps the length, and a cell is missing afterwards exactly when it was before |
| App.RaiseLowPass | app.py:763 | every value below the lower fence becomes the lower fence, the rest are kept |
| App.LowerHighPass | app.py:764 | every value above the upper fence becomes the upper fence, the rest are kept |
| App.BoundsOrdered | app.py:752-756 | when Q1 <= Q3 the fences lie outside the quartiles, lower below upper |
| App.CappedWithinBounds | app.py:763-764 | after capping, every number lies within the fences, and missing cells stay missing |
| App.CappedChangesOnlyOutliers | app.py:763-764 | a cell changes exactly when it was outside the fences |
| App.CappedIdempotent | app.py:763-764 | capping a second time changes nothing |
| App.OutlierCountIsChanges | app.py:759-764 | the reported count is the number of cells capping changes |
| App.CleaningMethodsOneToOne | app.py:735-740 | the four labels map one-to-one onto drop, mean, median and mode |
| App.DownloadFilenameShape | app.py:1337 | the file name is the title lower-cased with every space an underscore, then ".html" |
| App.DownloadFilename | app.py:1337 | one character per title character, then ".html", with no space before it |
| Agent.ResolveKeySpec | gemini_agent.py:15-25 | a valid environment key is kept; otherwise a `.env` text holding the marker gives the key read from it, and any other case keeps the environment's value |
| Agent.ResolveKeyFromDotenv | gemini_agent.py:15-25 | without a valid environment key, a `.env` text with `GOOGLE_API_KEY=value` on a line makes the key the stripped value |
| Agent.ResolveKey | gemini_agent.py:15-25 | a valid environment key is kept, and any other key it returns is one stripped line |
| Agent.KeyFromDotenv | gemini_agent.py:23-24 | the key read from `.env` is stripped and holds no newline |
| Agent.DotenvRoundTrip | gemini_agent.py:23-24 | a `.env` text with `GOOGLE_API_KEY=value` on a line yields the stripped value |
| Agent.LineAfterMarker | gemini_agent.py:24 | past the marker, the first line is the value when it holds neither a newline nor the marker |
| Agent.GeminiAgent.constructor | gemini_agent.py:30-93 | the agent holds a model exactly when the key is valid and the connection test succeeds |
| Agent.GeminiAgent.GenerateDataSummary | gemini_agent.py:95-118 | without a model, the fixed message; else the reply, or the failure message when the call raised |
| Agent.GeminiAgent.GenerateInsights | gemini_agent.py:120-208 | without a model or when the call raised, the fallback insights; else one insight per split line of the reply |
| Agent.GeminiAgent.SuggestedQuestions | gemini_agent.py:398-452 | without a model, the one general question; the fallback list when the call raised; else the split reply |
| Agent.SplitInsightTextSpec | gemini_agent.py:192-198 | with a newline, every line that is not blank, stripped, in line order, uncapped; without one, the first five non-blank sentences, stripped, in order; no item is empty or holds a newline |
| Agent.SplitInsightText | gemini_agent.py:192-198 | every item is non-empty and stripped |
| Agent.LinesHaveNoNewline | gemini_agent.py:193 | no line of a newline split holds a newline |
| Agent.SplitQuestionTextSpec | gemini_agent.py:423-424 | the first five lines of the reply that are not blank, stripped, in line order, each on one line |
| Agent.SplitQuestionText | gemini_agent.py:423-424 | at most five questions, each non-empty and stripped |
| Agent.FallbackQuestions | gemini_agent.py:429-452 | the fallback branch appends question by question and keeps the first five |
| Agent.FallbackQuestionsSpec | gemini_agent.py:429-452 | 2 to 5 questions, the general one first, average questions for the first two numeric columns, a relationship question exactly when there are two numeric columns, the common-values question on the first categorical column right after them, and the patterns question unless both optional kinds push it past five |
| Agent.FallbackQuestionList | gemini_agent.py:429-452 | 2 to 5 questions, the general one first |
| Agent.BuiltQuestionsLayout | gemini_agent.py:430-450 | the built list's length and the position of each kind of question, the common-values question on the first categorical column second to last when there is one |
| Agent.QuestionsDiffer | gemini_agent.py:432-450 | only relationship questions open with "Is there a relationship", and the patterns question differs from all others |
| Agent.AverageQuestions | gemini_agent.py:437-438 | one average question per numeric column, in order |
| Agent.FallbackInsights | gemini_agent.py:454-487 | the fallback insights, appended part by part |
| Agent.CollectFacts | gemini_agent.py:468-486 | the loop over the first three columns appends what each column yields |
| Agent.FallbackInsightsSpec | gemini_agent.py:454-487 | 2 to 8 items: the shape first, then the missing-values item (a percentage exactly when it is above 0), then ranges about the first three numerical and top values about the first three categorical columns, in that order |
| Agent.FallbackFactsSpec | gemini_agent.py:466-486 | each range is its column's min, max and mean, each top value a most frequent value of its column with its share of the present cells; every one of the first three numerical columns held as numbers gets its range, and every one of the first three categorical columns holding a value gets its top value |
| Agent.FallbackInsightList | gemini_agent.py:454-487 | at least two items, the shape first and the missing-values item second, a percentage exactly when the share is above 0 |
| Agent.GatheredFacts | gemini_agent.py:468-486 | at most one item per column, each about a listed column |
| Agent.GatheredHas | gemini_agent.py:468-486 | what the loop yields for a listed column is among the gathered items |
| Agent.RangeFactsSpec | gemini_agent.py:468-476 | at most one range per listed numerical column, each naming one and holding its min, max and mean; every listed column the table holds as numbers gets its range |
| Agent.TopFactSpec | gemini_agent.py:480-486 | a categorical column yields its top value exactly when it holds a value: a most frequent value, with its count over the present cells times 100 |
| Agent.TopFactsSpec | gemini_agent.py:479-486 | each top-value item names a listed column, one of its most frequent values and its share; every listed column holding a value gets one |
| Agent.TopValue | gemini_agent.py:482-483 | the top value is the first of `value_counts()` with its count over the present cells times 100, absent exactly when the column has no present value |
| Agent.FallbackPartsInOrder | gemini_agent.py:456-486 | the four parts put together are in stage order and name only their own columns |
| Text.IndexOf | gemini_agent.py:23-24 | the first occurrence of a substring, none exactly when it does not occur |
| Text.ContainsIff | utils.py:366 | `sub in s` holds exactly when some window of s equals sub |
| Text.JoinSplit | gemini_agent.py:193 | splitting and joining with the same separator gives the text back |
| Text.SplitPiecesAreFree | gemini_agent.py:24 | no piece of a split holds the separator |
| Text.StripIsTrim | gemini_agent.py:193 | `strip()` removes exactly the surrounding whitespace (Python's whitespace characters, Unicode ones included) and keeps the middle |
| Text.StrippedNonEmpty | gemini_agent.py:193 | the kept items are non-empty and stripped, at most one per part |
| Text.NonEmptyImagesSpec | gemini_agent.py:193 | `[f(p) for p in parts if f(p)]` is the image of each part whose image is non-empty, each exactly once, in part order |
| Text.FirstBreak | gemini_agent.py:197 | the first position at or after a start where end punctuation is followed by a `\s` character, none exactly when there is no such position |
| Text.SentencesHaveNoBreak | gemini_agent.py:197 | no sentence of the sentence split holds a further break |
| Text.SentencesKeepChar | gemini_agent.py:197 | a text without a character splits into sentences without it |
| Text.Lower | utils.py:362 | `lower()` keeps the length and lower-cases each ASCII letter |

## Findings

| source | as written | input that shows it | evidently intended | confidence | as-written member | corrected member |
|---|---|---|---|---|---|---|
| utils.py:402 | `numeric_cols and "highest" in query or "top" in query` parses as `(numeric_cols and "highest" in query) or "top" in query`, so "top" with no numeric matched column takes the branch and `numeric_cols[0]` raises IndexError | the question "top" on a table whose only column is an object column named "top" | `numeric_cols and ("highest" in query or "top" in query)`: with no numeric column, fall to the value counts of the first non-numeric column | not executed | Query.TopWithoutNumericRaises | Query.IntendedAgreesWhereSourceAnswers |

`Query.Interpret` models the code as written. `Query.InterpretIntended` is
the corrected interpreter. The corrected one never raises, and it agrees
with the source wherever the source answers. Where the source raises, it
answers with the top five value counts of the first non-numeric matched
column.

## Left out

- The Streamlit page, its CSS, tabs, spinners and session state, and the
  `process_message` regex formatter: presentation only, with no stated contract.
- Gemini API calls: client configuration, model creation, the connectivity
  test, safety settings, prompt text and `answer_question`. Each reply is a
  parameter, and the constructor's `connects` stands for the calls in
  `__init__` succeeding.
- Reading the `.env` file and the process environment: their contents are
  parameters of `Agent.ResolveKey`.
- Floating-point kernels (mean, median, min, max, skew, quantile, Pearson
  r): these are given functions. `:.2f` formatting and `round(..., 2)` are
  not modelled, so percentages are exact ratios.
- `read_file`, `normalize_data`, `fix_dataframe_for_arrow`,
  `plot_time_series` and `plot_bar_chart`: file I/O, sklearn scalers and
  plotting wrappers.
- Figures are chart specs, not plotly objects. The report is a sequence of
  sections and card markup, without the HTML styling, `df.head(5)`,
  `describe()` or the `datetime.now()` timestamp.
- `str.lower()` is modelled on ASCII letters only. `strip()` and the `\s` of
  the sentence split use Python's full whitespace set.
- Duplicate column labels: every table is assumed to have distinct labels,
  where pandas would return several columns for one label.
- Tables.ValueCountsSpec: orders tied counts by first appearance. pandas does not promise an order among ties.
- Tables.TopRowsAreTop: `sort_values` is modelled by a stable sort, so tied rows keep table order. pandas' default quicksort is not stable, so which tied rows enter the top five (utils.py:405) is unspecified there.
- Report.CreateReport: never fails. `df.describe()` (utils.py:305) raises ValueError on a table with no columns, and the model does not render the summary statistics.
- Agent.FallbackInsightList: tests the unrounded missing share. The profile rounds it to two decimals first (utils.py:33) and the fallback tests that (gemini_agent.py:462), so a share below 0.005% reads "no missing values" in the source.
- Report.ColumnInfo: the missing share is exact; the source rounds it to two decimals (utils.py:295).
- Cleaning.ModeFillsMostFrequent: fills with the first entry of `value_counts()`. Among tied values, `mode()[0]` picks the smallest in sort order instead.
- Cleaning.FillStep: keeps the column's dtype after filling. pandas may change it, for example to float after filling an integer column.
- Agent.RangeFactsSpec: treats a listed numerical column whose dtype is no longer numeric as raising, and the model skips it.
- Insights.PairInsightsSpec: correlation on a date-named numeric column that was converted in place is a given input like any other.
- The outlier selectbox returning no column (no numeric column) raises a KeyError in the page. `App.CapOutliers` requires a numeric column instead.
