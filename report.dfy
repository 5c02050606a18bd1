/**
  `create_report` (utils.py): the HTML report, modelled as the sequence of
  sections it contains and the card markup of its insight and
  recommendation lists. The styling, the data sample, `describe()` and the
  generation time are not modelled.
 */
module Report {
  import opened Wrappers
  import opened Tables
  import opened Profiling
  import Charts

  /** The `insights` argument: a list of sentences, or markup passed through as it is. */
  datatype InsightsArg = Items(items: seq<string>) | Markup(text: string)

  datatype Section =
    | Header(title: string)
    | ExecutiveSummary(summary: string)
    | Overview(rows: nat, columns: nat, missingPct: Option<real>, numericCount: nat, categoricalCount: nat)
    | DataProfile(columnInfo: seq<(string, Kind, nat, Option<real>)>, numericList: string, categoricalList: string)
    | KeyInsights(body: string)
    | Recommendations(body: string)
    | Footer

  /** The position every kind of section takes in the page. */
  function Rank(s: Section): nat {
    match s
    case Header(_) => 0
    case ExecutiveSummary(_) => 1
    case Overview(_, _, _, _, _) => 2
    case DataProfile(_, _, _) => 3
    case KeyInsights(_) => 4
    case Recommendations(_) => 5
    case Footer => 6
  }

  const InsightCardOpen: string := "<div class=\"insight-card\"><p>"
  const RecommendationCardOpen: string := "<div class=\"recommendation-card\"><p>\U{1F4A1} "
  const CardClose: string := "</p></div>"

  function Card(open: string, item: string): string {
    open + item + CardClose
  }

  /** The cards of a list, one per item, in list order. */
  function CardsHtml(open: string, items: seq<string>): string {
    if items == [] then "" else CardsHtml(open, items[..|items| - 1]) + Card(open, items[|items| - 1])
  }

  /** The loop that appends one card per item to an initially empty string. */
  method RenderCards(open: string, items: seq<string>) returns (html: string)
    ensures html == CardsHtml(open, items)
  {
    html := "";
    var k := 0;
    while k < |items|
      invariant 0 <= k <= |items|
      invariant html == CardsHtml(open, items[..k])
    {
      assert items[..k + 1][..k] == items[..k];
      html := html + Card(open, items[k]);
      k := k + 1;
    }
    assert items[..k] == items;
  }

  /** A column's `Missing %`: its missing cells over `rows`, times 100; None for an empty table (0/0 is NaN). */
  function MissingShare(cells: Cells, rows: nat): Option<real> {
    if rows == 0 then None else Some(MissingCount(cells) as real / rows as real * 100.0)
  }

  /**
    The per-column table of the Data Profile section: name, dtype, number
    of missing cells and their share of the `rows` rows.
   */
  function ColumnInfo(cols: seq<Column>, rows: nat): (r: seq<(string, Kind, nat, Option<real>)>)
    ensures |r| == |cols|
    ensures forall i :: 0 <= i < |cols| ==>
      && r[i].0 == cols[i].name && r[i].1 == cols[i].kind && r[i].2 == MissingCount(cols[i].cells)
      && (r[i].3.None? <==> rows == 0)
      && (r[i].3.Some? ==> r[i].3.value * rows as real == r[i].2 as real * 100.0)
    ensures forall i :: 0 <= i < |cols| && |cols[i].cells| == rows && rows > 0 ==>
      && 0.0 <= r[i].3.value <= 100.0
      && (r[i].3.value == 0.0 <==> None !in cols[i].cells)
  {
    forall i | 0 <= i < |cols| && |cols[i].cells| == rows && rows > 0
      ensures 0.0 <= MissingShare(cols[i].cells, rows).value <= 100.0
      ensures MissingShare(cols[i].cells, rows).value == 0.0 <==> None !in cols[i].cells
    {
      MissingWithinLength(cols[i].cells);
      ShareBounds(MissingCount(cols[i].cells) as real, rows as real);
    }
    seq(|cols|, i requires 0 <= i < |cols| => (cols[i].name, cols[i].kind, MissingCount(cols[i].cells), MissingShare(cols[i].cells, rows)))
  }

  function InsightsHtml(insights: InsightsArg): string {
    match insights
    case Items(items) => CardsHtml(InsightCardOpen, items)
    case Markup(text) => text
  }

  /** The page: header, the optional summary, the two fixed sections, the optional lists, footer. */
  function Layout(title: string, summary: seq<Section>, fixed: seq<Section>, insights: seq<Section>, recommendations: seq<Section>): seq<Section> {
    [Header(title)] + summary + fixed + insights + recommendations + [Footer]
  }

  function SummaryPart(summary: string): seq<Section> {
    if summary != "" then [ExecutiveSummary(summary)] else []
  }

  /** The Dataset Overview and Data Profile sections, always present. */
  function FixedPart(t: Table, profile: Profile): seq<Section> {
    [Overview(profile.rows, profile.columns, profile.missingPct, |profile.numerical|, |profile.categorical|),
     DataProfile(ColumnInfo(t.cols, t.rows), Text.Join(profile.numerical, ", "), Text.Join(profile.categorical, ", "))]
  }

  function InsightsPart(insights: InsightsArg): seq<Section> {
    var html := InsightsHtml(insights);
    if html != "" then [KeyInsights(html)] else []
  }

  function RecommendationsPart(recommendations: seq<string>): seq<Section> {
    var html := if recommendations != [] then CardsHtml(RecommendationCardOpen, recommendations) else "";
    if html != "" then [Recommendations(html)] else []
  }

  /**
    `create_report(df, profile, visualizations, insights, executive_summary,
    recommendations, title)`: a section appears when its markup is not
    empty.
   */
  function CreateReport(t: Table, profile: Profile, visualizations: seq<Charts.Chart>, insights: InsightsArg,
                        summary: string, recommendations: seq<string>, title: string): (r: seq<Section>)
    ensures 4 <= |r| <= 7 && r[0] == Header(title) && r[|r| - 1] == Footer
  {
    Layout(title, SummaryPart(summary), FixedPart(t, profile), InsightsPart(insights), RecommendationsPart(recommendations))
  }

  // ---- properties

  /** Cards of a concatenation are the cards of each part, one after the other. */
  lemma {:induction false} CardsHtmlAppend(open: string, a: seq<string>, b: seq<string>)
    ensures CardsHtml(open, a + b) == CardsHtml(open, a) + CardsHtml(open, b)
    decreases |b|
  {
    if b == [] {
      assert a + b == a;
    } else {
      var init, last := b[..|b| - 1], b[|b| - 1];
      assert (a + b)[..|a + b| - 1] == a + init;
      assert (a + b)[|a + b| - 1] == last;
      assert CardsHtml(open, a + b) == CardsHtml(open, a + init) + Card(open, last);
      assert CardsHtml(open, b) == CardsHtml(open, init) + Card(open, last);
      CardsHtmlAppend(open, a, init);
    }
  }

  /**
    One card per item in input order: the markup of a list is the cards of
    the items before `k`, the card of item `k`, then the cards of the rest.
   */
  lemma CardsInOrder(open: string, items: seq<string>, k: nat)
    requires k < |items|
    ensures CardsHtml(open, items) == CardsHtml(open, items[..k]) + Card(open, items[k]) + CardsHtml(open, items[k + 1..])
  {
    assert items == items[..k] + ([items[k]] + items[k + 1..]);
    CardsHtmlAppend(open, items[..k], [items[k]] + items[k + 1..]);
    CardsHtmlAppend(open, [items[k]], items[k + 1..]);
    assert CardsHtml(open, [items[k]]) == Card(open, items[k]) by {
      assert [items[k]][..0] == [];
    }
  }

  /** With a non-empty card opening, the cards are empty exactly when the list is. */
  lemma {:induction false} CardsEmptyIff(open: string, items: seq<string>)
    requires open != ""
    ensures CardsHtml(open, items) == "" <==> items == []
  {
    if items != [] {
      assert |Card(open, items[|items| - 1])| > 0;
    }
  }

  /** The report holds a section of the given kind. */
  predicate Has(r: seq<Section>, rank: nat) {
    exists i :: 0 <= i < |r| && Rank(r[i]) == rank
  }

  predicate Ordered(r: seq<Section>) {
    forall i, j :: 0 <= i < j < |r| ==> Rank(r[i]) < Rank(r[j])
  }

  predicate RanksWithin(r: seq<Section>, lo: nat, hi: nat) {
    forall i :: 0 <= i < |r| ==> lo <= Rank(r[i]) < hi
  }

  /** Two ordered runs of sections, the first of lower kinds, make an ordered run holding the kinds of both. */
  lemma OrderedAppend(a: seq<Section>, b: seq<Section>, lo: nat, mid: nat, hi: nat)
    requires lo <= mid <= hi
    requires Ordered(a) && RanksWithin(a, lo, mid)
    requires Ordered(b) && RanksWithin(b, mid, hi)
    ensures Ordered(a + b) && RanksWithin(a + b, lo, hi)
    ensures forall k :: Has(a + b, k) <==> Has(a, k) || Has(b, k)
  {
    assert forall i :: 0 <= i < |a| ==> (a + b)[i] == a[i];
    assert forall i :: |a| <= i < |a + b| ==> (a + b)[i] == b[i - |a|];
    forall k ensures Has(a + b, k) <==> Has(a, k) || Has(b, k) {
      if Has(a, k) {
        var i :| 0 <= i < |a| && Rank(a[i]) == k;
        assert (a + b)[i] == a[i];
      }
      if Has(a + b, k) {
        var i :| 0 <= i < |a + b| && Rank((a + b)[i]) == k;
        if i >= |a| {
          assert (a + b)[i] == b[i - |a|];
        }
      }
      if Has(b, k) {
        var i :| 0 <= i < |b| && Rank(b[i]) == k;
        assert (a + b)[|a| + i] == b[i];
      }
    }
  }

  /**
    The page is in the fixed order, header first and footer last, each kind
    of section at most once; it holds the header, the two fixed sections
    and the footer, and an optional section exactly when its part is given.
   */
  lemma LayoutOrdered(title: string, summary: seq<Section>, fixed: seq<Section>, insights: seq<Section>, recommendations: seq<Section>)
    requires |summary| <= 1 && RanksWithin(summary, 1, 2)
    requires Ordered(fixed) && RanksWithin(fixed, 2, 4)
    requires |insights| <= 1 && RanksWithin(insights, 4, 5)
    requires |recommendations| <= 1 && RanksWithin(recommendations, 5, 6)
    ensures var r := Layout(title, summary, fixed, insights, recommendations);
      && Ordered(r)
      && r[0] == Header(title) && r[|r| - 1] == Footer
      && |r| == 2 + |summary| + |fixed| + |insights| + |recommendations|
      && (forall k :: Has(r, k) <==> k == 0 || k == 6 || Has(summary, k) || Has(fixed, k) || Has(insights, k) || Has(recommendations, k))
  {
    var h: seq<Section> := [Header(title)];
    assert Rank(h[0]) == 0;
    assert forall k :: Has(h, k) ==> k == 0;
    OrderedAppend(h, summary, 0, 1, 2);
    OrderedAppend(h + summary, fixed, 0, 2, 4);
    OrderedAppend(h + summary + fixed, insights, 0, 4, 5);
    OrderedAppend(h + summary + fixed + insights, recommendations, 0, 5, 6);
    var f: seq<Section> := [Footer];
    assert Rank(f[0]) == 6;
    assert forall k :: Has(f, k) ==> k == 6;
    OrderedAppend(h + summary + fixed + insights + recommendations, f, 0, 6, 7);
  }

  /**
    The header comes first and the footer last; sections appear in the
    fixed page order, each at most once; the overview and data profile are
    always there, and each optional section is there exactly when its input
    is not empty.
   */
  lemma ReportLayout(t: Table, profile: Profile, visualizations: seq<Charts.Chart>, insights: InsightsArg,
                     summary: string, recommendations: seq<string>, title: string)
    ensures var r := CreateReport(t, profile, visualizations, insights, summary, recommendations, title);
      && 4 <= |r| <= 7
      && r[0] == Header(title) && r[|r| - 1] == Footer
      && Ordered(r)
      && Has(r, 2) && Has(r, 3)
      && (Has(r, 1) <==> summary != "")
      && (Has(r, 4) <==> InsightsHtml(insights) != "")
      && (Has(r, 5) <==> recommendations != [])
  {
    var s, fixed, ins, rec := SummaryPart(summary), FixedPart(t, profile), InsightsPart(insights), RecommendationsPart(recommendations);
    assert CreateReport(t, profile, visualizations, insights, summary, recommendations, title) == Layout(title, s, fixed, ins, rec);
    CardsEmptyIff(RecommendationCardOpen, recommendations);
    assert s != [] <==> summary != "";
    assert ins != [] <==> InsightsHtml(insights) != "";
    assert rec != [] <==> recommendations != [];
    PageLayout(title, s, fixed, ins, rec);
  }

  /** The page built from its parts: what `LayoutOrdered` gives, read off section kind by section kind. */
  lemma PageLayout(title: string, s: seq<Section>, fixed: seq<Section>, ins: seq<Section>, rec: seq<Section>)
    requires |s| <= 1 && (s != [] ==> Rank(s[0]) == 1)
    requires |fixed| == 2 && Rank(fixed[0]) == 2 && Rank(fixed[1]) == 3
    requires |ins| <= 1 && (ins != [] ==> Rank(ins[0]) == 4)
    requires |rec| <= 1 && (rec != [] ==> Rank(rec[0]) == 5)
    ensures var r := Layout(title, s, fixed, ins, rec);
      && 4 <= |r| <= 7
      && r[0] == Header(title) && r[|r| - 1] == Footer
      && Ordered(r)
      && Has(r, 2) && Has(r, 3)
      && (Has(r, 1) <==> s != [])
      && (Has(r, 4) <==> ins != [])
      && (Has(r, 5) <==> rec != [])
  {
    assert Ordered(fixed) && RanksWithin(fixed, 2, 4);
    assert Has(fixed, 2) && Has(fixed, 3);
    OptionalHas(s, 1);
    OptionalHas(ins, 4);
    OptionalHas(rec, 5);
    HasWithin(fixed, 2, 4);
    LayoutOrdered(title, s, fixed, ins, rec);
  }

  /** An optional section of kind `rank` is had exactly when it is there. */
  lemma OptionalHas(r: seq<Section>, rank: nat)
    requires |r| <= 1 && (r != [] ==> Rank(r[0]) == rank)
    ensures RanksWithin(r, rank, rank + 1)
    ensures forall k: nat :: Has(r, k) <==> r != [] && k == rank
  {
  }

  /** A run of sections has only kinds within its bounds. */
  lemma HasWithin(r: seq<Section>, lo: nat, hi: nat)
    requires RanksWithin(r, lo, hi)
    ensures forall k: nat :: Has(r, k) ==> lo <= k < hi
  {
  }

  /** The Executive Summary section appears exactly when the summary is not empty, and quotes it. */
  lemma SummaryIff(t: Table, profile: Profile, visualizations: seq<Charts.Chart>, insights: InsightsArg,
                   summary: string, recommendations: seq<string>, title: string)
    ensures var r := CreateReport(t, profile, visualizations, insights, summary, recommendations, title);
      && (Has(r, 1) <==> summary != "")
      && (summary != "" ==> r[1] == ExecutiveSummary(summary))
  {
    ReportLayout(t, profile, visualizations, insights, summary, recommendations, title);
  }

  /**
    The Key Insights section appears exactly when the list is not empty
    (or, for markup, when the markup is not empty); its body is the cards
    of the list (or the markup itself).
   */
  lemma InsightsIff(t: Table, profile: Profile, visualizations: seq<Charts.Chart>, insights: InsightsArg,
                    summary: string, recommendations: seq<string>, title: string)
    ensures var r := CreateReport(t, profile, visualizations, insights, summary, recommendations, title);
      && (Has(r, 4) <==> (if insights.Items? then insights.items != [] else insights.text != ""))
      && (Has(r, 4) ==> KeyInsights(if insights.Items? then CardsHtml(InsightCardOpen, insights.items) else insights.text) in r)
  {
    CardsEmptyIff(InsightCardOpen, if insights.Items? then insights.items else []);
    ReportLayout(t, profile, visualizations, insights, summary, recommendations, title);
    var s, fixed, ins := SummaryPart(summary), FixedPart(t, profile), InsightsPart(insights);
    var r := CreateReport(t, profile, visualizations, insights, summary, recommendations, title);
    if ins != [] {
      assert r[1 + |s| + |fixed|] == ins[0];
    }
  }

  /** The Recommendations section appears exactly when the list is not empty, just before the footer, with one card per item. */
  lemma RecommendationsIff(t: Table, profile: Profile, visualizations: seq<Charts.Chart>, insights: InsightsArg,
                           summary: string, recommendations: seq<string>, title: string)
    ensures var r := CreateReport(t, profile, visualizations, insights, summary, recommendations, title);
      && (Has(r, 5) <==> recommendations != [])
      && (recommendations != [] ==> r[|r| - 2] == Recommendations(CardsHtml(RecommendationCardOpen, recommendations)))
  {
    ReportLayout(t, profile, visualizations, insights, summary, recommendations, title);
  }

  /** The report never depends on the `visualizations` argument. */
  lemma IgnoresVisualizations(t: Table, profile: Profile, v1: seq<Charts.Chart>, v2: seq<Charts.Chart>, insights: InsightsArg,
                              summary: string, recommendations: seq<string>, title: string)
    ensures CreateReport(t, profile, v1, insights, summary, recommendations, title)
         == CreateReport(t, profile, v2, insights, summary, recommendations, title)
  {
  }
}
