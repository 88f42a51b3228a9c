/**
 * The chart service: picks a chart kind and its axes from the first result
 * row and the user's question, then hands the choice to the plotting
 * library and returns the URL of the saved chart page.
 *
 * The choice is an ordered rule table, first match wins:
 *   1. exactly one column, and it is numeric          -> histogram of it;
 *   2. at least one numeric and one textual column    -> bar or line chart,
 *      first textual column against first numeric column;
 *   3. at least two numeric and no textual column     -> scatter or bar chart,
 *      second numeric column against first numeric column;
 *   4. anything else, or an empty x column name       -> no chart.
 */
module ChartService {
  import opened Data
  import opened Text

  /** How a column is read from the type of its value in the first row. */
  datatype ColumnClass = Numeric | Textual | Untyped

  /**
   * `isinstance(v, (int, float))` is numeric, and Python's `bool` is a
   * subclass of `int`, so booleans are numeric too; `isinstance(v, str)` is
   * textual; every other type is neither.
   */
  function Classify(v: Value): ColumnClass {
    match v
    case IntVal(_) => Numeric
    case FloatVal(_) => Numeric
    case BoolVal(_) => Numeric
    case StrVal(_) => Textual
    case NoneVal => Untyped
    case OtherVal(_) => Untyped
  }

  /** The names of the columns of class `c`, in the row's key order. */
  function ColumnsOf(row: Row, c: ColumnClass): (cols: seq<string>)
    ensures |cols| <= |row|
    // every listed name is the name of a column of class `c`
    ensures forall k | 0 <= k < |cols| :: exists j | 0 <= j < |row| :: row[j].0 == cols[k] && Classify(row[j].1) == c
    decreases |row|
  {
    if |row| == 0 then []
    else (if Classify(row[0].1) == c then [row[0].0] else []) + ColumnsOf(row[1..], c)
  }

  /** Column `i` is the leftmost column of class `c`. */
  predicate IsFirstOf(row: Row, c: ColumnClass, i: int) {
    0 <= i < |row| && Classify(row[i].1) == c && forall j | 0 <= j < i :: Classify(row[j].1) != c
  }

  /**
   * The list of class-`c` columns starts with the leftmost such column and
   * continues with those to its right; applied twice it names the second.
   */
  lemma {:induction false} ColumnsOfFromFirst(row: Row, c: ColumnClass, i: int)
    requires IsFirstOf(row, c, i)
    ensures ColumnsOf(row, c) == [row[i].0] + ColumnsOf(row[i + 1..], c)
    decreases |row|
  {
    if i > 0 {
      assert IsFirstOf(row[1..], c, i - 1);
      ColumnsOfFromFirst(row[1..], c, i - 1);
      assert row[1..][i..] == row[i + 1..];
    }
  }

  /** The list of class-`c` columns is empty exactly when no column has class `c`. */
  lemma {:induction false} ColumnsOfEmpty(row: Row, c: ColumnClass)
    ensures ColumnsOf(row, c) == [] <==> forall j | 0 <= j < |row| :: Classify(row[j].1) != c
    decreases |row|
  {
    if |row| > 0 {
      ColumnsOfEmpty(row[1..], c);
      assert forall j | 1 <= j < |row| :: row[j] == row[1..][j - 1];
    }
  }

  const GroupingKeywords: seq<string> := ["distribution", "count by", "group by", "average of", "sum of"]
  const TrendKeywords: seq<string> := ["trend", "over time"]
  const ScatterKeywords: seq<string> := ["scatter", "correlation"]

  /** The lower-cased question contains one of the keywords. */
  predicate MentionsAny(question: string, keywords: seq<string>) {
    exists k | 0 <= k < |keywords| :: Contains(Lower(question), keywords[k])
  }

  datatype ChartKind = Histogram | Bar | Line | Scatter

  /** A chart choice: its kind, the x column, and the y column if the kind uses one. */
  datatype ChartSpec = ChartSpec(kind: ChartKind, x: string, y: Option<string>)

  /** The chart kind and axis selection of `generate_chart_html`. */
  function SelectChart(rows: seq<Row>, question: string): (r: Option<ChartSpec>)
    // no rows, or a first row without columns: no chart
    ensures |rows| == 0 || |rows[0]| == 0 ==> r.None?
    // x is essential: a chosen chart always names an x column
    ensures r.Some? ==> r.value.x != ""
    // rule 1: the only column is numeric
    ensures |rows| > 0 && |rows[0]| == 1 && Classify(rows[0][0].1) == Numeric ==>
      r == (if rows[0][0].0 != "" then Some(ChartSpec(Histogram, rows[0][0].0, None)) else None)
    // rule 2: numeric and textual columns
    ensures |rows| > 0 && |ColumnsOf(rows[0], Numeric)| >= 1 && |ColumnsOf(rows[0], Textual)| >= 1 ==>
      && (r.Some? <==> ColumnsOf(rows[0], Textual)[0] != "")
      && (r.Some? ==>
            && r.value.x == ColumnsOf(rows[0], Textual)[0]
            && r.value.y == Some(ColumnsOf(rows[0], Numeric)[0])
            && (r.value.kind == Bar || r.value.kind == Line)
            && (r.value.kind == Line <==>
                  MentionsAny(question, TrendKeywords) && !MentionsAny(question, GroupingKeywords)))
    // rule 3: several numeric columns and no textual one
    ensures |rows| > 0 && |ColumnsOf(rows[0], Numeric)| >= 2 && |ColumnsOf(rows[0], Textual)| == 0 ==>
      && (r.Some? <==> ColumnsOf(rows[0], Numeric)[1] != "")
      && (r.Some? ==>
            && r.value.x == ColumnsOf(rows[0], Numeric)[1]
            && r.value.y == Some(ColumnsOf(rows[0], Numeric)[0])
            && (r.value.kind == Scatter || r.value.kind == Bar)
            && (r.value.kind == Scatter <==> MentionsAny(question, ScatterKeywords)))
    // rule 4: no rule applies
    ensures r.Some? ==>
      |rows| > 0 &&
      ((|rows[0]| == 1 && Classify(rows[0][0].1) == Numeric) ||
       (|ColumnsOf(rows[0], Numeric)| >= 1 && |ColumnsOf(rows[0], Textual)| >= 1) ||
       (|ColumnsOf(rows[0], Numeric)| >= 2 && |ColumnsOf(rows[0], Textual)| == 0))
  {
    if |rows| == 0 || |rows[0]| == 0 then None
    else
      var row := rows[0];
      var numeric := ColumnsOf(row, Numeric);
      var textual := ColumnsOf(row, Textual);
      assert |row| == 1 ==> numeric == (if Classify(row[0].1) == Numeric then [row[0].0] else []);
      var pick :=
        if |row| == 1 && |numeric| > 0 then
          Some(ChartSpec(Histogram, numeric[0], None))
        else if |numeric| >= 1 && |textual| >= 1 then
          var kind :=
            if MentionsAny(question, GroupingKeywords) then Bar
            else if MentionsAny(question, TrendKeywords) then Line
            else Bar;
          Some(ChartSpec(kind, textual[0], Some(numeric[0])))
        else if |numeric| >= 2 then
          var kind := if MentionsAny(question, ScatterKeywords) then Scatter else Bar;
          Some(ChartSpec(kind, numeric[1], Some(numeric[0])))
        else None;
      if pick.Some? && pick.value.x != "" then pick else None
  }

  /** The selection depends on the question only through its lower-cased form. */
  lemma SelectChartIgnoresCase(rows: seq<Row>, q1: string, q2: string)
    requires Lower(q1) == Lower(q2)
    ensures SelectChart(rows, q1) == SelectChart(rows, q2)
  {
    assert forall ks :: MentionsAny(q1, ks) == MentionsAny(q2, ks);
  }

  /* The cases exercised by the service's own test block. */

  lemma ChartExampleNoRows()
    ensures SelectChart([], "any query") == None
  {
  }

  lemma ChartExampleTextOnly()
    ensures SelectChart([[("name", StrVal("alpha"))], [("name", StrVal("beta"))]], "any query") == None
  {
  }

  /** The service's sample: ten rows scoring 85, then five scoring 90. */
  lemma ChartExampleHistogram()
    ensures
      var rows := seq(10, _ => [("score", IntVal(85))]) + seq(5, _ => [("score", IntVal(90))]);
      SelectChart(rows, "show distribution of score") == Some(ChartSpec(Histogram, "score", None))
  {
    var rows := seq(10, _ => [("score", IntVal(85))]) + seq(5, _ => [("score", IntVal(90))]);
    assert rows[0] == [("score", IntVal(85))];
  }

  /** A keyword found at a position of the lower-cased question counts as mentioned. */
  lemma MentionedAt(question: string, keywords: seq<string>, k: int, i: int)
    requires 0 <= k < |keywords| && OccursAt(Lower(question), keywords[k], i)
    ensures MentionsAny(question, keywords)
  {
    ContainsIff(Lower(question), keywords[k]);
  }

  /** A question mentions a keyword list when a lower-case keyword of it sits at some position. */
  lemma MentionedSlice(q: string, keywords: seq<string>, k: int, i: int)
    requires 0 <= k < |keywords| && Lower(keywords[k]) == keywords[k]
    requires 0 <= i <= i + |keywords[k]| <= |q| && q[i..i + |keywords[k]|] == keywords[k]
    ensures MentionsAny(q, keywords)
  {
    var b := keywords[k];
    assert forall j | 0 <= j < |b| :: Lower(q)[i + j] == Lower(b)[j];
    assert Lower(q)[i..i + |b|] == b;
    MentionedAt(q, keywords, k, i);
  }

  /** A question misses every keyword that has a letter its lower-cased form lacks. */
  lemma NotMentioned(question: string, keywords: seq<string>, missing: seq<char>)
    requires |missing| == |keywords|
    requires forall k | 0 <= k < |keywords| :: missing[k] in keywords[k] && missing[k] !in Lower(question)
    ensures !MentionsAny(question, keywords)
  {
    forall k | 0 <= k < |keywords|
      ensures !Contains(Lower(question), keywords[k])
    {
      if Contains(Lower(question), keywords[k]) {
        ContainedChars(Lower(question), keywords[k], missing[k]);
      }
    }
  }

  /* For the sample rows, the rule picked by any question with the right keywords. */

  lemma CategoryValueRows(q: string)
    requires MentionsAny(q, GroupingKeywords)
    ensures SelectChart([[("category", StrVal("A")), ("value", IntVal(30))],
                         [("category", StrVal("B")), ("value", IntVal(50))]], q)
            == Some(ChartSpec(Bar, "category", Some("value")))
  {
    var row := [("category", StrVal("A")), ("value", IntVal(30))];
    assert ColumnsOf(row, Numeric) == ["value"];
    assert ColumnsOf(row, Textual) == ["category"];
  }

  lemma DateMetricRows(q: string)
    requires MentionsAny(q, TrendKeywords) && !MentionsAny(q, GroupingKeywords)
    ensures SelectChart([[("date", StrVal("2023-01-01")), ("metric", IntVal(100))],
                         [("date", StrVal("2023-01-02")), ("metric", IntVal(120))]], q)
            == Some(ChartSpec(Line, "date", Some("metric")))
  {
    var row := [("date", StrVal("2023-01-01")), ("metric", IntVal(100))];
    assert ColumnsOf(row, Numeric) == ["metric"];
    assert ColumnsOf(row, Textual) == ["date"];
  }

  lemma TwoNumberRows(q: string)
    requires MentionsAny(q, ScatterKeywords)
    ensures SelectChart([[("x_val", IntVal(0)), ("y_val", IntVal(3))]], q)
            == Some(ChartSpec(Scatter, "y_val", Some("x_val")))
  {
    var row := [("x_val", IntVal(0)), ("y_val", IntVal(3))];
    assert ColumnsOf(row, Numeric) == ["x_val", "y_val"];
    assert ColumnsOf(row, Textual) == [];
  }

  lemma CountByMentionsGrouping()
    ensures MentionsAny("show count by category", GroupingKeywords)
  {
    var q := "show count by category";
    assert q[5..13] == "count by";
    MentionedSlice(q, GroupingKeywords, 1, 5);
  }

  lemma ChartExampleBar()
    ensures SelectChart([[("category", StrVal("A")), ("value", IntVal(30))],
                         [("category", StrVal("B")), ("value", IntVal(50))]], "show count by category")
            == Some(ChartSpec(Bar, "category", Some("value")))
  {
    CountByMentionsGrouping();
    CategoryValueRows("show count by category");
  }

  lemma OverTimeMentionsTrend()
    ensures MentionsAny("show metric over time", TrendKeywords)
  {
    var q := "show metric over time";
    assert forall j | 0 <= j < 9 :: q[12 + j] == "over time"[j];
    assert q[12..21] == "over time";
    MentionedSlice(q, TrendKeywords, 1, 12);
  }

  lemma OverTimeMissesGrouping()
    ensures !MentionsAny("show metric over time", GroupingKeywords)
  {
    var q := "show metric over time";
    assert Lower(q) == q by {
      LowerAppend("show metric ", "over time");
      assert "show metric " + "over time" == q;
    }
    NotMentioned(q, GroupingKeywords, ['d', 'n', 'g', 'a', 'u']);
  }

  lemma ChartExampleLine()
    ensures SelectChart([[("date", StrVal("2023-01-01")), ("metric", IntVal(100))],
                         [("date", StrVal("2023-01-02")), ("metric", IntVal(120))]], "show metric over time")
            == Some(ChartSpec(Line, "date", Some("metric")))
  {
    OverTimeMentionsTrend();
    OverTimeMissesGrouping();
    DateMetricRows("show metric over time");
  }

  lemma CorrelationMentionsScatter()
    ensures MentionsAny("show correlation of y_val vs x_val", ScatterKeywords)
  {
    var q := "show correlation of y_val vs x_val";
    assert forall j | 0 <= j < 11 :: q[5 + j] == "correlation"[j];
    assert q[5..16] == "correlation";
    MentionedSlice(q, ScatterKeywords, 1, 5);
  }

  lemma ChartExampleScatter()
    ensures SelectChart([[("x_val", IntVal(0)), ("y_val", IntVal(3))]], "show correlation of y_val vs x_val")
            == Some(ChartSpec(Scatter, "y_val", Some("x_val")))
  {
    CorrelationMentionsScatter();
    TwoNumberRows("show correlation of y_val vs x_val");
  }

  /** Whether the plotting step can draw the choice: every kind but the histogram needs a y column. */
  predicate Drawable(spec: ChartSpec) {
    spec.kind == Histogram || Truthy(spec.y)
  }

  /** What the plotting and file-writing step produced: the random hex file stem, or an exception. */
  datatype RenderOutcome = Rendered(hex: string) | RenderFailed

  const UrlPrefix := "/static/chart_"
  const UrlSuffix := ".html"

  /** The URL under which a saved chart page is served. */
  function ChartUrl(hex: string): (url: string)
    ensures StartsWith(url, UrlPrefix) && EndsWith(url, UrlSuffix)
    ensures |url| == |UrlPrefix| + |hex| + |UrlSuffix|
    ensures url[|UrlPrefix|..|url| - |UrlSuffix|] == hex
  {
    UrlPrefix + hex + UrlSuffix
  }

  /** Two chart pages share a URL only if they share a file stem. */
  lemma ChartUrlInjective(h1: string, h2: string)
    requires ChartUrl(h1) == ChartUrl(h2)
    ensures h1 == h2
  {
    var u := ChartUrl(h1);
    assert h1 == u[|UrlPrefix|..|u| - |UrlSuffix|];
  }

  /**
   * `generate_chart_html`: a URL comes back exactly when there are rows,
   * the static directory exists (or could be created), a chart was chosen
   * and can be drawn, and rendering succeeded.
   */
  function GenerateChartHtml(rows: seq<Row>, question: string, staticDirReady: bool, render: RenderOutcome)
    : (r: Option<string>)
    ensures r.Some? <==>
      && |rows| > 0
      && staticDirReady
      && SelectChart(rows, question).Some?
      && Drawable(SelectChart(rows, question).value)
      && render.Rendered?
    ensures r.Some? ==> r.value == ChartUrl(render.hex)
  {
    if |rows| == 0 || !staticDirReady then None
    else
      var choice := SelectChart(rows, question);
      if choice.None? || !Drawable(choice.value) then None
      else
        match render
        case RenderFailed => None
        case Rendered(hex) => Some(ChartUrl(hex))
  }
}
