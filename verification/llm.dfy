/**
 * The language-model service: SQL synthesis from a question
 * (`generate_sql_from_query`), the explanation of query results
 * (`generate_explanation`) and the explanation of a SQL statement
 * (`explain_sql_query`).
 *
 * The completion provider is not modelled: each call is a function from
 * the inputs of the prompt (the fixed template text is left out) to what
 * the provider answered. Schema retrieval is a function from the question
 * and the number of parts asked for to the parts found.
 */
module LlmService {
  import opened Data
  import opened Text

  /** What one completion call gave back: the response text (possibly empty), or an exception message. */
  datatype Completion = Answered(text: string) | Raised(message: string)

  /** The number of schema parts asked for when synthesizing SQL. */
  const ContextSize := 7

  const FallbackContext :=
    "No specific schema context found. Please rely on general knowledge of common table structures if possible."

  /** The first character of every failure message of the explainers. */
  const ErrorTag := "Error:"

  /**
   * The schema context placed in the SQL prompt: the retrieved parts one
   * per line, in retrieval order, or a fixed sentence when nothing was
   * retrieved. When no part spans several lines the parts can be read back
   * line by line.
   */
  function SchemaContext(parts: seq<string>): (r: string)
    ensures |parts| == 0 ==> r == FallbackContext
    ensures |parts| > 0 ==> r == Join(parts, "\n")
    ensures |parts| > 0 && (forall k | 0 <= k < |parts| :: !Contains(parts[k], "\n")) ==>
      Split(r, "\n") == parts
  {
    if |parts| == 0 then FallbackContext
    else
      LinesRoundTrip(parts);
      Join(parts, "\n")
  }

  /** Parts without a line break, joined line by line, split back into the same parts. */
  lemma LinesRoundTrip(parts: seq<string>)
    requires |parts| > 0
    ensures (forall k | 0 <= k < |parts| :: !Contains(parts[k], "\n")) ==> Split(Join(parts, "\n"), "\n") == parts
  {
    if forall k | 0 <= k < |parts| :: !Contains(parts[k], "\n") {
      JoinSplitRoundTrip(parts, "\n");
    }
  }

  /** What the SQL prompt is filled with. */
  datatype SqlPrompt = SqlPrompt(question: string, context: string, organizationId: string)

  /** The SQL prompt for a question: the question, seven retrieved schema parts, and the organization id. */
  function SqlRequest(question: string, organizationId: string, retrieve: (string, nat) -> seq<string>): SqlPrompt {
    SqlPrompt(question, SchemaContext(retrieve(question, ContextSize)), organizationId)
  }

  const SqlFence := "```sql"
  const Fence := "```"

  /**
   * Strip, drop a leading `open`, drop a trailing `close`, strip again:
   * the cleaning of an answer, for any pair of fence marks.
   */
  function Unfence(text: string, open: string, close: string): (r: string)
    ensures IsStripped(r)
  {
    Strip(DropMarks(Strip(text), open, close))
  }

  /** Drop a leading `open`, then a trailing `close`, when present. */
  function DropMarks(t: string, open: string, close: string): string {
    var unopened := if StartsWith(t, open) then t[|open|..] else t;
    if EndsWith(unopened, close) then unopened[..|unopened| - |close|] else unopened
  }

  /** Fence marks that begin and end with a non-space character. */
  predicate Marks(open: string, close: string) {
    |open| > 0 && !IsSpace(open[0]) && |close| > 0 && !IsSpace(close[|close| - 1])
  }

  /** Unfencing recovers the text between the marks, whatever whitespace surrounds them. */
  lemma UnfenceFenced(pre: string, open: string, ws1: string, q: string, ws2: string, close: string, post: string)
    requires Marks(open, close)
    requires AllSpace(pre) && AllSpace(ws1) && AllSpace(ws2) && AllSpace(post)
    requires IsStripped(q)
    ensures Unfence(pre + open + ws1 + q + ws2 + close + post, open, close) == q
  {
    var m := ws1 + q + ws2;
    var x := open + m + close;
    assert IsStripped(x) by {
      assert x[0] == open[0];
      assert x[|x| - 1] == close[|close| - 1];
    }
    assert pre + open + ws1 + q + ws2 + close + post == pre + x + post;
    StripPadded(pre, x, post);
    DropBothMarks(open, m, close);
    StripPadded(ws1, q, ws2);
  }

  /** Unfencing a marked text without outer whitespace. */
  lemma UnfenceBare(open: string, ws1: string, q: string, ws2: string, close: string)
    requires Marks(open, close)
    requires AllSpace(ws1) && AllSpace(ws2) && IsStripped(q)
    ensures Unfence(open + ws1 + q + ws2 + close, open, close) == q
  {
    var m := ws1 + q + ws2;
    var x := open + m + close;
    assert IsStripped(x) by {
      assert x[0] == open[0];
      assert x[|x| - 1] == close[|close| - 1];
    }
    assert x == open + ws1 + q + ws2 + close;
    StripStripped(x);
    DropBothMarks(open, m, close);
    StripPadded(ws1, q, ws2);
  }

  /** Dropping the marks from a marked text leaves what lies between them. */
  lemma DropBothMarks(open: string, m: string, close: string)
    ensures DropMarks(open + m + close, open, close) == m
  {
    var x := open + m + close;
    assert x[..|open|] == open;
    var unopened := x[|open|..];
    assert unopened == m + close;
    assert unopened[|unopened| - |close|..] == close;
    assert unopened[..|unopened| - |close|] == m;
  }

  /** Unfencing a text that has only the opening mark, such as an answer cut off before its closing fence. */
  lemma UnfenceOpenOnly(pre: string, open: string, ws1: string, q: string, post: string, close: string)
    requires Marks(open, close)
    requires AllSpace(pre) && AllSpace(ws1) && AllSpace(post)
    requires IsStripped(q) && |q| >= |close| && !EndsWith(q, close)
    ensures Unfence(pre + open + ws1 + q + post, open, close) == q
  {
    var x := open + ws1 + q;
    assert IsStripped(x) by {
      assert x[0] == open[0];
      assert x[|x| - 1] == q[|q| - 1];
    }
    assert pre + open + ws1 + q + post == pre + x + post;
    StripPadded(pre, x, post);
    DropOpenMark(open, ws1, q, close);
    assert ws1 + q == ws1 + q + "";
    StripPadded(ws1, q, "");
  }

  /** Dropping the marks from a text that opens but does not close leaves what follows the opening mark. */
  lemma DropOpenMark(open: string, ws1: string, q: string, close: string)
    requires |q| >= |close| && !EndsWith(q, close)
    ensures DropMarks(open + ws1 + q, open, close) == ws1 + q
  {
    var x := open + ws1 + q;
    assert x[..|open|] == open;
    var m := x[|open|..];
    assert m == ws1 + q;
    assert m[|m| - |close|..] == q[|q| - |close|..];
  }

  /** Unfencing a text that has only the closing mark. */
  lemma UnfenceCloseOnly(pre: string, q: string, ws2: string, close: string, post: string, open: string)
    requires Marks(open, close)
    requires AllSpace(pre) && AllSpace(ws2) && AllSpace(post)
    requires IsStripped(q) && |q| >= |open| && !StartsWith(q, open)
    ensures Unfence(pre + q + ws2 + close + post, open, close) == q
  {
    var x := q + ws2 + close;
    assert IsStripped(x) by {
      assert x[0] == q[0];
      assert x[|x| - 1] == close[|close| - 1];
    }
    assert pre + q + ws2 + close + post == pre + x + post;
    StripPadded(pre, x, post);
    DropCloseMark(q, ws2, close, open);
    StripTrailingSpace(q, ws2);
  }

  /** Dropping the marks from a text that closes but does not open leaves what precedes the closing mark. */
  lemma DropCloseMark(q: string, ws2: string, close: string, open: string)
    requires |q| >= |open| && !StartsWith(q, open)
    ensures DropMarks(q + ws2 + close, open, close) == q + ws2
  {
    var x := q + ws2 + close;
    assert x[..|open|] == q[..|open|];
    assert x[|x| - |close|..] == close;
    assert x[..|x| - |close|] == q + ws2;
  }

  /** Unfencing leaves text without the marks as it is, apart from surrounding whitespace. */
  lemma UnfencePlain(pre: string, q: string, post: string, open: string, close: string)
    requires AllSpace(pre) && AllSpace(post)
    requires IsStripped(q) && !StartsWith(q, open) && !EndsWith(q, close)
    ensures Unfence(pre + q + post, open, close) == q
  {
    StripPadded(pre, q, post);
    StripIdempotent(q);
  }

  /**
   * The cleaning of a SQL answer: strip, drop a leading "```sql" (exactly
   * that spelling), drop a trailing "```", strip again.
   */
  function CleanSqlText(text: string): (r: string)
    ensures IsStripped(r)
  {
    Unfence(text, SqlFence, Fence)
  }

  /** Cleaning recovers a statement from a fenced, whitespace-padded answer. */
  lemma CleanFencedSql(pre: string, ws1: string, q: string, ws2: string, post: string)
    requires AllSpace(pre) && AllSpace(ws1) && AllSpace(ws2) && AllSpace(post)
    requires IsStripped(q)
    ensures CleanSqlText(pre + SqlFence + ws1 + q + ws2 + Fence + post) == q
  {
    UnfenceFenced(pre, SqlFence, ws1, q, ws2, Fence, post);
  }

  /** Cleaning recovers a statement from an answer that opens a fence but never closes it. */
  lemma CleanOpenedSql(pre: string, ws1: string, q: string, post: string)
    requires AllSpace(pre) && AllSpace(ws1) && AllSpace(post)
    requires IsStripped(q) && |q| >= |Fence| && !EndsWith(q, Fence)
    ensures CleanSqlText(pre + SqlFence + ws1 + q + post) == q
  {
    UnfenceOpenOnly(pre, SqlFence, ws1, q, post, Fence);
  }

  /** Cleaning recovers a statement from an answer that closes a fence it never opened. */
  lemma CleanClosedSql(pre: string, q: string, ws2: string, post: string)
    requires AllSpace(pre) && AllSpace(ws2) && AllSpace(post)
    requires IsStripped(q) && |q| >= |SqlFence| && !StartsWith(q, SqlFence)
    ensures CleanSqlText(pre + q + ws2 + Fence + post) == q
  {
    UnfenceCloseOnly(pre, q, ws2, Fence, post, SqlFence);
  }

  /** Cleaning leaves an unfenced statement as it is, apart from surrounding whitespace. */
  lemma CleanPlainSql(pre: string, q: string, post: string)
    requires AllSpace(pre) && AllSpace(post)
    requires IsStripped(q) && !StartsWith(q, SqlFence) && !EndsWith(q, Fence)
    ensures CleanSqlText(pre + q + post) == q
  {
    UnfencePlain(pre, q, post, SqlFence, Fence);
  }

  /** The statement begins with "select" in any mix of upper and lower case. */
  predicate IsSelect(sql: string) {
    StartsWith(Lower(sql), "select")
  }

  /** `generate_sql_from_query`. `apiKey` is the configured key (absent or empty when unset). */
  function GenerateSqlFromQuery(
    apiKey: Option<string>, question: string, organizationId: string,
    retrieve: (string, nat) -> seq<string>, complete: SqlPrompt -> Completion): (r: Option<string>)
    ensures !Truthy(apiKey) ==> r.None?
    // only a cleaned statement that begins with SELECT is returned
    ensures r.Some? ==> IsSelect(r.value) && IsStripped(r.value) && |r.value| >= 6
    // it is returned exactly when the provider answered with text that cleans to one
    ensures r.Some? <==>
      && Truthy(apiKey)
      && complete(SqlRequest(question, organizationId, retrieve)).Answered?
      && IsSelect(CleanSqlText(complete(SqlRequest(question, organizationId, retrieve)).text))
    // and it keeps the answer's own casing
    ensures r.Some? ==> r.value == CleanSqlText(complete(SqlRequest(question, organizationId, retrieve)).text)
  {
    if !Truthy(apiKey) then None
    else
      match complete(SqlRequest(question, organizationId, retrieve))
      case Raised(_) => None
      case Answered(text) =>
        if text == "" then None
        else
          var sql := CleanSqlText(text);
          if IsSelect(sql) then Some(sql) else None
  }

  /** A fenced SELECT answer yields the statement between the fences, with its casing. */
  lemma FencedSelectAccepted(
    apiKey: Option<string>, question: string, organizationId: string,
    retrieve: (string, nat) -> seq<string>, complete: SqlPrompt -> Completion,
    ws1: string, q: string, ws2: string)
    requires Truthy(apiKey)
    requires AllSpace(ws1) && AllSpace(ws2) && IsStripped(q) && IsSelect(q)
    requires complete(SqlRequest(question, organizationId, retrieve)) == Answered(SqlFence + ws1 + q + ws2 + Fence)
    ensures GenerateSqlFromQuery(apiKey, question, organizationId, retrieve, complete) == Some(q)
  {
    UnfenceBare(SqlFence, ws1, q, ws2, Fence);
  }

  /** What is shown to the explainer of results: at most three rows, or a "no data" marker. */
  datatype ResultsSample = NoDataReturned | SampleRows(rows: seq<Row>)

  const SampleSize := 3

  /** The sample of `generate_explanation`: the first rows, at most three of them. */
  function SampleResults(results: Option<seq<Row>>): (s: ResultsSample)
    ensures s == NoDataReturned <==> !HasRows(results)
    ensures s.SampleRows? ==>
      && 1 <= |s.rows| <= SampleSize
      && |s.rows| == (if |results.value| < SampleSize then |results.value| else SampleSize)
      && s.rows == results.value[..|s.rows|]
  {
    if !HasRows(results) then NoDataReturned
    else if |results.value| <= SampleSize then SampleRows(results.value)
    else SampleRows(results.value[..SampleSize])
  }

  /** What the result-explanation prompt is filled with. */
  datatype ExplanationPrompt = ExplanationPrompt(question: string, sql: string, sample: ResultsSample)

  /** A completion call succeeded: a key was configured and the provider answered with non-empty text. */
  predicate Succeeded(apiKey: Option<string>, c: Completion) {
    Truthy(apiKey) && c.Answered? && |c.text| > 0
  }

  const ExplanationNoKey := ErrorTag + " Gemini API key not configured. Cannot generate explanation."
  const ExplanationNoText := ErrorTag + " Could not generate an explanation due to an unexpected response from Gemini."
  const ExplanationRaisedPrefix := ErrorTag + " An unexpected error occurred while generating the explanation with Gemini: "

  /**
   * `generate_explanation`: never absent; the stripped answer on success,
   * a message starting with "Error:" on every failure.
   */
  function GenerateExplanation(
    apiKey: Option<string>, question: string, sql: string, results: Option<seq<Row>>,
    complete: ExplanationPrompt -> Completion): (r: string)
    ensures
      var c := complete(ExplanationPrompt(question, sql, SampleResults(results)));
      && (Succeeded(apiKey, c) ==> r == Strip(c.text))
      && (!Succeeded(apiKey, c) ==> StartsWith(r, ErrorTag))
      && (!Truthy(apiKey) ==> r == ExplanationNoKey)
      && (Truthy(apiKey) && c == Answered("") ==> r == ExplanationNoText)
      && (Truthy(apiKey) && c.Raised? ==> r == ExplanationRaisedPrefix + c.message)
  {
    if !Truthy(apiKey) then ExplanationNoKey
    else
      match complete(ExplanationPrompt(question, sql, SampleResults(results)))
      case Raised(message) => ExplanationRaisedPrefix + message
      case Answered(text) => if text == "" then ExplanationNoText else Strip(text)
  }

  const SqlExplanationNoKey := ErrorTag + " Gemini API key not configured. Cannot explain SQL query."
  const SqlExplanationNoText := ErrorTag + " Could not generate an SQL explanation due to an unexpected response from Gemini."
  const SqlExplanationRaisedPrefix :=
    ErrorTag + " An unexpected error occurred while generating the SQL explanation with Gemini: "

  /**
   * `explain_sql_query`: never absent; the stripped answer on success, a
   * message starting with "Error:" on every failure. The prompt is filled
   * with the statement alone.
   */
  function ExplainSqlQuery(apiKey: Option<string>, sql: string, complete: string -> Completion): (r: string)
    ensures
      var c := complete(sql);
      && (Succeeded(apiKey, c) ==> r == Strip(c.text))
      && (!Succeeded(apiKey, c) ==> StartsWith(r, ErrorTag))
      && (!Truthy(apiKey) ==> r == SqlExplanationNoKey)
      && (Truthy(apiKey) && c == Answered("") ==> r == SqlExplanationNoText)
      && (Truthy(apiKey) && c.Raised? ==> r == SqlExplanationRaisedPrefix + c.message)
  {
    if !Truthy(apiKey) then SqlExplanationNoKey
    else
      match complete(sql)
      case Raised(message) => SqlExplanationRaisedPrefix + message
      case Answered(text) => if text == "" then SqlExplanationNoText else Strip(text)
  }
}
