/**
 * The two HTTP endpoints of the backend (`chat` and `handle_explain_sql`)
 * and the request and response records they exchange.
 *
 * The services an endpoint calls are parameters, so the endpoint is the
 * decision table from the services' outcomes to the response fields. A
 * chat also returns the sequence of service calls it made, which says
 * what was executed, with which organization, and what the explainer saw.
 */
module Api {
  import opened Data
  import opened Text
  import opened BigQueryService
  import LlmService

  datatype ChatRequest = ChatRequest(query: string)

  datatype ChatResponse = ChatResponse(
    sqlQuery: Option<string>, explanation: Option<string>, data: Option<seq<Row>>, chartUrl: Option<string>)

  datatype ExplainSqlRequest = ExplainSqlRequest(sqlQuery: string)

  datatype ExplainSqlResponse = ExplainSqlResponse(explanation: Option<string>, error: Option<string>)

  /** The organization every chat is answered for. */
  const OrganizationId := "test_org_123"

  const NoSqlMessage := "Sorry, I couldn't generate a SQL query for your request. Please try rephrasing."
  const NoExplanationWithData := "Query executed and data retrieved, but explanation generation failed."
  const NoExplanationNoData :=
    "Query executed successfully, but no data was returned, and explanation generation failed."
  const ExplainFailedMessage := "Failed to explain SQL query."

  /** The explanation of a chat whose query failed to execute, with the explainer's text when it gave one. */
  function ExecutionFailureText(error: string, explanation: string): string {
    if explanation != "" then "BigQuery Error: " + error + ". \nLLM Explanation: " + explanation
    else "BigQuery Error: " + error + ". Additionally, the explanation generation failed."
  }

  /** One call a chat made to a service, with its arguments. */
  datatype ServiceCall =
    | GenerateSql(question: string, organizationId: string)
    | Execute(sql: string, organizationId: string)
    | DrawChart(rows: seq<Row>, question: string)
    | Explain(question: string, sql: string, results: Option<seq<Row>>)

  datatype ChatOutcome = ChatOutcome(response: ChatResponse, calls: seq<ServiceCall>)

  /**
   * `chat`. `generate` is SQL synthesis, `execute` the query executor,
   * `drawChart` the chart service and `explain` the result explainer, each
   * given the arguments the endpoint passes to it.
   */
  function Chat(
    request: ChatRequest,
    generate: (string, string) -> Option<string>,
    execute: (string, string) -> QueryResult,
    drawChart: (seq<Row>, string) -> Option<string>,
    explain: (string, string, Option<seq<Row>>) -> string): (out: ChatOutcome)
    // generation comes first, and every service that takes an organization gets the fixed one
    ensures |out.calls| > 0 && out.calls[0] == GenerateSql(request.query, OrganizationId)
    ensures forall k | 0 <= k < |out.calls| :: out.calls[k].GenerateSql? || out.calls[k].Execute? ==>
      out.calls[k].organizationId == OrganizationId
    // the response carries the generated SQL itself, not the statement sent with the organization filled in
    ensures out.response.sqlQuery == generate(request.query, OrganizationId)
    ensures out.response.explanation.Some?
    // without SQL nothing is executed, charted or explained
    ensures !Truthy(generate(request.query, OrganizationId)) ==>
      && out.calls == [GenerateSql(request.query, OrganizationId)]
      && out.response == ChatResponse(generate(request.query, OrganizationId), Some(NoSqlMessage), None, None)
    // with SQL, the SQL is executed as generated
    ensures Truthy(generate(request.query, OrganizationId)) ==>
      |out.calls| > 1 && out.calls[1] == Execute(generate(request.query, OrganizationId).value, OrganizationId)
    // an execution error: no data, no chart, the explainer sees no results
    ensures
      var sql := generate(request.query, OrganizationId);
      Truthy(sql) && Truthy(execute(sql.value, OrganizationId).error) ==>
        var error := execute(sql.value, OrganizationId).error.value;
        var text := explain(request.query, sql.value, None);
        && out.calls == [GenerateSql(request.query, OrganizationId), Execute(sql.value, OrganizationId),
                         Explain(request.query, sql.value, None)]
        && out.response.data.None? && out.response.chartUrl.None?
        && out.response.explanation == Some(ExecutionFailureText(error, text))
    // a successful execution: its rows are returned, charted when there are any, and explained
    ensures
      var sql := generate(request.query, OrganizationId);
      Truthy(sql) && !Truthy(execute(sql.value, OrganizationId).error) ==>
        var rows := execute(sql.value, OrganizationId).rows;
        var text := explain(request.query, sql.value, rows);
        && out.response.data == rows
        && |out.calls| == (if HasRows(rows) then 4 else 3)
        && (HasRows(rows) ==>
              && out.calls[2] == DrawChart(rows.value, request.query)
              && out.response.chartUrl == drawChart(rows.value, request.query))
        && (!HasRows(rows) ==> out.response.chartUrl.None?)
        && out.calls[|out.calls| - 1] == Explain(request.query, sql.value, rows)
        && (text != "" ==> out.response.explanation == Some(text))
        && (text == "" && HasRows(rows) ==> out.response.explanation == Some(NoExplanationWithData))
        && (text == "" && !HasRows(rows) ==> out.response.explanation == Some(NoExplanationNoData))
  {
    var question := request.query;
    var sql := generate(question, OrganizationId);
    var asked := [GenerateSql(question, OrganizationId)];
    if !Truthy(sql) then
      ChatOutcome(ChatResponse(sql, Some(NoSqlMessage), None, None), asked)
    else
      var result := execute(sql.value, OrganizationId);
      var ran := asked + [Execute(sql.value, OrganizationId)];
      if Truthy(result.error) then
        var text := explain(question, sql.value, None);
        ChatOutcome(
          ChatResponse(sql, Some(ExecutionFailureText(result.error.value, text)), None, None),
          ran + [Explain(question, sql.value, None)])
      else
        var data := result.rows;
        var charted := if HasRows(data) then ran + [DrawChart(data.value, question)] else ran;
        var chartUrl := if HasRows(data) then drawChart(data.value, question) else None;
        var text := explain(question, sql.value, data);
        var explanation :=
          if text != "" then text
          else if HasRows(data) then NoExplanationWithData
          else NoExplanationNoData;
        ChatOutcome(ChatResponse(sql, Some(explanation), data, chartUrl), charted + [Explain(question, sql.value, data)])
  }

  /** SQL synthesis as the chat endpoint calls it. */
  function SqlService(
    apiKey: Option<string>, retrieve: (string, nat) -> seq<string>,
    complete: LlmService.SqlPrompt -> LlmService.Completion): (string, string) -> Option<string>
  {
    (question, organizationId) => LlmService.GenerateSqlFromQuery(apiKey, question, organizationId, retrieve, complete)
  }

  /** The query executor as the chat endpoint calls it. */
  function QueryService(projectId: Option<string>, client: ClientInit, run: string -> JobOutcome): (string, string) -> QueryResult
  {
    (sql, organizationId) => ExecuteQuery(projectId, client, sql, organizationId, run)
  }

  /** Without a language-model key a chat answers with the apology and touches nothing else. */
  lemma ChatWithoutKey(
    request: ChatRequest, retrieve: (string, nat) -> seq<string>,
    complete: LlmService.SqlPrompt -> LlmService.Completion,
    execute: (string, string) -> QueryResult, drawChart: (seq<Row>, string) -> Option<string>,
    explain: (string, string, Option<seq<Row>>) -> string)
    ensures
      var out := Chat(request, SqlService(None, retrieve, complete), execute, drawChart, explain);
      && out.response == ChatResponse(None, Some(NoSqlMessage), None, None)
      && |out.calls| == 1
  {
    assert SqlService(None, retrieve, complete)(request.query, OrganizationId).None?;
  }

  /** A chat executes at most one statement: the generated SQL, and only when there is one. */
  lemma ChatExecutesGeneratedSql(
    request: ChatRequest, generate: (string, string) -> Option<string>,
    execute: (string, string) -> QueryResult, drawChart: (seq<Row>, string) -> Option<string>,
    explain: (string, string, Option<seq<Row>>) -> string, k: int)
    requires 0 <= k < |Chat(request, generate, execute, drawChart, explain).calls|
    requires Chat(request, generate, execute, drawChart, explain).calls[k].Execute?
    ensures k == 1 && Truthy(generate(request.query, OrganizationId))
    ensures Chat(request, generate, execute, drawChart, explain).calls[k].sql ==
      generate(request.query, OrganizationId).value
  {
  }

  /** Every SQL a chat executes is a cleaned statement that begins with SELECT. */
  lemma ChatExecutesOnlySelect(
    request: ChatRequest, apiKey: Option<string>, retrieve: (string, nat) -> seq<string>,
    complete: LlmService.SqlPrompt -> LlmService.Completion,
    execute: (string, string) -> QueryResult, drawChart: (seq<Row>, string) -> Option<string>,
    explain: (string, string, Option<seq<Row>>) -> string)
    ensures
      var out := Chat(request, SqlService(apiKey, retrieve, complete), execute, drawChart, explain);
      forall k | 0 <= k < |out.calls| && out.calls[k].Execute? ::
        LlmService.IsSelect(out.calls[k].sql) && IsStripped(out.calls[k].sql)
  {
    var generate := SqlService(apiKey, retrieve, complete);
    var sql := generate(request.query, OrganizationId);
    assert sql == LlmService.GenerateSqlFromQuery(apiKey, request.query, OrganizationId, retrieve, complete);
    var out := Chat(request, generate, execute, drawChart, explain);
    forall k | 0 <= k < |out.calls| && out.calls[k].Execute?
      ensures LlmService.IsSelect(out.calls[k].sql) && IsStripped(out.calls[k].sql)
    {
      ChatExecutesGeneratedSql(request, generate, execute, drawChart, explain, k);
    }
  }

  /**
   * A chat whose query has no limit clause returns at most ten rows, the
   * first ones the warehouse produced, and returns them whenever the job
   * produced rows.
   */
  lemma ChatDataCapped(
    request: ChatRequest, generate: (string, string) -> Option<string>,
    projectId: Option<string>, client: ClientInit, run: string -> JobOutcome,
    drawChart: (seq<Row>, string) -> Option<string>, explain: (string, string, Option<seq<Row>>) -> string)
    requires generate(request.query, OrganizationId).Some?
    requires !AlreadyLimited(ParameterizeSql(generate(request.query, OrganizationId).value, OrganizationId))
    ensures
      var out := Chat(request, generate, QueryService(projectId, client, run), drawChart, explain);
      var produced := run(ParameterizeSql(generate(request.query, OrganizationId).value, OrganizationId));
      && (out.response.data.Some? ==>
            && produced.JobRows?
            && |out.response.data.value| <= RowCap
            && out.response.data.value == produced.rows[..|out.response.data.value|])
      // and when the warehouse is configured and the job produced rows, data is returned
      && (Truthy(projectId) && client.ClientReady? && produced.JobRows? &&
          generate(request.query, OrganizationId).value != "" ==>
            && out.response.data.Some?
            && |out.response.data.value| == (if |produced.rows| > RowCap then RowCap else |produced.rows|))
  {
    var sql := generate(request.query, OrganizationId).value;
    var result := QueryService(projectId, client, run)(sql, OrganizationId);
    assert result == ExecuteQuery(projectId, client, sql, OrganizationId, run);
  }

  /**
   * The chat endpoint takes any non-empty explainer text as an
   * explanation, so when the configured provider raises while explaining
   * the rows of a successful query, the explainer's own failure message
   * (which begins with "Error:") is shown to the user as the explanation.
   */
  lemma ChatShowsExplainerFailureAsExplanation(
    request: ChatRequest, generate: (string, string) -> Option<string>,
    execute: (string, string) -> QueryResult, drawChart: (seq<Row>, string) -> Option<string>,
    apiKey: Option<string>, complete: LlmService.ExplanationPrompt -> LlmService.Completion)
    requires Truthy(apiKey)
    requires Truthy(generate(request.query, OrganizationId))
    requires !Truthy(execute(generate(request.query, OrganizationId).value, OrganizationId).error)
    requires
      var sql := generate(request.query, OrganizationId).value;
      var rows := execute(sql, OrganizationId).rows;
      complete(LlmService.ExplanationPrompt(request.query, sql, LlmService.SampleResults(rows))).Raised?
    ensures
      var sql := generate(request.query, OrganizationId).value;
      var rows := execute(sql, OrganizationId).rows;
      var c := complete(LlmService.ExplanationPrompt(request.query, sql, LlmService.SampleResults(rows)));
      var explain := (q, s, rs) => LlmService.GenerateExplanation(apiKey, q, s, rs, complete);
      var out := Chat(request, generate, execute, drawChart, explain);
      && out.response.explanation == Some(LlmService.ExplanationRaisedPrefix + c.message)
      && out.response.data == rows
  {
    var explain := (q, s, rs) => LlmService.GenerateExplanation(apiKey, q, s, rs, complete);
    var sql := generate(request.query, OrganizationId).value;
    var rows := execute(sql, OrganizationId).rows;
    var c := complete(LlmService.ExplanationPrompt(request.query, sql, LlmService.SampleResults(rows)));
    assert explain(request.query, sql, rows) == LlmService.ExplanationRaisedPrefix + c.message;
  }

  /**
   * `handle_explain_sql`: exactly one of the two fields is set. A non-empty
   * text that does not begin with "Error:" is the explanation; one that
   * does is passed on as the error; no text gives a generic error.
   */
  function HandleExplainSql(explained: Option<string>): (r: ExplainSqlResponse)
    ensures r.explanation.Some? <==> r.error.None?
    ensures r.explanation.Some? <==> Truthy(explained) && !StartsWith(explained.value, LlmService.ErrorTag)
    ensures r.explanation.Some? ==> r.explanation == explained
    ensures Truthy(explained) && StartsWith(explained.value, LlmService.ErrorTag) ==> r.error == explained
    ensures !Truthy(explained) ==> r.error == Some(ExplainFailedMessage)
  {
    if Truthy(explained) && !StartsWith(explained.value, LlmService.ErrorTag) then
      ExplainSqlResponse(explained, None)
    else if Truthy(explained) then
      ExplainSqlResponse(None, explained)
    else
      ExplainSqlResponse(None, Some(ExplainFailedMessage))
  }

  /**
   * `handle_explain_sql` with the statement explainer: every failure of the
   * explainer reaches the caller as the error, with the explainer's
   * message unchanged; a successful answer that is not blank and does not
   * itself begin with "Error:" is the explanation; a blank answer gives the
   * generic error, and one beginning with "Error:" is passed on as the error.
   */
  function ExplainSql(
    request: ExplainSqlRequest, apiKey: Option<string>, complete: string -> LlmService.Completion): (r: ExplainSqlResponse)
    ensures r.explanation.Some? <==> r.error.None?
    ensures
      var c := complete(request.sqlQuery);
      && (!LlmService.Succeeded(apiKey, c) ==>
            r == ExplainSqlResponse(None, Some(LlmService.ExplainSqlQuery(apiKey, request.sqlQuery, complete))))
      && (LlmService.Succeeded(apiKey, c) && Strip(c.text) != "" && !StartsWith(Strip(c.text), LlmService.ErrorTag) ==>
            r == ExplainSqlResponse(Some(Strip(c.text)), None))
      // an answer that is only whitespace gives the generic error
      && (LlmService.Succeeded(apiKey, c) && Strip(c.text) == "" ==>
            r == ExplainSqlResponse(None, Some(ExplainFailedMessage)))
      // an answer that itself begins with "Error:" is passed on as the error
      && (LlmService.Succeeded(apiKey, c) && StartsWith(Strip(c.text), LlmService.ErrorTag) ==>
            r == ExplainSqlResponse(None, Some(Strip(c.text))))
      && (!Truthy(apiKey) ==> r.error == Some(LlmService.SqlExplanationNoKey))
  {
    HandleExplainSql(Some(LlmService.ExplainSqlQuery(apiKey, request.sqlQuery, complete)))
  }
}
