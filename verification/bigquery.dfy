/**
 * The query executor of the warehouse service (`execute_query`): a
 * configuration guard, substitution of the organization placeholder, a
 * default cap of ten rows, and the mapping of failures to one message.
 *
 * The warehouse client is not modelled: its construction is an input
 * outcome, and running a statement is a function from the SQL text that is
 * sent to what the job produced.
 */
module BigQueryService {
  import opened Data
  import opened Text

  /** The token the generated SQL carries where the organization id belongs. */
  const Placeholder := "{organization_id}"

  /** How many rows a statement without a limit clause may return. */
  const RowCap := 10

  const ConfigError := "Configuration error: BIGQUERY_PROJECT_ID not set. Please check environment variables."
  const ClientErrorPrefix := "Failed to initialize BigQuery client: "
  const SyntaxErrorPrefix := "SQL Syntax error in the generated query: "
  const ExecutionErrorPrefix := "Error executing BigQuery query: "
  const UnexpectedErrorPrefix := "An unexpected error occurred while processing your request: "

  /** Constructing the client either succeeds or raises with a message. */
  datatype ClientInit = ClientReady | ClientFailed(reason: string)

  /**
   * What running one statement produced: the rows, a cloud API error with
   * its text, or any other exception with its text.
   */
  datatype JobOutcome = JobRows(rows: seq<Row>) | CloudError(detail: string) | OtherError(message: string)

  /** The `(results, error_message)` pair that `execute_query` returns. */
  datatype QueryResult = QueryResult(rows: Option<seq<Row>>, error: Option<string>)

  /**
   * The statement that is sent: the generated SQL with every occurrence of
   * the placeholder, found left to right without overlap, replaced by the
   * organization id; a statement without the placeholder is sent as it is.
   */
  function ParameterizeSql(sql: string, organizationId: string): (r: string)
    ensures !Contains(sql, Placeholder) ==> r == sql
    ensures r == Join(Split(sql, Placeholder), organizationId)
  {
    ReplaceIsJoinOfSplit(sql, Placeholder, organizationId);
    if !Contains(sql, Placeholder) then
      ReplaceAbsent(sql, Placeholder, organizationId);
      sql
    else Replace(sql, Placeholder, organizationId)
  }

  /**
   * The placeholder splits the SQL into pieces none of which holds it; the
   * SQL is those pieces joined by the placeholder and the sent statement is
   * the same pieces joined by the organization id.
   */
  lemma ParameterizeSqlPieces(sql: string, organizationId: string)
    ensures Join(Split(sql, Placeholder), Placeholder) == sql
    ensures ParameterizeSql(sql, organizationId) == Join(Split(sql, Placeholder), organizationId)
    ensures forall k | 0 <= k < |Split(sql, Placeholder)| :: !Contains(Split(sql, Placeholder)[k], Placeholder)
  {
    SplitJoinRoundTrip(sql, Placeholder);
    SplitPiecesAvoidSeparator(sql, Placeholder);
  }

  /**
   * Substitution does not guarantee a placeholder-free statement: the
   * replacement text can complete a placeholder with the text around it,
   * as "{organization_{organization_id}}" with the id "id" shows.
   */
  lemma PlaceholderCanReappear()
    ensures ParameterizeSql("{organization_" + Placeholder + "}", "id") == Placeholder
  {
    var pre := "{organization_";
    var sql := pre + (Placeholder + "}");
    assert sql == pre + Placeholder + "}";
    forall i | 0 <= i < |pre|
      ensures !StartsWith(sql[i..], Placeholder)
    {
      if i == 0 {
        assert sql[14] != Placeholder[14];
      } else {
        assert sql[i..][0] == pre[i];
      }
    }
    ReplaceBeforeClosedPlaceholder(pre, Placeholder + "}", "id");
    ReplaceIsJoinOfSplit(sql, Placeholder, "id");
    assert pre + "id" + "}" == Placeholder;
  }

  /**
   * Replacing in `pre` followed by `rest`, which is a placeholder and a closing
   * brace, where no occurrence starts inside `pre`: only that final
   * placeholder is replaced.
   */
  lemma {:induction false} ReplaceBeforeClosedPlaceholder(pre: string, rest: string, rep: string)
    requires rest == Placeholder + "}"
    requires forall i | 0 <= i < |pre| :: !StartsWith((pre + rest)[i..], Placeholder)
    ensures Replace(pre + rest, Placeholder, rep) == pre + rep + "}"
    decreases |pre|
  {
    var s := pre + rest;
    if |pre| == 0 {
      assert s == rest;
      assert s[|Placeholder|..] == "}";
      assert !StartsWith("}", Placeholder);
      assert Replace("}", Placeholder, rep) == "}" by {
        assert "}"[1..] == "";
      }
    } else {
      assert !StartsWith(s[0..], Placeholder);
      assert s[0..] == s;
      assert s[1..] == pre[1..] + rest;
      forall i | 0 <= i < |pre[1..]|
        ensures !StartsWith((pre[1..] + rest)[i..], Placeholder)
      {
        assert (pre[1..] + rest)[i..] == s[i + 1..];
      }
      ReplaceBeforeClosedPlaceholder(pre[1..], rest, rep);
      assert [s[0]] + (pre[1..] + rep + "}") == pre + rep + "}";
    }
  }

  /**
   * A statement counts as already limited when "limit" occurs anywhere in
   * its lower-cased text, including inside names such as `credit_limit`.
   */
  predicate AlreadyLimited(sql: string) {
    Contains(Lower(sql), "limit")
  }

  /** The rows handed back: the first ten when the statement was not limited, otherwise all of them. */
  function CapRows(rows: seq<Row>, limited: bool): (r: seq<Row>)
    ensures |r| <= |rows| && r == rows[..|r|]
    ensures |r| == (if !limited && |rows| > RowCap then RowCap else |rows|)
  {
    if !limited && |rows| > RowCap then rows[..RowCap] else rows
  }

  /** The message for a failed job, by the kind of failure. */
  function ErrorMessage(failure: JobOutcome): (msg: string)
    requires !failure.JobRows?
    ensures failure.CloudError? && Contains(failure.detail, "Syntax error") ==>
      msg == SyntaxErrorPrefix + failure.detail
    ensures failure.CloudError? && !Contains(failure.detail, "Syntax error") ==>
      msg == ExecutionErrorPrefix + failure.detail
    ensures failure.OtherError? ==> msg == UnexpectedErrorPrefix + failure.message
  {
    match failure
    case CloudError(detail) =>
      if Contains(detail, "Syntax error") then SyntaxErrorPrefix + detail else ExecutionErrorPrefix + detail
    case OtherError(message) => UnexpectedErrorPrefix + message
  }

  /**
   * `execute_query`. `projectId` is the configured project (absent or empty
   * when unset), `client` the outcome of constructing the client, and
   * `run` what the warehouse does with the statement it is sent.
   */
  function ExecuteQuery(
    projectId: Option<string>, client: ClientInit, sql: string, organizationId: string,
    run: string -> JobOutcome): (r: QueryResult)
    // every return carries exactly one of rows and error
    ensures r.rows.Some? <==> r.error.None?
    // every error message is non-empty
    ensures r.error.Some? ==> |r.error.value| > 0
    // configuration guard: no client, no statement
    ensures !Truthy(projectId) ==> r == QueryResult(None, Some(ConfigError))
    ensures Truthy(projectId) && client.ClientFailed? ==>
      r == QueryResult(None, Some(ClientErrorPrefix + client.reason))
    // rows come back exactly when the parameterized statement ran and produced rows
    ensures r.rows.Some? <==>
      && Truthy(projectId) && client.ClientReady?
      && run(ParameterizeSql(sql, organizationId)).JobRows?
    // the rows are a prefix of what the job produced, capped at ten unless limited
    ensures r.rows.Some? ==>
      var produced := run(ParameterizeSql(sql, organizationId)).rows;
      && |r.rows.value| <= |produced|
      && r.rows.value == produced[..|r.rows.value|]
      && (AlreadyLimited(ParameterizeSql(sql, organizationId)) || |produced| <= RowCap ==>
            r.rows.value == produced)
      && (!AlreadyLimited(ParameterizeSql(sql, organizationId)) && |produced| > RowCap ==>
            |r.rows.value| == RowCap)
    // a failed job is reported through its message
    ensures Truthy(projectId) && client.ClientReady? && !run(ParameterizeSql(sql, organizationId)).JobRows? ==>
      r.error == Some(ErrorMessage(run(ParameterizeSql(sql, organizationId))))
  {
    if !Truthy(projectId) then QueryResult(None, Some(ConfigError))
    else if client.ClientFailed? then QueryResult(None, Some(ClientErrorPrefix + client.reason))
    else
      var statement := ParameterizeSql(sql, organizationId);
      match run(statement)
      case JobRows(rows) => QueryResult(Some(CapRows(rows, AlreadyLimited(statement))), None)
      case failure => QueryResult(None, Some(ErrorMessage(failure)))
  }

  /** A job that returns more than ten rows for an unlimited statement is cut to its first ten. */
  lemma TruncatesUnlimitedResults(
    projectId: Option<string>, sql: string, organizationId: string, run: string -> JobOutcome)
    requires Truthy(projectId)
    requires run(ParameterizeSql(sql, organizationId)).JobRows?
    requires |run(ParameterizeSql(sql, organizationId)).rows| > RowCap
    requires !AlreadyLimited(ParameterizeSql(sql, organizationId))
    ensures ExecuteQuery(projectId, ClientReady, sql, organizationId, run).rows
            == Some(run(ParameterizeSql(sql, organizationId)).rows[..RowCap])
  {
  }
}
