# Natural-language-to-SQL chat backend, modelled in Dafny

This project models the decision logic of a chat backend. The backend turns
a user's question into a BigQuery SELECT statement, runs the statement for one
organization, and answers with:

- the rows;
- a plain-language explanation;
- optionally, the URL of a chart.

Around the external services (the Gemini language model and embedder, a
Chroma vector store, BigQuery, Plotly) it keeps small deterministic rules. The
Dafny modules state and prove those rules:

| file | module | models |
|---|---|---|
| `data.dfy` | `Data` | Python `X \| None`, warehouse cell values, rows as ordered column/value pairs, Python truthiness |
| `text.dfy` | `Text` | `str.strip`, `str.lower`, `startswith`/`endswith`, `in`, `str.replace`, `str.split`, `str.join` over ASCII |
| `chart.dfy` | `ChartService` | chart kind and axis selection of `generate_chart_html`, and the URL of the saved page |
| `bigquery.dfy` | `BigQueryService` | `execute_query`: configuration guard, `{organization_id}` substitution, ten-row cap, error messages |
| `llm.dfy` | `LlmService` | `generate_sql_from_query` (schema context, fence cleaning, SELECT check), `generate_explanation`, `explain_sql_query` |
| `vector_store.dfy` | `VectorStoreService` | schema documents, idempotent `initialize_schema_vector_db`, `query_schema` |
| `api.dfy` | `Api` | the `/api/chat` and `/api/explain-sql` endpoints and their request/response records |

Every external call is a parameter:

- A completion call is a function from the prompt's inputs to `Answered(text)` or `Raised(message)`.
- A warehouse job is a function from the statement sent to rows, a cloud error or another exception.
- An embedder is a function from texts to vectors, or `None`.
- The vector store's search is a function to an outcome.

The endpoints take the services as functions. `Chat` also returns the list of
service calls it made, so "nothing is executed", "the explainer is given no
results" and "the organization is always `test_org_123`" are stated about that
list.

The chart rule that picks two numeric columns uses the first one as y and the
second as x. For the service's own scatter sample, whose keys are `x_val`
then `y_val`, the chart therefore plots `y_val` along x (`ChartExampleScatter`).

Two behaviours are easy to misread, so they are stated as proved properties:

- Substitution of the organization id can rebuild the placeholder from the surrounding text (`PlaceholderCanReappear`).
- When the configured language model raises while explaining the rows of a successful query, the chat endpoint shows the explainer's "Error: ..." message as the explanation (`ChatShowsExplainerFailureAsExplanation`).

## Model

| member | source | states |
|---|---|---|
| `Text.Strip` | ai_chatbot_project/backend/services/llm_service.py:102 | `strip()` returns a slice of its input with only whitespace cut from either end, and leaves no whitespace at either end |
| `Text.StripPadded` | ai_chatbot_project/backend/services/llm_service.py:109 | stripping recovers any already-stripped text exactly from whitespace padding on both sides |
| `Text.ContainsIff` | ai_chatbot_project/backend/services/bigquery_service.py:64 | the left-to-right `in` scan holds exactly when the needle occurs at some position |
| `Text.ReplaceIsJoinOfSplit` | ai_chatbot_project/backend/services/bigquery_service.py:47 | `s.replace(p, r)` equals `r.join(s.split(p))`, Python's non-overlapping left-to-right replacement |
| `Text.SplitJoinRoundTrip` | ai_chatbot_project/backend/services/bigquery_service.py:47 | joining the pieces of a split with the separator rebuilds the string |
| `Text.SplitPiecesAvoidSeparator` | ai_chatbot_project/backend/services/bigquery_service.py:47 | no piece of a split contains the separator |
| `Text.JoinSplitRoundTrip` | ai_chatbot_project/backend/services/llm_service.py:84 | parts with no newline, joined by newlines, split back into the same parts |
| `ChartService.ColumnsOf` | ai_chatbot_project/backend/services/chart_service.py:65-66 | the numeric (textual) column list has no more names than the row has columns, and each name is that of a column of that class |
| `ChartService.ColumnsOfFromFirst` | ai_chatbot_project/backend/services/chart_service.py:66-67 | the numeric (textual) column list starts with the leftmost such column of the first row, then those to its right, in key order |
| `ChartService.ColumnsOfEmpty` | ai_chatbot_project/backend/services/chart_service.py:66-67 | a class's column list is empty exactly when no column of the first row has that class |
| `ChartService.SelectChart` | ai_chatbot_project/backend/services/chart_service.py:42-102 | no rows gives no chart; a lone numeric column gives a histogram of it with no y; numeric plus textual columns give first textual against first numeric, line exactly when a trend keyword and no grouping keyword appears, else bar; two or more numeric and no textual give second numeric against first, scatter exactly when a scatter keyword appears, else bar; no other shape and no empty x name gives a chart |
| `ChartService.SelectChartIgnoresCase` | ai_chatbot_project/backend/services/chart_service.py:63 | questions with the same lower-cased form get the same chart |
| `ChartService.CategoryValueRows` | ai_chatbot_project/backend/services/chart_service.py:73-80 | the category/value sample with any grouping keyword gives a bar chart of `value` by `category` |
| `ChartService.DateMetricRows` | ai_chatbot_project/backend/services/chart_service.py:81-83 | the date/metric sample with a trend keyword and no grouping keyword gives a line chart of `metric` over `date` |
| `ChartService.TwoNumberRows` | ai_chatbot_project/backend/services/chart_service.py:88-94 | two numeric columns and a scatter keyword give a scatter plot with x the second column and y the first |
| `ChartService.ChartExampleNoRows` | ai_chatbot_project/backend/services/chart_service.py:174-175 | the empty sample gives no chart |
| `ChartService.ChartExampleTextOnly` | ai_chatbot_project/backend/services/chart_service.py:178-179 | a single textual column gives no chart |
| `ChartService.ChartExampleHistogram` | ai_chatbot_project/backend/services/chart_service.py:166-167 | the service's sample of ten rows scoring 85 and five scoring 90 gives a histogram of `score` |
| `ChartService.ChartExampleBar` | ai_chatbot_project/backend/services/chart_service.py:156-157 | "show count by category" on the category sample gives a bar chart |
| `ChartService.ChartExampleLine` | ai_chatbot_project/backend/services/chart_service.py:161-163 | "show metric over time" on the date sample gives a line chart |
| `ChartService.ChartExampleScatter` | ai_chatbot_project/backend/services/chart_service.py:170-171 | "show correlation of y_val vs x_val" gives a scatter plot with x `y_val` and y `x_val` |
| `ChartService.ChartUrl` | ai_chatbot_project/backend/services/chart_service.py:132-140 | the URL is "/static/chart_" + hex + ".html" and the hex can be read back from it |
| `ChartService.ChartUrlInjective` | ai_chatbot_project/backend/services/chart_service.py:132-140 | different file stems give different URLs |
| `ChartService.GenerateChartHtml` | ai_chatbot_project/backend/services/chart_service.py:42-144 | a URL comes back exactly when there are rows, the static directory is there, a chart was chosen whose kind has the y column it needs, and rendering succeeded; it is the page's URL |
| `BigQueryService.ParameterizeSql` | ai_chatbot_project/backend/services/bigquery_service.py:37-47 | SQL without the placeholder is sent verbatim; otherwise the pieces between placeholders are joined by the organization id |
| `BigQueryService.ParameterizeSqlPieces` | ai_chatbot_project/backend/services/bigquery_service.py:47 | the SQL is its placeholder-free pieces joined by the placeholder, and the sent statement is the same pieces joined by the id |
| `BigQueryService.PlaceholderCanReappear` | ai_chatbot_project/backend/services/bigquery_service.py:47 | "{organization_{organization_id}}" with id "id" is sent as "{organization_id}", so substitution does not guarantee a placeholder-free statement |
| `BigQueryService.CapRows` | ai_chatbot_project/backend/services/bigquery_service.py:66-68 | the rows kept are a prefix, ten long when the statement is unlimited and more came back, otherwise all of them |
| `BigQueryService.ErrorMessage` | ai_chatbot_project/backend/services/bigquery_service.py:78-87 | a cloud error mentioning "Syntax error" gets the syntax prefix, any other cloud error the execution prefix, any other exception the unexpected-error prefix |
| `BigQueryService.ExecuteQuery` | ai_chatbot_project/backend/services/bigquery_service.py:10-87 | exactly one of rows and error; a non-empty error; no project id gives the configuration error and no client; a failed client gives its message; rows come back exactly when the configured client ran the substituted statement and the job produced rows, and then they are what the job produced, capped at ten unless "limit" occurs in its lower-cased text; a failed job gives the message for its kind of failure |
| `BigQueryService.TruncatesUnlimitedResults` | ai_chatbot_project/backend/services/bigquery_service.py:64-68 | an unlimited statement with more than ten rows returns exactly the first ten |
| `LlmService.SchemaContext` | ai_chatbot_project/backend/services/llm_service.py:80-84 | no retrieved parts gives the fixed fallback sentence; otherwise the parts joined by newlines, which, when no part spans lines, split back into the same parts |
| `LlmService.CleanSqlText` | ai_chatbot_project/backend/services/llm_service.py:102-109 | the cleaned text has no whitespace at either end |
| `LlmService.CleanFencedSql` | ai_chatbot_project/backend/services/llm_service.py:102-109 | a "```sql ... ```" answer with any surrounding whitespace cleans to the statement inside |
| `LlmService.CleanOpenedSql` | ai_chatbot_project/backend/services/llm_service.py:102-109 | an answer that opens a "```sql" fence and never closes it (cut off, say) cleans to the statement after the fence |
| `LlmService.CleanClosedSql` | ai_chatbot_project/backend/services/llm_service.py:102-109 | an answer that ends with a "```" fence it never opened cleans to the statement before the fence |
| `LlmService.CleanPlainSql` | ai_chatbot_project/backend/services/llm_service.py:102-109 | an unfenced answer cleans to itself without its outer whitespace |
| `LlmService.GenerateSqlFromQuery` | ai_chatbot_project/backend/services/llm_service.py:68-123 | no key gives None; a result is returned exactly when the answer to the prompt (question, seven retrieved parts, organization) cleans to text beginning with "select" in any case; it is that cleaned text, original casing kept |
| `LlmService.FencedSelectAccepted` | ai_chatbot_project/backend/services/llm_service.py:99-113 | a fenced SELECT answer yields the statement between the fences |
| `LlmService.SampleResults` | ai_chatbot_project/backend/services/llm_service.py:150-154 | no rows gives "No data returned."; otherwise the first min(3, n) rows in order |
| `LlmService.GenerateExplanation` | ai_chatbot_project/backend/services/llm_service.py:139-179 | never absent: the stripped answer on success, and on each failure (no key, empty answer, exception) its message, which starts with "Error:" |
| `LlmService.ExplainSqlQuery` | ai_chatbot_project/backend/services/llm_service.py:193-222 | never absent: the stripped answer on success, and on each failure its message, which starts with "Error:" |
| `VectorStoreService.UsableColumns` | ai_chatbot_project/backend/services/vector_store_service.py:132-139 | exactly the columns with a non-empty name and type are kept |
| `VectorStoreService.UsableColumnsAppend` | ai_chatbot_project/backend/services/vector_store_service.py:132-139 | filtering columns keeps their order: the usable columns of a concatenation are those of each part, in turn |
| `VectorStoreService.UsableColumnsSingle` | ai_chatbot_project/backend/services/vector_store_service.py:137-139 | one column is kept once exactly when it has a non-empty name and type, and dropped otherwise |
| `VectorStoreService.ColumnDocs` | ai_chatbot_project/backend/services/vector_store_service.py:131-148 | one aligned (text, metadata, id) entry per usable column, the k-th describing the k-th usable column |
| `VectorStoreService.BuildDocuments` | ai_chatbot_project/backend/services/vector_store_service.py:116-148 | aligned lists; the table document first exactly when the description is non-empty; then one document per usable column in order |
| `VectorStoreService.MetadataAt` | ai_chatbot_project/backend/services/vector_store_service.py:124-148 | entry k's metadata is the table-description record when k is 0 and there is a description, and otherwise a column-info record of the table |
| `VectorStoreService.BuildDocumentsMetadata` | ai_chatbot_project/backend/services/vector_store_service.py:124-148 | every metadata names the table, and an entry has kind table_description exactly when it is the first and the description is non-empty |
| `VectorStoreService.ColumnIdInjective` | ai_chatbot_project/backend/services/vector_store_service.py:141 | column ids of one table determine the column name |
| `VectorStoreService.IdsUnique` | ai_chatbot_project/backend/services/vector_store_service.py:125-148 | when usable column names differ, all document ids differ |
| `VectorStoreService.UnusableColumnSkipped` | ai_chatbot_project/backend/services/vector_store_service.py:137-139 | adding a column without name or type changes no document |
| `VectorStoreService.Entries` | ai_chatbot_project/backend/services/vector_store_service.py:171-176 | the k-th stored entry pairs the k-th document, vector, metadata and id |
| `VectorStoreService.InitializeSchemaStore` | ai_chatbot_project/backend/services/vector_store_service.py:106-180 | a populated collection is left alone with no embedding; no documents means nothing happens; an empty collection with documents always calls the primary (Gemini) embedder first; the fallback is tried once, only after the primary failed; the collection changes only by filling an empty one with a batch holding one vector per document |
| `VectorStoreService.InitializeIdempotent` | ai_chatbot_project/backend/services/vector_store_service.py:109-113 | running initialization twice with the same embedder and insertion outcomes leaves the same collection as running it once |
| `VectorStoreService.InitializeAfterPopulateEmbedsNothing` | ai_chatbot_project/backend/services/vector_store_service.py:111-113 | after a run that filled the collection, a further run, with any embedders and insertion outcome, embeds nothing and leaves the collection unchanged |
| `VectorStoreService.PopulatedSurvivesAnyRun` | ai_chatbot_project/backend/services/vector_store_service.py:109-113 | once a run leaves a non-empty collection, any further run, with any embedders and insertion outcome, returns it unchanged without an embedding call |
| `VectorStoreService.SecondRunCanDiffer` | ai_chatbot_project/backend/services/vector_store_service.py:154-176 | when both embedders fail an empty collection stays empty, and a later run whose primary embedder succeeds fills it, so initialization is idempotent only for unchanged embedder outcomes |
| `VectorStoreService.QuerySchema` | ai_chatbot_project/backend/services/vector_store_service.py:182-209 | a missing collection, no query vector, a search exception or an absent or empty result gives []; a search that answers with at least one result list gives its first list, and a non-empty answer comes only from there |
| `Api.Chat` | ai_chatbot_project/backend/main.py:43-106 | generation first, organization always "test_org_123"; no SQL: apology and nothing else; an execution error: no data, no chart, explainer given no results, "BigQuery Error: ..." text; success: rows returned, charted only when non-empty, explainer text or the fallback that matches whether there was data; sql_query is the generated SQL |
| `Api.ChatWithoutKey` | ai_chatbot_project/backend/main.py:49-60 | without a model key the response is the apology alone and only generation was called |
| `Api.ChatExecutesGeneratedSql` | ai_chatbot_project/backend/main.py:58-63 | the only statement executed is the generated SQL, and only when there is one |
| `Api.ChatExecutesOnlySelect` | ai_chatbot_project/backend/main.py:49-63 | with the real SQL generator, every executed statement begins with SELECT |
| `Api.ChatDataCapped` | ai_chatbot_project/backend/main.py:63-103 | with the real executor and an unlimited statement, any data returned is at most ten rows, a prefix of what the job produced; when the warehouse is configured and the job produced rows, data is returned, min(10, n) rows long |
| `Api.ChatShowsExplainerFailureAsExplanation` | ai_chatbot_project/backend/main.py:88-94 | with a configured key, a successful query whose explanation call raises gets the explainer's "Error: An unexpected error ..." message as its explanation, next to its data, because any non-empty explainer text counts as an explanation |
| `Api.HandleExplainSql` | ai_chatbot_project/backend/main.py:108-125 | exactly one of explanation and error; non-empty text not starting "Error:" is the explanation; "Error:" text is the error; no text gives "Failed to explain SQL query." |
| `Api.ExplainSql` | ai_chatbot_project/backend/main.py:108-125 | exactly one of explanation and error; with the real statement explainer, every failure reaches the caller as the error unchanged (no key gives the key message), a successful non-blank answer not starting "Error:" is the explanation, a blank one gives the generic failure message, and one starting "Error:" is passed on as the error |

## Left out

- Text.Strip: strips ASCII whitespace only (space, \t to \r, \x1c to \x1f). Python's `str.strip()` also strips Unicode whitespace.
- LlmService.CleanOpenedSql and LlmService.CleanClosedSql: the statement must be at least as long as the fence it lacks. Shorter answers are not SELECT statements, so they are rejected anyway.
- Text.Lower: lowers ASCII letters only. Python's `str.lower()` also lowers non-ASCII letters. The keyword tests, the "limit" test and the SELECT test are affected only for non-ASCII text.
- `Text.Replace` and `Text.Split` require a non-empty pattern. `Replace` is only given the constant placeholder. `Split` is only given the placeholder and the newline.
- Plotly figure construction, HTML writing, uuid generation and static-directory creation are file I/O and library rendering. `GenerateChartHtml` takes whether the directory is there and the rendering outcome as inputs. The chart title is not modelled.
- The Gemini completion and embedding calls, SentenceTransformer, the Chroma client and the BigQuery client and job are external libraries. Each is a function parameter or an outcome value.
- LlmService.GenerateExplanation: a `json.dumps` of the sample that raises (a TypeError on a datetime or Decimal cell, say) is caught by the same handler as a provider exception (llm_service.py:152, 177-179), so it is folded into the `Raised` completion outcome.
- Prompt template text, LangChain formatting and the `json.dumps` rendering of the result sample are left out. The prompt is modelled as the record of values it is filled with, and the sample as a sequence of rows.
- The generation configurations with float temperatures have no bearing on the logic.
- config.py (environment loading) is not part of this model. The model key and the project id are `Option<string>` inputs.
- The FastAPI app, decorators, static mount, startup hook and uvicorn launch are framework plumbing. So is the module-import side effect that initializes the store.
- Logging is left out everywhere.
- The race between concurrent first requests initializing the store is a concurrency issue and is not modelled.
- VectorStoreService.InitializeSchemaStore: the schema record is an input, not the fixed JSON constant. Parsing the constant cannot fail. A JSON `null` table name (which the source would render as "None") is not modelled.
- VectorStoreService.InitializeSchemaStore: the primary embedder is always Gemini. The source's branch for the case where the fallback is the primary (vector_store_service.py:166-167) can never run, so it is not modelled. A rejected insertion leaves the collection as it was.
- VectorStoreService.QuerySchema: the search result is not tied to the collection's contents, because nearest-neighbour search belongs to the database. The default result count of 5 is not modelled, because the only caller asks for seven.
- ChartService.SelectChart: a row is a sequence of (name, value) pairs. Python dict keys are unique, and the model does not require that.
- Warehouse values other than int, float, bool, str and None keep only their type name. Floating-point values are reals.
