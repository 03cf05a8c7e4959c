# Jobaboso backend core in Dafny

Jobaboso is a job-seeking service with three kinds of user: personal users
(students and job seekers), company employees and university staff. Its
FastAPI backend keeps each personal user's spec (skills, projects,
activities, certificates, education, hope), their company applications with
the uploaded documents and the schedule of each application, and their
interview reviews. Companies can browse personal users and "like" them.
University staff can ask questions in natural language: a language model
translates the question into SQL, and the backend checks that SQL,
rewrites it and runs it against a read-only student database.

The model is organised by the backend's own files:

- `gemini_service.dfy`, `staff_ai_search.dfy`, `redaction.dfy`,
  `external_db_service.dfy`, `staff_ai_search_schema.dfy`: the staff question
  gateway. It covers the SQL safety check and the parsing of the model's
  reply. It covers the `query_students` pipeline: validate, strip `email`
  and `phone` from the projection, append `LIMIT`, execute, and build the
  response. It also covers the mapping of fetched rows to `{user_id, name}`
  records and the request and response shapes. `redaction.dfy` models the
  regular expressions of the redaction step, with Python's backtracking
  priorities and its global substitution.
- `validation.dfy`, `company_routes.dfy`, `company_application_routes.dfy`:
  the route rules. These are the caller guards, pagination and ceiling-division
  page counts, calendar bounds, the upload rules and the media-type table.
- `company_crud.dfy`, `personal_crud.dfy`, `job_review_crud.dfy`,
  `company_application_crud.dfy`, `application_schedule_crud.dfy`,
  `application_document_crud.dfy`, `spec_crud.dfy`: the crud layer. Each
  table the layer changes is a class whose field is a sequence of rows.
  Its methods change that sequence and promise the new table as a function
  of the old one. They also keep the table's uniqueness invariant: distinct
  ids, one like per company and user, one review per application.
  Read-only queries are functions over row sequences.
- `job_review_schema.dfy`, `spec_schema.dfy`: the request bodies, their
  enums, length and count bounds, defaults, and the `parse_date` validator.
- `test_routes.dfy`: the points endpoints, and the deterministic rule that
  decides which schedules and which review a sample application gets.
- `models.dfy`, `values.dfy`, `common.dfy`, `text.dfy`: the table rows as
  datatypes, Python's dynamic values and truthiness, and helpers for
  sequences, ordering, filtering, pagination and ASCII text.

The model uses these conventions:

- A query result `ORDER BY` a column is the table filtered and then sorted
  on that column (`Common.SortBy`: a permutation, ascending by the key).
  The database leaves the order of rows with equal keys open; the model
  fixes one such order and proves nothing about it.
- `OFFSET`/`LIMIT` take a window of that result (`Common.Window` of
  `Common.NewestOrder`). Every page of a listing is cut from the same
  order, which a database that breaks ties differently per query does not
  promise.
- Clock readings, uuids and the random choices of the sample data are
  parameters.
- The database's auto-increment id is a counter field of the table class.
- An exception a route does not catch becomes a 500 response.
- Integers are unbounded, as Python's are.

The row mapper falls back with Python's `a or b or c`. When no candidate is
truthy, that expression yields the last candidate's value, for example `""`
or `0`, not `None`. The model follows the code here.

## Model

| member | source | states |
|---|---|---|
| Validation.ValidatePaginationParams | Jobaboso-back/app/crud/validation.py:3-14 | no error exactly when page >= 1 and 1 <= page_size <= 100; page < 1 gives the 400 page error; otherwise a failure is the 400 page-size error |
| Validation.PageErrorFirst | Jobaboso-back/app/crud/validation.py:4-14 | when both parameters are bad, the page error is the one raised |
| PersonalCrud.CompanyLikesByUser | Jobaboso-back/app/crud/personal.py:7-10 | exactly the likes that target the user, each as often as in the table, newest first |
| PersonalCrud.CompanyLikesCountByUser | Jobaboso-back/app/crud/personal.py:12-15 | the count is the length of the by-user listing |
| PersonalCrud.ValidateAndGetPersonalUser | Jobaboso-back/app/crud/personal.py:17-34 | a user type other than "personal" gets 403 whatever the tables hold; a personal caller without a row gets 404; success exactly when a row exists, and it is the first row with that user id |
| PersonalCrud.CompanyLikesWithCount | Jobaboso-back/app/crud/personal.py:36-45 | the count equals the length of the returned list, which holds exactly the likes targeting the user, each as often as in the table, newest first |
| StaffAiSearchSchema.MakeRequest | Jobaboso-back/app/schema/staff_ai_search.py:5-9 | accepted exactly when query is present and limit is absent or in 1..1000; include_sensitive_info defaults to false and limit to 100; the error names each failing field |
| StaffAiSearchSchema.OptionalText | Jobaboso-back/app/schema/staff_ai_search.py:14-33 | an `Optional[str]` field: absent or null gives None, text is kept, anything else is a validation error on that key |
| StaffAiSearchSchema.OptionalReal | Jobaboso-back/app/schema/staff_ai_search.py:23 | `gpa`: absent or null gives None; an integer, a float or a boolean (as 1.0 or 0.0) gives that number; anything else fails naming the field |
| StaffAiSearchSchema.StudentDataOf | Jobaboso-back/app/schema/staff_ai_search.py:11-33 | built exactly when every field validates; user_id and name are the validated values |
| StaffAiSearchSchema.TwoKeyRecordIsValid | Jobaboso-back/app/schema/staff_ai_search.py:14-33 | a record with only user_id and name, each text or null, is a valid StudentData whose other fields are None |
| StaffAiSearchSchema.Failure | Jobaboso-back/app/schema/staff_ai_search.py:35-43 | a failed response carrying only its error has data [], count 0, and no query or description |
| GeminiService.ValidateSqlQuery | Jobaboso-back/app/services/gemini_service.py:183-210 | the prefix test and the keyword loop with early return compute exactly the verdict `IsSafeQuery` |
| GeminiService.MentionsKeywordIff | Jobaboso-back/app/services/gemini_service.py:206-208 | the search over the first n keywords finds keyword k exactly when it is a substring (both directions) |
| GeminiService.MentionsSomeKeyword | Jobaboso-back/app/services/gemini_service.py:206-208 | when the search reports a keyword, some denylisted keyword occurs in the upper-cased query |
| GeminiService.AcceptedWhenChecksPass | Jobaboso-back/app/services/gemini_service.py:199-210 | a query whose stripped upper-cased text starts with SELECT and contains no keyword is accepted |
| GeminiService.AcceptedMentionsNoKeyword | Jobaboso-back/app/services/gemini_service.py:194-208 | no keyword occurs in the upper-cased text of an accepted query |
| GeminiService.SafetyIgnoresCase | Jobaboso-back/app/services/gemini_service.py:199 | validate(q) == validate(upper(q)) |
| GeminiService.KeywordAnywhereRejected | Jobaboso-back/app/services/gemini_service.py:194-208 | a keyword occurring in any case at any position, inside a longer word too, gets the query rejected |
| GeminiService.TimestampColumnsRejected | Jobaboso-back/app/services/gemini_service.py:194-208 | naming created_at or updated_at gets a query rejected (CREATE and UPDATE are substrings) |
| GeminiService.NonSelectRejected | Jobaboso-back/app/services/gemini_service.py:202-203 | a query whose stripped upper-cased text does not start with SELECT is rejected |
| GeminiService.StackedStatementsAccepted | Jobaboso-back/app/services/gemini_service.py:194-210 | two accepted queries joined by ";" are accepted: there is no semicolon check |
| GeminiService.AcceptedByLetters | Jobaboso-back/app/services/gemini_service.py:194-210 | a query whose upper-cased text starts with SELECT, ends in a non-space character and lacks the letters D, I, U, A, R, X and the characters '-', '/', '*' is accepted: each keyword misses one of them |
| GeminiService.SelectCaseIrrelevant | Jobaboso-back/app/services/gemini_service.py:199-203 | a query starting with "select" gets the verdict of the same query starting with "SELECT" |
| GeminiService.DropStatementRejected | Jobaboso-back/app/services/gemini_service.py:194-208 | example of `KeywordAnywhereRejected`: "SELECT * FROM t; DROP TABLE t;" is rejected |
| GeminiService.BraceSpan | Jobaboso-back/app/services/gemini_service.py:138 | `\{.*\}` with DOTALL: the span found is a match, it starts leftmost and is the longest there; none is found only when there is no match |
| GeminiService.SelectSpan | Jobaboso-back/app/services/gemini_service.py:149-161 | `SELECT.*?;` ignoring case with DOTALL: the span found is a match, leftmost and then shortest; none only when there is no match |
| GeminiService.ParseReply | Jobaboso-back/app/services/gemini_service.py:132-181 | a raised call gives the prefixed error with raw_response ""; a success carries the stripped reply; a failure with a non-empty raw_response is the fixed "cannot generate" error on the stripped reply; when the `{...}` span decodes, the result is a success exactly when the value is an object, with sql and description taken from its "sql" and "description" keys (default "") |
| GeminiService.DecodedSpan | Jobaboso-back/app/services/gemini_service.py:138-141 | the decoded value exists only for a `{...}` span, and is `json.loads` of that span |
| GeminiService.ObjectWithSqlIsSuccess | Jobaboso-back/app/services/gemini_service.py:138-146 | a decoded object with "sql" is a success whose sql is that field and whose description is the object's or "" |
| GeminiService.SpanShape | Jobaboso-back/app/services/gemini_service.py:149-153 | a span from a SELECT to the first following ';' needs no stripping, starts with SELECT in some case and holds exactly one ';', its last character |
| GeminiService.SelectSpanShape | Jobaboso-back/app/services/gemini_service.py:149-153 | the span `SelectSpan` finds has that shape |
| GeminiService.FallbackExtraction | Jobaboso-back/app/services/gemini_service.py:147-168 | without a decodable object, a reply with a SELECT...; span is a success whose sql is that span and whose description is "자동 생성된 쿼리" |
| GeminiService.ObjectWithoutSqlIsSuccess | Jobaboso-back/app/services/gemini_service.py:138-146 | a decoded object without "sql" is still a success, with sql "" and the object's description or "" |
| GeminiService.NonObjectReplyFails | Jobaboso-back/app/services/gemini_service.py:140-181 | a decoded value that is not an object makes `.get` raise: a failure with raw_response "" |
| GeminiService.NoQueryFound | Jobaboso-back/app/services/gemini_service.py:170-174 | with no decodable brace span (none found, or one that fails to decode) and no SELECT...; span, the result is the fixed failure with the stripped reply as raw_response |
| StaffAiSearch.RewriteColumns | Jobaboso-back/app/routes/staff_ai_search.py:76-79 | the four rewrites of the projection never make it longer |
| StaffAiSearch.Redacted | Jobaboso-back/app/routes/staff_ai_search.py:66-80 | the query is left alone when sensitive columns were asked for, when it mentions neither email nor phone in any case, or when the SELECT...FROM pattern has no match |
| StaffAiSearch.RedactedIsSubstitution | Jobaboso-back/app/routes/staff_ai_search.py:66-80 | when the query mentions email or phone, the redacted query is the pattern substitution with `SELECT <rewritten group> FROM`, the group being that of the match the search reports |
| StaffAiSearch.RedactedRewritesFirstMatch | Jobaboso-back/app/routes/staff_ai_search.py:66-80 | the first SELECT...FROM span, the one tried before every other match, is replaced by `SELECT <its rewritten columns> FROM`; the text before it stays |
| StaffAiSearch.RewritesContactColumns | Jobaboso-back/app/routes/staff_ai_search.py:76-79 | example of the column rewrites (`Redaction.DeleteWordUpTo`): the projection "name, email, phone, gpa" becomes "name, gpa" |
| StaffAiSearch.RedactsContactColumns | Jobaboso-back/app/routes/staff_ai_search.py:66-80 | example of `StaffAiSearch.RedactedRewritesFirstMatch`: the query "SELECT name, email, phone, gpa FROM t" comes out as "SELECT name, gpa FROM t" |
| StaffAiSearch.WithLimit | Jobaboso-back/app/routes/staff_ai_search.py:83-84 | a query mentioning "limit" in any case is kept; otherwise the result is the query without its trailing semicolons followed by exactly " LIMIT n;"; the result always mentions "limit" |
| StaffAiSearch.LimitClauseFound | Jobaboso-back/app/routes/staff_ai_search.py:83-84 | the appended clause itself makes the lower-cased text contain "limit" |
| StaffAiSearch.WithLimitIdempotent | Jobaboso-back/app/routes/staff_ai_search.py:83-84 | adding the limit a second time changes nothing |
| StaffAiSearch.StudentsOf | Jobaboso-back/app/routes/staff_ai_search.py:102-109 | the response data exists exactly when every record validates as StudentData, and it then holds one validated record per row, in order |
| StaffAiSearch.DescriptionOf | Jobaboso-back/app/routes/staff_ai_search.py:107 | the description validates exactly when it is text or null, and text is kept |
| StaffAiSearch.FetchedRecords | Jobaboso-back/app/routes/staff_ai_search.py:89-104 | one record per fetched row, in fetch order |
| StaffAiSearch.RedactSensitive | Jobaboso-back/app/routes/staff_ai_search.py:65-80 | step 3 as a sequence of assignments computes exactly `Redacted` |
| StaffAiSearch.AppendLimit | Jobaboso-back/app/routes/staff_ai_search.py:82-84 | step 4 computes exactly `WithLimit` |
| StaffAiSearch.RunAndRespond | Jobaboso-back/app/routes/staff_ai_search.py:86-117 | a database failure gives success false with the final query and the prefixed executor error; a fetch whose records and description validate gives success true with the rows, their count and the query; otherwise the internal-error response |
| StaffAiSearch.QueryStudents | Jobaboso-back/app/routes/staff_ai_search.py:26-117 | the whole endpoint: a failed translation, a non-text sql (which makes `.upper()` raise), an unsafe query, a failed fetch and a successful one each give the response stated for that case; the database sees the generated query redacted and then limited |
| Redaction.WsEnd | Jobaboso-back/app/routes/staff_ai_search.py:71 | a greedy `\s*`: all whitespace up to the result, and the character at the result is not whitespace |
| Redaction.WsEndIsMaximal | Jobaboso-back/app/routes/staff_ai_search.py:71 | no whitespace run from the same start is longer |
| Redaction.FromDown | Jobaboso-back/app/routes/staff_ai_search.py:71 | the last FROM, in any case, in an index range, or none there |
| Redaction.FromAfter | Jobaboso-back/app/routes/staff_ai_search.py:71 | `\s+FROM` with the longest whitespace: a FROM after whitespace, with no FROM further on that whitespace could reach; none only when no such FROM exists |
| Redaction.GroupEnd | Jobaboso-back/app/routes/staff_ai_search.py:71 | the lazy `(.*?)`: the shortest group end that `\s+FROM` can follow, with no newline in the group; none only when no end within the line admits it |
| Redaction.LeadDown | Jobaboso-back/app/routes/staff_ai_search.py:71 | the longest leading `\s+` after SELECT that admits a group end, or none when no shorter one does either |
| Redaction.MatchAtStart | Jobaboso-back/app/routes/staff_ai_search.py:71-72 | the match tried at index i starts at i |
| Redaction.MatchAtIsMatch | Jobaboso-back/app/routes/staff_ai_search.py:71-72 | the match built at a SELECT is a match of the pattern |
| Redaction.MatchAtBeats | Jobaboso-back/app/routes/staff_ai_search.py:71-72 | a match starting at i implies one is built there, and the one built is tried before it |
| Redaction.MatchAtIsFirst | Jobaboso-back/app/routes/staff_ai_search.py:71-72 | the match built at a SELECT is a match, tried before every other match with that start |
| Redaction.SearchFinds | Jobaboso-back/app/routes/staff_ai_search.py:72 | what the search returns is a match at or after the starting index |
| Redaction.SearchAtFinds | Jobaboso-back/app/routes/staff_ai_search.py:72 | the same, for the search resumed at a SELECT |
| Redaction.SearchReaches | Jobaboso-back/app/routes/staff_ai_search.py:72 | when a match can be built at k, the search from an earlier index finds a match, one starting before k or that one |
| Redaction.SearchAtReaches | Jobaboso-back/app/routes/staff_ai_search.py:72 | the same, for the search resumed at a SELECT |
| Redaction.SearchBeats | Jobaboso-back/app/routes/staff_ai_search.py:72 | any match at or after the start implies the search finds one that is tried before it |
| Redaction.SearchIsFirst | Jobaboso-back/app/routes/staff_ai_search.py:72 | `re.search(r'SELECT\s+(.*?)\s+FROM', q, re.IGNORECASE)`: a match, tried before every other match (leftmost, longest leading whitespace, shortest group, longest trailing whitespace); none only when there is no match |
| Redaction.SearchReportsFirst | Jobaboso-back/app/routes/staff_ai_search.py:72 | a match tried before every other match is exactly what the search reports |
| Redaction.SubstituteWithoutMatch | Jobaboso-back/app/routes/staff_ai_search.py:80 | with no match the substitution returns the query unchanged |
| Redaction.SubstituteFirstMatch | Jobaboso-back/app/routes/staff_ai_search.py:80 | the first match replaced is the one the search reports, tried before any other |
| Redaction.SubstituteAtMatch | Jobaboso-back/app/routes/staff_ai_search.py:80 | the text before the first match is kept, the match is replaced, and the substitution resumes after its FROM |
| Redaction.SubstituteAtFirst | Jobaboso-back/app/routes/staff_ai_search.py:80 | given the match tried before all others, the substitution keeps the text before it, puts the replacement in its place and resumes after its FROM |
| Redaction.SeparatorEnd | Jobaboso-back/app/routes/staff_ai_search.py:76-77 | `\s*,?\s*` stays within the text and takes a comma that follows the first whitespace run |
| Redaction.SeparatorEndShape | Jobaboso-back/app/routes/staff_ai_search.py:76-77 | what `\s*,?\s*` consumes is whitespace, or whitespace, a comma and whitespace; a comma preceded only by whitespace is always taken; the match ends where the second `\s*` must stop |
| Redaction.DeleteWordFrom | Jobaboso-back/app/routes/staff_ai_search.py:76-77 | `re.sub(word + r'\s*,?\s*', '', ...)` ignoring case never lengthens the text and leaves it unchanged when the word does not occur |
| Redaction.DeleteWordUpTo | Jobaboso-back/app/routes/staff_ai_search.py:76-77 | the text before the first occurrence of the word (in any case) is kept, the word and its separator are dropped, and the scan resumes behind the separator |
| Redaction.DeleteWordOnce | Jobaboso-back/app/routes/staff_ai_search.py:76-77 | with a single occurrence, the deletion cuts out exactly that word and its separator |
| Redaction.CollapseCommasFrom | Jobaboso-back/app/routes/staff_ai_search.py:78 | `re.sub(r',\s*,', ',', ...)` never lengthens the text and leaves comma-free text unchanged |
| Redaction.CollapseKeepsCharacters | Jobaboso-back/app/routes/staff_ai_search.py:78 | the collapse adds no character that was not in the text |
| Redaction.CollapseCommasUpTo | Jobaboso-back/app/routes/staff_ai_search.py:78 | the text before the first `,\s*,` is kept, the match becomes one comma, and the scan resumes after its second comma |
| Redaction.CollapseCommasNone | Jobaboso-back/app/routes/staff_ai_search.py:78 | without any `,\s*,` the text is kept whole |
| Redaction.StripTrailingComma | Jobaboso-back/app/routes/staff_ai_search.py:79 | `re.sub(r',\s*$', '', ...)` keeps a prefix; it cuts exactly at a comma followed only by whitespace, and keeps the text when there is none |
| Redaction.DanglingQualifier | Jobaboso-back/app/routes/staff_ai_search.py:76 | example of `Redaction.DeleteWordUpTo`: deleting the column "u.email" leaves its qualifier "u." |
| ExternalDbService.Iso | Jobaboso-back/app/services/external_db_service.py:35-40 | a date or time value becomes its isoformat text; every other value is kept |
| ExternalDbService.ColumnsDict | Jobaboso-back/app/services/external_db_service.py:33-40 | every column of the row becomes a key of the row dictionary |
| ExternalDbService.ColumnsDictKeys | Jobaboso-back/app/services/external_db_service.py:33-40 | the keys of the row dictionary are exactly the column names |
| ExternalDbService.ColumnsDictValue | Jobaboso-back/app/services/external_db_service.py:33-40 | a column's value is the converted value of its last occurrence |
| ExternalDbService.MergeEmbeddedJson | Jobaboso-back/app/services/external_db_service.py:42-53 | the row changes only when it has one key named like a JSON_OBJECT column and holding text; then a decoded object's fields are merged in and win, and a text that fails to decode or decodes to something other than an object leaves the row as it was (the `except: pass`); no key is lost |
| ExternalDbService.Record | Jobaboso-back/app/services/external_db_service.py:55-59 | exactly the keys user_id and name, each the first truthy value among its candidate keys, else the last candidate's value or None |
| ExternalDbService.RowDict | Jobaboso-back/app/services/external_db_service.py:33-40 | the inner loop builds exactly `ColumnsDict` |
| ExternalDbService.ExecuteQuery | Jobaboso-back/app/services/external_db_service.py:13-77 | a driver exception gives the prefixed error with no data and count 0; otherwise success with one record per fetched row, in order, count equal to the number of rows, and the query echoed |
| ExternalDbService.RecordsDropOtherColumns | Jobaboso-back/app/services/external_db_service.py:55-60 | no record carries a column other than user_id and name |
| ExternalDbService.UserIdColumnReported | Jobaboso-back/app/services/external_db_service.py:33-59 | a unique user_id column holding a truthy value that is not a date is reported unchanged |
| ExternalDbService.LikeQuery | Jobaboso-back/app/services/external_db_service.py:92-102 | the argument appears verbatim inside `LIKE '%...%'` at the template's position, and the query ends with its LIMIT clause |
| ExternalDbService.CompanyQuery | Jobaboso-back/app/services/external_db_service.py:79-104 | the company name is pasted verbatim after `company_name LIKE '%`, closed by `LIMIT n` |
| ExternalDbService.MajorQuery | Jobaboso-back/app/services/external_db_service.py:115-139 | the major is pasted verbatim after `major LIKE '%`, closed by `LIMIT n` |
| CompanyApplicationRoutes.RequirePersonal | Jobaboso-back/app/routes/company_application.py:38-42 | passes exactly when the token's user_type is "personal"; otherwise the 403 personal-only error |
| CompanyApplicationRoutes.Authorize | Jobaboso-back/app/routes/company_application.py:164-181 | 403 exactly for a non-personal caller; 404 exactly for a personal caller when no application has the id; passing means an application with the id exists and is the caller's; 403 no-access is the only other outcome |
| CompanyApplicationRoutes.AuthorizeOwner | Jobaboso-back/app/routes/company_application.py:164-181 | with distinct ids, a personal caller passes exactly when the application exists and is theirs (both directions) |
| CompanyApplicationRoutes.CallerApplications | Jobaboso-back/app/routes/company_application.py:85 | a token without a user id matches none; otherwise the window at the offset of the user's rows ordered newest first, as many rows as the user's count leaves after the offset, up to the limit |
| CompanyApplicationRoutes.MyApplications | Jobaboso-back/app/routes/company_application.py:53-96 | 403 for a non-personal caller, then the pagination error; success exactly when the caller is personal and the parameters valid, with the caller's page at offset (page-1)*page_size, their total count and ceil(total/page_size) pages |
| CompanyApplicationRoutes.StatusListing | Jobaboso-back/app/routes/company_application.py:280-294 | the total is the number of the user's rows with that status, capped at 1000 by the limited fetch; the page is the window at (page-1)*page_size of those rows ordered newest first; total_pages is ceil(total/page_size) |
| CompanyApplicationRoutes.ApplicationsWithStatus | Jobaboso-back/app/routes/company_application.py:248-294 | as written: a non-personal caller and bad pagination both get 500, because `status` names the path parameter and `status.HTTP_403_FORBIDDEN` fails; success exactly when the guards pass, with the capped total and the newest-first window of the caller's rows with that status |
| CompanyApplicationRoutes.ApplicationsWithStatusCorrected | Jobaboso-back/app/routes/company_application.py:261-278 | as intended: 403 for a non-personal caller, then the pagination error; success exactly when both pass, with the same listing |
| CompanyApplicationRoutes.StatusGuardsAnswer500 | Jobaboso-back/app/routes/company_application.py:261-278 | whenever the intended endpoint lets a request through, the endpoint as written answers the same; each refusal of the intended endpoint (403 or 400) becomes a 500 |
| CompanyApplicationRoutes.CompanyCallerGets500 | Jobaboso-back/app/routes/company_application.py:261-265 | a company caller gets 500 from the endpoint as written and 403 from the intended one |
| CompanyApplicationRoutes.MonthlyCalendarOf | Jobaboso-back/app/routes/company_application.py:102-151 | 403, then 400 for a year outside 2000..2100, then 400 for a month outside 1..12; success exactly when all pass, echoing year and month, with entries that start in that month, ordered by start, and are exactly the crud's monthly view of the caller's schedules (none for a token without a user id) |
| CompanyApplicationRoutes.DocumentUrl | Jobaboso-back/app/routes/company_application.py:185-186 | the URL starts with "/applications/" and ends with "/" and the action |
| CompanyApplicationRoutes.DocumentsOf | Jobaboso-back/app/routes/company_application.py:184 | exactly the documents of the application |
| CompanyApplicationRoutes.AddUrls | Jobaboso-back/app/routes/company_application.py:184-186 | one entry per document, in order, each with its download and view URL |
| CompanyApplicationRoutes.ApplicationDetailOf | Jobaboso-back/app/routes/company_application.py:153-191 | fails exactly when the guard fails, with its error; otherwise the caller's application with that id, each of its documents with both URLs, and its schedules as a permutation of its rows sorted by start |
| CompanyApplicationRoutes.ParseDocumentType | Jobaboso-back/app/routes/company_application.py:349 | a type that parses has that value; with DocumentTypeRoundTrip, the values parse back |
| CompanyApplicationRoutes.DocumentTypeRoundTrip | Jobaboso-back/app/routes/company_application.py:349 | every document type's value parses back to that type |
| CompanyApplicationRoutes.StoredName | Jobaboso-back/app/routes/company_application.py:357-358 | the stored name starts with the uuid, and is only the uuid when the original has no '.' or nothing after its last '.' |
| CompanyApplicationRoutes.StoredNameKeepsExtension | Jobaboso-back/app/routes/company_application.py:357-358 | a stored name with an extension keeps the original's extension and its media type |
| CompanyApplicationRoutes.ParsedTypes | Jobaboso-back/app/routes/company_application.py:347-349 | the parse of every type, position by position |
| CompanyApplicationRoutes.RecordedCount | Jobaboso-back/app/routes/company_application.py:347-354 | the number of files recorded: every type before it parses, and the one at it does not |
| CompanyApplicationRoutes.FirstInvalidType | Jobaboso-back/app/routes/company_application.py:347-354 | none exactly when every type parses; otherwise the position of the first type that does not, which is the number of files recorded |
| CompanyApplicationRoutes.Uploads | Jobaboso-back/app/routes/company_application.py:356-379 | one row per recorded file, in order, with consecutive ids and the stored name, path, size and original name |
| CompanyApplicationRoutes.UploadsStep | Jobaboso-back/app/routes/company_application.py:347-379 | recording one more file appends exactly its row |
| CompanyApplicationRoutes.RecordUpload | Jobaboso-back/app/routes/company_application.py:356-379 | one turn of the loop appends exactly the row for that file and keeps the table valid |
| CompanyApplicationRoutes.RecordUntilInvalid | Jobaboso-back/app/routes/company_application.py:347-381 | the loop appends, in order, the rows of the files before the first type that does not parse |
| CompanyApplicationRoutes.RecordUploads | Jobaboso-back/app/routes/company_application.py:347-381 | the table gains those rows; the result is all rows exactly when every type parses, else the 400 naming the first bad type |
| CompanyApplicationRoutes.UploadDocuments | Jobaboso-back/app/routes/company_application.py:300-394 | a failed guard or a count mismatch (400) leaves the table alone; otherwise the rows before the first bad type are recorded, and the answer is all rows or the 400 naming that type |
| CompanyApplicationRoutes.MediaTypeFor | Jobaboso-back/app/routes/company_application.py:538-553 | a media type of the table or application/octet-stream, the latter whenever the lower-cased last extension is not in the table |
| CompanyApplicationRoutes.MediaTypeOfJoin | Jobaboso-back/app/routes/company_application.py:538-553 | the media type of "stem.ext" is the table entry of the lower-cased ext, or octet-stream |
| CompanyApplicationRoutes.DisplayName | Jobaboso-back/app/routes/company_application.py:554 | the original name when it is present and not empty, otherwise the stored file name |
| CompanyApplicationRoutes.DocumentIn | Jobaboso-back/app/routes/company_application.py:471-472 | a document found has that id and belongs to that application |
| CompanyApplicationRoutes.ServedDocument | Jobaboso-back/app/routes/company_application.py:493-535 | the guard's error first, then 404 for a document not in the application; a success is that document and its file exists; "file missing" means the file does not exist |
| CompanyApplicationRoutes.DownloadDocument | Jobaboso-back/app/routes/company_application.py:440-491 | fails exactly when the shared checks fail; otherwise the file under its display name, always as application/octet-stream |
| CompanyApplicationRoutes.ViewDocument | Jobaboso-back/app/routes/company_application.py:493-560 | fails exactly when the shared checks fail; otherwise the file under its display name with the media type of its stored name |
| CompanyApplicationRoutes.UploadedViewType | Jobaboso-back/app/routes/company_application.py:538-560 | an uploaded file is viewed with the media type of its original extension and under its original name |
| CompanyApplicationRoutes.DeleteDocument | Jobaboso-back/app/routes/company_application.py:396-438 | a failed guard changes nothing; otherwise the first row with that id in that application is deleted, and 404 exactly when there was none |
| CompanyApplicationRoutes.CreateApplication | Jobaboso-back/app/routes/company_application.py:26-51 | 403 for a non-personal caller, 500 for a token without a user id, each leaving the table alone; success exactly for a personal caller with a user id: one row appended with the next id, owned by the caller, with the given company name, position and application date, status "preparing documents" and both timestamps the current time |
| CompanyApplicationRoutes.UpdateApplication | Jobaboso-back/app/routes/company_application.py:193-220 | 403 for a non-personal caller; otherwise the table is the crud update's, and success exactly when the caller owns an application with that id, else 404 |
| CompanyApplicationRoutes.DeleteApplication | Jobaboso-back/app/routes/company_application.py:223-246 | success exactly when a personal caller owns an application with that id; then it and all its documents and schedules are gone, and a review that pointed at it keeps its row with application_id NULL and updated_at moved to now; a failure changes no table |
| CompanyApplicationRoutes.CreateSchedules | Jobaboso-back/app/routes/company_application.py:566-610 | the guard's error, or 400 for an empty list, each leaving the table alone; success exactly when both pass, with one new row per item, in order, uncompleted, with consecutive ids |
| CompanyApplicationRoutes.ScheduleListOf | Jobaboso-back/app/routes/company_application.py:619-654 | fails exactly when the guard fails; total_count is the length of the list, a permutation of the application's schedules sorted by start |
| CompanyApplicationRoutes.UpdateSchedule | Jobaboso-back/app/routes/company_application.py:656-695 | a failed guard changes nothing; otherwise the crud update applies, and success exactly when the schedule is in that application, else 404 |
| CompanyApplicationRoutes.CompleteSchedule | Jobaboso-back/app/routes/company_application.py:697-735 | a failed guard changes nothing; otherwise the schedule is marked completed, and success exactly when it is in that application, answering the stored row `Completed` of the old one, else 404 |
| CompanyApplicationRoutes.DeleteSchedule | Jobaboso-back/app/routes/company_application.py:737-773 | a failed guard changes nothing; otherwise its first row in that application is deleted, and 404 exactly when there was none |
| CompanyRoutes.RequireCompany | Jobaboso-back/app/routes/company.py:35-39 | passes exactly when the token has a non-empty user_id and user_type "company"; otherwise the 403 company-only error |
| CompanyRoutes.RandomPersonalUsersList | Jobaboso-back/app/routes/company.py:24-71 | 403 for a non-company caller, then 400 for a limit above 6, then 500 for a negative limit the database refuses; success exactly when the limit is 0 to 6, with one card per drawn user, at most `limit` cards, never more than the number of personal users reported beside them, no user twice |
| CompanyRoutes.CurrentUser | Jobaboso-back/app/routes/company.py:94-99 | none exactly when no users row has the caller's id; otherwise that row |
| CompanyRoutes.CreateLike | Jobaboso-back/app/routes/company.py:76-123 | 403, then 404 without a users row, then 400 carrying the crud's message exactly when the crud refuses; a failure leaves the table alone; a success appends one like with the next id, the caller's company and its name, the target, the message, the contact e-mail, phone and suggested position as sent, the caller's name as HR manager and the current time |
| CompanyRoutes.TotalPages | Jobaboso-back/app/routes/company.py:171 | 1 for no likes; ceil(total/limit) for a positive limit; a division by zero exactly when there are likes and the limit is 0 |
| CompanyRoutes.LikesListAnswer | Jobaboso-back/app/routes/company.py:131-205 | 403 for a non-company caller, then 400 for page < 1, then 400 for a limit above 24; then 500 for a negative limit when the caller has a company, 500 for a zero limit when there are likes, and the out-of-range 400 naming the page count when the page is past it; success exactly when none of these applies |
| CompanyRoutes.AcceptedListing | Jobaboso-back/app/routes/company.py:161-205 | an accepted listing passed every guard, echoes page and limit, counts all the company's likes, has ceil(total/limit) pages with page in range when there are likes, one empty page when there are none, and shows the requested window |
| CompanyRoutes.AcceptedPageIsNotEmpty | Jobaboso-back/app/routes/company.py:171-178 | when the company has likes, an accepted page shows between 1 and limit of them, and the pages cover every like |
| CompanyRoutes.NoLikesOnePage | Jobaboso-back/app/routes/company.py:171 | a company without likes gets the single empty first page for any limit from 0 to 24 |
| CompanyRoutes.ZeroLimitFails | Jobaboso-back/app/routes/company.py:171 | limit 0 with likes present divides by zero: a server error |
| CompanyRoutes.LikesList | Jobaboso-back/app/routes/company.py:131-205 | the endpoint as a sequence of steps answers exactly `LikesListAnswer` |
| CompanyRoutes.DeleteLike | Jobaboso-back/app/routes/company.py:207-233 | 403 for a non-company caller; otherwise success exactly when a like with that id belongs to the caller's company, else 404; a failure changes nothing; a success removes exactly that like |
| CompanyCrud.Age | Jobaboso-back/app/crud/company.py:34-40 | none exactly without a birth date; otherwise the number of completed years: that birthday has passed by today and the next has not |
| CompanyCrud.AgeIsUnique | Jobaboso-back/app/crud/company.py:34-40 | any number of years that fits "birthday passed, next not yet" is the age computed |
| CompanyCrud.InternActivities | Jobaboso-back/app/crud/company.py:51-55 | exactly the user's activities of type intern |
| CompanyCrud.CareerPeriod | Jobaboso-back/app/crud/company.py:78-92 | "경력 없음" exactly for no internships; otherwise one of the three count labels; the fallback "경력 있음" is unreachable |
| CompanyCrud.CareerPeriodCounts | Jobaboso-back/app/crud/company.py:78-92 | two lists get the same label exactly when their lengths agree once capped at 3 |
| CompanyCrud.NamesOf | Jobaboso-back/app/crud/company.py:65 | exactly the non-empty skill names of the rows, no more of them than rows |
| CompanyCrud.UserSkillRows | Jobaboso-back/app/crud/company.py:59-64 | exactly the user's skill rows |
| CompanyCrud.SkillNames | Jobaboso-back/app/crud/company.py:59-65 | at most two names, each a non-empty name of one of the user's skills, and every non-empty name among the user's first two rows is there |
| CompanyCrud.SkillNamesFirstTwo | Jobaboso-back/app/crud/company.py:59-65 | the list is the name of the user's first skill row, then that of the second, each only when set and not empty |
| CompanyCrud.NameOf | Jobaboso-back/app/crud/company.py:69 | None when the user has no users row; otherwise the name on the first row with that user id |
| CompanyCrud.MajorOf | Jobaboso-back/app/crud/company.py:43-44 | None when the user has no education row; otherwise the major on the first such row |
| CompanyCrud.JobOf | Jobaboso-back/app/crud/company.py:47-48 | None when the user has no hope row; otherwise the job on the first such row |
| CompanyCrud.PersonalCandidates | Jobaboso-back/app/crud/company.py:11-14 | exactly the personalusers rows joined to a users row of type personal |
| CompanyCrud.Cards | Jobaboso-back/app/crud/company.py:23-26 | one card per drawn user, in order |
| CompanyCrud.RandomPersonalUsersWithDetails | Jobaboso-back/app/crud/company.py:9-28 | the loop builds exactly one card per drawn user, in order |
| CompanyCrud.DrawFitsCandidates | Jobaboso-back/app/crud/company.py:11-16 | a draw of distinct personal users from the joined rows has no more rows than there are |
| CompanyCrud.CompanyIdOf | Jobaboso-back/app/crud/company.py:105-111 | an id exactly when the user has a users row and a company_users row; it is the company of such a row |
| CompanyCrud.EmployerOf | Jobaboso-back/app/crud/company.py:117-118 | the company id when there is one and it is not 0 (`not company_id`) |
| CompanyCrud.LikeError | Jobaboso-back/app/crud/company.py:113-147 | each of the four messages exactly when the checks before it pass and its own fails: not an employee, company missing, target not a personal user, already liked; no other message |
| CompanyCrud.CompanyNameOf | Jobaboso-back/app/crud/company.py:122-125 | the name of a company row with that id |
| CompanyCrud.CompanyLikeCount | Jobaboso-back/app/crud/company.py:201-210 | 0 for a caller without a company; otherwise the number of the company's likes |
| CompanyCrud.CompanyLikeRows | Jobaboso-back/app/crud/company.py:167-179 | none for a caller without a company; otherwise the window at the offset of the company's likes ordered newest first, as many as remain after the offset, up to the limit |
| CompanyCrud.FirstPageHoldsAll | Jobaboso-back/app/crud/company.py:167-210 | a first page at least as large as the table holds exactly the company's likes, each as often as in the table, and as many as the count counts |
| CompanyCrud.PageInRangeIsNotEmpty | Jobaboso-back/app/crud/company.py:172-179 | a page number within ceil(count/limit) shows between 1 and limit likes |
| CompanyCrud.Join3 | Jobaboso-back/app/crud/company.py:196 | three fields and two separators, each field intact at its place |
| CompanyCrud.Join2 | Jobaboso-back/app/crud/company.py:196 | two fields and one separator, each field intact on its side |
| CompanyCrud.FormatDate | Jobaboso-back/app/crud/company.py:196 | "%Y-%m-%d" for four-digit years: ten characters, dashes at 4 and 7, and digit fields that read as the year, the month and the day |
| CompanyCrud.FormatTime | Jobaboso-back/app/crud/company.py:196 | "%H:%M:%S": eight characters, colons at 2 and 5, and two-digit fields that read as the hour, the minute and the second |
| CompanyCrud.FormatDateTime | Jobaboso-back/app/crud/company.py:196 | "%Y-%m-%d %H:%M:%S": nineteen characters, the formatted date, a space, the formatted time |
| CompanyCrud.TargetName | Jobaboso-back/app/crud/company.py:183-184 | "알 수 없음" when the target has no users row; otherwise the name on that row |
| CompanyCrud.LikeViews | Jobaboso-back/app/crud/company.py:181-197 | one listed entry per like of the page, in order |
| CompanyCrud.ViewsOf | Jobaboso-back/app/crud/company.py:181-199 | the loop builds exactly `LikeViews` |
| CompanyCrud.AppendKeepsLikesValid | Jobaboso-back/app/crud/company.py:137-165 | a like under the next id for a pair not yet liked keeps ids distinct and no pair repeated |
| CompanyCrud.RemoveKeepsLikesValid | Jobaboso-back/app/crud/company.py:229-231 | removing a row keeps the table valid, and its id is gone |
| CompanyCrud.LikeTable.constructor | Jobaboso-back/app/models/company.py:35-47 | an empty, valid table whose autoincrement id starts at 1 |
| CompanyCrud.LikeTable.Create | Jobaboso-back/app/crud/company.py:113-165 | fails exactly when `LikeError` gives a message, leaving the table alone; otherwise appends the like under the next id, for the caller's company, with its name and the current time; the table stays valid |
| CompanyCrud.LikeTable.CompanyLikes | Jobaboso-back/app/crud/company.py:167-199 | the listed form of exactly the page `CompanyLikeRows` gives |
| CompanyCrud.LikeTable.Delete | Jobaboso-back/app/crud/company.py:212-231 | true exactly when the caller has a company and a like with that id belongs to it; then exactly that row is removed; otherwise nothing changes |
| JobReviewCrud.CreateRefusal | Jobaboso-back/app/crud/job_review.py:11-50 | no refusal exactly when the application, if truthy, is the user's and the keys accept the row; "application not found" exactly when a truthy application is not the user's; "already written" exactly when it is the user's and some review points at it; anything else is a constraint violation of the insert |
| JobReviewCrud.ChildrenOfAppended | Jobaboso-back/app/crud/job_review.py:52-66 | rows appended for a review no older row points at are exactly that review's children |
| JobReviewCrud.PositionRowsNames | Jobaboso-back/app/crud/job_review.py:53-58 | the position names of the inserted rows are the items given, in order |
| JobReviewCrud.DetailOf | Jobaboso-back/app/crud/job_review.py:71-86 | a review exactly when some row passes the filter; it is such a row, with its children |
| JobReviewCrud.ApplyFields | Jobaboso-back/app/crud/job_review.py:244-246 | the setattr loop never touches the id, the author, the application or the timestamps |
| JobReviewCrud.ApplyFieldsAppend | Jobaboso-back/app/crud/job_review.py:245-246 | setting a + b is setting a, then b |
| JobReviewCrud.SetFieldsOverwrite | Jobaboso-back/app/crud/job_review.py:244-246 | the loop over the set fields gives the reference update: every set scalar replaced, every other kept |
| JobReviewCrud.HeadFieldsOverwrite | Jobaboso-back/app/crud/job_review.py:244-246 | the same for company name, experience level and interview date |
| JobReviewCrud.TailFieldsOverwrite | Jobaboso-back/app/crud/job_review.py:244-246 | the same for evaluation, difficulty, review text and final result |
| JobReviewCrud.ApplyFieldsStep | Jobaboso-back/app/crud/job_review.py:245-246 | one more field appended to the loop applies just that field |
| JobReviewCrud.Patched | Jobaboso-back/app/crud/job_review.py:244-269 | id, author, application and creation time are kept, and an empty update changes nothing |
| JobReviewCrud.ReviewsUpdated | Jobaboso-back/app/crud/job_review.py:234-246 | the owned row with that id becomes the patched row (each set scalar written in order, updated_at moved only on a change); no other row changes; without such a row nothing changes |
| JobReviewCrud.Detached | Jobaboso-back/app/models/job_review.py:13-34 | deleting an application keeps every review; one that pointed at it now has application_id NULL and updated_at now (the UPDATE runs the column's onupdate), every other is unchanged, and none points at it |
| JobReviewCrud.ReviewStore.DetachApplication | Jobaboso-back/app/models/job_review.py:13-34 | the reviews become `Detached`, the positions and questions stay, and the table stays valid |
| JobReviewCrud.AppendKeepsReviewsValid | Jobaboso-back/app/crud/job_review.py:37-50 | a review under the next id, for an application no review holds, keeps ids distinct and one review per application |
| JobReviewCrud.NewReviewIsFound | Jobaboso-back/app/crud/job_review.py:71-74 | the review just appended is the one found by its id |
| JobReviewCrud.RemoveKeepsReviewsValid | Jobaboso-back/app/crud/job_review.py:287-289 | removing a review keeps the table valid, and its id is gone |
| JobReviewCrud.PatchKeepsReviewsValid | Jobaboso-back/app/crud/job_review.py:244-246 | rewriting scalars of a review keeps the table valid |
| JobReviewCrud.UserReviews | Jobaboso-back/app/crud/job_review.py:94-102 | the window at (page-1)*page_size of the user's reviews ordered newest first, as many as remain after the offset, up to the page size; a first page as large as the table is all of them |
| JobReviewCrud.EducationOf | Jobaboso-back/app/crud/job_review.py:172 | none exactly when the user has no education row; otherwise one of theirs |
| JobReviewCrud.Narrowing | Jobaboso-back/app/crud/job_review.py:169-173 | the narrowing applies exactly when a flag is set and the requester has a personal row and an education row; then it uses that education |
| JobReviewCrud.PublicReviews | Jobaboso-back/app/crud/job_review.py:142-191 | the window at (page-1)*page_size of the reviews not by the requester that pass the join and every given filter, ordered newest first; as many as remain after the offset, up to the page size, and a first page large enough holds every matching review |
| JobReviewCrud.JoinMeetsFirstRow | Jobaboso-back/app/crud/job_review.py:175-188 | with Education keyed by user id, the join on the author's Education rows passes exactly when the author's first row passes the school and major filters |
| JobReviewCrud.NullSchoolMatchesNullSchool | Jobaboso-back/app/crud/job_review.py:181-184 | a requester with a NULL school name meets authors whose school name is NULL: `== None` compiles to IS NULL |
| JobReviewCrud.NarrowingNeedsProfile | Jobaboso-back/app/crud/job_review.py:169-188 | for a requester without a personal or an education row, the school and major flags change nothing |
| JobReviewCrud.AvailableApplications | Jobaboso-back/app/crud/job_review.py:291-308 | exactly the user's applications with a finished status and no review, most recently updated first, each once |
| JobReviewCrud.ReviewStore.constructor | Jobaboso-back/app/models/job_review.py:8-60 | three empty, valid tables |
| JobReviewCrud.ReviewStore.GetJobReview | Jobaboso-back/app/crud/job_review.py:76-80 | found exactly when a review has the id; it is that review |
| JobReviewCrud.ReviewStore.GetJobReviewByApplication | Jobaboso-back/app/crud/job_review.py:82-86 | found exactly when a review points at the application; it is such a review |
| JobReviewCrud.ReviewStore.AddPositions | Jobaboso-back/app/crud/job_review.py:53-58 | appends one position row per item, in order, for the review, with fresh ids; nothing else changes |
| JobReviewCrud.ReviewStore.AddQuestions | Jobaboso-back/app/crud/job_review.py:61-66 | the same for the interview questions |
| JobReviewCrud.ReviewStore.Create | Jobaboso-back/app/crud/job_review.py:11-74 | refused exactly when `CreateRefusal` says so, with that refusal and no change; otherwise the new review with the next id and its children, found again by its id |
| JobReviewCrud.ReviewStore.Insert | Jobaboso-back/app/crud/job_review.py:37-74 | once the checks pass: the review, its positions and its questions are appended and it is found by its id |
| JobReviewCrud.ReviewStore.UserReviewsPaginated | Jobaboso-back/app/crud/job_review.py:88-127 | the total is the number of the user's reviews, pages are ceil(total/page_size), and the items are the page `UserReviews` gives |
| JobReviewCrud.ReviewStore.PublicReviewsPaginated | Jobaboso-back/app/crud/job_review.py:129-226 | the total counts every review that passes the public query, pages are ceil(total/page_size), and the items are the page `PublicReviews` gives |
| JobReviewCrud.ReviewStore.Update | Jobaboso-back/app/crud/job_review.py:228-274 | found exactly when the user owns a review with that id, and the answer is that review patched; the reviews become `ReviewsUpdated`; given positions or questions replace the review's old ones, absent ones are kept |
| JobReviewCrud.ReviewStore.ReplacePositions | Jobaboso-back/app/crud/job_review.py:248-256 | the review's old positions go; its positions are then the new rows, in order |
| JobReviewCrud.ReviewStore.ReplaceQuestions | Jobaboso-back/app/crud/job_review.py:258-266 | the same for the interview questions |
| JobReviewCrud.ReviewStore.Delete | Jobaboso-back/app/crud/job_review.py:276-289 | true exactly when the user owns a review with that id; then it and its children are gone; otherwise nothing changes |
| JobReviewSchema.ParseExperienceLevel | Jobaboso-back/app/schema/job_review.py:6-8 | parses to a member exactly when the text is that member's value (both directions) |
| JobReviewSchema.ParseOverallEvaluation | Jobaboso-back/app/schema/job_review.py:10-13 | parses to a member exactly when the text is that member's value |
| JobReviewSchema.ParseDifficulty | Jobaboso-back/app/schema/job_review.py:15-18 | parses to a member exactly when the text is that member's value |
| JobReviewSchema.ParseFinalResult | Jobaboso-back/app/schema/job_review.py:20-24 | parses to a member exactly when the text is that member's value |
| JobReviewSchema.MakeReviewCreate | Jobaboso-back/app/schema/job_review.py:27-70 | accepted exactly when company_name has at most 100 characters, there are 1 to 5 positions of at most 100 characters, every enum value parses, every question has at most 1000 characters and the review text has 10 to 5000; the accepted body keeps every field, missing questions becoming []; a refusal flags exactly the failing fields |
| JobReviewSchema.MakeReviewUpdate | Jobaboso-back/app/schema/job_review.py:104-122 | accepted exactly when every field the body sets meets the create body's bound; the accepted body is the one given; a refusal flags exactly the failing set fields |
| CompanyApplicationCrud.ApplyFields | Jobaboso-back/app/crud/company_application.py:89-91 | the explicitly set fields are written in order: a field never set keeps its old value, the last write of status or company name wins, and id, owner and timestamps never change |
| CompanyApplicationCrud.ApplyFieldsWritesLast | Jobaboso-back/app/crud/company_application.py:89-91 | for every field (company name, position, application date, status) the updated row holds the last value written to it, or its old value when none was; nothing else changes |
| CompanyApplicationCrud.Patched | Jobaboso-back/app/crud/company_application.py:89-95 | an update never changes id, owner or creation time, and an update that sets no field leaves the row as it was |
| CompanyApplicationCrud.Updated | Jobaboso-back/app/crud/company_application.py:79-95 | the table keeps its length; the first row matching both the id and the owner becomes the patched row; no other row changes; with no such row the table is unchanged; no row's id or owner changes |
| CompanyApplicationCrud.UserApplications | Jobaboso-back/app/crud/company_application.py:45-59 | the window at the offset of the user's rows ordered newest first; as many rows as the user's count leaves after the offset, up to the limit |
| CompanyApplicationCrud.UserApplicationCount | Jobaboso-back/app/crud/company_application.py:61-70 | the number of the user's rows, which is the length of the ordering every page is cut from |
| CompanyApplicationCrud.ApplicationsByStatus | Jobaboso-back/app/crud/company_application.py:117-137 | the window at the offset of the user's rows with that status ordered newest first; as many as remain after the offset, up to the limit; a first page as large as the table holds all of them |
| Common.NewestOrder | Jobaboso-back/app/crud/company_application.py:52-55 | `.filter(p).order_by(key.desc())`: exactly the matching rows, as a multiset, newest first |
| Common.NewestFirst | Jobaboso-back/app/crud/company_application.py:52-58 | OFFSET/LIMIT is the window at the offset of `NewestOrder`: as many matching rows as remain after the offset, up to the limit, newest first |
| Common.ConsecutivePages | Jobaboso-back/app/crud/company_application.py:52-58 | a page followed by the next is the page spanning both, so paging shows no row twice and skips none |
| CompanyApplicationCrud.ApplicationTable.constructor | Jobaboso-back/app/models/company_application.py:8-25 | a new table is empty and valid, with ids starting at 1 |
| CompanyApplicationCrud.ApplicationTable.Create | Jobaboso-back/app/crud/company_application.py:11-27 | appends one row with the next id, the caller as owner and status "preparing_documents"; ids stay distinct |
| CompanyApplicationCrud.ApplicationTable.Get | Jobaboso-back/app/crud/company_application.py:29-31 | a row is found exactly when some row has that id, and the row returned has it |
| CompanyApplicationCrud.ApplicationTable.Update | Jobaboso-back/app/crud/company_application.py:72-95 | answers a row exactly when a row with that id belongs to the caller, and that row patched; the new table is `Updated`, and ids stay distinct |
| CompanyApplicationCrud.ApplicationTable.Delete | Jobaboso-back/app/crud/company_application.py:97-115 | true exactly when an owned row with that id existed; afterwards no such row remains and the other rows stay |
| ApplicationScheduleCrud.ApplyFields | Jobaboso-back/app/crud/application_schedule.py:63-65 | the set fields are written in order: a schedule type, start date, end date, note or completion flag never set keeps its old value, the last completion write wins, and id, application and timestamps never change |
| ApplicationScheduleCrud.ApplyFieldsWritesLast | Jobaboso-back/app/crud/application_schedule.py:63-65 | for every field (schedule type, start date, end date, notes, completion) the updated row holds the last value written to it, or its old value when none was; nothing else changes |
| ApplicationScheduleCrud.Patched | Jobaboso-back/app/crud/application_schedule.py:63-69 | an update never changes id, application or creation time, and an update setting no field leaves the row as it was |
| ApplicationScheduleCrud.Completed | Jobaboso-back/app/crud/application_schedule.py:108-111 | marking a row with the flag it already has changes nothing (no UPDATE is issued); otherwise only the flag changes and updated_at moves to now |
| ApplicationScheduleCrud.Updated | Jobaboso-back/app/crud/application_schedule.py:53-69 | the table keeps its length; the first row matching both ids becomes the patched row; no other row changes; with none the table is unchanged; no id or application changes |
| ApplicationScheduleCrud.CompletedRows | Jobaboso-back/app/crud/application_schedule.py:98-111 | the table keeps its length; the first row matching both ids becomes `Completed` of itself; no other row changes; with no scoped row the table is unchanged |
| ApplicationScheduleCrud.ApplicationSchedules | Jobaboso-back/app/crud/application_schedule.py:27-37 | exactly the application's schedules, as a multiset, earliest start first |
| ApplicationScheduleCrud.SchedulesByType | Jobaboso-back/app/crud/application_schedule.py:113-129 | exactly the application's schedules of that type, as a multiset, earliest start first |
| ApplicationScheduleCrud.ApplicationOf | Jobaboso-back/app/crud/application_schedule.py:146 | the joined application has the schedule's application id, and none is found only when no application has it |
| ApplicationScheduleCrud.Entries | Jobaboso-back/app/crud/application_schedule.py:139-145 | one calendar entry per schedule, in order, carrying the joined company name and the schedule's type, dates and notes |
| ApplicationScheduleCrud.MonthRows | Jobaboso-back/app/crud/application_schedule.py:146-155 | every schedule kept belongs to one of the user's applications and starts in the given year and month; earliest first; as many as the join and filter select |
| ApplicationScheduleCrud.UserSchedulesByMonth | Jobaboso-back/app/crud/application_schedule.py:131-156 | every entry starts in the given year and month, earliest first; the entries are those of some ordering of exactly the schedules of the user's applications in that month, each with its schedule's type, dates and notes and its application's company name |
| ApplicationScheduleCrud.ScheduleTable.constructor | Jobaboso-back/app/models/application_schedule.py:8-23 | a new table is empty and valid, with ids starting at 1 |
| ApplicationScheduleCrud.ScheduleTable.Create | Jobaboso-back/app/crud/application_schedule.py:9-25 | appends one row with the next id, not completed, stamped with the current time; ids stay distinct |
| ApplicationScheduleCrud.ScheduleTable.Get | Jobaboso-back/app/crud/application_schedule.py:39-44 | a row is found exactly when some row has that id, and the row returned has it |
| ApplicationScheduleCrud.ScheduleTable.Update | Jobaboso-back/app/crud/application_schedule.py:46-69 | answers a row exactly when a row matches both ids, and that row patched; the new table is `Updated`; ids stay distinct |
| ApplicationScheduleCrud.ScheduleTable.MarkCompleted | Jobaboso-back/app/crud/application_schedule.py:91-111 | answers a row exactly when a row matches both ids, and it is `Completed` of that old row; the new table is `CompletedRows` |
| ApplicationScheduleCrud.ScheduleTable.Delete | Jobaboso-back/app/crud/application_schedule.py:71-89 | true exactly when a scoped row existed; afterwards none remains and the other rows stay |
| ApplicationScheduleCrud.ScheduleTable.DeleteForApplication | Jobaboso-back/app/models/company_application.py:30 | deleting an application removes exactly its schedules and keeps the others in order |
| ApplicationDocumentCrud.ApplicationDocuments | Jobaboso-back/app/crud/application_document.py:28-38 | exactly the application's documents, as a multiset, newest upload first |
| ApplicationDocumentCrud.DocumentsByType | Jobaboso-back/app/crud/application_document.py:67-83 | exactly the application's documents of that type, as a multiset, newest upload first |
| ApplicationDocumentCrud.DocumentTable.constructor | Jobaboso-back/app/models/application_document.py:8-21 | a new table is empty and valid, with ids starting at 1 |
| ApplicationDocumentCrud.DocumentTable.Create | Jobaboso-back/app/crud/application_document.py:7-26 | appends one row with the next id and every field as given, stamped with the current time; ids stay distinct |
| ApplicationDocumentCrud.DocumentTable.Get | Jobaboso-back/app/crud/application_document.py:40-45 | a row is found exactly when some row has that id, and the row returned has it |
| ApplicationDocumentCrud.DocumentTable.Delete | Jobaboso-back/app/crud/application_document.py:47-65 | true exactly when a row matched both ids; on false nothing changes; afterwards no such row remains |
| ApplicationDocumentCrud.DocumentTable.DeleteForApplication | Jobaboso-back/app/models/company_application.py:29 | deleting an application removes exactly its documents and keeps the others in order |
| SpecCrud.SkillRows | Jobaboso-back/app/crud/spec.py:17-19 | one `skills` row per item, in order, each owned by the user; reading the rows back gives the items again |
| SpecCrud.ProjectRows | Jobaboso-back/app/crud/spec.py:20-22 | one `projects` row per item, in order, each owned by the user; reading them back gives the items again |
| SpecCrud.ActivityRows | Jobaboso-back/app/crud/spec.py:23-25 | one `activities` row per item, in order, each owned by the user; reading them back gives the items again |
| SpecCrud.CertificateRows | Jobaboso-back/app/crud/spec.py:26-28 | one `certificates` row per item, in order, each owned by the user; reading them back gives the items again |
| SpecCrud.FirstEducation | Jobaboso-back/app/crud/spec.py:93-103 | an education is reported exactly when the user has at least one education row |
| SpecCrud.FirstHope | Jobaboso-back/app/crud/spec.py:105-112 | a hope is reported exactly when the user has at least one hope row |
| SpecCrud.EducationRows | Jobaboso-back/app/crud/spec.py:29-32 | any education row written is owned by the user |
| SpecCrud.HopeRows | Jobaboso-back/app/crud/spec.py:33-36 | any hope row written is owned by the user |
| SpecCrud.Saved | Jobaboso-back/app/crud/spec.py:6-37 | after a save there are as many skill rows as other users' rows plus the body's skills, and one more education row only when the body has an education |
| SpecCrud.PersonalInfoOf | Jobaboso-back/app/crud/spec.py:65-72 | name, phone and e-mail come from the `users` row; birth date, gender and profile address come from the first `personalusers` row of that user, and are empty without one |
| SpecCrud.PublicOf | Jobaboso-back/app/crud/spec.py:143-181 | one item per skill, project, activity and certificate row, and an education or hope exactly when there is a row of it |
| SpecCrud.GetAllSpec | Jobaboso-back/app/crud/spec.py:40-122 | a missing user gets the empty spec; personal information is present exactly when the user exists and is built from that user's rows; the lists, education and hope are those of `PublicOf` on the user's own rows |
| SpecCrud.GetPublicSpec | Jobaboso-back/app/crud/spec.py:124-190 | a missing user gets the empty public spec; otherwise the public spec of the user's own rows |
| SpecCrud.PublicSpecIsAllSpecWithoutInfo | Jobaboso-back/app/crud/spec.py:40-190 | the public spec is always the full spec with the personal information removed |
| SpecCrud.ReplacedRows | Jobaboso-back/app/crud/spec.py:8-28 | after deleting one user's rows and appending new rows of theirs, a WHERE on that user finds exactly the new rows, and a WHERE on anyone else finds what it found before |
| SpecCrud.ReplaceTwice | Jobaboso-back/app/crud/spec.py:8-28 | deleting and appending one user's rows twice gives the same table as doing it once |
| SpecCrud.SavedOwnRows | Jobaboso-back/app/crud/spec.py:6-37 | after a save the user's rows in each of the six tables are exactly the rows built from the body |
| SpecCrud.SaveThenRead | Jobaboso-back/app/crud/spec.py:6-122 | reading a spec after saving it returns the lists saved, a null list as empty, and the education and hope exactly as sent |
| SpecCrud.SavedOthersRows | Jobaboso-back/app/crud/spec.py:6-37 | a save leaves every other user's rows unchanged in all six tables |
| SpecCrud.SaveKeepsOthers | Jobaboso-back/app/crud/spec.py:6-122 | a save does not change any other user's spec |
| SpecCrud.SaveIdempotent | Jobaboso-back/app/crud/spec.py:6-37 | saving the same body twice leaves the tables as one save does |
| SpecCrud.SpecStore.constructor | Jobaboso-back/app/models/spec.py:12-65 | the six tables start empty |
| SpecCrud.SpecStore.Save | Jobaboso-back/app/crud/spec.py:6-38 | succeeds exactly when the user exists or the body has no row to insert; it then answers the saved message and the tables become `Saved`; otherwise the failed inserts leave only the committed deletes |
| SpecCrud.SpecStore.Clear | Jobaboso-back/app/crud/spec.py:8-14 | every table loses exactly the user's rows |
| SpecCrud.SpecStore.AddEducation | Jobaboso-back/app/crud/spec.py:29-32 | appends the education's row when there is one; the other tables stay |
| SpecCrud.SpecStore.AddHope | Jobaboso-back/app/crud/spec.py:33-36 | appends the hope's row when there is one; the other tables stay |
| SpecCrud.SpecStore.AddSkills | Jobaboso-back/app/crud/spec.py:17-19 | appends `SkillRows` of the items; the other tables stay |
| SpecCrud.SpecStore.AddProjects | Jobaboso-back/app/crud/spec.py:20-22 | appends `ProjectRows` of the items; the other tables stay |
| SpecCrud.SpecStore.AddActivities | Jobaboso-back/app/crud/spec.py:23-25 | appends `ActivityRows` of the items; the other tables stay |
| SpecCrud.SpecStore.AddCertificates | Jobaboso-back/app/crud/spec.py:26-28 | appends `CertificateRows` of the items; the other tables stay |
| SpecSchema.ParseActivityType | Jobaboso-back/app/schema/spec.py:6-9 | a string names an activity type exactly when it is that type's value |
| SpecSchema.TokenValue | Jobaboso-back/app/schema/spec.py:26 | a `%m` or `%d` field reads as a day number from 1 to 31, and a month field as at most 12 |
| SpecSchema.ParseIsoDate | Jobaboso-back/app/schema/spec.py:26 | a parsed date exists in the calendar, and comes from a string of 8 to 10 characters whose first four are the digits of the year followed by a dash |
| SpecSchema.ParseDate | Jobaboso-back/app/schema/spec.py:20-28 | null and date values pass unchanged; any other non-string fails; a string passes exactly when it parses as year-month-day, and then gives a date that exists; every failure carries the one format message |
| Text.PaddedValue | Jobaboso-back/app/schema/spec.py:26 | a zero-padded number reads back as the same number |
| SpecSchema.PaddedToken | Jobaboso-back/app/schema/spec.py:26 | a zero-padded day is a valid `%d` field, and a padded month a valid `%m` field, each reading back as its number |
| SpecSchema.FormattedDateParses | Jobaboso-back/app/schema/spec.py:20-28 | every date that exists, once written as year-month-day, parses back to the same date |
| SpecSchema.MakeProject | Jobaboso-back/app/schema/spec.py:14-28 | a project is built exactly when both dates validate, and keeps its name, description and parsed dates; otherwise it fails as a bad date |
| SpecSchema.MakeActivity | Jobaboso-back/app/schema/spec.py:30-44 | an activity is built exactly when any given type is one of the three values and the date validates; an unknown type is reported as such |
| SpecSchema.MakeCertificate | Jobaboso-back/app/schema/spec.py:46-59 | a certificate is built exactly when its date validates, and keeps its name and score |
| SpecSchema.MakeEducation | Jobaboso-back/app/schema/spec.py:61-77 | an education is built exactly when both dates validate, and keeps every other field |
| SpecSchema.MakePersonalInfo | Jobaboso-back/app/schema/spec.py:85-101 | personal information is built exactly when the birth date validates, and keeps every other field |
| SpecSchema.ListDefault | Jobaboso-back/app/schema/spec.py:105-108 | a list field left out becomes the empty list, an explicit null stays null, and a sent list is kept |
| SpecSchema.ObjectDefault | Jobaboso-back/app/schema/spec.py:109-110 | an object field is present exactly when a value was sent |
| SpecSchema.MakeSpecBody | Jobaboso-back/app/schema/spec.py:104-110 | every list field takes the list default and both object fields the object default |
| SpecSchema.OrEmpty | Jobaboso-back/app/crud/spec.py:17-26 | a null list is read as empty, and any other list is kept |
| SpecSchema.AbsentAndNullListsAlike | Jobaboso-back/app/schema/spec.py:105-108 | a list field that is left out and one sent as null are both saved as no rows |
| TestRoutes.ExceptionText | Jobaboso-back/app/routes/test.py:396 | the text of a 404 error is "404: " followed by its detail |
| TestRoutes.MissingUserDetailQuotes404 | Jobaboso-back/app/routes/test.py:375-396 | the 500 detail for a missing user is the handler's prefix followed by the text of the 404 raised inside the `try` |
| TestRoutes.UserIndex | Jobaboso-back/app/routes/test.py:374 | a row is found exactly when some user has that id; it is the first such row |
| TestRoutes.UserIndexAfterPoints | Jobaboso-back/app/routes/test.py:374-384 | changing the found user's points does not change which row the lookup finds |
| TestRoutes.ClampedPoints | Jobaboso-back/app/routes/test.py:379-382 | the new total is never negative and never below old plus change, and is either old plus change or zero |
| TestRoutes.ClampedPointsUndo | Jobaboso-back/app/routes/test.py:379-382 | a change that keeps the total non-negative is undone by the opposite change |
| TestRoutes.ClampedPointsFloor | Jobaboso-back/app/routes/test.py:381-382 | a change that drives any total below zero leaves exactly zero |
| TestRoutes.GetUserPoints | Jobaboso-back/app/routes/test.py:399-414 | 404 exactly when no user has that id; otherwise the user's id and current points |
| TestRoutes.PointsStore.constructor | Jobaboso-back/app/routes/test.py:365-370 | the store holds the given users |
| TestRoutes.PointsStore.UpdateUserPoints | Jobaboso-back/app/routes/test.py:365-396 | a missing user gets a 500 quoting the 404 and nothing changes; otherwise only that user's points change, to the clamped total, the report carries old points, change and new points, and a later read shows the new points |
| TestRoutes.PlanLength | Jobaboso-back/app/routes/test.py:188-203 | two, four or six steps, never more than the timeline holds |
| TestRoutes.PlanSchedules | Jobaboso-back/app/routes/test.py:186-203 | the plan is the first `PlanLength` steps of the timeline, the k-th one (k+1) weeks after the application date |
| TestRoutes.CreateSchedules | Jobaboso-back/app/routes/test.py:205-213 | one row per planned step, in order, two hours long, completed exactly when it starts before now |
| TestRoutes.SampleSchedules | Jobaboso-back/app/routes/test.py:186-213 | at least four schedules exactly when the test stage was reached and six exactly when the interview stage was; weekly steps of the timeline, two hours long, strictly increasing in start |
| TestRoutes.SampleReviewFor | Jobaboso-back/app/routes/test.py:215-233 | a review exists exactly for a final status and a true coin; its result is a final pass for an accepted application and a fail otherwise; its text starts with the company and position and is long enough for the review schema |
| TestRoutes.ReviewedHasFullTimeline | Jobaboso-back/app/routes/test.py:193-216 | an application with a sample review also has all six schedules |

## Left out

- The call to the Gemini model, its prompt and the API key lookup are not modelled, because they are a network service. The reply arrives as a string, and JSON decoding is a parameter that may fail.
- Database sessions, commits, rollbacks and the external database engine are not modelled. Tables are in-memory sequences, and a query's rows are a given sequence.
- Relationship collections (`user.skills`, `application.documents`) are taken in table order. The ORM does not promise an order.
- SQL `LIKE` wildcards and the database collation are not modelled. A case-insensitive substring test stands for `ilike`.
- The row mapper merges embedded JSON only when it decodes to an object. A JSON array of pairs would also be merged by `dict.update`; it is not modelled.
- `time.time()` and the response's `execution_time` are left out, because they are clock readings and floating point.
- File writes and removals, `os.makedirs`, `FileResponse` and `uuid.uuid4` are not modelled, because they are I/O and randomness. The uuid is a parameter, and whether a stored file exists is an input.
- CompanyApplicationRoutes.UploadDocuments: does not model the removal of already saved files in the `except` branch, because that is file I/O. The rows recorded before the failure stay in the table, as they do in the code.
- CompanyApplicationRoutes.ParseDocumentType: the upload loop parses each type when it reaches it. The model parses all of them up front; the rows recorded and the error returned are the same.
- CompanyRoutes.CreateLike: the generic `Exception` → 500 branch for database errors is not modelled, because the model's tables do not fail.
- The instant of a `DATETIME` column is seconds on one clock. Time zones and microseconds are not modelled.
- The text helpers fold case and recognise digits for ASCII only. Python's Unicode case mapping and normalisation are not modelled.
- Redaction.SubstituteFrom: inserts the replacement text literally. The template at routes/staff_ai_search.py:80 is an f-string built from the query's own column text, and `re.sub` would interpret a backslash or a group reference in it; the model does not.
- StaffAiSearchSchema.OptionalReal: rejects every string. Pydantic's lax mode would also accept a numeric string such as "3.5" as a float; decimal parsing of strings is not modelled.
- SpecCrud.SaveThenRead: ignores the `String(n)` widths of the spec columns in models/spec.py. A strict MySQL server rejects a longer value at commit; the model stores any length.
- An update body that sets a non-null column explicitly to `null` is not modelled. The model's update fields carry values, and the database would reject such a write.
- Pydantic's error texts and error locations are not modelled beyond the failing field. Dates that reach `parse_date` as `datetime` objects are treated as dates.
- An education's `score` and the GPA of `StudentData` are reals. Floating-point rounding is not modelled.
- `users.points` is an `Integer` column, which the database bounds. The model's points are unbounded, so database overflow is not modelled.
- `verify_token` is not part of this model. The routes take its claims as input, and a `KeyError` raised outside a `try` is not modelled.
- `get_employment_statistics` is not modelled, because it is a fixed SQL string whose float `ROUND` runs in the database.
- routes/university_staff.py is not part of this model, because it computes float percentages and SHA-256 anonymised ids.
- routes/job_review.py, routes/personal.py and routes/spec.py are not modelled. They are token checks and status mapping over the crud rules above, which are modelled.
- crud/user.py and routes/user.py are left out, because they do password hashing and token issuing.
- main.py (application wiring, rate limiting, CORS) and the test scripts are not part of this model.
- CompanyCrud.RandomPersonalUsersWithDetails: the rows `ORDER BY rand() LIMIT limit` returns are an input. `CompanyCrud.IsDraw` says which inputs are possible (distinct personal users, at most `limit`, all of them when fewer exist); the distribution of the draw is not modelled.
- JobReviewCrud.PublicReviews: the join on Education is modelled through the author's first Education row. That is exact because Education has `user_id` as its primary key (`JobReviewCrud.JoinMeetsFirstRow`); a table with several rows per author would multiply the joined rows, and that case is not modelled.
- The random parts of `create_sample_data` are not modelled: the users, companies, documents, positions, questions and dates it draws. Only the rule from an application's status to its schedules and review is modelled.
- Commit boundaries are not modelled. A failed spec save keeps its committed deletes, the one partial state the code can leave.

## Findings

| source | as written | input that shows it | evidently intended | confidence | as-written member | corrected member |
|---|---|---|---|---|---|---|
| Jobaboso-back/app/routes/company_application.py:261-278 | the handler's path parameter `status` shadows the imported `fastapi.status` module, so `status.HTTP_403_FORBIDDEN` and `status.HTTP_400_BAD_REQUEST` are looked up on an `ApplicationStatus` member and raise AttributeError, answered with 500 | a token with `user_type` "company" asking for `/applications/status/documents_submitted?page=1&page_size=10` | 403 "개인 사용자만 접근할 수 있습니다." for a non-personal caller and the 400 pagination errors, as on `GET /applications/` | not executed; follows from Python's name resolution | CompanyApplicationRoutes.ApplicationsWithStatus (with CompanyApplicationRoutes.CompanyCallerGets500) | CompanyApplicationRoutes.ApplicationsWithStatusCorrected (with CompanyApplicationRoutes.StatusGuardsAnswer500) |
