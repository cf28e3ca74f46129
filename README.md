# Mission routes of nexus-project, modelled in Dafny

The model covers the project routes of the nexus-project server
(`server/src/routes/projectRoutes.js`). A "mission" is a `Project` row: a
title given by its owner, and a research report plus an embedding vector
that an AI service produces in the background. The model has two parts.

- **The list engine**, `GET /`. It reads `page`, `limit`, `search`, `sort`
  and `status` from the query string with JavaScript's `parseInt(x) || d`
  and `x || d` defaults. It then picks one of three strategies:
  - a plain owner-scoped listing in creation-date order, with an exact
    count;
  - a hybrid title/vector search ranked by cosine distance, with an
    approximate count;
  - a keyword-only fallback when no query vector can be had.

  These are pure functions over the table, a sequence of rows in scan
  order (modules `Params` and `Retrieval`).
- **The create handler and its background task**, `POST /`. A missing or
  empty title is refused. Otherwise a draft `Initializing...` row is
  inserted and sent back. A detached loop then makes up to three attempts.
  Each attempt asks the AI service for a report and then for an embedding
  of `title: <first 500 characters of the report>`. The loop waits
  `attempt * 2000` ms after each failed attempt but the last. It ends in
  exactly one write: `Completed`/`Demo Mode` with the report and embedding,
  or `Failed` with a report carrying the last error. The retry loop is
  specified by a recursive function (module `Enrichment`) and implemented
  as a `while` loop in the class `MissionStore` (module `Store`). That
  class also holds the owner-scoped `GET /:id` and `DELETE /:id`.

The AI service's answers are a per-attempt script, `nat -> AttemptScript`.
The query vector of a search is a parameter, `Option<Vector>`. Cosine
distance is an oracle `dist: (Vector, Vector) -> int` in thousandths, so
the 0.5 threshold is 500. The configured service address is a string, and
an unset `AI_SERVICE_URL` is `""` (both are falsy in JavaScript). The
requester is the owner id that the authentication middleware would attach.

Some facts about the code that the model keeps:

- the search text is not trimmed, so `search=" "` takes the hybrid path;
- the keyword fallback has no `ORDER BY`, so PostgreSQL promises no order
  for its rows; the model returns them in table order (see "Left out");
- a backoff is slept after attempt `n` only for `n < 3`, so the waits are
  2 s and 4 s, and there is never a wait of 6 s, though the comment at
  line 206 lists one;
- a failed store write inside the loop is caught like a remote error and
  retried (see "Left out").

## Model

| member | source | states |
|---|---|---|
| Params.TrimStart | server/src/routes/projectRoutes.js:29-30 | `parseInt` skips leading white space and only that: the result is a suffix of the input, every dropped character is white space, and the result does not start with white space |
| Params.ParseInt | server/src/routes/projectRoutes.js:29-30 | empty or blank text is NaN, and a negative result needs a leading minus sign; ParseDecimal, ParseNumeral and NonNumeric pin down the value for numerals and for text led by no digit |
| Params.IntParamOr | server/src/routes/projectRoutes.js:29-30 | `parseInt(x) \|\| d`: a missing, non-numeric or zero parameter gives the default; a non-zero parse is returned as it is (`?limit=7` gives 7); a non-zero default never yields 0 |
| Params.StringParamOr | server/src/routes/projectRoutes.js:31-33 | `x \|\| d`: a missing or empty parameter gives the default, any other text is kept as it is |
| Params.ParseDecimal | server/src/routes/projectRoutes.js:29-30 | a decimal numeral followed by nothing or by any character that is not a decimal digit (a letter, a dot, a space) parses to its value, and with a leading `-` to its negation; only an `x` after a lone `0` is excluded, since `0x` starts a hexadecimal numeral |
| Params.ParseNumeral | server/src/routes/projectRoutes.js:29-30 | the decimal numeral of any n parses back to n |
| Params.IntParamDecimal | server/src/routes/projectRoutes.js:29-30 | `?page=n` with n > 0 gives n; `?page=0` and a missing page give the default |
| Params.NonNumeric | server/src/routes/projectRoutes.js:29-30 | text that starts with no digit, sign or space parses to NaN (None) |
| Params.Offset | server/src/routes/projectRoutes.js:35 | the offset is 0 on page 1 and never negative for a page of at least 1 and a non-negative limit |
| Params.OffsetOfFirstPages | server/src/routes/projectRoutes.js:35 | for page and limit of at least 1 the offset is never negative, is 0 exactly on page 1, and grows by `limit` per page |
| Text.Lower | server/src/routes/projectRoutes.js:105 | lower-casing keeps the length and maps every character by its ASCII lower case |
| Text.ContainsIgnoringCase | server/src/routes/projectRoutes.js:88-105 | `ILIKE '%s%'` and `contains` with `mode: 'insensitive'`: true exactly when the lower-cased search text starts at some position of the lower-cased title |
| Text.ContainsAt | server/src/routes/projectRoutes.js:105 | containment holds iff the part starts at some position of the text |
| Retrieval.ParseSort | server/src/routes/projectRoutes.js:53 | only `asc` and `desc` are sort directions Prisma accepts |
| Retrieval.Count | server/src/routes/projectRoutes.js:58 | `count` never exceeds the number of rows; with Filter, it is the number of rows the WHERE keeps |
| Retrieval.CountZero | server/src/routes/projectRoutes.js:58 | the count is zero exactly when no row satisfies the condition |
| Retrieval.Filter | server/src/routes/projectRoutes.js:42-49 | a WHERE keeps exactly the rows that satisfy the condition, as many as `Count` says |
| Retrieval.Insert | server/src/routes/projectRoutes.js:53 | inserting into a sorted sequence keeps it sorted and adds exactly that row |
| Retrieval.LeadsAll | server/src/routes/projectRoutes.js:53 | a row no later than every row of a collection is no later than any row of a permutation of it |
| Retrieval.SortBy | server/src/routes/projectRoutes.js:53 | ORDER BY returns a sorted permutation of its input |
| Retrieval.SortByKeepsMembers | server/src/routes/projectRoutes.js:53 | sorting neither adds nor drops a row |
| Retrieval.Window | server/src/routes/projectRoutes.js:54-55 | Prisma `skip`/`take`: it fails iff skip < 0; at most \|take\| rows, all from the input; a non-negative take gives the rows from `skip` on, `min(take, rows left)` of them |
| Retrieval.SqlWindow | server/src/routes/projectRoutes.js:93 | `LIMIT/OFFSET` fails iff either is negative, and is otherwise the same window |
| Retrieval.WindowKeepsOrder | server/src/routes/projectRoutes.js:53-55 | a window of a sorted listing is sorted |
| Retrieval.PageCount | server/src/routes/projectRoutes.js:120 | for a positive limit there is always at least one page |
| Retrieval.PageCountIsCeiling | server/src/routes/projectRoutes.js:120 | `Math.ceil(total / limit) \|\| 1` is the least page count that holds every row, 1 for no rows, and 1 exactly when the rows fit in one page |
| Retrieval.PlainListing | server/src/routes/projectRoutes.js:41-58 | Strategy A fails iff the sort is unknown or the offset is negative; its rows are the requester's with the status filter applied, in date order, a window of the ordered rows; the total is the exact count |
| Retrieval.HybridRanking | server/src/routes/projectRoutes.js:82-92 | the ranking is sorted by distance to the query, closest first and NULL embeddings last, and has as many rows as the hybrid WHERE admits |
| Retrieval.HybridRankingIsComplete | server/src/routes/projectRoutes.js:82-92 | the hybrid ranking holds exactly the rows the hybrid WHERE admits, with their multiplicity |
| Retrieval.HybridSearch | server/src/routes/projectRoutes.js:79-98 | the raw query fails iff the offset or the limit is negative; rows are owner- and status-scoped, match the title or lie within the distance threshold, come closest first and are a slice of the ranking; the total is the row count if the page is not full, else 100 |
| Retrieval.KeywordSearch | server/src/routes/projectRoutes.js:100-112 | the fallback fails iff the offset is negative; its rows are owner- and status-scoped with the search text in the title ignoring case, a window of the matches in table order; the total is the number returned |
| Retrieval.ParamsOf | server/src/routes/projectRoutes.js:29-33 | the page and limit the handler uses are never 0 |
| Retrieval.Respond | server/src/routes/projectRoutes.js:115-127 | a failed strategy gives its error (500 "Database search failed"); otherwise the reply carries the strategy's rows and total and the requested page, with at least one page for a positive limit |
| Retrieval.Serve | server/src/routes/projectRoutes.js:35-122 | the handler sends its one /create-vector request exactly when the search is non-empty and a service is configured, and it fails only with "Database search failed"; PlainListingIsExact, HybridSearchRanksByDistance and KeywordFallback give its reply on each path |
| Retrieval.List | server/src/routes/projectRoutes.js:26-128 | GET / sends the search parameter as given, untrimmed, to /create-vector, and does so exactly when it is present and non-empty and a service is configured; its only error is "Database search failed" |
| Retrieval.KeywordPath | server/src/routes/projectRoutes.js:64-112 | with a search text and no service or no vector, the handler's reply is the keyword search's, and the request log holds the search text iff a service is configured |
| Retrieval.KeywordReply | server/src/routes/projectRoutes.js:100-122 | the reply built from the keyword search fails iff the offset is negative, holds scoped title matches, totals the rows returned, and for a positive limit is the window of the matches |
| Retrieval.ParamsDefaults | server/src/routes/projectRoutes.js:29-33 | missing, empty or unusable parameters read as page 1, limit 5, no search, `desc`, `All` |
| Retrieval.ListedRowsComeFromTable | server/src/routes/projectRoutes.js:115-122 | every listed row is a row of the requester's; at most \|limit\| rows; the page echoes the request; for a positive limit there is at least one page, and exactly one for no rows |
| Retrieval.AbsentMissionIsNeverListed | server/src/routes/projectRoutes.js:26-128 | a mission not in the table (a deleted one) is never listed |
| Retrieval.PlainListingIsExact | server/src/routes/projectRoutes.js:41-58 | an empty search makes no vector request and lists the requester's rows, status-filtered and date-ordered, with the exact total; for a positive limit the page is the date-ordered rows from `(page-1)*limit` on, as many as fit; it fails only with "Database search failed" for a bad sort or a negative offset |
| Retrieval.PlainListingIgnoresVectorService | server/src/routes/projectRoutes.js:41-75 | an empty search gives the same answer whatever the vector service is or would answer |
| Retrieval.PlainListingPage | server/src/routes/projectRoutes.js:35-56 | for page and limit of at least 1 and a known sort direction, the offset is not negative and the plain listing succeeds |
| Retrieval.HybridSearchRanksByDistance | server/src/routes/projectRoutes.js:64-98 | with a query vector, one request carrying the search text; rows scoped and matching, closest first, a slice of the full ranking; total is the row count or 100 |
| Retrieval.KeywordFallback | server/src/routes/projectRoutes.js:64-112 | with no service or no vector, the rows are scoped title matches (ignoring case) and the total is the number returned; a request is made only if a service is configured |
| Retrieval.PageTwoOfFive | server/src/routes/projectRoutes.js:29-33 | `?page=2&limit=5` reads as page 2, limit 5, no search, `desc`, `All` |
| Retrieval.SecondPageOfSeven | server/src/routes/projectRoutes.js:29-122 | seven missions, `?page=2&limit=5`: two rows and pagination (7, 2, 2) |
| Missions.Draft | server/src/routes/projectRoutes.js:156-162 | the inserted row is well formed, `Initializing...`, without report and embedding, with the given title and owner |
| Enrichment.EmbedText | server/src/routes/projectRoutes.js:185 | the embedding text is `title: ` followed by a prefix of the report of at most 500 characters, and by the whole report when it is short |
| Enrichment.FinalStatus | server/src/routes/projectRoutes.js:150 | `Demo Mode` iff the research reply's status is `demo_mode`, else `Completed` |
| Enrichment.FailureReport | server/src/routes/projectRoutes.js:215 | the failure report starts with the rate-limit notice and contains the error message |
| Enrichment.TryAttempt | server/src/routes/projectRoutes.js:177-196 | an attempt fails iff either request throws; it always requests research with the title, and requests the embedding of EmbedText iff research answered; success carries the final status, report and vector |
| Enrichment.Backoff | server/src/routes/projectRoutes.js:204-207 | a failed attempt is followed by a wait of at least 2 s, and every wait slept before the third attempt is under 6 s; LinearBackoff gives the i-th wait as `(i+1) * 2000` ms |
| Enrichment.RunFrom | server/src/routes/projectRoutes.js:173-220 | the loop ends after at most 3 attempts with a write, with one wait per failed attempt but the last |
| Enrichment.BackgroundTask | server/src/routes/projectRoutes.js:168-221 | with no service the background task does nothing; otherwise it makes 1 to 3 attempts and writes once |
| Enrichment.Prefixed | server/src/routes/projectRoutes.js:175-220 | a run continued after earlier calls and waits keeps those as its prefix |
| Enrichment.RunFromStep | server/src/routes/projectRoutes.js:175-220 | one more turn of the loop: success ends the run with its write, an early failure adds its backoff, the third failure writes the failure report |
| Enrichment.ResearchesAppend | server/src/routes/projectRoutes.js:181 | research requests of two call logs add up |
| Enrichment.ApplyWrite | server/src/routes/projectRoutes.js:190-217 | success sets status, report and embedding together; failure sets `Failed` and the report and leaves the embedding as it was; identity, title, owner and date never change |
| Enrichment.WriteFinishesDraft | server/src/routes/projectRoutes.js:190-217 | either terminal write turns a draft into a well-formed finished row with a report, and with an embedding iff it succeeded |
| Enrichment.StopsAtFirstSuccess | server/src/routes/projectRoutes.js:175-199 | every attempt before the last failed; the run writes the last attempt's success, or gives up after 3 attempts with the last error |
| Enrichment.LinearBackoff | server/src/routes/projectRoutes.js:205-208 | the i-th wait is `(i+1) * 2000` ms |
| Enrichment.OneResearchPerAttempt | server/src/routes/projectRoutes.js:181 | one research request per attempt |
| Enrichment.TerminalWrite | server/src/routes/projectRoutes.js:185-217 | a success stores the reply's report and vector, `Demo Mode` iff `demo_mode`, and its last request embedded the title and the report's start; giving up happens on attempt 3 with the error in the report |
| Enrichment.NoServiceNoTask | server/src/routes/projectRoutes.js:169 | with no AI_SERVICE_URL nothing is requested, waited for or written |
| Enrichment.EveryAttemptFails | server/src/routes/projectRoutes.js:175-217 | three failures: three research requests, waits 2000 and 4000 ms, then the failure report of the third error |
| Enrichment.DemoReplyOnFirstAttempt | server/src/routes/projectRoutes.js:150-199 | a `demo_mode` reply on the first attempt ends the run at once with `Demo Mode` |
| Enrichment.RateLimitedTwiceThenCompleted | server/src/routes/projectRoutes.js:175-208 | two rate-limited attempts, then success: 3 attempts, 6 s of waits, `Completed` |
| Store.Lookup | server/src/routes/projectRoutes.js:132-138 | the row found has the id and the requester as owner; "Not found" only when no such row exists |
| Store.LookupIsOwnerScoped | server/src/routes/projectRoutes.js:132-138 | with unique ids, a mission is found by its owner and is "Not found" to anybody else |
| Store.UpdateRow | server/src/routes/projectRoutes.js:190-196 | the write lands on the rows with that id, every other row is unchanged |
| Store.UpdateNothing | server/src/routes/projectRoutes.js:190-196 | no write, or an id no row carries, changes nothing |
| Store.UpdateKeepsConsistent | server/src/routes/projectRoutes.js:190-217 | a terminal write on a draft keeps the table consistent |
| Store.UpdateNewest | server/src/routes/projectRoutes.js:156-196 | the write for a new draft lands on that draft only |
| Store.Without | server/src/routes/projectRoutes.js:246-248 | delete keeps exactly the rows that are not the requester's row with that id |
| Store.WithoutRemovesOneRow | server/src/routes/projectRoutes.js:246-248 | with unique ids, delete removes exactly that one row and keeps the others in order |
| Store.DeleteRemovesId | server/src/routes/projectRoutes.js:244-253 | after a delete the table is consistent, one row shorter, and no row has the id |
| Store.MissionStore.Get | server/src/routes/projectRoutes.js:131-139 | the requester's row with that id, or 404 "Not found" iff there is none |
| Store.MissionStore.Create | server/src/routes/projectRoutes.js:152-165 | no or empty title: 400 "Title required" and no write; otherwise a draft with a fresh id is appended and returned |
| Store.MissionStore.RunAttempt | server/src/routes/projectRoutes.js:177-196 | an attempt makes the calls of TryAttempt and writes status, report and embedding on success only |
| Store.MissionStore.MarkFailed | server/src/routes/projectRoutes.js:211-217 | the final failure update writes `Failed` and the failure report for the message on that row only, keeping the table consistent |
| Store.MissionStore.RunEnrichment | server/src/routes/projectRoutes.js:168-221 | the `while` loop performs exactly the run BackgroundTask specifies, and the table changes only by that run's write on that row |
| Store.MissionStore.Post | server/src/routes/projectRoutes.js:142-227 | POST replies with the draft, or with 400 and no write; the draft is then finished by the background task's write |
| Store.MissionStore.PostAsWritten | server/src/routes/projectRoutes.js:142-152 | as written, every POST throws a ReferenceError before it checks the title or writes anything |
| Store.MissionStore.Delete | server/src/routes/projectRoutes.js:244-253 | delete succeeds iff the requester owns a row with that id, and then removes exactly it, so a later get is "Not found"; otherwise 500 "Delete failed" and no change |

## Left out

- `requireAuth` (lines 9-23): JWT verification is a foreign library call. The requester is a given owner id.
- `PUT /:id` rename (lines 230-241): a single pass-through update with no logic of its own.
- The notes that `GET /:id` includes (line 134): the note table is not part of this model.
- Prisma, raw SQL, axios and `setTimeout`: the store is an in-memory sequence, the AI service's answers are a script, and waits are recorded in milliseconds, not slept.
- Store failures: `Creation failed` (line 225) and a thrown `findMany`/`count` are not modelled. A failed success UPDATE inside the loop, which the code would catch and retry like a remote error, is not modelled either.
- Concurrency: the background task runs to its end inside `Post`. In the service it runs detached, and other requests and other missions' tasks interleave with it.
- Cosine distance and its floating point: an integer oracle in thousandths stands for `<=>`. Vector dimensions are not checked.
- A query vector that is not an array (line 80 would throw outside the inner `try`), and array-valued query parameters.
- `ILIKE` and Prisma `contains`: these are modelled as literal containment with ASCII case folding. `%` and `_` in the search text are not treated as wildcards, and non-ASCII case folding and Unicode whitespace are left out.
- `substring(0, 500)` counts UTF-16 code units; the model counts characters.
- `parseInt` on numerals beyond 2^53 loses precision in JavaScript; the model keeps exact integers.
- Prisma's implicit order for a negative `take` with no `orderBy` in the keyword fallback: the model reads backward in table order.
- The hybrid query returns only id, title, status, report and createdAt; the model returns whole rows.
- Retrieval.KeywordSearch: PostgreSQL returns the rows of a query without `ORDER BY` in no promised order. The model uses table order, which is insertion order and is kept across the background UPDATEs. So the order of the fallback page, and which matches land on which page, is the model's choice. The source promises only membership, the count and the total.
- Retrieval.PlainListing: rows with equal `createdAt` come in table order, because the model's ORDER BY (`Retrieval.SortBy`) is stable; SQL leaves the order of ties open. Only membership, the exact total and the order by date are the source's promises.
- Retrieval.HybridSearch: tied distances, and every title match with a NULL embedding (all of which rank last), come in table order for the same reason. Only membership, the distance order and the total are the source's promises.
- Retrieval.PageCount: promises at least one page only for a positive limit, because the code does not clamp the limit: `?limit=-5` with 7 rows gives `Math.ceil(7 / -5) || 1`, which is -1.
- Retrieval.ListedRowsComeFromTable: bounds the page by the absolute value of the limit, because for a negative limit Prisma's `take` reads that many rows backward.
- Store.MissionStore.RunEnrichment: requires the row it writes to be a draft. In the service only the background task of a newly created row writes to it.

## Findings

| source | as written | input that shows it | evidently intended | confidence | as-written member | corrected member |
|---|---|---|---|---|---|---|
| server/src/routes/projectRoutes.js:146-150 | `aiResponse.data` is read in the handler's own scope, where no `aiResponse` is bound (the only binding is inside the loop, line 181), so every POST throws a ReferenceError before the title check | `POST /` with title "vegan coffee shops in Texas": no draft, no reply body | `finalStatus` taken from the research reply of the attempt that succeeds; the draft is created and returned | not executed | Store.MissionStore.PostAsWritten | Store.MissionStore.Post |
