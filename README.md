# Log analysis backend: store, queries and retrieval pipeline

This project models the backend of a log-analysis service: an in-memory
store of log entries with CSV ingestion, summary statistics and criteria
filtering, and a retrieval-augmented answering pipeline. The pipeline
indexes the logs, retrieves the top five by similarity, asks a Grader
model (`grade_relevance`) whether each one is relevant, and either
apologises or asks a generator model for an answer over the surviving logs.

Modules:

- `Models` (`models.dfy`): the entities `LogEntry`, `LogSummary`,
  `FilterRequest` and `ChatResponse`, plus `Option`.
- `Seqs` (`seqs.dfy`): order-preserving filtering (Python list
  comprehensions with a condition) and subsequences.
- `Text` (`text.dfy`): the string operations the code relies on.
  - `str.upper` and `str.lower` on ASCII.
  - `str.strip`, as its two halves (leading and trailing whitespace), with Python's ASCII
    whitespace: 0x09-0x0D, 0x1C-0x1F and space.
  - Substring `in`.
  - Decimal rendering of integers.
  - `"\n".join`.
- `Services` (`services.dfy`): the global store as class `LogStore` with
  a `seq` field, CSV row mapping, `calculate_summary` and `filter_logs`.
- `RagService` (`rag_service.dfy`):
  - class `RAGService` with fields `logs` and `embeddings`;
  - top-k selection;
  - each Grader decision (`grade_relevance`);
  - the `generate_response` orchestration.

How the external parts become inputs:

- Similarity scores are an input sequence of integers, one per indexed
  log, in place of the cosine over sentence embeddings.
- Every remote inference call is an input `Outcome`: either it raised, or
  it replied with a status, a raw text and a decoded body.
- `generate_response` takes one Grader outcome per retrieval position and
  one generation outcome. The pipeline is then a deterministic function of
  its inputs.
- `GenerateResponse` asks for five Grader outcomes, one per possible
  candidate. This is how the inputs are supplied, not something the code
  demands.
- A CSV row is a map from header column to cell, as `csv.DictReader`
  yields it:
  - a column missing from the header is absent from the map;
  - a row shorter than the header maps the missing columns to `None`.
- Timestamps are integers. Each row's parsed timestamp is an input,
  covering both `fromisoformat` and the clock fallback.

Two facts about the code that the model keeps:

- The context passed to the generator and returned to the caller stays in
  retrieval (score) order; the code does not re-sort it by timestamp.
- A Grader reply with a status other than 200 counts as not relevant;
  only an exception is treated permissively.

## Model

| member | source | states |
|---|---|---|
| RagService.RetrievalText | backend/rag_service.py:32 | the text embedded for one log is its level, ": " and its message; its properties are stated by `RetrievalTexts` and `RetrievalTextIgnoresSource` |
| RagService.RetrievalTextIgnoresSource | backend/rag_service.py:32 | changing a log's `source` does not change its retrieval text |
| RagService.RetrievalTexts | backend/rag_service.py:31-33 | one retrieval text per log, in log order, text i being `level + ": " + message` of log i |
| RagService.RetrievalTextsIgnoreSources | backend/rag_service.py:32 | logs that differ only in `source` are indexed with identical texts: the source never reaches the index |
| RagService.RenderLine | backend/rag_service.py:113 | the line for one log is `[`, its timestamp in decimal, `] `, its level, `: ` and its message, used both for each Grader call and for the context block |
| RagService.RenderLines | backend/rag_service.py:127 | one rendered line per log, line i being `RenderLine` of log i, in log order |
| RagService.ContextBlock | backend/rag_service.py:127 | the survivors' rendered lines joined by newlines; its layout is stated by `Text.JoinLinesAt` and `Text.JoinLinesLength` |
| RagService.RAGService.constructor | backend/rag_service.py:21-22 | a new service has no logs and no embeddings, which is a valid index |
| RagService.RAGService.IndexLogs | backend/rag_service.py:24-33 | the logs are replaced; the embeddings become None for an empty list, otherwise one row per log built from its retrieval text; the index stays valid |
| RagService.TakeCount | backend/rag_service.py:50 | the length of a `[:top_k]` slice of n items: never more than n or (for top_k >= 0) top_k; exactly top_k when 0 <= top_k <= n; n + top_k items for a negative top_k |
| RagService.BestPosition | backend/rag_service.py:50 | the returned position holds a score no lower than any other remaining position |
| RagService.TopIndices | backend/rag_service.py:50 | returns exactly `take` distinct in-range positions, in non-increasing score order, such that no position left out scores higher than any position returned |
| RagService.RAGService.Search | backend/rag_service.py:35-59 | `[]` when nothing is indexed; otherwise as many results as the `[:top_k]` slice allows; result i is the log at ranked position i with that log's own score; positions distinct, scores non-increasing, nothing omitted scores higher |
| RagService.GradeRelevance | backend/rag_service.py:82-100 | the verdict for one Grader outcome: True when the call or the JSON decoding raised, on status 200 whether "YES" occurs in the stripped, upper-cased `response` field ("" when missing), False for any other status; stated case by case by the four `Grader*` lemmas, the undecodable body by `GraderFailsOpen` |
| RagService.GraderFailsOpen | backend/rag_service.py:93-98 | a Grader call that raises keeps the candidate, and so does a 200 reply whose body is not JSON, since `response.json()` raises into the same `except` |
| RagService.GraderRejectsOtherStatus | backend/rag_service.py:93-100 | a reply with any status other than 200 falls through to `return False` |
| RagService.GraderOnSuccess | backend/rag_service.py:93-95 | on status 200 the verdict is whether "YES" occurs in the upper-cased answer; surrounding whitespace does not change it |
| RagService.GraderMissingAnswer | backend/rag_service.py:94-95 | a 200 reply without a `response` field reads as "" and says no |
| RagService.GenerationAnswer | backend/rag_service.py:149-167 | the answer for the generation outcome: the `response` field or "No response content." on status 200, `Ollama Error (status): text` for another status, "Failed to connect to Ollama: " and the error for a raised call or undecodable body; stated by the four `Generation*` lemmas |
| RagService.GenerationUsesResponseField | backend/rag_service.py:162-163 | a 200 reply answers with its `response` field, or "No response content." without one |
| RagService.GenerationErrorIdentifiesStatus | backend/rag_service.py:164-165 | two failing replies with the same diagnostic had the same status and the same text: the message identifies both |
| RagService.GenerationReportsTransportFailure | backend/rag_service.py:162-167 | a raised call answers "Failed to connect to Ollama: " followed by the error's description, and so does a 200 reply whose body is not JSON |
| RagService.GenerationErrorDiagnostic | backend/rag_service.py:164-165 | a failing status answers "Ollama Error (", then decimal digits that read back as the status, then "): " and the reply text, and nothing else |
| RagService.KeptPositions | backend/rag_service.py:111-117 | the kept retrieval positions are strictly increasing, in range, and a position is kept exactly when its Grader outcome is True |
| RagService.Survivors | backend/rag_service.py:110-117 | there are never more survivors than candidates |
| RagService.SurvivorsAreKept | backend/rag_service.py:110-117 | survivor j is the log of the candidate at the j-th kept position: the survivors are exactly the approved candidates, in retrieval order |
| RagService.UnreachableGraderKeepsAll | backend/rag_service.py:110-117 | if every Grader call raises, every retrieved log survives, in order |
| RagService.GradeCandidates | backend/rag_service.py:109-117 | the grading loop produces exactly the survivors of the candidates under their outcomes |
| RagService.Respond | backend/rag_service.py:119-172 | the response of the pure pipeline: the fixed apology with empty context when no candidate survives grading, otherwise the generation answer with the survivors as context; stated by `AllRejectedShortCircuits` and `SomeKeptGenerates` |
| RagService.Sent | backend/rag_service.py:111-127 | what the pipeline sends: one rendered line per candidate, each to its own Grader call, and the survivors' context block to the generator exactly when some candidate survives |
| RagService.AllRejectedShortCircuits | backend/rag_service.py:119-123 | if no candidate is approved, the answer is the fixed apology with empty context and no generation call is made |
| RagService.SomeKeptGenerates | backend/rag_service.py:125-172 | if some candidate is approved, the context is the non-empty survivor list, the answer is the generation outcome's, and the generator is shown the survivors' context block |
| RagService.RAGService.GenerateResponse | backend/rag_service.py:102-172 | at most 5 candidates, retrieved as by `search(top_k=5)`: none, and the fixed apology with empty context, when nothing is indexed; one Grader call per candidate; the response and the calls made are those of the pure pipeline; the context is never longer than the candidate list |
| Text.JoinLines | backend/rag_service.py:127 | `"\n".join(lines)`: the lines with one newline between each pair; stated by `JoinLinesAt` and `JoinLinesLength` |
| Text.JoinLinesAt | backend/rag_service.py:127 | in the context block, line i starts at its computed offset and is followed by a newline unless it is the last, so the survivors appear once each, in order |
| Text.JoinLinesLength | backend/rag_service.py:127 | the joined block is exactly the lines plus one newline between each pair |
| Text.StripLeft | backend/rag_service.py:94 | the left half of `strip()`: drops leading whitespace; stated by `StripLeftRemovesSpaces` |
| Text.StripRight | backend/rag_service.py:94 | the right half of `strip()`: drops trailing whitespace; stated by `StripRightRemovesSpaces` |
| Text.Strip | backend/rag_service.py:94 | `strip()` as `StripRight` after `StripLeft`; stated by `StripIsTrimmedSlice` |
| Text.StripIsTrimmedSlice | backend/rag_service.py:94 | `strip()` yields the slice of the input between its leading and trailing whitespace, and neither end of the result is whitespace |
| Text.StripLeftRemovesSpaces | backend/rag_service.py:94 | the left half of `strip()` removes a whitespace prefix and stops at a non-whitespace character |
| Text.StripRightRemovesSpaces | backend/rag_service.py:94 | the right half of `strip()` removes a whitespace suffix and stops at a non-whitespace character |
| Text.StripKeepsContains | backend/rag_service.py:94-95 | stripping neither creates nor destroys an occurrence of a non-empty needle whose ends are not whitespace, such as "YES" |
| Text.UpperOfStrip | backend/rag_service.py:94 | `.strip().upper()` equals `.upper().strip()` |
| Text.Contains | backend/rag_service.py:95 | Python's `needle in hay` on strings, tried at each position from the left; stated by `ContainsIffOccurs` |
| Text.ContainsIffOccurs | backend/rag_service.py:95 | `needle in hay` holds exactly when the needle occurs at some position of hay |
| Text.Upper | backend/services.py:54 | upper-casing keeps the length and maps each character on its own |
| Text.Lower | backend/services.py:99-100 | lower-casing keeps the length and maps each character on its own |
| Text.UpperIsUpperCase | backend/services.py:54 | an upper-cased string has no lower-case letter, and upper-casing again changes nothing |
| Text.IntToString | backend/rag_service.py:113 | `str(timestamp)` with timestamps as integers: a minus sign before the decimal digits of a negative number |
| Text.NatToString | backend/rag_service.py:165 | a status renders as a non-empty string of decimal digits |
| Text.DecimalRoundTrip | backend/rag_service.py:165 | reading a rendered status back gives the status |
| Text.NatToStringInjective | backend/rag_service.py:165 | different statuses render differently |
| Seqs.Filter | backend/services.py:96 | a comprehension with a condition keeps a subsequence; every kept element satisfies the condition, and every element that does is kept |
| Seqs.FilterTwice | backend/services.py:93-106 | filtering by p and then by q is filtering once by "p and q" |
| Seqs.FilterWhenIsFilter | backend/services.py:95-106 | an `if criterion:` filter is a filter by "criterion absent or condition holds" |
| Services.Get | backend/services.py:42 | `row.get(key, default)`: the cell when the column is in the row, the default otherwise; a cell present as None stays None |
| Services.WellFormed | backend/services.py:41-61 | a row is kept unless its timestamp, level or message cell is present as None, the cases in which the `try` body raises |
| Services.ParseRow | backend/services.py:41-61 | a row gives an entry exactly when its timestamp, level and message cells are not None; the entry has the row's timestamp; its level is the level cell upper-cased, defaulting to "INFO"; its message is the message cell, defaulting to ""; its source comes from the row |
| Services.ParseRows | backend/services.py:39-61 | the entries of the rows in row order, skipping rows that are not well formed; its length and contents are stated by `ParseRowsCount`, `ParseRowsUpper` and `ParseRowsAllWellFormed` |
| Services.ParseRowsCount | backend/services.py:39-61 | one entry per well-formed row |
| Services.ParseRowsUpper | backend/services.py:54 | every ingested entry has an upper-case level |
| Services.WellFormedCount | backend/services.py:39-61 | never more well-formed rows than rows |
| Services.ParseRowsAllWellFormed | backend/services.py:39-61 | when every row is well formed, entry i is row i's entry with row i's timestamp |
| Services.LogStore.constructor | backend/services.py:11 | the store starts empty |
| Services.LogStore.ClearStore | backend/services.py:13-16 | the store is empty afterwards |
| Services.LogStore.AddLogEntry | backend/services.py:18-20 | the new store is the old store followed by the entry |
| Services.LogStore.GetAllLogs | backend/services.py:22-24 | returns the store's contents and changes nothing |
| Services.LogStore.ParseCsvFile | backend/services.py:26-64 | the new store is the old store followed by the entries of the well-formed rows in row order; the returned count is the number of new entries, which is the number of well-formed rows |
| Services.CountLevel | backend/services.py:77-78 | a level count never exceeds the store size |
| Services.CountLevelIsFilterLength | backend/services.py:77-78 | `sum(1 for log if level == x)` is the length of the store filtered by level x |
| Services.CountTwoLevels | backend/services.py:77-78 | the "ERROR" and "WARNING" counts together never exceed the total |
| Services.EarliestTimestamp | backend/services.py:81-87 | the first timestamp in timestamp order is attained by an entry and no entry is earlier |
| Services.LatestTimestamp | backend/services.py:81-88 | the last timestamp in timestamp order is attained by an entry and no entry is later |
| Services.CalculateSummary | backend/services.py:66-89 | empty store gives zeros and no times; otherwise the total is the store size, the error and warning counts are the exact-match filter lengths, and the start and end times bound every timestamp and are attained |
| Services.LogStore.Summary | backend/services.py:66-89 | the summary of the current store, changing nothing |
| Services.LevelActive | backend/services.py:95 | `if criteria.level:` holds exactly for a present, non-empty level |
| Services.KeywordActive | backend/services.py:98 | `if criteria.keyword:` holds exactly for a present, non-empty keyword |
| Services.LevelMatches | backend/services.py:96 | an entry matches a level when its level equals the criterion upper-cased |
| Services.KeywordMatches | backend/services.py:99-100 | an entry matches a keyword when the lower-cased keyword occurs in its lower-cased message, or in its lower-cased source when that is a non-empty string |
| Services.Matches | backend/services.py:95-106 | an entry passes every present criterion: level, keyword, start date (inclusive) and end date (inclusive) |
| Services.FilterLogs | backend/services.py:91-108 | the four comprehensions in order, each applied only when its criterion is present; stated by `FilterLogsIsOneFilter`, `FilterLogsSelects` and `FilterLogsNoCriteria` |
| Services.FilterLogsIsOneFilter | backend/services.py:91-108 | the chain of optional filters is one filter by "every present criterion holds" |
| Services.FilterLogsSelects | backend/services.py:91-108 | the result is a subsequence of the store, every kept entry matches each present criterion, and every matching entry is kept |
| Services.FilterLogsNoCriteria | backend/services.py:93-108 | with no criterion present the whole store comes back |
| Services.LogStore.Filtered | backend/services.py:91-108 | the matching entries of the current store in store order; the store is not changed |

## Left out

- Sentence-embedding encoding and the cosine arithmetic (backend/rag_service.py:20, 33, 40-47): floating point over a foreign library. The embedding matrix is represented by the texts it is encoded from, and scores are an integer input. The code has no guard against a zero norm, and the model adds none.
- TopIndices: does not fix the order among equal scores, because the order `np.argsort(...)[::-1]` gives them is unspecified. It breaks ties in its own way, and only non-increasing order plus the top-k property are stated.
- Search: returns each result's integer score where the code returns `float(...)` of a cosine, because scores are abstract here.
- RagService.RAGService.IndexLogs: treats encoding as total. The code assigns `self.logs` before `self.model.encode(texts)` (backend/rag_service.py:26, 33), so an exception from the encoder leaves the new logs beside the old matrix, and a later `search` would pair positions of the old matrix with the new logs. `Valid()` excludes that state, and the model has no such failure. Concurrent calls are not modelled either: the code's replacement of `logs` and `embeddings` is not atomic, so a `search` running beside `index_logs` on another request thread could see the new logs with the old matrix, pairing a score with the wrong log or indexing past a shorter list; the model's methods run one at a time.
- CalculateSummary: does not model the `TypeError` that `sorted(..., key=timestamp)` (backend/services.py:81) raises when timezone-aware and naive datetimes meet (`fromisoformat` accepts offsets, the `datetime.now()` fallback is naive). Timestamps are totally ordered integers here.
- FilterLogs: does not model the same `TypeError` in the date comparisons (backend/services.py:103, 106) between aware and naive datetimes, for the same reason.
- The HTTP calls to the inference backend, their timeouts and JSON decoding: network I/O, taken as `Outcome` inputs.
- A `response` field that is present but not a string: beyond the decoded `Option<string>`, which is not modelled. `grade_relevance` would raise and keep the candidate.
- The prompt texts, the query string and the model names: they feed only the encoder and the remote calls, which are inputs here. What the model records of the pipeline's calls is the lines shown to each Grader call and the context block (`Exchange`).
- The unused default `"Error generating response from Ollama."`: every path overwrites it.
- `os.getenv` and `load_dotenv` configuration, and `print` logging: environment and output only.
- The module-level singleton: a `RAGService` instance is explicit.
- UTF-8 decoding, `csv.DictReader` splitting, `datetime.fromisoformat` and the `datetime.now()` fallback: library parsing and a clock. Rows are given already split, with each row's timestamp supplied.
- Rendering of datetimes: timestamps are integers rendered in decimal.
- Validation beyond `None` cells: pydantic rejects a `None` message, which is modelled, and nothing else.
- Case mapping and whitespace beyond ASCII: `Upper`, `Lower` and `IsSpace` cover ASCII only.
- Aliasing: `get_all_logs`, and `filter_logs` with no criteria, return the store's own list object, which later mutation of the store would change. The model returns values.
- HTTP routing and the upload endpoint (backend/main.py) and the user interface (frontend/app.py) are not part of this model.
