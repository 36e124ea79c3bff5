# Banking document pipeline: a verified model of its core services

This project models the core of a banking document classification service in Dafny.
The service reads incoming customer documents, classifies them with a chat model and
routes them to a bank department. The model covers these parts:

- **Document reading** (`ocr.dfy`, module `Ocr`). Plain text passes through unchanged. Any
  other document is sent to the OCR API as a base64 data URI whose MIME type comes from
  the document type. The pages the API returns are joined into one text, and Markdown
  tables are read from that text. A formatter lays the result out as sectioned text for
  the classifier. The tables are proved to round-trip: rendering a table as Markdown and
  reading it back gives the same table.
- **Classification** (`llm.dfy`, module `Llm`). This covers the prompt, the department
  lookup and the construction of the processed document from the reply. It also covers the
  retry loop: at most three attempts, and only errors whose text contains "429" are
  retried, after 1 s and then 2 s. The chat API is a parameter mapping the attempt number
  and the request to an outcome.
- **Model rotation** (`rotation.dfy`, module `Rotation`). The `ModelRotationService`
  class keeps rate-limit marks with a five-minute cooldown and per-model usage counters.
  It picks the least-used model that is neither rate limited nor the model just tried.
  Ties go to the earliest model in the list. When no model qualifies, it clears every mark
  and picks from the whole list.
- **Routing** (`routing.dfy`, module `Routing`). This builds the routing record and the
  high-priority alert, including its reason text.
- **Records and configuration**:
  - `document.py` (module `Document`): the string-valued enumerations, the metadata and
    processed-document records, and their defaults.
  - `config.py` (module `Config`): the department address table and the urgency keywords.
  - `text.dfy` (module `Text`): the Python string operations the services rely on (`in`,
    slicing, `lower`, `strip`, `split`, `join`, `str(int)`), written out explicitly.
  - `common.dfy` (module `Common`): `Option` and `Result`.

Clocks, fresh identifiers, the chat and OCR APIs, base64 and UTF-8 codecs, and the
regular-expression field extractor are all parameters of the operations that use them.

## Model

| member | source | states |
|---|---|---|
| Text.Contains | app/services/llm_service.py:55 | Python's `t in s` on strings: some position of `s` starts a copy of `t` (a definition; ContainsHasChars, ContainsPrefix and ContainsInMiddle state its properties) |
| Text.Take | app/services/llm_service.py:104 | `text[:3000]` has length `min(n, len)` and is a prefix of the text |
| Text.Strip | app/services/ocr_service.py:204 | `strip()` gives a string no longer than the input, whose first and last characters are not whitespace |
| Text.StripOffset | app/services/ocr_service.py:204 | the stripped string is a slice of the input with only whitespace before and after it |
| Text.StripUnchanged | app/services/ocr_service.py:213 | stripping a string that neither starts nor ends with whitespace changes nothing |
| Text.StripIdempotent | app/services/ocr_service.py:213 | stripping twice is stripping once |
| Text.StripChars | app/services/ocr_service.py:204 | every character of the stripped string occurs in the input |
| Text.Lower | app/services/ocr_service.py:108 | `lower()` keeps the length and maps each character to its lower-case form |
| Text.LowerIdempotent | app/services/ocr_service.py:108 | lower-casing twice is lower-casing once |
| Text.LowerUnchanged | app/services/routing_service.py:106 | a string without upper-case letters is its own lower-case form |
| Text.LowerLetterOrigin | app/services/routing_service.py:106 | a lower-case letter of the lowered string comes from that letter or its capital in the input |
| Text.IndexOf | app/services/ocr_service.py:200 | the index of the first occurrence of a character: it holds the character and no earlier position does |
| Text.Split | app/services/ocr_service.py:200 | `s.split(c)` has at least one piece and no piece holds the separator; JoinOfSplit and SplitOfJoin below are its round trips with Join |
| Text.Join | app/services/routing_service.py:112 | `sep.join(parts)`: a definition without a contract of its own; JoinAppend, JoinContainsPart, JoinExcludes, JoinMentions and the two round trips state its properties |
| Text.IndexOfFirst | app/services/ocr_service.py:200 | any position holding the character with none before it is the first occurrence |
| Text.JoinOfSplit | app/services/ocr_service.py:200 | joining the pieces of `s.split(c)` with `c` gives `s` back |
| Text.SplitOfJoin | app/services/ocr_service.py:200 | splitting a join of separator-free pieces gives the pieces back |
| Text.SplitPartChars | app/services/ocr_service.py:200 | every character of every piece of a split occurs in the split string |
| Text.JoinAppend | app/services/routing_service.py:112 | joining one more piece appends the separator and the piece |
| Text.JoinExcludes | app/services/ocr_service.py:318 | a character in neither the separator nor any piece is not in the join |
| Text.JoinContainsPart | app/services/routing_service.py:112 | every piece occurs in the join |
| Text.JoinMentions | app/services/routing_service.py:112 | a non-empty text whose first character is in neither the separator nor any other piece occurs in the join exactly when it is one of the pieces |
| Text.NatToString | app/services/ocr_service.py:304 | `str(n)` of a natural number is a non-empty string of decimal digits; NatToStringRoundTrip reads it back |
| Text.IntToString | app/services/ocr_service.py:313-314 | `str(i)` is non-empty, starts with '-' exactly when `i` is negative, and holds only digits after that sign |
| Text.PyRepr | app/models/document.py:7-17 | `repr(s)` is at least two characters longer than `s`: the text, escaped, between two quotes |
| Text.PyReprQuotes | app/models/document.py:7-17 | `repr(s)` has the same quote at both ends: a double quote exactly when `s` holds a single quote and no double quote, a single quote otherwise |
| Text.PyReprRoundTrip | app/models/document.py:7-17 | unescaping what `repr(s)` writes between its quotes gives `s` back, so an enum error message names the rejected text exactly |
| Text.PyReprPlain | app/models/document.py:7-17 | printable ASCII text without quotes or backslashes is written unchanged between single quotes |
| Text.PyReprApostrophe | app/models/document.py:7-17 | `it's` is written with double quotes, `"it's"` |
| Text.PyReprHexEscape | app/models/document.py:7-17 | the control character U+0004 followed by "29" is written `'\x0429'`, in which "429" occurs |
| Text.NatToStringRoundTrip | app/services/ocr_service.py:305 | reading back the decimal digits of `str(n)` gives `n` |
| Document.ParseCategory | app/models/document.py:7-12 | `DocumentCategory(s)` succeeds exactly for the five values and gives the member with that value; otherwise it fails with `repr(s)` followed by " is not a valid DocumentCategory" |
| Document.ParseUrgency | app/models/document.py:14-17 | `UrgencyLevel(s)` succeeds exactly for "high", "medium" and "low" and gives the member with that value; otherwise it fails with `repr(s)` followed by " is not a valid UrgencyLevel" |
| Document.CategoryValuesExact | app/models/document.py:7-12 | the five category values are pairwise distinct and form the value set |
| Document.UrgencyValuesExact | app/models/document.py:14-17 | the three urgency values are pairwise distinct and form the value set |
| Document.EscapedCategoryMessage | app/models/document.py:7-12 | the category U+0004 followed by "29" is rejected with a message in which "429" occurs |
| Document.CategoryRoundTrip | app/models/document.py:7-12 | constructing a category from its own value gives the member back |
| Document.UrgencyRoundTrip | app/models/document.py:14-17 | constructing an urgency from its own value gives the member back |
| Document.Truthy | app/services/routing_service.py:109 | Python truthiness of a JSON value: `None`, `False`, zero, and the empty string, list and object are false (a definition; FraudFlagged uses it) |
| Document.DefaultMetadata | app/models/document.py:19-25 | every metadata field defaults to `None` and the language to "de" |
| Document.NewProcessedDocument | app/models/document.py:27-38 | the document holds the given fields, a fresh id and timestamp, no embedding, and no attention flag |
| Config.DepartmentKeysAreCategories | app/config.py:17-23 | the routing table's keys are exactly the five category values |
| Config.DepartmentAddressesWellFormed | app/config.py:17-23 | every department address has an '@' and a '.' |
| Config.GeneralCorrespondenceAddress | app/config.py:22 | general correspondence is routed to "info@bank.de" |
| Config.UrgencyKeywordsConfigured | app/config.py:26-29 | the urgency keyword list is non-empty and holds "urgent" and "dringend", as the configuration tests require |
| Rotation.IsLimitedIn | app/services/model_rotation_service.py:70-76 | a model is rate limited exactly when cleanup at the same instant would keep its mark, that is when it was marked less than five minutes before |
| Rotation.ExpireLimits | app/services/model_rotation_service.py:78-86 | cleanup keeps exactly the marks whose cooldown has not run out, with their times |
| Rotation.ExpireKeepsLimits | app/services/model_rotation_service.py:70-86 | cleanup does not change which models are rate limited at that instant |
| Rotation.ExpireIdempotent | app/services/model_rotation_service.py:78-86 | a second cleanup at the same instant removes nothing |
| Rotation.Candidates | app/services/model_rotation_service.py:41-44 | a model is available exactly when it is listed, is not the one just tried and is not rate limited |
| Rotation.NoCandidates | app/services/model_rotation_service.py:41-46 | no model is available exactly when every listed model is excluded |
| Rotation.LeastUsed | app/services/model_rotation_service.py:52 | `min` by usage returns a member of the list used no more than any other member |
| Rotation.LeastUsedIsFirstMinimum | app/services/model_rotation_service.py:52 | `min` returns the first element of least usage |
| Rotation.LeastUsedSameCounts | app/services/model_rotation_service.py:52 | `min` depends only on the counts as the `defaultdict` reads them |
| Rotation.TouchAll | app/services/model_rotation_service.py:23 | reading the `defaultdict` adds a zero counter for each scanned model and changes no count |
| Rotation.Select | app/services/model_rotation_service.py:40-52 | the choice is `None` exactly when the model list is empty; the lemmas below state which model it is, and GetNextAvailableModel is proved to return it |
| Rotation.StatusOf | app/services/model_rotation_service.py:88-102 | a listed model is reported available exactly when it is not rate limited; the limited set is exactly the live marks; usage and model count are reported unchanged |
| Rotation.SelectReturnsListedModel | app/services/model_rotation_service.py:25-55 | a model is returned exactly when the list is non-empty, and it is a listed model |
| Rotation.SelectAvoidsCurrentAndLimited | app/services/model_rotation_service.py:40-52 | if any listed model qualifies, the choice is neither the model just tried nor rate limited |
| Rotation.SelectFallsBackToWholeList | app/services/model_rotation_service.py:46-52 | when nothing qualifies, the choice is the least used of the whole list |
| Rotation.FallbackMayRepeatCurrent | app/services/model_rotation_service.py:46-52 | the fallback can return the model that was just tried |
| Rotation.SelectIsLeastUsed | app/services/model_rotation_service.py:52 | the choice is used no more than any model it was chosen from |
| Rotation.SelectPrefersEarliest | app/services/model_rotation_service.py:52 | on equal usage the choice is the earliest in list order |
| Rotation.CandidatesOfPrefix | app/services/model_rotation_service.py:41-44 | filtering a prefix of the list gives a prefix of the filtered list |
| Rotation.CandidatePosition | app/services/model_rotation_service.py:41-44 | an available model keeps its relative order in the filtered list |
| Rotation.CandidatesKeepAll | app/services/model_rotation_service.py:41-44 | a filter that rejects nothing returns the list unchanged |
| Rotation.CandidatesSameLimits | app/services/model_rotation_service.py:41-44 | the filter depends only on which models are rate limited at that instant |
| Rotation.StatusAfterReset | app/services/model_rotation_service.py:88-108 | after a reset every model is available, none is limited and no usage is recorded |
| Rotation.MarkRateLimitedEffect | app/services/model_rotation_service.py:57-76 | a marked model is limited exactly until one cooldown has passed; other models are unaffected |
| Rotation.MarkSuccessRecovers | app/services/model_rotation_service.py:62-76 | a success lifts the model's limit at once; other models are unaffected |
| Rotation.LeastUsedExample | app/services/model_rotation_service.py:52 | among three models used 2, 0 and 1 times, the one used 0 times is chosen |
| Rotation.ModelRotationService.constructor | app/services/model_rotation_service.py:19-23 | the tracker starts with the given models, no marks and no counters |
| Rotation.ModelRotationService.IsRateLimited | app/services/model_rotation_service.py:70-76 | the tracker reports a model limited exactly when cleanup at that instant would keep its mark |
| Rotation.ModelRotationService.CleanupExpiredLimits | app/services/model_rotation_service.py:78-86 | deleting the expired marks one by one leaves exactly the live marks; counters unchanged |
| Rotation.ModelRotationService.GetNextAvailableModel | app/services/model_rotation_service.py:25-55 | returns the policy's choice; the marks become the live marks, or none when nothing qualified; only zero counters are added; every remaining mark is live |
| Rotation.ModelRotationService.MarkRateLimited | app/services/model_rotation_service.py:57-60 | the model's mark becomes the current time, overwriting any earlier mark |
| Rotation.ModelRotationService.MarkSuccess | app/services/model_rotation_service.py:62-68 | the model's counter grows by one and its mark, if any, is removed |
| Rotation.ModelRotationService.GetStatus | app/services/model_rotation_service.py:88-102 | cleans up, then reports the status of the marks before cleanup |
| Rotation.ModelRotationService.Reset | app/services/model_rotation_service.py:104-108 | no marks and no counters remain |
| Llm.ClassificationPrompt | app/services/llm_service.py:100-106 | the prompt starts with the fixed head, ends with the fixed tail, and between them holds exactly the first 3000 characters of the text (a prefix of the text of length `min(3000, len)`); a short text is contained whole |
| Llm.PromptSeesOnlyLeadingText | app/services/llm_service.py:104 | two texts that agree on their first 3000 characters give the same prompt |
| Llm.GetDepartment | app/services/llm_service.py:108-109 | a configured category maps to its address; any other string maps to "info@bank.de" |
| Llm.DepartmentPerCategory | app/services/llm_service.py:108-109 | distinct categories get distinct configured addresses, and only general correspondence gets the fallback address |
| Llm.BuildDocument | app/services/llm_service.py:41-50 | succeeds exactly when the reply's category and urgency are valid values; the category is checked first; a built document keeps the text and reply fields, gets its category's department, and needs attention exactly at high urgency |
| Llm.Retryable | app/services/llm_service.py:55 | the `except` test: the error text contains "429" and this is not the last attempt (a definition; RetriedOnlyOn429 states its role) |
| Llm.Pow2 | app/services/llm_service.py:56 | `2 ** k` is at least 1; CallsAndBackoff pins the waits to 1 and 2 seconds |
| Llm.RunFrom | app/services/llm_service.py:19-60 | from any attempt: at least one call, never more than the attempts left, and a wait of `2 ** k` before each retry |
| Llm.ClassifyAndExtract | app/services/llm_service.py:12-62 | the loop's result, call count and waits are those of the retry specification, with one to three calls |
| Llm.CallsAndBackoff | app/services/llm_service.py:17-58 | at most three calls, with waits of 1 s then 2 s, one before each retry |
| Llm.RetriedOnlyOn429 | app/services/llm_service.py:54-60 | another attempt follows exactly when the previous one failed with "429" in its text and was not the last |
| Llm.LastAttemptDecides | app/services/llm_service.py:52-60 | the result is the last attempt's document, or its error behind the "LLM classification failed: " prefix |
| Llm.OtherErrorAbortsAtOnce | app/services/llm_service.py:59-60 | a first failure without "429" ends the call after one attempt with no wait |
| Llm.ThreeRateLimitsFail | app/services/llm_service.py:17-60 | three rate-limit errors in a row give three calls, waits of 1 and 2, and a prefixed failure |
| Llm.RateLimitThenSuccess | app/services/llm_service.py:19-58 | a rate-limit error then a valid reply give a document after two calls and one wait of 1 s |
| Llm.EscapedCategoryLooksRateLimited | app/services/llm_service.py:41-58 | a reply whose category is U+0004 followed by "29" fails with a message containing "429" and is retried after 1 s, as a rate limit would be |
| Llm.ClassifiedDocument | app/services/llm_service.py:41-52 | a returned document keeps the text, needs attention exactly at high urgency and has its category's configured department |
| Ocr.GetMimeType | app/services/ocr_service.py:99-108 | the MIME type is always one of the table's types |
| Ocr.MimeTypeIgnoresCase | app/services/ocr_service.py:108 | the lookup gives the same answer for the type and its lower-case form |
| Ocr.MimeTypeTable | app/services/ocr_service.py:101-108 | png, jpg/jpeg and avif (in any case) map to their image types, and every other type maps to "application/pdf" |
| Ocr.DataUri | app/services/ocr_service.py:75 | the URI starts with `data:`, ends with the payload and is 13 characters longer than the MIME type and payload together; DataUriRoundTrip reads it back |
| Ocr.DataUriRoundTrip | app/services/ocr_service.py:75 | the URI's header runs to its first comma and everything after that comma is the payload |
| Ocr.TextPassthrough | app/services/ocr_service.py:57-65 | one page holding the text, no tables, no fields, the "text-passthrough" model and the text's length as its size |
| Ocr.ConvertImage | app/services/ocr_service.py:153-162 | an image entry copies the id, both corners and the optional base64 data (a definition; ConvertPage states what the page keeps) |
| Ocr.ConvertPage | app/services/ocr_service.py:150-169 | a page dictionary keeps the index, text and dimensions, and has one image entry per image, or none when absent |
| Ocr.ConvertPages | app/services/ocr_service.py:148-169 | one page dictionary per OCR page, in order |
| Ocr.ConcatMarkdown | app/services/ocr_service.py:148-149 | the joined text has at least two characters per page; ConcatMarkdownAppend and PageTextInOrder place each page's text |
| Ocr.ConcatMarkdownAppend | app/services/ocr_service.py:148-149 | the text of two runs of pages is the first run's text followed by the second's |
| Ocr.PageTextInOrder | app/services/ocr_service.py:148-149 | each page's text followed by a blank line sits between the text of the pages before it and of those after it |
| Ocr.ParsedResponse | app/services/ocr_service.py:110-195 | one page dictionary per page, no forms, and only well-formed tables; ParseOcrResponse is proved to return it |
| Ocr.ParseOcrResponse | app/services/ocr_service.py:110-195 | the page loop gives the stripped joined text and one dictionary per page; tables are read from the joined text before stripping; forms start empty |
| Ocr.StartsTable | app/services/ocr_service.py:204-207 | a line opens a table when its stripped form starts with '\|' (a definition; NoTableWithoutLeadingPipe states its role) |
| Ocr.Cells | app/services/ocr_service.py:218 | a line without '\|' has no cells; otherwise the stripped pieces between the first and last '\|' (RowCells reads rendered rows back) |
| Ocr.BlockEnd | app/services/ocr_service.py:211-214 | a block runs through every following line holding a '\|' and stops at the first line without one |
| Ocr.StripAll | app/services/ocr_service.py:218 | each cell is stripped, one for one |
| Ocr.RowsOf | app/services/ocr_service.py:222-225 | the rows are the non-empty cell lists of the data lines, never more rows than lines |
| Ocr.TableOf | app/services/ocr_service.py:217-231 | a block yields at most one table, and only a table with header cells and non-empty rows |
| Ocr.TablesOf | app/services/ocr_service.py:197-235 | every table read from a text has header cells and rows with cells; ExtractTablesFromMarkdown is proved to return it |
| Ocr.TablesFrom | app/services/ocr_service.py:203-235 | the tables from a line on, at most one per line, each well formed |
| Ocr.ParseTable | app/services/ocr_service.py:217-231 | the row loop builds the table the block specification gives |
| Ocr.CollectBlock | app/services/ocr_service.py:208-214 | the inner loop collects the opening line and every following line that holds a '\|', stripped, and stops at the block end |
| Ocr.ExtractTablesFromMarkdown | app/services/ocr_service.py:197-235 | the line walk returns exactly the tables of the Markdown specification |
| Ocr.TablesWellFormed | app/services/ocr_service.py:227-231 | every table read has header cells and rows, and every row has cells |
| Ocr.NoTableWithoutLeadingPipe | app/services/ocr_service.py:204-207 | when no line opens a table once stripped, no table is read |
| Ocr.NoPipeNoTables | app/services/ocr_service.py:197-235 | a text without '\|' holds no table |
| Ocr.RenderRows | app/services/ocr_service.py:222-225 | one Markdown line per row, in order; this is the inverse the table reader is checked against |
| Ocr.MarkdownLines | app/services/ocr_service.py:217 | a rendered table has a header line, a separator line and one line per row |
| Ocr.StripAllUnchanged | app/services/ocr_service.py:218 | stripping cells that are already stripped changes nothing |
| Ocr.BracketedJoin | app/services/ocr_service.py:218 | a rendered row is the join of its cells between two empty pieces |
| Ocr.RowCells | app/services/ocr_service.py:218 | the cells read from a rendered row of stripped, bar-free cells are those cells |
| Ocr.RenderedRow | app/services/ocr_service.py:204-218 | a rendered row of plain cells is one stripped line that opens a table and reads back as its cells |
| Ocr.RenderRowsPrefix | app/services/ocr_service.py:222-225 | rendering a prefix of the rows renders a prefix of the lines |
| Ocr.RowsOfLast | app/services/ocr_service.py:222-225 | reading one more data line adds its cells, if any, after the rows before it |
| Ocr.RenderedRows | app/services/ocr_service.py:222-225 | reading the cells of rendered rows gives the rows back |
| Ocr.LinesRoundTrip | app/services/ocr_service.py:200 | lines without line breaks, joined and split on line breaks, come back unchanged |
| Ocr.BlockToEnd | app/services/ocr_service.py:212 | a block runs to the end of the text when every later line holds a '\|' |
| Ocr.OneBlock | app/services/ocr_service.py:207-214 | lines that all hold a '\|' after an opening line form a single block |
| Ocr.StrippedBlock | app/services/ocr_service.py:204-213 | a block of stripped lines is collected unchanged |
| Ocr.RenderedBlock | app/services/ocr_service.py:197-235 | joined clean lines whose first opens a table are read as that one block |
| Ocr.SeparatorRowClean | app/services/ocr_service.py:212 | the separator row is a clean table line |
| Ocr.MarkdownLinesClean | app/services/ocr_service.py:204-214 | every line of a rendered table is clean, and the first opens a table |
| Ocr.MarkdownLinesTable | app/services/ocr_service.py:217-231 | the block of a rendered table yields that table |
| Ocr.TableRoundTrip | app/services/ocr_service.py:197-235 | reading the Markdown of a table with plain cells gives back exactly that table |
| Ocr.IsTextType | app/services/ocr_service.py:51 | the text-type test is membership in `['txt', 'text']`, case-sensitive (UpperCaseTextTypeGoesToOcr) |
| Ocr.Processed | app/services/ocr_service.py:30-97 | the specification of ProcessDocument; TextDocumentsBypassOcr, ErrorsAreWrapped and OcrResultShape state its properties |
| Ocr.ProcessDocument | app/services/ocr_service.py:30-97 | the method's result is the processing specification: passthrough for "txt"/"text", otherwise the OCR call, response parsing and field extraction, with every failure wrapped |
| Ocr.TextDocumentsBypassOcr | app/services/ocr_service.py:51-65 | a text document of type "txt" or "text" yields its passthrough whatever the API would do |
| Ocr.UpperCaseTextTypeGoesToOcr | app/services/ocr_service.py:51-75 | the text-type test is case-sensitive: "TXT" goes to the API as a PDF data URI |
| Ocr.ErrorsAreWrapped | app/services/ocr_service.py:96-97 | every failure starts with "Mistral OCR API error: "; an API failure keeps the API's message after it |
| Ocr.OcrResultShape | app/services/ocr_service.py:67-94 | an OCR result has the stripped joined text, one page per response page, tables from the joined text, and the extractor's fields |
| Ocr.FieldLines | app/services/ocr_service.py:297-298 | one `field: value` line per field, in order |
| Ocr.RowLines | app/services/ocr_service.py:308-309 | one line per row, its cells joined by " \| " |
| Ocr.AppendFields | app/services/ocr_service.py:295-299 | the fields loop appends the heading, the field lines and a blank line |
| Ocr.AppendTable | app/services/ocr_service.py:305-310 | one table appends its title, its headers line if it has headers, its rows and a blank line |
| Ocr.AppendTables | app/services/ocr_service.py:302-310 | the tables loop appends the heading and each table numbered from 1 |
| Ocr.FormatLines | app/services/ocr_service.py:283-318 | the section lines `format_for_downstream` joins; FormatLayout, TablesBodyPrefix, TableNumbering and PassthroughFormat state their shape |
| Ocr.FormatForDownstream | app/services/ocr_service.py:283-318 | the output is the specified section lines joined by line breaks |
| Ocr.FormatLayout | app/services/ocr_service.py:287-316 | text section first, then the field lines if any, then the tables heading if any, and the four metadata lines last |
| Ocr.TablesBodyPrefix | app/services/ocr_service.py:304-310 | the lines of the first tables are a prefix of the lines of all tables |
| Ocr.TableNumbering | app/services/ocr_service.py:304-305 | the block of the table at position `k` starts with "Table k+1:" |
| Ocr.PassthroughFormat | app/services/ocr_service.py:283-318 | a passthrough formats as its text followed directly by the metadata |
| Routing.IsComplaint | app/services/routing_service.py:106 | the complaint test on the lower-cased category value; ComplaintOnlyForComplaints shows it holds for the complaints category only |
| Routing.FraudFlagged | app/services/routing_service.py:109 | `extracted_info.get("fraud_risk")` is truthy: the key is present and its value truthy |
| Routing.TriggeredReasons | app/services/routing_service.py:101-110 | each reason is present exactly when its condition holds: high urgency, a complaint category, a truthy fraud flag |
| Routing.AlertReason | app/services/routing_service.py:112 | the reason text is never empty |
| Routing.DetermineAlertReason | app/services/routing_service.py:99-112 | the method gives the reasons that apply joined by " \| ", or "Manual review required" |
| Routing.CreatePriorityAlert | app/services/routing_service.py:39-54 | the alert copies the id, category, customer id and timestamp, and carries the reason text |
| Routing.NotifyDepartment | app/services/routing_service.py:56-72 | the notification always reports success |
| Routing.RouteDocument | app/services/routing_service.py:14-37 | the record copies the id, department and urgency; exactly one alert when attention is needed, none otherwise; the notification is sent |
| Routing.ComplaintOnlyForComplaints | app/services/routing_service.py:106 | among the five categories, only "complaints" contains "complaint" once lower-cased |
| Routing.OnlyComplaintsHaveM | app/services/routing_service.py:106 | no other category value has an 'm' or an 'M' |
| Routing.DefaultReasonIffNothingTriggered | app/services/routing_service.py:112 | the default reason is given exactly when no condition applies |
| Routing.HighUrgencyInitial | app/services/routing_service.py:104 | the high-urgency reason's initial occurs in no other reason text, the separator or the default |
| Routing.ComplaintInitial | app/services/routing_service.py:107 | the complaint reason's initial occurs in no other reason text, the separator or the default |
| Routing.FraudInitial | app/services/routing_service.py:110 | the fraud reason's initial occurs in no other reason text, the separator or the default |
| Routing.ReasonNamesExactlyTriggered | app/services/routing_service.py:99-112 | the reason text names each condition exactly when that condition applies |
| Routing.NotMentioned | app/services/routing_service.py:112 | a text whose first character is missing from a string does not occur in it |
| Routing.ClassifiedAlertsAreHighUrgency | app/services/routing_service.py:26-27 | for a classifier-built document, an alert always opens with the high-urgency reason and never gives the default |

## Left out

- HTTP endpoints, the vector store, the embedding service and the application constants are not part of this model.
- Logging, `print` and the audit log are left out. They produce no values the services use.
- `async` is left out, because no modelled operation interleaves with another. Concurrent use of one rotation tracker is also left out.
- The OCR and chat clients are parameters (`ocrApi`, `respond`), and so are base64 encoding, UTF-8 decoding, `uuid4` and `datetime.now`. Their results are inputs, and the model fixes only what the services do with them.
- `time.sleep` is not performed. The waits are recorded in a list of seconds.
- The banking-field extractor is the parameter `bankingFields`. Its regular expressions (IBAN, customer id, account number, BIC) are outside the model.
- Floats are left out: the confidence score and the embedding are carried as reals and never computed with. JSON numbers in `extracted_info` are reals too, so an integer and a float of equal value are one value, and the non-standard `NaN` and `Infinity` that `json.loads` accepts are not represented.
- Timestamps are whole seconds, so the five-minute cooldown is compared without sub-second precision. An alert's `created_at` is that integer rather than an ISO 8601 string.
- The chat request omits the system prompt, the temperature and the JSON response format. These are constants the retry behaviour does not depend on.
- `MISTRAL_MODEL` is the configured default; the environment-variable override is not modelled.
- A chat reply arrives already read into its fields. A reply that JSON, a missing key or metadata validation would reject arrives as a `Raised` outcome carrying the error text.
- The forms dictionary is a list of pairs in insertion order. Distinct keys are not enforced.
- Rotation.StatusOf: the rate-limited models are reported as a set; the source's list in insertion order is not modelled.
- Rotation.ModelRotationService.GetNextAvailableModel: returns `None` for an empty model list, where `min` raises `ValueError`.
- Text.Lower: only ASCII letters are lower-cased. Python's `lower()` also maps non-ASCII letters, but the only one whose lower-case form is ASCII is U+212A KELVIN SIGN, which becomes 'k'. No key of the MIME table contains 'k', so the MIME lookup gives the same answer; the category values lowered by routing are ASCII constants.
- Routing.NotifyDepartment: the subject and message body are not built. No step of them can raise for a valid document, so the `False` branch is left out.
- Text.PyRepr: characters above U+00FF are written as they are. Python writes the non-printable ones among them (the line and paragraph separators, format characters, unassigned code points) as `\u` or `\U` escapes.
- Document.ParseCategory: its error message differs from Python's for a rejected value holding a non-printable character above U+00FF, as Text.PyRepr does.
- Document.ParseUrgency: its error message differs from Python's in the same case.
- Llm.ClassifyAndExtract: the `for`-`else` raise after the loop cannot be reached. The model asserts this instead of modelling that message.
- Llm.Retryable: the "429" test looks at the whole error text. A non-rate-limit error whose text happens to contain "429" is retried too, as in the source; Llm.EscapedCategoryLooksRateLimited gives such an error built from a rejected category.
