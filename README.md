# Agente fiscal — a verified model of its request, stream and text logic

The agente fiscal repository is a chat assistant for Spanish regional income-tax deductions. It has:

- a FastAPI backend that runs a LangGraph agent and streams its reply as server-sent events;
- tools the agent calls to list deductions, retrieve documents and search the web;
- a scraper that turns the tax agency's pages into titled sections;
- a browser page that reads the stream and renders the reply.

The agent, the language model, the checkpoint database, the vector index, the search service and the browser's DOM are outside this model. It covers the deterministic logic around them:

| module | file | what it models |
|---|---|---|
| `RateLimit` | `rate_limiter.dfy` | `RateLimiter`: one shared counter table (a class holding a `map`), with key formation, window start/reset, refusal, increment and the eviction pass. The clock is a parameter. |
| `Compaction` | `compaction.dfy` | `custom_summarize_llm_input`: Python slicing of the history, the summarizer as an oracle that returns or raises, and the state update. |
| `Chat` | `chat.dfy` | `/chat`: the two limiters in dependency order, the readiness check, token extraction from agent chunks, the SSE frames of `event_stream` (a loop), and `/goodbye`. |
| `Json` | `json.dfy` | The one-member objects `json.dumps` writes on the wire (ASCII-escaped, surrogate pairs included) and `JSON.parse` reading them back. |
| `TaxTools` | `tools.dfy` | `SLUGS_DESCRIPTION`, `list_regional_tax_deductions` (a loop), and the text the retrieval and web-search tools return. |
| `AeatLoader` | `aeat_loader.dfy` | `normalizar_espacios`, `limpiar_pdf_widget` (a loop), `extraer_subapartados` over an abstract element list (a loop), and `HaciendaLoader.__init__`. |
| `ClientFormat` | `client_format.dfy` | `formatMessageText`: the bold replacement, the bullet-list regular expression, the `inList` loop, and the empty-input guard of `sendMessage`. |
| `ClientStream` | `client_stream.dfy` | The SSE buffer loop in `push`: the boundary expression, `search`/`match`/`substring`, frame parsing, and reply accumulation. It also proves the end-to-end link from server events to reply text. |
| `Text`, `Wrappers` | `text.dfy`, `wrappers.dfy` | Shared helpers: Python `strip` and JavaScript `trim` white space, split/join, find, replace, and `Option`/`Result`. |

Each loop in the source is a `method` with a `while`/`for` loop. The method is proved equal to a specification function, and the properties the source promises are lemmas about that function.

## Model

| member | source | states |
|---|---|---|
| RateLimit.CounterKey | app/utils.py:68-73 | The key is `ip:<ip>:<path>` for `ip_path` and `global:<path>` for `global_path`. There is a key exactly when the limit type is one of the two. |
| RateLimit.BeforeFirst | app/utils.py:92 | `split('_')[0]` is a prefix of the limit type that holds no `_`, and is followed by `_` when it is shorter than the type. |
| RateLimit.ScopePrefixes | app/utils.py:92 | The scope prefixes are `ip:` and `global:`. |
| RateLimit.CheckInvalidType | app/utils.py:68-73 | An unknown limit type is refused and the table is left exactly as it was. |
| RateLimit.CheckStartsWindow | app/utils.py:75-80 | With window ≥ 0: an absent counter, or one more than `window` seconds old, admits the request and becomes `(now, 1)`. |
| RateLimit.CheckRefuses | app/utils.py:82-87 | Inside the window, a counter at or over the limit gives 429 with the `Too Many Requests. Limit type: …` detail. The table is unchanged and no eviction runs. |
| RateLimit.CheckIncrements | app/utils.py:78-89 | Inside the window (elapsed time up to and including `window`) and below the limit, the request is admitted. Its count goes up by one and its timestamp stays. |
| RateLimit.CheckAdmittedBound | app/utils.py:75-89 | With window ≥ 0: after any admission the caller's counter exists and holds at most max(limit, 1). |
| RateLimit.CheckEvictsExactly | app/utils.py:91-94 | After an admission, any other counter disappears exactly when its key has the scope prefix and it is expired. Every counter that stays is unchanged. |
| RateLimit.CheckKeepsOtherScope | app/utils.py:91-94 | A check never removes or alters a counter of the other scope. |
| RateLimit.ReplayInsideWindow | app/utils.py:78-89 | A series of requests inside a window whose counter holds c ≥ 1: the i-th is admitted exactly when c + i < limit. The final count is min(limit, c + n), or c if c was already at the limit. |
| RateLimit.QuotaPerWindow | app/utils.py:75-89 | A caller with no live counter sends requests inside one window: exactly the first max(limit, 1) are admitted. |
| RateLimit.ThreePerMinute | app/utils.py:75-89 | Limit 3 per 60 s, requests at 0, 10, 20, 30, 65: admitted, admitted, admitted, refused, admitted. |
| RateLimit.ReplayAppend | app/utils.py:63-95 | Two series of checks in a row give the concatenated decisions, and the second series starts from the first series' table. |
| RateLimit.CounterTable.constructor | app/utils.py:57 | The shared table starts empty. |
| RateLimit.RateLimiter.constructor | app/utils.py:58-61 | A limiter keeps its limit, window and limit type, and shares the given table. |
| RateLimit.RateLimiter.Call | app/utils.py:63-95 | The decision and the new shared table are those of `Check` on the old table. |
| RateLimit.RateLimiter.EvictExpired | app/utils.py:91-94 | The pass over the keys removes exactly the expired counters with the prefix, whatever order it visits them in. |
| Compaction.SliceBound | app/utils.py:37-38 | Python slice-bound normalisation: in range, unchanged; negative, counted from the end; clamped to the length. |
| Compaction.OlderRecentSplit | app/utils.py:37-38 | `messages[:-n] + messages[-n:]` is the whole history, for every n. |
| Compaction.RecentIsLastN | app/utils.py:37-38 | For 0 < n ≤ len the recent part is the last n messages. For n = 0 or n > len the recent part is the whole history and nothing is older. |
| Compaction.LlmInputEndsWithRecent | app/utils.py:37-53 | Whenever the hook returns, the model input ends with the recent messages, verbatim. |
| Compaction.NothingToSummarize | app/utils.py:29-54 | For a dictionary or a pydantic state with nothing older, the summarizer is never consulted (any two give the same result) and the state is untouched. The model input is the whole history. |
| Compaction.SummarizerRaises | app/utils.py:44-53 | If the summarizer raises, the model input is the original history and the update holds only `llm_input_messages`. The state is what the summarizer left in the dictionary it was shown. |
| Compaction.SummarizerReturns | app/utils.py:43-53 | If the summarizer returns a dictionary of its own, the input is its summarized list (empty if absent) followed by the recent messages. Every other key it returned is passed on. The summarizer was shown the older messages under its input key, and the state is what it left in that dictionary. |
| Compaction.SummarizerReturnsArgument | app/utils.py:43-53 | If the summarizer returns the dictionary it was shown, the update and the state are one dictionary: the state gets `llm_input_messages` too, next to every key the summarizer left there. |
| Compaction.ModelStateCannotBeWritten | app/utils.py:32-43 | A pydantic-model state with older messages makes the hook fail at the item assignment, with `TypeError: '<Class>' object does not support item assignment`. |
| Compaction.OtherStateRefused | app/utils.py:35-36 | A state that is neither a dictionary nor a pydantic model raises `ValueError: Invalid input type: <class '…'>`, naming its type. |
| Compaction.NoMessagesFails | app/utils.py:29-37 | A state without a `messages` list fails at the slice with `TypeError: '<type>' object is not subscriptable`; a missing entry reads as `None`. |
| Compaction.SummaryNotAListFails | app/utils.py:45-52 | A summarizer output whose summarized entry is not a list makes the concatenation outside the `try` raise the `TypeError` CPython gives for that type. |
| Compaction.ConcatNoneMessage | app/utils.py:52 | `None + list` raises `unsupported operand type(s) for +: 'NoneType' and 'list'`. |
| Compaction.ConcatStrMessage | app/utils.py:52 | `str + list` raises `can only concatenate str (not "list") to str`. |
| Chat.ExtractToken | app/main.py:135-141 | A token exists exactly when the last agent message has string content that is non-blank after strip. The token is that content, unstripped. |
| Chat.EventStream | app/main.py:124-167 | The loop yields the frames of the events: one token frame per displayable chunk, in order, then the end frame or the error frame. |
| Chat.StreamStep | app/main.py:127-151 | One more chunk adds its own frames after the earlier ones, and a chunk without a token adds none. |
| Chat.EventsShape | app/main.py:127-167 | There is one event per displayable chunk, then exactly one terminator: `End` on completion, `Error(msg)` when the agent raised. No terminator appears earlier. |
| Chat.FrameLayout | app/main.py:146-148 | Every frame is `data: ` + JSON + blank line. Its JSON parses back to the payload and holds no line break. |
| Chat.ChatLimiters | app/main.py:113-114 | `/chat` uses an IP-scoped limiter of 10 per 120 s and a global one of 60 per 3600 s, both on the shared table. |
| Chat.HandleChat | app/main.py:113-118 | The IP limiter runs first, then the global limiter on the table it left, then the 503 readiness check, then the stream. A refusal stops everything after it. |
| Chat.Goodbye | app/main.py:172-178 | `/goodbye` returns status `request_logged_sqlite_no_delete_action`, echoes the thread id, and reads and writes no state. |
| Json.Hex4RoundTrip | app/main.py:148 | The four hex digits of a `\uXXXX` escape read back as the code unit. |
| Json.DecodeEscapeChar | app/main.py:148 | Each character's escape, including a surrogate pair above U+FFFF, reads back as that character. |
| Json.UnescapeEscape | app/main.py:148 | Reading a written string literal gives back the string and what follows the closing quote. |
| Json.ParseEncode | app/main.py:148 | `JSON.parse(json.dumps({k: v}))` is `{k: v}`. |
| Json.EncodePrintable | app/main.py:148 | The wire text of a payload is printable ASCII and is delimited by braces. |
| TaxTools.SlugsDescriptionNamesEvery | app/tools.py:53-54 | The description contains every valid slug in single quotes. With no slugs it is the fallback text. |
| TaxTools.ListRegionalTaxDeductions | app/tools.py:71-97 | The loop builds one block per requested slug and returns what `ListDeductions` specifies. |
| TaxTools.NoDataAnyArgument | app/tools.py:72-73 | With no data loaded, every argument gets the same fixed message. |
| TaxTools.ArgumentNotices | app/tools.py:75-95 | An argument that is neither a string nor a list gets the fixed refusal. An empty list gets the notice that ends with the valid slugs. |
| TaxTools.StringIsOneElementList | app/tools.py:75-78 | A single string is answered as the one-element list holding it. |
| TaxTools.OneSlugOneBlock | app/tools.py:81-97 | A one-slug list is answered with exactly that slug's block. |
| TaxTools.ListConcat | app/tools.py:81-97 | The answer for a list is the answers for its two halves, in order, with a blank line between. So there is one block per slug, duplicates included. |
| TaxTools.KnownSlugLines | app/tools.py:84-88 | A known slug with deductions reads as a `Deducciones para '<slug>':` line, then one `- <d>` line per deduction in stored order. |
| TaxTools.OtherSlugBlocks | app/tools.py:89-92 | A known slug without deductions gets the "No se encontraron…" notice. An unknown slug gets the invalid-slug notice ending with the description. |
| TaxTools.DetailsLayout | app/tools.py:61-63 | One document is `* ` and its content. A list of documents is its halves' texts, in order, with a blank line between. |
| TaxTools.Take | app/tools.py:120 | `s[:250]` is the first min(250, len) characters of s. |
| TaxTools.HitBlockLines | app/tools.py:117-122 | The i-th result reads as four lines: `Resultado <i+1>:`, title, URL, and at most 250 content characters plus `...`. A missing field reads `N/A` and a `None` title or URL reads `None`. |
| TaxTools.NoneContentFails | app/tools.py:117-127 | A result whose content is `None` makes the slice raise, whatever the other results hold. The answer is the search error with the `TypeError` message. |
| TaxTools.SearchPassThrough | app/tools.py:105-124 | Without an API key the answer is the fixed error whatever the search would do. A plain-text search answer is returned as is. |
| AeatLoader.NormalizarIsCharwise | scraping/aeat_loader.py:8-13 | The chain of four `replace` calls equals normalising each character on its own, order kept. |
| AeatLoader.NormalizarEspaciosProperties | scraping/aeat_loader.py:8-13 | The result holds none of U+00A0, U+200B, U+202F, U+00AD, is never longer than the input, and is idempotent. |
| AeatLoader.LimpiarPdfWidget | scraping/aeat_loader.py:14-20 | The loop returns `Cleaned(texto)`: no white space at either end. A text without the boilerplate phrase is only stripped. |
| AeatLoader.Flush | scraping/aeat_loader.py:32-35 | Closing a section keeps it, under its title, only when its cleaned content is non-empty. |
| AeatLoader.GroupsFrom | scraping/aeat_loader.py:27-44 | The grouping starts with the section already open. |
| AeatLoader.SectionsOf | scraping/aeat_loader.py:31-49 | No more sections survive than there are groups, and every surviving section has non-empty, stripped content. |
| AeatLoader.CloseSection | scraping/aeat_loader.py:32-35 | Closing appends exactly what `Flush` keeps. |
| AeatLoader.ExtraerSubapartados | scraping/aeat_loader.py:23-62 | The loop over the elements returns the documents of `Sections(elems)`. |
| AeatLoader.GroupsCount | scraping/aeat_loader.py:30-38 | There is exactly one group per heading, plus the introduction. |
| AeatLoader.GroupTitles | scraping/aeat_loader.py:27-39 | Every group is titled with the starting title or with some heading's normalised text. |
| AeatLoader.SectionsShape | scraping/aeat_loader.py:27-49 | There are at most (headings + 1) sections. Each is titled "Introducción" or with a heading's normalised text. |
| AeatLoader.NoHeadings | scraping/aeat_loader.py:27-49 | A page without headings is at most one section, the introduction, holding all kept texts in order. |
| AeatLoader.AdjacentHeadings | scraping/aeat_loader.py:31-38 | A heading directly followed by another heading yields no section of its own. |
| AeatLoader.Documents | scraping/aeat_loader.py:51-62 | There is one document per section. |
| AeatLoader.PageDocuments | scraping/aeat_loader.py:51-62 | Every document has the cleaned, non-empty content of its section. Its metadata is the given `ccaa`, `categoria` and `url` plus the section title. There are at most (headings + 1) documents. |
| AeatLoader.TitleCasePointwise | scraping/aeat_loader.py:71 | `title()`: a character is upper-cased after an uncased one and lower-cased after a cased one. |
| AeatLoader.TitleFromIdempotent | scraping/aeat_loader.py:71 | Title-casing a title-cased text changes nothing. |
| AeatLoader.RegionNameFacts | scraping/aeat_loader.py:71 | The region name is as long as the slug and has no hyphen left. |
| AeatLoader.HyphenToSpace | scraping/aeat_loader.py:71 | `a-b` with hyphen-free words reads as `a b`. |
| AeatLoader.DefaultRegionName | scraping/aeat_loader.py:69-71 | The default slug `comunitat-valenciana` gives "Comunitat Valenciana". |
| AeatLoader.HaciendaLoader.constructor | scraping/aeat_loader.py:69-71 | The index URL is the base + slug + `.html`, and `ccaa` is the region name of the slug. |
| ClientFormat.BoldSpanComplete | frontend/static/script.js:51 | Every match of `\*\*([^\*\*]+)\*\*` at a position is found, with its only possible group. |
| ClientFormat.BoldRewrites | frontend/static/script.js:51 | `**x**` with x non-empty and star-free becomes `<strong>x</strong>`, and the scan goes on after it. |
| ClientFormat.BoldNoStars | frontend/static/script.js:51 | A text without asterisks is left alone. |
| ClientFormat.ItemStartIsGreedyMatch | frontend/static/script.js:60 | The computed list match exists exactly when `^([\*\-])\s+(.+)` matches. `\s+` takes the longest extent that still lets `(.+)` match. |
| ClientFormat.ListItemPlain | frontend/static/script.js:65 | On a single line, a list line becomes `<li>` + the text after the bullet and the white space + `</li>`, with that text non-empty. |
| ClientFormat.WrapLists | frontend/static/script.js:54-76 | The `inList` loop pushes exactly `Wrapped(lines)`. |
| ClientFormat.FormatMessageText | frontend/static/script.js:47-86 | The result is bold, then split on `\n`, then the list pass, then joined with `\n`. |
| ClientFormat.WrapIsRendered | frontend/static/script.js:59-76 | The loop's output is the reference rendering: each maximal run of list lines becomes `<ul>`, its items, `</ul>`, and every other line is kept. A list still open at the end is closed. |
| ClientFormat.WrapLength | frontend/static/script.js:54-77 | The output has the input's line count plus two per run of list lines. |
| ClientFormat.WrapCounts | frontend/static/script.js:54-77 | The output has one `<ul>` and one `</ul>` per run, so as many opens as closes. |
| ClientFormat.WrapNoLists | frontend/static/script.js:66-72 | Without list lines the output is the input. |
| ClientFormat.PlainTextUnchanged | frontend/static/script.js:47-86 | A text without asterisks or list lines is returned unchanged. |
| ClientFormat.BoldLineNotListed | frontend/static/script.js:51-60 | Any line k of the text that opens with a `**x**` span is still line k after the bold pass, and it is not a list line there: it opens with `<`, the `<strong>` of its span or the `</strong>` of a span from an earlier line that closes where it starts. |
| ClientFormat.Outgoing | frontend/static/script.js:186-188 | Nothing is sent exactly when the input is all white space. Otherwise the trimmed input is sent. |
| ClientStream.PatternIsBoundary | frontend/static/script.js:265 | The boundary expression matches at a position exactly when two line-break characters start there. |
| ClientStream.SearchFindsFirst | frontend/static/script.js:266 | `buffer.search` gives the leftmost boundary, and -1 only when there is none. |
| ClientStream.MatchLengthBreaks | frontend/static/script.js:269-270 | The matched boundary is two or more characters, all line breaks. |
| ClientStream.Substring | frontend/static/script.js:271-272 | `substring` clamps and orders its ends, and never yields more than the string. |
| ClientStream.NextCutSplits | frontend/static/script.js:268-272 | One cut loses nothing: frame + boundary + rest is the buffer, and the boundary is two or more line breaks. |
| ClientStream.NextCutFacts | frontend/static/script.js:266-272 | There is a cut exactly when the buffer holds a boundary, and the cut-off frame holds none. |
| ClientStream.DrainReassembles | frontend/static/script.js:268-272 | The frames with their boundaries, then the remainder, spell the whole buffer. |
| ClientStream.DrainLeavesNoBoundary | frontend/static/script.js:266-268 | When the loop stops, the buffer holds no boundary. |
| ClientStream.FramesWellCut | frontend/static/script.js:268-272 | Every frame cut off holds no boundary, and every boundary is line breaks only. |
| ClientStream.DataFound | frontend/static/script.js:274-275 | A frame whose trimmed text starts with `data:` contains `data:`, so the `indexOf` is not -1. |
| ClientStream.FrameToken | frontend/static/script.js:274-291 | A frame adds a token only if its trimmed text starts with `data:`, and the token is non-empty. |
| ClientStream.DataFrameToken | frontend/static/script.js:274-291 | A `data: {…}` frame adds the value of a non-empty `token` member and nothing for any other object. |
| ClientStream.DrainBuffer | frontend/static/script.js:264-321 | The loop, with the search repeated after every frame, leaves the remainder in the buffer. The reply text gains the frames' tokens in order. |
| ClientStream.WrittenStepOnDataFrame | frontend/static/script.js:268-321 | On a `data:` frame, the pass as written equals the corrected one. |
| ClientStream.WrittenLoopSpins | frontend/static/script.js:268-321 | As written, a buffer holding one non-`data:` frame is emptied but keeps its old position, and then every pass leaves the state unchanged. |
| ClientStream.PingFrameSpins | frontend/static/script.js:317-320 | The comment frame `: ping` and a blank line put the loop as written into its endless pass. |
| ClientStream.ServerFrameCut | frontend/static/script.js:265-272 | The client cuts each server frame off whole, whatever follows it. |
| ClientStream.ServerFrameToken | frontend/static/script.js:274-291 | A server frame adds its event's text: the token of a token event, and nothing for `end` or an error. |
| ClientStream.ReadServerStream | frontend/static/script.js:264-321 | Reading any run of server frames takes every frame, leaves nothing, and adds the events' texts in order. |
| ClientStream.ReplyIsTokens | frontend/static/script.js:264-321 | End to end, the reply text on the page is the agent's displayable tokens in order, whether the stream ended or failed. |
| ClientStream.EventTextsOfStream | app/main.py:127-167 | A stream's events add its tokens and then nothing for the terminator. |
| Text.JoinSplit | frontend/static/script.js:56-77 | Splitting on a character and joining with it gives the text back. |
| Text.StripWithIdempotent | scraping/aeat_loader.py:20 | Stripping twice is stripping once. |

## Left out

- I/O and foreign code are left out: the language model and LangGraph agent, the summarization node and its token budgets, and the SQLite checkpointer and its lifespan handling. Also the FAISS retriever singleton and its locking, the Tavily client, environment variables, and the loading of the deductions JSON file. Their outputs are parameters (the chunk sequence, the summarizer outcome, the retrieved documents, the search outcome, the deductions data).
- The clock is a parameter. The `asyncio.sleep` pacing and the logging calls are left out.
- Concurrency is left out: limiter calls and stream reads are sequential.
- In script.js, the DOM, `fetch`, `sendBeacon`, UUIDs and the `sources_used` display are left out. The `done` branch (frontend/static/script.js:219-262) and its re-entry into `push` are also out. The bot message element is taken to exist once the first frame arrives. The decoder's chunking is out: the model drains one buffer.
- `HaciendaLoader.load`, the HTTP fetches and BeautifulSoup are left out. A page is its list of top-level elements, each with its tag name and extracted text.
- ingest/ingest_jsonl.py, scraping/scrape.py, tests/test_faiss.py, app/logging_config.py, frontend/serve_frontend.py, the CORS origin parsing, `ChatOpenRouter` and `/health` are not part of this model.
- Json.Parse: it reads only the one-member, string-valued objects that the server sends. A lone surrogate escape (`\ud800` alone) is refused because a Dafny `char` cannot hold it, whereas `JSON.parse` accepts it.
- ClientStream.FrameToken: an object with more than one member, or with a value that is not a string, is refused by the model's parser and adds nothing. `JSON.parse` would accept it, and a truthy `token` member would be appended. The server never sends such objects.
- AeatLoader.TitleCasePointwise: `str.title()` is modelled for ASCII letters only. Other cased letters such as `ñ` or `á` count as uncased.
- AeatLoader.HaciendaLoader.constructor: `urljoin` is modelled as concatenation with the base. That is what it does for a plain slug without `/`, `:` or `..`.
- TaxTools.KnownSlugLines: stated for slugs and deduction names without line breaks, because a name holding `\n` would add lines of its own.
- TaxTools.HitBlockLines: stated for fields without line breaks, for the same reason.
- TaxTools.InternetSearch: a result field is a string, `None` or missing. Other values (a number, a list) would be printed with `str()`, and that is not modelled.
- ClientFormat.WrapCounts: stated for inputs in which no line is itself `<ul>` or `</ul>`.
- ClientFormat.ListItemPlain: stated for a line without line terminators. `split('\n')` can still leave `\r`, U+2028 or U+2029 inside a line; `ListItem` itself models those too.
- Compaction.SummarizeLlmInput: a `messages` entry that is not a list always fails as not subscriptable, though a string or tuple would slice. A summarized entry whose type defines its own `__add__` or `__radd__` is given the generic "unsupported operand" message. Error messages are otherwise CPython's, built from the offending type or class name. The print on failure is left out. A summarizer that returns something other than a dictionary fails at `.get` inside the `try`, so it counts as `Raised`.
- RateLimit.RateLimiter.Call: the Python detail message and the warning log for the global limiter are not modelled beyond the `TooManyRequests` detail text.
- Chat.HandleChat: exceptions raised by the limiters (`ValueError` for an unknown type) are a `Rejected(InvalidLimitType)` response, not an HTTP 500.

## Findings

| source | as written | input that shows it | evidently intended | confidence | as-written member | corrected member |
|---|---|---|---|---|---|---|
| frontend/static/script.js:317-320 | `searchResult = buffer.search(...)` is refreshed only inside the `data:` branch. After a frame that is not a `data:` frame, the next pass cuts the new buffer at the stale position; once the buffer is emptied, every later pass leaves it empty and the loop never exits. When a `data:` frame follows the other frame in the same chunk, the stale cut garbles that frame instead. The server in app/main.py:124-166 sends only `data:` frames, so the fault stays latent until a proxy or another server adds comment, `event:`, `id:` or `retry:` frames. | a response chunk `: ping\n\n` (an SSE comment line), as a proxy may inject | search again after every frame, whatever its kind | not executed | ClientStream.PingFrameSpins | ClientStream.DrainBuffer |
