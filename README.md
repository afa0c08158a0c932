# brave-api core, modelled in Dafny

This project models the logic of the `brave-api` Python repository: a client
for the Brave Search API plus a small package of prompt helpers. Five parts
are modelled:

- **Tagged-response parser** (`parse_responses`, module `Parser`). It scans
  an LLM reply for `<START>key<END>value` sections and builds a dictionary.
  The loop is a Dafny `method` proved against `InsertAll(Sections(response))`,
  where `Sections` lists the (key, value) pairs of the successive passes.
  Lemmas prove five things about those pairs and the dictionary: the empty
  case, that every parsed key is present and holds the value of its last
  occurrence, stripped keys and values, where each value starts, and the
  entry-count bound.
  Module `ParserExample` works out `<START>a<END>x<START>b<END>y`.
- **Prompt templates** (`MessageTemplate`, `FunctionTemplate`, module
  `PromptTemplates`). This covers:
  - constructor argument binding and the role/name rule;
  - `initial_template`;
  - the `load` dispatch;
  - `recursive_format`;
  - `format_message`, a `method` on the `PromptTemplate` class with the loop
    over the fields;
  - `_exclude_keys`, a loop that pops keys;
  - `to_prompt`.

  Python's format-string machinery (`string.Formatter().parse`, `str.format`)
  is a pair of function-valued parameters (`Formatter`). The modelled code
  only ever calls them.
- **Search client** (`BraveAPIClient`, module `Client`). This covers:
  - API-key resolution, with the environment passed in as a map;
  - the fixed base URL and headers;
  - query validation;
  - clamping `count` and `offset` with `min`;
  - the ordered parameter list with `None` values dropped;
  - the status check of `search`.

  The HTTP request (`_get`) is a function-valued parameter.
- **Response projections** (`WebSearchApiResponse`, module
  `WebSearchResponse`). `urls`, `review_urls` and `descriptions` are
  order-preserving filters. `product_cluster` picks the first product
  cluster. `news_results` and `video_results` are also modelled.
- **`APIError`** (module `Exceptions`). It lifts `code`, `param` and `type`
  out of a dict body.

Supporting modules:

- `PyValues` is the Python value of the templates and error bodies (`None`, bool, int, str, list, dict), with truthiness. It has no floats.
- `PyStr` holds the `str` builtins the code calls: `strip`, `split()`,
  `find` and slicing. Whitespace is Python's full `str.isspace` set.
- `Sequences` is the comprehension `[f(x) for x in xs if p(x)]` as
  `Collect`. It comes with a lemma that the result is exactly the in-order
  subsequence of the selected elements.
- `Wrappers` holds `Option` and `Result`.

The model follows the code. Retry logic exists in three places, all left
out below: the `@retry` decorator on `_get` in `src/brave/sync.py`, the
`AsyncRetrying` loop in `src/brave/async_brave.py`, and the tenacity decorator
in `src/apo/openai_utils.py`.

## Model

| member | source | states |
|---|---|---|
| Parser.ParseResponses | src/apo/utils/parser.py:4-16 | the dictionary is the key/value pairs of the successive passes inserted left to right; it is empty when either tag is missing |
| Parser.KeyOf | src/apo/utils/parser.py:10-12 | the key has no surrounding whitespace, and it is `""` when the first `<END>` comes before the end of the first `<START>` |
| Parser.RestOf | src/apo/utils/parser.py:15 | each pass continues on a suffix at least `len("<END>")` characters shorter, so the loop terminates |
| Parser.NoSection | src/apo/utils/parser.py:9 | there are no pairs, and so the dictionary is empty, exactly when `<START>` or `<END>` is missing |
| Parser.InsertAll | src/apo/utils/parser.py:14 | every inserted key is a key of the dictionary |
| Parser.LastOccurrenceWins | src/apo/utils/parser.py:14 | every key of the dictionary maps to the value of the last pair with that key |
| Parser.InsertAllKeys | src/apo/utils/parser.py:14 | the dictionary's keys are exactly the keys of the inserted pairs |
| Parser.ParsedKeysPresent | src/apo/utils/parser.py:9-15 | every key read by some pass of `parse_responses` is a key of the result |
| Parser.InsertAllSize | src/apo/utils/parser.py:14 | inserting n pairs gives at most n entries |
| Parser.SectionsBound | src/apo/utils/parser.py:9-15 | there are at most as many passes as `<END>` occurrences in the input |
| Parser.ParsedEntriesBound | src/apo/utils/parser.py:9-15 | the dictionary has at most as many entries as the input has `<END>` tags |
| Parser.ValueIsStrippedSuffix | src/apo/utils/parser.py:13-15 | value i is the stripped input from `ValueStart(response, i)` to its very end: the position right after the `<END>` that pass i consumes |
| Parser.ValueStartFollowsEnd | src/apo/utils/parser.py:11-15 | the five characters before `ValueStart(response, i)` are `<END>` |
| Parser.ValueStartGrows | src/apo/utils/parser.py:13-15 | each later value starts at least `len("<END>")` characters after the previous one, so value i contains the text of every later section |
| Parser.HeadValueSuffix | src/apo/utils/parser.py:11-13 | the first value is the stripped text from `find("<END>") + len("<END>")` to the end |
| Parser.SectionAfterFirst | src/apo/utils/parser.py:15 | after the first pass, the remaining pairs are those of the text after the first `<END>` |
| Parser.SectionsAreStripped | src/apo/utils/parser.py:12-13 | no key and no value starts or ends with whitespace |
| ParserExample.TwoSections | src/apo/utils/parser.py:9-15 | `<START>a<END>x<START>b<END>y` gives `a -> "x<START>b<END>y"` and `b -> "y"` |
| ParserExample.InputEnd | src/apo/utils/parser.py:11 | in that input the first `<END>` is at index 8 |
| PyStr.FindIsFirst | src/apo/utils/parser.py:9-11 | `find` gives -1 exactly when the tag does not occur, and otherwise its first occurrence |
| PyStr.StripRemovesSpace | src/apo/utils/parser.py:12-13 | `strip` keeps an infix and removes only whitespace around it |
| PyStr.StripStripped | src/apo/utils/parser.py:13 | stripping an already stripped string changes nothing |
| PyStr.Split | src/brave/client.py:102 | `split()` yields non-empty words without whitespace |
| PyStr.SplitBound | src/brave/client.py:102 | a string of length n has at most (n + 1) / 2 words |
| PyStr.SplitCount | src/brave/client.py:102 | `len(q.split())` is the number of non-whitespace characters that come first or right after whitespace, that is, the number of whitespace-separated words, counted by `WordStarts` independently of `Split` |
| PromptTemplates.ExtractPlaceholders | src/apo/prompt_template.py:87-91 | the placeholder list fails exactly when parsing fails, and it is no longer than the parsed chunks |
| PromptTemplates.PlaceholdersIffField | src/apo/prompt_template.py:87-91 | a string has placeholders exactly when some parsed chunk names a field |
| PromptTemplates.RecursiveFormat | src/apo/prompt_template.py:39-48 | the branches of `recursive_format` (listed under this table) |
| PromptTemplates.FormatPlaceholderFree | src/apo/prompt_template.py:39-48 | a value with no placeholder in any string, looking through dicts, is returned unchanged |
| PromptTemplates.Bind | src/apo/prompt_template.py:114-126 | the dataclass `__init__` plus `__post_init__`: the only errors are `TypeError` and `ValueError`; on success there is a `name` field and every given keyword keeps its value |
| PromptTemplates.BindOutcome | src/apo/prompt_template.py:114-137 | the constructor call rules (listed under this table) |
| PromptTemplates.FunctionRoleNeedsName | src/apo/prompt_template.py:122-126 | with acceptable arguments, a message is refused with `ValueError` exactly when its role is `"function"` and its name is missing or falsy; a function template is never refused |
| PromptTemplates.InitializeTemplate | src/apo/prompt_template.py:148-153 | `_initialize_template`, of both templates (the message one is at lines 128-129), copies field values: every key it has is a field, with that field's value |
| PromptTemplates.InitialTemplateIsFields | src/apo/prompt_template.py:128-129 | `initial_template` equals the template's own fields, names and values |
| PromptTemplates.LoadArguments | src/apo/prompt_template.py:54-62 | the `load` dispatch (listed under this table) |
| PromptTemplates.FormatFields | src/apo/prompt_template.py:50-52 | the pass over the fields never adds or removes a field |
| PromptTemplates.FormatFieldsSuccess | src/apo/prompt_template.py:50-52 | after a successful pass, every field is its initial value formatted, and nothing else changed |
| PromptTemplates.FormatFieldsFailure | src/apo/prompt_template.py:50-52 | the pass raises exactly when formatting one of the initial values raises |
| PromptTemplates.FormatFieldsKeeps | src/apo/prompt_template.py:50-52 | a field that already holds its formatted initial value keeps it |
| PromptTemplates.FormatFieldsIdempotent | src/apo/prompt_template.py:50-52 | formatting twice with the same arguments gives the same fields and outcome as formatting once |
| PromptTemplates.ExcludeKeys | src/apo/prompt_template.py:64-77 | the `_exclude_keys` rules (listed under this table) |
| PromptTemplates.PromptTemplate.constructor | src/apo/prompt_template.py:21-23 | the fields are the arguments, and `initial_template` is built from them |
| PromptTemplates.PromptTemplate.FromDict | src/apo/prompt_template.py:131-137 | `_from_dict` fails exactly as argument binding does; on success the new template's `initial_template` equals its fields |
| PromptTemplates.PromptTemplate.Load | src/apo/prompt_template.py:54-62 | a dispatch error is returned as it is; otherwise the outcome is that of `_from_dict` on the loaded dict, and a loaded template's `initial_template` equals its fields |
| PromptTemplates.PromptTemplate.FormatMessage | src/apo/prompt_template.py:36-52 | the new fields and the outcome are those of the `FormatFields` pass over the field names; `initial_template` is unchanged |
| PromptTemplates.PromptTemplate.AsDict | src/apo/prompt_template.py:84 | `asdict` is the fields plus `initial_template` |
| PromptTemplates.PromptTemplate.ToPrompt | src/apo/prompt_template.py:79-85 | never raises, drops exactly the excluded keys, and with the default argument has no `initial_template` |
| Client.ResolveApiKey | src/brave/client.py:24-31 | the API key rule (listed under this table) |
| Client.BraveApiClient.New | src/brave/client.py:24-34 | construction fails with `BraveError` exactly when no key is given and none is in the environment; otherwise the fields are stored (listed under this table) |
| Client.BraveApiClient.constructor | src/brave/client.py:32-34 | stores the key and the endpoint, and sets the fixed base URL |
| Client.BraveApiClient.PrepareHeaders | src/brave/client.py:36-38 | exactly three headers, the subscription token being the API key |
| Client.ShortQueryValid | src/brave/client.py:102 | every non-empty query of at most 100 characters passes validation |
| Client.Min | src/brave/client.py:110-111 | `min` is at most both arguments and equals one of them |
| Client.SearchParams | src/brave/client.py:102-123 | `search`'s parameters fail with `ValueError` exactly when `q` is empty, longer than 400 characters or has more than 50 words; with a valid `q` and integer `count` and `offset` they are built, `q` first and unchanged |
| Client.ImageParams | src/brave/client.py:166-179 | the same rule for `image`, with no `offset` |
| Client.SearchClamps | src/brave/client.py:105-123 | the clamps of `search` (listed under this table) |
| Client.ImageClamps | src/brave/client.py:169-179 | `image` sends `q` unchanged and `count = min(count, 20)` |
| Client.DropNoneKeepsPresent | src/brave/client.py:122-123 | after filtering, the parameters are exactly the non-`None` entries, in order, with keys and values unchanged |
| Client.Lookup | src/brave/client.py:122-123 | a key found in the parameter list is among its entries; a missing key is carried by no entry |
| Client.LookupPresent | src/brave/client.py:122-123 | a present value is sent under its key |
| Client.LookupAbsent | src/brave/client.py:122-123 | a key whose value is `None` is not sent |
| Client.DefaultSearchKeepsFalse | src/brave/client.py:48-123 | with the default arguments, `extra_snippets=False` is sent and `country=None` is dropped |
| Client.Search | src/brave/client.py:101-135 | a parameter error is raised as it is; with accepted parameters, `search` raises `BraveError` carrying the status and text exactly when the status is not 200, and otherwise returns the decoded JSON |
| Client.Image | src/brave/client.py:166-184 | `image` fails exactly when its parameters fail, with that error; otherwise it returns the decoded JSON whatever the status |
| WebSearchResponse.WebResults | src/brave/types/web/web_search_response.py:59-62 | the web results when `web` is present, and none otherwise |
| WebSearchResponse.UrlsAreTruthyUrls | src/brave/types/web/web_search_response.py:64-67 | `urls` is exactly the in-order subsequence of the results' truthy URLs |
| WebSearchResponse.UrlsOfValidatedResults | src/brave/types/web/web_search_response.py:64-67 | when no URL is empty, `urls` lists every result's URL in order |
| WebSearchResponse.Urls | src/brave/types/web/web_search_response.py:64-67 | there are at most as many URLs as results |
| WebSearchResponse.ReviewUrls | src/brave/types/web/web_search_response.py:69-72 | there are at most as many review URLs as results |
| WebSearchResponse.ReviewUrlsAreReviewedProducts | src/brave/types/web/web_search_response.py:69-72 | `review_urls` is exactly the in-order URLs of the results with subtype `"product"` that carry a review |
| WebSearchResponse.Descriptions | src/brave/types/web/web_search_response.py:74-77 | there are at most as many descriptions as results |
| WebSearchResponse.DescriptionsAreNonEmpty | src/brave/types/web/web_search_response.py:74-77 | `descriptions` is exactly the in-order subsequence of the non-empty descriptions |
| WebSearchResponse.NewsResults | src/brave/types/web/web_search_response.py:79-83 | no news results when `news` is absent; otherwise its results |
| WebSearchResponse.VideoResults | src/brave/types/web/web_search_response.py:85-89 | no video results when `videos` is absent; otherwise its results |
| WebSearchResponse.ProductCluster | src/brave/types/web/web_search_response.py:91-94 | the only error is `IndexError`, and it is raised when there are no web results at all |
| WebSearchResponse.ProductClusterIsFirst | src/brave/types/web/web_search_response.py:91-94 | `product_cluster` raises `IndexError` exactly when no result has subtype `"product_cluster"`; otherwise it returns the first such result's cluster |
| Exceptions.LiftErrorFields | src/brave/exceptions.py:43-50 | for a dict body, `code`, `param` and `type` are its values for those keys, `None` when missing; for any other body all three are `None` |
| Exceptions.ApiError.constructor | src/brave/exceptions.py:38-50 | `message` and `request` are stored unchanged, and the three fields are those of `LiftErrorFields` |

Rules that are too long for the table:

- **`RecursiveFormat`**:
  - a string that `Formatter.parse` rejects is a format error;
  - a string without placeholders comes back unchanged;
  - a string with placeholders becomes `str.format`'s result, or a format error when that raises;
  - a dict keeps its key set, and each value is formatted recursively;
  - a dict fails exactly when one of its values fails;
  - any other value comes back unchanged;
  - the only error is a format error.
- **`BindOutcome`**:
  - construction raises `TypeError` exactly when a keyword is not a field or a required field is missing;
  - on success, the fields are exactly the field names;
  - they take the given values, and a missing message name is `None`.
- **`LoadArguments`**:
  - a dict is used as it is;
  - a string is read as a JSON file: a read error fails, and a non-object JSON is a `TypeError`;
  - anything else is a `TypeError`.
- **`ExcludeKeys`**:
  - a dict without `"name"` raises `KeyError`;
  - otherwise the result is the dict without the excluded keys and without a falsy `name`;
  - all other entries are untouched.
- **`ResolveApiKey`**:
  - an explicit key is used, even an empty one;
  - otherwise `BRAVE_API_KEY` from the environment;
  - there is no key only when both are missing.
- **`BraveApiClient.New`**: on success, the key is the resolved one, the endpoint is as given (`"web"` by default), and the base URL is `https://api.search.brave.com/res/v1/`.
- **`SearchClamps`**:
  - `q` is sent unchanged;
  - `count = min(count, 20)` and `offset = min(offset, 9)`, each within its bound;
  - each is unchanged when already within its bound.

## Left out

- HTTP: `_get` in `src/brave/sync.py` and `src/brave/async_brave.py` is not part of this model. That includes their retries (`@retry(stop=stop_after_attempt(3), wait=wait_fixed(2))` at `src/brave/sync.py:24`, an `AsyncRetrying` loop with the same settings at `src/brave/async_brave.py:30`) and the swallowed exceptions. `search` and `image` take the answer as a function `get` of the parameters. The headers, endpoint and base URL are not passed to it.
- Client.Search: returns the decoded JSON body. It does not model `WebSearchApiResponse.model_validate` (pydantic validation), so the `raw` flag makes no difference and is not a parameter. Likewise `image` returns the decoded JSON rather than `ImageSearchApiResponse`.
- `src/brave/async_brave.py` `search` duplicates the client's validation and parameter building. Only the `src/brave/client.py` version is modelled.
- Client.SearchParams: `count` and `offset` are modelled as integers or `None`. Other types that Python's `min` would accept or reject differently (floats, strings) are not modelled. `len(q)` counts Unicode scalar values.
- File I/O: `_read_json` is the parameter `readJson`, which returns `None` on an unreadable file or invalid JSON. `_write_json` and `to_json` only write files and are not modelled.
- `download_pdf` and `download_all_pdfs`: network and file I/O.
- `product_prices`, `product_price_ranges` and `average_product_review_score`: float parsing and `numpy.mean`.
- `web_results` (the `model_dump` variant of `_web_results`) is not modelled. `news_results` and `video_results` hold results that have already been dumped to plain values, so the `model_dump` conversion itself is not modelled.
- Pydantic schemas: `SearchResult` keeps only the fields the projections read (`url`, `description`, `subtype`, `review`, `product_cluster`), and `Search` only its `results`. A URL is its text, and truthiness is non-emptiness. A validated `HttpUrl` is never empty; that fact enters only as the precondition of `UrlsOfValidatedResults`. `Review`, `Search`, `News` and `Videos` objects are always truthy, as pydantic models are.
- Dict order: the dict built by `parse_responses` (`parsed_dict`), the request headers, the template fields, `to_prompt` dicts and error bodies are Dafny `map`s, which have no insertion order. So the model does not say that `parsed_dict` lists its keys in order of first insertion. The query parameters keep their order as a sequence of pairs. The pass of `format_message` follows the declared field order, which is the key order of the instance's `__dict__`.
- PromptTemplates.RecursiveFormat: every exception of `Formatter.parse` and `str.format` (`ValueError`, `KeyError`, `IndexError`) is the single error `FormatError`. The format-spec grammar is not modelled.
- PromptTemplates.ExcludeKeys: returns the reduced dict instead of popping keys from the caller's dict in place. `to_prompt`, the only caller, passes a fresh `asdict` copy, so no caller can see the difference.
- PromptTemplates.PromptTemplate.FromDict: the second role/name check in `MessageTemplate._from_dict` can never fire, because `__post_init__` already raised. It is modelled once, in `Bind`.
- Dataclass fields are not type-checked at run time, so a template field holds any `Value`.
- Floats: `Value` has no float case, so a JSON number with a fraction (say `"minimum": 0.5` inside a function template's `parameters`) or a template field holding `0.0` cannot be represented. In the code such a value would take the "any other value" branch of `recursive_format` and come back unchanged, and `0.0` is falsy, so a message `name` of `0.0` would be refused like a missing one.
- `APIError.body` is declared and documented but never assigned by `__init__`, so the model has no such field. The message passed to `BraveError.__init__` is the stored `message`.
- `src/apo/openai_utils.py` is not part of this model. It is a tenacity retry decorator, and `Semaphore`-bounded concurrency around the OpenAI client. `src/apo/examples/sarcasm.py` and the LLM-calling tests are not part of this model either.
