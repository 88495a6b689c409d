# Lead qualification pipeline, modelled in Dafny

This project models the per-URL lead-qualification logic of `ai_scraper.py`.
A list of web addresses is classified by loading each page, collapsing its
visible text, asking a chat-completion classifier for a JSON verdict, and
collecting one five-field record per URL: "URL", "Type", "Is Store",
"Products" and "Reasoning".

The browser, the classifier service and `json.loads` are parameters of the
model:

- `fetch: string -> Fetched` gives `Page(text)` or `FetchFailed`.
- `classify: Request -> Reply` gives `Answered(content)` or `Raised`.
- `decode: string -> Decoded` gives `Malformed` (a `JSONDecodeError`), `NotAnObject` or `Object(fields)`.

Everything between them is modelled as the code does it.

| file | module | models |
|---|---|---|
| `wrappers.dfy` | `Wrappers` | `Option`, Python's `None` or a value |
| `py_str.dfy` | `PyStr` | `str` builtins: the whitespace set, `sep.join`, `strip()`, `replace(pat, "")`, `str()` of an int |
| `normalizer.dfy` | `Normalizer` | `" ".join(text.split())` (line 62) |
| `requester.dfy` | `Requester` | `ai_analysis`: the length guard, the prompt with `text[:2500]`, the reply (lines 14-39) |
| `response_parser.dfy` | `ResponseParser` | fence stripping, decoded values, products rendering (lines 69-79) |
| `lead_records.dfy` | `LeadRecords` | the three failure rows, the classified row, and the per-URL precedence (lines 59-98) |
| `pipeline.dfy` | `Pipeline` | the `for url in urls` loop that appends to `results` (lines 55-100) |

The loop is a method with a `while` loop. It is proved to build exactly
`Qualify(urls, ...)`, the function that appends one record per URL. All
other parts of the source are expressions, so they are modelled as functions
with lemmas.

Behaviour of the code worth knowing when reading the records:

- "Type" is whatever the decoded `type` field holds, or "Unknown" when it is absent. The prompt asks for one of four categories, but the code does not check the answer against them.
- "Is Store" is one of the strings "YES", "NO", "-" or "Error". "YES" means `is_store` was truthy in Python's sense, so the string "false" gives "YES".
- "Products" is "-" on the "Link Dead" and "Scrape Fail" rows, and "" on the "AI Error" row.
- A payload that decodes to something other than a dict gives "Link Dead". So does a products list with a non-string item. In both cases the exception is not a `JSONDecodeError`, so the outer handler catches it (`LeadRecords.ClassifiedPageReadAsDead`).

## Model

| member | source | states |
|---|---|---|
| `PyStr.Join` | ai_scraper.py:77 | `sep.join(parts)` is empty for no parts, and otherwise ends where one more separator after the last part would start |
| `PyStr.JoinLength` | ai_scraper.py:77 | the joined length is the parts' total length plus one separator fewer than there are parts |
| `PyStr.JoinParts` | ai_scraper.py:77 | `PartAt`: every part appears, in order, at its offset: after all earlier parts and one separator each |
| `PyStr.JoinSeparators` | ai_scraper.py:77 | `SeparatorBefore`: the separator stands just before every part but the first; with `JoinParts` and the length, nothing else is in the result |
| `PyStr.JoinSnoc` | ai_scraper.py:77 | joining adds the last part after the join of the others and one separator |
| `PyStr.Strip` | ai_scraper.py:69 | `strip()` output has no whitespace at either end and is never longer than its input |
| `PyStr.StripSplit` | ai_scraper.py:69 | `strip()` removes only whitespace, and only at the two ends: input = whitespace + result + whitespace |
| `PyStr.StripUnpadded` | ai_scraper.py:69 | a string with no whitespace at either end is left unchanged, so `strip()` is idempotent |
| `PyStr.StripEmptyIffBlank` | ai_scraper.py:69 | `strip()` gives "" exactly when the input is empty or all whitespace |
| `PyStr.RemoveAll` | ai_scraper.py:69 | `replace(pat, "")` never lengthens the string |
| `PyStr.IntToString` | ai_scraper.py:79 | `str()` of an int is non-empty and starts with '-' exactly for negative values |
| `PyStr.NatToStringRoundTrip` | ai_scraper.py:79 | reading the decimal digits back gives the number |
| `PyStr.IntToStringRoundTrip` | ai_scraper.py:79 | `str()` of an int is its sign and decimal digits, and reading them back gives the int |
| `Normalizer.SplitWords` | ai_scraper.py:62 | every item of `split()` is non-empty and holds no whitespace |
| `Normalizer.SplitWeave` | ai_scraper.py:62 | the input is whitespace, word, whitespace, ..., word, whitespace, where only the two outer gaps may be empty: the items are the maximal non-whitespace runs |
| `Normalizer.Normalize` | ai_scraper.py:62 | `" ".join(text.split())` has the normal shape (every whitespace is a single ' ' between two other characters) and keeps every non-whitespace character, in order |
| `Normalizer.NormalizeIsNormal` | ai_scraper.py:62 | normalised text has no leading or trailing whitespace and no two spaces in a row |
| `Normalizer.SplitJoin` | ai_scraper.py:62 | splitting a space-joined list of words gives back the same words |
| `Normalizer.NormalizeKeepsWords` | ai_scraper.py:62 | the normalised text splits into exactly the words of the input: each run of whitespace became one space, and no word was merged, split or dropped |
| `Normalizer.NormalizeIdempotent` | ai_scraper.py:62 | normalising twice is the same as normalising once |
| `Normalizer.NormalizeFixedIff` | ai_scraper.py:62 | normalisation leaves a string unchanged exactly when it already has the normal shape |
| `Normalizer.NormalizeBlank` | ai_scraper.py:62 | empty or all-whitespace input, and only such input, normalises to "" |
| `Normalizer.NormalizeLength` | ai_scraper.py:62 | normalised text is at least as long as the input's non-whitespace characters |
| `Requester.Analysable` | ai_scraper.py:15 | the guard `not text or len(text) < 50` lets a text through exactly when it has at least 50 characters |
| `Requester.BuildRequest` | ai_scraper.py:21-34 | the request names the fixed model and system message; the user message starts and ends with the fixed prompt parts and is at most 2500 characters longer than they are |
| `Requester.Excerpt` | ai_scraper.py:26 | `text[:2500]` is a prefix of the text of length min(len(text), 2500) |
| `Requester.AiAnalysis` | ai_scraper.py:14-39 | a request is sent exactly when the text has at least 50 characters, and then it is the fixed request built from the text; no request means no payload; a raising call gives no payload |
| `Requester.ShortTextNotSent` | ai_scraper.py:15-16 | empty text and text under 50 characters give None without consulting the classifier, whatever it would answer |
| `Requester.PromptEmbedsPrefix` | ai_scraper.py:25-33 | between the fixed parts of the user message sits a prefix of the text of length min(len(text), 2500) |
| `Requester.RequestIgnoresTail` | ai_scraper.py:26 | characters past the first 2500 never change the request, and its size is bounded |
| `Requester.AnalysableTextSent` | ai_scraper.py:20-36 | an analysable text is sent as the built request, and the reply's content is returned unchanged |
| `ResponseParser.StripFences` | ai_scraper.py:69 | the cleaned payload has no three backticks in a row, so no fence string remains, and no whitespace at either end |
| `ResponseParser.RemoveFenceLeavesNone` | ai_scraper.py:69 | after `replace("```", "")` no three backticks remain in a row; removal never forms a new fence |
| `ResponseParser.FencedPayload` | ai_scraper.py:69 | a payload wrapped in "```json" ... "```" is cleaned to the same text as the payload without the fences |
| `ResponseParser.FencedBody` | ai_scraper.py:69 | "```json" + B + "```" gives exactly B when B has no backticks and no surrounding whitespace |
| `ResponseParser.Truthy` | ai_scraper.py:84 | Python's `bool()` on the modelled value kinds: false exactly for None, False, 0, "", [] and a falsy float or object |
| `ResponseParser.Get` | ai_scraper.py:75 | `data.get(key, default)` is the field when present and the default otherwise |
| `ResponseParser.PyStrOf` | ai_scraper.py:79 | `str()` of a string value is the string itself |
| `ResponseParser.RenderProducts` | ai_scraper.py:75-79 | products rendering fails exactly for a list with a non-string item; a non-list value gives its `str()` form |
| `ResponseParser.RenderNames` | ai_scraper.py:76-77 | a list of names renders as the names joined by ", ", with the length that implies |
| `ResponseParser.RenderExamples` | ai_scraper.py:75-79 | ["A","B"] gives "A, B"; [] gives ""; null gives "None"; a list holding a number fails |
| `LeadRecords.LinkDead` | ai_scraper.py:95-98 | the outer handler's row carries the URL and "Link Dead", and its "Is Store" is neither "YES" nor "NO" |
| `LeadRecords.ScrapeFail` | ai_scraper.py:91-93 | the no-payload row carries the URL and "Scrape Fail", and its "Is Store" is neither "YES" nor "NO" |
| `LeadRecords.AiError` | ai_scraper.py:88-90 | the invalid-JSON row carries the URL and "AI Error", and its "Is Store" is neither "YES" nor "NO" |
| `LeadRecords.ClassifiedRecord` | ai_scraper.py:74-87 | building the row from a dict fails exactly when products rendering fails; otherwise the row keeps the URL and "Is Store" is "YES" or "NO" |
| `LeadRecords.HasPayload` | ai_scraper.py:67 | `if raw_ai_text:` holds exactly when the payload is a truthy string |
| `LeadRecords.PayloadRecord` | ai_scraper.py:67-98 | "Scrape Fail" exactly when there is no payload; "AI Error" exactly when the cleaned payload is not JSON; a "YES"/"NO" row exactly when it decodes to a dict whose row can be built, and then it is that dict's row |
| `LeadRecords.ProcessUrl` | ai_scraper.py:59-98 | every URL gives one record carrying that URL; it is a failure row exactly when "Is Store" is neither "YES" nor "NO" |
| `LeadRecords.FailurePrecedence` | ai_scraper.py:59-98 | fetch failure gives "Link Dead"; otherwise a missing or empty payload gives "Scrape Fail", a decode failure gives "AI Error", a non-dict gives "Link Dead", and a dict whose row can be built gives that row |
| `LeadRecords.FailureRowsDistinct` | ai_scraper.py:88-98 | the three failure rows differ from each other, and "AI Error" is marked "Error" |
| `LeadRecords.BlankPageNotClassified` | ai_scraper.py:62-93 | a blank page never reaches the classifier and gives "Scrape Fail" |
| `LeadRecords.LongPageClassified` | ai_scraper.py:62-65 | a page with at least 50 non-whitespace characters is always sent to the classifier |
| `LeadRecords.FencesDoNotMatter` | ai_scraper.py:67-72 | a fenced classifier answer gives the same record as the unfenced answer |
| `LeadRecords.ClassifiedFields` | ai_scraper.py:75-87 | for any dict whose products render: "Type" and "Reasoning" are the decoded fields, or "Unknown" and "" when absent; "Is Store" is "YES" exactly when `is_store` is present and truthy; "Products" is the rendered field: "" when absent, a string such as "None" as it is, a list of names joined by ", " |
| `LeadRecords.ClassifiedExamples` | ai_scraper.py:75-87 | `{"products": ["Shoes"]}` gives ("Unknown", "NO", "Shoes", ""); `{"is_store": "false"}` gives "YES"; `{"products": "None"}` gives "None" |
| `LeadRecords.ClassifiedRow` | ai_scraper.py:75-87 | a dict with string type and reasoning, boolean is_store and a list of string products, whatever else it holds, gives the row with its type, "YES"/"NO" from is_store, the names joined by ", ", and its reasoning |
| `LeadRecords.ShopRecord` | ai_scraper.py:75-87 | the dict `{"type": "E-commerce Store", "is_store": true, "products": ["Shoes", "Bags"], "reasoning": "Sells physical goods"}` gives ("E-commerce Store", "YES", "Shoes, Bags", "Sells physical goods") |
| `LeadRecords.AnsweredPageRow` | ai_scraper.py:59-87 | a page that is sent and answered, whose answer decodes to a dict with a row, gets that row |
| `LeadRecords.ShopPageRow` | ai_scraper.py:55-87 | a page with at least 50 non-whitespace characters whose answer decodes to the shop dict gets the shop's row |
| `LeadRecords.ClassifiedPageReadAsDead` | ai_scraper.py:72-98 | a page that loaded and was classified is still reported as "Link Dead" whenever the payload decodes to a non-dict, or to a dict whose products list holds a non-string item |
| `Pipeline.Qualify` | ai_scraper.py:55-100 | the batch's records, exactly one per URL |
| `Pipeline.FilterLeads` | ai_scraper.py:55-100 | the loop leaves `results` with one record per URL, in input order, each carrying its URL |
| `Pipeline.QualifyAt` | ai_scraper.py:55-100 | the i-th record is the outcome of the i-th URL alone |
| `Pipeline.QualifySplit` | ai_scraper.py:55-100 | the records of a batch are the records of its two halves, one after the other, so a failing URL never affects the others |
| `Pipeline.DuplicateUrls` | ai_scraper.py:55-100 | a URL listed twice gives the same record twice; nothing is de-duplicated |
| `Pipeline.BatchRowsWellFormed` | ai_scraper.py:55-100 | every record of a batch is a failure row exactly when its "Is Store" is neither "YES" nor "NO" |

## Left out

- Browser launch, `new_page`, `goto` with its 15000 ms timeout, `inner_text`, and closing the page and browser (lines 52-61, 100-102). This is asynchronous I/O. The `fetch` parameter covers `goto` and `inner_text`. An exception from `new_page` or `page.close` is outside the `try` and would end the whole batch; the model does not cover it.
- The chat-completion call (lines 18-36). It is a network service, so it is the `classify` parameter. The client is constructed at line 18, outside the `try`; with a string key that construction does not raise, so it is not modelled.
- `json.loads` (line 72) is a library JSON decoder, so it is the `decode` parameter. Other exceptions it can raise, such as `RecursionError`, are not modelled.
- The renderer and the classifier are fixed for the run. So the same URL, or the same request, gets the same answer. A real site or model may answer differently each time.
- `ResponseParser.PyStrOf`: Python's `repr` of floats and of nested objects is not modelled. Such values are `Opaque` and carry their `str()` form and truth value.
- `PyStr.IsSpace` lists the characters for which `str.isspace()` is true (general category Zs, or bidirectional class WS, B or S), the set `str.split()` and `str.strip()` use. The list is written out by hand and has not been checked against Python's Unicode database.
- The Excel export (lines 104-140): the DataFrame, formats, column widths and autofilter. This is library and file I/O.
- The API key, `nest_asyncio`, `asyncio.run` and `print` logging (lines 9-10, 38, 50, 56, 64, 96, 140-143).
