# Tab search: background worker and search-engine connector

This project is a Dafny model of the core of a browser extension that
indexes open tabs and searches them with a Xapian engine compiled to
WebAssembly. The model covers two pieces of that core.

- **The background worker** (`worker.js`). It keeps `index_queue`, a map
  from tab id to a pending delta. `1` means a new tab to index, `0` means
  a tab to re-index, and `-1` means a tab to drop. The popup collects
  these deltas with `get_jobs`. The worker also keeps `tab_highlight`,
  the `find` request per tab that the highlighter script asks for with
  `get_highlight`. It answers the runtime messages `find`,
  `get_highlight`, `delete`, `group` and `get_jobs`.
- **The engine connector** (`data/xapian/connect.js`). Each `add` builds
  an object record and puts it into an IndexedDB object store. The store
  uses key path `guid` and a key generator. The caller's own fields (not
  the hidden ones, not the timestamp) are then handed to the engine under
  the key the store used. The connector also does the following:
  - `body` finds a record again from its guid;
  - `search` parses the engine's `size/estimated` answer;
  - `search.snippet` picks the text to summarise;
  - `remove` drops an engine document;
  - `language` maps a locale code to a stemmer name.

Modules:

| file | module | contents |
|---|---|---|
| `outcomes.dfy` | `Outcomes` | `Option` and `Result` |
| `text.dfy` | `Text` | `split`/`join` on one character, `includes`, `startsWith`, the regular-expression class `\s`, trimming |
| `js_values.dfy` | `JsValues` | the JavaScript values records hold, truthiness, `Number(...)` on decimal text, `String(...)` of an integer |
| `worker.dfy` | `Worker` | the tab events, the delta queue as a fold over events, the messages and replies, and the class `Background` with the worker's two maps |
| `xapian_text.dfy` | `XapianText` | `language`, keyword normalisation and the parsing of search results |
| `xapian_store.dfy` | `XapianStore` | the object store with its key generator, `body`, record building, `search.snippet`, and the class `Coordinator` with `add` and `remove` |

Where the worker reads a preference or calls the browser, the model takes
the value as a parameter or returns the call as a `HostCall` value. The
connector's engine calls are handled the same way:
- whether `_add` throws is the `engineFails` parameter;
- `_key` is the function `keyOf`;
- the argument tuple handed to `_snippet` is the result of `Snippet`;
- the text `_query` returns is the input of `ParseSearchResult`.

The model follows the code as written:
- the queue holds no set of already-seen tabs;
- `get_jobs` answers with the queue and then empties it;
- closing a tab always records `-1`;
- a message with an unknown `method` is ignored and gets no reply
  (it raises no error);
- the removal, update and activation listeners act only once the start-up
  routine has registered them (`listening`);
- the creation listener is registered on `chrome.tabs.onCreate`
  (worker.js:134). The tabs API has no such event, so the registration
  throws and no creation listener ever runs. `StepAsWritten` and the lemmas
  beside it model that. `Step` and `Background.OnCreated` model the
  intended listener (see Findings).

## Model

| member | source | states |
|---|---|---|
| Worker.Step | worker.js:114-137 | One tab event changes only its own tab's entry, with the creation listener as intended. Creation queues 1, a non-discarded update or an activation queues 0, removal queues -1, and a discarded update changes nothing. Every queued value stays in {-1, 0, 1}. |
| Worker.ReplayKeepsDeltas | worker.js:109-137 | Any sequence of tab events leaves every queued value in {-1, 0, 1}. |
| Worker.ReplayKeys | worker.js:114-137 | After a sequence of events, the queued tabs are exactly the tabs queued before plus the tabs some writing event named. |
| Worker.ReplayUntouched | worker.js:114-137 | A tab that no writing event names keeps its presence and its queued value. |
| Worker.ReplayLastWrite | worker.js:114-137 | A tab's queued value is the one its last writing event sets. Later events on other tabs do not change it. |
| Worker.StepAsWritten | worker.js:134 | With the listeners the code actually registers, a creation event leaves the queue unchanged, and every other event acts as in `Step`. |
| Worker.CreationIgnoredAsWritten | worker.js:134-137 | As written, a newly created tab is not queued at all, whereas the intended listener queues it as 1. |
| Worker.CreatedThenUpdatedAsWritten | worker.js:119-137 | As written, a tab created and then updated after startup is queued as 0, not 1. |
| Worker.NoNewTabsAsWritten | worker.js:109-137 | As written, a tab queued as 1 after any events was queued as 1 at startup, and no removal, update or activation of it happened since. |
| Worker.ShouldHighlight | worker.js:19-22 | The highlight test of `find`. Its contract is carried by `HighlightCondition`. |
| Worker.HighlightCondition | worker.js:19-22 | `find` records a highlight iff the snippet is non-empty and either the `strict` preference is set or `<b>` occurs at some position of the snippet. |
| Worker.PlanGroup | worker.js:47-54 | `group` takes the first id as the anchor of the new window, and there is no anchor iff the id list is empty. The anchor followed by the moved ids is exactly the original list, in order. |
| Worker.GroupCalls | worker.js:48-62 | `group` always creates one window around the anchor first. The moved tabs are moved into it and the window is focused exactly when there are moved tabs. |
| Worker.Background.constructor | worker.js:3-4 | Both maps start empty, and no tab listener is registered yet. |
| Worker.Background.Startup | worker.js:109-113 | The queue is replaced by exactly the open tabs, each marked 1 (new). Then the removal, update and activation listeners become active. Of the creation listener, the class holds the intended one (see Findings). |
| Worker.Background.OnRemoved | worker.js:114-118 | Once listening, the tab's highlight is dropped and the queue advances by a removal event (`-1`). Other highlights are unchanged. |
| Worker.Background.OnUpdated | worker.js:119-129 | Once listening, the queue advances by an update event, which marks the tab 0 unless the tab was discarded. |
| Worker.Background.OnActivated | worker.js:130-133 | Once listening, the queue advances by an activation event, which marks the tab 0. |
| Worker.Background.OnCreated | worker.js:134-137 | The intended creation listener: once listening, the queue advances by a creation event, which marks the tab 1. This is the corrected member of the Findings row. |
| Worker.Background.HandleMessage | worker.js:6-69 | Each message behaves as follows. `find` activates the tab and focuses the window, and exactly when the highlight condition holds it stores the request for the tab and injects the highlighter; it replies with an empty answer. `get_highlight` answers with the sender tab's stored request, if there is one. `delete` closes the given tabs. `group` makes the calls of `PlanGroup`. `get_jobs` answers with the queue as it was and leaves it empty. Any other method does nothing. Only `get_jobs` touches the queue, and only `find` touches the highlights. |
| Text.SplitCount | data/xapian/connect.js:97 | `split` on one character yields one more piece than the text has separators. |
| Text.JoinSplit | data/xapian/connect.js:63 | Joining the pieces of a split with the same separator gives back the text. |
| Text.SplitJoin | data/xapian/connect.js:63 | Splitting a join of separator-free pieces (at least one) gives back the pieces. |
| Text.SplitPair | data/xapian/connect.js:97 | Two separator-free texts around one separator split into exactly those two texts. |
| Text.IncludesIff | worker.js:21 | `includes` holds iff the pattern occurs at some position. |
| Text.TrimStart | data/xapian/connect.js:63 | Only leading whitespace is removed; the result is a suffix and does not start with whitespace. |
| Text.TrimEnd | data/xapian/connect.js:63 | Only trailing whitespace is removed; the result is a prefix and does not end with whitespace. |
| JsValues.DecimalRoundTrip | data/xapian/connect.js:129-130 | Reading back the decimal text of a natural number gives that number. |
| JsValues.NumberOfIntString | data/xapian/connect.js:129-130 | `Number(String(n))` is `n` for every integer of the model, negative ones included. For JavaScript numbers this holds below 2^53 in magnitude. |
| XapianText.CodePrefix | data/xapian/connect.js:178 | The language part is the code up to its first `-`, or all of the code if it has no `-`. It starts the code, holds no `-`, and is followed by a `-` whenever it is shorter than the code. |
| XapianText.Language | data/xapian/connect.js:177-209 | The result is always one of the table's stemmer names. A code whose part before the first `-` is not in the table maps to `english`. |
| XapianText.LanguageIgnoresRegion | data/xapian/connect.js:178 | Only the part before the first `-` matters: `p-region` maps like `p`. |
| XapianText.PersianIsArabic | data/xapian/connect.js:181-182 | The Persian code `fa-IR` maps to the Arabic stemmer. |
| XapianText.NorwegianCodes | data/xapian/connect.js:198-200 | `no`, `nn` and `nb`, with any region, all map to `norwegian`. |
| XapianText.LanguageAsWritten | data/xapian/connect.js:180-208 | The object-literal lookup as written yields an inherited `Object.prototype` member exactly when the code's prefix names one. Otherwise it agrees with the table. |
| XapianText.PrototypeCodeEscapesTable | data/xapian/connect.js:180-208 | For `constructor-` followed by any region, the as-written lookup returns the inherited `constructor` member rather than a stemmer name. |
| XapianText.LanguageAsWrittenAgrees | data/xapian/connect.js:177-208 | For every code whose prefix is not a prototype member name, the as-written lookup and `Language` give the same stemmer name. |
| XapianText.NormalizeKeywords | data/xapian/connect.js:63 | `split(/\s*,\s*/).join(',')`. The regular expression matches a comma with the whitespace runs on either side of it. So splitting at each comma and then trimming each field on its comma sides yields the same pieces. Its contract is carried by `KeywordFields`, `KeywordsCommasBare`, `KeywordsKeepText`, `KeywordsWithoutComma` and `KeywordsIdempotent`. |
| XapianText.TrimFields | data/xapian/connect.js:63 | There is one trimmed field per input field. Afterwards no field but the first starts with whitespace, and no field but the last ends with it. A field without a comma stays without one. |
| XapianText.KeywordFields | data/xapian/connect.js:63 | Normalised keywords split into exactly the trimmed fields of the input, so the number of fields and of commas is kept. |
| XapianText.KeywordsCommasBare | data/xapian/connect.js:63 | After normalisation no comma has whitespace on either side. |
| XapianText.KeywordsKeepText | data/xapian/connect.js:63 | Normalisation removes only whitespace: the non-whitespace characters are kept, in order. |
| XapianText.KeywordsWithoutComma | data/xapian/connect.js:63 | A keyword string without a comma is left exactly as it is. |
| XapianText.KeywordsIdempotent | data/xapian/connect.js:63 | Normalising twice gives the same result as normalising once. |
| XapianText.ParseSearchResult | data/xapian/connect.js:93-101 | The result is an error iff the engine's text starts with `Error: `, and the error message is the text after that prefix. Text without `/` gives `Number(text)` as the size and `NaN` as the estimate. |
| XapianText.SearchResultRoundTrip | data/xapian/connect.js:97-101 | The engine text `size/estimated` for integers parses back to exactly those two numbers. |
| XapianText.SearchErrorMessage | data/xapian/connect.js:94-95 | The text `Error: ` followed by a message always parses to an error carrying that message. |
| XapianStore.KeyValue | data/xapian/connect.js:155-158 | A key written into a record's `guid` reads back as the same key. |
| XapianStore.Put | data/xapian/connect.js:81-82 | The put follows the store's key path `guid` and its key generator. It fails iff the record has a `guid` that is not a valid key. Otherwise exactly the new key is added and other records are unchanged. An inline key stores the record as it is. Without one, a fresh generated number is stored and injected as `guid`. The store's invariant is kept. |
| XapianStore.LookupKey | data/xapian/connect.js:127-131 | A guid that reads as a number is looked up as that number. Any other string is looked up as itself, and only an undefined guid has no key. |
| XapianStore.Body | data/xapian/connect.js:126-137 | `body` rejects an undefined guid as an invalid key. It finds a record iff the looked-up key is stored, and then returns that record. |
| XapianStore.GeneratedKeyFound | data/xapian/connect.js:71-74 | The guid text `add` resolves with for a generated key finds the stored record again through `body`. |
| XapianStore.StringGuidFound | data/xapian/connect.js:129-135 | A non-numeric string guid is the record's key, and `body` finds the record from it. |
| XapianStore.NumericTextGuidMissed | data/xapian/connect.js:127-131 | A caller-chosen string guid that reads as a number is stored under the string. `body` looks it up as the number and does not return the record. |
| XapianStore.BuildRecord | data/xapian/connect.js:65-70 | The record holds the base fields, the hidden fields and `timestamp`. It also holds `guid` when a truthy guid is given. Hidden fields override the base, `timestamp` overrides both, and a truthy guid overrides all. |
| XapianStore.BuildRecordKeepsCallerFields | data/xapian/connect.js:65-70 | Without a guid and without hidden fields of those names, the record has no inline key and carries the caller's title, url and body. |
| XapianStore.AddThenBody | data/xapian/connect.js:65-85 | A record added without a guid is found by `body` from the key text `add` resolves with, with the caller's title, url and body. |
| XapianStore.Snippet | data/xapian/connect.js:113-119 | Truthy `content` goes straight to the snippet engine. Otherwise the result's key is looked up with `body`, and its failure is passed on or its stored body is summarised, with the same language, size and omit options. |
| XapianStore.SnippetOfAddedRecord | data/xapian/connect.js:113-118 | The snippet of a result whose key is a freshly generated one is computed from the body of the record that was put. |
| XapianStore.Coordinator.constructor | data/xapian/connect.js:155-158 | The connector starts with an empty object store and no engine documents. |
| XapianStore.Coordinator.Add | data/xapian/connect.js:45-87 | An invalid URL rejects and changes nothing. A put refused for an invalid key (DataError) rejects and changes nothing; other store request errors are not modelled (see "## Left out"). An engine failure rejects but keeps the stored record. On success, `add` resolves with the key as text, and the engine gets the caller's fields under that key, with normalised keywords. Every engine document has a stored source record. |
| XapianStore.Coordinator.Remove | data/xapian/connect.js:33-35 | Exactly the engine document under the guid's string form is dropped. The object store is untouched. |

## Left out

- The browser calls themselves: tab activation, window focus, script
  injection, tab closing, window creation and moving tabs. They are
  returned as `HostCall` values and their failures are not modelled.
- The `strict` preference read from extension storage is a parameter of
  `HandleMessage`. `find` is modelled as one atomic step, and the
  asynchronous order of the storage callback is not modelled.
- `get_highlight` from a sender without a tab throws in the source. The
  model takes the sender's tab id as given.
- The toolbar action, the popup/open-mode preference handling and the
  page opened on install are outside the core.
- Startup deletes the remaining IndexedDB databases before building the
  queue. That I/O is not modelled.
- `once` is registered for both install and startup, which may register
  the listeners twice. The listeners' writes are idempotent, so the model
  registers them once.
- Logging to the console is not modelled.
- The WebAssembly bindings and the engine's internals are not modelled:
  `_add`, `_clean`, `_query`, `_key`, `_snippet`, `_prepare`, `_release`,
  `_commit` and `_percent`. So the model does not capture stemming,
  ranking, snippet text or persistence. `xapian.new`, `xapian.release`
  and `search.percent` only forward to them. `xapian.commit` also
  awaits `FS.syncfs`, which writes the engine's files to IndexedDB. That
  is not modelled either (see the file-system line below).
- `search.guid` is the `keyOf` parameter, and `search.body` is `Body` of
  its result.
- The file-system mount, the `FS.syncfs` persistence of `commit`, the
  database upgrade (including its index definitions) and the script loader
  are not modelled. The model starts
  from an empty store.
- URL parsing is an input (`UrlParts`), with `None` for a URL that
  `new URL` rejects.
- `Date.now()` is the `now` parameter.
- JsValues.ToNumber: only the empty string and optionally signed decimal
  digit strings are read as numbers; everything else is `NaN`. The model
  does not cover:
  - surrounding whitespace;
  - `+`;
  - fractions, exponents and hexadecimal;
  - `Infinity`.
- Record values are undefined, booleans, integers or strings. Object,
  array and fractional values are not modelled, and neither are
  non-string values for the fields `add` defaults to `''`.
- XapianStore.Put: keys are integers or strings. The model leaves out:
  - dates, arrays and binary keys;
  - fractional numeric keys;
  - the key generator's limit of 2^53, past which the put fails.
- The `unique` index on `guid` is not modelled. The key path is `guid` as
  well, so the index adds no constraint on top of the store's keys.

- JsValues: `Num` stands for integers of magnitude below 2^53. Beyond
  that the model's conversions differ from JavaScript's. `Number` of a
  longer digit string rounds to a double, and from 1e21 on `String` writes
  exponent notation. The model reads and writes every integer exactly.
- XapianStore.Put and XapianStore.Body: the object store is assumed to be
  available. Request errors other than an invalid key are not modelled.
  These are the `onerror` rejections at data/xapian/connect.js:86 and
  data/xapian/connect.js:136, such as an aborted transaction or an
  exceeded quota. Both members fail only for the reasons they name:
  `DataError` for a put, and an invalid key or no result for a lookup.

## Findings

| source | as written | input that shows it | evidently intended | confidence | as-written member | corrected member |
|---|---|---|---|---|---|---|
| worker.js:134 | The creation listener is registered on `chrome.tabs.onCreate`, which the tabs API does not have (the event is `onCreated`). `.addListener` then throws inside `once`, after the other three listeners are registered. | A tab opened after startup is never queued as 1. Its first update queues it as 0, and a tab that is only created is not queued at all. | Created tabs are queued as new (1). | high, not executed | Worker.CreationIgnoredAsWritten | Worker.Background.OnCreated |
| data/xapian/connect.js:180-208 | The stemmer name is read from an object literal, which also inherits `Object.prototype` members. | `xapian.language('constructor-US')` returns the `Object` function, not a stemmer name. | Every code maps to a stemmer name, with `english` for unknown codes. | medium, not executed | XapianText.PrototypeCodeEscapesTable | XapianText.Language |
