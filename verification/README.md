# News aggregator: session state, fetching and cleaning

A Dafny model of the Flask news aggregator in `app.py`. The application fetches
news articles by topic zone, cleans and summarises them, and keeps the results in
the user's session:

- a cache of summaries per zone and page;
- a view history without repeated urls;
- at most five bookmarks, evicted first-in first-out;
- two counters: summaries viewed and bookmarks added.

The model is split into five modules:

- `Wrappers` (`wrappers.dfy`): `Option` and Python truthiness of an optional string.
- `Articles` (`articles.dfy`): `fetch_articles_from_newsapi`, as a loop over the zone's keywords. Each keyword asks the news source once. An "ok" reply contributes its entries whose content is longer than 100 characters. A request that raises contributes nothing. An entry that passes the length filter but lacks its title or url ends that keyword's contribution, because the exception is caught per keyword. An entry that fails the filter is skipped, whatever its other keys.
- `Cleaning` (`cleaning.dfy`): `clean_article_content` and `summarize_article`.
  - The newline pass and the non-ASCII pass are modelled character by character.
  - Every other regular-expression pass replaces its matches with nothing. It is modelled as a `Matcher`, which says which positions of its input a match covers, and the pass deletes those positions.
  - Language detection, translation and the summarisation model are one opaque `SummaryModel` parameter.
- `Records` (`records.dfy`): the value-level operations on session data:
  - the bookmark list;
  - the view history;
  - the cache key `{zone}_page_{page}` and the cache lookup, which treats an empty cached list as a miss;
  - the pagination arithmetic.
- `Handlers` (`handlers.dfy`): the session as a class with one `Option` field per key (`None` means the key is absent), and the route handlers as methods on it:
  - `home`, `summarize`, `bookmark`, `analytics_dashboard`, `clear_bookmarks` and `clear_session`;
  - the summarising loop of `summarize`;
  - four multi-request scenarios: `CachedPageIsReused`, `ZoneSwitchRefetches`, `ClearThenBookmarkRaises` and `ClearThenSummarizeRaises`.

The source sometimes raises a `KeyError` because a session key is missing. This
happens in `bookmark` (line 182) and in `summarize` (lines 143 and 145). Each such
condition is stated exactly as a predicate (`BookmarkRaises`, `SummarizeRaises`).
The handler requires that predicate to be false.

Three behaviours of the program are easy to misread. The model follows the code in each:

- The cache key is `{zone}_page_{page}` (lines 127 and 150).
- `clear_bookmarks` removes the analytics counters as well as the bookmarks (line 200), although its name speaks only of bookmarks. See "## Findings".
- Nothing makes the text cleaner idempotent. Each pass runs once, so deleting one match can join the text around it into a new match that is not deleted, for example `[Rem[Removed]oved]`. The model therefore does not claim idempotence. It proves idempotence only for the newline and non-ASCII passes.

## Model

| member | source | states |
|---|---|---|
| Articles.FetchArticles | app.py:74-99 | The fetched list is exactly the keywords' contributions concatenated in keyword order (`Gathered`). |
| Articles.KeepArticles | app.py:89-96 | The inner loop appends the accepted entries of one "ok" reply to what was found before, in order. It stops at the first kept entry without a title or url. |
| Articles.GatheredConcat | app.py:78-98 | Fetching for two keyword lists in turn is fetching for their concatenation. |
| Articles.GatheredStep | app.py:78-98 | One more keyword appends exactly that keyword's contribution. |
| Articles.AcceptedFromReply | app.py:90-96 | Every kept article is an entry of the reply, with title, content and url unchanged. |
| Articles.AcceptedWellFormed | app.py:90-96 | An entry is kept when it passes the length filter and has a title and url, and no earlier kept entry lacks one. |
| Articles.AcceptedAreMeaningful | app.py:91 | A reply contributes no more articles than it holds, and each has content longer than 100 characters. |
| Articles.GatheredAreMeaningful | app.py:89-91 | Whatever the news source answers, every fetched article has content longer than 100 characters. |
| Articles.GatheredFromKeyword | app.py:78-89 | Every fetched article comes from the "ok" reply to one of the keywords. |
| Cleaning.Delete | app.py:37 | A deleting pass never lengthens the text or introduces a character. |
| Cleaning.Apply | app.py:39-44 | Each deleting pass of the cleaner never lengthens the text or introduces a character. |
| Cleaning.SkipNewlines | app.py:38 | Dropping a leading newline run leaves a text that does not start with a newline. |
| Cleaning.CollapseNewlines | app.py:38 | The newline pass never lengthens the text. |
| Cleaning.SkipNewlinesSuffix | app.py:38 | What is left after a leading newline run is the end of the text. |
| Cleaning.CollapseNewlinesSingleLine | app.py:38 | After the newline pass the text holds no '\n' or '\r', and every character other than a space comes from the input. |
| Cleaning.SkipNewlinesConcat | app.py:38 | Skipping the leading newlines of a concatenation leaves the second part whole, unless the first part is all newlines. |
| Cleaning.SkipNewlinesRun | app.py:38 | A text made only of newlines is skipped entirely. |
| Cleaning.CollapseNewlinesRun | app.py:38 | A non-empty run of '\n' and '\r' becomes exactly one space. |
| Cleaning.CollapseNewlinesConcat | app.py:38 | The newline pass distributes over concatenation unless the two pieces join inside one newline run. With `CollapseNewlinesRun` and `CollapseNewlinesIdentity`, this fixes the pass's result on every text. |
| Cleaning.CollapseNewlinesConcatRun | app.py:38 | The same, for a first piece that starts with a newline run. |
| Cleaning.CollapseNewlinesConcatRunThenText | app.py:38 | The same, for a first piece whose leading newline run is followed by more text. |
| Cleaning.StripNonAscii | app.py:45 | A character survives the non-ASCII pass if and only if it is in the input and is ASCII, and the text does not grow. |
| Cleaning.CleanedIsAsciiSingleLine | app.py:36-46 | The cleaned content is no longer than the raw content and holds only ASCII characters and no newline. |
| Cleaning.PreparedIsAsciiSingleLine | app.py:50-54 | So is the text `summarize_article` hands to the language services. |
| Cleaning.SummaryNeedsText | app.py:56-57 | A summary is produced only for a non-empty cleaned text. |
| Cleaning.CollapseNewlinesIdentity | app.py:38 | A text without newlines is left unchanged by the newline pass. |
| Cleaning.CollapseNewlinesIdempotent | app.py:38 | The newline pass is idempotent. |
| Cleaning.VisibleSkipNewlines | app.py:38 | Skipping a newline run loses no visible character. |
| Cleaning.CollapseNewlinesKeepsText | app.py:38 | The newline pass keeps every character other than spaces and newlines, in order. |
| Cleaning.StripNonAsciiConcat | app.py:45 | The non-ASCII pass distributes over concatenation. |
| Cleaning.StripNonAsciiIdentity | app.py:45 | An ASCII text passes the non-ASCII pass unchanged, so the pass is idempotent. |
| Cleaning.StripNonAsciiEmpty | app.py:45 | A text with no ASCII character is deleted entirely. |
| Cleaning.NonAsciiContentCleansToEmpty | app.py:36-46 | Content made only of non-ASCII characters cleans to the empty text, whatever the other passes match. |
| Cleaning.NonAsciiArticleNotSummarized | app.py:49-57 | Such an article gets no summary, and the language services are never called. |
| Records.AddBookmarkShape | app.py:170-182 | A url already bookmarked leaves the list unchanged. A new one is appended last, after dropping the oldest entry when five or more are kept. The url is bookmarked afterwards. |
| Records.AppendNewUrl | app.py:174-181 | Appending an entry whose url is new keeps urls distinct. |
| Records.AddBookmarkKeepsBound | app.py:167-181 | Bookmarking keeps at most five entries and no repeated url. |
| Records.AddBookmarkTwice | app.py:174 | Bookmarking the same entry twice leaves the list as bookmarking it once. |
| Records.NewestOfSuffix | app.py:176-178 | Helper for eviction: the newest entries of a list are the newest of any suffix long enough. |
| Records.NoDupUrlsSuffix | app.py:174 | A suffix of a list with distinct urls has distinct urls. |
| Records.AddBookmarkNewest | app.py:176-181 | For a new url, bookmarking keeps the five newest of the old list plus the new entry. |
| Records.AddFirstIsSuffix | app.py:176-181 | After bookmarking the first of several new entries, the list followed by the rest is a suffix of everything bookmarked. |
| Records.FirstIsNew | app.py:174 | In a run of distinct urls, the first is not among the earlier bookmarks. |
| Records.AddAllKeepsNewest | app.py:167-181 | Eviction is first-in first-out: after bookmarking distinct new urls, the list is the five most recent of everything bookmarked. |
| Records.UrlsOfPrefix | app.py:143 | The urls of a history are still present once entries are appended. |
| Records.UrlInPrefix | app.py:143 | A url in a history is still present once entries are appended. |
| Records.RecordViews | app.py:134-144 | Showing summaries only appends to the history, keeping the earlier entries. |
| Records.RecordViewsRecords | app.py:143-144 | Every shown summary's url is in the history afterwards. |
| Records.RecordViewsNoDup | app.py:143-144 | The history never holds a url twice. |
| Records.RecordViewsOne | app.py:143-144 | One shown summary appends its title and url exactly when its url is new to the history. |
| Records.RecordViewsConcat | app.py:134-144 | Showing two lists in turn records what showing them together records. |
| Records.NewUrlsStep | app.py:143-144 | Helper for counting: a seen url adds nothing, and a new one adds exactly itself. |
| Records.RecordViewsCount | app.py:143-145 | The history grows by exactly the number of distinct new urls. A url shown twice or already viewed adds nothing. |
| Records.RecordViewsSeen | app.py:143 | Showing only urls already in the history leaves it unchanged. |
| Records.RecordViewsIdempotent | app.py:143-144 | Showing the same summaries again records nothing more. |
| Records.Digits | app.py:150 | The decimal digits of a natural number: at least one, and each a digit character. |
| Records.DecimalString | app.py:150 | `str(page)` is non-empty. It starts with '-' exactly when the page is negative, and every later character is a digit. |
| Records.DigitsInjective | app.py:150 | Distinct naturals have distinct digit strings. |
| Records.DecimalStringInjective | app.py:150 | Distinct pages have distinct decimal strings. |
| Records.KeysDifferForZoneLengths | app.py:127 | Zones of different lengths never share a cache key. |
| Records.CacheKeyInjective | app.py:127-150 | Two (zone, page) pairs share a cache slot only if they are the same pair. |
| Records.LookupAfterStore | app.py:127-150 | After a page is stored, looking up that zone and page finds it, unless it is empty. Looking up any other zone and page finds what it found before. |
| Records.NextPage | app.py:154 | The next page is after the current one. |
| Records.PrevPage | app.py:155 | The previous page is never below 1 and at most one page back. It equals the page exactly on page 1. |
| Records.PrevUndoesNext | app.py:154-155 | From any page from 1 on, "next" then "previous" comes back. |
| Handlers.ProducedFromArticles | app.py:134-141 | Every shown summary has non-empty text and carries the title and url of a fetched article. |
| Handlers.PipelineSkipsNonAscii | app.py:45-57 | With the application's summariser, articles whose content holds no ASCII character are never shown. |
| Handlers.ProducedConcat | app.py:134-141 | Summarising two article lists in turn shows the concatenation of their summaries. |
| Handlers.ProducedStep | app.py:134-141 | One more article adds its summary after the earlier ones exactly when the summary is truthy. |
| Handlers.ShowableMember | app.py:143-145 | When `summarize` does not raise, each shown summary can be recorded: the history exists, and either the counters exist or the url was seen. |
| Handlers.NewBookmarkConsistent | app.py:174-182 | Adding and counting a new bookmark keeps the session consistent: at most five bookmarks, distinct urls, no more bookmarks kept than added. |
| Handlers.ZeroCountersConsistent | app.py:106 | Recreating missing counters at zero keeps the session consistent. |
| Handlers.TrackedStep | app.py:143-145 | Recording one more summary extends the recorded history and the counted views. |
| Handlers.TrackedConsistent | app.py:143-145 | Recording shown summaries keeps the history free of repeats and no more views counted than history entries. |
| Handlers.Session.constructor | app.py:104-106 | A new session holds no key. |
| Handlers.Session.Home | app.py:103-107 | `setdefault` of the three keys: missing ones get their initial value and present ones are kept. A second visit changes nothing. Consistency is preserved. |
| Handlers.Session.Bookmark | app.py:160-188 | With a truthy title and url, the bookmark list becomes `AddBookmark` of the old one (created if absent), and a new url increments `bookmarks_added`. Otherwise nothing changes. Always answers an empty body with 204. |
| Handlers.Session.BookmarkRecreatingAnalytics | app.py:160-188 | The corrected `bookmark`: the same, but missing counters are recreated at zero before counting. It has no precondition. |
| Handlers.Session.AnalyticsDashboard | app.py:191-195 | Shows the stored counters and bookmarks, or zeros and an empty list when absent. Stores nothing. |
| Handlers.Session.ClearBookmarks | app.py:198-202 | Removes bookmarks and analytics, keeps everything else, and redirects to the analytics page. |
| Handlers.Session.ClearSession | app.py:205-207 | Removes every key and redirects home. |
| Handlers.Session.Summarize | app.py:111-156 | Covers the whole handler: <br>• A falsy zone or language renders the error and changes nothing. <br>• Otherwise the cache is emptied on a zone change and the zone is stored. <br>• A cache hit answers the cached list and leaves history and analytics alone. <br>• A miss answers `Fresh` (fetch, then summarise), stores it under `{zone}_page_{page}`, appends each new url once and counts it. <br>• The next and previous pages follow `NextPage`/`PrevPage`. <br>• Consistency is preserved. |
| Handlers.Session.RecordView | app.py:143-145 | One shown summary: its url is appended and counted when new to the history; otherwise nothing changes. |
| Handlers.Session.ShowArticles | app.py:133-145 | The loop answers exactly `Produced` (the truthy summaries, in article order), and the history and counters end as `Tracked` says. |
| Handlers.Session.InitializedNeverRaises | app.py:103-106 | Once `home` has run, `summarize` never raises. |
| Handlers.CachedPageIsReused | app.py:119-150 | Asking twice for the same zone and page gives the same page. When the first was computed, the views are recorded and counted once. When it came from the cache, nothing is recorded. |
| Handlers.ZoneSwitchRefetches | app.py:119-131 | After switching to another zone and back, the page is not reused from the session's cache. It is fetched again from the same news source and summarised with the current summariser. |
| Handlers.ClearThenBookmarkRaises | app.py:198-200 | After `clear_bookmarks`, bookmarking any truthy title and url raises the `KeyError` at line 182. |
| Handlers.ClearThenSummarizeRaises | app.py:198-200 | After `clear_bookmarks`, a `summarize` that misses the cache and shows a url new to the history raises the `KeyError` at line 145. |

## Left out

- Flask routing, template rendering, `session.modified` and logging: the handlers return the values they would render.
- Parsing of request parameters: `int(...)` on the page argument (which can raise), the form/query fallback, and `request.json` being `None`. Handler inputs arrive already parsed, as `Option<string>` and `int`.
- JSON values of the news source that are not strings (for example a `null` title): a present key is assumed to hold a string.
- The regular expressions themselves: every deleting pass is an arbitrary `Matcher`. Properties proved about the cleaner hold for any match positions; the exact match positions of each pattern are not modelled.
- Language detection, translation and the summarisation model: one opaque function of the cleaned text and target language. Exceptions of the translator (lines 60-63, outside the `try`) would leave `summarize` and are not modelled. Model failures (lines 69-71) are the `None` result.
- The HTTP request and `response.json()`: the news source is a function from keyword and page to a reply, with `Raised` standing for any exception caught at line 97.
- `lru_cache` on the fetcher (line 74): the program answers a repeated (keywords, page) fetch from a process-wide memo of 128 entries. The model passes the news source with each request, so two requests may use different news sources. Results about several requests hold of the program only when they use the same news source, which `Handlers.ZoneSwitchRefetches` requires. Eviction from the memo is not modelled.
- `Handlers.Session.Summarize`: the `KeyError`s at lines 143 and 145 (missing history, or missing analytics for a new url) are a precondition (`!SummarizeRaises`), so the partial updates made before the exception are not modelled.
- `Handlers.Session.Bookmark`: the `KeyError` at line 182 is a precondition (`!BookmarkRaises`). Before it raises, the program has already created the list (line 171) and appended the entry (line 181), and Flask still saves the session when it answers the resulting server error. The session is then left with bookmarks but no analytics, a state outside `Consistent`. Those partial updates are not modelled.
- A corrected `summarize` that recreates missing counters is not modelled. `Handlers.ClearThenSummarizeRaises` shows only the behaviour as written.
- Session expiry and concurrent requests of one user: each handler runs to completion on the session it is given.
- The front-end script and templates are not part of this model.

## Findings

| source | as written | input that shows it | evidently intended | confidence | as-written member | corrected member |
|---|---|---|---|---|---|---|
| app.py:198-200, app.py:182 | `clear_bookmarks` also pops `analytics`. The next `bookmark` of a new url then does `session['analytics']['bookmarks_added'] += 1` on a missing key. | `GET /clear_bookmarks`, then `POST /bookmark` with `{"title": "t", "url": "u"}`: `KeyError`, answered as a server error. The bookmark is already stored, but not counted. The same cleared session makes `summarize` raise at line 145 for any uncached page showing a url new to the history. | Bookmarking works after clearing bookmarks, with the counters recreated as `home` does. | not executed | Handlers.Session.Bookmark, Handlers.ClearThenBookmarkRaises, Handlers.ClearThenSummarizeRaises | Handlers.Session.BookmarkRecreatingAnalytics |
