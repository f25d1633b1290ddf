/**
 * The request handlers of app.py and the per-user session they update.
 *
 * The Flask session is a dictionary whose keys may be absent; here it is a
 * Session object with one Option-typed field per key (None: key absent).
 * Handler inputs arrive already parsed; the news source and the language
 * services are the parameters gathered in Services.
 */
module Handlers {
  import opened Wrappers
  import opened Articles
  import opened Cleaning
  import opened Records

  /** `summarize_article(article, language)` */
  type Summarizer = (Article, string) -> Option<string>

  /** The collaborators a summarize request reaches: the news source and the summariser. */
  datatype Services = Services(upstream: Upstream, summarize: Summarizer)

  /** The summariser of app.py: the cleaning passes, then the language services. */
  function Pipeline(p: Patterns, q: Scrubbers, model: SummaryModel): Summarizer
  {
    (a: Article, language: string) => SummarizeArticle(a, language, p, q, model)
  }

  /** The summaries of the articles whose summary is truthy, in order. */
  function Produced(articles: seq<Article>, language: string, svc: Services): seq<Summary>
  {
    if articles == [] then []
    else
      var a := articles[0];
      var summary := svc.summarize(a, language);
      (if summary.Some? && summary.value != "" then [Summary(a.title, summary.value, a.url)] else [])
      + Produced(articles[1..], language, svc)
  }

  /** Each shown summary is non-empty and carries the title and url of one of the fetched articles. */
  lemma {:induction false} ProducedFromArticles(articles: seq<Article>, language: string, svc: Services, s: Summary)
    requires s in Produced(articles, language, svc)
    ensures s.summary != ""
    ensures exists k :: 0 <= k < |articles| && articles[k].title == s.title && articles[k].url == s.url
  {
    var a := articles[0];
    var summary := svc.summarize(a, language);
    if !(summary.Some? && summary.value != "" && s == Summary(a.title, summary.value, a.url)) {
      ProducedFromArticles(articles[1..], language, svc, s);
      var k :| 0 <= k < |articles[1..]| && articles[1..][k].title == s.title && articles[1..][k].url == s.url;
      assert articles[k + 1] == articles[1..][k];
    }
  }

  /** With the application's summariser, articles whose content holds no ASCII character are never shown. */
  lemma {:induction false} PipelineSkipsNonAscii(articles: seq<Article>, language: string, upstream: Upstream,
                                                 p: Patterns, q: Scrubbers, model: SummaryModel)
    requires forall k :: 0 <= k < |articles| ==> forall c :: c in articles[k].content ==> !IsAscii(c)
    ensures Produced(articles, language, Services(upstream, Pipeline(p, q, model))) == []
  {
    if articles != [] {
      NonAsciiArticleNotSummarized(articles[0], language, p, q, model);
      assert forall k :: 0 <= k < |articles[1..]| ==> articles[1..][k] == articles[k + 1];
      PipelineSkipsNonAscii(articles[1..], language, upstream, p, q, model);
    }
  }

  /** Produced distributes over concatenation of the article list. */
  lemma {:induction false} ProducedConcat(xs: seq<Article>, ys: seq<Article>, language: string, svc: Services)
    ensures Produced(xs + ys, language, svc) == Produced(xs, language, svc) + Produced(ys, language, svc)
  {
    if xs == [] {
      assert xs + ys == ys;
    } else {
      assert (xs + ys)[1..] == xs[1..] + ys;
      ProducedConcat(xs[1..], ys, language, svc);
    }
  }

  /** The loop's step: the article at `i` contributes its truthy summary after the earlier ones'. */
  lemma ProducedStep(articles: seq<Article>, i: nat, language: string, svc: Services)
    requires i < |articles|
    ensures var a := articles[i];
      var summary := svc.summarize(a, language);
      Produced(articles[..i + 1], language, svc) ==
        Produced(articles[..i], language, svc)
        + (if summary.Some? && summary.value != "" then [Summary(a.title, summary.value, a.url)] else [])
    ensures Produced(articles, language, svc)
      == Produced(articles[..i + 1], language, svc) + Produced(articles[i + 1..], language, svc)
  {
    assert articles[..i + 1] == articles[..i] + [articles[i]];
    ProducedConcat(articles[..i], [articles[i]], language, svc);
    assert articles == articles[..i + 1] + articles[i + 1..];
    ProducedConcat(articles[..i + 1], articles[i + 1..], language, svc);
  }

  /** What a cache miss computes for a zone and page: fetch, then summarise. */
  function Fresh(zone: string, language: string, page: int, svc: Services): seq<Summary>
  {
    Produced(Gathered(Keywords(zone), page, svc.upstream), language, svc)
  }

  /**
   * `summarize` can record `shown` without a KeyError: nothing is shown, or the history
   * exists and either the analytics exist or no shown url is new to the history.
   */
  predicate Showable(history: Option<seq<Entry>>, analytics: Option<Analytics>, shown: seq<Summary>)
  {
    shown == [] || (history.Some? && (analytics.Some? || RecordViews(history.value, shown) == history.value))
  }

  /** Any summary of a recordable list can be recorded on its own. */
  lemma ShowableMember(history: Option<seq<Entry>>, analytics: Option<Analytics>, shown: seq<Summary>, k: nat)
    requires Showable(history, analytics, shown) && k < |shown|
    ensures history.Some? && (analytics.Some? || shown[k].url in Urls(history.value))
  {
    if analytics.None? {
      RecordViewsRecords(history.value, shown, shown[k]);
    }
  }

  /**
   * What the handlers keep true of a session's keys: at most five bookmarks, no
   * url twice in the bookmarks or in the history, no more summaries counted as
   * viewed than the history holds, and no more bookmarks kept than added.
   */
  predicate Consistent(bookmarks: Option<seq<Entry>>, history: Option<seq<Entry>>, analytics: Option<Analytics>)
  {
    && (bookmarks.Some? ==> |bookmarks.value| <= MaxBookmarks && NoDupUrls(bookmarks.value))
    && (history.Some? ==> NoDupUrls(history.value))
    && (analytics.Some? ==> analytics.value.summariesViewed <= (if history.Some? then |history.value| else 0))
    && (bookmarks.Some? && bookmarks.value != [] ==>
          analytics.Some? && |bookmarks.value| <= analytics.value.bookmarksAdded)
  }

  /** Adding a new bookmark and counting it keeps the session consistent. */
  lemma NewBookmarkConsistent(bookmarks: Option<seq<Entry>>, history: Option<seq<Entry>>, counters: Analytics, e: Entry)
    requires var marks := if bookmarks.Some? then bookmarks.value else []; e.url !in Urls(marks)
    ensures Consistent(bookmarks, history, Some(counters)) ==>
      Consistent(Some(AddBookmark(if bookmarks.Some? then bookmarks.value else [], e)), history,
                 Some(counters.(bookmarksAdded := counters.bookmarksAdded + 1)))
  {
    AddBookmarkKeepsBound(if bookmarks.Some? then bookmarks.value else [], e);
  }

  /** Recreating missing counters at zero, as `home` does, keeps the session consistent. */
  lemma ZeroCountersConsistent(bookmarks: Option<seq<Entry>>, history: Option<seq<Entry>>, analytics: Option<Analytics>)
    ensures Consistent(bookmarks, history, analytics) ==>
      Consistent(bookmarks, history, Some(if analytics.Some? then analytics.value else Analytics(0, 0)))
  {
  }

  /** The counters once the history grew from `before` to `after`: each new entry is one more summary viewed. */
  function Counted(analytics: Option<Analytics>, before: seq<Entry>, after: seq<Entry>): Option<Analytics>
    requires |before| <= |after|
  {
    if analytics.Some? then
      Some(analytics.value.(summariesViewed := analytics.value.summariesViewed + |after| - |before|))
    else None
  }

  /**
   * The history and analytics after `shown` were displayed, starting from `h0` and `a0`:
   * every new url is appended to the history and counted as viewed; neither key is created.
   */
  predicate Tracked(h0: Option<seq<Entry>>, a0: Option<Analytics>, shown: seq<Summary>,
                    history: Option<seq<Entry>>, analytics: Option<Analytics>)
  {
    if h0.None? then history == None && analytics == a0
    else history == Some(RecordViews(h0.value, shown)) && analytics == Counted(a0, h0.value, history.value)
  }

  /** Recording one more summary extends what was tracked so far. */
  lemma TrackedStep(h0: Option<seq<Entry>>, a0: Option<Analytics>, shown: seq<Summary>, s: Summary,
                    history: Option<seq<Entry>>, analytics: Option<Analytics>)
    requires Tracked(h0, a0, shown, history, analytics) && h0.Some?
    requires a0.Some? || s.url in Urls(h0.value)
    ensures history.Some? && (analytics.Some? || s.url in Urls(history.value))
    ensures var after := RecordViews(history.value, [s]);
      Tracked(h0, a0, shown + [s], Some(after), Counted(analytics, history.value, after))
  {
    RecordViewsConcat(h0.value, shown, [s]);
    if a0.None? {
      UrlInPrefix(h0.value, history.value, s.url);
    }
  }

  /** Recording shown summaries keeps the session consistent. */
  lemma TrackedConsistent(bookmarks: Option<seq<Entry>>, h0: Option<seq<Entry>>, a0: Option<Analytics>,
                          shown: seq<Summary>, history: Option<seq<Entry>>, analytics: Option<Analytics>)
    requires Tracked(h0, a0, shown, history, analytics)
    ensures Consistent(bookmarks, h0, a0) ==> Consistent(bookmarks, history, analytics)
  {
    if h0.Some? && NoDupUrls(h0.value) {
      RecordViewsNoDup(h0.value, shown);
    }
  }

  const MissingInput := "Please select both a zone and a language."

  /** What `summarize` renders. */
  datatype SummariesPage =
    | InputError(error: string)
    | Results(summaries: seq<Summary>, zone: string, language: string, nextPage: int, prevPage: int)

  /** Where the clearing handlers redirect. */
  datatype Redirect = ToHome | ToAnalytics

  class Session {
    var bookmarks: Option<seq<Entry>>
    var history: Option<seq<Entry>>
    var analytics: Option<Analytics>
    var summaries: Option<map<string, seq<Summary>>>
    var currentZone: Option<string>

    /** The session's keys satisfy `Consistent`. */
    ghost predicate Valid()
      reads this
    {
      Consistent(bookmarks, history, analytics)
    }

    /** The three keys `home` puts in place. */
    ghost predicate Initialized()
      reads this
    {
      bookmarks.Some? && history.Some? && analytics.Some?
    }

    /** A new browser session holds no key. */
    constructor ()
      ensures bookmarks == None && history == None && analytics == None
      ensures summaries == None && currentZone == None
      ensures Valid()
    {
      bookmarks, history, analytics := None, None, None;
      summaries, currentZone := None, None;
    }

    /** `home`: `setdefault` of bookmarks, history and analytics; a second visit changes nothing. */
    method Home()
      modifies this
      ensures bookmarks == (if old(bookmarks).Some? then old(bookmarks) else Some([]))
      ensures history == (if old(history).Some? then old(history) else Some([]))
      ensures analytics == (if old(analytics).Some? then old(analytics) else Some(Analytics(0, 0)))
      ensures summaries == old(summaries) && currentZone == old(currentZone)
      ensures Initialized()
      ensures old(Initialized()) ==> unchanged(this)
      ensures old(Valid()) ==> Valid()
    {
      if bookmarks.None? { bookmarks := Some([]); }
      if history.None? { history := Some([]); }
      if analytics.None? { analytics := Some(Analytics(0, 0)); }
    }

    /** `bookmark` reaches `session['analytics']` (a KeyError when absent) only for a url it appends. */
    predicate BookmarkRaises(title: Option<string>, url: Option<string>)
      reads this
    {
      && Truthy(title) && Truthy(url)
      && analytics.None?
      && !(bookmarks.Some? && url.value in Urls(bookmarks.value))
    }

    /**
     * `bookmark`: with a present title and url, adds the bookmark to the
     * bounded list and counts it when it was new; always answers 204 with an
     * empty body.
     */
    method Bookmark(title: Option<string>, url: Option<string>) returns (body: string, status: int)
      requires !BookmarkRaises(title, url)
      modifies this
      ensures body == "" && status == 204
      ensures history == old(history) && summaries == old(summaries) && currentZone == old(currentZone)
      ensures !(Truthy(title) && Truthy(url)) ==> bookmarks == old(bookmarks) && analytics == old(analytics)
      ensures Truthy(title) && Truthy(url) ==>
        var marks := if old(bookmarks).Some? then old(bookmarks).value else [];
        && bookmarks == Some(AddBookmark(marks, Entry(title.value, url.value)))
        && (url.value in Urls(marks) ==> analytics == old(analytics))
        && (url.value !in Urls(marks) ==>
              analytics == Some(old(analytics).value.(bookmarksAdded := old(analytics).value.bookmarksAdded + 1)))
      ensures old(Valid()) ==> Valid()
    {
      if Truthy(title) && Truthy(url) {
        ghost var before := bookmarks;
        if bookmarks.None? {
          bookmarks := Some([]);
        }
        var marks := bookmarks.value;
        ghost var bookmarksBefore := marks;
        if url.value !in Urls(marks) {
          NewBookmarkConsistent(before, history, analytics.value, Entry(title.value, url.value));
          if |marks| >= MaxBookmarks {
            marks := marks[1..];
          }
          bookmarks := Some(marks + [Entry(title.value, url.value)]);
          analytics := Some(analytics.value.(bookmarksAdded := analytics.value.bookmarksAdded + 1));
          assert bookmarks.value == AddBookmark(bookmarksBefore, Entry(title.value, url.value));
        }
      }
      body, status := "", 204;
    }

    /**
     * `bookmark` as evidently intended: the counters are recreated, as `home`
     * would, before a new bookmark is counted, so no session state makes it fail.
     */
    method BookmarkRecreatingAnalytics(title: Option<string>, url: Option<string>) returns (body: string, status: int)
      modifies this
      ensures body == "" && status == 204
      ensures history == old(history) && summaries == old(summaries) && currentZone == old(currentZone)
      ensures !(Truthy(title) && Truthy(url)) ==> bookmarks == old(bookmarks) && analytics == old(analytics)
      ensures Truthy(title) && Truthy(url) ==>
        var marks := if old(bookmarks).Some? then old(bookmarks).value else [];
        var counters := if old(analytics).Some? then old(analytics).value else Analytics(0, 0);
        && bookmarks == Some(AddBookmark(marks, Entry(title.value, url.value)))
        && (url.value in Urls(marks) ==> analytics == old(analytics))
        && (url.value !in Urls(marks) ==>
              analytics == Some(counters.(bookmarksAdded := counters.bookmarksAdded + 1)))
      ensures old(Valid()) ==> Valid()
    {
      if Truthy(title) && Truthy(url) {
        ghost var before := bookmarks;
        if bookmarks.None? {
          bookmarks := Some([]);
        }
        var marks := bookmarks.value;
        ghost var bookmarksBefore := marks;
        if url.value !in Urls(marks) {
          ZeroCountersConsistent(before, history, analytics);
          NewBookmarkConsistent(before, history, if analytics.Some? then analytics.value else Analytics(0, 0),
                                Entry(title.value, url.value));
          if |marks| >= MaxBookmarks {
            marks := marks[1..];
          }
          bookmarks := Some(marks + [Entry(title.value, url.value)]);
          var counters := if analytics.Some? then analytics.value else Analytics(0, 0);
          analytics := Some(counters.(bookmarksAdded := counters.bookmarksAdded + 1));
          assert bookmarks.value == AddBookmark(bookmarksBefore, Entry(title.value, url.value));
        }
      }
      body, status := "", 204;
    }

    /** `analytics_dashboard`: shows the counters and bookmarks, or zeros and no bookmarks, storing nothing. */
    method AnalyticsDashboard() returns (counters: Analytics, marks: seq<Entry>)
      ensures analytics.Some? ==> counters == analytics.value
      ensures analytics.None? ==> counters == Analytics(0, 0)
      ensures bookmarks.Some? ==> marks == bookmarks.value
      ensures bookmarks.None? ==> marks == []
    {
      counters := if analytics.Some? then analytics.value else Analytics(0, 0);
      marks := if bookmarks.Some? then bookmarks.value else [];
    }

    /** `clear_bookmarks`: removes the bookmarks and analytics keys and nothing else. */
    method ClearBookmarks() returns (target: Redirect)
      modifies this
      ensures bookmarks == None && analytics == None
      ensures history == old(history) && summaries == old(summaries) && currentZone == old(currentZone)
      ensures target == ToAnalytics
      ensures old(Valid()) ==> Valid()
    {
      bookmarks, analytics := None, None;
      target := ToAnalytics;
    }

    /** `clear_session`: removes every key. */
    method ClearSession() returns (target: Redirect)
      modifies this
      ensures bookmarks == None && history == None && analytics == None
      ensures summaries == None && currentZone == None
      ensures target == ToHome
      ensures Valid()
    {
      bookmarks, history, analytics := None, None, None;
      summaries, currentZone := None, None;
      target := ToHome;
    }

    /** The summary cache once `summarize` has seen the zone: emptied when the zone changed. */
    function CacheForZone(zone: string): (cache: Option<map<string, seq<Summary>>>)
      reads this
    {
      if summaries.Some? && currentZone != Some(zone) then Some(map[]) else summaries
    }

    /**
     * `summarize` reaches `session['history']` for every summary it shows and
     * `session['analytics']` for every new url; it raises when the key is absent.
     */
    predicate SummarizeRaises(zone: Option<string>, language: Option<string>, page: int, svc: Services)
      reads this
    {
      Truthy(zone) && Truthy(language) &&
      Lookup(CacheForZone(zone.value), CacheKey(zone.value, page)).None? &&
      !Showable(history, analytics, Fresh(zone.value, language.value, page, svc))
    }

    /**
     * `summarize`: validates the input, empties the cache on a zone change,
     * answers from the cache when it holds a non-empty list for the zone and
     * page, and otherwise fetches and summarises, records the new urls in the
     * history, counts them, and caches the result.
     */
    method Summarize(zone: Option<string>, language: Option<string>, page: int, svc: Services)
      returns (view: SummariesPage)
      requires !SummarizeRaises(zone, language, page, svc)
      modifies this
      ensures !(Truthy(zone) && Truthy(language)) ==> view == InputError(MissingInput) && unchanged(this)
      ensures Truthy(zone) && Truthy(language) ==>
        var z, lang := zone.value, language.value;
        var cache := old(CacheForZone(z));
        var key := CacheKey(z, page);
        && currentZone == Some(z)
        && bookmarks == old(bookmarks)
        && view.Results? && view.zone == z && view.language == lang
        && view.nextPage == NextPage(page) && view.prevPage == PrevPage(page)
        && (Lookup(cache, key).Some? ==>
              && view.summaries == Lookup(cache, key).value
              && summaries == old(summaries)
              && history == old(history) && analytics == old(analytics))
        && (Lookup(cache, key).None? ==>
              var computed := Fresh(z, lang, page, svc);
              && view.summaries == computed
              && summaries == Some((if cache.Some? then cache.value else map[])[key := computed])
              && Tracked(old(history), old(analytics), computed, history, analytics))
      ensures old(Valid()) ==> Valid()
    {
      if !(Truthy(zone) && Truthy(language)) {
        view := InputError(MissingInput);
        return;
      }
      var z, lang := zone.value, language.value;
      ghost var cache := CacheForZone(z);
      if summaries.Some? && currentZone != Some(z) {
        summaries := Some(map[]);
      }
      assert summaries == cache;
      currentZone := Some(z);
      var key := CacheKey(z, page);
      var out: seq<Summary>;
      if summaries.Some? && key in summaries.value && summaries.value[key] != [] {
        out := summaries.value[key];
      } else {
        ghost var h0, a0 := history, analytics;
        var articles := FetchArticles(Keywords(z), page, svc.upstream);
        out := ShowArticles(articles, lang, svc);
        TrackedConsistent(bookmarks, h0, a0, out, history, analytics);
        if summaries.None? {
          summaries := Some(map[]);
        }
        summaries := Some(summaries.value[key := out]);
      }
      view := Results(out, z, lang, NextPage(page), PrevPage(page));
    }

    /** The history bookkeeping of `summarize` for one shown summary: a new url is recorded and counted. */
    method RecordView(s: Summary)
      requires history.Some? && (analytics.Some? || s.url in Urls(history.value))
      modifies this
      ensures history == Some(RecordViews(old(history).value, [s]))
      ensures analytics == Counted(old(analytics), old(history).value, history.value)
      ensures bookmarks == old(bookmarks) && summaries == old(summaries) && currentZone == old(currentZone)
    {
      RecordViewsOne(history.value, s);
      if s.url !in Urls(history.value) {
        history := Some(history.value + [Entry(s.title, s.url)]);
        analytics := Some(analytics.value.(summariesViewed := analytics.value.summariesViewed + 1));
      }
    }

    /** The loop of `summarize` over the fetched articles: shows, records and counts. */
    method ShowArticles(articles: seq<Article>, lang: string, svc: Services) returns (out: seq<Summary>)
      requires Showable(history, analytics, Produced(articles, lang, svc))
      modifies this
      ensures out == Produced(articles, lang, svc)
      ensures Tracked(old(history), old(analytics), out, history, analytics)
      ensures bookmarks == old(bookmarks) && summaries == old(summaries) && currentZone == old(currentZone)
    {
      ghost var computed := Produced(articles, lang, svc);
      ghost var h0, a0 := history, analytics;
      out := [];
      var i := 0;
      while i < |articles|
        invariant 0 <= i <= |articles|
        invariant out == Produced(articles[..i], lang, svc)
        invariant Tracked(h0, a0, out, history, analytics)
        invariant bookmarks == old(bookmarks) && summaries == old(summaries) && currentZone == old(currentZone)
      {
        var a := articles[i];
        var summary := svc.summarize(a, lang);
        ProducedStep(articles, i, lang, svc);
        if summary.Some? && summary.value != "" {
          var s := Summary(a.title, summary.value, a.url);
          assert computed[|out|] == s;
          ShowableMember(h0, a0, computed, |out|);
          TrackedStep(h0, a0, out, s, history, analytics);
          RecordView(s);
          out := out + [s];
        }
        i := i + 1;
      }
      assert articles[..|articles|] == articles;
    }

    /** Once `home` has run, `summarize` never raises. */
    lemma InitializedNeverRaises(zone: Option<string>, language: Option<string>, page: int, svc: Services)
      requires Initialized()
      ensures !SummarizeRaises(zone, language, page, svc)
    {
    }
  }

  /**
   * Asking twice for the same zone and page with the same services shows the same
   * summaries, and the history and analytics record them once: when the first
   * answer was computed, the second is served from the cache (or, for an empty
   * answer, computed again to the same list).
   */
  method CachedPageIsReused(s: Session, zone: string, language: string, page: int, svc: Services)
    returns (first: SummariesPage, second: SummariesPage)
    requires zone != "" && language != "" && s.Initialized()
    modifies s
    ensures first.Results? && second == first
    ensures old(Lookup(s.CacheForZone(zone), CacheKey(zone, page))).None? ==>
      && first.summaries == Fresh(zone, language, page, svc)
      && Tracked(old(s.history), old(s.analytics), first.summaries, s.history, s.analytics)
    ensures old(Lookup(s.CacheForZone(zone), CacheKey(zone, page))).Some? ==>
      s.history == old(s.history) && s.analytics == old(s.analytics)
  {
    s.InitializedNeverRaises(Some(zone), Some(language), page, svc);
    first := s.Summarize(Some(zone), Some(language), page, svc);
    assert s.CacheForZone(zone) == s.summaries;
    ghost var h1, a1 := s.history, s.analytics;
    s.InitializedNeverRaises(Some(zone), Some(language), page, svc);
    second := s.Summarize(Some(zone), Some(language), page, svc);
    if first.summaries == [] {
      assert s.history == h1 && s.analytics == a1;
    }
  }

  /**
   * Switching to another zone empties the session's cache: coming back to the
   * first zone fetches and summarises again instead of reusing the first page.
   * The news source answers the same (keywords, page) request the same way
   * throughout, as the fetcher's process-wide memo makes it; only the
   * summariser may differ, and the page is summarised with the current one.
   */
  method ZoneSwitchRefetches(s: Session, zone: string, other: string, language: string, page: int,
                             before: Services, now: Services)
    returns (again: SummariesPage)
    requires zone != "" && other != "" && zone != other && language != "" && s.Initialized()
    requires before.upstream == now.upstream
    modifies s
    ensures again.Results? && again.summaries == Fresh(zone, language, page, now)
  {
    s.InitializedNeverRaises(Some(zone), Some(language), page, before);
    var first := s.Summarize(Some(zone), Some(language), page, before);
    s.InitializedNeverRaises(Some(other), Some(language), page, before);
    var second := s.Summarize(Some(other), Some(language), page, before);
    assert s.CacheForZone(zone) == Some(map[]);
    s.InitializedNeverRaises(Some(zone), Some(language), page, now);
    again := s.Summarize(Some(zone), Some(language), page, now);
  }

  /**
   * `clear_bookmarks` followed by `bookmark` of any title and url: the
   * analytics key is gone, so the new bookmark's count raises a KeyError.
   */
  method ClearThenBookmarkRaises(s: Session, title: string, url: string)
    requires title != "" && url != ""
    modifies s
    ensures s.BookmarkRaises(Some(title), Some(url))
  {
    var target := s.ClearBookmarks();
  }

  /**
   * `clear_bookmarks` followed by `summarize` of a page that is not cached and
   * shows a url new to the history: the analytics key is gone, so counting the
   * view raises a KeyError.
   */
  method ClearThenSummarizeRaises(s: Session, zone: string, language: string, page: int, svc: Services)
    requires zone != "" && language != "" && s.history.Some?
    requires Lookup(s.CacheForZone(zone), CacheKey(zone, page)).None?
    requires RecordViews(s.history.value, Fresh(zone, language, page, svc)) != s.history.value
    modifies s
    ensures s.SummarizeRaises(Some(zone), Some(language), page, svc)
  {
    var target := s.ClearBookmarks();
  }
}
