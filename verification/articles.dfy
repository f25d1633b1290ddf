/**
 * The article fetcher of app.py: for every keyword of a zone, one request to
 * the news source; a reply whose status is "ok" contributes its articles whose
 * content is longer than 100 characters. A request that raises contributes
 * nothing. An entry that passes the length filter but lacks its title or url
 * ends that keyword's contribution (the exception is caught per keyword and the
 * loop goes on with the next one); an entry that fails the filter is skipped
 * whatever its other keys.
 */
module Articles {
  import opened Wrappers

  /** An article as the rest of the application sees it. */
  datatype Article = Article(title: string, content: string, url: string)

  /** An entry of the news source's "articles" list; None is a missing key. */
  datatype RawArticle = RawArticle(title: Option<string>, content: Option<string>, url: Option<string>)

  /** What one request yields: an exception (network or JSON decoding), or a decoded body. */
  datatype Reply =
    | Raised
    | Body(status: Option<string>, articles: seq<RawArticle>)  // a missing "articles" key is []

  /** The news source, queried with one keyword and a page number. */
  type Upstream = (string, int) -> Reply

  /** Content must be strictly longer than this to be kept. */
  const MinContentLength := 100

  /** The configured zones and their search keywords. */
  const Zones: map<string, seq<string>> := map[
    "tech" := ["technology"],
    "business" := ["business"],
    "entertainment" := ["entertainment"],
    "economy" := ["economy"],
    "health" := ["health", "medicine"],
    "science" := ["science"]
  ]

  /** `zones.get(zone, [])` */
  function Keywords(zone: string): seq<string>
  {
    if zone in Zones then Zones[zone] else []
  }

  /** The length filter of the fetcher: content present, non-empty and longer than 100. */
  predicate Meaningful(raw: RawArticle)
  {
    raw.content.Some? && |raw.content.value| > MinContentLength
  }

  /** Building the kept record reads `article['title']` and `article['url']`, which raise when absent. */
  predicate Malformed(raw: RawArticle)
  {
    raw.title.None? || raw.url.None?
  }

  /** The articles one "ok" reply contributes, in order; a malformed kept entry ends the list. */
  function Accepted(raws: seq<RawArticle>): seq<Article>
  {
    if raws == [] then []
    else if !Meaningful(raws[0]) then Accepted(raws[1..])
    else if Malformed(raws[0]) then []
    else [Article(raws[0].title.value, raws[0].content.value, raws[0].url.value)] + Accepted(raws[1..])
  }

  /** What one keyword contributes. */
  function FromReply(reply: Reply): seq<Article>
  {
    if reply.Body? && reply.status == Some("ok") then Accepted(reply.articles) else []
  }

  /** The articles fetched for a list of keywords: each keyword's contribution, concatenated in order. */
  function Gathered(keywords: seq<string>, page: int, upstream: Upstream): seq<Article>
  {
    if keywords == [] then []
    else FromReply(upstream(keywords[0], page)) + Gathered(keywords[1..], page, upstream)
  }

  /** Gathering two keyword lists one after the other gathers their concatenation. */
  lemma {:induction false} GatheredConcat(xs: seq<string>, ys: seq<string>, page: int, upstream: Upstream)
    ensures Gathered(xs + ys, page, upstream) == Gathered(xs, page, upstream) + Gathered(ys, page, upstream)
  {
    if xs == [] {
      assert xs + ys == ys;
    } else {
      assert (xs + ys)[1..] == xs[1..] + ys;
      GatheredConcat(xs[1..], ys, page, upstream);
    }
  }

  /** One more keyword of the fetcher's loop: its contribution follows the earlier keywords'. */
  lemma GatheredStep(keywords: seq<string>, i: nat, page: int, upstream: Upstream)
    requires i < |keywords|
    ensures Gathered(keywords[..i + 1], page, upstream)
      == Gathered(keywords[..i], page, upstream) + FromReply(upstream(keywords[i], page))
  {
    assert keywords[..i + 1] == keywords[..i] + [keywords[i]];
    GatheredConcat(keywords[..i], [keywords[i]], page, upstream);
  }

  /** `fetch_articles_from_newsapi`: the loop over keywords. */
  method FetchArticles(keywords: seq<string>, page: int, upstream: Upstream) returns (articles: seq<Article>)
    ensures articles == Gathered(keywords, page, upstream)
  {
    articles := [];
    var i := 0;
    while i < |keywords|
      invariant 0 <= i <= |keywords|
      invariant articles == Gathered(keywords[..i], page, upstream)
    {
      var reply := upstream(keywords[i], page);
      GatheredStep(keywords, i, page, upstream);
      if reply.Body? && reply.status == Some("ok") {
        articles := KeepArticles(articles, reply.articles);
      }
      i := i + 1;
    }
    assert keywords[..|keywords|] == keywords;
  }

  /** The inner loop of the fetcher: appends the kept entries of one "ok" reply to `found`. */
  method KeepArticles(found: seq<Article>, raws: seq<RawArticle>) returns (articles: seq<Article>)
    ensures articles == found + Accepted(raws)
  {
    articles := found;
    var j := 0;
    while j < |raws|
      invariant 0 <= j <= |raws|
      invariant articles + Accepted(raws[j..]) == found + Accepted(raws)
    {
      assert raws[j..][1..] == raws[j + 1..];
      var raw := raws[j];
      if Meaningful(raw) {
        if Malformed(raw) {
          // the KeyError leaves this keyword's try block
          assert Accepted(raws[j..]) == [];
          return;
        }
        articles := articles + [Article(raw.title.value, raw.content.value, raw.url.value)];
      }
      j := j + 1;
    }
  }

  /** Every fetched article is one the news source returned, with its title, content and url unchanged. */
  lemma {:induction false} AcceptedFromReply(raws: seq<RawArticle>, a: Article)
    requires a in Accepted(raws)
    ensures exists k :: 0 <= k < |raws| && raws[k] == RawArticle(Some(a.title), Some(a.content), Some(a.url))
  {
    if Meaningful(raws[0]) && !Malformed(raws[0]) && a == Accepted(raws)[0] {
      assert raws[0] == RawArticle(Some(a.title), Some(a.content), Some(a.url));
    } else {
      AcceptedFromReply(raws[1..], a);
      var k :| 0 <= k < |raws[1..]| && raws[1..][k] == RawArticle(Some(a.title), Some(a.content), Some(a.url));
      assert raws[k + 1] == raws[1..][k];
    }
  }

  /** An entry passing the length filter is kept when neither it nor any kept entry before it is malformed. */
  lemma {:induction false} AcceptedWellFormed(raws: seq<RawArticle>, k: nat)
    requires k < |raws| && Meaningful(raws[k]) && !Malformed(raws[k])
    requires forall m :: 0 <= m < k && Meaningful(raws[m]) ==> !Malformed(raws[m])
    ensures Article(raws[k].title.value, raws[k].content.value, raws[k].url.value) in Accepted(raws)
  {
    if k > 0 {
      assert raws[1..][k - 1] == raws[k];
      AcceptedWellFormed(raws[1..], k - 1);
    }
  }

  /** One reply contributes only articles whose content passes the length filter. */
  lemma {:induction false} AcceptedAreMeaningful(raws: seq<RawArticle>)
    ensures |Accepted(raws)| <= |raws|
    ensures forall a :: a in Accepted(raws) ==> |a.content| > MinContentLength
  {
    if raws != [] {
      AcceptedAreMeaningful(raws[1..]);
    }
  }

  /** Every fetched article, whatever the keywords and replies, has content longer than 100 characters. */
  lemma {:induction false} GatheredAreMeaningful(keywords: seq<string>, page: int, upstream: Upstream)
    ensures forall a :: a in Gathered(keywords, page, upstream) ==> |a.content| > MinContentLength
  {
    if keywords != [] {
      var reply := upstream(keywords[0], page);
      if reply.Body? {
        AcceptedAreMeaningful(reply.articles);
      }
      GatheredAreMeaningful(keywords[1..], page, upstream);
    }
  }

  /** Every fetched article comes from the "ok" reply to one of the keywords. */
  lemma {:induction false} GatheredFromKeyword(keywords: seq<string>, page: int, upstream: Upstream, a: Article)
    requires a in Gathered(keywords, page, upstream)
    ensures exists k :: 0 <= k < |keywords| && a in FromReply(upstream(keywords[k], page))
  {
    if a !in FromReply(upstream(keywords[0], page)) {
      GatheredFromKeyword(keywords[1..], page, upstream, a);
      var k :| 0 <= k < |keywords[1..]| && a in FromReply(upstream(keywords[1..][k], page));
      assert keywords[1..][k] == keywords[k + 1];
    }
  }
}
