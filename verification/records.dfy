/**
 * The values the session of app.py keeps, and the pure bookkeeping on them:
 * the bounded bookmark list, the view history, the summary-cache key and the
 * pagination links.
 */
module Records {
  import opened Wrappers

  /** A bookmark or a history entry: `{'title': ..., 'url': ...}`. */
  datatype Entry = Entry(title: string, url: string)

  /** A summarised article as shown and cached: `{'title', 'summary', 'url'}`. */
  datatype Summary = Summary(title: string, summary: string, url: string)

  /** `session['analytics']`. */
  datatype Analytics = Analytics(summariesViewed: nat, bookmarksAdded: nat)

  /** `max_bookmarks` */
  const MaxBookmarks := 5

  /** `[item['url'] for item in entries]` */
  function Urls(entries: seq<Entry>): seq<string>
  {
    seq(|entries|, i requires 0 <= i < |entries| => entries[i].url)
  }

  /** No url occurs twice. */
  predicate NoDupUrls(entries: seq<Entry>)
  {
    forall i, j :: 0 <= i < j < |entries| ==> entries[i].url != entries[j].url
  }

  // Bookmarks

  /**
   * The bookmark list after `bookmark` with a present title and url: a url
   * already bookmarked changes nothing; otherwise the entry goes last, after
   * the oldest entry is dropped if the list already holds five or more.
   */
  function AddBookmark(marks: seq<Entry>, e: Entry): seq<Entry>
  {
    if e.url in Urls(marks) then marks
    else (if |marks| >= MaxBookmarks then marks[1..] else marks) + [e]
  }

  /**
   * A url already bookmarked leaves the list as it was; a new one goes last,
   * after the earlier entries minus the oldest when five or more were kept;
   * either way the url is bookmarked afterwards.
   */
  lemma AddBookmarkShape(marks: seq<Entry>, e: Entry)
    ensures var r := AddBookmark(marks, e);
      && (e.url in Urls(marks) ==> r == marks)
      && (e.url !in Urls(marks) ==>
            && |r| == (if |marks| >= MaxBookmarks then |marks| else |marks| + 1)
            && r[|r| - 1] == e
            && r[..|r| - 1] == marks[|marks| - (|r| - 1)..])
      && e.url in Urls(r)
  {
    var r := AddBookmark(marks, e);
    if e.url !in Urls(marks) {
      assert Urls(r)[|r| - 1] == e.url;
    }
  }

  /** Appending an entry whose url is new keeps the urls distinct. */
  lemma AppendNewUrl(entries: seq<Entry>, e: Entry)
    requires NoDupUrls(entries) && e.url !in Urls(entries)
    ensures NoDupUrls(entries + [e])
  {
    forall i | 0 <= i < |entries| ensures entries[i].url != e.url {
      assert Urls(entries)[i] == entries[i].url;
    }
  }

  /** Bookmarking keeps the list within five entries and free of repeated urls. */
  lemma AddBookmarkKeepsBound(marks: seq<Entry>, e: Entry)
    ensures |marks| <= MaxBookmarks ==> |AddBookmark(marks, e)| <= MaxBookmarks
    ensures NoDupUrls(marks) ==> NoDupUrls(AddBookmark(marks, e))
  {
    if e.url !in Urls(marks) && NoDupUrls(marks) {
      var kept := if |marks| >= MaxBookmarks then marks[1..] else marks;
      forall i, j | 0 <= i < j < |kept| + 1 ensures (kept + [e])[i].url != (kept + [e])[j].url {
        if j == |kept| {
          assert Urls(marks)[i + |marks| - |kept|] == kept[i].url;
        } else {
          assert kept[i] == marks[i + |marks| - |kept|] && kept[j] == marks[j + |marks| - |kept|];
        }
      }
    }
  }

  /** Bookmarking the same entry twice leaves what bookmarking it once leaves. */
  lemma AddBookmarkTwice(marks: seq<Entry>, e: Entry)
    ensures AddBookmark(AddBookmark(marks, e), e) == AddBookmark(marks, e)
  {
    AddBookmarkShape(marks, e);
  }

  /** Bookmarks added one after the other, in order. */
  function AddAll(marks: seq<Entry>, es: seq<Entry>): seq<Entry>
    decreases |es|
  {
    if es == [] then marks else AddAll(AddBookmark(marks, es[0]), es[1..])
  }

  /** The last (at most) n entries of a list. */
  function Newest(entries: seq<Entry>, n: nat): seq<Entry>
  {
    if |entries| <= n then entries else entries[|entries| - n..]
  }

  lemma NewestOfSuffix(x: seq<Entry>, k: nat, n: nat)
    requires k <= |x| && n <= |x| - k
    ensures Newest(x[k..], n) == Newest(x, n)
  {
    assert x[k..][|x| - k - n..] == x[|x| - n..];
  }

  lemma NoDupUrlsSuffix(x: seq<Entry>, k: nat)
    requires k <= |x| && NoDupUrls(x)
    ensures NoDupUrls(x[k..])
  {
    forall i, j | 0 <= i < j < |x| - k ensures x[k..][i].url != x[k..][j].url {
      assert x[k..][i] == x[k + i] && x[k..][j] == x[k + j];
    }
  }

  /** With a url not yet bookmarked and at most five entries, bookmarking keeps the five newest. */
  lemma AddBookmarkNewest(marks: seq<Entry>, e: Entry)
    requires |marks| <= MaxBookmarks && e.url !in Urls(marks)
    ensures AddBookmark(marks, e) == Newest(marks + [e], MaxBookmarks)
  {
    if |marks| == MaxBookmarks {
      assert marks[1..] + [e] == (marks + [e])[1..];
    }
  }

  /** Bookmarking the first of a run of new, distinct urls leaves a suffix of everything bookmarked. */
  lemma AddFirstIsSuffix(marks: seq<Entry>, es: seq<Entry>)
    requires |marks| <= MaxBookmarks && es != []
    requires NoDupUrls(marks + es)
    ensures var next := AddBookmark(marks, es[0]);
      && |next| == (if |marks| == MaxBookmarks then MaxBookmarks else |marks| + 1)
      && next + es[1..] == (marks + es)[|marks| + 1 - |next|..]
  {
    var all := marks + es;
    var e := es[0];
    FirstIsNew(marks, es);
    var next := AddBookmark(marks, e);
    AddBookmarkNewest(marks, e);
    var k := |marks| + 1 - |next|;
    assert next == (marks + [e])[k..];
    assert marks + [e] == all[..|marks| + 1];
  }

  lemma FirstIsNew(marks: seq<Entry>, es: seq<Entry>)
    requires es != [] && NoDupUrls(marks + es)
    ensures es[0].url !in Urls(marks)
  {
    var all := marks + es;
    forall i | 0 <= i < |marks| ensures Urls(marks)[i] != es[0].url {
      assert all[i] == marks[i] && all[|marks|] == es[0];
    }
  }

  /**
   * Eviction is first-in first-out: after bookmarking entries with new,
   * distinct urls, the list is the five most recent of everything bookmarked.
   */
  lemma {:induction false} AddAllKeepsNewest(marks: seq<Entry>, es: seq<Entry>)
    requires |marks| <= MaxBookmarks
    requires NoDupUrls(marks + es)
    ensures AddAll(marks, es) == Newest(marks + es, MaxBookmarks)
    decreases |es|
  {
    if es == [] {
      assert marks + es == marks;
    } else {
      var all := marks + es;
      var next := AddBookmark(marks, es[0]);
      AddFirstIsSuffix(marks, es);
      var k := |marks| + 1 - |next|;
      NoDupUrlsSuffix(all, k);
      AddAllKeepsNewest(next, es[1..]);
      if |all[k..]| < MaxBookmarks {
        assert k == 0;
      } else {
        NewestOfSuffix(all, k, MaxBookmarks);
      }
    }
  }

  // View history

  /** The urls of entries that start another list, are in that list. */
  lemma UrlsOfPrefix(a: seq<Entry>, b: seq<Entry>)
    requires |a| <= |b| && b[..|a|] == a
    ensures forall u :: u in Urls(a) ==> u in Urls(b)
  {
    forall u | u in Urls(a) ensures u in Urls(b) {
      var i :| 0 <= i < |a| && Urls(a)[i] == u;
      assert b[i] == a[i];
      assert Urls(b)[i] == u;
    }
  }

  /** A url of a list is a url of any list that list starts. */
  lemma UrlInPrefix(a: seq<Entry>, b: seq<Entry>, u: string)
    requires |a| <= |b| && b[..|a|] == a && u in Urls(a)
    ensures u in Urls(b)
  {
    UrlsOfPrefix(a, b);
  }

  /**
   * The history after summaries are shown, one by one: an entry is appended
   * for a summary whose url the history does not hold yet.
   */
  function RecordViews(history: seq<Entry>, shown: seq<Summary>): (r: seq<Entry>)
    ensures |history| <= |r| && r[..|history|] == history
    decreases |shown|
  {
    if shown == [] then history
    else
      var s := shown[0];
      var next := if s.url in Urls(history) then history else history + [Entry(s.title, s.url)];
      RecordViews(next, shown[1..])
  }

  /** Every shown summary's url is in the history afterwards. */
  lemma {:induction false} RecordViewsRecords(history: seq<Entry>, shown: seq<Summary>, s: Summary)
    requires s in shown
    ensures s.url in Urls(RecordViews(history, shown))
    decreases |shown|
  {
    var next := if shown[0].url in Urls(history) then history else history + [Entry(shown[0].title, shown[0].url)];
    var r := RecordViews(next, shown[1..]);
    if s == shown[0] {
      if s.url !in Urls(history) { assert Urls(next)[|history|] == s.url; }
      UrlsOfPrefix(next, r);
    } else {
      assert s in shown[1..];
      RecordViewsRecords(next, shown[1..], s);
    }
  }

  /** Recording views never puts a url in the history twice. */
  lemma {:induction false} RecordViewsNoDup(history: seq<Entry>, shown: seq<Summary>)
    requires NoDupUrls(history)
    ensures NoDupUrls(RecordViews(history, shown))
    decreases |shown|
  {
    if shown != [] {
      var s := shown[0];
      if s.url !in Urls(history) {
        AppendNewUrl(history, Entry(s.title, s.url));
      }
      var next := if s.url in Urls(history) then history else history + [Entry(s.title, s.url)];
      RecordViewsNoDup(next, shown[1..]);
    }
  }

  /** Showing one summary appends its entry exactly when its url is new to the history. */
  lemma RecordViewsOne(history: seq<Entry>, s: Summary)
    ensures RecordViews(history, [s])
      == if s.url in Urls(history) then history else history + [Entry(s.title, s.url)]
  {
    assert [s][1..] == [];
  }

  /** Showing two lists one after the other records what showing them together records. */
  lemma {:induction false} RecordViewsConcat(history: seq<Entry>, a: seq<Summary>, b: seq<Summary>)
    ensures RecordViews(history, a + b) == RecordViews(RecordViews(history, a), b)
    decreases |a|
  {
    if a == [] {
      assert a + b == b;
    } else {
      var s := a[0];
      var next := if s.url in Urls(history) then history else history + [Entry(s.title, s.url)];
      assert (a + b)[0] == s && (a + b)[1..] == a[1..] + b;
      RecordViewsConcat(next, a[1..], b);
    }
  }

  /** The urls of summaries that the history does not hold yet. */
  function NewUrls(history: seq<Entry>, shown: seq<Summary>): set<string>
  {
    set s | s in shown && s.url !in Urls(history) :: s.url
  }

  lemma NewUrlsStep(history: seq<Entry>, shown: seq<Summary>)
    requires shown != []
    ensures shown[0].url in Urls(history) ==> NewUrls(history, shown) == NewUrls(history, shown[1..])
    ensures shown[0].url !in Urls(history) ==>
      NewUrls(history, shown) == {shown[0].url} + NewUrls(history + [Entry(shown[0].title, shown[0].url)], shown[1..])
  {
    var s := shown[0];
    assert forall t :: t in shown <==> t == s || t in shown[1..];
    assert Urls(history + [Entry(s.title, s.url)]) == Urls(history) + [s.url];
  }

  /**
   * The history grows by exactly one entry per distinct new url: a url shown
   * twice, or already viewed, adds nothing.
   */
  lemma {:induction false} RecordViewsCount(history: seq<Entry>, shown: seq<Summary>)
    ensures |RecordViews(history, shown)| == |history| + |NewUrls(history, shown)|
    decreases |shown|
  {
    if shown == [] {
      assert NewUrls(history, shown) == {};
    } else {
      var s := shown[0];
      NewUrlsStep(history, shown);
      if s.url in Urls(history) {
        RecordViewsCount(history, shown[1..]);
      } else {
        var next := history + [Entry(s.title, s.url)];
        RecordViewsCount(next, shown[1..]);
        assert s.url !in NewUrls(next, shown[1..]) by {
          assert Urls(next)[|history|] == s.url;
        }
      }
    }
  }

  /** Showing summaries whose urls are all in the history leaves it unchanged. */
  lemma {:induction false} RecordViewsSeen(history: seq<Entry>, shown: seq<Summary>)
    requires forall s :: s in shown ==> s.url in Urls(history)
    ensures RecordViews(history, shown) == history
    decreases |shown|
  {
    if shown != [] {
      assert forall s :: s in shown[1..] ==> s in shown;
      RecordViewsSeen(history, shown[1..]);
    }
  }

  /** Showing the same summaries again records nothing more. */
  lemma RecordViewsIdempotent(history: seq<Entry>, shown: seq<Summary>)
    ensures RecordViews(RecordViews(history, shown), shown) == RecordViews(history, shown)
  {
    forall s | s in shown ensures s.url in Urls(RecordViews(history, shown)) {
      RecordViewsRecords(history, shown, s);
    }
    RecordViewsSeen(RecordViews(history, shown), shown);
  }

  // Summary cache key

  function DigitChar(d: int): (c: char)
    requires 0 <= d < 10
  {
    (48 + d) as char
  }

  /** The decimal digits of a natural number, most significant first, without leading zeros. */
  function Digits(n: nat): (s: string)
    ensures |s| >= 1
    ensures forall k :: 0 <= k < |s| ==> '0' <= s[k] <= '9'
  {
    if n < 10 then [DigitChar(n)] else Digits(n / 10) + [DigitChar(n % 10)]
  }

  /** `str(i)` for a Python int. */
  function DecimalString(i: int): (s: string)
    ensures forall c :: c in s ==> c == '-' || '0' <= c <= '9'
    ensures |s| >= 1 && (s[0] == '-' <==> i < 0)
    ensures forall k :: 1 <= k < |s| ==> '0' <= s[k] <= '9'
  {
    if i < 0 then "-" + Digits(-i) else Digits(i)
  }

  /** `f'{zone}_page_{page}'` */
  function CacheKey(zone: string, page: int): string
  {
    zone + "_page_" + DecimalString(page)
  }

  /** Distinct numbers have distinct digit strings. */
  lemma {:induction false} DigitsInjective(m: nat, n: nat)
    requires Digits(m) == Digits(n)
    ensures m == n
  {
    if m >= 10 && n >= 10 {
      var s := Digits(m);
      assert Digits(m / 10) == s[..|s| - 1] == Digits(n / 10);
      DigitsInjective(m / 10, n / 10);
      assert DigitChar(m % 10) == s[|s| - 1] == DigitChar(n % 10);
    } else if m < 10 && n < 10 {
      assert DigitChar(m) == DigitChar(n);
    }
  }

  /** Distinct page numbers have distinct decimal strings. */
  lemma DecimalStringInjective(i: int, j: int)
    requires DecimalString(i) == DecimalString(j)
    ensures i == j
  {
    var s := DecimalString(i);
    if i < 0 && j < 0 {
      assert Digits(-i) == s[1..] == Digits(-j);
      DigitsInjective(-i, -j);
    } else if i >= 0 && j >= 0 {
      DigitsInjective(i, j);
    } else {
      // one string starts with '-', the other with a digit
      assert false;
    }
  }

  /** The last underscore of the longer zone's key falls among the digits of the other key. */
  lemma KeysDifferForZoneLengths(zone1: string, page1: int, zone2: string, page2: int)
    requires |zone1| < |zone2|
    ensures CacheKey(zone1, page1) != CacheKey(zone2, page2)
  {
    var key1, key2 := CacheKey(zone1, page1), CacheKey(zone2, page2);
    var i := |zone2| + 5;
    assert key2[i] == '_';
    if i < |key1| {
      var d1 := DecimalString(page1);
      assert key1[i] == d1[i - |zone1| - 6];
      assert d1[i - |zone1| - 6] in d1;
    }
  }

  /** Two (zone, page) pairs share a cache slot only if they are the same pair. */
  lemma CacheKeyInjective(zone1: string, page1: int, zone2: string, page2: int)
    requires CacheKey(zone1, page1) == CacheKey(zone2, page2)
    ensures zone1 == zone2 && page1 == page2
  {
    var key := CacheKey(zone1, page1);
    var d1, d2 := DecimalString(page1), DecimalString(page2);
    if |zone1| < |zone2| {
      KeysDifferForZoneLengths(zone1, page1, zone2, page2);
      assert false;
    } else if |zone2| < |zone1| {
      KeysDifferForZoneLengths(zone2, page2, zone1, page1);
      assert false;
    } else {
      assert zone1 == key[..|zone1|] == zone2;
      assert d1 == key[|zone1| + 6..] == d2;
      DecimalStringInjective(page1, page2);
    }
  }

  /** The cached list for a key, when it is truthy: a stored empty list counts as absent. */
  function Lookup(cache: Option<map<string, seq<Summary>>>, key: string): Option<seq<Summary>>
  {
    if cache.Some? && key in cache.value && cache.value[key] != [] then Some(cache.value[key]) else None
  }

  /**
   * After `summarize` stores a page, asking for that zone and page finds it (unless it
   * is empty), and every other zone and page is looked up as before.
   */
  lemma LookupAfterStore(cache: map<string, seq<Summary>>, zone: string, page: int, stored: seq<Summary>,
                         zone2: string, page2: int)
    ensures Lookup(Some(cache[CacheKey(zone, page) := stored]), CacheKey(zone2, page2))
      == if zone2 == zone && page2 == page then (if stored == [] then None else Some(stored))
         else Lookup(Some(cache), CacheKey(zone2, page2))
  {
    if CacheKey(zone, page) == CacheKey(zone2, page2) {
      CacheKeyInjective(zone, page, zone2, page2);
    }
  }

  // Pagination

  /** `next_page` */
  function NextPage(page: int): (n: int)
    ensures n > page
  {
    page + 1
  }

  /** `prev_page`: one page back, never below page 1. */
  function PrevPage(page: int): (p: int)
    ensures p >= 1
    ensures p >= page - 1
    ensures page >= 1 ==> p <= page
    ensures p == page <==> page == 1
  {
    if page > 1 then page - 1 else 1
  }

  /** Following "next" and then "previous" returns to the page, for every valid page. */
  lemma PrevUndoesNext(page: int)
    requires page >= 1
    ensures PrevPage(NextPage(page)) == page
  {
  }
}
