/**
 * `clean_article_content` and `summarize_article` of app.py.
 *
 * The cleaner is a chain of `re.sub(pattern, replacement, text)` passes. Two
 * of them are modelled character by character: newline runs become one space,
 * and runs of non-ASCII characters are deleted. Every other pass replaces its
 * matches by the empty string, so whatever its pattern, it deletes the
 * characters its matches cover; such a pass is a Matcher, which tells for each
 * position of its input whether a match covers it.
 */
module Cleaning {
  import opened Wrappers
  import opened Articles

  /** For each position of a text, whether a match of the pass's pattern covers it. */
  type Matcher = string -> seq<bool>

  /** `re.sub(p, '', s)`: the characters not covered by a match, in order. */
  function Delete(s: string, covered: seq<bool>): (r: string)
    ensures |r| <= |s|
    ensures forall c :: c in r ==> c in s
  {
    if s == [] then []
    else
      var rest := Delete(s[1..], if covered == [] then [] else covered[1..]);
      if covered != [] && covered[0] then rest else [s[0]] + rest
  }

  /** Applies a deleting pass to a text. */
  function Apply(m: Matcher, s: string): (r: string)
    ensures |r| <= |s|
    ensures forall c :: c in r ==> c in s
  {
    Delete(s, m(s))
  }

  predicate IsNewline(c: char)
  {
    c == '\n' || c == '\r'
  }

  predicate IsAscii(c: char)
  {
    c as int < 0x80
  }

  /** The text after the leading run of newline characters. */
  function SkipNewlines(s: string): (r: string)
    ensures |r| <= |s|
    ensures r == [] || !IsNewline(r[0])
  {
    if s != [] && IsNewline(s[0]) then SkipNewlines(s[1..]) else s
  }

  /** What is left after the newline run is the end of the text. */
  lemma {:induction false} SkipNewlinesSuffix(s: string)
    ensures SkipNewlines(s) == s[|s| - |SkipNewlines(s)|..]
  {
    if s != [] && IsNewline(s[0]) {
      SkipNewlinesSuffix(s[1..]);
      assert s[1..][|s[1..]| - |SkipNewlines(s)|..] == s[|s| - |SkipNewlines(s)|..];
    }
  }

  /** `re.sub(r'[\n\r]+', ' ', s)`: every maximal run of '\n' and '\r' becomes one space. */
  function CollapseNewlines(s: string): (r: string)
    ensures |r| <= |s|
    decreases |s|
  {
    if s == [] then []
    else if IsNewline(s[0]) then " " + CollapseNewlines(SkipNewlines(s[1..]))
    else [s[0]] + CollapseNewlines(s[1..])
  }

  /** After the newline pass the text holds no newline, and every character but the spaces comes from the input. */
  lemma {:induction false} CollapseNewlinesSingleLine(s: string)
    ensures forall c :: c in CollapseNewlines(s) ==> !IsNewline(c)
    ensures forall c :: c in CollapseNewlines(s) && c != ' ' ==> c in s
    decreases |s|
  {
    if s != [] {
      if IsNewline(s[0]) {
        var rest := SkipNewlines(s[1..]);
        CollapseNewlinesSingleLine(rest);
        assert forall c :: c in rest ==> c in s by {
          SkipNewlinesSuffix(s[1..]);
          assert rest == s[|s| - |rest|..];
        }
      } else {
        CollapseNewlinesSingleLine(s[1..]);
      }
    }
  }

  /** `re.sub(r'[^\x00-\x7F]+', '', s)`: the ASCII characters of the text, in order. */
  function StripNonAscii(s: string): (r: string)
    ensures |r| <= |s|
    ensures forall c :: c in r <==> c in s && IsAscii(c)
  {
    if s == [] then []
    else (if IsAscii(s[0]) then [s[0]] else []) + StripNonAscii(s[1..])
  }

  /** The passes of the cleaner that delete what their pattern matches, in the order they run. */
  datatype Patterns = Patterns(
    cookieNotice: Matcher,      // 'If you click.*will also store and/or access information.*'
    htmlTag: Matcher,           // '<[^>]*>'
    charsMarker: Matcher,       // '\[\+.?Ch.?\]'
    removedMarker: Matcher,     // '\[Removed\]'
    charsCount: Matcher,        // '\[\+.?\d+ chars?\]'
    bareDomain: Matcher,        // 'www\.\S+'
    trailingEllipsis: Matcher   // the mis-decoded ellipsis at the end of the text
  )

  /** `clean_article_content`: the nine passes in their order. */
  function CleanArticleContent(content: string, p: Patterns): string
  {
    var s1 := Apply(p.cookieNotice, content);
    var s2 := CollapseNewlines(s1);
    var s3 := Apply(p.htmlTag, s2);
    var s4 := Apply(p.charsMarker, s3);
    var s5 := Apply(p.removedMarker, s4);
    var s6 := Apply(p.charsCount, s5);
    var s7 := Apply(p.bareDomain, s6);
    var s8 := Apply(p.trailingEllipsis, s7);
    StripNonAscii(s8)
  }

  /** The passes `summarize_article` adds after the cleaner, in their order. */
  datatype Scrubbers = Scrubbers(
    longNumber: Matcher,    // '\b\d{10,}\b'
    dashedNumber: Matcher,  // '\b\d{3}-\d{3}-\d{4}\b'
    link: Matcher,          // 'https?://\S+|www\.\S+'
    ukPhone: Matcher        // '\b08457 \d{2} \d{2} \d{2}\b'
  )

  /** The text `summarize_article` hands to the language services. */
  function PreparedText(content: string, p: Patterns, q: Scrubbers): string
  {
    var cleaned := CleanArticleContent(content, p);
    Apply(q.ukPhone, Apply(q.link, Apply(q.dashedNumber, Apply(q.longNumber, cleaned))))
  }

  /**
   * Language detection, translation into the target language and the
   * summarisation model, taken together: the summary text, or None when the
   * model failed.
   */
  type SummaryModel = (string, string) -> Option<string>

  /** `summarize_article`: None when nothing is left after cleaning, otherwise what the model gives. */
  function SummarizeArticle(article: Article, target: string, p: Patterns, q: Scrubbers, model: SummaryModel): Option<string>
  {
    var text := PreparedText(article.content, p, q);
    if text == [] then None else model(text, target)
  }

  /** The cleaned text is no longer than the content and holds only ASCII characters and no newline. */
  lemma CleanedIsAsciiSingleLine(content: string, p: Patterns)
    ensures |CleanArticleContent(content, p)| <= |content|
    ensures forall c :: c in CleanArticleContent(content, p) ==> IsAscii(c) && !IsNewline(c)
  {
    CollapseNewlinesSingleLine(Apply(p.cookieNotice, content));
  }

  /** So is the text handed to the language services. */
  lemma PreparedIsAsciiSingleLine(content: string, p: Patterns, q: Scrubbers)
    ensures |PreparedText(content, p, q)| <= |content|
    ensures forall c :: c in PreparedText(content, p, q) ==> IsAscii(c) && !IsNewline(c)
  {
    CleanedIsAsciiSingleLine(content, p);
  }

  /** The model is only asked about a non-empty text. */
  lemma SummaryNeedsText(article: Article, target: string, p: Patterns, q: Scrubbers, model: SummaryModel)
    ensures SummarizeArticle(article, target, p, q, model).Some? ==> PreparedText(article.content, p, q) != []
  {
  }

  // Properties of the character passes

  /** A text without newline characters passes the newline pass unchanged. */
  lemma {:induction false} CollapseNewlinesIdentity(s: string)
    requires forall c :: c in s ==> !IsNewline(c)
    ensures CollapseNewlines(s) == s
  {
    if s != [] {
      assert s[0] in s;
      assert forall c :: c in s[1..] ==> c in s;
      CollapseNewlinesIdentity(s[1..]);
    }
  }

  /** The newline pass is idempotent. */
  lemma CollapseNewlinesIdempotent(s: string)
    ensures CollapseNewlines(CollapseNewlines(s)) == CollapseNewlines(s)
  {
    CollapseNewlinesSingleLine(s);
    CollapseNewlinesIdentity(CollapseNewlines(s));
  }

  /** Skipping the leading newlines of `x + y`: `y` stays whole unless `x` is all newlines. */
  lemma {:induction false} SkipNewlinesConcat(x: string, y: string)
    ensures SkipNewlines(x) == [] ==> (x == [] || IsNewline(x[|x| - 1])) && SkipNewlines(x + y) == SkipNewlines(y)
    ensures SkipNewlines(x) != [] ==>
      SkipNewlines(x + y) == SkipNewlines(x) + y && SkipNewlines(x)[|SkipNewlines(x)| - 1] == x[|x| - 1]
  {
    if x == [] {
      assert x + y == y;
    } else if IsNewline(x[0]) {
      assert (x + y)[1..] == x[1..] + y;
      SkipNewlinesConcat(x[1..], y);
      if x[1..] != [] {
        assert x[1..][|x[1..]| - 1] == x[|x| - 1];
      }
    }
  }

  /** A text made only of newline characters is skipped entirely. */
  lemma {:induction false} SkipNewlinesRun(r: string)
    requires forall k :: 0 <= k < |r| ==> IsNewline(r[k])
    ensures SkipNewlines(r) == []
  {
    if r != [] {
      assert forall k :: 0 <= k < |r[1..]| ==> r[1..][k] == r[k + 1];
      SkipNewlinesRun(r[1..]);
    }
  }

  /** A non-empty run of newline characters becomes exactly one space. */
  lemma CollapseNewlinesRun(r: string)
    requires r != [] && forall k :: 0 <= k < |r| ==> IsNewline(r[k])
    ensures CollapseNewlines(r) == " "
  {
    assert forall k :: 0 <= k < |r[1..]| ==> r[1..][k] == r[k + 1];
    SkipNewlinesRun(r[1..]);
  }

  /**
   * The newline pass works piece by piece: it distributes over concatenation
   * unless the two pieces join inside one newline run.
   */
  lemma {:induction false} CollapseNewlinesConcat(a: string, b: string)
    requires !(a != [] && b != [] && IsNewline(a[|a| - 1]) && IsNewline(b[0]))
    ensures CollapseNewlines(a + b) == CollapseNewlines(a) + CollapseNewlines(b)
    decreases |a|, 2
  {
    if a == [] {
      assert a + b == b;
    } else if IsNewline(a[0]) {
      CollapseNewlinesConcatRun(a, b);
    } else {
      var x := a[1..];
      assert CollapseNewlines(a + b) == [a[0]] + CollapseNewlines(x + b) by {
        assert (a + b)[0] == a[0] && (a + b)[1..] == x + b;
      }
      if x != [] { assert x[|x| - 1] == a[|a| - 1]; }
      CollapseNewlinesConcat(x, b);
    }
  }

  /** The case of CollapseNewlinesConcat where `a` starts with a newline run. */
  lemma {:induction false} CollapseNewlinesConcatRun(a: string, b: string)
    requires a != [] && IsNewline(a[0])
    requires !(b != [] && IsNewline(a[|a| - 1]) && IsNewline(b[0]))
    ensures CollapseNewlines(a + b) == CollapseNewlines(a) + CollapseNewlines(b)
    decreases |a|, 1
  {
    var x := a[1..];
    SkipNewlinesConcat(x, b);
    if SkipNewlines(x) == [] {
      assert CollapseNewlines(a + b) == " " + CollapseNewlines(SkipNewlines(x + b)) by {
        assert (a + b)[0] == a[0] && (a + b)[1..] == x + b;
      }
      assert SkipNewlines(x + b) == b by {
        if x != [] { assert x[|x| - 1] == a[|a| - 1]; }
      }
    } else {
      CollapseNewlinesConcatRunThenText(a, b);
    }
  }

  /** The case of CollapseNewlinesConcatRun where text follows the leading newline run of `a`. */
  lemma {:induction false} CollapseNewlinesConcatRunThenText(a: string, b: string)
    requires a != [] && IsNewline(a[0]) && SkipNewlines(a[1..]) != []
    requires !(b != [] && IsNewline(a[|a| - 1]) && IsNewline(b[0]))
    ensures CollapseNewlines(a + b) == CollapseNewlines(a) + CollapseNewlines(b)
    decreases |a|, 0
  {
    var x := a[1..];
    var rest := SkipNewlines(x);
    SkipNewlinesConcat(x, b);
    assert CollapseNewlines(a + b) == " " + CollapseNewlines(rest + b) by {
      assert (a + b)[0] == a[0] && (a + b)[1..] == x + b;
    }
    assert rest[|rest| - 1] == a[|a| - 1];
    CollapseNewlinesConcat(rest, b);
  }

  /** The characters other than spaces and newlines, in order. */
  function Visible(s: string): string
  {
    if s == [] then []
    else (if s[0] == ' ' || IsNewline(s[0]) then [] else [s[0]]) + Visible(s[1..])
  }

  lemma {:induction false} VisibleSkipNewlines(s: string)
    ensures Visible(SkipNewlines(s)) == Visible(s)
  {
    if s != [] && IsNewline(s[0]) {
      VisibleSkipNewlines(s[1..]);
    }
  }

  /** The newline pass only turns newline runs into spaces: all other characters stay, in order. */
  lemma {:induction false} CollapseNewlinesKeepsText(s: string)
    ensures Visible(CollapseNewlines(s)) == Visible(s)
    decreases |s|
  {
    if s != [] {
      if IsNewline(s[0]) {
        VisibleSkipNewlines(s[1..]);
        CollapseNewlinesKeepsText(SkipNewlines(s[1..]));
      } else {
        CollapseNewlinesKeepsText(s[1..]);
      }
    }
  }

  /** The ASCII pass works character by character: it distributes over concatenation. */
  lemma {:induction false} StripNonAsciiConcat(a: string, b: string)
    ensures StripNonAscii(a + b) == StripNonAscii(a) + StripNonAscii(b)
  {
    if a != [] {
      assert (a + b)[1..] == a[1..] + b;
      StripNonAsciiConcat(a[1..], b);
    } else {
      assert a + b == b;
    }
  }

  /** An ASCII text passes the ASCII pass unchanged; so the pass is idempotent. */
  lemma {:induction false} StripNonAsciiIdentity(s: string)
    requires forall c :: c in s ==> IsAscii(c)
    ensures StripNonAscii(s) == s
  {
    if s != [] {
      assert s[0] in s;
      assert forall c :: c in s[1..] ==> c in s;
      StripNonAsciiIdentity(s[1..]);
    }
  }

  /** A text without any ASCII character is deleted entirely by the ASCII pass. */
  lemma {:induction false} StripNonAsciiEmpty(s: string)
    requires forall c :: c in s ==> !IsAscii(c)
    ensures StripNonAscii(s) == []
  {
    if s != [] {
      assert s[0] in s;
      assert forall c :: c in s[1..] ==> c in s;
      StripNonAsciiEmpty(s[1..]);
    }
  }

  /** Content made only of non-ASCII characters cleans to the empty text, whatever the other passes match. */
  lemma NonAsciiContentCleansToEmpty(content: string, p: Patterns)
    requires forall c :: c in content ==> !IsAscii(c)
    ensures CleanArticleContent(content, p) == []
  {
    var s1 := Apply(p.cookieNotice, content);
    CollapseNewlinesIdentity(s1);
    var s8 := Apply(p.trailingEllipsis, Apply(p.bareDomain, Apply(p.charsCount,
      Apply(p.removedMarker, Apply(p.charsMarker, Apply(p.htmlTag, s1))))));
    StripNonAsciiEmpty(s8);
  }

  /** Such an article yields no summary: the model is never asked. */
  lemma NonAsciiArticleNotSummarized(article: Article, target: string, p: Patterns, q: Scrubbers, model: SummaryModel)
    requires forall c :: c in article.content ==> !IsAscii(c)
    ensures SummarizeArticle(article, target, p, q, model) == None
  {
    NonAsciiContentCleansToEmpty(article.content, p);
  }
}
