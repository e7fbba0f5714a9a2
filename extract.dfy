/**
 * The article extractor (`scrape_article`): from a fetched and parsed
 * article page to the article record the caption prompt is built from.
 *
 * The page is taken as BeautifulSoup presents it: the `<title>` string, the
 * stripped text of the first `<h1>`, the stripped texts of the `<h2>`/`<h3>`
 * headings and of the `<p>` paragraphs in document order, and the `<meta>`
 * tags with their `property`, `name` and `content` attributes.
 */
module Extract {
  import opened Opt
  import opened PyText

  /** The title used when neither `og:title`, `<h1>` nor a non-empty `<title>` is there. */
  const UntitledTitle: string := "Untitled Article"
  /** A paragraph is kept only when its stripped text is longer than this. */
  const MinParagraphLength: nat := 40
  /** The body excerpt is cut to this many characters. */
  const ContentCap: nat := 15000
  const ParagraphSeparator: string := "\n\n"
  const InsecureScheme: string := "http://"
  const SecureScheme: string := "https://"

  datatype Attr = Property | Name

  /** A `<meta>` tag; a missing attribute is `None`. */
  datatype Meta = Meta(property: Option<string>, name: Option<string>, content: Option<string>)
  {
    function Attribute(a: Attr): Option<string> {
      match a
      case Property => property
      case Name => name
    }
  }

  /** The parsed page. */
  datatype Page = Page(
    titleString: Option<string>,  // `soup.title.string`; None when there is no <title> or it has no single string
    h1: Option<string>,           // stripped text of the first <h1>, when the page has one
    headings: seq<string>,        // stripped texts of all <h2> and <h3>, in document order
    paragraphs: seq<string>,      // stripped texts of all <p>, in document order
    metas: seq<Meta>)             // all <meta> tags, in document order

  /**
   * The article record. `title` and `imageUrl` are `None` when the deciding
   * meta tag has no `content` attribute. `sourceTags` is a set because the
   * order of the list built from a Python set is unspecified.
   */
  datatype ArticleRecord = ArticleRecord(
    url: string,
    title: Option<string>,
    structure: seq<string>,
    content: string,
    imageUrl: Option<string>,
    sourceTags: set<string>)

  predicate Matches(m: Meta, a: Attr, v: string) {
    m.Attribute(a) == Some(v)
  }

  /** `soup.find('meta', ...)`: the index of the first meta tag whose attribute `a` is `v`. */
  function FindMeta(metas: seq<Meta>, a: Attr, v: string): (r: Option<nat>)
    ensures r.Some? ==> r.value < |metas| && Matches(metas[r.value], a, v)
    ensures r.Some? ==> forall j :: 0 <= j < r.value ==> !Matches(metas[j], a, v)
    ensures r.None? ==> forall j :: 0 <= j < |metas| ==> !Matches(metas[j], a, v)
  {
    if metas == [] then None
    else if Matches(metas[0], a, v) then Some(0)
    else
      match FindMeta(metas[1..], a, v)
      case None => None
      case Some(i) => Some(i + 1)
  }

  // ---------------------------------------------------------------- title

  /**
   * Title precedence: an `og:title` tag decides, even when it has no content;
   * otherwise an `<h1>` decides, even when its text is empty; otherwise a
   * non-empty `<title>` string; otherwise the fallback title.
   */
  ghost predicate TitleRule(page: Page, title: Option<string>) {
    match FindMeta(page.metas, Property, "og:title")
    case Some(i) => title == page.metas[i].content
    case None =>
      if page.h1.Some? then title == page.h1
      else if page.titleString.Some? && page.titleString.value != [] then title == page.titleString
      else title == Some(UntitledTitle)
  }

  // ---------------------------------------------------------------- body

  /** The paragraphs longer than `MinParagraphLength`, in document order. */
  function LongParagraphs(ps: seq<string>): (r: seq<string>)
    ensures |r| <= |ps|
    ensures forall p :: p in r ==> p in ps && |p| > MinParagraphLength
  {
    if ps == [] then []
    else
      var last := ps[|ps| - 1];
      LongParagraphs(ps[..|ps| - 1]) + (if |last| > MinParagraphLength then [last] else [])
  }

  /** Every long paragraph is kept as often as it occurs, and nothing else is kept. */
  lemma {:induction false} LongParagraphsExact(ps: seq<string>)
    ensures forall p :: multiset(LongParagraphs(ps))[p] == if |p| > MinParagraphLength then multiset(ps)[p] else 0
  {
    if ps != [] {
      var init, last := ps[..|ps| - 1], ps[|ps| - 1];
      LongParagraphsExact(init);
      assert ps == init + [last];
      assert multiset(ps) == multiset(init) + multiset{last};
    }
  }

  /** The filtering loop over the page's paragraphs. */
  method KeepLongParagraphs(ps: seq<string>) returns (kept: seq<string>)
    ensures kept == LongParagraphs(ps)
    ensures forall p :: p in kept ==> |p| > MinParagraphLength
  {
    kept := [];
    for i := 0 to |ps|
      invariant kept == LongParagraphs(ps[..i])
    {
      assert ps[..i + 1][..i] == ps[..i];
      if |ps[i]| > MinParagraphLength {
        kept := kept + [ps[i]];
      }
    }
    assert ps[..|ps|] == ps;
    LongParagraphsExact(ps);
    forall p | p in kept ensures |p| > MinParagraphLength {
      assert multiset(kept)[p] > 0;
    }
  }

  /** The body excerpt: the long paragraphs joined by blank lines, cut to the cap. */
  function Content(ps: seq<string>): (c: string)
    ensures |c| <= ContentCap
    ensures c <= Join(LongParagraphs(ps), ParagraphSeparator)
    ensures |c| == if |Join(LongParagraphs(ps), ParagraphSeparator)| <= ContentCap
      then |Join(LongParagraphs(ps), ParagraphSeparator)| else ContentCap
  {
    Truncate(Join(LongParagraphs(ps), ParagraphSeparator), ContentCap)
  }

  // ---------------------------------------------------------------- image

  /** Forcing the secure scheme: only a URL that starts with `http://` is rewritten. */
  function SecureUrl(u: string): (r: string)
    ensures StartsWith(u, InsecureScheme) ==> StartsWith(r, SecureScheme)
    ensures !StartsWith(r, InsecureScheme)
    ensures !StartsWith(u, InsecureScheme) ==> r == u
    ensures StartsWith(u, InsecureScheme) ==>
      r == SecureScheme + ReplaceAll(u[|InsecureScheme|..], InsecureScheme, SecureScheme)
  {
    if u != [] && StartsWith(u, InsecureScheme) then
      var rest := u[|InsecureScheme|..];
      assert u == InsecureScheme + rest;
      ReplaceLeading(InsecureScheme, rest, SecureScheme);
      var r := ReplaceAll(u, InsecureScheme, SecureScheme);
      assert r[..|SecureScheme|] == SecureScheme;
      assert r[4] != InsecureScheme[4];
      r
    else u
  }

  function Secured(u: Option<string>): Option<string> {
    match u
    case None => None
    case Some(s) => Some(SecureUrl(s))
  }

  /** The `og:image` tag's presence alone decides; only without it does `twitter:image` count. */
  ghost predicate ImageRule(metas: seq<Meta>, image: Option<string>) {
    match FindMeta(metas, Property, "og:image")
    case Some(i) => image == Secured(metas[i].content)
    case None =>
      match FindMeta(metas, Name, "twitter:image")
      case Some(j) => image == Secured(metas[j].content)
      case None => image == Some([])
  }

  /** An `og:image` of `http://cdn.example.com/x.jpg` becomes `https://cdn.example.com/x.jpg`. */
  lemma SecureUrlExample()
    ensures SecureUrl("http://cdn.example.com/x.jpg") == "https://cdn.example.com/x.jpg"
  {
    var rest := "cdn.example.com/x.jpg";
    assert InsecureScheme + rest == "http://cdn.example.com/x.jpg";
    assert SecureScheme + rest == "https://cdn.example.com/x.jpg";
    AbsentFirstChar(rest, InsecureScheme);
    ReplaceAbsent(rest, InsecureScheme, SecureScheme);
    assert SecureUrl(InsecureScheme + rest) == SecureScheme + rest by {
      ReplaceLeading(InsecureScheme, rest, SecureScheme);
    }
  }

  // ---------------------------------------------------------------- tags

  /** The content of the first `name="keywords"` tag, when it is there and non-empty. */
  function KeywordsContent(metas: seq<Meta>): (c: Option<string>)
    ensures c.Some? ==> c.value != []
    ensures var first := FindMeta(metas, Name, "keywords");
      c.Some? <==> first.Some? && metas[first.value].content.Some? && metas[first.value].content.value != []
    ensures c.Some? ==> c == metas[FindMeta(metas, Name, "keywords").value].content
  {
    match FindMeta(metas, Name, "keywords")
    case None => None
    case Some(i) => if metas[i].content.Some? && metas[i].content.value != [] then metas[i].content else None
  }

  /** `[t.strip() for t in c.split(',')]`. */
  function StripPieces(c: string): (r: seq<string>)
    ensures |r| == |SplitOn(c, ',')| >= 1
  {
    var pieces := SplitOn(c, ',');
    seq(|pieces|, k requires 0 <= k < |pieces| => Strip(pieces[k]))
  }

  /** Every keyword piece is trimmed at both ends. */
  lemma StripPiecesTrimmed(c: string, t: string)
    requires t in StripPieces(c)
    ensures t == [] || (!IsSpace(t[0]) && !IsSpace(t[|t| - 1]))
  {
    var k :| 0 <= k < |StripPieces(c)| && StripPieces(c)[k] == t;
    assert t == Strip(SplitOn(c, ',')[k]);
  }

  /** The stripped comma-separated pieces of the keywords tag. */
  function KeywordPieces(metas: seq<Meta>): seq<string>
  {
    match KeywordsContent(metas)
    case None => []
    case Some(c) => StripPieces(c)
  }

  /** The stripped tag of one `property="article:tag"` meta with non-empty content. */
  function ArticleTag(m: Meta): seq<string> {
    if Matches(m, Property, "article:tag") && m.content.Some? && m.content.value != [] then [Strip(m.content.value)]
    else []
  }

  /** The stripped contents of all `article:tag` metas, in document order. */
  function ArticleTags(metas: seq<Meta>): (r: seq<string>)
    ensures |r| <= |metas|
  {
    if metas == [] then [] else ArticleTags(metas[..|metas| - 1]) + ArticleTag(metas[|metas| - 1])
  }

  /** `list(set(filter(None, tags)))`, kept as the set it is built from. */
  function TagSet(tags: seq<string>): (r: set<string>)
    ensures [] !in r
    ensures forall t :: t in r <==> t in tags && t != []
  {
    set t | t in tags && t != []
  }

  /** `t` is a stripped piece of the keywords tag. */
  ghost predicate IsKeywordTag(metas: seq<Meta>, t: string) {
    && KeywordsContent(metas).Some?
    && exists piece :: piece in SplitOn(KeywordsContent(metas).value, ',') && Strip(piece) == t
  }

  /** `t` is the stripped content of some `article:tag` meta with non-empty content. */
  ghost predicate IsArticleTag(metas: seq<Meta>, t: string) {
    exists m :: m in metas && Matches(m, Property, "article:tag") && m.content.Some? && m.content.value != [] && Strip(m.content.value) == t
  }

  lemma {:induction false} ArticleTagsMembers(metas: seq<Meta>, t: string)
    ensures t in ArticleTags(metas) <==> IsArticleTag(metas, t)
  {
    if metas != [] {
      var init, last := metas[..|metas| - 1], metas[|metas| - 1];
      ArticleTagsMembers(init, t);
      assert metas == init + [last];
      if IsArticleTag(metas, t) && !IsArticleTag(init, t) {
        var m :| m in metas && Matches(m, Property, "article:tag") && m.content.Some? && m.content.value != [] && Strip(m.content.value) == t;
        assert m == last;
      }
    }
  }

  lemma KeywordPiecesMembers(metas: seq<Meta>, t: string)
    ensures t in KeywordPieces(metas) <==> IsKeywordTag(metas, t)
  {
    if KeywordsContent(metas).Some? {
      StripPiecesMembers(KeywordsContent(metas).value, t);
    }
  }

  /** A stripped piece is the strip of some piece of the split, and each piece's strip is one. */
  lemma StripPiecesMembers(c: string, t: string)
    ensures t in StripPieces(c) <==> exists piece :: piece in SplitOn(c, ',') && Strip(piece) == t
  {
    if t in StripPieces(c) {
      StrippedPieceHasSource(c, t);
    }
    if exists piece :: piece in SplitOn(c, ',') && Strip(piece) == t {
      var piece :| piece in SplitOn(c, ',') && Strip(piece) == t;
      PieceStripped(c, piece);
    }
  }

  lemma StrippedPieceHasSource(c: string, t: string)
    requires t in StripPieces(c)
    ensures exists piece :: piece in SplitOn(c, ',') && Strip(piece) == t
  {
  }

  lemma PieceStripped(c: string, piece: string)
    requires piece in SplitOn(c, ',')
    ensures Strip(piece) in StripPieces(c)
  {
    var pieces := SplitOn(c, ',');
    var k :| 0 <= k < |pieces| && pieces[k] == piece;
    assert StripPieces(c)[k] == Strip(piece);
  }

  /** The source tags are exactly the non-empty stripped keyword pieces and `article:tag` contents. */
  lemma TagsExact(metas: seq<Meta>, t: string)
    ensures t in TagSet(KeywordPieces(metas) + ArticleTags(metas)) <==> t != [] && (IsKeywordTag(metas, t) || IsArticleTag(metas, t))
  {
    ArticleTagsMembers(metas, t);
    KeywordPiecesMembers(metas, t);
  }

  /** The keyword split: the stripped pieces of the first keywords meta's non-empty content. */
  method SplitKeywords(metas: seq<Meta>) returns (pieces: seq<string>)
    ensures pieces == KeywordPieces(metas)
  {
    pieces := [];
    var keywords := FindMeta(metas, Name, "keywords");
    if keywords.Some? && metas[keywords.value].content.Some? && metas[keywords.value].content.value != [] {
      pieces := StripPieces(metas[keywords.value].content.value);
    }
  }

  /** One more meta adds its own `article:tag` contribution at the end. */
  lemma ArticleTagsSnoc(metas: seq<Meta>, i: nat)
    requires i < |metas|
    ensures ArticleTags(metas[..i + 1]) == ArticleTags(metas[..i]) + ArticleTag(metas[i])
  {
    assert metas[..i + 1][..i] == metas[..i];
  }

  /** The keyword split, then the `article:tag` loop appending in document order. */
  method CollectTags(metas: seq<Meta>) returns (tags: seq<string>)
    ensures tags == KeywordPieces(metas) + ArticleTags(metas)
  {
    var keywordPart := SplitKeywords(metas);
    tags := keywordPart;
    for i := 0 to |metas|
      invariant tags == keywordPart + ArticleTags(metas[..i])
    {
      ArticleTagsSnoc(metas, i);
      var m := metas[i];
      if Matches(m, Property, "article:tag") && m.content.Some? && m.content.value != [] {
        assert keywordPart + ArticleTags(metas[..i]) + [Strip(m.content.value)] == keywordPart + (ArticleTags(metas[..i]) + ArticleTag(m));
        tags := tags + [Strip(m.content.value)];
      } else {
        assert ArticleTags(metas[..i]) + ArticleTag(m) == ArticleTags(metas[..i]);
      }
    }
    assert metas[..|metas|] == metas;
  }

  // ---------------------------------------------------------------- record

  /** The title steps: `<title>`, then `<h1>`, then the fallback, then `og:title`. */
  method ResolveTitle(page: Page) returns (title: Option<string>)
    ensures TitleRule(page, title)
  {
    title := page.titleString;
    if page.h1.Some? {
      title := page.h1;
    } else if title.None? || title.value == [] {
      title := Some(UntitledTitle);
    }
    var ogTitle := FindMeta(page.metas, Property, "og:title");
    if ogTitle.Some? {
      title := page.metas[ogTitle.value].content;
    }
  }

  /** The image steps: `og:image`, else `twitter:image`, then the forced secure scheme. */
  method SelectImage(metas: seq<Meta>) returns (imageUrl: Option<string>)
    ensures ImageRule(metas, imageUrl)
    ensures imageUrl.Some? ==> !StartsWith(imageUrl.value, InsecureScheme)
  {
    imageUrl := Some([]);
    var ogImage := FindMeta(metas, Property, "og:image");
    if ogImage.Some? {
      imageUrl := metas[ogImage.value].content;
    } else {
      var twImage := FindMeta(metas, Name, "twitter:image");
      if twImage.Some? {
        imageUrl := metas[twImage.value].content;
      }
    }
    ghost var raw := imageUrl;
    if imageUrl.Some? && imageUrl.value != [] && StartsWith(imageUrl.value, InsecureScheme) {
      imageUrl := Some(ReplaceAll(imageUrl.value, InsecureScheme, SecureScheme));
    }
    assert imageUrl == Secured(raw);
  }

  /** The `<h2>`/`<h3>` loop: the heading texts, in document order. */
  method CollectHeadings(headings: seq<string>) returns (structure: seq<string>)
    ensures structure == headings
  {
    structure := [];
    for i := 0 to |headings|
      invariant structure == headings[..i]
    {
      structure := structure + [headings[i]];
    }
  }

  /** The deduplicated source tags: exactly the non-empty stripped keyword pieces and `article:tag` contents. */
  method SourceTags(metas: seq<Meta>) returns (tags: set<string>)
    ensures forall t :: t in tags <==> t != [] && (IsKeywordTag(metas, t) || IsArticleTag(metas, t))
  {
    var collected := CollectTags(metas);
    tags := TagSet(collected);
    forall t ensures t in tags <==> t != [] && (IsKeywordTag(metas, t) || IsArticleTag(metas, t)) {
      TagsExact(metas, t);
    }
  }

  /** Builds the record from the parsed page (everything between parsing and `return`). */
  method AssembleRecord(url: string, page: Page) returns (a: ArticleRecord)
    ensures a.url == url && a.structure == page.headings
    ensures TitleRule(page, a.title)
    ensures a.content == Content(page.paragraphs)
    ensures ImageRule(page.metas, a.imageUrl)
    ensures a.imageUrl.Some? ==> !StartsWith(a.imageUrl.value, InsecureScheme)
    ensures forall t :: t in a.sourceTags <==> t != [] && (IsKeywordTag(page.metas, t) || IsArticleTag(page.metas, t))
  {
    var title := ResolveTitle(page);

    var structure := CollectHeadings(page.headings);

    var paragraphs := KeepLongParagraphs(page.paragraphs);
    var fullText := Join(paragraphs, ParagraphSeparator);

    var imageUrl := SelectImage(page.metas);

    var tags := SourceTags(page.metas);

    a := ArticleRecord(url, title, structure, Truncate(fullText, ContentCap), imageUrl, tags);
  }

  /**
   * `scrape_article`: `None` when fetching or parsing failed (every exception
   * is caught and turned into `None`), the assembled record otherwise.
   */
  method ScrapeArticle(url: string, fetched: Option<Page>) returns (r: Option<ArticleRecord>)
    ensures r.None? <==> fetched.None?
    ensures r.Some? ==> r.value.url == url && r.value.structure == fetched.value.headings
    ensures r.Some? ==> TitleRule(fetched.value, r.value.title)
    ensures r.Some? ==> r.value.content == Content(fetched.value.paragraphs)
    ensures r.Some? ==> ImageRule(fetched.value.metas, r.value.imageUrl)
    ensures r.Some? ==> forall t :: t in r.value.sourceTags <==> t != [] && (IsKeywordTag(fetched.value.metas, t) || IsArticleTag(fetched.value.metas, t))
  {
    match fetched
    case None =>
      r := None;
    case Some(page) =>
      var a := AssembleRecord(url, page);
      r := Some(a);
  }
}
