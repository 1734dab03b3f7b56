/** The search links a result page offers (script.js:561-638): one set of
    shop links built from the cleaned title and author, and one link per
    rating platform, in English for the English-language platforms. */
module Links {
  import opened Text

  const Placeholder := "資訊不足"

  /** `cleanTitle`, lines 563-566: the placeholder text removed, runs of
      space collapsed to one blank, and the ends trimmed. */
  function CleanTitle(title: string): string {
    Trim(CollapseSpaces(RemoveAll(title, Placeholder)))
  }

  /** `cleanAuthor`, line 569. */
  function CleanAuthor(author: string): string {
    if author != "" then Trim(RemoveAll(author, Placeholder)) else ""
  }

  /** `${first} ${second}` when `second` is non-empty, else `first`: the
      query shape of lines 571, 609 and 613. */
  function SpacedPair(first: string, second: string): string {
    if second != "" then first + " " + second else first
  }

  /** The joined query starts with its first part, ends with its second and
      holds nothing else but the blank between them. */
  lemma SpacedPairSpec(first: string, second: string)
    ensures StartsWith(SpacedPair(first, second), first)
    ensures second == "" ==> SpacedPair(first, second) == first
    ensures second != "" ==>
      && |SpacedPair(first, second)| == |first| + 1 + |second|
      && SpacedPair(first, second)[|first|] == ' '
      && SpacedPair(first, second)[|first| + 1..] == second
  {
    assert SpacedPair(first, second)[..|first|] == first;
  }

  /** `searchQuery`, line 571. */
  function PurchaseQuery(title: string, author: string): string {
    SpacedPair(CleanTitle(title), CleanAuthor(author))
  }

  datatype Link = Link(platform: string, url: string)

  const BooksUrl := "https://search.books.com.tw/search/query/key/"
  const BooksUrlEnd := "/cat/all"
  const AmazonUrl := "https://www.amazon.com/s?k="
  const AmazonUrlEnd := "&i=stripbooks"
  const EsliteUrl := "https://www.eslite.com/search?query="
  const ReadmooUrl := "https://readmoo.com/search/keyword?q="
  const KoboUrl := "https://www.kobo.com/tw/zh/search?query="
  const DoubanUrl := "https://book.douban.com/subject_search?search_text="
  const GoodreadsUrl := "https://www.goodreads.com/search?q="

  /** The five shop links of lines 574-595 for an encoded query. */
  function ShopLinks(encodedQuery: string): seq<Link> {
    [ Link("博客來", BooksUrl + encodedQuery + BooksUrlEnd),
      Link("Amazon", AmazonUrl + encodedQuery + AmazonUrlEnd),
      Link("誠品", EsliteUrl + encodedQuery),
      Link("讀墨", ReadmooUrl + encodedQuery),
      Link("Kobo", KoboUrl + encodedQuery) ]
  }

  /** `generatePurchaseLinks`, lines 561-596. */
  function PurchaseLinks(encode: string -> string, title: string, author: string): seq<Link> {
    ShopLinks(encode(PurchaseQuery(title, author)))
  }

  /** The shape of a cleaned text: no space at either end, every space a
      single blank, never two in a row. */
  predicate Tidy(s: string) {
    && (s != [] ==> !IsSpace(s[0]) && !IsSpace(s[|s| - 1]))
    && (forall k :: 0 <= k < |s| && IsSpace(s[k]) ==> s[k] == ' ')
    && (forall k :: 0 <= k < |s| - 1 ==> !(IsSpace(s[k]) && IsSpace(s[k + 1])))
  }

  /** Trimming a text whose spaces are single blanks makes it tidy. */
  lemma TrimmedTidy(c: string)
    requires forall k :: 0 <= k < |c| && IsSpace(c[k]) ==> c[k] == ' '
    requires forall k :: 0 <= k < |c| - 1 ==> !(IsSpace(c[k]) && IsSpace(c[k + 1]))
    ensures Tidy(Trim(c))
  {
    var i := TrimSpec(c);
    var r := Trim(c);
    forall k | 0 <= k < |r| ensures r[k] == c[i + k] { }
  }

  /** A cleaned title is tidy, and keeps the words left once the placeholder
      is removed, in order, with one blank between two of them; a title
      without the placeholder keeps all of its words. */
  lemma CleanTitleTidy(title: string)
    ensures Tidy(CleanTitle(title))
    ensures Words(CleanTitle(title)) == Words(RemoveAll(title, Placeholder))
    ensures NonSpace(CleanTitle(title)) == NonSpace(RemoveAll(title, Placeholder))
    ensures !Contains(title, Placeholder) ==>
      Words(CleanTitle(title)) == Words(title) && NonSpace(CleanTitle(title)) == NonSpace(title)
  {
    var removed := RemoveAll(title, Placeholder);
    CollapseSpacesSpec(removed);
    TrimmedTidy(CollapseSpaces(removed));
    TrimKeepsNonSpace(CollapseSpaces(removed));
    TrimKeepsWords(CollapseSpaces(removed));
    if !Contains(title, Placeholder) {
      RemoveAllIdle(title, Placeholder);
    }
  }

  /** A cleaned author has no space at either end and keeps the words, and
      so every character other than space, left once the placeholder is
      removed. */
  lemma CleanAuthorSpec(author: string)
    ensures var a := CleanAuthor(author);
      && (a != [] ==> !IsSpace(a[0]) && !IsSpace(a[|a| - 1]))
      && Words(a) == Words(RemoveAll(author, Placeholder))
      && NonSpace(a) == NonSpace(RemoveAll(author, Placeholder))
  {
    if author != "" {
      var removed := RemoveAll(author, Placeholder);
      var _ := TrimSpec(removed);
      TrimKeepsNonSpace(removed);
      TrimKeepsWords(removed);
    } else {
      assert RemoveAll(author, Placeholder) == [];
    }
  }

  /** Removal is one pass from left to right, as the script's `replace` is:
      a placeholder that only forms once an inner one is cut out stays. */
  lemma PlaceholderCanSurvive()
    ensures RemoveAll("資訊資訊不足不足", Placeholder) == Placeholder
  {
    var s := "資訊資訊不足不足";
    assert !StartsWith(s, Placeholder) by { assert s[..4][2] != Placeholder[2]; }
    assert !StartsWith(s[1..], Placeholder) by { assert s[1..][0] != Placeholder[0]; }
    assert s[2..] == Placeholder + "不足";
    assert StartsWith(s[2..], Placeholder);
    assert s[2..][4..] == "不足";
    assert !StartsWith("不足", Placeholder);
    assert !StartsWith("足", Placeholder);
    assert "不足"[1..] == "足" && "足"[1..] == [];
    assert RemoveAll("足", Placeholder) == "足";
    assert RemoveAll("不足", Placeholder) == "不足";
    assert RemoveAll(s[1..], Placeholder) == ['訊'] + "不足";
  }

  /** The five shop links name their platforms in a fixed order and all
      carry the same encoded query. */
  lemma ShopLinksSpec(encodedQuery: string)
    ensures var links := ShopLinks(encodedQuery);
      && |links| == 5
      && [links[0].platform, links[1].platform, links[2].platform, links[3].platform, links[4].platform]
         == ["博客來", "Amazon", "誠品", "讀墨", "Kobo"]
      && forall i :: 0 <= i < 5 ==> Contains(links[i].url, encodedQuery)
  {
    var q := encodedQuery;
    var links := ShopLinks(q);
    OccursInContext(BooksUrl, q, BooksUrlEnd, q, 0);
    OccursInContext(AmazonUrl, q, AmazonUrlEnd, q, 0);
    OccursInContext(EsliteUrl, q, [], q, 0);
    OccursInContext(ReadmooUrl, q, [], q, 0);
    OccursInContext(KoboUrl, q, [], q, 0);
    assert EsliteUrl + q + [] == links[2].url;
    assert ReadmooUrl + q + [] == links[3].url;
    assert KoboUrl + q + [] == links[4].url;
    assert Contains(links[0].url, q);
    assert Contains(links[1].url, q);
  }

  /** The platforms whose search pages are in English, line 603. */
  predicate EnglishPlatform(platform: string) {
    platform == "Amazon" || platform == "Amazon Books" || platform == "Goodreads"
  }

  /** `searchQuery`, lines 605-614. */
  function RatingQuery(platform: string, title: string, author: string, titleEn: string, authorEn: string): string {
    if EnglishPlatform(platform) && titleEn != "" then
      SpacedPair(titleEn, if authorEn != "" then authorEn else author)
    else SpacedPair(title, author)
  }

  /** The search page of a platform, by its name or an alias, lines 618-636. */
  function SearchPage(platform: string, encodedQuery: string): string {
    if platform == "豆瓣" || platform == "豆瓣讀書" then DoubanUrl + encodedQuery
    else if platform == "Amazon" || platform == "Amazon Books" then AmazonUrl + encodedQuery + AmazonUrlEnd
    else if platform == "Goodreads" then GoodreadsUrl + encodedQuery
    else if platform == "博客來" then BooksUrl + encodedQuery + BooksUrlEnd
    else if platform == "讀墨" || platform == "Readmoo" then ReadmooUrl + encodedQuery
    else if platform == "Kobo" then KoboUrl + encodedQuery
    else "#"
  }

  /** `generateRatingPlatformUrl`, lines 599-638. */
  function RatingPlatformUrl(encode: string -> string, platform: string, title: string, author: string,
                             titleEn: string, authorEn: string): string {
    SearchPage(platform, encode(RatingQuery(platform, title, author, titleEn, authorEn)))
  }

  /** The nine names the link builder knows. */
  predicate KnownPlatform(platform: string) {
    platform in {"豆瓣", "豆瓣讀書", "Amazon", "Amazon Books", "Goodreads", "博客來", "讀墨", "Readmoo", "Kobo"}
  }

  /** An unknown platform gets `'#'`, a known one a real search page that
      carries the encoded query. */
  lemma SearchPageSpec(platform: string, q: string)
    ensures SearchPage(platform, q) == "#" <==> !KnownPlatform(platform)
    ensures KnownPlatform(platform) ==> Contains(SearchPage(platform, q), q)
  {
    var url := SearchPage(platform, q);
    if platform == "豆瓣" || platform == "豆瓣讀書" {
      OccursInContext(DoubanUrl, q, [], q, 0);
      assert DoubanUrl + q + [] == url;
    } else if platform == "Amazon" || platform == "Amazon Books" {
      OccursInContext(AmazonUrl, q, AmazonUrlEnd, q, 0);
    } else if platform == "Goodreads" {
      OccursInContext(GoodreadsUrl, q, [], q, 0);
      assert GoodreadsUrl + q + [] == url;
    } else if platform == "博客來" {
      OccursInContext(BooksUrl, q, BooksUrlEnd, q, 0);
    } else if platform == "讀墨" || platform == "Readmoo" {
      OccursInContext(ReadmooUrl, q, [], q, 0);
      assert ReadmooUrl + q + [] == url;
    } else if platform == "Kobo" {
      OccursInContext(KoboUrl, q, [], q, 0);
      assert KoboUrl + q + [] == url;
    }
  }

  /** The English title is searched exactly on the English platforms, and
      only when there is one, with the English author preferred and the
      original author as fallback; every other search uses the original
      title and author. */
  lemma RatingQuerySpec(platform: string, title: string, author: string, titleEn: string, authorEn: string)
    ensures var query := RatingQuery(platform, title, author, titleEn, authorEn);
      && (EnglishPlatform(platform) && titleEn != "" ==>
            && StartsWith(query, titleEn)
            && (authorEn != "" ==> query == titleEn + " " + authorEn)
            && (authorEn == "" && author != "" ==> query == titleEn + " " + author)
            && (authorEn == "" && author == "" ==> query == titleEn))
      && (!(EnglishPlatform(platform) && titleEn != "") ==>
            && StartsWith(query, title)
            && query == (if author != "" then title + " " + author else title))
  {
    SpacedPairSpec(titleEn, if authorEn != "" then authorEn else author);
    SpacedPairSpec(title, author);
  }

  /** The aliases of a platform lead to the same link. */
  lemma RatingPlatformUrlAliases(encode: string -> string, title: string, author: string,
                                 titleEn: string, authorEn: string)
    ensures RatingPlatformUrl(encode, "豆瓣", title, author, titleEn, authorEn)
      == RatingPlatformUrl(encode, "豆瓣讀書", title, author, titleEn, authorEn)
    ensures RatingPlatformUrl(encode, "Amazon", title, author, titleEn, authorEn)
      == RatingPlatformUrl(encode, "Amazon Books", title, author, titleEn, authorEn)
    ensures RatingPlatformUrl(encode, "讀墨", title, author, titleEn, authorEn)
      == RatingPlatformUrl(encode, "Readmoo", title, author, titleEn, authorEn)
  {
    assert RatingQuery("Amazon", title, author, titleEn, authorEn)
        == RatingQuery("Amazon Books", title, author, titleEn, authorEn);
  }

  /** The purchase query starts with the cleaned title, and is the cleaned
      title alone when no author survives cleaning. */
  lemma PurchaseQuerySpec(title: string, author: string)
    ensures StartsWith(PurchaseQuery(title, author), CleanTitle(title))
    ensures CleanAuthor(author) == "" ==> PurchaseQuery(title, author) == CleanTitle(title)
  {
    SpacedPairSpec(CleanTitle(title), CleanAuthor(author));
  }
}
