/** The query sent to the model (script.js:245-399): the search mode chosen
    from which of title and author were given, the platform instructions,
    and the two prompt templates. The long fixed passages of the templates
    are named, not spelled out. */
module Prompt {
  import opened Text

  datatype SearchType =
    | SpecificBook  // `specific_book`: title and author
    | BookOnly      // `book_only`: title alone
    | AuthorBooks   // `author_books`: author alone
    | Unset         // `''`: neither

  /** Lines 248-260. */
  function SelectSearchType(title: string, author: string): SearchType {
    if title != "" && author != "" then SpecificBook
    else if title != "" then BookOnly
    else if author != "" then AuthorBooks
    else Unset
  }

  const TitleLabel := "書名："
  const AuthorSeparator := "，作者："
  const AuthorLabel := "作者："

  /** `searchQuery` of lines 248-260. */
  function SearchQuery(title: string, author: string): string {
    match SelectSearchType(title, author)
    case SpecificBook => TitleLabel + title + AuthorSeparator + author
    case BookOnly => TitleLabel + title
    case AuthorBooks => AuthorLabel + author
    case Unset => ""
  }

  /** Each mode is chosen exactly when its inputs are given. */
  lemma SelectSearchTypeSpec(title: string, author: string)
    ensures SelectSearchType(title, author) == SpecificBook <==> title != "" && author != ""
    ensures SelectSearchType(title, author) == BookOnly <==> title != "" && author == ""
    ensures SelectSearchType(title, author) == AuthorBooks <==> title == "" && author != ""
    ensures SelectSearchType(title, author) == Unset <==> title == "" && author == ""
  {
  }

  /** The query names every input it was given, behind the label that says
      which it is. */
  lemma SearchQueryNamesInputs(title: string, author: string)
    ensures title != "" ==> OccursAt(SearchQuery(title, author), TitleLabel + title, 0)
    ensures author != "" ==> Contains(SearchQuery(title, author), AuthorLabel + author)
  {
    var q := SearchQuery(title, author);
    match SelectSearchType(title, author)
    case SpecificBook =>
      assert q == (TitleLabel + title) + AuthorSeparator + author;
      assert q[..|TitleLabel + title|] == TitleLabel + title;
      var tail := AuthorSeparator + author;
      OccursInContext(TitleLabel + title + [AuthorSeparator[0]], AuthorLabel + author, [], AuthorLabel + author, 0);
      assert tail == [AuthorSeparator[0]] + (AuthorLabel + author);
      assert TitleLabel + title + [AuthorSeparator[0]] + (AuthorLabel + author) + [] == q;
    case BookOnly =>
      assert q[..|q|] == q;
    case AuthorBooks =>
      OccursInContext([], q, [], AuthorLabel + author, 0);
      assert [] + q + [] == q;
    case Unset =>
  }

  /** The query alone tells an author search from a title search: only an
      author search starts with the author label. */
  lemma SearchQueryTellsAuthorSearch(title: string, author: string)
    ensures StartsWith(SearchQuery(title, author), AuthorLabel) <==> SelectSearchType(title, author) == AuthorBooks
  {
    var q := SearchQuery(title, author);
    match SelectSearchType(title, author)
    case SpecificBook =>
      assert q[0] == TitleLabel[0] != AuthorLabel[0];
    case BookOnly =>
      assert q[0] == TitleLabel[0] != AuthorLabel[0];
    case AuthorBooks =>
      assert q[..|AuthorLabel|] == AuthorLabel;
    case Unset =>
  }

  /** The fixed passages of the templates, in the order they appear. */
  datatype Passage =
    | SearchOpening       // the opening up to the search words (270, 328)
    | AuthorSearchTopic   // the rest of the author template's first line (270-271)
    | AuthorSearchStrategy  // the author search strategy up to the author's name (273-275)
    | AuthorSearchSchema  // the JSON shape of an author reply and the first accuracy rule (275-300)
    | AuthorSearchClosing // the remaining accuracy rules (302-304)
    | BookSearchStrategy  // the book search strategy (328-334)
    | DefaultPlatforms    // the default platform priority list (314-325)
    | BookSearchSchema    // rating formats, language rules and the JSON shape of a book reply (336-398)

  /** A prompt: fixed passages and the text spliced between them. */
  datatype Piece = Fixed(passage: Passage) | Spliced(text: string)

  /** `platformsText`, lines 265-267. */
  function PlatformsLine(platforms: seq<string>): string {
    if |platforms| > 0 then "🎯 **限制查詢平台**（只查詢以下選定平台）：" + Join(platforms, "、")
    else "📋 查詢所有平台"
  }

  /** The platform rule of the author template, line 301. */
  function AccuracyLine(platforms: seq<string>): string {
    if |platforms| > 0 then "只查詢選定的平台：" + Join(platforms, "、")
    else "參考各平台真實評分資料"
  }

  /** The line that numbers the platform at index `i`. */
  function NumberedLine(platforms: seq<string>, i: nat): string
    requires i < |platforms|
  {
    NatToString(i + 1) + ". " + platforms[i]
  }

  /** `selectedPlatforms.map((p, i) => `${i + 1}. ${p}`).join('\n')`, line 310. */
  function NumberedList(platforms: seq<string>): string {
    Join(seq(|platforms|, i requires 0 <= i < |platforms| => NumberedLine(platforms, i)), "\n")
  }

  /** `platformInstructions`, lines 307-326. */
  function PlatformInstructions(platforms: seq<string>): seq<Piece> {
    if |platforms| > 0 then
      [Spliced("🎯 **限制查詢平台**（只查詢以下選定平台）：\n" + NumberedList(platforms)
        + "\n\n💡 請只查詢上述選定的 " + NatToString(|platforms|) + " 個平台")]
    else [Fixed(DefaultPlatforms)]
  }

  /** The prompt, lines 245-399. */
  function BuildPrompt(title: string, author: string, platforms: seq<string>): seq<Piece> {
    if SelectSearchType(title, author) == AuthorBooks then
      [ Fixed(SearchOpening), Spliced(author), Fixed(AuthorSearchTopic),
        Spliced(PlatformsLine(platforms)), Fixed(AuthorSearchStrategy), Spliced(author),
        Fixed(AuthorSearchSchema), Spliced(AccuracyLine(platforms)), Fixed(AuthorSearchClosing) ]
    else
      [Fixed(SearchOpening), Spliced(SearchQuery(title, author)), Fixed(BookSearchStrategy)]
      + PlatformInstructions(platforms) + [Fixed(BookSearchSchema)]
  }

  /** When no platform name holds a line break, the numbered list splits back
      into one line per platform, in order, each numbered from 1. */
  lemma NumberedListLines(platforms: seq<string>)
    requires |platforms| > 0
    requires forall i :: 0 <= i < |platforms| ==> '\n' !in platforms[i]
    ensures |Split(NumberedList(platforms), '\n')| == |platforms|
    ensures forall i :: 0 <= i < |platforms| ==>
      Split(NumberedList(platforms), '\n')[i] == NatToString(i + 1) + ". " + platforms[i]
  {
    var lines := seq(|platforms|, i requires 0 <= i < |platforms| => NumberedLine(platforms, i));
    forall i | 0 <= i < |lines| ensures '\n' !in lines[i] {
      var n := NatToString(i + 1);
      assert '\n' !in n by {
        forall k | 0 <= k < |n| ensures n[k] != '\n' { }
      }
      assert lines[i] == n + ". " + platforms[i];
    }
    SplitJoin(lines, '\n');
  }

  /** Every selected platform is named in the numbered list. */
  lemma NumberedListNames(platforms: seq<string>, k: nat)
    requires k < |platforms|
    ensures Contains(NumberedList(platforms), platforms[k])
  {
    var lines := seq(|platforms|, i requires 0 <= i < |platforms| => NumberedLine(platforms, i));
    JoinContainsPart(lines, "\n", k);
    var line := NumberedLine(platforms, k);
    OccursInContext(NatToString(k + 1) + ". ", platforms[k], [], platforms[k], 0);
    assert NatToString(k + 1) + ". " + platforms[k] + [] == line;
    ContainsTrans(NumberedList(platforms), line, platforms[k]);
  }

  /** Both templates start the same way and carry the search words right
      after it: the author's name in an author search, the query otherwise. */
  lemma BuildPromptOpening(title: string, author: string, platforms: seq<string>)
    ensures var p := BuildPrompt(title, author, platforms);
      && |p| >= 2 && p[0] == Fixed(SearchOpening)
      && p[1] == Spliced(if SelectSearchType(title, author) == AuthorBooks then author
                         else SearchQuery(title, author))
  {
  }

  /** The default platform list is used exactly when no platform was chosen
      for a title search. */
  lemma BuildPromptDefaultPlatforms(title: string, author: string, platforms: seq<string>)
    ensures Fixed(DefaultPlatforms) in BuildPrompt(title, author, platforms)
        <==> |platforms| == 0 && SelectSearchType(title, author) != AuthorBooks
  {
    var p := BuildPrompt(title, author, platforms);
    if Fixed(DefaultPlatforms) in p {
      var i :| 0 <= i < |p| && p[i] == Fixed(DefaultPlatforms);
    }
    if |platforms| == 0 && SelectSearchType(title, author) != AuthorBooks {
      assert p[3] == Fixed(DefaultPlatforms);
    }
  }

  /** Every chosen platform is named in the fourth piece of the prompt, a
      spliced one. */
  lemma BuildPromptNamesPlatform(title: string, author: string, platforms: seq<string>, k: nat)
    requires k < |platforms|
    ensures var p := BuildPrompt(title, author, platforms);
      |p| > 3 && p[3].Spliced? && Contains(p[3].text, platforms[k])
  {
    if SelectSearchType(title, author) == AuthorBooks {
      PlatformsLineNames(platforms, k);
    } else {
      PlatformInstructionsName(platforms, k);
    }
  }

  lemma PlatformsLineNames(platforms: seq<string>, k: nat)
    requires k < |platforms|
    ensures Contains(PlatformsLine(platforms), platforms[k])
  {
    var head := "🎯 **限制查詢平台**（只查詢以下選定平台）：";
    var list := Join(platforms, "、");
    JoinContainsPart(platforms, "、", k);
    var j :| 0 <= j <= |list| - |platforms[k]| && OccursAt(list, platforms[k], j);
    OccursInContext(head, list, [], platforms[k], j);
    assert head + list + [] == PlatformsLine(platforms);
  }

  lemma PlatformInstructionsName(platforms: seq<string>, k: nat)
    requires k < |platforms|
    ensures PlatformInstructions(platforms)[0].Spliced?
    ensures Contains(PlatformInstructions(platforms)[0].text, platforms[k])
  {
    var head := "🎯 **限制查詢平台**（只查詢以下選定平台）：\n";
    var tail := "\n\n💡 請只查詢上述選定的 " + NatToString(|platforms|) + " 個平台";
    NumberedListNames(platforms, k);
    var list := NumberedList(platforms);
    var j :| 0 <= j <= |list| - |platforms[k]| && OccursAt(list, platforms[k], j);
    OccursInContext(head, list, tail, platforms[k], j);
    assert PlatformInstructions(platforms)[0] == Spliced(head + list + tail);
  }
}
