/** The search orchestration (script.js:134-241 and 641-667): the book record
    a search fills in, how a model result is classified into it, the
    average and recommendation of a rated book, and the search entry point
    with the screen it ends on. */
module Search {
  import opened Wrappers
  import opened Text
  import opened JsValues
  import opened Ratings
  import opened Simplify
  import opened Prompt
  import opened Gateway

  /** The three result shapes of lines 199-233. */
  datatype Kind =
    | AuthorList   // a list of the author's books
    | RatedBook    // one book with ratings
    | UnratedBook  // one book without ratings

  /** The branch a result falls in; `None` when it falls through to the
      not-found error. */
  function ClassOf(rt: Runtime, result: map<string, JsValue>): Option<Kind> {
    if HasItems(rt, Get(result, "books")) then Some(AuthorList)
    else if HasItems(rt, Get(result, "ratings")) then Some(RatedBook)
    else if Truthy(Get(result, "title")) && Truthy(Get(result, "author")) then Some(UnratedBook)
    else None
  }

  /** On a result whose ratings are normalised, a rated book is one that is
      not an author list and carries a non-empty list of normalised
      ratings; an unrated book has no rating at all. */
  lemma ClassOfSpec(rt: Runtime, result: map<string, JsValue>)
    requires RatingsNormalized(rt, result)
    ensures var ratings := Get(result, "ratings");
      && (ClassOf(rt, result) == Some(RatedBook) <==>
            !HasItems(rt, Get(result, "books")) && ratings.Arr? && |ratings.items| > 0)
      && (ClassOf(rt, result) == Some(RatedBook) ==>
            forall i :: 0 <= i < |ratings.items| ==> NormalizedEntry(rt, ratings.items[i]))
      && (ClassOf(rt, result) == Some(UnratedBook) ==> !ratings.Arr? || ratings.items == [])
      && (ClassOf(rt, result).None? ==> !Truthy(Get(result, "title")) || !Truthy(Get(result, "author")))
  {
  }

  const DefaultSource := "AI生成內容，僅供參考"
  const UnknownAuthor := "未知"

  /** The six descriptive fields of a single-book record. */
  datatype Narrative = Narrative(
    titleEn: JsValue, authorEn: JsValue, mainIdeal: JsValue,
    summaries: JsValue, keyQuestions: JsValue, simpleExplanation: JsValue)

  /** Those fields of a single-book result with their defaults, lines 212-217
      and 225-230. */
  function NarrativeOf(result: map<string, JsValue>): Narrative {
    Narrative(
      Or(Get(result, "titleEn"), Str("")), Or(Get(result, "authorEn"), Str("")),
      Or(Get(result, "mainIdeal"), Str("")), Or(Get(result, "summaries"), Arr([])),
      Or(Get(result, "keyQuestions"), Arr([])), Or(Get(result, "simpleExplanation"), Str("")))
  }

  /** `result.dataSource || 'AI生成內容，僅供參考'`. */
  function SourceOf(result: map<string, JsValue>): JsValue {
    Or(Get(result, "dataSource"), Str(DefaultSource))
  }

  /** `(total / length).toFixed(1)` read back with `parseFloat`. */
  function Average(entries: seq<JsValue>): Num {
    Round1(Mean(Scores(entries)))
  }

  /** The average of a list of entries scored on the ten-point scale lies in
      [0, 10], and its recommendation is the tier that average falls in. */
  lemma AverageSpec(entries: seq<JsValue>)
    requires |entries| > 0 && OnScale(Scores(entries))
    ensures Average(entries).Finite? && 0.0 <= Average(entries).value <= 10.0
    ensures Label(TierOf(Average(entries))) == "非常推薦" <==> Average(entries).value >= 8.5
    ensures Label(TierOf(Average(entries))) == "不推薦" <==> Average(entries).value < 6.0
  {
    AverageWithinScale(entries);
  }

  /** `bookData`: the record one search fills in. */
  class BookRecord {
    /** The inputs of the search, fixed when the record is made. */
    const originalTitle: string
    const simplifiedTitle: string
    const inputAuthor: string
    var author: JsValue
    var ratings: seq<JsValue>
    var isAuthorSearch: bool
    var noRatings: bool
    var books: JsValue
    var titleEn: JsValue
    var authorEn: JsValue
    var mainIdeal: JsValue
    var summaries: JsValue
    var keyQuestions: JsValue
    var simpleExplanation: JsValue
    var dataSource: JsValue
    /** Stored by the script as the `toFixed(1)` text; kept here as the
        number that text reads back as. */
    var averageScore: Option<Num>
    var recommendation: Option<string>

    /** Every rating carries its normalised score. */
    predicate Valid(rt: Runtime)
      reads this
    {
      forall i :: 0 <= i < |ratings| ==> NormalizedEntry(rt, ratings[i])
    }

    function Described(): Narrative
      reads this
    {
      Narrative(titleEn, authorEn, mainIdeal, summaries, keyQuestions, simpleExplanation)
    }

    /** An empty author and no ratings; every other field still absent. */
    predicate Initial()
      reads this
    {
      && author == Str("") && ratings == []
      && !isAuthorSearch && !noRatings
      && books == Undefined && dataSource == Undefined
      && Described() == Narrative(Undefined, Undefined, Undefined, Undefined, Undefined, Undefined)
      && averageScore.None? && recommendation.None?
    }

    /** What a record that started out `Initial` holds once a result of shape
        `kind` has been classified into it and, for a rated book, averaged:
        the fields that branch of lines 199-233 assigns, the average and
        recommendation of lines 641-667, and the initial value everywhere
        else. */
    predicate Filled(result: map<string, JsValue>, kind: Kind)
      reads this
    {
      && dataSource == SourceOf(result)
      && match kind
         case AuthorList =>
           && isAuthorSearch && !noRatings
           && author == Or(Get(result, "author"), Str(inputAuthor))
           && books == Get(result, "books")
           && ratings == [] && Described() == Narrative(Undefined, Undefined, Undefined, Undefined, Undefined, Undefined)
           && averageScore.None? && recommendation.None?
         case RatedBook =>
           && !isAuthorSearch && !noRatings
           && author == Or(Get(result, "author"), Str(UnknownAuthor))
           && books == Undefined
           && Get(result, "ratings").Arr? && ratings == Get(result, "ratings").items && |ratings| > 0
           && Described() == NarrativeOf(result)
           && averageScore == Some(Average(ratings)) && recommendation == Some(Label(TierOf(Average(ratings))))
         case UnratedBook =>
           && !isAuthorSearch && noRatings
           && author == Get(result, "author") && books == Undefined
           && ratings == [] && Described() == NarrativeOf(result)
           && averageScore.None? && recommendation.None?
    }

    /** The record of lines 157-163: the three inputs, an empty author and no
        ratings; every other field is still absent. */
    constructor (title: string, simplified: string, bookAuthor: string)
      ensures originalTitle == title && simplifiedTitle == simplified && inputAuthor == bookAuthor
      ensures Initial()
    {
      originalTitle, simplifiedTitle, inputAuthor := title, simplified, bookAuthor;
      author, ratings := Str(""), [];
      isAuthorSearch, noRatings := false, false;
      books, dataSource := Undefined, Undefined;
      titleEn, authorEn, mainIdeal := Undefined, Undefined, Undefined;
      summaries, keyQuestions, simpleExplanation := Undefined, Undefined, Undefined;
      averageScore, recommendation := None, None;
    }

    /** What each branch of lines 199-233 leaves in the record, every field
        it does not assign keeping its value. */
    twostate predicate ClassifiedAs(rt: Runtime, result: map<string, JsValue>, kind: Kind)
      reads this
    {
      && averageScore == old(averageScore) && recommendation == old(recommendation)
      && dataSource == SourceOf(result)
      && match kind
         case AuthorList =>
           && isAuthorSearch && noRatings == old(noRatings)
           && author == Or(Get(result, "author"), Str(inputAuthor))
           && books == Get(result, "books")
           && ratings == old(ratings) && Described() == old(Described())
         case RatedBook =>
           && isAuthorSearch == old(isAuthorSearch) && noRatings == old(noRatings)
           && author == Or(Get(result, "author"), Str(UnknownAuthor))
           && books == old(books)
           && Get(result, "ratings").Arr? && ratings == Get(result, "ratings").items
           && Described() == NarrativeOf(result)
         case UnratedBook =>
           && isAuthorSearch == old(isAuthorSearch) && noRatings
           && author == Get(result, "author")
           && books == old(books)
           && ratings == old(ratings) && Described() == NarrativeOf(result)
    }

    /** The classification of lines 199-233: the branch taken is the one
        `ClassOf` names, the record is filled in as that branch says and
        its ratings stay normalised; a result of no shape changes nothing. */
    method Classify(rt: Runtime, result: map<string, JsValue>) returns (kind: Option<Kind>)
      requires Valid(rt) && RatingsNormalized(rt, result)
      modifies this
      ensures kind == ClassOf(rt, result)
      ensures Valid(rt)
      ensures kind.Some? ==> ClassifiedAs(rt, result, kind.value)
      ensures kind.None? ==> unchanged(this)
    {
      if HasItems(rt, Get(result, "books")) {
        SetAuthorList(Or(Get(result, "author"), Str(inputAuthor)), Get(result, "books"), SourceOf(result));
        return Some(AuthorList);
      } else if HasItems(rt, Get(result, "ratings")) {
        ClassOfSpec(rt, result);
        ratings := Get(result, "ratings").items;
        author := Or(Get(result, "author"), Str(UnknownAuthor));
        SetNarrative(NarrativeOf(result), SourceOf(result));
        return Some(RatedBook);
      } else if Truthy(Get(result, "title")) && Truthy(Get(result, "author")) {
        noRatings := true;
        author := Get(result, "author");
        SetNarrative(NarrativeOf(result), SourceOf(result));
        return Some(UnratedBook);
      }
      return None;
    }

    /** The author-list branch, lines 201-206. */
    method SetAuthorList(bookAuthor: JsValue, authorBooks: JsValue, source: JsValue)
      modifies this
      ensures isAuthorSearch && author == bookAuthor && books == authorBooks && dataSource == source
      ensures noRatings == old(noRatings) && ratings == old(ratings) && Described() == old(Described())
      ensures averageScore == old(averageScore) && recommendation == old(recommendation)
    {
      isAuthorSearch := true;
      author := bookAuthor;
      books := authorBooks;
      dataSource := source;
    }

    /** The narrative and source assignments shared by the two single-book
        branches. */
    method SetNarrative(narrative: Narrative, source: JsValue)
      modifies this
      ensures Described() == narrative && dataSource == source
      ensures author == old(author) && ratings == old(ratings)
      ensures isAuthorSearch == old(isAuthorSearch) && noRatings == old(noRatings) && books == old(books)
      ensures averageScore == old(averageScore) && recommendation == old(recommendation)
    {
      titleEn, authorEn, mainIdeal := narrative.titleEn, narrative.authorEn, narrative.mainIdeal;
      summaries, keyQuestions := narrative.summaries, narrative.keyQuestions;
      simpleExplanation := narrative.simpleExplanation;
      dataSource := source;
    }

    /** calculateAverageAndRecommendation, lines 641-667: nothing for an
        empty list; otherwise the refill (which leaves normalised ratings as
        they are), the one-decimal average of the scores and the tier it
        falls in. */
    method CalculateAverageAndRecommendation(rt: Runtime)
      requires Valid(rt)
      modifies this
      ensures ratings == old(ratings)
      ensures |ratings| == 0 ==> averageScore == old(averageScore) && recommendation == old(recommendation)
      ensures |ratings| > 0 ==>
        averageScore == Some(Average(ratings)) && recommendation == Some(Label(TierOf(Average(ratings))))
      ensures author == old(author)
      ensures isAuthorSearch == old(isAuthorSearch) && noRatings == old(noRatings) && books == old(books)
      ensures Described() == old(Described()) && dataSource == old(dataSource)
    {
      if |ratings| == 0 {
        return;
      }
      var entries := ratings;
      for i := 0 to |entries|
        invariant entries == old(ratings) && unchanged(this)
      {
        FillNormalizedEntry(rt, entries[i]);
        entries := entries[i := FillEntry(rt, entries[i])];
      }
      ghost var scores := Scores(entries);
      var totalScore := Finite(0.0);
      for i := 0 to |entries|
        invariant totalScore == Sum(scores[..i]) && unchanged(this)
      {
        SumStep(scores, i);
        totalScore := Add(totalScore, ScoreOf(entries[i]));
      }
      assert scores[..|entries|] == scores;
      var avgScore := Round1(Div(totalScore, Finite(|entries| as real)));
      ratings := entries;
      averageScore := Some(avgScore);
      recommendation := Some(Label(TierOf(avgScore)));
    }
  }

  /** What the search ends with on screen: the alert or error notice, or
      the display routine the outcome selects. Errors that routine itself
      may throw while drawing are not part of this model. */
  datatype Screen =
    | Alert(message: string)         // lines 139-147: no search made
    | AuthorResults                  // lines 169-170
    | NoRatingsResults               // lines 171-172
    | RatedResults                   // lines 173-177
    | ErrorNotice(message: string)   // lines 180-186

  const NoInputAlert := "請至少輸入書名或作者"
  const NoPlatformAlert := "請至少選擇一個查詢平台"

  /** searchAllPlatforms as a value, lines 191-241: the missing key, the
      model's failure, the not-found error, or the result and its shape. */
  function SearchOutcome(rt: Runtime, endpoint: Endpoint, apiKey: string, title: string, author: string,
                         platforms: seq<string>): Result<(map<string, JsValue>, Kind), Failure> {
    if apiKey == "" then Failure(MissingApiKey)
    else match GeminiResult(rt, endpoint, title, author, platforms)
      case Failure(f) => Failure(f)
      case Success(result) =>
        match ClassOf(rt, result)
        case None => Failure(NoRatingData)
        case Some(kind) => Success((result, kind))
  }

  /** searchBook as a value, lines 134-188, on the trimmed inputs. */
  function ScreenFor(rt: Runtime, endpoint: Endpoint, apiKey: string, title: string, author: string,
                     platforms: seq<string>): Screen {
    if title == "" && author == "" then Alert(NoInputAlert)
    else if |platforms| == 0 then Alert(NoPlatformAlert)
    else match SearchOutcome(rt, endpoint, apiKey, title, author, platforms)
      case Failure(f) => ErrorNotice(UserNotice(ErrorMessage(f)))
      case Success((_, kind)) =>
        match kind
        case AuthorList => AuthorResults
        case UnratedBook => NoRatingsResults
        case RatedBook => RatedResults
  }

  /** A search outcome never fails with the truncation hint; a success
      carries normalised ratings and the shape `ClassOf` gives, and a rated
      book always has a non-empty list of ratings. */
  lemma SearchOutcomeSpec(rt: Runtime, endpoint: Endpoint, apiKey: string, title: string, author: string,
                          platforms: seq<string>)
    ensures var o := SearchOutcome(rt, endpoint, apiKey, title, author, platforms);
      && (o == Failure(MissingApiKey) <==> apiKey == "")
      && o != Failure(TruncatedJson)
      && (o.Success? ==>
            && RatingsNormalized(rt, o.value.0)
            && ClassOf(rt, o.value.0) == Some(o.value.1)
            && (o.value.1 == RatedBook ==>
                  Get(o.value.0, "ratings").Arr? && |Get(o.value.0, "ratings").items| > 0))
  {
    var prompt := BuildPrompt(title, author, platforms);
    if apiKey != "" && endpoint(prompt).Success? {
      ReplyResultSpec(rt, endpoint(prompt).value);
      var r := ReplyResult(rt, endpoint(prompt).value);
      if r.Success? {
        ClassOfSpec(rt, r.value);
      }
    }
  }

  /** A search is refused exactly when both inputs are blank or no platform
      is chosen, with the message for the first of the two that applies;
      without an API key every search that is made ends on the generic
      notice. */
  lemma ScreenForRefusals(rt: Runtime, endpoint: Endpoint, apiKey: string, title: string, author: string,
                          platforms: seq<string>)
    ensures var screen := ScreenFor(rt, endpoint, apiKey, title, author, platforms);
      && (screen == Alert(NoInputAlert) <==> title == "" && author == "")
      && (screen == Alert(NoPlatformAlert) <==> (title != "" || author != "") && |platforms| == 0)
      && (screen.Alert? <==> (title == "" && author == "") || |platforms| == 0)
      && (!screen.Alert? && apiKey == "" ==> screen == ErrorNotice(GenericNotice))
  {
    if apiKey == "" {
      UserNoticeSpec(MissingApiKey);
    }
  }

  /** A search that is made uses a title or an author search mode, never
      the empty one, and never the default platform list, since a platform
      is always chosen. */
  lemma ScreenForPrompt(rt: Runtime, endpoint: Endpoint, apiKey: string, title: string, author: string,
                        platforms: seq<string>)
    requires !ScreenFor(rt, endpoint, apiKey, title, author, platforms).Alert?
    ensures SelectSearchType(title, author) != Unset
    ensures Fixed(DefaultPlatforms) !in BuildPrompt(title, author, platforms)
  {
    SelectSearchTypeSpec(title, author);
    BuildPromptDefaultPlatforms(title, author, platforms);
  }

  /** The not-found notice is shown exactly when the result has no usable
      shape, or when a request error's own text carries its marker. */
  lemma ScreenForNotFound(rt: Runtime, endpoint: Endpoint, apiKey: string, title: string, author: string,
                          platforms: seq<string>)
    requires !ScreenFor(rt, endpoint, apiKey, title, author, platforms).Alert?
    ensures var o := SearchOutcome(rt, endpoint, apiKey, title, author, platforms);
      ScreenFor(rt, endpoint, apiKey, title, author, platforms) == ErrorNotice(NotFoundNotice) <==>
        o.Failure? && (o.error == NoRatingData || (o.error.RequestFailed? && Contains(o.error.message, NotFoundMarker)))
  {
    var o := SearchOutcome(rt, endpoint, apiKey, title, author, platforms);
    if o.Failure? {
      UserNoticeSpec(o.error);
    }
  }

  /** The page state: the API key from the settings and the current record
      (`null` stands for the `{}` of line 2, which nothing reads before the
      first search replaces it). */
  class App {
    var apiKey: string
    var bookData: BookRecord?

    constructor (key: string)
      ensures apiKey == key && bookData == null
    {
      apiKey := key;
      bookData := null;
    }

    /** searchAllPlatforms, lines 191-241: on failure the record is left as
        it was; on success it is filled in for the result's shape. The
        simplified title is passed along but not used. */
    method SearchAllPlatforms(rt: Runtime, endpoint: Endpoint, originalTitle: string, simplifiedTitle: string,
                              inputAuthor: string, selectedPlatforms: seq<string>) returns (failure: Option<Failure>)
      requires bookData != null && bookData.Valid(rt)
      modifies bookData
      ensures var o := SearchOutcome(rt, endpoint, apiKey, originalTitle, inputAuthor, selectedPlatforms);
        && (failure.None? <==> o.Success?)
        && (o.Failure? ==> failure == Some(o.error) && unchanged(bookData))
        && (o.Success? ==> bookData.ClassifiedAs(rt, o.value.0, o.value.1))
      ensures bookData.Valid(rt)
    {
      if apiKey == "" {
        return Some(MissingApiKey);
      }
      var result := SearchWithGeminiAI(rt, endpoint, originalTitle, inputAuthor, selectedPlatforms);
      if result.Failure? {
        return Some(result.error);
      }
      var kind := bookData.Classify(rt, result.value);
      if kind.None? {
        return Some(NoRatingData);
      }
      return None;
    }

    /** searchBook, lines 134-188: the inputs trimmed, then the search. */
    method SearchBook(rt: Runtime, endpoint: Endpoint, titleInput: string, authorInput: string,
                      selectedPlatforms: seq<string>) returns (screen: Screen)
      modifies this
      ensures screen == ScreenFor(rt, endpoint, apiKey, Trim(titleInput), Trim(authorInput), selectedPlatforms)
      ensures apiKey == old(apiKey)
      ensures screen.Alert? ==> bookData == old(bookData)
      ensures !screen.Alert? ==>
        && bookData != null && fresh(bookData) && bookData.Valid(rt)
        && bookData.originalTitle == Trim(titleInput)
        && bookData.simplifiedTitle == Simplified(Trim(titleInput))
        && bookData.inputAuthor == Trim(authorInput)
      ensures screen.ErrorNotice? ==> bookData != null && bookData.Initial()
      ensures var o := SearchOutcome(rt, endpoint, apiKey, Trim(titleInput), Trim(authorInput), selectedPlatforms);
        !screen.Alert? && !screen.ErrorNotice? ==>
          o.Success? && bookData != null && bookData.Filled(o.value.0, o.value.1)
    {
      var bookTitle := Trim(titleInput);
      var bookAuthor := Trim(authorInput);
      screen := Search(rt, endpoint, bookTitle, bookAuthor, selectedPlatforms);
    }

    /** Lines 139-187 on the trimmed inputs: the refusals, a fresh record
        for the search, and the screen the search ends on; a rated book
        gets its average and recommendation, a failed search leaves the
        fresh record as it was created, and a successful one leaves in it
        what the classification of the result object puts there. */
    method Search(rt: Runtime, endpoint: Endpoint, bookTitle: string, bookAuthor: string,
                  selectedPlatforms: seq<string>) returns (screen: Screen)
      modifies this
      ensures screen == ScreenFor(rt, endpoint, apiKey, bookTitle, bookAuthor, selectedPlatforms)
      ensures apiKey == old(apiKey)
      ensures screen.Alert? ==> bookData == old(bookData)
      ensures !screen.Alert? ==>
        && bookData != null && fresh(bookData) && bookData.Valid(rt)
        && bookData.originalTitle == bookTitle
        && bookData.simplifiedTitle == Simplified(bookTitle)
        && bookData.inputAuthor == bookAuthor
      ensures screen.ErrorNotice? ==> bookData != null && bookData.Initial()
      ensures var o := SearchOutcome(rt, endpoint, apiKey, bookTitle, bookAuthor, selectedPlatforms);
        !screen.Alert? && !screen.ErrorNotice? ==>
          o.Success? && bookData != null && bookData.Filled(o.value.0, o.value.1)
    {
      if bookTitle == "" && bookAuthor == "" {
        return Alert(NoInputAlert);
      }
      if |selectedPlatforms| == 0 {
        return Alert(NoPlatformAlert);
      }
      var simplifiedTitle := ConvertToSimplified(bookTitle);
      var record := new BookRecord(bookTitle, simplifiedTitle, bookAuthor);
      bookData := record;
      SearchOutcomeSpec(rt, endpoint, apiKey, bookTitle, bookAuthor, selectedPlatforms);
      var failure := SearchAllPlatforms(rt, endpoint, bookTitle, simplifiedTitle, bookAuthor, selectedPlatforms);
      if failure.Some? {
        return ErrorNotice(UserNotice(ErrorMessage(failure.value)));
      }
      if record.isAuthorSearch {
        return AuthorResults;
      } else if record.noRatings {
        return NoRatingsResults;
      }
      record.CalculateAverageAndRecommendation(rt);
      return RatedResults;
    }
  }
}
