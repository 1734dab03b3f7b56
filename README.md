# Book rating search: a Dafny model of the search core of `script.js`

The page asks a text-generation model (Gemini) for the ratings of a book, or
for the books of an author, on a set of Chinese and English review
platforms. It reads the model's reply, puts every rating on a ten-point
scale, averages the ratings and gives a recommendation tier. It also offers
search links to shops and rating platforms. This project models the logic
between the input boxes and the result screens, and proves what it
promises:

- **Search modes and prompt** (`Prompt`). Title and author select
  `specific_book`, `book_only` or `author_books`. The selected platforms
  become a numbered list, and the default priority list is used only when
  no platform was chosen. The long fixed passages of the two prompt
  templates are named constants.
- **Reading the reply envelope** (`Envelope`). The text is taken from the
  first truthy field among `parts[0].text`, `text`, `message.content`,
  `output` and `response`. A reply cut off at `MAX_TOKENS` is refused
  before any parsing.
- **Reply to result object** (`ReplyParsing`). This step:
  - strips the markdown fences;
  - takes the span from the first `{` to the last `}`;
  - appends the missing closing braces;
  - parses the text with `JSON.parse`, which is a parameter;
  - normalises every top-level rating.
- **Ratings** (`Ratings`). A rating is rescaled to ten points. The average
  is rounded to one decimal as `toFixed(1)` does, and falls into one of four
  tiers. An author's book card scores its own ratings the same way.
- **Classification and the search flow** (`Search`):
  - a `BookRecord` class holds the `bookData` record that a search fills in
    as an author list, a rated book or an unrated book;
  - an `App` class runs `searchBook`, which refuses bad input, builds a
    fresh record, searches, and picks the display routine for the outcome
    (or the error notice). Errors thrown while that routine draws the page
    are not modelled;
  - the failure messages are modelled in `Gateway`.
- **Traditional to Simplified conversion** (`Simplify`). It uses the fixed
  thirty-entry table, applied one global replace at a time.
- **Link builders** (`Links`). These are the shop links and the per-platform
  rating search page, with its English query and its `'#'` fallback.

JavaScript's own rules are written out in `JsValues`:

- truthiness, `||` and property reads;
- ToNumber;
- NaN arithmetic.

`Text` holds the string operations the script uses (`trim`, `split`,
`join`, `includes`, `\s+` collapsing, counting).

The library functions are parameters, bundled in a `Runtime` value:

- `JSON.parse`;
- ToNumber of a string;
- `encodeURIComponent`.

The call to the model is an `Endpoint` parameter that maps the prompt to
the decoded envelope or to an error message.

## Model

| member | source | states |
|---|---|---|
| Simplify.ConvertToSimplified | script.js:40-56 | Applying the table entries in order, one global replace each, yields the per-character Simplified form of the text. |
| Simplify.Lookup | script.js:42-48 | A character outside the table maps to itself; a table character maps to the value of an entry whose key it is. |
| Simplify.ReplaceChar | script.js:53 | One global replace keeps the length, turns every occurrence of the key into its value and keeps every other character. |
| Simplify.TableWellFormed | script.js:42-48 | The table has thirty entries, no two share a key, and no Simplified value is itself a key. |
| Simplify.ApplyEntriesIsLookup | script.js:51-54 | Applying the entries one after another gives the same character as a single table lookup, because no value is a key. |
| Simplify.SimplifiedSpec | script.js:40-56 | The conversion keeps the length, leaves every character outside the table unchanged and maps each table character to its Simplified form. |
| Simplify.SimplifiedIdempotent | script.js:40-56 | Converting twice gives the same text as converting once. |
| Prompt.SelectSearchTypeSpec | script.js:248-260 | Each search mode is chosen exactly when its inputs are given: both, title only, author only, or neither. |
| Prompt.SearchQueryNamesInputs | script.js:248-260 | The query begins with the title label and the title when a title is given, and contains the author label and the author when an author is given. |
| Prompt.SearchQueryTellsAuthorSearch | script.js:248-260 | The query starts with the author label exactly in an author search. |
| Prompt.NumberedListLines | script.js:310 | When no platform name holds a line break, the numbered list splits into one line per platform, in order, numbered from 1. |
| Prompt.NumberedListNames | script.js:310 | Every selected platform appears in the numbered list. |
| Prompt.PlatformsLineNames | script.js:265-267 | Every selected platform appears in the platform line of the author template. |
| Prompt.PlatformInstructionsName | script.js:307-312 | With platforms selected, the platform instructions are one spliced text naming every selected platform. |
| Prompt.BuildPromptOpening | script.js:270-328 | Both templates start with the same opening, followed by the author in an author search and by the search query otherwise. |
| Prompt.BuildPromptDefaultPlatforms | script.js:307-326 | The default platform list is in the prompt exactly when no platform is selected and the search is not an author search. |
| Prompt.BuildPromptNamesPlatform | script.js:265-312 | In either template, the fourth piece is spliced text that names every selected platform. |
| Envelope.FirstPresentSpec | script.js:456-459 | There is no first truthy field exactly when no field is truthy; the first truthy field is preceded only by falsy fields. |
| Envelope.ContentTextIsFirstPresent | script.js:447-470 | The content probe returns the first truthy field among `parts[0].text`, `text`, `message.content`, `output` and `response`; the `role == 'model'` branch never decides the result. |
| Envelope.ReplyTextSpec | script.js:435-480 | The format error is raised exactly when `candidates[0].content` is missing. The unreadable-content error is raised exactly when no text field is truthy. The truncation error is raised exactly when a text exists and the finish reason is `MAX_TOKENS`. A text that gets through is the first truthy field, is not empty, and its finish reason is not `MAX_TOKENS`. |
| ReplyParsing.RemoveOpeningFencesKeepsBraces | script.js:489 | Removing the opening fences and the space after them removes no brace. |
| ReplyParsing.RemoveClosingFenceIsPrefix | script.js:489 | Removing the closing fence leaves a prefix of the text. |
| ReplyParsing.RemoveClosingFenceKeepsBraces | script.js:489 | Removing the closing fence and its trailing space removes no brace. |
| ReplyParsing.StripFencesKeepsBraces | script.js:488-490 | Fence stripping keeps the number of `{` and of `}`. |
| ReplyParsing.ExtractSpanSpec | script.js:493-496 | A span is found exactly when some `{` comes before some `}`; it then starts with `{` and ends with `}`. |
| ReplyParsing.SpanDecomposition | script.js:493-498 | The span is the text with a margin cut from each end: no `{` in the margin before it and no `}` in the margin after it. |
| ReplyParsing.RepairBraces | script.js:501-521 | The repair loop, which appends one `}` per turn, produces the repaired text. |
| ReplyParsing.QuoteFixIdleOnSpan | script.js:505-514 | The closing-quote insertion never fires on a span, because the trimmed last line of a text ending in `}` ends in `}`. |
| ReplyParsing.ClosingBalances | script.js:517-519 | Appending as many `}` as are missing balances the braces. |
| ReplyParsing.RepairedSpan | script.js:498-521 | A span with no brace deficit is passed on unchanged. Otherwise the result is the span followed by exactly the missing `}`, and its braces balance. |
| ReplyParsing.NormalizeReplySpec | script.js:526-530 | Normalisation fails exactly when `ratings` is truthy and is either not a list or holds a nullish entry. Otherwise only `ratings` changes: it keeps its length and every entry carries its normalised score. |
| ReplyParsing.ParseReply | script.js:484-532 | The parsing steps as the script runs them yield the result of the pipeline: fences, span, repair, parse, normalisation. |
| ReplyParsing.ParsedTextShape | script.js:484-523 | The text handed to `JSON.parse` starts with the span of the unfenced reply. It is the span itself when no brace is missing, and has balanced braces otherwise. |
| Ratings.NormalizeRatingExact | script.js:556-558 | On numbers with a non-zero scale the result is `rating / maxRating * 10`. A full score gives 10, and a rating within its scale gives a value in [0, 10]. |
| Ratings.NormalizedEntriesSpec | script.js:526-530 | The `forEach` fails exactly on a nullish entry. Otherwise it keeps the length and the non-object entries. Each object keeps every other field and gains `normalizedRating` and no other key. Every entry ends up normalised. |
| Ratings.NormalizeRatings | script.js:527-529 | The in-place walk over the list gives the normalised list, or fails at the first nullish entry. |
| Ratings.FillNormalizedEntry | script.js:647-651 | The refill of a falsy `normalizedRating` leaves an already normalised entry unchanged. |
| Ratings.SumOnScale | script.js:654 | The sum of n scores in [0, 10] is a number in [0, 10n]. |
| Ratings.SumNaN | script.js:654 | One NaN score makes the total NaN. |
| Ratings.MeanOnScale | script.js:655 | The mean of a non-empty list of scores in [0, 10] is in [0, 10]. |
| Ratings.Round1 | script.js:655-658 | One-decimal rounding gives NaN exactly for NaN. |
| Ratings.Round1Close | script.js:655-658 | Below 10^21 in magnitude, the result is a whole number of tenths, the nearest one, with a tie going away from zero: within (v - 0.05, v + 0.05] for v ≥ 0 and within [v - 0.05, v + 0.05) for v < 0. From 10^21 on the value is kept. |
| Ratings.Round1Monotone | script.js:655-658 | Rounding keeps the order of values. |
| Ratings.TierMonotone | script.js:659-667 | A higher average never gets a lower tier, before or after rounding. |
| Ratings.AverageWithinScale | script.js:653-658 | The rounded average of ratings on the ten-point scale lies in [0, 10]. |
| Ratings.RawScoreIsScore | script.js:890-891 | A card's per-entry value is the score of the normalised entry, and none exists exactly for a nullish entry. |
| Ratings.TotalRawScore | script.js:886-894 | The card's loop fails exactly when the normalisation would fail; otherwise its total is the sum of the normalised scores. |
| Ratings.ScoreAuthorBook | script.js:886-906 | A card with no ratings is unrated. Otherwise its score is the rounded mean of the normalised scores, with the tier of that mean, as for a single book. Ratings that are not a list, or that hold a nullish entry, make the card throw. |
| Gateway.UserNoticeSpec | script.js:180-186 | The not-found notice is shown exactly for the no-rating-data failure, or for a request error whose own text carries the marker; every other failure gets the generic notice. |
| Gateway.MessageLacksMarker | script.js:191-241 | No failure message except the no-rating-data one and request errors carries the not-found marker, with or without the `查詢失敗: ` prefix. |
| Gateway.ReplyResultSpec | script.js:435-547 | A reply fails on its envelope exactly when the envelope probe fails. A parse failure carries the short-reply hint exactly when the text is under 100 characters. The truncation hint is never given. A result that gets through has its ratings normalised. |
| Gateway.SearchWithGeminiAI | script.js:244-553 | The request and reply handling give the model's result for the prompt, and a successful result has normalised ratings. |
| Search.ClassOfSpec | script.js:199-233 | On a normalised result, a rated book is one that is not an author list and has a non-empty ratings list whose entries are all normalised. An unrated book has no ratings. A result of no shape lacks a truthy title or author. |
| Search.AverageSpec | script.js:653-667 | The average of ratings on the ten-point scale is in [0, 10]. It is highly recommended exactly from 8.5, and not recommended exactly below 6.0. |
| Search.BookRecord.constructor | script.js:157-163 | A new record holds the three inputs and is in its initial state: an empty author, no ratings, neither flag set, and every other field absent. |
| Search.BookRecord.Classify | script.js:199-236 | The branch taken is the one the classification names, and the record is filled in as that branch says. Ratings stay normalised, and a result of no shape changes nothing. |
| Search.BookRecord.SetAuthorList | script.js:201-206 | The author-list branch sets the author, the books, the source and the author-search flag, and changes nothing else. |
| Search.BookRecord.SetNarrative | script.js:212-218 | The six descriptive fields and the source are set, and every other field keeps its value. |
| Search.BookRecord.CalculateAverageAndRecommendation | script.js:641-668 | An empty list leaves the record as it was. Otherwise the average is the rounded mean of the scores and the recommendation is the label of its tier; the ratings and every other field are kept. |
| Search.SearchOutcomeSpec | script.js:191-241 | The missing-key failure occurs exactly without a key, and the truncation hint never occurs. A success carries normalised ratings and the shape the classification gives, and a rated book has at least one rating. |
| Search.ScreenForRefusals | script.js:139-147 | A search is refused exactly when both inputs are blank or no platform is chosen, with the message of the first check that fails. Without an API key, every search that is made ends on the generic notice. |
| Search.ScreenForPrompt | script.js:139-147 | A search that is made never uses the empty search mode or the default platform list. |
| Search.ScreenForNotFound | script.js:180-186 | A search ends on the not-found notice exactly when the result has no usable shape, or when a request error's text carries the marker. |
| Search.App.constructor | script.js:1-10 | The page starts with the stored API key and no record. |
| Search.App.SearchAllPlatforms | script.js:191-241 | A failure is reported exactly when the outcome is a failure, and leaves the record untouched. On success the record is filled in for the result's shape and stays normalised. |
| Search.App.SearchBook | script.js:134-188 | After trimming the inputs, the screen is the one the search outcome determines. A search that is made gets a fresh record of the trimmed inputs and their Simplified title; a refused one leaves the record as it was. After an error the record is still in its initial state. After any result screen it holds exactly what the classification of the result object puts there: source, author, books, ratings, both flags, the narrative fields, and for a rated book the rounded average and its tier label. |
| Search.App.Search | script.js:139-178 | The screen follows from the refusals and the outcome. The fresh record holds the inputs and the Simplified title. After a failure the record is still in its initial state. After a result screen the outcome was a success and the record holds what the classification of its result object puts there: source; author with its fallback; books for an author; the non-empty ratings list, the rounded average and its tier label for a rated book; the flags; and the narrative fields. |
| Links.SpacedPairSpec | script.js:571 | The joined query is the first part alone when the second is empty; otherwise it is the first part, one blank and the second part. |
| Links.TrimmedTidy | script.js:563-566 | Trimming a text whose spaces are single, non-adjacent blanks leaves a text with no space at either end and only single, non-adjacent blanks. |
| Links.CleanTitleTidy | script.js:563-566 | A cleaned title has no space at either end, and its only spaces are single blanks. It keeps, in order, the words left after the placeholder is removed, with one blank between two words, and so every character other than space. A title without the placeholder keeps all of its words. |
| Links.CleanAuthorSpec | script.js:569 | A cleaned author has no space at either end. It keeps, in order, the words and every character other than space that are left after the placeholder is removed. |
| Links.PlaceholderCanSurvive | script.js:564 | Removal is one left-to-right pass: in `資訊資訊不足不足` the placeholder that forms after the inner one is cut out stays. |
| Links.PurchaseQuerySpec | script.js:569-571 | The purchase query starts with the cleaned title, and is the cleaned title alone when no author survives cleaning. |
| Links.ShopLinksSpec | script.js:574-595 | There are five shop links, in a fixed platform order, and each carries the encoded query. |
| Links.RatingQuerySpec | script.js:602-614 | An English platform with an English title searches that title and the English author, falling back to the original author. Every other search uses the original title and author. |
| Links.SearchPageSpec | script.js:618-637 | An unknown platform gets `'#'`; each of the nine known names gets a search page that carries the encoded query. |
| Links.RatingPlatformUrlAliases | script.js:618-630 | `豆瓣`/`豆瓣讀書`, `Amazon`/`Amazon Books` and `讀墨`/`Readmoo` lead to the same link. |
| Text.TrimSpec | script.js:135-136 | `trim` removes exactly the leading and trailing space, and the kept part has no space at either end. |
| Text.TrimKeepsLast | script.js:506 | Trimming a text that ends in a non-space character keeps that character last. |
| Text.SplitLastKeepsEnd | script.js:505-506 | The last line of a text that does not end in a line break is non-empty and ends with the text's last character. |
| Text.CollapseSpacesSpec | script.js:565 | After `\s+` is replaced by one blank, every space is a single blank and no two spaces are adjacent. The words (maximal runs without space) are kept, in order, so every gap between two words becomes exactly one blank. Every other character is kept, in order. The text starts, and ends, with a space exactly when it did before. |
| Text.WordsSpec | script.js:565 | The words of a text are non-empty runs without space, and together they are its characters other than space. |
| Text.TrimKeepsNonSpace | script.js:566 | `trim` keeps every character other than space, in order. |
| Text.TrimKeepsWords | script.js:566 | `trim` keeps the words, in order. |
| Text.RemoveAllIdle | script.js:564 | Removing a pattern that does not occur leaves the text as it is. |
| Text.RemoveAllShrinks | script.js:564 | Removal deletes whole copies of the pattern: the text shrinks by a multiple of its length, and every character left comes from the text. |

## Left out

- DOM rendering and page state are not modelled. This covers the `display*` functions, `createPlatformCard`, the HTML of `createAuthorBookCard`, `showLoading`/`showError`, `toggleSettings`, `updateModelInfo`, `initializePlatformSelection` and `updatePlatformSelection`. The screens are reduced to the `Screen` datatype, and the selected platforms (`getSelectedPlatforms`) are a parameter.
- The network is left out: `fetch`, the request body and the URL with the key in it. The model version, status codes and `response.json()` are also out. The call is an `Endpoint` parameter that returns the decoded envelope or an error message.
- Saving settings in `localStorage`, and the `alert`/`confirm` prompts of the settings page, are not modelled. The key is a field of `App`.
- Markdown export and download are presentation and file I/O, and are left out.
- Concurrency is left out: overlapping searches writing the global `bookData`, and `async`/`await`.
- Console logging is left out.
- Numbers are exact reals. A single `NaN` value stands for every non-finite result, so infinities and the quirks of IEEE-754 rounding are not modelled. A zero scale gives NaN rather than an infinity.
- `Round1` follows the decimal rule of `toFixed(1)` on the exact value, not the binary double, so results can differ right at a tie.
- ToNumber of an array or object operand is taken as NaN. ToNumber of a string is a `Runtime` parameter.
- `Ratings.ScoreOf` reads a `normalizedRating` that is not a number as NaN. `+` on a string would concatenate instead, but every entry it reads has been normalised to a number.
- The envelope's fields are strings or absent. Payloads of other types, such as a `parts[0].text` that is an object, are not modelled.
- String lengths count characters, not UTF-16 code units. This matters for the 100-character hint and for the character table, where every character is in the Basic Multilingual Plane.
- Regular expressions are modelled on their literal patterns: the fence patterns, the brace span, `\s+` and the per-character replace. `JSON.parse` is a parameter. It returns an object or fails, so the `if (result)` guard of line 199 always passes.
- Search.BookRecord.CalculateAverageAndRecommendation: `averageScore` is kept as the number that the stored `toFixed(1)` text reads back as, not as the text.
- Search.App.SearchAllPlatforms: the Simplified title is passed in but not used. The query sends the original title, as the script does.
- The error `AI 回應中未找到有效的 JSON 格式` (no span found) is caught by the parse handler and replaced by its generic message. The model produces that generic message rather than the discarded one.
- Three branches of the script can never be taken, and the model proves it:
  - the `role == 'model'` probe (see `Envelope.ContentTextIsFirstPresent`);
  - the closing-quote repair (see `ReplyParsing.QuoteFixIdleOnSpan`);
  - the truncation hint of the parse handler (see `Gateway.ReplyResultSpec`).
- Errors thrown while a result screen is drawn are not modelled. `searchBook`'s catch (lines 180-186) turns them into the generic error notice, but `Search.ScreenFor` names only the display routine that the outcome selects. These are the `TypeError`s of a result object whose fields have the wrong type:
  - `bookData.books.forEach` (line 765) when `books` is not an array;
  - `book.ratings.forEach` (line 890) when an author's book is nullish or has no ratings list, and `rating.rating` when one of its entries is nullish;
  - `summaries`/`keyQuestions` `.forEach` (lines 693, 707, 800, 814) when the field has a positive length but is not an array;
  - `rating.normalizedRating.toFixed` (line 850) for a rating entry that is not an object;
  - `author.replace` (line 569, called from line 731) when an unrated book's author is a truthy value that is not a string;
  - a `URIError` from `encodeURIComponent`, which is a total `Runtime` parameter here.
- `bookData` starts as `{}` (line 2). The model starts it as `null`, because no reader looks at it before the first search replaces it.
- The default platform list in the prompt can never be used from `searchBook` (see `Search.ScreenForPrompt`).
