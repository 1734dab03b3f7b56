/** One request to the model and the reading of its reply
    (searchWithGeminiAI, script.js:245-553), and the messages a failed
    search ends with (script.js:191-241 and 180-186). */
module Gateway {
  import opened Wrappers
  import opened Text
  import opened JsValues
  import opened Ratings
  import opened Envelope
  import opened ReplyParsing
  import opened Prompt

  /** The endpoint call of lines 401-433: the decoded envelope, or the
      message of the error it threw (a failed fetch, a status other than OK,
      a body that is not JSON). */
  type Endpoint = seq<Piece> -> Result<Reply, string>

  /** Why a search failed. */
  datatype Failure =
    | MissingApiKey                        // line 193
    | RequestFailed(message: string)       // lines 426-430, or any error of the call itself
    | EnvelopeFailed(error: EnvelopeError) // lines 435-480
    | MalformedJson(tooShort: bool)        // lines 538-541
    | TruncatedJson                        // lines 542-543
    | NoRatingData                         // line 236

  /** The message each failure is thrown with. */
  function FailureMessage(f: Failure): string {
    match f
    case MissingApiKey => "請先設定 Gemini API 金鑰"
    case RequestFailed(message) => message
    case EnvelopeFailed(ResponseFormat) => "API 回應格式錯誤"
    case EnvelopeFailed(UnreadableContent) => "無法解析 AI 回應內容格式"
    case EnvelopeFailed(Truncated) => "AI 回應被截斷，請稍後重試或使用更簡潔的查詢"
    case MalformedJson(tooShort) =>
      "AI 回應格式錯誤，無法解析 JSON" + (if tooShort then "（回應過短，可能查詢失敗）" else "")
    case TruncatedJson => "AI 回應被截斷，請稍後重試"
    case NoRatingData => "AI " + NotFoundMarker
  }

  const FailurePrefix := "查詢失敗: "

  /** The message searchBook's handler sees: every failure but the missing
      key is thrown inside the `try` of lines 196-240 and rethrown with the
      prefix. */
  function ErrorMessage(f: Failure): string {
    if f == MissingApiKey then FailureMessage(f) else FailurePrefix + FailureMessage(f)
  }

  const NotFoundMarker := "未找到任何評分資料"
  const NotFoundNotice := "找不到這本書的評分資料，請檢查書名是否正確或嘗試輸入作者名稱"
  const GenericNotice := "查詢過程中發生錯誤，請稍後再試"

  /** The notice shown for an error message, lines 182-186. */
  function UserNotice(message: string): string {
    if Contains(message, NotFoundMarker) then NotFoundNotice else GenericNotice
  }

  /** The not-found notice is shown exactly for a result that fits no shape,
      or for a request error whose own text happens to carry the marker;
      every other failure gets the generic notice. */
  lemma UserNoticeSpec(f: Failure)
    ensures UserNotice(ErrorMessage(f)) == NotFoundNotice <==>
      f == NoRatingData || (f.RequestFailed? && Contains(f.message, NotFoundMarker))
    ensures UserNotice(ErrorMessage(f)) != NotFoundNotice ==> UserNotice(ErrorMessage(f)) == GenericNotice
  {
    if f == NoRatingData {
      OccursInContext(FailurePrefix + "AI ", NotFoundMarker, [], NotFoundMarker, 0);
      assert FailurePrefix + "AI " + NotFoundMarker + [] == ErrorMessage(f);
    } else if f.RequestFailed? {
      ContainsPastPrefix(FailurePrefix, f.message, NotFoundMarker);
    } else {
      MessageLacksMarker(f);
    }
  }

  /** Only the two not-found failures can carry the marker. */
  lemma MessageLacksMarker(f: Failure)
    requires f != NoRatingData && !f.RequestFailed?
    ensures !Contains(ErrorMessage(f), NotFoundMarker)
  {
    var msg := FailureMessage(f);
    assert NotFoundMarker[0] !in msg by {
      match f
      case EnvelopeFailed(e) =>
        EnvelopeMessageLacksMarker(e);
      case MalformedJson(tooShort) =>
        MalformedMessageLacksMarker(tooShort);
      case _ =>
    }
    NotContainsFirst(msg, NotFoundMarker);
    if f != MissingApiKey {
      ContainsPastPrefix(FailurePrefix, msg, NotFoundMarker);
    }
  }

  lemma EnvelopeMessageLacksMarker(e: EnvelopeError)
    ensures NotFoundMarker[0] !in FailureMessage(EnvelopeFailed(e))
  {
  }

  lemma MalformedMessageLacksMarker(tooShort: bool)
    ensures NotFoundMarker[0] !in FailureMessage(MalformedJson(tooShort))
  {
    var head := "AI 回應格式錯誤，無法解析 JSON";
    var hint := if tooShort then "（回應過短，可能查詢失敗）" else "";
    assert NotFoundMarker[0] !in head && NotFoundMarker[0] !in hint;
    assert FailureMessage(MalformedJson(tooShort)) == head + hint;
  }

  /** The error of the parse handler, lines 533-547: the short-reply hint
      comes first, then the truncation hint. */
  function ParseFailure(text: string, finishReason: Option<string>): Failure {
    if |text| < 100 then MalformedJson(true)
    else if finishReason == Some("MAX_TOKENS") then TruncatedJson
    else MalformedJson(false)
  }

  /** Lines 435-549 applied to a decoded envelope. */
  function ReplyResult(rt: Runtime, reply: Reply): Result<map<string, JsValue>, Failure> {
    match ReplyText(reply)
    case Failure(e) => Failure(EnvelopeFailed(e))
    case Success((text, finishReason)) =>
      match ParsedReply(rt, text)
      case None => Failure(ParseFailure(text, finishReason))
      case Some(obj) => Success(obj)
  }

  /** searchWithGeminiAI, lines 245-553, for an endpoint. */
  function GeminiResult(rt: Runtime, endpoint: Endpoint, title: string, author: string,
                        platforms: seq<string>): Result<map<string, JsValue>, Failure> {
    match endpoint(BuildPrompt(title, author, platforms))
    case Failure(message) => Failure(RequestFailed(message))
    case Success(reply) => ReplyResult(rt, reply)
  }

  /** The `ratings` of a result as the normalisation leaves them: falsy, or a
      list of normalised entries. */
  predicate RatingsNormalized(rt: Runtime, result: map<string, JsValue>) {
    var ratings := Get(result, "ratings");
    !Truthy(ratings)
    || (ratings.Arr? && forall i :: 0 <= i < |ratings.items| ==> NormalizedEntry(rt, ratings.items[i]))
  }

  /** A reply fails on its envelope exactly when the envelope probe fails;
      a parse failure carries the short-reply hint exactly for a text under
      100 characters; the truncation hint of lines 542-543 is never given,
      because a `MAX_TOKENS` reply is refused before parsing; and a result
      that gets through has its ratings normalised. */
  lemma ReplyResultSpec(rt: Runtime, reply: Reply)
    ensures forall e :: ReplyResult(rt, reply) == Failure(EnvelopeFailed(e)) <==> ReplyText(reply) == Failure(e)
    ensures ReplyResult(rt, reply) != Failure(TruncatedJson)
    ensures ReplyResult(rt, reply).Failure? && ReplyResult(rt, reply).error.MalformedJson? ==>
      && ReplyText(reply).Success?
      && ParsedReply(rt, ReplyText(reply).value.0).None?
      && (ReplyResult(rt, reply).error.tooShort <==> |ReplyText(reply).value.0| < 100)
    ensures ReplyResult(rt, reply).Success? ==> RatingsNormalized(rt, ReplyResult(rt, reply).value)
  {
    ReplyTextSpec(reply);
    if ReplyText(reply).Success? {
      var text := ReplyText(reply).value.0;
      match ExtractSpan(StripFences(text))
      case None =>
      case Some(span) =>
        match rt.parse(Repaired(span))
        case None =>
        case Some(obj) => NormalizeReplySpec(rt, obj);
    }
  }

  /** searchWithGeminiAI as the script runs it, from building the prompt to
      normalising the parsed ratings. */
  method SearchWithGeminiAI(rt: Runtime, endpoint: Endpoint, bookTitle: string, inputAuthor: string,
                            selectedPlatforms: seq<string>) returns (r: Result<map<string, JsValue>, Failure>)
    ensures r == GeminiResult(rt, endpoint, bookTitle, inputAuthor, selectedPlatforms)
    ensures r.Success? ==> RatingsNormalized(rt, r.value)
  {
    var prompt := BuildPrompt(bookTitle, inputAuthor, selectedPlatforms);
    var response := endpoint(prompt);
    if response.Failure? {
      return Failure(RequestFailed(response.error));
    }
    ReplyResultSpec(rt, response.value);
    var probed := ReplyText(response.value);
    if probed.Failure? {
      return Failure(EnvelopeFailed(probed.error));
    }
    var (aiResponse, finishReason) := probed.value;
    var result := ParseReply(rt, aiResponse);
    if result.None? {
      return Failure(ParseFailure(aiResponse, finishReason));
    }
    return Success(result.value);
  }
}
