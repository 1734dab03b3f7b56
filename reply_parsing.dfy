/** Turning the model's text into the result object (script.js:482-531):
    strip markdown fences, take the outermost brace span, close braces a
    truncated reply left open, parse, and put every rating on the 10-point
    scale. */
module ReplyParsing {
  import opened Wrappers
  import opened Text
  import opened JsValues
  import opened Ratings

  const OpeningFence := "```json"
  const Fence := "```"

  /** `.replace(/```json\s*\/g, '')`: each opening fence goes, together with
      the space that follows it. */
  function RemoveOpeningFences(s: string): string
    decreases |s|
  {
    if s == [] then []
    else if StartsWith(s, OpeningFence) then RemoveOpeningFences(TrimStart(s[|OpeningFence|..]))
    else [s[0]] + RemoveOpeningFences(s[1..])
  }

  /** A closing fence followed by nothing but space. */
  predicate TrailingFence(s: string) {
    StartsWith(s, Fence) && AllSpace(s[|Fence|..])
  }

  /** `.replace(/```\s*$/g, '')`: the leftmost fence that only space follows
      is cut off together with that space. */
  function RemoveClosingFence(s: string): string {
    if s == [] then []
    else if TrailingFence(s) then []
    else [s[0]] + RemoveClosingFence(s[1..])
  }

  /** Lines 488-490: fences are stripped only when an opening fence occurs. */
  function StripFences(text: string): string {
    if Contains(text, OpeningFence) then RemoveClosingFence(RemoveOpeningFences(text)) else text
  }

  predicate IsBrace(c: char) {
    c == '{' || c == '}'
  }

  lemma BraceIsNotSpace(c: char)
    requires IsBrace(c)
    ensures !IsSpace(c)
  {
    assert !IsSpace('{') && !IsSpace('}');
  }

  lemma FenceHasNoBrace(c: char)
    requires IsBrace(c)
    ensures Count(OpeningFence, c) == 0
  {
    assert forall k :: 0 <= k < |OpeningFence| ==> OpeningFence[k] != c;
  }

  /** Skipping an opening fence and the space after it skips no brace. */
  lemma FenceSkipKeepsBraces(s: string, c: char)
    requires IsBrace(c) && StartsWith(s, OpeningFence)
    ensures Count(TrimStart(s[|OpeningFence|..]), c) == Count(s, c)
  {
    var rest := s[|OpeningFence|..];
    assert s == OpeningFence + rest;
    CountAppend(OpeningFence, rest, c);
    FenceHasNoBrace(c);
    BraceIsNotSpace(c);
    TrimStartKeepsCount(rest, c);
  }

  lemma {:induction false} RemoveOpeningFencesKeepsBraces(s: string, c: char)
    requires IsBrace(c)
    ensures Count(RemoveOpeningFences(s), c) == Count(s, c)
    decreases |s|
  {
    if s == [] {
    } else if StartsWith(s, OpeningFence) {
      RemoveOpeningFencesKeepsBraces(TrimStart(s[|OpeningFence|..]), c);
      FenceSkipKeepsBraces(s, c);
    } else {
      RemoveOpeningFencesKeepsBraces(s[1..], c);
      assert s == [s[0]] + s[1..];
      CountAppend([s[0]], s[1..], c);
      CountAppend([s[0]], RemoveOpeningFences(s[1..]), c);
    }
  }

  /** A closing fence and the space after it hold no brace. */
  lemma TrailingFenceHasNoBrace(s: string, c: char)
    requires IsBrace(c) && TrailingFence(s)
    ensures c !in s
  {
    BraceIsNotSpace(c);
    forall k | 0 <= k < |s| ensures s[k] != c {
      if k < |Fence| {
        assert s[k] == s[..|Fence|][k];
      } else {
        assert s[k] == s[|Fence|..][k - |Fence|];
      }
    }
  }

  /** Removing the closing fence keeps a prefix of the text. */
  lemma {:induction false} RemoveClosingFenceIsPrefix(s: string)
    ensures StartsWith(s, RemoveClosingFence(s))
  {
    if s != [] && !TrailingFence(s) {
      RemoveClosingFenceIsPrefix(s[1..]);
      var r := RemoveClosingFence(s[1..]);
      assert RemoveClosingFence(s) == [s[0]] + r;
      assert s[..1 + |r|] == [s[0]] + s[1..][..|r|];
    }
  }

  /** Removing the closing fence keeps every brace. */
  lemma {:induction false} RemoveClosingFenceKeepsBraces(s: string, c: char)
    requires IsBrace(c)
    ensures Count(RemoveClosingFence(s), c) == Count(s, c)
  {
    if s == [] {
    } else if TrailingFence(s) {
      TrailingFenceHasNoBrace(s, c);
    } else {
      RemoveClosingFenceKeepsBraces(s[1..], c);
      assert s == [s[0]] + s[1..];
      CountAppend([s[0]], s[1..], c);
      CountAppend([s[0]], RemoveClosingFence(s[1..]), c);
    }
  }

  /** Stripping the fences never adds or drops a brace, so the span and the
      brace balance are those of the text without its fences. */
  lemma StripFencesKeepsBraces(text: string, c: char)
    requires IsBrace(c)
    ensures Count(StripFences(text), c) == Count(text, c)
  {
    if Contains(text, OpeningFence) {
      RemoveOpeningFencesKeepsBraces(text, c);
      RemoveClosingFenceKeepsBraces(RemoveOpeningFences(text), c);
    }
  }

  /** `text.match(/\{[\s\S]*\}/)`: from the first `{` to the last `}`, when
      that `}` comes after it. */
  function ExtractSpan(s: string): Option<string> {
    match IndexOf(s, '{')
    case None => None
    case Some(first) =>
      match LastIndexOf(s, '}')
      case None => None
      case Some(last) => if first < last then Some(s[first..last + 1]) else None
  }

  /** A span exists exactly when some `{` precedes some `}`; it opens with a
      `{` and closes with a `}`. */
  lemma ExtractSpanSpec(s: string)
    ensures ExtractSpan(s).Some? <==> exists i, j :: 0 <= i < j < |s| && s[i] == '{' && s[j] == '}'
    ensures ExtractSpan(s).Some? ==>
      var span := ExtractSpan(s).value;
      |span| >= 2 && span[0] == '{' && EndsWith(span, '}')
  {
    if exists i, j :: 0 <= i < j < |s| && s[i] == '{' && s[j] == '}' {
      var i, j :| 0 <= i < j < |s| && s[i] == '{' && s[j] == '}';
      assert '{' in s && '}' in s;
    }
  }

  /** The span is the text with nothing but brace-free margins cut away: no
      `{` before it and no `}` after it. */
  lemma SpanDecomposition(s: string) returns (before: string, after: string)
    requires ExtractSpan(s).Some?
    ensures s == before + ExtractSpan(s).value + after
    ensures '{' !in before && '}' !in after
  {
    var first := IndexOf(s, '{').value;
    var last := LastIndexOf(s, '}').value;
    before, after := s[..first], s[last + 1..];
    assert s == s[..first] + s[first..last + 1] + s[last + 1..];
  }

  /** Opening braces minus closing braces: `bracketCount`. */
  function BraceDeficit(s: string): int {
    Count(s, '{') - Count(s, '}')
  }

  /** `lastLine` of lines 505-506: the trimmed last line. */
  function TrimmedLastLine(s: string): string {
    Trim(LastLine(s))
  }

  /** `s.slice(0, -n)` for `n > 0`: all but the last `n` characters. */
  function DropLast(s: string, n: nat): string {
    if n <= |s| then s[..|s| - n] else []
  }

  /** The condition of lines 509-510: the last line is cut inside an
      unquoted value. */
  predicate CutInsideValue(lastLine: string) {
    && lastLine != ""
    && !EndsWith(lastLine, ',') && !EndsWith(lastLine, '}') && !EndsWith(lastLine, ']')
    && ':' in lastLine && '"' !in lastLine
  }

  /** Lines 505-514: close the quote of a value cut off on the last line. */
  function QuoteFix(s: string): string {
    var lastLine := TrimmedLastLine(s);
    if CutInsideValue(lastLine) then DropLast(s, |lastLine|) + lastLine + "\"" else s
  }

  /** Lines 501-521: the text handed to `JSON.parse`. */
  function Repaired(span: string): string {
    var deficit := BraceDeficit(span);
    if deficit > 0 then QuoteFix(span) + Repeat('}', deficit) else span
  }

  /** Lines 501-521 as the script runs them, appending one `}` per turn. */
  method RepairBraces(span: string) returns (json: string)
    ensures json == Repaired(span)
  {
    json := span;
    var bracketCount := Count(span, '{') - Count(span, '}');
    if bracketCount > 0 {
      var fixed := QuoteFix(span);
      json := fixed;
      var i := 0;
      while i < bracketCount
        invariant 0 <= i <= bracketCount
        invariant json == fixed + Repeat('}', i)
      {
        json := json + "}";
        i := i + 1;
        assert Repeat('}', i) == Repeat('}', i - 1) + "}";
      }
    }
  }

  /** The quote repair never fires on a text that ends with `}`, as every
      span does: its trimmed last line ends with that `}`. */
  lemma QuoteFixIdleOnSpan(span: string)
    requires EndsWith(span, '}')
    ensures QuoteFix(span) == span
  {
    SplitLastKeepsEnd(span, '\n');
    var lastLine := LastLine(span);
    assert lastLine != [] && lastLine[|lastLine| - 1] == '}';
    assert !IsSpace('}');
    TrimKeepsLast(lastLine);
  }

  /** Appending as many `}` as are missing balances the braces. */
  lemma ClosingBalances(s: string)
    requires BraceDeficit(s) > 0
    ensures BraceDeficit(s + Repeat('}', BraceDeficit(s))) == 0
  {
    var deficit := BraceDeficit(s);
    var closing := Repeat('}', deficit);
    CountAppend(s, closing, '{');
    CountAppend(s, closing, '}');
    CountRepeat('}', '{', deficit);
    CountRepeat('}', '}', deficit);
  }

  /** The repair leaves a balanced or over-closed span alone and otherwise
      appends exactly the missing closing braces, so that every `{` is
      matched by a `}`. */
  lemma RepairedSpan(span: string)
    requires EndsWith(span, '}')
    ensures BraceDeficit(span) <= 0 ==> Repaired(span) == span
    ensures BraceDeficit(span) > 0 ==>
      Repaired(span) == span + Repeat('}', BraceDeficit(span)) && BraceDeficit(Repaired(span)) == 0
  {
    if BraceDeficit(span) > 0 {
      QuoteFixIdleOnSpan(span);
      ClosingBalances(span);
    }
  }

  /** Lines 524-529 on the parsed object: every rating gains its normalized
      score; `None` when `forEach` throws. */
  function NormalizeReply(rt: Runtime, obj: map<string, JsValue>): Option<map<string, JsValue>> {
    var ratings := Get(obj, "ratings");
    if !Truthy(ratings) then Some(obj)
    else if !ratings.Arr? then None
    else match NormalizedEntries(rt, ratings.items)
      case None => None
      case Some(entries) => Some(obj["ratings" := Arr(entries)])
  }

  /** The normalization fails exactly when `ratings` is truthy and is not an
      array, or holds a missing entry; otherwise it changes only `ratings`,
      whose entries all carry their normalized score afterwards. */
  lemma NormalizeReplySpec(rt: Runtime, obj: map<string, JsValue>)
    ensures var ratings := Get(obj, "ratings");
      NormalizeReply(rt, obj).None? <==>
        Truthy(ratings) && (!ratings.Arr? || exists i :: 0 <= i < |ratings.items| && Nullish(ratings.items[i]))
    ensures NormalizeReply(rt, obj).Some? ==>
      var r := NormalizeReply(rt, obj).value;
      && r.Keys == obj.Keys
      && (forall k :: k in obj && k != "ratings" ==> r[k] == obj[k])
      && (Get(obj, "ratings").Arr? ==>
            && r["ratings"].Arr?
            && |r["ratings"].items| == |Get(obj, "ratings").items|
            && forall i :: 0 <= i < |r["ratings"].items| ==> NormalizedEntry(rt, r["ratings"].items[i]))
      && (!Get(obj, "ratings").Arr? ==> r == obj)
  {
    var ratings := Get(obj, "ratings");
    if ratings.Arr? {
      NormalizedEntriesSpec(rt, ratings.items);
    }
  }

  /** Lines 484-531: the result object, or `None` when any step throws. */
  function ParsedReply(rt: Runtime, text: string): Option<map<string, JsValue>> {
    match ExtractSpan(StripFences(text))
    case None => None
    case Some(span) =>
      match rt.parse(Repaired(span))
      case None => None
      case Some(obj) => NormalizeReply(rt, obj)
  }

  /** Lines 484-531 as the script runs them. */
  method ParseReply(rt: Runtime, text: string) returns (result: Option<map<string, JsValue>>)
    ensures result == ParsedReply(rt, text)
  {
    var jsonText := StripFences(text);
    var jsonMatch := ExtractSpan(jsonText);
    if jsonMatch.None? {
      return None;
    }
    var jsonString := RepairBraces(jsonMatch.value);
    var parsed := rt.parse(jsonString);
    if parsed.None? {
      return None;
    }
    var obj := parsed.value;
    var ratings := Get(obj, "ratings");
    if !Truthy(ratings) {
      return Some(obj);
    }
    if !ratings.Arr? {
      return None;
    }
    var entries := NormalizeRatings(rt, ratings.items);
    if entries.None? {
      return None;
    }
    result := Some(obj["ratings" := Arr(entries.value)]);
  }

  /** What `JSON.parse` receives: a span of the unfenced text with closing
      braces appended, so text after the span's last `}` never reaches the
      parser, and the braces it receives balance whenever the span lacked
      some. */
  lemma ParsedTextShape(text: string)
    requires ExtractSpan(StripFences(text)).Some?
    ensures var span := ExtractSpan(StripFences(text)).value;
      var json := Repaired(span);
      && StartsWith(json, span)
      && (BraceDeficit(span) > 0 ==> BraceDeficit(json) == 0)
      && (BraceDeficit(span) <= 0 ==> json == span)
  {
    var span := ExtractSpan(StripFences(text)).value;
    ExtractSpanSpec(StripFences(text));
    RepairedSpan(span);
    var json := Repaired(span);
    assert json[..|span|] == span;
  }
}
