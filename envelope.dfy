/** The decoded response envelope of the text-generation endpoint and the
    probe that takes the model's text out of it (script.js:435-480). */
module Envelope {
  import opened Wrappers

  datatype Part = Part(text: Option<string>)

  datatype Message = Message(content: Option<string>)

  /** `candidates[0].content`, in the shapes different model versions return. */
  datatype Content = Content(
    role: Option<string>,
    parts: Option<seq<Option<Part>>>,
    text: Option<string>,
    message: Option<Message>,
    output: Option<string>,
    response: Option<string>)

  datatype Candidate = Candidate(content: Option<Content>, finishReason: Option<string>)

  datatype Reply = Reply(candidates: Option<seq<Option<Candidate>>>)

  /** A truthy string field: present and not empty. */
  predicate Present(s: Option<string>) {
    s.Some? && s.value != ""
  }

  /** `a || b` on string fields. */
  function OrElse(a: Option<string>, b: Option<string>): Option<string> {
    if Present(a) then a else b
  }

  /** `content.parts?.[0]?.text`. */
  function FirstPartText(c: Content): Option<string> {
    if c.parts.Some? && |c.parts.value| > 0 && c.parts.value[0].Some? then c.parts.value[0].value.text
    else None
  }

  /** `content.message?.content`. */
  function MessageContent(c: Content): Option<string> {
    if c.message.Some? then c.message.value.content else None
  }

  /** The probe of lines 447-470 as written: `None` when it throws. */
  function ContentText(c: Content): Option<string> {
    if Present(FirstPartText(c)) then FirstPartText(c)
    else if Present(c.text) then c.text
    else if c.role == Some("model") && Present(FirstPartText(c)) then FirstPartText(c)
    else
      var possibleText := OrElse(OrElse(OrElse(FirstPartText(c), MessageContent(c)), c.output), c.response);
      if Present(possibleText) then possibleText else None
  }

  /** The fields the probe consults, in priority order. */
  function TextFields(c: Content): seq<Option<string>> {
    [FirstPartText(c), c.text, MessageContent(c), c.output, c.response]
  }

  /** The first truthy entry of a list of fields. */
  function FirstPresent(fields: seq<Option<string>>): Option<string> {
    if fields == [] then None
    else if Present(fields[0]) then fields[0]
    else FirstPresent(fields[1..])
  }

  /** There is no first truthy entry exactly when no entry is truthy; the
      first one is truthy and is preceded only by falsy entries. */
  lemma {:induction false} FirstPresentSpec(fields: seq<Option<string>>)
    ensures FirstPresent(fields).None? <==> forall i :: 0 <= i < |fields| ==> !Present(fields[i])
    ensures FirstPresent(fields).Some? ==> exists i :: 0 <= i < |fields| && FirstIsAt(fields, i)
  {
    if fields != [] && !Present(fields[0]) {
      var rest := fields[1..];
      FirstPresentSpec(rest);
      if FirstPresent(rest).Some? {
        var i :| 0 <= i < |rest| && FirstIsAt(rest, i);
        assert fields[i + 1] == rest[i];
        forall j | 0 <= j < i + 1 ensures !Present(fields[j]) {
          if j > 0 {
            assert fields[j] == rest[j - 1];
          }
        }
        assert FirstIsAt(fields, i + 1);
      } else {
        forall i | 0 <= i < |fields| ensures !Present(fields[i]) {
          if i > 0 {
            assert fields[i] == rest[i - 1];
          }
        }
      }
    } else if fields != [] {
      assert FirstIsAt(fields, 0);
    }
  }

  /** The entry at `i` is the first truthy one, and the first truthy entry. */
  predicate FirstIsAt(fields: seq<Option<string>>, i: nat)
    requires i < |fields|
  {
    && Present(fields[i]) && FirstPresent(fields) == fields[i]
    && forall j :: 0 <= j < i ==> !Present(fields[j])
  }

  /** The probe takes the first truthy field among `parts[0].text`, `text`,
      `message.content`, `output` and `response`, and fails only when none
      is truthy; the `role == 'model'` branch never decides the result. */
  lemma {:induction false} ContentTextIsFirstPresent(c: Content)
    ensures ContentText(c) == FirstPresent(TextFields(c))
    ensures c.role == Some("model") && Present(FirstPartText(c)) ==> ContentText(c) == FirstPartText(c)
  {
    var p, t, m, o, r := FirstPartText(c), c.text, MessageContent(c), c.output, c.response;
    var s4 := [r];
    assert s4[1..] == [];
    assert FirstPresent(s4) == if Present(r) then r else None;
    var s3 := [o, r];
    assert s3[1..] == s4;
    assert FirstPresent(s3) == if Present(o) then o else FirstPresent(s4);
    var s2 := [m, o, r];
    assert s2[1..] == s3;
    assert FirstPresent(s2) == if Present(m) then m else FirstPresent(s3);
    var s1 := [t, m, o, r];
    assert s1[1..] == s2;
    var f := TextFields(c);
    assert f[1..] == s1;
  }

  /** Why reading the envelope failed. */
  datatype EnvelopeError =
    | ResponseFormat     // no `candidates[0].content`
    | UnreadableContent  // no truthy text field
    | Truncated          // `finishReason == 'MAX_TOKENS'`

  /** `data.candidates && data.candidates[0] && data.candidates[0].content`. */
  predicate HasContent(r: Reply) {
    r.candidates.Some? && |r.candidates.value| > 0 && r.candidates.value[0].Some?
    && r.candidates.value[0].value.content.Some?
  }

  /** Lines 435-480: the model's text and the candidate's finish reason, or
      the error thrown before any parsing. */
  function ReplyText(r: Reply): Result<(string, Option<string>), EnvelopeError> {
    if !HasContent(r) then Failure(ResponseFormat)
    else
      var candidate := r.candidates.value[0].value;
      match ContentText(candidate.content.value)
      case None => Failure(UnreadableContent)
      case Some(text) =>
        if candidate.finishReason == Some("MAX_TOKENS") then Failure(Truncated)
        else Success((text, candidate.finishReason))
  }

  /** Each error arises exactly in its own situation, in the script's order,
      and a text that gets through is the first truthy field, is not empty,
      and comes with a finish reason other than `MAX_TOKENS`. */
  lemma ReplyTextSpec(r: Reply)
    ensures ReplyText(r) == Failure(ResponseFormat) <==> !HasContent(r)
    ensures HasContent(r) ==>
      var candidate := r.candidates.value[0].value;
      var fields := TextFields(candidate.content.value);
      && (ReplyText(r) == Failure(UnreadableContent) <==> forall i :: 0 <= i < |fields| ==> !Present(fields[i]))
      && (ReplyText(r) == Failure(Truncated) <==>
            FirstPresent(fields).Some? && candidate.finishReason == Some("MAX_TOKENS"))
      && (ReplyText(r).Success? ==>
            && Some(ReplyText(r).value.0) == FirstPresent(fields)
            && ReplyText(r).value.0 != ""
            && ReplyText(r).value.1 == candidate.finishReason
            && ReplyText(r).value.1 != Some("MAX_TOKENS"))
  {
    if HasContent(r) {
      var content := r.candidates.value[0].value.content.value;
      ContentTextIsFirstPresent(content);
      FirstPresentSpec(TextFields(content));
    }
  }
}
