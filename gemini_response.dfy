/**
 * The two callers of the retry loop: `generateReadmeWithGemini`
 * (background.js:132-232) and `explainTextOrCode` (background.js:300-324),
 * and how each pulls the generated text out of the endpoint's reply.
 *
 * The reply body is modelled by the fields the code reads, each possibly
 * absent. The prompt texts and the request payload are not modelled: the
 * replies the endpoint gives are inputs, so nothing here depends on them.
 */
module GeminiResponse {
  import opened Wrappers
  import Retry

  datatype Part = Part(text: Option<string>)
  datatype Content = Content(parts: Option<seq<Part>>)
  datatype Candidate = Candidate(content: Option<Content>)
  datatype GenerateResponse = GenerateResponse(candidates: Option<seq<Candidate>>)

  const ReadmeShapeMessage: string := "Could not generate README. Unexpected Gemini API response."
  const ExplanationShapeMessage: string := "Unexpected Gemini API response structure for explanation."

  /** `candidates[0].content.parts[0]` exists: the test at background.js:317-319. */
  predicate HasFirstPart(r: GenerateResponse) {
    r.candidates.Some? && |r.candidates.value| > 0
    && r.candidates.value[0].content.Some?
    && r.candidates.value[0].content.value.parts.Some?
    && |r.candidates.value[0].content.value.parts.value| > 0
  }

  function FirstPart(r: GenerateResponse): Part
    requires HasFirstPart(r)
  {
    r.candidates.value[0].content.value.parts.value[0]
  }

  /**
   * background.js:225-231: the optional chain
   * `candidates?.[0]?.content?.parts?.[0]?.text` must be truthy, that is a
   * non-empty string, or the call throws.
   */
  function ExtractReadme(r: GenerateResponse): (res: Result<string>)
    ensures res.Ok? <==> HasFirstPart(r) && FirstPart(r).text.Some? && FirstPart(r).text.value != ""
    ensures res.Ok? ==> res.value == FirstPart(r).text.value
    ensures res.Err? ==> res.message == ReadmeShapeMessage
  {
    match r.candidates
    case None => Err(ReadmeShapeMessage)
    case Some(cs) =>
      if |cs| == 0 then Err(ReadmeShapeMessage)
      else match cs[0].content
        case None => Err(ReadmeShapeMessage)
        case Some(Content(None)) => Err(ReadmeShapeMessage)
        case Some(Content(Some(ps))) =>
          if |ps| == 0 then Err(ReadmeShapeMessage)
          else match ps[0].text
            case None => Err(ReadmeShapeMessage)
            case Some(t) => if t == "" then Err(ReadmeShapeMessage) else Ok(t)
  }

  /**
   * background.js:317-323: the README check of background.js:225-231
   * without its test on `text`. It accepts everything the README check
   * accepts, with the same text, and in addition a first part whose `text`
   * is missing or empty, which it returns rather than rejects.
   */
  function ExtractExplanation(r: GenerateResponse): (res: Result<Option<string>>)
    ensures res.Ok? <==>
      (ExtractReadme(r).Ok? || (HasFirstPart(r) && (FirstPart(r).text.None? || FirstPart(r).text == Some(""))))
    ensures ExtractReadme(r).Ok? ==> res == Ok(Some(ExtractReadme(r).value))
    ensures res.Ok? ==> res.value == FirstPart(r).text
    ensures res.Err? ==> res.message == ExplanationShapeMessage
  {
    if r.candidates.Some? && |r.candidates.value| > 0
       && r.candidates.value[0].content.Some? && r.candidates.value[0].content.value.parts.Some?
       && |r.candidates.value[0].content.value.parts.value| > 0
    then Ok(r.candidates.value[0].content.value.parts.value[0].text)
    else Err(ExplanationShapeMessage)
  }

  /** Whatever the README check accepts, the explanation check accepts with the same text. */
  lemma ReadmeCheckIsStricter(r: GenerateResponse)
    requires ExtractReadme(r).Ok?
    ensures ExtractExplanation(r) == Ok(Some(ExtractReadme(r).value))
  {
  }

  /** A non-empty explanation is exactly what the README check returns. */
  lemma ExplanationTextIsReadme(r: GenerateResponse, t: string)
    requires ExtractExplanation(r) == Ok(Some(t)) && t != ""
    ensures ExtractReadme(r) == Ok(t)
  {
  }

  /** A reply the explanation check rejects is rejected by the README check too. */
  lemma ExplanationErrorIsReadmeError(r: GenerateResponse)
    requires ExtractExplanation(r).Err?
    ensures ExtractReadme(r) == Err(ReadmeShapeMessage)
  {
  }

  /** An empty `text` is an error for the README and an answer for the explanation. */
  lemma EmptyTextSplitsTheChecks()
    ensures var r := GenerateResponse(Some([Candidate(Some(Content(Some([Part(Some(""))]))))]));
      ExtractReadme(r) == Err(ReadmeShapeMessage) && ExtractExplanation(r) == Ok(Some(""))
  {
  }

  /**
   * `generateReadmeWithGemini` from the call on: the text of the first
   * successful reply when it has one, the shape error when it does not, and
   * the retry loop's error when no attempt succeeds.
   */
  method GenerateReadmeWithGemini(replies: seq<Retry.Reply<GenerateResponse>>, jitters: seq<real>)
    returns (r: Result<string>)
    requires |replies| == Retry.MaxRetries && |jitters| == Retry.MaxRetries
    ensures var k := Retry.FirstSuccess(replies);
      if k < Retry.MaxRetries then r == ExtractReadme(replies[k].body.value)
      else r == Err(Retry.OverloadedMessage)
  {
    var result, _, _ := Retry.CallLlmApiWithRetry(replies, jitters);
    if result.Parsed? {
      r := ExtractReadme(result.body);
    } else {
      r := Err(Retry.OverloadedMessage);
    }
  }

  /** `explainTextOrCode` from the call on, with the weaker shape check. */
  method ExplainTextOrCode(replies: seq<Retry.Reply<GenerateResponse>>, jitters: seq<real>)
    returns (r: Result<Option<string>>)
    requires |replies| == Retry.MaxRetries && |jitters| == Retry.MaxRetries
    ensures var k := Retry.FirstSuccess(replies);
      if k < Retry.MaxRetries then r == ExtractExplanation(replies[k].body.value)
      else r == Err(Retry.OverloadedMessage)
  {
    var result, _, _ := Retry.CallLlmApiWithRetry(replies, jitters);
    if result.Parsed? {
      r := ExtractExplanation(result.body);
    } else {
      r := Err(Retry.OverloadedMessage);
    }
  }

  /**
   * An ok reply whose body has no `candidates` is not
   * retried; the call succeeds and the extraction reports the shape error.
   */
  method MissingCandidates(jitters: seq<real>) returns (r: Result<string>)
    requires |jitters| == Retry.MaxRetries
    ensures r == Err(ReadmeShapeMessage)
  {
    var ok := Retry.Response(200, Some(GenerateResponse(None)));
    var replies := [ok, ok, ok, ok, ok];
    assert Retry.FirstSuccess(replies) == 0;
    r := GenerateReadmeWithGemini(replies, jitters);
  }
}
