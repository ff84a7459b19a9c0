/**
 * How assessment.js turns the proxy's reply into an analysis: the text is
 * taken from the reply's `content` blocks or its `text` field, the greedy
 * `{...}` span of that text is handed to `JSON.parse`, and every failure on
 * the way (network error, non-2xx status, body that is not JSON, an `error`
 * field, an unexpected shape, empty text, no braces, a parse error) ends in
 * the local analysis instead.
 *
 * `JSON.parse` is the parameter `parse` (`None` where it throws), and the
 * local analysis the engine would fall back to is the parameter `local`
 * (the caller passes `LocalAnalysis(responses)`, which has no side effects).
 */
module ChecklistProxy {
  import opened Options
  import opened Text
  import opened Checklist

  /** One element of the reply's `content` array; `text` is "" when the block has none. */
  datatype ContentBlock = ContentBlock(kind: string, text: string)

  /**
   * The parsed reply body: `content` is `None` when the field is missing or
   * not an array, `text` is "" when the field is missing or empty, and
   * `hasError` says whether an `error` field is present.
   */
  datatype ReplyBody = ReplyBody(content: Option<seq<ContentBlock>>, text: string, hasError: bool)

  /** What `fetch` produced: no response at all, or a status flag and a body (`None` when not JSON). */
  datatype ProxyReply = NetworkError | Reply(ok: bool, body: Option<ReplyBody>)

  /** Why a reply carries no analysis text. */
  datatype Failure = ApiError | UnexpectedShape | NoTextContent

  datatype Extracted = Found(text: string) | Missing(reason: Failure)

  /** The analysis the checklist page shows: the model's parsed JSON, or the local analysis. */
  datatype Analysis<J> = Remote(value: J) | Local(result: AnalysisResult)

  /** `content.find(c => c.type === 'text')`, as the position of the first block of kind "text". */
  function FirstTextBlock(blocks: seq<ContentBlock>): (r: Option<nat>)
    ensures r.Some? ==>
      r.value < |blocks| && blocks[r.value].kind == "text"
      && forall j :: 0 <= j < r.value ==> blocks[j].kind != "text"
    ensures r.None? <==> forall i :: 0 <= i < |blocks| ==> blocks[i].kind != "text"
    decreases |blocks|
  {
    if blocks == [] then None
    else if blocks[0].kind == "text" then Some(0)
    else
      var r := FirstTextBlock(blocks[1..]);
      assert forall i :: 1 <= i < |blocks| ==> blocks[i] == blocks[1..][i - 1];
      match r
      case None => None
      case Some(k) => Some(k + 1)
  }

  /**
   * The text the reply offers, with `content` taking precedence over `text`,
   * and the `error` field or an unexpected shape giving no text.
   */
  function ExtractText(body: ReplyBody): (r: Extracted)
    ensures r.Found? ==> r.text != ""
    ensures body.content.Some? ==>
      var blocks := body.content.value;
      (r.Found? <==> FirstTextBlock(blocks).Some? && blocks[FirstTextBlock(blocks).value].text != "")
    ensures body.content.Some? && r.Found? ==>
      r.text == body.content.value[FirstTextBlock(body.content.value).value].text
    ensures body.content.None? && body.text != "" ==> r == Found(body.text)
    ensures body.content.None? && body.text == "" ==> r.Missing? && (r.reason == ApiError <==> body.hasError)
  {
    var analysisText :=
      if body.content.Some? then
        match FirstTextBlock(body.content.value)
        case Some(i) => Found(body.content.value[i].text)
        case None => Found("")
      else if body.text != "" then Found(body.text)
      else if body.hasError then Missing(ApiError)
      else Missing(UnexpectedShape);
    if analysisText.Found? && analysisText.text == "" then Missing(NoTextContent) else analysisText
  }

  /** `parseClaudeResponse`: the parsed greedy `{...}` span of the text, or the local analysis. */
  function ParseClaudeResponse<J>(text: string, local: AnalysisResult, parse: string -> Option<J>): (a: Analysis<J>)
    ensures a.Local? ==> a.result == local
    ensures a.Remote? <==> BraceSpan(text).Some? && parse(BraceSpan(text).value).Some?
    ensures a.Remote? ==> a.value == parse(BraceSpan(text).value).value
  {
    match BraceSpan(text)
    case Some(span) =>
      (match parse(span)
       case Some(v) => Remote(v)
       case None => Local(local))
    case None => Local(local)
  }

  /** `analyzeWithProxy`: the remote analysis when every step succeeds, the local one otherwise. */
  function AnalyzeWithProxy<J>(reply: ProxyReply, local: AnalysisResult, parse: string -> Option<J>): (a: Analysis<J>)
    ensures a.Local? ==> a.result == local
    ensures a.Remote? <==>
      reply.Reply? && reply.ok && reply.body.Some? && ExtractText(reply.body.value).Found?
      && ParseClaudeResponse(ExtractText(reply.body.value).text, local, parse).Remote?
    ensures a.Remote? ==> a == ParseClaudeResponse(ExtractText(reply.body.value).text, local, parse)
  {
    match reply
    case NetworkError => Local(local)
    case Reply(ok, body) =>
      if !ok || body.None? then Local(local)
      else
        match ExtractText(body.value)
        case Missing(_) => Local(local)
        case Found(t) => ParseClaudeResponse(t, local, parse)
  }

  /** With a `content` array present, the `text` and `error` fields play no part. */
  lemma ContentTakesPrecedence<J>(body: ReplyBody, text: string, hasError: bool,
                                  local: AnalysisResult, parse: string -> Option<J>)
    requires body.content.Some?
    ensures AnalyzeWithProxy(Reply(true, Some(body.(text := text, hasError := hasError))), local, parse)
         == AnalyzeWithProxy(Reply(true, Some(body)), local, parse)
  {
  }
}
