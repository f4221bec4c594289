/**
 * The body of a successful generateContent response, reduced to the fields
 * the handler reads, and the reply extraction of server.js:84.
 */
module Completion {
  import opened Wrappers

  datatype Part = Part(text: Option<string>)
  datatype Content = Content(parts: Option<seq<Part>>)
  datatype Candidate = Candidate(content: Option<Content>)

  /** `res.data`: zero or more candidates, each with nested text parts. */
  datatype ResponseBody = ResponseBody(candidates: Option<seq<Candidate>>)

  /**
   * What the awaited POST gives the handler: either it rejects (network or
   * HTTP failure, caught at server.js:96) or it resolves with a body.
   */
  datatype Outcome = Failed | Succeeded(data: ResponseBody)

  /** The reply used when the response carries no text (server.js:84). */
  const NoResponse: string := "\U{2757} No response"

  /** `candidates?.[0]?.content?.parts?.[0]?.text`: an index past the end gives `undefined`. */
  function FirstPartText(body: ResponseBody): Option<string> {
    match body.candidates
    case None => None
    case Some(cs) =>
      if |cs| == 0 then None
      else match cs[0].content
        case None => None
        case Some(content) =>
          match content.parts
          case None => None
          case Some(ps) => if |ps| == 0 then None else ps[0].text
  }

  /**
   * The reply text: the first candidate's first part when it is a non-empty
   * string, and the fallback otherwise. It is never empty.
   */
  function ExtractReply(body: ResponseBody): (r: string)
    ensures r != ""
    ensures Truthy(FirstPartText(body)) ==> r == FirstPartText(body).value
    ensures !Truthy(FirstPartText(body)) ==> r == NoResponse
  {
    match FirstPartText(body)
    case Some(t) => if t != "" then t else NoResponse
    case None => NoResponse
  }

  /** A body whose first candidate's first part holds `t` yields `t`, whatever follows it. */
  lemma ReplyOfFirstPart(t: string, moreParts: seq<Part>, moreCandidates: seq<Candidate>)
    requires t != ""
    ensures ExtractReply(ResponseBody(Some(
      [Candidate(Some(Content(Some([Part(Some(t))] + moreParts))))] + moreCandidates))) == t
  {
  }

  /** Missing or empty candidates, content, parts or text all give the fallback. */
  lemma ReplyFallbacks(c: Candidate, cs: seq<Candidate>, content: Content, ps: seq<Part>)
    ensures ExtractReply(ResponseBody(None)) == NoResponse
    ensures ExtractReply(ResponseBody(Some([]))) == NoResponse
    ensures ExtractReply(ResponseBody(Some([Candidate(None)] + cs))) == NoResponse
    ensures ExtractReply(ResponseBody(Some([Candidate(Some(Content(None)))] + cs))) == NoResponse
    ensures ExtractReply(ResponseBody(Some([Candidate(Some(Content(Some([]))))] + cs))) == NoResponse
    ensures ExtractReply(ResponseBody(Some([Candidate(Some(Content(Some([Part(None)] + ps))))] + cs))) == NoResponse
    ensures ExtractReply(ResponseBody(Some([Candidate(Some(Content(Some([Part(Some(""))] + ps))))] + cs))) == NoResponse
  {
  }
}
