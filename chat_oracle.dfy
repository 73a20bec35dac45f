/**
 * The chat-completion service as the guess pipeline sees it: a request built
 * from a fixed few-shot preamble plus one user turn, answered with free text.
 * The service itself is an oracle, a total function from requests to replies.
 */
module ChatOracle {
  import opened Common

  /** The two fixed preambles of the prompt file (`starter` and
      `termination_starter`); their text is not part of this model. */
  datatype Preamble = Starter | TerminationStarter

  /** One `chat.completions.create` call: the model name, the preamble, the
      single user turn, and the sampling parameters. */
  datatype Request = Request(
    model: string,
    preamble: Preamble,
    userTurn: string,
    temperature: int,
    presencePenalty: int,
    frequencyPenalty: int)

  /** One choice of a completion; `content` is `message?.content`, missing
      when the message or its content is absent. */
  datatype Choice = Choice(content: Option<string>)

  /** The awaited call either rejects (a transport or service failure) or
      resolves to a completion with zero or more choices. */
  datatype Reply = Failed | Completion(choices: seq<Choice>)

  /** The external service: what it answers to each request. */
  type Oracle = Request -> Reply

  /** Reads `resp.choices[0].message?.content` after the primary call. The
      indexing has no `?.`, so an empty `choices` raises a TypeError, and a
      rejected call propagates, as neither is caught. */
  function PrimaryContent(reply: Reply): (r: Outcome<Option<string>>)
    ensures r.Threw? <==> reply.Failed? || |reply.choices| == 0
    ensures r.Returned? ==> r.value == reply.choices[0].content
  {
    match reply
    case Failed => Threw
    case Completion(choices) =>
      if |choices| == 0 then Threw else Returned(choices[0].content)
  }

  /** `terminationResp.choices[0]?.message?.content?.includes("TRUE")`: every
      link is optional, so a missing choice or content means "not affirmed". */
  function TerminationAffirms(choices: seq<Choice>): (b: bool)
    ensures b <==> |choices| > 0 && choices[0].content.Some?
                   && exists i :: OccursAt(choices[0].content.value, "TRUE", i)
  {
    if |choices| > 0 && choices[0].content.Some? then
      IncludesIffOccurs(choices[0].content.value, "TRUE");
      Includes(choices[0].content.value, "TRUE")
    else
      false
  }
}
