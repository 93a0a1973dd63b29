/** The "gemini" adapter (src/engines/GeminiIntegration.js). Despite its name it posts a
    chat completion to the same OpenAI endpoint, with a fixed system message, and its
    `extrairJSON` throws where the OpenAI adapter's falls back to the raw text. */
module GeminiIntegration {
  import opened Wrappers
  import opened Js
  import opened JsonFence
  import opened ChatReply
  import OpenAIIntegration

  const Endpoint := "https://api.openai.com/v1/chat/completions"
  const SystemMessage := "Você é um assistente útil."

  /** What `axios.post` is given: the endpoint, the `Authorization` header and the
      payload's model, messages as (role, content) pairs and `max_tokens`. */
  datatype GeminiRequest = GeminiRequest(endpoint: string, authorization: string, model: Option<string>,
                                         messages: seq<(string, string)>, maxTokens: Option<string>)

  type Post = GeminiRequest -> Result<Reply, Error>

  /** `JSON.parse`: None when it throws. */
  type Parse = string -> Option<Json>

  /** `extrairJSON(resposta)`: the first fenced `json` block, trimmed and parsed (null when
      that fails); otherwise the whole text parsed, and a failure to parse it throws. */
  function ExtrairJson(resposta: string, parse: Parse): Result<Json, Error> {
    match FencedText(resposta)
    case Some(g) => Success(parse(Trim(g)).GetOr(JNull))
    case None =>
      match parse(resposta)
      case Some(v) => Success(v)
      case None => Failure(ParseError)
  }

  /** A fenced block's text is what gets parsed: trimming it changes nothing. */
  lemma FencedBlockParsed(resposta: string, parse: Parse)
    requires FencedText(resposta).Some?
    ensures ExtrairJson(resposta, parse) == Success(parse(FencedText(resposta).value).GetOr(JNull))
  {
    FencedTextIsTrimmed(resposta);
  }

  /** Without a fence, text that does not parse throws. */
  lemma UnfencedParseFailureThrows(resposta: string, parse: Parse)
    requires FencedText(resposta).None? && parse(resposta).None?
    ensures ExtrairJson(resposta, parse) == Failure(ParseError)
  {
  }

  /** The two adapters' extraction agree everywhere except on unfenced text that does not
      parse, which this one rejects and the OpenAI one returns as a string. */
  lemma AgreesWithOpenAI(resposta: string, parse: Parse)
    ensures FencedText(resposta).None? && parse(resposta).None? ==>
              ExtrairJson(resposta, parse) == Failure(ParseError)
              && OpenAIIntegration.ExtrairJson(resposta, parse) == JStr(resposta)
    ensures FencedText(resposta).Some? || parse(resposta).Some? ==>
              ExtrairJson(resposta, parse) == Success(OpenAIIntegration.ExtrairJson(resposta, parse))
  {
  }

  /** The request: the model, the fixed system message then the prompt, `max_tokens` from
      the environment, and the key from the environment (`undefined` when it is unset). */
  function RequestOf(prompt: string, model: Option<string>, apiKey: Option<string>,
                     maxTokens: Option<string>): GeminiRequest
  {
    GeminiRequest(Endpoint, "Bearer " + apiKey.GetOr("undefined"), model,
                  [("system", SystemMessage), ("user", prompt)], maxTokens)
  }

  /** `process(prompt, model)`, with the environment, the HTTP client and `JSON.parse` as
      parameters: errors are rethrown and a status other than 200 throws. */
  function Process(prompt: string, model: Option<string>, apiKey: Option<string>, maxTokens: Option<string>,
                   post: Post, parse: Parse): Result<Json, Error>
  {
    match post(RequestOf(prompt, model, apiKey, maxTokens))
    case Failure(e) => Failure(e)
    case Success(reply) =>
      if reply.status != 200 then Failure(HttpStatus(reply.status))
      else
        match ReplyText(reply.data)
        case Failure(e) => Failure(e)
        case Success(text) => ExtrairJson(text, parse)
  }

  /** The reply decides the outcome: an error from the client is rethrown, a status other
      than 200 throws, and a 200 reply's text is extracted. */
  lemma ReplyDecides(prompt: string, model: Option<string>, apiKey: Option<string>, maxTokens: Option<string>,
                     post: Post, parse: Parse)
    ensures var sent := post(RequestOf(prompt, model, apiKey, maxTokens));
      var r := Process(prompt, model, apiKey, maxTokens, post, parse);
      (sent.Failure? ==> r == Failure(sent.error))
      && (sent.Success? && sent.value.status != 200 ==> r == Failure(HttpStatus(sent.value.status)))
      && (sent.Success? && sent.value.status == 200 && ReplyText(sent.value.data).Success? ==>
            r == ExtrairJson(ReplyText(sent.value.data).value, parse))
  {
  }

  /** A successful result comes from a 200 reply. */
  lemma SuccessNeeds200(prompt: string, model: Option<string>, apiKey: Option<string>, maxTokens: Option<string>,
                        post: Post, parse: Parse)
    requires Process(prompt, model, apiKey, maxTokens, post, parse).Success?
    ensures post(RequestOf(prompt, model, apiKey, maxTokens)).Success?
    ensures post(RequestOf(prompt, model, apiKey, maxTokens)).value.status == 200
  {
  }
}
