/** The OpenAI chat adapter (src/engines/OpenAIIntegration.js): it builds the request
    from the prompt, the model and the model parameters, posts it, and turns the reply's
    text into a JSON value with `extrairJSON`. */
module OpenAIIntegration {
  import opened Wrappers
  import opened Js
  import opened JsonFence
  import opened ChatReply

  const Endpoint := "https://api.openai.com/v1/chat/completions"
  const DefaultMaxTokens := 4096

  /** An entry of the user message's `content` list. */
  datatype ContentItem = TextItem(text: string) | ImageItem(url: Json)

  /** What `axios.post` is given: the endpoint, the `Authorization` header and the
      payload's model, user content and `max_tokens`. */
  datatype ChatRequest = ChatRequest(endpoint: string, authorization: string, model: Option<string>,
                                     content: seq<ContentItem>, maxTokens: Json)

  /** `axios.post`: a reply, or what it throws. */
  type Post = ChatRequest -> Result<Reply, Error>

  /** `JSON.parse`: None when it throws. */
  type Parse = string -> Option<Json>

  /** `extrairJSON(resposta)`: the first fenced `json` block, trimmed and parsed (null when
      that fails); otherwise the whole text parsed, or the text itself when that fails. */
  function ExtrairJson(resposta: string, parse: Parse): Json {
    match FencedText(resposta)
    case Some(g) => parse(Trim(g)).GetOr(JNull)
    case None => parse(resposta).GetOr(JStr(resposta))
  }

  /** A fenced block's text is what gets parsed: trimming it changes nothing. */
  lemma FencedBlockParsed(resposta: string, parse: Parse)
    requires FencedText(resposta).Some?
    ensures ExtrairJson(resposta, parse) == parse(FencedText(resposta).value).GetOr(JNull)
  {
    FencedTextIsTrimmed(resposta);
  }

  /** Without a fence the whole text is parsed, and kept as a string when that fails. */
  lemma UnfencedTextParsed(resposta: string, parse: Parse)
    requires FencedText(resposta).None?
    ensures parse(resposta).Some? ==> ExtrairJson(resposta, parse) == parse(resposta).value
    ensures parse(resposta).None? ==> ExtrairJson(resposta, parse) == JStr(resposta)
  {
  }

  /** Only the first fenced block counts: whatever follows it, fenced or not, is ignored. */
  lemma FirstBlockParsed(before: string, body: string, after: string, parse: Parse)
    requires forall i: nat :: i < |before| ==> FenceAt(before + "```json\n" + body + "\n```" + after, i).None?
    requires body != [] && !IsSpace(body[0]) && !IsSpace(body[|body| - 1])
    requires forall k :: 0 <= k < |body| ==> body[k] != '`'
    ensures ExtrairJson(before + "```json\n" + body + "\n```" + after, parse) == parse(body).GetOr(JNull)
  {
    FenceOfBlock(before, body, after);
    FencedBlockParsed(before + "```json\n" + body + "\n```" + after, parse);
  }

  /** The user message's content: the prompt as text, then the image when `imageUrl` is
      truthy. */
  function ContentOf(prompt: string, imageUrl: Option<Json>): seq<ContentItem> {
    [TextItem(prompt)] + if FalsyOpt(imageUrl) then [] else [ImageItem(imageUrl.value)]
  }

  /** The content list is built with the text item and then pushed onto in place. */
  method BuildContent(prompt: string, imageUrl: Option<Json>) returns (content: seq<ContentItem>)
    ensures content == ContentOf(prompt, imageUrl)
  {
    content := [TextItem(prompt)];
    if !FalsyOpt(imageUrl) {
      content := content + [ImageItem(imageUrl.value)];
    }
  }

  /** The text item always comes first; an image item follows exactly when `imageUrl` is
      truthy, and it carries that value. */
  lemma ContentShape(prompt: string, imageUrl: Option<Json>)
    ensures var c := ContentOf(prompt, imageUrl);
      c[0] == TextItem(prompt) && (|c| == 1 || |c| == 2)
      && (|c| == 2 <==> !FalsyOpt(imageUrl))
      && (|c| == 2 ==> c[1] == ImageItem(imageUrl.value))
  {
  }

  /** `modelParameters.max_tokens || 4096`. */
  function MaxTokens(maxTokens: Option<Json>): Json {
    if FalsyOpt(maxTokens) then JNum(DefaultMaxTokens) else maxTokens.value
  }

  /** The request `process` posts, or what it throws before posting: a missing or empty
      key first, then a `null` parameter object (undefined becomes `{}`). */
  function RequestOf(prompt: string, model: Option<string>, modelParameters: Option<Json>,
                     apiKey: Option<string>): Result<ChatRequest, Error>
  {
    if apiKey.None? || apiKey.value == "" then Failure(MissingApiKey)
    else
      var params := modelParameters.GetOr(JObj([]));
      match Prop(params, "imageUrl")
      case Failure(e) => Failure(e)
      case Success(imageUrl) =>
        Success(ChatRequest(Endpoint, "Bearer " + apiKey.value, model, ContentOf(prompt, imageUrl),
                            MaxTokens(Prop(params, "max_tokens").value)))
  }

  /** What a reply turns into: a status other than 200 throws; otherwise the first
      choice's trimmed text goes through `extrairJSON`. */
  function Respond(reply: Reply, parse: Parse): Result<Json, Error> {
    if reply.status != 200 then Failure(HttpStatus(reply.status))
    else
      match ReplyText(reply.data)
      case Failure(e) => Failure(e)
      case Success(text) => Success(ExtrairJson(text, parse))
  }

  /** `process(prompt, model, modelParameters)`, with the environment's key, the HTTP
      client and `JSON.parse` as parameters. */
  function ProcessOf(prompt: string, model: Option<string>, modelParameters: Option<Json>,
                     apiKey: Option<string>, post: Post, parse: Parse): Result<Json, Error>
  {
    match RequestOf(prompt, model, modelParameters, apiKey)
    case Failure(e) => Failure(e)
    case Success(request) =>
      match post(request)
      case Failure(e) => Failure(e)
      case Success(reply) => Respond(reply, parse)
  }

  method Process(prompt: string, model: Option<string>, modelParameters: Option<Json>,
                 apiKey: Option<string>, post: Post, parse: Parse) returns (r: Result<Json, Error>)
    ensures r == ProcessOf(prompt, model, modelParameters, apiKey, post, parse)
  {
    if apiKey.None? || apiKey.value == "" {
      return Failure(MissingApiKey);
    }
    var params := modelParameters.GetOr(JObj([]));
    var imageUrl := Prop(params, "imageUrl");
    if imageUrl.Failure? {
      return Failure(imageUrl.error);
    }
    var content := BuildContent(prompt, imageUrl.value);
    var request := ChatRequest(Endpoint, "Bearer " + apiKey.value, model, content,
                               MaxTokens(Prop(params, "max_tokens").value));
    var response := post(request);
    if response.Failure? {
      return Failure(response.error);
    }
    r := Respond(response.value, parse);
  }

  /** A missing or empty key throws before any request is built or posted. */
  lemma MissingKeyThrowsFirst(prompt: string, model: Option<string>, modelParameters: Option<Json>,
                              apiKey: Option<string>, post: Post, parse: Parse)
    requires apiKey.None? || apiKey.value == ""
    ensures ProcessOf(prompt, model, modelParameters, apiKey, post, parse) == Failure(MissingApiKey)
  {
  }

  /** A `null` parameter object throws a `TypeError` before anything is posted. */
  lemma NullParametersThrow(prompt: string, model: Option<string>, key: string, post: Post, parse: Parse)
    requires key != ""
    ensures ProcessOf(prompt, model, Some(JNull), Some(key), post, parse).Failure?
    ensures ProcessOf(prompt, model, Some(JNull), Some(key), post, parse).error.TypeError?
  {
  }

  /** Without parameters the request holds the prompt alone and asks for 4096 tokens. */
  lemma DefaultRequest(prompt: string, model: Option<string>, key: string)
    requires key != ""
    ensures RequestOf(prompt, model, None, Some(key))
            == Success(ChatRequest(Endpoint, "Bearer " + key, model, [TextItem(prompt)], JNum(4096)))
  {
    assert ContentOf(prompt, None) == [TextItem(prompt)];
  }

  /** With a parameter object, the image is attached exactly when `imageUrl` is truthy and
      `max_tokens` is used exactly when truthy, 4096 otherwise. */
  lemma RequestFromParameters(prompt: string, model: Option<string>, fields: seq<(string, Json)>, key: string)
    requires key != ""
    ensures var r := RequestOf(prompt, model, Some(JObj(fields)), Some(key));
      var imageUrl := FindField(fields, "imageUrl");
      var maxTokens := FindField(fields, "max_tokens");
      r.Success? && r.value.authorization == "Bearer " + key && r.value.model == model
      && r.value.content[0] == TextItem(prompt)
      && (|r.value.content| == 2 <==> !FalsyOpt(imageUrl))
      && (|r.value.content| == 2 ==> r.value.content[1] == ImageItem(imageUrl.value))
      && (FalsyOpt(maxTokens) ==> r.value.maxTokens == JNum(DefaultMaxTokens))
      && (!FalsyOpt(maxTokens) ==> r.value.maxTokens == maxTokens.value)
  {
    ContentShape(prompt, FindField(fields, "imageUrl"));
  }

  /** Once the request is built, the reply decides: an error from the client is rethrown,
      a status other than 200 throws, and a 200 reply's text is extracted. */
  lemma PostedRequestDecides(prompt: string, model: Option<string>, modelParameters: Option<Json>,
                             apiKey: Option<string>, post: Post, parse: Parse)
    requires RequestOf(prompt, model, modelParameters, apiKey).Success?
    ensures var sent := post(RequestOf(prompt, model, modelParameters, apiKey).value);
      var r := ProcessOf(prompt, model, modelParameters, apiKey, post, parse);
      (sent.Failure? ==> r == Failure(sent.error))
      && (sent.Success? && sent.value.status != 200 ==> r == Failure(HttpStatus(sent.value.status)))
      && (sent.Success? && sent.value.status == 200 && ReplyText(sent.value.data).Success? ==>
            r == Success(ExtrairJson(ReplyText(sent.value.data).value, parse)))
  {
  }
}
