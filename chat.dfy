/** What the two chat-completion adapters read from the HTTP response: its status and
    `response.data.choices[0].message.content.trim()`
    (src/engines/OpenAIIntegration.js:81-82, src/engines/GeminiIntegration.js:29-30). */
module ChatReply {
  import opened Wrappers
  import opened Js

  /** The part of an axios response the adapters look at. */
  datatype Reply = Reply(status: int, data: Json)

  /** Reading a property of a possibly-undefined value; reading from undefined throws. */
  function Member(v: Option<Json>, key: string): Result<Option<Json>, Error> {
    match v
    case None => Failure(TypeError("Cannot read properties of undefined (reading '" + key + "')"))
    case Some(x) => Prop(x, key)
  }

  /** `v[0]`: the first element of an array, the first character of a string, the entry
      named "0" of an object; reading from undefined or null throws. */
  function Element0(v: Option<Json>): Result<Option<Json>, Error> {
    match v
    case None => Failure(TypeError("Cannot read properties of undefined (reading '0')"))
    case Some(JNull) => Failure(TypeError("Cannot read properties of null (reading '0')"))
    case Some(JArr(items)) => Success(if items == [] then None else Some(items[0]))
    case Some(JStr(s)) => Success(if s == [] then None else Some(JStr([s[0]])))
    case Some(JObj(fields)) => Success(FindField(fields, "0"))
    case Some(_) => Success(None)
  }

  /** `data.choices[0].message.content`. */
  function ContentAt(data: Json): Result<Option<Json>, Error> {
    match Prop(data, "choices")
    case Failure(e) => Failure(e)
    case Success(choices) =>
      match Element0(choices)
      case Failure(e) => Failure(e)
      case Success(first) =>
        match Member(first, "message")
        case Failure(e) => Failure(e)
        case Success(message) => Member(message, "content")
  }

  /** `data.choices[0].message.content.trim()`. */
  function ReplyText(data: Json): Result<string, Error> {
    match ContentAt(data)
    case Failure(e) => Failure(e)
    case Success(None) => Failure(TypeError("Cannot read properties of undefined (reading 'trim')"))
    case Success(Some(content)) =>
      if content.JStr? then Success(Trim(content.s))
      else if content == JNull then Failure(TypeError("Cannot read properties of null (reading 'trim')"))
      else Failure(TypeError("content.trim is not a function"))
  }

  /** The body of a chat completion whose first choice says `text`. */
  function Completion(text: string): Json {
    JObj([("choices", JArr([JObj([("message", JObj([("role", JStr("assistant")), ("content", JStr(text))]))])]))])
  }

  /** A completion yields its first choice's text with the white space around it removed. */
  lemma CompletionText(text: string)
    ensures ReplyText(Completion(text)) == Success(Trim(text))
  {
    var message := JObj([("role", JStr("assistant")), ("content", JStr(text))]);
    var choice := JObj([("message", message)]);
    assert FindField(Completion(text).fields, "choices") == Some(JArr([choice]));
    assert FindField(choice.fields, "message") == Some(message);
    assert FindField(message.fields, "content") == Some(JStr(text));
    assert ContentAt(Completion(text)) == Success(Some(JStr(text)));
  }

  /** A reply without a string at `choices[0].message.content` throws a `TypeError`. */
  lemma ReplyTextErrors(data: Json)
    ensures ReplyText(data).Failure? ==> ReplyText(data).error.TypeError?
  {
  }

  /** A body that is not an object with a non-empty `choices` list throws. */
  lemma ReplyTextNeedsChoices(data: Json)
    requires !data.JObj? || FindField(data.fields, "choices") == Some(JArr([]))
    ensures ReplyText(data).Failure?
  {
  }
}
