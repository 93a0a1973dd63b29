/** The FreePik text-to-image adapter (src/engines/FreePikTextToImageIntegration.js): the
    request payload with its defaults, the status check, the hand-off of the base64 image
    to the image repository, and `calculateBase64Size`. */
module FreePikTextToImage {
  import opened Wrappers
  import opened Js
  import opened Base64

  const Endpoint := "https://api.freepik.com/v1/ai/text-to-image"

  /** The payload posted to the endpoint, one field per key of the object literal. */
  datatype Payload = Payload(prompt: string, negativePrompt: Json, guidanceScale: Json, seed: Json,
                             numImages: Json, image: Json, styling: Json)

  /** `modelParameters ? modelParameters : {}`. */
  function Parameters(modelParameters: Option<Json>): (p: Json)
    ensures p != JNull
  {
    if FalsyOpt(modelParameters) then JObj([]) else modelParameters.value
  }

  /** `modelParameters.<name> ? modelParameters.<name> : default` on a non-null object. */
  function OrDefault(params: Json, name: string, default: Json): Json
    requires params != JNull
  {
    var v := Prop(params, name).value;
    if FalsyOpt(v) then default else v.value
  }

  const DefaultImage := JObj([("size", JStr("square_1_1"))])

  /** The payload `process` builds; the parameters are read under their camelCase names. */
  function PayloadOf(prompt: string, modelParameters: Option<Json>): Payload {
    var params := Parameters(modelParameters);
    Payload(prompt,
            OrDefault(params, "negativePrompt", JObj([])),
            OrDefault(params, "guidanceScale", JNum(1)),
            OrDefault(params, "seed", JNum(-1)),
            OrDefault(params, "numImages", JNum(1)),
            OrDefault(params, "image", DefaultImage),
            OrDefault(params, "styling", JObj([])))
  }

  /** The payload without usable parameters. */
  function Defaults(prompt: string): Payload {
    Payload(prompt, JObj([]), JNum(1), JNum(-1), JNum(1), DefaultImage, JObj([]))
  }

  /** Missing or falsy parameters give the defaults, with the prompt copied unchanged. */
  lemma DefaultsWithoutParameters(prompt: string, modelParameters: Option<Json>)
    requires FalsyOpt(modelParameters)
    ensures PayloadOf(prompt, modelParameters) == Defaults(prompt)
  {
  }

  /** Parameters given only under the payload's own snake_case names are not read: an
      object without the camelCase keys yields the defaults. */
  lemma SnakeCaseIgnored(prompt: string, fields: seq<(string, Json)>)
    requires forall i :: 0 <= i < |fields| ==>
               fields[i].0 !in {"negativePrompt", "guidanceScale", "seed", "numImages", "image", "styling"}
    ensures PayloadOf(prompt, Some(JObj(fields))) == Defaults(prompt)
  {
  }

  /** A truthy parameter is copied; a falsy one, such as a seed of 0, gives the default. */
  lemma ParameterKept(prompt: string, fields: seq<(string, Json)>)
    ensures var p := PayloadOf(prompt, Some(JObj(fields)));
      var seed := FindField(fields, "seed");
      var scale := FindField(fields, "guidanceScale");
      p.prompt == prompt
      && (!FalsyOpt(seed) ==> p.seed == seed.value) && (FalsyOpt(seed) ==> p.seed == JNum(-1))
      && (!FalsyOpt(scale) ==> p.guidanceScale == scale.value) && (FalsyOpt(scale) ==> p.guidanceScale == JNum(1))
  {
  }

  /** A seed of 0 is falsy, so the payload carries the default seed -1. */
  lemma ZeroSeedDefaults(prompt: string, fields: seq<(string, Json)>)
    requires FindField(fields, "seed") == Some(JNum(0))
    ensures PayloadOf(prompt, Some(JObj(fields))).seed == JNum(-1)
  {
  }

  /** `base64String.split(',').pop()`: the text after the last comma, or all of it. */
  function AfterLastComma(s: string): (r: string)
    ensures |r| <= |s| && r == s[|s| - |r|..]
    ensures forall k :: 0 <= k < |r| ==> r[k] != ','
    ensures |r| < |s| ==> s[|s| - |r| - 1] == ','
  {
    if s == [] then []
    else if s[|s| - 1] == ',' then []
    else AfterLastComma(s[..|s| - 1]) + [s[|s| - 1]]
  }

  /** `calculateBase64Size`: three bytes per four characters, less one per `=`. */
  function CalculateBase64Size(s: string): real {
    var b := AfterLastComma(s);
    (|b| * 3) as real / 4.0 - Count(b, '=') as real
  }

  /** Text without a comma is taken whole. */
  lemma {:induction false} CommaFreeTakenWhole(s: string)
    requires forall k :: 0 <= k < |s| ==> s[k] != ','
    ensures AfterLastComma(s) == s
  {
    if s != [] {
      CommaFreeTakenWhole(s[..|s| - 1]);
      assert s[..|s| - 1] + [s[|s| - 1]] == s;
    }
  }

  /** A header ending in a comma, as in a data URL, is dropped. */
  lemma {:induction false} HeaderDropped(header: string, b: string)
    requires forall k :: 0 <= k < |b| ==> b[k] != ','
    ensures AfterLastComma(header + "," + b) == b
    decreases |b|
  {
    var s := header + "," + b;
    if b != [] {
      var b' := b[..|b| - 1];
      assert s[..|s| - 1] == header + "," + b';
      HeaderDropped(header, b');
      assert b' + [b[|b| - 1]] == b;
    }
  }

  /** Comma-free text of `4k` characters with `p` of them `=` counts `3k - p` bytes. */
  lemma SizeOfGroups(s: string, k: nat, p: nat)
    requires forall i :: 0 <= i < |s| ==> s[i] != ','
    requires |s| == 4 * k && Count(s, '=') == p
    ensures CalculateBase64Size(s) == (3 * k - p) as real
  {
    CommaFreeTakenWhole(s);
  }

  /** On the encoding of `n` bytes the function gives back `n`. */
  lemma EncodedSize(bytes: seq<Byte>)
    ensures CalculateBase64Size(Encode(bytes)) == |bytes| as real
  {
    var n := |bytes|;
    EncodeShape(bytes);
    SizeOfGroups(Encode(bytes), (n + 2) / 3, Padding(n));
    GroupsLessPadding(n);
  }

  /** The same behind a `data:` header. */
  lemma DataUrlSize(header: string, bytes: seq<Byte>)
    ensures CalculateBase64Size(header + "," + Encode(bytes)) == |bytes| as real
  {
    EncodeShape(bytes);
    HeaderDropped(header, Encode(bytes));
    EncodedSize(bytes);
    CommaFreeTakenWhole(Encode(bytes));
  }

  /** The part of the axios response the adapter reads: the status and the image bytes. */
  datatype ImageReply = ImageReply(status: int, data: seq<Byte>)

  /** `axiosInstance.post(endpoint, payload, ...)`: a reply, or what it throws. */
  type Post = Payload -> Result<ImageReply, Error>

  /** `imageRepoAPI.createImage(base64Image, ...)`: the saved image, or what it throws. */
  type Save = string -> Result<Json, Error>

  /** `process(prompt, model, modelParameters)`: errors are rethrown, a status other than
      200 throws, and a 200 reply's image is saved as base64. */
  function Process(prompt: string, modelParameters: Option<Json>, post: Post, save: Save): Result<Json, Error> {
    match post(PayloadOf(prompt, modelParameters))
    case Failure(e) => Failure(e)
    case Success(reply) =>
      if reply.status != 200 then Failure(HttpStatus(reply.status))
      else save(Encode(reply.data))
  }

  /** The reply decides the outcome, and the image saved is the reply's bytes in base64,
      whose computed size is the number of bytes received. */
  lemma ReplyDecides(prompt: string, modelParameters: Option<Json>, post: Post, save: Save)
    ensures var sent := post(PayloadOf(prompt, modelParameters));
      var r := Process(prompt, modelParameters, post, save);
      (sent.Failure? ==> r == Failure(sent.error))
      && (sent.Success? && sent.value.status != 200 ==> r == Failure(HttpStatus(sent.value.status)))
      && (sent.Success? && sent.value.status == 200 ==>
            r == save(Encode(sent.value.data))
            && CalculateBase64Size(Encode(sent.value.data)) == |sent.value.data| as real)
  {
    var sent := post(PayloadOf(prompt, modelParameters));
    if sent.Success? {
      EncodedSize(sent.value.data);
    }
  }
}
