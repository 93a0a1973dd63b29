/** The two engine registries: `LLMIntegration.processPrompt`, which the pipeline calls
    (src/services/LLMIntegration.js), and `PromptProcessorService.processPrompt`
    (src/services/PromptProcessorService.js). Each lowercases the engine name, selects
    one adapter by it or throws, and forwards the call. The adapters themselves are
    network clients and are a parameter here. */
module Registry {
  import opened Wrappers
  import opened Js

  /** The adapters `LLMIntegration` knows. */
  datatype LlmAdapter = LlmOpenAI | LlmDallE | LlmGemini

  function LlmName(a: LlmAdapter): string {
    match a
    case LlmOpenAI => "openai"
    case LlmDallE => "dall-e"
    case LlmGemini => "gemini"
  }

  /** The `switch (engine.toLowerCase())` of `LLMIntegration`. */
  function LlmAdapterFor(engine: string): (r: Option<LlmAdapter>)
    ensures r.Some? ==> LlmName(r.value) == ToLower(engine)
  {
    LlmAdapterNamed(ToLower(engine))
  }

  /** The cases of that switch, on the lowercased name. */
  function LlmAdapterNamed(e: string): (r: Option<LlmAdapter>)
    ensures r.Some? ==> LlmName(r.value) == e
  {
    if e == "openai" then Some(LlmOpenAI)
    else if e == "dall-e" then Some(LlmDallE)
    else if e == "gemini" then Some(LlmGemini)
    else None
  }

  /** What an adapter's `process(prompt, model)` gives: a value or what it throws. */
  type LlmCall = (LlmAdapter, string, Option<string>) -> Result<Json, Error>

  /** `LLMIntegration.processPrompt(prompt, engine, model)`. A null engine throws on
      `toLowerCase`; an unknown one throws `Engine não suportada`; otherwise the selected
      adapter's outcome, error included, is returned as it is. */
  function LlmProcessPrompt(prompt: string, engine: Option<string>, model: Option<string>, call: LlmCall)
    : (r: Result<Json, Error>)
    ensures engine.None? ==> r.Failure? && r.error.TypeError?
    ensures engine.Some? && LlmAdapterFor(engine.value).None? ==> r == Failure(UnsupportedEngine(engine.value))
    ensures engine.Some? && LlmAdapterFor(engine.value).Some? ==>
              r == call(LlmAdapterFor(engine.value).value, prompt, model)
  {
    match engine
    case None => Failure(TypeError("Cannot read properties of null (reading 'toLowerCase')"))
    case Some(e) =>
      match LlmAdapterFor(e)
      case None => Failure(UnsupportedEngine(e))
      case Some(a) => call(a, prompt, model)
  }

  /** An adapter is selected exactly when the lowercased engine name is its name, and
      the three names are distinct. */
  lemma LlmLookupExact(engine: string, a: LlmAdapter)
    ensures LlmAdapterFor(engine) == Some(a) <==> ToLower(engine) == LlmName(a)
  {
  }

  /** Case does not matter: an engine name selects what its lowercase form selects. */
  lemma LlmLookupCaseInsensitive(engine: string)
    ensures LlmAdapterFor(engine) == LlmAdapterFor(ToLower(engine))
  {
    ToLowerIdempotent(engine);
  }

  /** An unsupported engine fails the same way whatever the adapters would do: no
      adapter is consulted. */
  lemma LlmUnknownCallsNothing(prompt: string, engine: string, model: Option<string>, call1: LlmCall, call2: LlmCall)
    requires LlmAdapterFor(engine).None?
    ensures LlmProcessPrompt(prompt, Some(engine), model, call1) == LlmProcessPrompt(prompt, Some(engine), model, call2)
  {
  }

  /** The adapters `PromptProcessorService` knows. */
  datatype Adapter =
    | OpenAI | DallE | Gemini
    | InferenceTextToImage | InferenceTextGeneration | InferenceTextToAudio | InferenceTextToSpeech
    | FreePikTextToImage | WritterAI | BrainstormAI | Wordpress | Instagram | Curl

  function AdapterName(a: Adapter): string {
    match a
    case OpenAI => "openai"
    case DallE => "dall-e"
    case Gemini => "gemini"
    case InferenceTextToImage => "inferenceapi-text-to-image"
    case InferenceTextGeneration => "inferenceapi-text-generation"
    case InferenceTextToAudio => "inferenceapi-text-to-audio"
    case InferenceTextToSpeech => "inferenceapi-text-to-speech"
    case FreePikTextToImage => "freepikapi-text-to-image"
    case WritterAI => "writter-ai"
    case BrainstormAI => "brainstorm-ai"
    case Wordpress => "wordpress"
    case Instagram => "instagram"
    case Curl => "curl"
  }

  /** The `switch (engine.toLowerCase())` of `PromptProcessorService`. */
  function AdapterFor(engine: string): (r: Option<Adapter>)
    ensures r.Some? ==> AdapterName(r.value) == ToLower(engine)
  {
    AdapterNamed(ToLower(engine))
  }

  /** The cases of that switch, on the lowercased name. */
  function AdapterNamed(e: string): (r: Option<Adapter>)
    ensures r.Some? ==> AdapterName(r.value) == e
  {
    if e == "openai" then Some(OpenAI)
    else if e == "dall-e" then Some(DallE)
    else if e == "gemini" then Some(Gemini)
    else if e == "inferenceapi-text-to-image" then Some(InferenceTextToImage)
    else if e == "inferenceapi-text-generation" then Some(InferenceTextGeneration)
    else if e == "inferenceapi-text-to-audio" then Some(InferenceTextToAudio)
    else if e == "inferenceapi-text-to-speech" then Some(InferenceTextToSpeech)
    else if e == "freepikapi-text-to-image" then Some(FreePikTextToImage)
    else if e == "writter-ai" then Some(WritterAI)
    else if e == "brainstorm-ai" then Some(BrainstormAI)
    else if e == "wordpress" then Some(Wordpress)
    else if e == "instagram" then Some(Instagram)
    else if e == "curl" then Some(Curl)
    else None
  }

  /** What an adapter's `process(prompt, model, parametrosModelo)` gives. */
  type AdapterCall = (Adapter, string, Option<string>, Option<Json>) -> Result<Json, Error>

  /** `PromptProcessorService.processPrompt(prompt, engine, model, parametrosModelo)`:
      the same lookup, with the model parameters forwarded as well. */
  function ProcessPrompt(prompt: string, engine: Option<string>, model: Option<string>,
                         parametrosModelo: Option<Json>, call: AdapterCall): (r: Result<Json, Error>)
    ensures engine.None? ==> r.Failure? && r.error.TypeError?
    ensures engine.Some? && AdapterFor(engine.value).None? ==> r == Failure(UnsupportedEngine(engine.value))
    ensures engine.Some? && AdapterFor(engine.value).Some? ==>
              r == call(AdapterFor(engine.value).value, prompt, model, parametrosModelo)
  {
    match engine
    case None => Failure(TypeError("Cannot read properties of null (reading 'toLowerCase')"))
    case Some(e) =>
      match AdapterFor(e)
      case None => Failure(UnsupportedEngine(e))
      case Some(a) => call(a, prompt, model, parametrosModelo)
  }

  /** An adapter is selected exactly when the lowercased engine name is its name; so
      each of the thirteen names selects one adapter and no two adapters share a name. */
  lemma AdapterLookupExact(engine: string, a: Adapter)
    ensures AdapterFor(engine) == Some(a) <==> ToLower(engine) == AdapterName(a)
  {
    if ToLower(engine) == AdapterName(a) {
      AdapterNamedByName(a);
    }
  }

  /** Each adapter's name selects that adapter. */
  lemma AdapterNamedByName(a: Adapter)
    ensures AdapterNamed(AdapterName(a)) == Some(a)
  {
    match a
    case OpenAI =>
    case DallE =>
    case Gemini =>
    case InferenceTextToImage =>
    case InferenceTextGeneration =>
    case InferenceTextToAudio =>
    case InferenceTextToSpeech =>
    case FreePikTextToImage =>
    case WritterAI =>
    case BrainstormAI =>
    case Wordpress =>
    case Instagram =>
    case Curl =>
  }

  lemma AdapterNamesDistinct(a: Adapter, b: Adapter)
    requires AdapterName(a) == AdapterName(b)
    ensures a == b
  {
  }

  lemma AdapterLookupCaseInsensitive(engine: string)
    ensures AdapterFor(engine) == AdapterFor(ToLower(engine))
  {
    ToLowerIdempotent(engine);
  }

  lemma UnknownCallsNothing(prompt: string, engine: string, model: Option<string>, parametrosModelo: Option<Json>,
                            call1: AdapterCall, call2: AdapterCall)
    requires AdapterFor(engine).None?
    ensures ProcessPrompt(prompt, Some(engine), model, parametrosModelo, call1)
            == ProcessPrompt(prompt, Some(engine), model, parametrosModelo, call2)
  {
  }

  /** The three adapters `LLMIntegration` knows are selected by the same names in
      `PromptProcessorService`. */
  lemma LlmRegistryIncluded(engine: string)
    ensures LlmAdapterFor(engine) == Some(LlmOpenAI) <==> AdapterFor(engine) == Some(OpenAI)
    ensures LlmAdapterFor(engine) == Some(LlmDallE) <==> AdapterFor(engine) == Some(DallE)
    ensures LlmAdapterFor(engine) == Some(LlmGemini) <==> AdapterFor(engine) == Some(Gemini)
  {
  }
}
