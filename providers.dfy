/** The embedding providers: a dummy provider that derives its vector from a
    hash of the text, a remote OpenAI-backed one and a local sentence-model
    one, with their dimension tables and the factory that builds one by name. */
module Providers {
  import opened Common

  /** One coordinate of an embedding. The numbers themselves are not modelled:
      `Drawn(text, dimension, i)` stands for the `i`-th coordinate of the unit
      vector the dummy provider draws from a generator seeded with the hash of
      `text`; `Returned(x)` is a number an external model returned; `Zero` is
      the `0.0` of the fallback vector. */
  datatype Coordinate = Zero | Drawn(text: string, dimension: int, index: nat) | Returned(x: real)

  type Vector = seq<Coordinate>

  /** A constructed provider, with the settings its constructor stored. */
  datatype Provider =
    | Dummy(dimension: int)
    | OpenAI(apiKey: string, model: string)
    | HuggingFace(modelName: string)

  /** Why a provider could not be built. */
  datatype ProviderError =
    | UnknownProvider(name: string)
    | UnexpectedArguments(names: set<string>)
    | WrongArgumentType(name: string)
    | MissingApiKey
    | ModelUnavailable(modelName: string)

  /** What the constructors read from outside the process: the
      `OPENAI_API_KEY` variable and the sentence-transformer models that can be
      loaded (none when the library is not installed). */
  datatype Environment = Environment(openAIKey: Option<string>, loadableModels: set<string>)

  /** The answer of an external model to one `embed_text` call. */
  datatype Reply = Replied(vector: Vector) | Raised(message: string)

  const DefaultDummyDimension: int := 512
  const DefaultOpenAIModel: string := "text-embedding-3-small"
  const DefaultHuggingFaceModel: string := "all-MiniLM-L6-v2"
  const KnownProviders: set<string> := {"dummy", "openai", "huggingface"}

  /** The factory name a provider answers to. */
  function NameOf(p: Provider): string {
    match p
    case Dummy(_) => "dummy"
    case OpenAI(_, _) => "openai"
    case HuggingFace(_) => "huggingface"
  }

  /** The dimension table of the OpenAI models: only the large model is
      3072-dimensional, every other model name, known or not, is declared
      1536-dimensional. */
  function OpenAIDimension(model: string): (d: int)
    ensures d == 3072 <==> model == "text-embedding-3-large"
    ensures d == 1536 <==> model != "text-embedding-3-large"
  {
    var dimensions := map["text-embedding-3-small" := 1536,
                          "text-embedding-3-large" := 3072,
                          "text-embedding-ada-002" := 1536];
    if model in dimensions then dimensions[model] else 1536
  }

  /** The dimension table of the sentence-transformer models: the two large
      models are 768-dimensional, every other name, known or not, is declared
      384-dimensional. */
  function HuggingFaceDimension(modelName: string): (d: int)
    ensures d == 768 <==> modelName == "all-mpnet-base-v2" || modelName == "all-distilroberta-v1"
    ensures d == 384 <==> !(modelName == "all-mpnet-base-v2" || modelName == "all-distilroberta-v1")
  {
    var dimensions := map["all-MiniLM-L6-v2" := 384,
                          "all-mpnet-base-v2" := 768,
                          "all-distilroberta-v1" := 768,
                          "paraphrase-MiniLM-L6-v2" := 384];
    if modelName in dimensions then dimensions[modelName] else 384
  }

  /** `get_dimension()`. */
  function GetDimension(p: Provider): (d: int)
    ensures p.Dummy? ==> d == p.dimension
    ensures !p.Dummy? ==> 384 <= d <= 3072
  {
    match p
    case Dummy(dimension) => dimension
    case OpenAI(_, model) => OpenAIDimension(model)
    case HuggingFace(modelName) => HuggingFaceDimension(modelName)
  }

  /** The number of elements of `[x] * n` and of `range(n)`. */
  function Count(n: int): nat {
    if n < 0 then 0 else n
  }

  /** `[0.0] * n`. */
  function Zeros(n: int): (v: Vector)
    ensures |v| == Count(n)
    ensures forall i :: 0 <= i < |v| ==> v[i] == Zero
  {
    seq(Count(n), _ => Zero)
  }

  /** The dummy embedding: one drawn coordinate per element of
      `range(dimension)`; it depends on nothing but the text and the
      dimension. */
  function DummyEmbedding(text: string, dimension: int): (v: Vector)
    ensures |v| == Count(dimension)
    ensures forall i :: 0 <= i < |v| ==> v[i] == Drawn(text, dimension, i)
  {
    seq(Count(dimension), i requires 0 <= i => Drawn(text, dimension, i))
  }

  /** `embed_text(text)`: the dummy provider computes its vector itself and
      cannot fail; the other two pass on what the external model replied, or
      its exception. */
  function EmbedText(p: Provider, text: string, reply: Reply): (r: Result<Vector, string>)
    ensures p.Dummy? ==> r == Success(DummyEmbedding(text, p.dimension))
    ensures p.Dummy? ==> (|r.value| == GetDimension(p) <==> 0 <= p.dimension)
    ensures !p.Dummy? ==> (r.Success? <==> reply.Replied?)
    ensures !p.Dummy? && reply.Replied? ==> r.value == reply.vector
  {
    match p
    case Dummy(dimension) => Success(DummyEmbedding(text, dimension))
    case _ =>
      match reply
      case Replied(v) => Success(v)
      case Raised(message) => Failure(message)
  }

  /** A keyword argument the constructor reads as a whole number. */
  function IntArgument(kwargs: Kwargs, name: string, default: int): Result<int, ProviderError> {
    if name !in kwargs then Success(default)
    else match kwargs[name]
      case IntValue(n) => Success(n)
      case TextValue(_) => Failure(WrongArgumentType(name))
  }

  /** A keyword argument the constructor reads as a string. */
  function TextArgument(kwargs: Kwargs, name: string, default: Option<string>): Result<Option<string>, ProviderError> {
    if name !in kwargs then Success(default)
    else match kwargs[name]
      case TextValue(s) => Success(Some(s))
      case IntValue(_) => Failure(WrongArgumentType(name))
  }

  /** `DummyEmbeddingProvider(**kwargs)`: `get_dimension()` of the result is
      the `dimension` argument, 512 when it is not given. */
  function NewDummy(kwargs: Kwargs): (r: Result<Provider, ProviderError>)
    ensures r.Success? <==> DummyArguments(kwargs)
    ensures r.Success? ==> r.value.Dummy?
    ensures r.Success? ==> GetDimension(r.value) == DummyDimension(kwargs)
  {
    if kwargs.Keys - {"dimension"} != {} then Failure(UnexpectedArguments(kwargs.Keys - {"dimension"}))
    else match IntArgument(kwargs, "dimension", DefaultDummyDimension)
      case Success(dimension) => Success(Dummy(dimension))
      case Failure(e) => Failure(e)
  }

  /** The keyword arguments name only the `dimension` parameter, with a whole
      number for it. */
  predicate DummyArguments(kwargs: Kwargs) {
    kwargs.Keys <= {"dimension"} && ("dimension" in kwargs ==> kwargs["dimension"].IntValue?)
  }

  /** The dimension a dummy provider built from `kwargs` declares. */
  function DummyDimension(kwargs: Kwargs): int
    requires DummyArguments(kwargs)
  {
    if "dimension" in kwargs then kwargs["dimension"].n else DefaultDummyDimension
  }

  /** `OpenAIEmbeddingProvider(**kwargs)`: the key is the `api_key` argument
      when it is a non-empty string, else the environment variable; the
      constructor raises when neither gives a non-empty key. */
  function NewOpenAI(kwargs: Kwargs, env: Environment): (r: Result<Provider, ProviderError>)
    ensures r.Success? ==> r.value.OpenAI? && r.value.apiKey != ""
    ensures r.Success? ==> ("model" in kwargs ==> kwargs["model"] == TextValue(r.value.model))
    ensures r.Success? ==> ("model" !in kwargs ==> r.value.model == DefaultOpenAIModel)
    ensures r.Success? ==> KeyAvailable(kwargs, env) && r.value.apiKey == ApiKey(kwargs, env)
    ensures WellTypedOpenAIArguments(kwargs) ==> (r.Success? <==> KeyAvailable(kwargs, env))
    ensures WellTypedOpenAIArguments(kwargs) ==> (r == Failure(MissingApiKey) <==> !KeyAvailable(kwargs, env))
    ensures !WellTypedOpenAIArguments(kwargs) ==> r.Failure? && r.error != MissingApiKey
  {
    var extra := kwargs.Keys - {"api_key", "model"};
    if extra != {} then Failure(UnexpectedArguments(extra))
    else match (TextArgument(kwargs, "api_key", None), TextArgument(kwargs, "model", Some(DefaultOpenAIModel)))
      case (Failure(e), _) => Failure(e)
      case (_, Failure(e)) => Failure(e)
      case (Success(key), Success(model)) =>
        var resolved := if key.Some? && key.value != "" then key else env.openAIKey;
        if resolved.None? || resolved.value == "" then Failure(MissingApiKey)
        else Success(OpenAI(resolved.value, model.value))
  }

  /** The keyword arguments name only parameters of the OpenAI constructor,
      with strings for both. */
  predicate WellTypedOpenAIArguments(kwargs: Kwargs) {
    && kwargs.Keys <= {"api_key", "model"}
    && ("api_key" in kwargs ==> kwargs["api_key"].TextValue?)
    && ("model" in kwargs ==> kwargs["model"].TextValue?)
  }

  /** An `api_key` argument that is a non-empty string. */
  predicate GivesKey(kwargs: Kwargs) {
    "api_key" in kwargs && kwargs["api_key"].TextValue? && kwargs["api_key"].s != ""
  }

  /** A non-empty key is given either as the argument or in the environment. */
  predicate KeyAvailable(kwargs: Kwargs, env: Environment) {
    GivesKey(kwargs) || (env.openAIKey.Some? && env.openAIKey.value != "")
  }

  /** The key an OpenAI provider built from `kwargs` stores. */
  function ApiKey(kwargs: Kwargs, env: Environment): string
    requires KeyAvailable(kwargs, env)
  {
    if GivesKey(kwargs) then kwargs["api_key"].s else env.openAIKey.value
  }

  /** The model an OpenAI provider built from `kwargs` uses. */
  function OpenAIModel(kwargs: Kwargs): string
    requires WellTypedOpenAIArguments(kwargs)
  {
    if "model" in kwargs then kwargs["model"].s else DefaultOpenAIModel
  }

  /** The keyword arguments name only the `model_name` parameter, with a
      string for it. */
  predicate HuggingFaceArguments(kwargs: Kwargs) {
    kwargs.Keys <= {"model_name"} && ("model_name" in kwargs ==> kwargs["model_name"].TextValue?)
  }

  /** The model a sentence-transformer provider built from `kwargs` loads. */
  function ModelName(kwargs: Kwargs): string
    requires HuggingFaceArguments(kwargs)
  {
    if "model_name" in kwargs then kwargs["model_name"].s else DefaultHuggingFaceModel
  }

  /** `HuggingFaceEmbeddingProvider(**kwargs)`: loading the named model fails
      when the library or the model is not available. */
  function NewHuggingFace(kwargs: Kwargs, env: Environment): (r: Result<Provider, ProviderError>)
    ensures r.Success? ==> r.value.HuggingFace? && r.value.modelName in env.loadableModels
    ensures r.Success? ==> ("model_name" in kwargs ==> kwargs["model_name"] == TextValue(r.value.modelName))
    ensures r.Success? ==> ("model_name" !in kwargs ==> r.value.modelName == DefaultHuggingFaceModel)
    ensures kwargs == map[] ==> (r.Success? <==> DefaultHuggingFaceModel in env.loadableModels)
    ensures kwargs.Keys == {"model_name"} && kwargs["model_name"].TextValue? ==>
              (r.Success? <==> kwargs["model_name"].s in env.loadableModels)
    ensures r.Success? <==> HuggingFaceArguments(kwargs) && ModelName(kwargs) in env.loadableModels
  {
    var extra := kwargs.Keys - {"model_name"};
    if extra != {} then Failure(UnexpectedArguments(extra))
    else match TextArgument(kwargs, "model_name", Some(DefaultHuggingFaceModel))
      case Failure(e) => Failure(e)
      case Success(name) =>
        if name.value in env.loadableModels then Success(HuggingFace(name.value))
        else Failure(ModelUnavailable(name.value))
  }

  /** `get_embedding_provider(provider_type, **kwargs)`: an unknown name is
      rejected, a known one passes the keyword arguments on to the
      constructor of that name, which succeeds exactly when they suit it. */
  function GetEmbeddingProvider(providerType: string, kwargs: Kwargs, env: Environment): (r: Result<Provider, ProviderError>)
    ensures r == Failure(UnknownProvider(providerType)) <==> providerType !in KnownProviders
    ensures r.Success? ==> NameOf(r.value) == providerType
    ensures providerType == "dummy" ==>
              (r.Success? <==> DummyArguments(kwargs))
              && (r.Success? ==> r.value == Dummy(DummyDimension(kwargs)))
    ensures providerType == "openai" ==>
              (r.Success? <==> WellTypedOpenAIArguments(kwargs) && KeyAvailable(kwargs, env))
              && (r.Success? ==> r.value == OpenAI(ApiKey(kwargs, env), OpenAIModel(kwargs)))
    ensures providerType == "huggingface" ==>
              (r.Success? <==> HuggingFaceArguments(kwargs) && ModelName(kwargs) in env.loadableModels)
              && (r.Success? ==> r.value == HuggingFace(ModelName(kwargs)))
  {
    if providerType == "dummy" then NewDummy(kwargs)
    else if providerType == "openai" then NewOpenAI(kwargs, env)
    else if providerType == "huggingface" then NewHuggingFace(kwargs, env)
    else Failure(UnknownProvider(providerType))
  }

  const DefaultProviderType: string := "dummy"

  /** `get_embedding_provider(**kwargs)` without a provider name: the dummy
      provider, 512-dimensional when no argument is given. */
  function GetDefaultEmbeddingProvider(kwargs: Kwargs, env: Environment): (r: Result<Provider, ProviderError>)
    ensures r.Success? <==> DummyArguments(kwargs)
    ensures r.Success? ==> r.value == Dummy(DummyDimension(kwargs))
    ensures kwargs == map[] ==> r == Success(Dummy(DefaultDummyDimension))
  {
    GetEmbeddingProvider(DefaultProviderType, kwargs, env)
  }
}
