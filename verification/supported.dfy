/**
 * Which providers, completion models and embedding models the extension
 * knows, looked up by name without regard to case.
 */
module Supported {
  import opened Text

  datatype Provider = OpenAI | Azure | AwsBedrock | Ollama | UnsupportedProvider | ProviderCount

  datatype Model = Gpt4o | Gpt4oMini | OllamaModel | UnsupportedModel | ModelCount

  datatype EmbeddingModel = TextEmbedding3Small | TextEmbedding3Large | OllamaEmbeddingModel
                          | UnsupportedEmbeddingModel | EmbeddingModelCount

  /** The provider named, compared lower-cased; the empty name and `default` mean OpenAI. */
  function GetProviderType(provider: string): Provider
  {
    var p := Lower(provider);
    if p == "openai" || p == "default" || p == "" then OpenAI
    else if p == "azure" then Azure
    else if p == "ollama" then Ollama
    else if p == "bedrock" then AwsBedrock
    else UnsupportedProvider
  }

  /** The completion model named; any model of the Ollama provider is an Ollama model. */
  function GetModelType(model: string, provider: string): Model
  {
    if Lower(provider) == "ollama" then OllamaModel
    else
      var m := Lower(model);
      if m == "gpt-4o" then Gpt4o
      else if m == "gpt-4o-mini" then Gpt4oMini
      else UnsupportedModel
  }

  /** The embedding model named; any model of the Ollama provider is an Ollama embedding model. */
  function GetEmbeddingModelType(model: string, provider: string): EmbeddingModel
  {
    if Lower(provider) == "ollama" then OllamaEmbeddingModel
    else
      var m := Lower(model);
      if m == "text-embedding-3-small" then TextEmbedding3Small
      else if m == "text-embedding-3-large" then TextEmbedding3Large
      else UnsupportedEmbeddingModel
  }

  /** The names the lookups accept, for each supported provider. */
  function ProviderNames(t: Provider): set<string>
  {
    match t
    case OpenAI => {"openai", "default", ""}
    case Azure => {"azure"}
    case AwsBedrock => {"bedrock"}
    case Ollama => {"ollama"}
    case _ => {}
  }

  /** A name gives a provider exactly when its lower-cased form is one of that provider's names; the count is never given. */
  lemma ProviderLookup(provider: string, t: Provider)
    requires t != UnsupportedProvider
    ensures GetProviderType(provider) == t <==> Lower(provider) in ProviderNames(t)
    ensures GetProviderType(provider) != ProviderCount
  {
  }

  /** A name no provider accepts gives the unsupported provider. */
  lemma UnknownProvider(provider: string)
    requires forall t :: Lower(provider) !in ProviderNames(t)
    ensures GetProviderType(provider) == UnsupportedProvider
  {
    assert Lower(provider) !in ProviderNames(OpenAI);
    assert Lower(provider) !in ProviderNames(Azure);
    assert Lower(provider) !in ProviderNames(AwsBedrock);
    assert Lower(provider) !in ProviderNames(Ollama);
  }

  /** Names that agree once lower-cased name the same provider and model. */
  lemma CaseInsensitive(model: string, provider: string, model': string, provider': string)
    requires Lower(model) == Lower(model') && Lower(provider) == Lower(provider')
    ensures GetProviderType(provider) == GetProviderType(provider')
    ensures GetModelType(model, provider) == GetModelType(model', provider')
    ensures GetEmbeddingModelType(model, provider) == GetEmbeddingModelType(model', provider')
  {
  }

  /** The upper-case spelling of any name a provider accepts finds that provider. */
  lemma UpperCaseProvider(name: string, t: Provider)
    requires name in ProviderNames(t)
    ensures GetProviderType(Upper(name)) == t
  {
    LowerOfUpper(name);
    assert Lower("openai") == "openai" && Lower("default") == "default" && Lower("") == "";
    assert Lower("azure") == "azure" && Lower("bedrock") == "bedrock" && Lower("ollama") == "ollama";
    ProviderLookup(Upper(name), t);
  }

  /**
   * The provider is looked at first: with Ollama the model does not matter;
   * with any other provider only the model does, and only two names are
   * known. The count is never given.
   */
  lemma ModelLookup(model: string, provider: string, other: string)
    requires Lower(other) != "ollama"
    ensures Lower(provider) == "ollama" ==> GetModelType(model, provider) == OllamaModel
    ensures Lower(provider) != "ollama" ==> GetModelType(model, provider) == GetModelType(model, other)
    ensures GetModelType(model, other) == Gpt4o <==> Lower(model) == "gpt-4o"
    ensures GetModelType(model, other) == Gpt4oMini <==> Lower(model) == "gpt-4o-mini"
    ensures GetModelType(model, other) != OllamaModel
    ensures GetModelType(model, provider) != ModelCount
  {
  }

  /** The same order for embedding models. */
  lemma EmbeddingModelLookup(model: string, provider: string, other: string)
    requires Lower(other) != "ollama"
    ensures Lower(provider) == "ollama" ==> GetEmbeddingModelType(model, provider) == OllamaEmbeddingModel
    ensures Lower(provider) != "ollama" ==> GetEmbeddingModelType(model, provider) == GetEmbeddingModelType(model, other)
    ensures GetEmbeddingModelType(model, other) == TextEmbedding3Small <==> Lower(model) == "text-embedding-3-small"
    ensures GetEmbeddingModelType(model, other) == TextEmbedding3Large <==> Lower(model) == "text-embedding-3-large"
    ensures GetEmbeddingModelType(model, other) != OllamaEmbeddingModel
    ensures GetEmbeddingModelType(model, provider) != EmbeddingModelCount
  {
  }
}
