/**
 * The records, the model union and the constant tables of the chat client.
 * Optional fields of the original records are `Option` values; `None` stands
 * for a field that is absent (`undefined`).
 */
module Types {
  import opened Wrappers

  datatype Role = User | Assistant

  /** A fenced code block extracted from an assistant reply, with its execution status. */
  datatype CodeBlock = CodeBlock(
    id: string,
    language: string,
    code: string,
    output: Option<string>,
    isExecuting: Option<bool>,
    error: Option<string>)

  /**
   * One chat message. `alternatives`, `currentAlternativeIndex` and
   * `originalContent` are the response-navigation fields.
   */
  datatype Message = Message(
    role: Role,
    content: string,
    isVoice: Option<bool>,
    codeBlocks: Option<seq<CodeBlock>>,
    timestamp: int,
    language: Option<string>,
    alternatives: Option<seq<string>>,
    currentAlternativeIndex: Option<nat>,
    originalContent: Option<string>)

  /**
   * A chat session. The declared type of `model` is the model union, but a
   * session restored from storage may carry any string there, and the older
   * store creates sessions without one, so the model keeps the raw identifier.
   */
  datatype ChatSession = ChatSession(
    id: string,
    name: string,
    createdAt: int,
    messages: seq<Message>,
    model: Option<string>,
    language: Option<string>)

  /** The whole store: the sessions, the selected one and the global flags. */
  datatype ChatState = ChatState(
    sessions: seq<ChatSession>,
    currentSessionId: string,
    isLoading: bool,
    error: Option<string>,
    isSpeaking: bool)

  /** The fifteen model identifiers of the `MistralModel` union. */
  datatype MistralModel =
    | Mistral7b | Mixtral8x7b | MistralLarge | MistralSmall | Mixtral8x22b
    | Codestral | Mathstral7b | MistralLarge2 | Pixtral | Ministral3b
    | Ministral8b | CodestralMamba7b | PixtralLarge | MistralSmall3 | MistralSaba
  {
    /** The string literal of the union member. */
    function Id(): string {
      match this
      case Mistral7b => "mistral-7b"
      case Mixtral8x7b => "mixtral-8x7b"
      case MistralLarge => "mistral-large"
      case MistralSmall => "mistral-small"
      case Mixtral8x22b => "mixtral-8x22b"
      case Codestral => "codestral"
      case Mathstral7b => "mathstral-7b"
      case MistralLarge2 => "mistral-large-2"
      case Pixtral => "pixtral"
      case Ministral3b => "ministral-3b"
      case Ministral8b => "ministral-8b"
      case CodestralMamba7b => "codestral-mamba-7b"
      case PixtralLarge => "pixtral-large"
      case MistralSmall3 => "mistral-small-3"
      case MistralSaba => "mistral-saba"
    }
  }

  /** `MISTRAL_MODELS`, in the order of the table. */
  const MistralModels: seq<MistralModel> := [
    Mistral7b, Mixtral8x7b, MistralLarge, MistralSmall, Mixtral8x22b,
    Codestral, Mathstral7b, MistralLarge2, Pixtral, Ministral3b,
    Ministral8b, CodestralMamba7b, PixtralLarge, MistralSmall3, MistralSaba
  ]

  datatype ModelCategory = ModelCategory(name: string, models: seq<MistralModel>)

  /** `MODEL_CATEGORIES`. */
  const ModelCategories: seq<ModelCategory> := [
    ModelCategory("General Purpose", [
      Mistral7b, Mixtral8x7b, MistralLarge, MistralSmall, MistralLarge2,
      MistralSmall3, MistralSaba, Mixtral8x22b, Ministral3b, Ministral8b]),
    ModelCategory("Specialized", [
      Codestral, CodestralMamba7b, Mathstral7b, Pixtral, PixtralLarge])
  ]

  datatype ModelInfo = ModelInfo(
    id: MistralModel,
    name: string,
    description: string,
    capabilities: seq<string>,
    tokenLimit: nat,
    bestFor: seq<string>)

  // The entries of `MODEL_INFO`.
  const Mistral7bInfo: ModelInfo := ModelInfo(Mistral7b, "Mistral 7B",
      "The original foundation model with strong general capabilities.",
      ["Text generation", "Summarization", "Q&A"], 8192,
      ["General purpose tasks", "Efficient processing"])

  const Mixtral8x7bInfo: ModelInfo := ModelInfo(Mixtral8x7b, "Mixtral 8x7B",
      "A mixture-of-experts model with enhanced reasoning capabilities.",
      ["Complex reasoning", "Multi-language support", "Knowledge tasks"], 32768,
      ["Complex tasks", "Multilingual content"])

  const MistralLargeInfo: ModelInfo := ModelInfo(MistralLarge, "Mistral Large",
      "High-performance model for advanced reasoning and generation.",
      ["Advanced reasoning", "Nuanced responses", "Creative writing"], 32768,
      ["Complex reasoning", "Creative content", "Professional applications"])

  const MistralSmallInfo: ModelInfo := ModelInfo(MistralSmall, "Mistral Small",
      "Balanced model offering good performance with efficiency.",
      ["Efficient processing", "General knowledge", "Basic reasoning"], 16384,
      ["Everyday tasks", "Cost-effective applications"])

  const Mixtral8x22bInfo: ModelInfo := ModelInfo(Mixtral8x22b, "Mixtral 8x22B",
      "Large mixture-of-experts model with exceptional capabilities.",
      ["Advanced reasoning", "Deep knowledge", "Complex problem solving"], 65536,
      ["Research", "Complex analysis", "Enterprise applications"])

  const CodestralInfo: ModelInfo := ModelInfo(Codestral, "Codestral",
      "Specialized for code generation and understanding.",
      ["Code generation", "Debugging", "Technical documentation"], 16384,
      ["Software development", "Code explanation", "Technical writing"])

  const Mathstral7bInfo: ModelInfo := ModelInfo(Mathstral7b, "Mathstral 7B",
      "Optimized for mathematical reasoning and problem-solving.",
      ["Mathematical reasoning", "Equation solving", "Numerical analysis"], 8192,
      ["Math problems", "Scientific computing", "Data analysis"])

  const MistralLarge2Info: ModelInfo := ModelInfo(MistralLarge2, "Mistral Large 2",
      "Next generation of the Large model with improved capabilities.",
      ["Enhanced reasoning", "Better factuality", "Improved instruction following"], 32768,
      ["Mission-critical applications", "Complex reasoning", "Enterprise use"])

  const PixtralInfo: ModelInfo := ModelInfo(Pixtral, "Pixtral",
      "Multimodal model capable of understanding images and text.",
      ["Image understanding", "Visual reasoning", "Multimodal generation"], 16384,
      ["Visual content analysis", "Image-based tasks", "Design assistance"])

  const Ministral3bInfo: ModelInfo := ModelInfo(Ministral3b, "Ministral 3B",
      "Compact model optimized for efficiency and speed.",
      ["Fast responses", "Basic tasks", "Efficient deployment"], 4096,
      ["Mobile applications", "Edge computing", "Real-time interactions"])

  const Ministral8bInfo: ModelInfo := ModelInfo(Ministral8b, "Ministral 8B",
      "Mid-sized model balancing performance and efficiency.",
      ["Balanced performance", "General knowledge", "Reasonable speed"], 8192,
      ["Balanced applications", "Mid-range devices", "General use cases"])

  const CodestralMamba7bInfo: ModelInfo := ModelInfo(CodestralMamba7b, "Codestral Mamba 7B",
      "Code-specialized model using Mamba architecture for improved performance.",
      ["Advanced code generation", "Code understanding", "Technical documentation"], 16384,
      ["Software development", "Code optimization", "Technical documentation"])

  const PixtralLargeInfo: ModelInfo := ModelInfo(PixtralLarge, "Pixtral Large",
      "Advanced multimodal model with enhanced visual understanding.",
      ["Advanced image analysis", "Complex visual reasoning", "Detailed image descriptions"], 32768,
      ["Advanced visual tasks", "Design professionals", "Content creation"])

  const MistralSmall3Info: ModelInfo := ModelInfo(MistralSmall3, "Mistral Small 3",
      "Third generation of the Small model with improved capabilities.",
      ["Efficient processing", "Improved reasoning", "Better instruction following"], 16384,
      ["Everyday applications", "Cost-effective deployment", "General tasks"])

  const MistralSabaInfo: ModelInfo := ModelInfo(MistralSaba, "Mistral Saba",
      "Specialized model with unique capabilities for specific use cases.",
      ["Specialized tasks", "Domain-specific knowledge", "Custom applications"], 16384,
      ["Specialized domains", "Custom applications", "Niche use cases"])

  /** `MODEL_INFO[m]`, the card of model `m`. */
  function ModelInfoOf(m: MistralModel): (r: ModelInfo)
    ensures r.id == m
  {
    match m
    case Mistral7b => Mistral7bInfo
    case Mixtral8x7b => Mixtral8x7bInfo
    case MistralLarge => MistralLargeInfo
    case MistralSmall => MistralSmallInfo
    case Mixtral8x22b => Mixtral8x22bInfo
    case Codestral => CodestralInfo
    case Mathstral7b => Mathstral7bInfo
    case MistralLarge2 => MistralLarge2Info
    case Pixtral => PixtralInfo
    case Ministral3b => Ministral3bInfo
    case Ministral8b => Ministral8bInfo
    case CodestralMamba7b => CodestralMamba7bInfo
    case PixtralLarge => PixtralLargeInfo
    case MistralSmall3 => MistralSmall3Info
    case MistralSaba => MistralSabaInfo
  }

  /** The elements of `s` are pairwise distinct. */
  predicate Distinct<T(==)>(s: seq<T>) {
    forall i, j :: 0 <= i < j < |s| ==> s[i] != s[j]
  }

  /** Distinct union members have distinct string literals. */
  lemma ModelIdInjective(m1: MistralModel, m2: MistralModel)
    requires m1.Id() == m2.Id()
    ensures m1 == m2
  {
    match m1 {
      case Mistral7b => assert m2.Id()[..] == "mistral-7b";
      case _ =>
    }
  }

  /** `MISTRAL_MODELS` lists the fifteen members of the union, each once. */
  lemma MistralModelsComplete()
    ensures |MistralModels| == 15 && Distinct(MistralModels)
    ensures forall m: MistralModel :: m in MistralModels
  {
    forall m: MistralModel ensures m in MistralModels {
      match m {
      case Mistral7b => assert MistralModels[0] == m;
      case Mixtral8x7b => assert MistralModels[1] == m;
      case MistralLarge => assert MistralModels[2] == m;
      case MistralSmall => assert MistralModels[3] == m;
      case Mixtral8x22b => assert MistralModels[4] == m;
      case Codestral => assert MistralModels[5] == m;
      case Mathstral7b => assert MistralModels[6] == m;
      case MistralLarge2 => assert MistralModels[7] == m;
      case Pixtral => assert MistralModels[8] == m;
      case Ministral3b => assert MistralModels[9] == m;
      case Ministral8b => assert MistralModels[10] == m;
      case CodestralMamba7b => assert MistralModels[11] == m;
      case PixtralLarge => assert MistralModels[12] == m;
      case MistralSmall3 => assert MistralModels[13] == m;
      case MistralSaba => assert MistralModels[14] == m;
      }
    }
  }

  /** No model belongs to both categories. */
  lemma ModelCategoriesDisjoint()
    ensures forall i, j ::
              0 <= i < |ModelCategories[0].models| && 0 <= j < |ModelCategories[1].models| ==>
              ModelCategories[0].models[i] != ModelCategories[1].models[j]
  {
  }

  /** The two categories, of ten and five models, partition `MISTRAL_MODELS`. */
  lemma ModelCategoriesPartition()
    ensures |ModelCategories| == 2
    ensures |ModelCategories[0].models| == 10 && |ModelCategories[1].models| == 5
    ensures forall m: MistralModel ::
      (m in ModelCategories[0].models) != (m in ModelCategories[1].models)
  {
    ModelCategoriesDisjoint();
    forall m: MistralModel
      ensures m in ModelCategories[0].models || m in ModelCategories[1].models
    {
      match m {
      case Mistral7b => assert ModelCategories[0].models[0] == m;
      case Mixtral8x7b => assert ModelCategories[0].models[1] == m;
      case MistralLarge => assert ModelCategories[0].models[2] == m;
      case MistralSmall => assert ModelCategories[0].models[3] == m;
      case Mixtral8x22b => assert ModelCategories[0].models[7] == m;
      case Codestral => assert ModelCategories[1].models[0] == m;
      case Mathstral7b => assert ModelCategories[1].models[2] == m;
      case MistralLarge2 => assert ModelCategories[0].models[4] == m;
      case Pixtral => assert ModelCategories[1].models[3] == m;
      case Ministral3b => assert ModelCategories[0].models[8] == m;
      case Ministral8b => assert ModelCategories[0].models[9] == m;
      case CodestralMamba7b => assert ModelCategories[1].models[1] == m;
      case PixtralLarge => assert ModelCategories[1].models[4] == m;
      case MistralSmall3 => assert ModelCategories[0].models[5] == m;
      case MistralSaba => assert ModelCategories[0].models[6] == m;
      }
    }
  }

  /** No model is listed twice within a category. */
  lemma ModelCategoriesDistinct()
    ensures Distinct(ModelCategories[0].models) && Distinct(ModelCategories[1].models)
  {
  }

  /** Every model card names its own model and has a positive token limit. */
  lemma ModelInfoConsistent(m: MistralModel)
    ensures ModelInfoOf(m).id == m && ModelInfoOf(m).tokenLimit > 0
  {
    match m {
      case Mistral7b =>
      case Mixtral8x7b =>
      case MistralLarge =>
      case MistralSmall =>
      case Mixtral8x22b =>
      case Codestral =>
      case Mathstral7b =>
      case MistralLarge2 =>
      case Pixtral =>
      case Ministral3b =>
      case Ministral8b =>
      case CodestralMamba7b =>
      case PixtralLarge =>
      case MistralSmall3 =>
      case MistralSaba =>
    }
  }
}
