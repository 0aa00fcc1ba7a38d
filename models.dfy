/** The model registry and the backend cache: the pre-configured models, the
    two inference backends (as far as they build prompts, merge sampling
    parameters and release their resources) and the manager that creates at
    most one backend per model name. */
module Models {
  import opened Wrappers
  import opened Strings
  import PromptTemplates

  // ---------------------------------------------------------------------------
  // Configurations
  // ---------------------------------------------------------------------------

  /** `ModelConfig`; the float fields are exact reals. */
  datatype ModelConfig = ModelConfig(
    name: string,
    backend: string,
    modelPath: string,
    maxTokens: int,
    temperature: real,
    topP: real,
    topK: int,
    repetitionPenalty: real,
    stopTokens: Option<seq<string>>,
    systemPromptTemplate: string,
    userPromptTemplate: string,
    assistantPromptTemplate: string,
    requiresSystemPrompt: bool,
    jsonModeSupported: bool,
    contextWindow: int)

  const ChatMlSystemTemplate: string :=
    "<|im_start|>system\n{system}<|im_end|>\n" + "<|im_start|>user\n{user}<|im_end|>\n" + "<|im_start|>assistant\n"

  /** `ModelConfig(name=..., backend=..., model_path=...)`, every other field at its default. */
  function DefaultConfig(name: string, backend: string, modelPath: string): (c: ModelConfig)
    ensures c.name == name && c.backend == backend && c.modelPath == modelPath
    ensures c.maxTokens == 1200 && c.temperature == 0.0 && c.topP == 1.0 && c.topK == -1
    ensures c.repetitionPenalty == 1.0 && c.stopTokens == None
    ensures c.systemPromptTemplate == ChatMlSystemTemplate
    ensures c.userPromptTemplate == "{user}" && c.assistantPromptTemplate == "{assistant}"
    ensures c.requiresSystemPrompt && !c.jsonModeSupported && c.contextWindow == 8192
  {
    ModelConfig(name, backend, modelPath, 1200, 0.0, 1.0, -1, 1.0, None,
                ChatMlSystemTemplate, "{user}", "{assistant}", true, false, 8192)
  }

  /** The settings every Mistral-style entry of the registry passes. */
  function MistralStyle(name: string, modelPath: string, contextWindow: int): ModelConfig {
    DefaultConfig(name, "transformers", modelPath).(
      temperature := 0.0, maxTokens := 1200,
      systemPromptTemplate := "<s>[INST] {system} [/INST]",
      userPromptTemplate := "[INST] {user} [/INST]",
      assistantPromptTemplate := "{assistant}",
      requiresSystemPrompt := false,
      contextWindow := contextWindow)
  }

  /** The settings both Qwen entries of the registry pass. */
  function QwenStyle(name: string, modelPath: string): ModelConfig {
    DefaultConfig(name, "transformers", modelPath).(
      temperature := 0.0, maxTokens := 1200,
      systemPromptTemplate := ChatMlSystemTemplate,
      userPromptTemplate := "<|im_start|>user\n{user}<|im_end|>\n" + "<|im_start|>assistant\n",
      assistantPromptTemplate := "{assistant}<|im_end|>",
      requiresSystemPrompt := true,
      contextWindow := 32768)
  }

  /** `ModelManager.MODEL_CONFIGS`. */
  const ModelConfigs: map<string, ModelConfig> := map[
    "mistral-7b-instruct" := MistralStyle("mistral-7b-instruct", "mistralai/Mistral-7B-Instruct-v0.2", 8192),
    "mixtral-8x7b-instruct" := MistralStyle("mixtral-8x7b-instruct", "mistralai/Mixtral-8x7B-Instruct-v0.1", 32768),
    "qwen2.5-7b-instruct" := QwenStyle("qwen2.5-7b-instruct", "Qwen/Qwen2.5-7B-Instruct"),
    "qwen2.5-14b-instruct" := QwenStyle("qwen2.5-14b-instruct", "Qwen/Qwen2.5-14B-Instruct"),
    "biomistral-7b" := MistralStyle("biomistral-7b", "BioMistral/BioMistral-7B", 8192),
    "meditron-7b" := MistralStyle("meditron-7b", "epfl-llm/meditron-7b", 8192)]

  /** The errors the manager raises. */
  datatype ModelError =
    | UnknownModel(name: string)          // `ValueError("Unknown model: ...")`
    | UnsupportedBackend(backend: string) // `ValueError("Unsupported backend: ...")`
    | VllmUnavailable                     // `ImportError` from `VLLMBackend.__init__`

  /** `get_model_config`: the registered configuration, or an error for any other name. */
  function GetModelConfig(name: string): (r: Result<ModelConfig, ModelError>)
    ensures r.Success? <==> name in ModelConfigs
    ensures r.Success? ==> r.value == ModelConfigs[name] && r.value.name == name
    ensures r.Failure? ==> r.error == UnknownModel(name)
  {
    RegistryConsistent();
    if name in ModelConfigs then Success(ModelConfigs[name]) else Failure(UnknownModel(name))
  }

  /** Every registry key is its configuration's name, every entry runs on the
      transformers backend and has a serialiser of its own in
      `MODEL_FORMATTERS`; the Mistral-style entries do not require a system
      prompt and the Qwen ones do. */
  lemma RegistryConsistent()
    ensures forall k :: k in ModelConfigs ==> ModelConfigs[k].name == k
    ensures forall k :: k in ModelConfigs ==> ModelConfigs[k].backend == "transformers"
    ensures forall k :: k in ModelConfigs ==> k in PromptTemplates.ModelFormatters
    ensures forall k :: k in ModelConfigs ==>
      (PromptTemplates.GetFormatter(k) == PromptTemplates.Mistral <==> !ModelConfigs[k].requiresSystemPrompt)
    ensures forall k :: k in ModelConfigs ==>
      (PromptTemplates.GetFormatter(k) == PromptTemplates.Qwen <==> ModelConfigs[k].requiresSystemPrompt)
  {
    forall k | k in ModelConfigs
      ensures ModelConfigs[k].name == k && ModelConfigs[k].backend == "transformers"
      ensures k in PromptTemplates.ModelFormatters
      ensures PromptTemplates.GetFormatter(k) == PromptTemplates.Mistral <==> !ModelConfigs[k].requiresSystemPrompt
      ensures PromptTemplates.GetFormatter(k) == PromptTemplates.Qwen <==> ModelConfigs[k].requiresSystemPrompt
    {
      PromptTemplates.RegisteredFormatters(k);
    }
  }

  // ---------------------------------------------------------------------------
  // Sampling parameters
  // ---------------------------------------------------------------------------

  /** The four settings of vLLM's `SamplingParams` that the backend uses. */
  datatype SamplingParams = SamplingParams(temperature: real, topP: real, maxTokens: int, stop: seq<string>)

  /** The parameters a vLLM backend is created with. */
  const DefaultSampling: SamplingParams := SamplingParams(0.0, 1.0, 1200, ["<|im_end|>", "\n\n"])

  /** A keyword argument of `generate`. */
  datatype Arg = Real(r: real) | Count(n: int) | Words(ws: seq<string>)

  /** Each of the four keys, when given, carries a value of its parameter's type. */
  predicate SamplingTyped(kwargs: map<string, Arg>) {
    && ("temperature" in kwargs ==> kwargs["temperature"].Real?)
    && ("top_p" in kwargs ==> kwargs["top_p"].Real?)
    && ("max_tokens" in kwargs ==> kwargs["max_tokens"].Count?)
    && ("stop" in kwargs ==> kwargs["stop"].Words?)
  }

  /** The parameters `VLLMBackend.generate` samples with: the backend's own when
      no keyword arguments are given, otherwise each of the four taken from the
      arguments when present and from the backend's own when not. */
  function MergeSampling(own: SamplingParams, kwargs: map<string, Arg>): (r: SamplingParams)
    requires SamplingTyped(kwargs)
    ensures kwargs == map[] ==> r == own
    ensures r.temperature == (if "temperature" in kwargs then kwargs["temperature"].r else own.temperature)
    ensures r.topP == (if "top_p" in kwargs then kwargs["top_p"].r else own.topP)
    ensures r.maxTokens == (if "max_tokens" in kwargs then kwargs["max_tokens"].n else own.maxTokens)
    ensures r.stop == (if "stop" in kwargs then kwargs["stop"].ws else own.stop)
  {
    if kwargs == map[] then own
    else
      SamplingParams(
        if "temperature" in kwargs then kwargs["temperature"].r else own.temperature,
        if "top_p" in kwargs then kwargs["top_p"].r else own.topP,
        if "max_tokens" in kwargs then kwargs["max_tokens"].n else own.maxTokens,
        if "stop" in kwargs then kwargs["stop"].ws else own.stop)
  }

  /** Keyword arguments that name none of the four parameters change nothing,
      although they take the branch that rebuilds the parameters. */
  lemma UnrelatedKwargsKeepParams(own: SamplingParams, kwargs: map<string, Arg>)
    requires "temperature" !in kwargs && "top_p" !in kwargs && "max_tokens" !in kwargs && "stop" !in kwargs
    ensures MergeSampling(own, kwargs) == own
  {
  }

  /** Merging the same arguments twice is merging them once. */
  lemma MergeIdempotent(own: SamplingParams, kwargs: map<string, Arg>)
    requires SamplingTyped(kwargs)
    ensures MergeSampling(MergeSampling(own, kwargs), kwargs) == MergeSampling(own, kwargs)
  {
  }

  /** Passing a full set of values replaces the backend's own parameters entirely. */
  lemma FullKwargsOverride(own: SamplingParams, p: SamplingParams)
    ensures var kwargs := map["temperature" := Real(p.temperature), "top_p" := Real(p.topP),
                              "max_tokens" := Count(p.maxTokens), "stop" := Words(p.stop)];
      SamplingTyped(kwargs) && MergeSampling(own, kwargs) == p
  {
  }

  // ---------------------------------------------------------------------------
  // Backends
  // ---------------------------------------------------------------------------

  /** Which backend class an instance is; a vLLM backend remembers the model name it was given. */
  datatype Engine = Vllm(modelName: Option<string>) | Transformers

  /** The attributes an engine's `close` deletes: the vLLM engine, or the
      transformers model and tokenizer. */
  function Resources(e: Engine): set<string> {
    if e.Vllm? then {"llm"} else {"model", "tokenizer"}
  }

  /** `self.model_name or "mistral-7b-instruct"`: no name and the empty name fall back. */
  function FormatterName(modelName: Option<string>): (r: string)
    ensures modelName.Some? && modelName.value != "" ==> r == modelName.value
    ensures modelName.None? || modelName.value == "" ==> r == "mistral-7b-instruct"
  {
    if modelName.Some? && modelName.value != "" then modelName.value else "mistral-7b-instruct"
  }

  /** A vLLM backend without a model name, or with the empty one, formats
      prompts with the Mistral serialiser. */
  lemma UnnamedVllmIsMistral(modelName: Option<string>)
    requires modelName.None? || modelName == Some("")
    ensures PromptTemplates.GetFormatter(FormatterName(modelName)) == PromptTemplates.Mistral
  {
    PromptTemplates.RegisteredFormatters("mistral-7b-instruct");
  }

  /** A model backend. Besides its engine tag and the path it was loaded from,
      it keeps the attributes `close` deletes (`attrs` holds the names of those
      still present) and, for vLLM only, the default sampling parameters. */
  class Backend {
    const engine: Engine
    const modelPath: string
    const sampling: Option<SamplingParams> := if engine.Vllm? then Some(DefaultSampling) else None
    var attrs: set<string>

    /** `VLLMBackend(model_path, model_name)` or `TransformersBackend(model_path)`
        once the engine has loaded. */
    constructor (engine: Engine, modelPath: string)
      ensures this.engine == engine && this.modelPath == modelPath
      ensures sampling == (if engine.Vllm? then Some(DefaultSampling) else None)
      ensures attrs == Resources(engine)
    {
      this.engine := engine;
      this.modelPath := modelPath;
      this.attrs := Resources(engine);
    }

    /** `close`: each attribute is deleted only when it is still there, so a
        second call does nothing. */
    method Close()
      modifies this
      ensures attrs == old(attrs) - Resources(engine)
    {
      if engine.Vllm? {
        if "llm" in attrs {
          attrs := attrs - {"llm"};
        }
      } else {
        if "model" in attrs {
          attrs := attrs - {"model"};
        }
        if "tokenizer" in attrs {
          attrs := attrs - {"tokenizer"};
        }
      }
    }

    /** `TransformersBackend._messages_to_prompt`: the model's family plays no
        part, and the prompt is the generic serialiser's. */
    method TransformersPrompt(messages: seq<PromptTemplates.Message>) returns (prompt: string)
      ensures prompt == PromptTemplates.Render(PromptTemplates.Generic, messages)
    {
      prompt := "";
      for i := 0 to |messages|
        invariant prompt == "" + PromptTemplates.Chunks(PromptTemplates.Generic, messages[..i])
      {
        var role, content := messages[i].role, messages[i].content;
        if role == "system" {
          prompt := prompt + ("<|im_start|>system\n" + content + "<|im_end|>\n");
        } else if role == "user" {
          prompt := prompt + ("<|im_start|>user\n" + content + "<|im_end|>\n");
        } else if role == "assistant" {
          prompt := prompt + ("<|im_start|>assistant\n" + content + "<|im_end|>\n");
        }
        PromptTemplates.ChunksSnoc(PromptTemplates.Generic, "", messages, i);
      }
      assert messages[..|messages|] == messages;
      prompt := prompt + "<|im_start|>assistant\n";
    }

    /** `VLLMBackend._messages_to_prompt`: the serialiser registered for the
        backend's model name. */
    method VllmPrompt(messages: seq<PromptTemplates.Message>) returns (prompt: string)
      requires engine.Vllm?
      ensures prompt == PromptTemplates.Render(PromptTemplates.GetFormatter(FormatterName(engine.modelName)), messages)
    {
      var formatter := PromptTemplates.GetFormatter(FormatterName(engine.modelName));
      prompt := PromptTemplates.Format(formatter, messages);
    }

    /** `VLLMBackend.generate`, with the engine's text generation as the oracle
        `llm`: the prompt and the merged parameters go in, the stripped text
        comes out. After `close` the engine is gone and the call fails. */
    method VllmGenerate(messages: seq<PromptTemplates.Message>, kwargs: map<string, Arg>,
                        llm: (string, SamplingParams) -> string) returns (r: Option<string>)
      requires engine.Vllm? && SamplingTyped(kwargs)
      ensures "llm" !in attrs ==> r == None
      ensures "llm" in attrs ==> r == Some(Strip(llm(
        PromptTemplates.Render(PromptTemplates.GetFormatter(FormatterName(engine.modelName)), messages),
        MergeSampling(sampling.value, kwargs))))
    {
      var prompt := VllmPrompt(messages);
      var params := MergeSampling(sampling.value, kwargs);
      if "llm" !in attrs {
        return None;
      }
      r := Some(Strip(llm(prompt, params)));
    }
  }

  // ---------------------------------------------------------------------------
  // The manager
  // ---------------------------------------------------------------------------

  /** Whether `get_backend` can build a backend of the given kind. */
  predicate Buildable(backend: string, vllmAvailable: bool) {
    backend == "transformers" || (backend == "vllm" && vllmAvailable)
  }

  /** `ModelManager`: the cache of backends by model name. Python dictionaries
      keep insertion order, so the names are kept in `order` as well. */
  class ModelManager {
    const vllmAvailable: bool
    var backends: map<string, Backend>
    var order: seq<string>

    /** The names in `order` are distinct and are exactly the cached names. */
    ghost predicate Valid()
      reads this
    {
      && (forall n :: n in backends <==> n in order)
      && (forall i, j :: 0 <= i < j < |order| ==> order[i] != order[j])
    }

    constructor (vllmAvailable: bool)
      ensures Valid() && this.vllmAvailable == vllmAvailable
      ensures backends == map[] && order == []
    {
      this.vllmAvailable := vllmAvailable;
      backends := map[];
      order := [];
    }

    /** `get_backend`: a cached name gives the cached backend and changes
        nothing; otherwise a new backend is created and cached, or an error is
        returned and the cache is left as it was. */
    method GetBackend(name: string) returns (r: Result<Backend, ModelError>)
      requires Valid()
      modifies this
      ensures Valid()
      ensures name in old(backends) ==> r == Success(old(backends)[name]) && backends == old(backends) && order == old(order)
      ensures name !in old(backends) ==>
        (r.Success? <==> name in ModelConfigs && Buildable(ModelConfigs[name].backend, vllmAvailable))
      ensures name !in old(backends) && name !in ModelConfigs ==> r == Failure(UnknownModel(name))
      ensures r.Failure? ==> backends == old(backends) && order == old(order)
      ensures name !in old(backends) && r.Success? ==>
        && fresh(r.value)
        && r.value.modelPath == ModelConfigs[name].modelPath
        && r.value.engine == (if ModelConfigs[name].backend == "vllm" then Vllm(Some(name)) else Transformers)
        && r.value.attrs == Resources(r.value.engine)
        && backends == old(backends)[name := r.value] && order == old(order) + [name]
    {
      if name in backends {
        return Success(backends[name]);
      }
      var config := GetModelConfig(name);
      if config.Failure? {
        return Failure(config.error);
      }
      var c := config.value;
      var backend: Backend;
      if c.backend == "vllm" {
        if !vllmAvailable {
          return Failure(VllmUnavailable);
        }
        backend := new Backend(Vllm(Some(name)), c.modelPath);
      } else if c.backend == "transformers" {
        backend := new Backend(Transformers, c.modelPath);
      } else {
        return Failure(UnsupportedBackend(c.backend));
      }
      backends := backends[name := backend];
      order := order + [name];
      r := Success(backend);
    }

    /** `close_all`: every cached backend is closed, in insertion order, and
        the cache is emptied. A backend cached under two names is closed twice,
        which `close` allows. */
    method CloseAll()
      requires Valid()
      modifies this, backends.Values
      ensures Valid() && backends == map[] && order == []
      ensures forall b :: b in old(backends).Values ==> b.attrs == old(b.attrs) - Resources(b.engine)
    {
      var i := 0;
      while i < |order|
        invariant 0 <= i <= |order|
        invariant backends == old(backends) && order == old(order) && Valid()
        invariant forall b :: b in backends.Values ==>
          b.attrs == old(b.attrs) || b.attrs == old(b.attrs) - Resources(b.engine)
        invariant forall k :: 0 <= k < i ==>
          backends[order[k]].attrs == old(backends[order[k]].attrs) - Resources(backends[order[k]].engine)
      {
        var b := backends[order[i]];
        b.Close();
        i := i + 1;
      }
      forall b | b in old(backends).Values
        ensures b.attrs == old(b.attrs) - Resources(b.engine)
      {
        var n :| n in backends && backends[n] == b;
        var k :| 0 <= k < |order| && order[k] == n;
      }
      backends := map[];
      order := [];
    }

  }

  /** Every registered model runs on the transformers backend, so for a name
      not yet cached `get_backend` succeeds exactly on the registered names,
      whether or not vLLM is installed. */
  lemma RegisteredNamesBuild(name: string, vllmAvailable: bool)
    ensures name in ModelConfigs <==> name in ModelConfigs && Buildable(ModelConfigs[name].backend, vllmAvailable)
  {
    RegistryConsistent();
  }
}
