/** internal/llm/client.go: provider, host and language selection, the retry
    loop around one generation request, and the shape of the requests and
    responses of the Ollama and OpenAI-compatible APIs. The HTTP exchange
    itself is a parameter: each attempt's outcome is supplied by the caller. */
module LlmClient {
  import opened Wrappers
  import opened GoStrings
  import Consts

  datatype Provider = Ollama | Groq | OpenRouter | OpenAI

  function ProviderName(p: Provider): (name: string)
    ensures name in {"ollama", "groq", "openrouter", "openai"}
  {
    match p
    case Ollama => "ollama"
    case Groq => "groq"
    case OpenRouter => "openrouter"
    case OpenAI => "openai"
  }

  lemma ProviderNamesDistinct(p: Provider, q: Provider)
    ensures ProviderName(p) == ProviderName(q) <==> p == q
  {
  }

  /** normalizeHost: a missing host gives the default; otherwise the host keeps
      an http or https scheme or gains https, and loses one trailing slash. */
  function NormalizeHost(host: string, defaultHost: string): (r: string)
    ensures host == "" ==> r == defaultHost
    ensures host != "" && (HasPrefix(host, "http://") || HasPrefix(host, "https://")) ==>
      r == TrimSuffix(host, "/")
    ensures host != "" && !HasPrefix(host, "http://") && !HasPrefix(host, "https://") ==>
      r == "https://" + TrimSuffix(host, "/")
  {
    if host == "" then defaultHost
    else if HasPrefix(host, "http://") || HasPrefix(host, "https://") then TrimSuffix(host, "/")
    else "https://" + TrimSuffix(host, "/")
  }

  /** A non-empty host always comes out with a scheme, except for a bare
      scheme, whose own slash is the one that gets trimmed. */
  lemma NormalizedHasScheme(host: string, defaultHost: string)
    requires host != "" && host != "http://" && host != "https://"
    ensures var r := NormalizeHost(host, defaultHost); HasPrefix(r, "http://") || HasPrefix(r, "https://")
  {
    var t := TrimSuffix(host, "/");
    if HasPrefix(host, "http://") && HasSuffix(host, "/") {
      assert host == t + "/";
      assert |t| >= 7;
      assert t[..7] == host[..7];
    } else if HasPrefix(host, "https://") && HasSuffix(host, "/") {
      assert host == t + "/";
      assert |t| >= 8;
      assert t[..8] == host[..8];
    }
  }

  /** The bare scheme is the exception: its trailing slash is removed. */
  lemma BareSchemeLosesSlash(defaultHost: string)
    ensures NormalizeHost("http://", defaultHost) == "http:/"
    ensures !HasPrefix(NormalizeHost("http://", defaultHost), "http://")
  {
    assert HasPrefix("http://", "http://");
    assert HasSuffix("http://", "/");
  }

  /** Sample cases of normalizeHost, like those of client_test.go: an empty host takes the
      default, a trailing slash is trimmed, and a bare name gains "https://". */
  lemma NormalizeHostVectors(local: string, site: string, name: string)
    requires local == "http://localhost:11434" && site == "http://example.com" && name == "example.com"
    ensures NormalizeHost("", local) == local
    ensures NormalizeHost(site + "/", "d") == site
    ensures NormalizeHost(name, "d") == "https://" + name
  {
    assert HasPrefix(site + "/", "http://") by {
      assert (site + "/")[..7] == site[..7];
    }
    assert HasSuffix(site + "/", "/");
    assert !HasPrefix(name, "http://") by { PrefixMismatch(name, "http://", 0); }
    assert !HasPrefix(name, "https://") by { PrefixMismatch(name, "https://", 0); }
    assert !HasSuffix(name, "/") by { assert name[|name| - 1] == 'm'; }
  }

  /** What `git config` supplies; an empty string or None stands for a key that
      is not set, as config.GetString reports it. */
  datatype Settings = Settings(
    apiKey: string, host: string, model: Option<string>, timeoutSeconds: Option<int>,
    retries: Option<int>, temperature: Option<real>, lang: Option<string>,
    filePrompt: string, commitPromptEN: string, commitPromptZH: string, commitPromptBiling: string)

  datatype Client = Client(
    provider: Provider, host: string, apiKey: string, timeoutSeconds: int, retries: int,
    lang: string, model: string, temperature: real,
    filePrompt: string, commitPromptEN: string, commitPromptZH: string, commitPromptBiling: string)

  function GetOr<T>(v: Option<T>, default: T): T {
    if v.Some? then v.value else default
  }

  /** The provider chosen for an API key and a final host: no key means the local
      Ollama; with a key, the host names Groq or OpenAI, and OpenRouter otherwise. */
  function SelectProvider(apiKey: string, host: string): (p: Provider)
    ensures apiKey == "" <==> p == Ollama
    ensures apiKey != "" && Contains(host, "groq.com") ==> p == Groq
    ensures apiKey != "" && !Contains(host, "groq.com") && Contains(host, "openai.com") ==> p == OpenAI
    ensures p == OpenRouter <==> apiKey != "" && !Contains(host, "groq.com") && !Contains(host, "openai.com")
  {
    if apiKey == "" then Ollama
    else if Contains(host, "groq.com") then Groq
    else if Contains(host, "openai.com") then OpenAI
    else OpenRouter
  }

  /** The configured language, with anything but en, zh and bilingual replaced by en. */
  function SelectLang(lang: Option<string>): (l: string)
    ensures Consts.IsLLMLanguage(l)
    ensures lang.Some? && Consts.IsLLMLanguage(lang.value) ==> l == lang.value
    ensures lang.None? || !Consts.IsLLMLanguage(lang.value) ==> l == Consts.LLMDefaultLang
  {
    var l := GetOr(lang, Consts.LLMDefaultLang);
    if l == Consts.LLMLangEN || l == Consts.LLMLangZH || l == Consts.LLMLangBilingual then l
    else Consts.LLMDefaultLang
  }

  /** NewClient. The defaults of host and model follow the presence of an API
      key; a configured host is normalized against that default. */
  function NewClient(cfg: Settings): (c: Client)
    ensures c.provider == SelectProvider(cfg.apiKey, c.host)
    ensures cfg.apiKey == "" ==>
      c.provider == Ollama
      && c.host == NormalizeHost(cfg.host, Consts.LLMDefaultOllamaHost)
      && c.model == GetOr(cfg.model, Consts.LLMDefaultOllamaModel)
    ensures cfg.apiKey != "" ==>
      c.provider != Ollama
      && c.host == NormalizeHost(cfg.host, Consts.LLMDefaultOpenRouterHost)
      && c.model == GetOr(cfg.model, Consts.LLMDefaultOpenRouterModel)
    ensures c.lang == SelectLang(cfg.lang)
    ensures c.retries == GetOr(cfg.retries, Consts.LLMDefaultRetries)
    ensures c.apiKey == cfg.apiKey && c.filePrompt == cfg.filePrompt
  {
    var keyed := cfg.apiKey != "";
    var defaultHost := if keyed then Consts.LLMDefaultOpenRouterHost else Consts.LLMDefaultOllamaHost;
    var defaultModel := if keyed then Consts.LLMDefaultOpenRouterModel else Consts.LLMDefaultOllamaModel;
    var host := if cfg.host == "" then defaultHost else NormalizeHost(cfg.host, defaultHost);
    Client(
      SelectProvider(cfg.apiKey, host), host, cfg.apiKey,
      GetOr(cfg.timeoutSeconds, Consts.LLMDefaultRequestTimeoutSeconds),
      GetOr(cfg.retries, Consts.LLMDefaultRetries),
      SelectLang(cfg.lang), GetOr(cfg.model, defaultModel),
      GetOr(cfg.temperature, Consts.LLMDefaultTemperature),
      cfg.filePrompt, cfg.commitPromptEN, cfg.commitPromptZH, cfg.commitPromptBiling)
  }

  /** NewClient as written: the provider and the defaults are settled first, then
      the host, then the host may override the provider. */
  method BuildClient(cfg: Settings) returns (c: Client)
    ensures c == NewClient(cfg)
  {
    var provider := Ollama;
    var defaultHost := Consts.LLMDefaultOllamaHost;
    var defaultModel := Consts.LLMDefaultOllamaModel;
    if cfg.apiKey != "" {
      provider := OpenRouter;
      defaultHost := Consts.LLMDefaultOpenRouterHost;
      defaultModel := Consts.LLMDefaultOpenRouterModel;
    }
    var host := cfg.host;
    if host == "" {
      host := defaultHost;
    } else {
      host := NormalizeHost(host, defaultHost);
    }
    if cfg.apiKey != "" {
      if Contains(host, "groq.com") {
        provider := Groq;
      } else if Contains(host, "openai.com") {
        provider := OpenAI;
      }
    }
    var lang := GetOr(cfg.lang, Consts.LLMDefaultLang);
    if !(lang == Consts.LLMLangEN || lang == Consts.LLMLangZH || lang == Consts.LLMLangBilingual) {
      lang := Consts.LLMDefaultLang;
    }
    c := Client(provider, host, cfg.apiKey,
      GetOr(cfg.timeoutSeconds, Consts.LLMDefaultRequestTimeoutSeconds),
      GetOr(cfg.retries, Consts.LLMDefaultRetries),
      lang, GetOr(cfg.model, defaultModel),
      GetOr(cfg.temperature, Consts.LLMDefaultTemperature),
      cfg.filePrompt, cfg.commitPromptEN, cfg.commitPromptZH, cfg.commitPromptBiling);
  }

  /** With nothing configured the client talks to the local Ollama default. */
  lemma UnconfiguredIsLocalOllama(cfg: Settings)
    requires cfg.apiKey == "" && cfg.host == "" && cfg.model.None? && cfg.lang.None?
    ensures NewClient(cfg).provider == Ollama
    ensures NewClient(cfg).host == "http://localhost:11434"
    ensures NewClient(cfg).model == Consts.LLMDefaultOllamaModel
    ensures NewClient(cfg).lang == "en"
  {
  }

  /** With a key, a host naming neither Groq nor OpenAI selects OpenRouter. */
  lemma NeutralHostIsOpenRouter(apiKey: string, host: string)
    requires apiKey != "" && 'g' !in host && 'c' !in host
    ensures SelectProvider(apiKey, host) == OpenRouter
  {
    NotContainsMissingChar(host, "groq.com", 0);
    NotContainsMissingChar(host, "openai.com", 7);
  }

  lemma NoCharInOpenRouterHost(c: char)
    requires c == 'g' || c == 'c'
    ensures c !in Consts.LLMDefaultOpenRouterHost
  {
    assert Consts.LLMDefaultOpenRouterHost == "https://" + "openrouter.ai";
    assert c !in "https://" && c !in "openrouter.ai";
  }

  /** An API key with no host goes to OpenRouter at its default address. */
  lemma KeyAloneIsOpenRouter(cfg: Settings)
    requires cfg.apiKey != "" && cfg.host == ""
    ensures NewClient(cfg).provider == OpenRouter
    ensures NewClient(cfg).host == Consts.LLMDefaultOpenRouterHost
  {
    NoCharInOpenRouterHost('g');
    NoCharInOpenRouterHost('c');
    NeutralHostIsOpenRouter(cfg.apiKey, Consts.LLMDefaultOpenRouterHost);
  }

  /** GetCommitPrompt: the custom commit prompt configured for a language. */
  function GetCommitPrompt(c: Client, lang: string): (p: string)
    ensures lang == Consts.LLMLangZH ==> p == c.commitPromptZH
    ensures lang == Consts.LLMLangBilingual ==> p == c.commitPromptBiling
    ensures lang != Consts.LLMLangZH && lang != Consts.LLMLangBilingual ==> p == c.commitPromptEN
  {
    if lang == Consts.LLMLangZH then c.commitPromptZH
    else if lang == Consts.LLMLangBilingual then c.commitPromptBiling
    else c.commitPromptEN
  }

  /** The system prompt of the per-file analysis in ai.go: the configured file
      prompt when there is one, the built-in one otherwise. */
  function FileSystemPrompt(c: Client): (p: string)
    ensures c.filePrompt != "" ==> p == c.filePrompt
    ensures c.filePrompt == "" ==> p == Consts.LLMDefaultFilePrompt
    ensures p != ""
  {
    if c.filePrompt != "" then c.filePrompt else Consts.LLMDefaultFilePrompt
  }

  /** The built-in commit prompts, by language (their text is not part of this model). */
  datatype BuiltinPrompts = BuiltinPrompts(en: string, zh: string, bilingual: string)

  /** The system prompt of the final message in ai.go: the custom prompt of the
      client's language takes precedence over the built-in one of that language. */
  function CommitSystemPrompt(c: Client, builtin: BuiltinPrompts): (p: string)
    ensures GetCommitPrompt(c, c.lang) != "" ==> p == GetCommitPrompt(c, c.lang)
    ensures GetCommitPrompt(c, c.lang) == "" ==>
      p == (if c.lang == Consts.LLMLangZH then builtin.zh
            else if c.lang == Consts.LLMLangBilingual then builtin.bilingual
            else builtin.en)
  {
    var custom := GetCommitPrompt(c, c.lang);
    if custom != "" then custom
    else if c.lang == Consts.LLMLangZH then builtin.zh
    else if c.lang == Consts.LLMLangBilingual then builtin.bilingual
    else builtin.en
  }

  /** The built-in prompt of a language, English for any other. */
  function BuiltinFor(builtin: BuiltinPrompts, lang: string): string {
    if lang == Consts.LLMLangZH then builtin.zh
    else if lang == Consts.LLMLangBilingual then builtin.bilingual
    else builtin.en
  }

  /** The commit system prompt is the custom prompt of the client's language
      when that is set and the built-in one of the language otherwise, so it
      is never empty while the built-ins are not; the prompts configured for
      the other languages play no part, and a language other than zh and
      bilingual behaves as English. */
  lemma CommitPromptPrecedence(c: Client, builtin: BuiltinPrompts, other: string)
    ensures CommitSystemPrompt(c, builtin) in {GetCommitPrompt(c, c.lang), BuiltinFor(builtin, c.lang)}
    ensures GetCommitPrompt(c, c.lang) != "" ==> CommitSystemPrompt(c, builtin) == GetCommitPrompt(c, c.lang)
    ensures GetCommitPrompt(c, c.lang) == "" ==> CommitSystemPrompt(c, builtin) == BuiltinFor(builtin, c.lang)
    ensures BuiltinFor(builtin, c.lang) != "" ==> CommitSystemPrompt(c, builtin) != ""
    ensures c.lang == Consts.LLMLangZH ==>
      CommitSystemPrompt(c.(commitPromptEN := other, commitPromptBiling := other), builtin.(en := other, bilingual := other))
      == CommitSystemPrompt(c, builtin)
    ensures c.lang == Consts.LLMLangBilingual ==>
      CommitSystemPrompt(c.(commitPromptEN := other, commitPromptZH := other), builtin.(en := other, zh := other))
      == CommitSystemPrompt(c, builtin)
    ensures c.lang != Consts.LLMLangZH && c.lang != Consts.LLMLangBilingual ==>
      CommitSystemPrompt(c.(commitPromptZH := other, commitPromptBiling := other), builtin.(zh := other, bilingual := other))
      == CommitSystemPrompt(c, builtin)
    ensures c.lang != Consts.LLMLangZH && c.lang != Consts.LLMLangBilingual ==>
      CommitSystemPrompt(c, builtin) == CommitSystemPrompt(c.(lang := Consts.LLMLangEN), builtin)
  {
  }

  /** GenerateOptions; a zero temperature means "use the client's". */
  datatype Options = Options(system: string, temperature: real)

  function EffectiveTemperature(c: Client, opt: Options): (t: real)
    ensures opt.temperature != 0.0 ==> t == opt.temperature
    ensures opt.temperature == 0.0 ==> t == c.temperature
  {
    if opt.temperature == 0.0 then c.temperature else opt.temperature
  }

  datatype OllamaRequest = OllamaRequest(model: string, prompt: string, system: string,
                                         stream: bool, temperature: Option<real>)

  /** The Ollama request: never streamed, with options only for a positive temperature. */
  function OllamaBody(model: string, prompt: string, opt: Options): (r: OllamaRequest)
    ensures r.model == model && r.prompt == prompt && r.system == opt.system && !r.stream
    ensures r.temperature.Some? <==> opt.temperature > 0.0
    ensures r.temperature.Some? ==> r.temperature.value == opt.temperature
  {
    OllamaRequest(model, prompt, opt.system, false,
                  if opt.temperature > 0.0 then Some(opt.temperature) else None)
  }

  datatype ChatMessage = ChatMessage(role: string, content: string)

  /** The chat messages of an OpenAI-style request. */
  function Messages(system: string, prompt: string): (ms: seq<ChatMessage>)
    ensures 1 <= |ms| <= 2
    ensures ms[|ms| - 1] == ChatMessage("user", prompt)
    ensures ms[0].role == "system" <==> system != ""
    ensures system != "" ==> ms == [ChatMessage("system", system), ChatMessage("user", prompt)]
    ensures system == "" ==> ms == [ChatMessage("user", prompt)]
  {
    var sys := if system != "" then [ChatMessage("system", system)] else [];
    sys + [ChatMessage("user", prompt)]
  }

  /** The message list of doGenerateOpenAI, appended to one message at a time. */
  method BuildMessages(system: string, prompt: string) returns (ms: seq<ChatMessage>)
    ensures ms == Messages(system, prompt)
  {
    ms := [];
    if system != "" {
      ms := ms + [ChatMessage("system", system)];
    }
    ms := ms + [ChatMessage("user", prompt)];
  }

  const MaxTokens := 1024

  /** The request body; a temperature of zero is omitted when encoded. */
  datatype OpenAIRequest = OpenAIRequest(model: string, messages: seq<ChatMessage>,
                                         temperature: real, maxTokens: int)

  function OpenAIBody(model: string, prompt: string, opt: Options): (r: OpenAIRequest)
    ensures r.model == model && r.messages == Messages(opt.system, prompt) && r.maxTokens == MaxTokens
    ensures opt.temperature > 0.0 ==> r.temperature == opt.temperature
    ensures opt.temperature <= 0.0 ==> r.temperature == 0.0
  {
    OpenAIRequest(model, Messages(opt.system, prompt),
                  if opt.temperature > 0.0 then opt.temperature else 0.0, MaxTokens)
  }

  /** The URL a request is posted to. */
  function Endpoint(c: Client): (url: string)
    ensures c.provider == Ollama ==> url == c.host + "/api/generate"
    ensures c.provider == Groq ==> url == c.host + "/openai/v1/chat/completions"
    ensures c.provider in {OpenRouter, OpenAI} ==> url == c.host + "/api/v1/chat/completions"
  {
    match c.provider
    case Ollama => c.host + "/api/generate"
    case Groq => c.host + "/openai/v1/chat/completions"
    case _ => c.host + "/api/v1/chat/completions"
  }

  /** The Authorization header of an OpenAI-style request. */
  function AuthHeader(c: Client): (h: string)
    ensures h == "Bearer " + c.apiKey
  {
    "Bearer " + c.apiKey
  }

  /** What one attempt of Generate posts: the URL, the Authorization header of
      the OpenAI-style providers, and the request body built from the options
      after the client's temperature has been filled in. */
  datatype Post = OllamaPost(url: string, ollama: OllamaRequest)
                | OpenAIPost(url: string, auth: string, openai: OpenAIRequest)

  function AttemptPost(c: Client, model: string, prompt: string, opt: Options): Post {
    var o := opt.(temperature := EffectiveTemperature(c, opt));
    if c.provider == Ollama then OllamaPost(Endpoint(c), OllamaBody(model, prompt, o))
    else OpenAIPost(Endpoint(c), AuthHeader(c), OpenAIBody(model, prompt, o))
  }

  /** The temperature a request carries: the caller's when it is non-zero, the
      client's otherwise, and sent only when positive; both request shapes
      agree on it. */
  lemma PostTemperature(c: Client, model: string, prompt: string, opt: Options)
    ensures var t := EffectiveTemperature(c, opt);
      AttemptPost(c, model, prompt, opt).OllamaPost? ==>
        AttemptPost(c, model, prompt, opt).ollama.temperature == (if t > 0.0 then Some(t) else None)
    ensures var t := EffectiveTemperature(c, opt);
      AttemptPost(c, model, prompt, opt).OpenAIPost? ==>
        AttemptPost(c, model, prompt, opt).openai.temperature == (if t > 0.0 then t else 0.0)
    ensures opt.temperature == 0.0 && c.temperature > 0.0 && c.provider == Ollama ==>
      AttemptPost(c, model, prompt, opt).ollama.temperature == Some(c.temperature)
    ensures opt.temperature == 0.0 && c.temperature > 0.0 && c.provider != Ollama ==>
      AttemptPost(c, model, prompt, opt).openai.temperature == c.temperature
    ensures opt.temperature > 0.0 && c.provider == Ollama ==>
      AttemptPost(c, model, prompt, opt).ollama.temperature == Some(opt.temperature)
    ensures opt.temperature > 0.0 && c.provider != Ollama ==>
      AttemptPost(c, model, prompt, opt).openai.temperature == opt.temperature
    ensures opt.temperature < 0.0 && c.provider == Ollama ==>
      AttemptPost(c, model, prompt, opt).ollama.temperature == None
  {
  }

  /** Every request goes to a path under the client's host; the path tells
      the Ollama API, Groq's OpenAI-compatible API and the /api/v1 API of
      OpenRouter and OpenAI apart; the OpenAI-style requests carry the API key
      as a bearer token, and the system prompt and prompt reach both shapes. */
  lemma PostRouting(c: Client, model: string, prompt: string, opt: Options)
    ensures HasPrefix(AttemptPost(c, model, prompt, opt).url, c.host)
    ensures TrimPrefix(AttemptPost(c, model, prompt, opt).url, c.host) == "/api/generate"
            <==> c.provider == Ollama
    ensures TrimPrefix(AttemptPost(c, model, prompt, opt).url, c.host) == "/openai/v1/chat/completions"
            <==> c.provider == Groq
    ensures TrimPrefix(AttemptPost(c, model, prompt, opt).url, c.host) == "/api/v1/chat/completions"
            <==> c.provider in {OpenRouter, OpenAI}
    ensures AttemptPost(c, model, prompt, opt).OpenAIPost? <==> c.provider != Ollama
    ensures AttemptPost(c, model, prompt, opt).OpenAIPost? ==>
      HasPrefix(AttemptPost(c, model, prompt, opt).auth, "Bearer ")
      && TrimPrefix(AttemptPost(c, model, prompt, opt).auth, "Bearer ") == c.apiKey
    ensures AttemptPost(c, model, prompt, opt).OllamaPost? ==>
      AttemptPost(c, model, prompt, opt).ollama.system == opt.system
      && AttemptPost(c, model, prompt, opt).ollama.prompt == prompt
    ensures AttemptPost(c, model, prompt, opt).OpenAIPost? ==>
      AttemptPost(c, model, prompt, opt).openai.messages == Messages(opt.system, prompt)
  {
    var url := Endpoint(c);
    assert url[..|c.host|] == c.host;
    assert TrimPrefix(url, c.host) == url[|c.host|..];
    var a := "/api/generate";
    var g := "/openai/v1/chat/completions";
    var v := "/api/v1/chat/completions";
    assert a != g by { assert |a| != |g|; }
    assert a != v by { assert |a| != |v|; }
    assert g != v by { assert |g| != |v|; }
    var h := AuthHeader(c);
    assert h[..7] == "Bearer ";
  }

  /** Failures of one request. */
  datatype CallError = UnexpectedStatus(status: int, body: string) | DecodeFailed
                     | ApiError(message: string) | NoChoices

  /** A decoded OpenAI-style response. */
  datatype OpenAIResponse = OpenAIResponse(choices: seq<string>, error: Option<string>)

  const StatusOK := 200

  /** The checks on an OpenAI-style reply: the status, the decoding (None when
      the body is not a response), the error field and the choices in turn. */
  function HandleOpenAI(status: int, body: string, decoded: Option<OpenAIResponse>): (r: Result<string, CallError>)
    ensures status != StatusOK ==> r == Failure(UnexpectedStatus(status, body))
    ensures status == StatusOK && decoded.None? ==> r == Failure(DecodeFailed)
    ensures status == StatusOK && decoded.Some? && decoded.value.error.Some? ==>
      r == Failure(ApiError(decoded.value.error.value))
    ensures status == StatusOK && decoded.Some? && decoded.value.error.None? && decoded.value.choices == [] ==>
      r == Failure(NoChoices)
    ensures r.Success? <==> status == StatusOK && decoded.Some? && decoded.value.error.None? && decoded.value.choices != []
    ensures r.Success? ==> r.value == TrimSpace(decoded.value.choices[0])
  {
    if status != StatusOK then Failure(UnexpectedStatus(status, body))
    else if decoded.None? then Failure(DecodeFailed)
    else if decoded.value.error.Some? then Failure(ApiError(decoded.value.error.value))
    else if |decoded.value.choices| == 0 then Failure(NoChoices)
    else Success(TrimSpace(decoded.value.choices[0]))
  }

  /** The checks on an Ollama reply; `decoded` is its response field. */
  function HandleOllama(status: int, body: string, decoded: Option<string>): (r: Result<string, CallError>)
    ensures status != StatusOK ==> r == Failure(UnexpectedStatus(status, body))
    ensures status == StatusOK && decoded.None? ==> r == Failure(DecodeFailed)
    ensures r.Success? <==> status == StatusOK && decoded.Some?
    ensures r.Success? ==> r.value == TrimSpace(decoded.value)
  {
    if status != StatusOK then Failure(UnexpectedStatus(status, body))
    else if decoded.None? then Failure(DecodeFailed)
    else Success(TrimSpace(decoded.value))
  }

  /** A successful reply never starts or ends with white space. */
  lemma RepliesAreTrimmed(status: int, body: string, decoded: Option<OpenAIResponse>)
    ensures var r := HandleOpenAI(status, body, decoded);
      r.Success? && r.value != "" ==> !IsSpace(r.value[0]) && !IsSpace(r.value[|r.value| - 1])
  {
    var r := HandleOpenAI(status, body, decoded);
    if r.Success? && r.value != "" {
      TrimSpaceEnds(decoded.value.choices[0]);
    }
  }

  lemma TrimSpaceEnds(s: string)
    ensures var t := TrimSpace(s); t != "" ==> !IsSpace(t[0]) && !IsSpace(t[|t| - 1])
  {
  }

  /** The outcome of one attempt, and whether the caller's context had ended
      by the time it failed. */
  datatype Attempt = Attempt(result: Result<string, string>, ctxErr: Option<string>)

  predicate Retryable(a: Attempt) {
    a.result.Failure? && a.ctxErr.None?
  }

  /** Failures of Generate: the context ended, or every attempt failed
      (`attempts` is the count the message reports, `last` the final error). */
  datatype GenerateError = ContextDone(ctxErr: string) | Exhausted(attempts: int, last: Option<string>)

  /** The loop of Generate from attempt k on, with the number of attempts made in all. */
  function Retry(retries: int, attempts: nat -> Attempt, k: nat, lastErr: Option<string>): (Result<string, GenerateError>, nat)
    decreases if k > retries then 0 else retries + 1 - k
  {
    if k > retries then (Failure(Exhausted(retries + 1, lastErr)), k)
    else
      var a := attempts(k);
      if a.result.Success? then (Success(a.result.value), k + 1)
      else if a.ctxErr.Some? then (Failure(ContextDone(a.ctxErr.value)), k + 1)
      else Retry(retries, attempts, k + 1, Some(a.result.error))
  }

  /** Generate's loop; each call of `attempts` stands for one request. */
  method Generate(retries: int, attempts: nat -> Attempt) returns (r: Result<string, GenerateError>)
    ensures r == Retry(retries, attempts, 0, None).0
  {
    var lastErr: Option<string> := None;
    var attempt: nat := 0;
    while attempt <= retries
      invariant attempt == 0 || attempt <= retries + 1
      invariant Retry(retries, attempts, 0, None) == Retry(retries, attempts, attempt, lastErr)
      decreases retries + 1 - attempt
    {
      var a := attempts(attempt);
      if a.result.Success? {
        return Success(a.result.value);
      }
      lastErr := Some(a.result.error);
      if a.ctxErr.Some? {
        return Failure(ContextDone(a.ctxErr.value));
      }
      attempt := attempt + 1;
    }
    return Failure(Exhausted(retries + 1, lastErr));
  }

  function MaxAttempts(retries: int): nat {
    if retries < 0 then 0 else retries + 1
  }

  /** What the loop guarantees from attempt k on, given that the attempts before
      k all failed without the context ending. */
  lemma {:induction false} RetryFrom(retries: int, attempts: nat -> Attempt, k: nat, lastErr: Option<string>)
    requires k == 0 || k <= retries + 1
    requires forall j: nat :: j < k ==> Retryable(attempts(j))
    requires k == 0 ==> lastErr == None
    requires k > 0 ==> attempts(k - 1).result.Failure? && lastErr == Some(attempts(k - 1).result.error)
    ensures var (r, n) := Retry(retries, attempts, k, lastErr);
      k <= n <= MaxAttempts(retries) || (n == k == 0)
    ensures var (r, n) := Retry(retries, attempts, k, lastErr);
      forall j: nat :: j + 1 < n ==> Retryable(attempts(j))
    ensures var (r, n) := Retry(retries, attempts, k, lastErr);
      r.Success? ==> n >= 1 && attempts(n - 1).result == Success(r.value)
    ensures var (r, n) := Retry(retries, attempts, k, lastErr);
      r.Failure? && r.error.ContextDone? ==>
        n >= 1 && attempts(n - 1).result.Failure? && attempts(n - 1).ctxErr == Some(r.error.ctxErr)
    ensures var (r, n) := Retry(retries, attempts, k, lastErr);
      r.Failure? && r.error.Exhausted? ==>
        n == MaxAttempts(retries) && r.error.attempts == retries + 1
        && (forall j: nat :: j < n ==> Retryable(attempts(j)))
        && (n == 0 ==> r.error.last == None)
        && (n > 0 ==> r.error.last == Some(attempts(n - 1).result.error))
    decreases if k > retries then 0 else retries + 1 - k
  {
    if k <= retries {
      var a := attempts(k);
      if Retryable(a) {
        RetryFrom(retries, attempts, k + 1, Some(a.result.error));
      }
    }
  }

  /** Generate makes at most retries+1 attempts; every attempt but the last
      failed with the context still live; it returns the first success, stops
      at the first failure after the context ended, and otherwise reports the
      last error after retries+1 failures. */
  lemma GenerateContract(retries: int, attempts: nat -> Attempt)
    ensures var (r, n) := Retry(retries, attempts, 0, None); n <= MaxAttempts(retries)
    ensures var (r, n) := Retry(retries, attempts, 0, None);
      forall j: nat :: j + 1 < n ==> Retryable(attempts(j))
    ensures var (r, n) := Retry(retries, attempts, 0, None);
      r.Success? ==> n >= 1 && attempts(n - 1).result == Success(r.value)
    ensures var (r, n) := Retry(retries, attempts, 0, None);
      r.Failure? && r.error.ContextDone? ==> n >= 1 && attempts(n - 1).ctxErr == Some(r.error.ctxErr)
    ensures var (r, n) := Retry(retries, attempts, 0, None);
      r.Failure? && r.error.Exhausted? ==>
        r.error.attempts == retries + 1 && forall j: nat :: j < n ==> Retryable(attempts(j))
  {
    RetryFrom(retries, attempts, 0, None);
  }

  /** The first success is returned: an attempt that succeeds within the budget,
      after only retryable failures, decides the result. */
  lemma {:induction false} FirstSuccessWins(retries: int, attempts: nat -> Attempt, k: nat, m: nat, lastErr: Option<string>)
    requires k <= m <= retries
    requires forall j: nat :: k <= j < m ==> Retryable(attempts(j))
    requires attempts(m).result.Success?
    ensures Retry(retries, attempts, k, lastErr) == (Success(attempts(m).result.value), m + 1)
    decreases m - k
  {
    if k < m {
      RetryFrom0Step(retries, attempts, k, lastErr);
      FirstSuccessWins(retries, attempts, k + 1, m, Some(attempts(k).result.error));
    }
  }

  lemma RetryFrom0Step(retries: int, attempts: nat -> Attempt, k: nat, lastErr: Option<string>)
    requires k <= retries && Retryable(attempts(k))
    ensures Retry(retries, attempts, k, lastErr) == Retry(retries, attempts, k + 1, Some(attempts(k).result.error))
  {
  }

  /** The retry case of client_test.go: two server errors, then a reply. */
  function TwoFailuresThenSuccess(j: nat): Attempt {
    if j < 2 then Attempt(Failure("unexpected status 500"), None) else Attempt(Success("success"), None)
  }

  lemma ThirdAttemptSucceeds()
    ensures Retry(2, TwoFailuresThenSuccess, 0, None) == (Success("success"), 3)
  {
    FirstSuccessWins(2, TwoFailuresThenSuccess, 0, 2, None);
  }
}
