/**
 * GeminiService: recipe generation and modification through the Gemini
 * generateContent endpoint, reached at the configured base URL with the API
 * key as the `key` query parameter.
 */
module GeminiService {
  import opened Wrappers
  import opened JavaText
  import opened Dto
  import opened JsonTree
  import opened Remote

  const BaseUrlMissing := "Propriedade 'gemini.api.base-url' não encontrada. Adicione em application.properties ou via variável de ambiente."
  const ApiKeyMissing := "Propriedade 'google.api.key' não encontrada. Adicione em application.properties ou via variável de ambiente."
  const UriFailure := "Erro ao construir URI da API Gemini"
  const EmptyResponse := "Falha ao gerar receita: IA retornou resposta vazia."
  const PromptBlocked := "Falha ao gerar receita: O prompt foi bloqueado pela política de segurança da IA."
  const UnexpectedAnswer := "Falha ao gerar receita: resposta inesperada da IA."
  const UnexpectedStructure := "Falha ao gerar receita: estrutura de resposta inesperada."
  const EmptyContent := "Falha ao gerar receita: IA retornou conteúdo vazio."
  const ClientErrorPrefix := "Falha ao comunicar com a IA: "
  const IngredientsUnavailable := "Falha ao extrair ingredientes."
  const IngredientsPrefix := "Lista de Ingredientes Originais: "
  /** The message of the IllegalArgumentException `readTree(null)` raises. */
  const NullContent := "argument \"content\" is null"

  /** init: the base URL is checked before the key; each must have a visible char. */
  function Init(baseUrl: Option<string>, apiKey: Option<string>): (r: Result<(), JavaException>)
    ensures r.Ok? <==> NotBlank(baseUrl) && NotBlank(apiKey)
    ensures !NotBlank(baseUrl) ==> r == Err(IllegalStateException(BaseUrlMissing))
    ensures NotBlank(baseUrl) && !NotBlank(apiKey) ==> r == Err(IllegalStateException(ApiKeyMissing))
  {
    if !NotBlank(baseUrl) then Err(IllegalStateException(BaseUrlMissing))
    else if !NotBlank(apiKey) then Err(IllegalStateException(ApiKeyMissing))
    else Ok(())
  }

  /** The key sent: brackets, parentheses and whitespace removed, then trimmed. */
  function CleanKey(apiKey: Option<string>): string {
    if apiKey.None? then "" else Trim(RemoveKeyNoise(apiKey.value))
  }

  /** The cleaned key holds no noise char, only chars of the configured key, and has nothing left to trim. */
  lemma CleanKeyIsClean(apiKey: Option<string>)
    ensures var k := CleanKey(apiKey);
      && (forall i :: 0 <= i < |k| ==> !IsKeyNoise(k[i]))
      && (apiKey.Some? ==> forall i :: 0 <= i < |k| ==> k[i] in apiKey.value)
      && Trim(k) == k
  {
    if apiKey.Some? {
      var r := RemoveKeyNoise(apiKey.value);
      TrimKeepsCleanChars(r, apiKey.value);
      TrimIdempotent(r);
    }
  }

  /** Cleaning a cleaned key changes nothing. */
  lemma CleanKeyIdempotent(apiKey: Option<string>)
    ensures CleanKey(Some(CleanKey(apiKey))) == CleanKey(apiKey)
  {
    CleanKeyIsClean(apiKey);
  }

  /** A key typed without noise and without surrounding control chars is sent as it is. */
  lemma CleanKeyKeepsPlainKey(key: string)
    requires forall i :: 0 <= i < |key| ==> !IsKeyNoise(key[i])
    requires Trim(key) == key
    ensures CleanKey(Some(key)) == key
  {
  }

  /** The URI as it is logged: every key value is masked. */
  function LoggedUri(uri: string): (m: string)
    ensures NoExposedKey(m)
  {
    MaskKeysHidesValues(uri);
    MaskKeys(uri)
  }

  /** A URI without a key parameter is logged unchanged. */
  lemma LoggedUriWithoutKey(uri: string)
    requires forall i :: 0 <= i < |uri| ==> !KeyAt(uri, i)
    ensures LoggedUri(uri) == uri
  {
    MaskKeysNoKey(uri);
  }

  /**
   * Masking keeps the URI around the key: what comes before the parameter
   * is logged as it is, the value up to the next '&' becomes "***", and the
   * rest is logged as it would be on its own.
   */
  lemma LoggedUriKeepsAllButKey(head: string, key: string, rest: string)
    requires forall i :: 0 <= i < |head| ==> !KeyAt(head + KeyParam + key + rest, i)
    requires |key| > 0 && forall i :: 0 <= i < |key| ==> key[i] != '&'
    requires rest == [] || rest[0] == '&'
    ensures LoggedUri(head + KeyParam + key + rest) == head + MaskedKey + LoggedUri(rest)
  {
    assert head + KeyParam + key + rest == head + (KeyParam + key + rest);
    MaskKeysCopiesPlain(head, KeyParam + key + rest);
    MaskKeysReplacesValue(key, rest);
  }

  /** A request to Gemini: the URI carrying the key and the prompt. */
  datatype GeminiRequest = GeminiRequest(uri: string, prompt: Prompt)

  /** Where an answer carries its parts, its text and the reason a prompt was blocked. */
  const PartsPointer: seq<Step> := [Field("candidates"), Index(0), Field("content"), Field("parts")]
  const TextPointer: seq<Step> := [Field("candidates"), Index(0), Field("content"), Field("parts"), Index(0), Field("text")]
  const BlockReasonPointer: seq<Step> := [Field("promptFeedback"), Field("blockReason")]

  /**
   * The text of `candidates[0].content.parts[0]`, or the message of the
   * exception raised when the answer does not have it.
   */
  function CandidateText(root: Json): (r: Result<string, string>)
    ensures r.Ok? ==> !IsBlank(r.value)
    ensures !IsNonEmptyArray(Path(root, "candidates")) <==> r.Err? && (r.error == PromptBlocked || r.error == UnexpectedAnswer)
    ensures r == Err(PromptBlocked) <==>
      !IsNonEmptyArray(Path(root, "candidates")) && IsTextual(At(root, BlockReasonPointer))
    ensures r == Err(UnexpectedStructure) <==>
      IsNonEmptyArray(Path(root, "candidates")) && !IsNonEmptyArray(At(root, PartsPointer))
    ensures IsNonEmptyArray(Path(root, "candidates")) && IsNonEmptyArray(At(root, PartsPointer)) ==>
      var text := AsText(At(root, TextPointer));
      r == if IsBlank(text) then Err(EmptyContent) else Ok(text)
  {
    var candidates := Path(root, "candidates");
    if !IsNonEmptyArray(candidates) then
      if IsTextual(Path(Path(root, "promptFeedback"), "blockReason")) then Err(PromptBlocked)
      else Err(UnexpectedAnswer)
    else
      var parts := Path(Path(candidates.items[0], "content"), "parts");
      PartsWalk(root);
      if !IsNonEmptyArray(parts) then Err(UnexpectedStructure)
      else
        var text := AsText(Path(parts.items[0], "text"));
        if IsBlank(text) then Err(EmptyContent) else Ok(text)
  }

  /** The parts pointer and the text pointer follow the walk the answer is read by. */
  lemma PartsWalk(root: Json)
    requires IsNonEmptyArray(Path(root, "candidates"))
    ensures At(root, PartsPointer) == Path(Path(Path(root, "candidates").items[0], "content"), "parts")
    ensures var parts := At(root, PartsPointer);
      IsNonEmptyArray(parts) ==> At(root, TextPointer) == Path(parts.items[0], "text")
  {
  }

  /**
   * Whatever else the answer carries (finishReason, safetyRatings, the
   * usage metadata), a text at the text pointer is what is read, unless it
   * is blank.
   */
  lemma CandidateTextOfText(root: Json, t: string)
    requires At(root, TextPointer) == Text(t)
    ensures CandidateText(root) == if IsBlank(t) then Err(EmptyContent) else Ok(t)
  {
    var candidates := Path(root, "candidates");
    AtFirstStep(root, TextPointer);
    assert TextPointer[1..] == [Index(0), Field("content"), Field("parts"), Index(0), Field("text")];
    AtFirstStep(candidates, TextPointer[1..]);
    var parts := Path(Path(candidates.items[0], "content"), "parts");
    assert At(root, TextPointer) == At(parts, [Index(0), Field("text")]);
    AtFirstStep(parts, [Index(0), Field("text")]);
    PartsWalk(root);
  }

  /** Markdown code fences are removed and the text trimmed. */
  function StripFences(text: string): (r: string)
    ensures !HasFence(r)
    ensures Trim(r) == r
  {
    var unfenced := RemoveAll(RemoveAll(text, "```json"), "```");
    RemoveFencesLeavesNone(RemoveAll(text, "```json"));
    TrimKeepsNoFence(unfenced);
    TrimIdempotent(unfenced);
    Trim(unfenced)
  }

  /** Text without backquotes is only trimmed. */
  lemma StripFencesOfPlain(text: string)
    requires forall i :: 0 <= i < |text| ==> text[i] != '`'
    ensures StripFences(text) == Trim(text)
  {
    RemoveAllAbsent(text, "```json");
    RemoveAllAbsent(text, "```");
  }

  /** A body fenced as a JSON code block is given back trimmed, without its fences. */
  lemma StripFencesOfFenced(j: string)
    requires forall i :: 0 <= i < |j| ==> j[i] != '`'
    ensures StripFences("```json" + j + "```") == Trim(j)
  {
    var fenced := "```json" + j + "```";
    assert StartsWith(fenced, "```json") by {
      assert fenced[..7] == "```json";
    }
    assert fenced[7..] == j + "```";
    RemoveAllAfterPlain(j, "```", "```json");
    RemoveAllShort("```", "```json");
    assert RemoveAll(fenced, "```json") == j + "```";
    RemoveAllAfterPlain(j, "```", "```");
    assert StartsWith("```", "```");
    assert RemoveAll("```", "```") == [];
    assert j + [] == j;
  }

  /** The answer to the request: Ok(None) when the recipe text is the JSON literal null. */
  function ReadAnswer(call: RemoteCall, mapper: ObjectMapper): (r: Result<Option<RecipeResponse>, JavaException>)
    ensures r.Ok? ==> call.Responded? && call.body.Some? && !IsBlank(call.body.value)
    ensures r.Err? && !call.Raised? ==> r.error.RuntimeException? || r.error.JsonProcessingException?
  {
    match call
    case Raised(e) => Err(e)
    case Responded(body) =>
      if body.None? || IsBlank(body.value) then Err(RuntimeException(EmptyResponse, None))
      else
        match mapper.readTree(body.value)
        case Err(m) => Err(JsonProcessingException(m))
        case Ok(root) =>
          match CandidateText(root)
          case Err(m) => Err(RuntimeException(m, None))
          case Ok(text) =>
            match mapper.readRecipe(StripFences(text))
            case Err(m) => Err(JsonProcessingException(m))
            case Ok(recipe) => Ok(recipe)
  }

  /**
   * executeGeminiRequest. `buildUri` is UriComponentsBuilder, given the base
   * URL and the cleaned key; its Err is the exception it throws.
   */
  function ExecuteGeminiRequest(apiKey: Option<string>, baseUrl: Option<string>, prompt: Prompt,
                                buildUri: (Option<string>, string) -> Result<string, JavaException>,
                                gemini: GeminiRequest -> RemoteCall, mapper: ObjectMapper): (x: Exchange<GeminiRequest, Option<RecipeResponse>>)
    ensures buildUri(baseUrl, CleanKey(apiKey)).Err? ==>
      x == Exchange(Err(RuntimeException(UriFailure, Some(buildUri(baseUrl, CleanKey(apiKey)).error))), [])
    ensures buildUri(baseUrl, CleanKey(apiKey)).Ok? ==>
      x.requests == [GeminiRequest(buildUri(baseUrl, CleanKey(apiKey)).value, prompt)]
    ensures x.outcome.Err? ==> x.outcome.error.RuntimeException?
  {
    match buildUri(baseUrl, CleanKey(apiKey))
    case Err(e) => Exchange(Err(RuntimeException(UriFailure, Some(e))), [])
    case Ok(uri) =>
      var request := GeminiRequest(uri, prompt);
      var outcome := ReadAnswer(gemini(request), mapper);
      Exchange(if outcome.Ok? then outcome else Err(Rethrow(ClientErrorPrefix, outcome.error)), [request])
  }

  /** The success path: the recipe text is parsed once its fences are stripped. */
  lemma ExecuteParsesUnfencedText(apiKey: Option<string>, baseUrl: Option<string>, prompt: Prompt,
                                  buildUri: (Option<string>, string) -> Result<string, JavaException>,
                                  gemini: GeminiRequest -> RemoteCall, mapper: ObjectMapper,
                                  body: string, root: Json, text: string, recipe: Option<RecipeResponse>)
    requires buildUri(baseUrl, CleanKey(apiKey)).Ok?
    requires gemini(GeminiRequest(buildUri(baseUrl, CleanKey(apiKey)).value, prompt)) == Responded(Some(body))
    requires !IsBlank(body) && mapper.readTree(body) == Ok(root) && At(root, TextPointer) == Text(text)
    requires !IsBlank(text) && mapper.readRecipe(StripFences(text)) == Ok(recipe)
    ensures ExecuteGeminiRequest(apiKey, baseUrl, prompt, buildUri, gemini, mapper).outcome == Ok(recipe)
  {
    ReadAnswerOfText(mapper, body, root, text, recipe);
    var request := GeminiRequest(buildUri(baseUrl, CleanKey(apiKey)).value, prompt);
    assert ReadAnswer(gemini(request), mapper) == Ok(recipe);
  }

  /** An answer whose text pointer holds `text` is read as the recipe parsed from the unfenced text. */
  lemma ReadAnswerOfText(mapper: ObjectMapper, body: string, root: Json, text: string, recipe: Option<RecipeResponse>)
    requires !IsBlank(body) && mapper.readTree(body) == Ok(root) && At(root, TextPointer) == Text(text)
    requires !IsBlank(text) && mapper.readRecipe(StripFences(text)) == Ok(recipe)
    ensures ReadAnswer(Responded(Some(body)), mapper) == Ok(recipe)
  {
    CandidateTextOfText(root, text);
    var call := Responded(Some(body));
    assert !(call.body.None? || IsBlank(call.body.value));
    assert CandidateText(root) == Ok(text);
  }

  /** The answer Gemini gives for a blocked prompt, and nothing else. */
  function BlockedEnvelope(reason: string): Json {
    Object(map["promptFeedback" := Object(map["blockReason" := Text(reason)])])
  }

  lemma BlockedAnswer(reason: string)
    ensures CandidateText(BlockedEnvelope(reason)) == Err(PromptBlocked)
  {
    var feedback := Object(map["blockReason" := Text(reason)]);
    var root := BlockedEnvelope(reason);
    assert Path(root, "candidates") == Missing;
    assert Path(root, "promptFeedback") == feedback;
    assert Path(feedback, "blockReason") == Text(reason);
  }

  /**
   * An answer without candidates but with a textual blockReason, whatever
   * else it carries, is reported as a blocked prompt, wrapped as the generic
   * failure.
   */
  lemma ExecuteReportsBlockedPrompt(apiKey: Option<string>, baseUrl: Option<string>, prompt: Prompt,
                                    buildUri: (Option<string>, string) -> Result<string, JavaException>,
                                    gemini: GeminiRequest -> RemoteCall, mapper: ObjectMapper,
                                    body: string, root: Json)
    requires buildUri(baseUrl, CleanKey(apiKey)).Ok?
    requires gemini(GeminiRequest(buildUri(baseUrl, CleanKey(apiKey)).value, prompt)) == Responded(Some(body))
    requires !IsBlank(body) && mapper.readTree(body) == Ok(root)
    requires !IsNonEmptyArray(Path(root, "candidates")) && IsTextual(At(root, BlockReasonPointer))
    ensures ExecuteGeminiRequest(apiKey, baseUrl, prompt, buildUri, gemini, mapper).outcome ==
      Err(RuntimeException(GenerationFailure, Some(RuntimeException(PromptBlocked, None))))
  {
    assert CandidateText(root) == Err(PromptBlocked);
    assert ReadAnswer(Responded(Some(body)), mapper) == Err(RuntimeException(PromptBlocked, None));
  }

  /**
   * An exception of the client is rethrown through the catch clauses: a 4xx
   * answer is reported with its status code and body, the exception kept as
   * the cause.
   */
  lemma ExecuteRethrowsRaised(apiKey: Option<string>, baseUrl: Option<string>, prompt: Prompt,
                              buildUri: (Option<string>, string) -> Result<string, JavaException>,
                              gemini: GeminiRequest -> RemoteCall, mapper: ObjectMapper, e: JavaException)
    requires buildUri(baseUrl, CleanKey(apiKey)).Ok?
    requires gemini(GeminiRequest(buildUri(baseUrl, CleanKey(apiKey)).value, prompt)) == Raised(e)
    ensures ExecuteGeminiRequest(apiKey, baseUrl, prompt, buildUri, gemini, mapper).outcome ==
      Err(Rethrow(ClientErrorPrefix, e))
    ensures e.HttpClientErrorException? ==>
      ExecuteGeminiRequest(apiKey, baseUrl, prompt, buildUri, gemini, mapper).outcome ==
        Err(RuntimeException(ClientErrorPrefix + e.statusCode + " - " + e.responseBody, Some(e)))
  {
  }

  /** A body that is not JSON makes readTree throw, which is rethrown as the processing failure. */
  lemma ExecuteReportsUnreadableBody(apiKey: Option<string>, baseUrl: Option<string>, prompt: Prompt,
                                     buildUri: (Option<string>, string) -> Result<string, JavaException>,
                                     gemini: GeminiRequest -> RemoteCall, mapper: ObjectMapper,
                                     body: string, m: string)
    requires buildUri(baseUrl, CleanKey(apiKey)).Ok?
    requires gemini(GeminiRequest(buildUri(baseUrl, CleanKey(apiKey)).value, prompt)) == Responded(Some(body))
    requires !IsBlank(body) && mapper.readTree(body) == Err(m)
    ensures ExecuteGeminiRequest(apiKey, baseUrl, prompt, buildUri, gemini, mapper).outcome ==
      Err(RuntimeException(ProcessingFailure, Some(JsonProcessingException(m))))
  {
  }

  /** Unfenced text that is not a recipe makes readValue throw, which is rethrown as the processing failure. */
  lemma ExecuteReportsUnreadableText(apiKey: Option<string>, baseUrl: Option<string>, prompt: Prompt,
                                     buildUri: (Option<string>, string) -> Result<string, JavaException>,
                                     gemini: GeminiRequest -> RemoteCall, mapper: ObjectMapper,
                                     body: string, root: Json, text: string, m: string)
    requires buildUri(baseUrl, CleanKey(apiKey)).Ok?
    requires gemini(GeminiRequest(buildUri(baseUrl, CleanKey(apiKey)).value, prompt)) == Responded(Some(body))
    requires !IsBlank(body) && mapper.readTree(body) == Ok(root) && At(root, TextPointer) == Text(text)
    requires !IsBlank(text) && mapper.readRecipe(StripFences(text)) == Err(m)
    ensures ExecuteGeminiRequest(apiKey, baseUrl, prompt, buildUri, gemini, mapper).outcome ==
      Err(RuntimeException(ProcessingFailure, Some(JsonProcessingException(m))))
  {
    ReadAnswerOfUnreadableText(mapper, body, root, text, m);
    var request := GeminiRequest(buildUri(baseUrl, CleanKey(apiKey)).value, prompt);
    assert ReadAnswer(gemini(request), mapper) == Err(JsonProcessingException(m));
  }

  /** An answer whose text pointer holds text that is not a recipe once unfenced fails with readValue's exception. */
  lemma ReadAnswerOfUnreadableText(mapper: ObjectMapper, body: string, root: Json, text: string, m: string)
    requires !IsBlank(body) && mapper.readTree(body) == Ok(root) && At(root, TextPointer) == Text(text)
    requires !IsBlank(text) && mapper.readRecipe(StripFences(text)) == Err(m)
    ensures ReadAnswer(Responded(Some(body)), mapper) == Err(JsonProcessingException(m))
  {
    CandidateTextOfText(root, text);
    var call := Responded(Some(body));
    assert !(call.body.None? || IsBlank(call.body.value));
    assert CandidateText(root) == Ok(text);
  }

  /** generateRecipe: the prompt carries the ingredients joined by ", ". */
  function GenerateRecipe(apiKey: Option<string>, baseUrl: Option<string>, ingredients: seq<string>,
                          buildUri: (Option<string>, string) -> Result<string, JavaException>,
                          gemini: GeminiRequest -> RemoteCall, mapper: ObjectMapper): (x: Exchange<GeminiRequest, Option<RecipeResponse>>)
    ensures forall q | q in x.requests :: q.prompt == GenerationPrompt(Join(ingredients, ", "))
    ensures |x.requests| <= 1
  {
    ExecuteGeminiRequest(apiKey, baseUrl, GenerationPrompt(Join(ingredients, ", ")), buildUri, gemini, mapper)
  }

  /**
   * The basis of a modification prompt: the original ingredient array written
   * back as JSON, or a fixed note when the original cannot be read or has no
   * such array. A null original makes readTree throw, which is not caught.
   */
  function OriginalIngredients(originalRecipeJson: Option<string>, mapper: ObjectMapper): (r: Result<string, JavaException>)
    ensures r.Err? <==> originalRecipeJson.None?
    ensures r.Err? ==> r.error == IllegalArgumentException(NullContent)
    ensures originalRecipeJson.Some? && mapper.readTree(originalRecipeJson.value).Err? ==> r == Ok(IngredientsUnavailable)
    ensures originalRecipeJson.Some? && mapper.readTree(originalRecipeJson.value).Ok? ==>
      (r == Ok(IngredientsUnavailable) <==> !Path(mapper.readTree(originalRecipeJson.value).value, "ingredients").Array?)
    ensures r.Ok? ==> r.value == IngredientsUnavailable || StartsWith(r.value, IngredientsPrefix)
  {
    if originalRecipeJson.None? then Err(IllegalArgumentException(NullContent))
    else
      match mapper.readTree(originalRecipeJson.value)
      case Err(_) => Ok(IngredientsUnavailable)
      case Ok(root) =>
        var node := Path(root, "ingredients");
        if node.Array? then
          var summary := IngredientsPrefix + mapper.writeValueAsString(node);
          assert summary[0] != IngredientsUnavailable[0];
          Ok(summary)
        else Ok(IngredientsUnavailable)
  }

  /** An original with an ingredient array is summarised by that array's JSON text. */
  lemma OriginalIngredientsOfArray(json: string, mapper: ObjectMapper, root: Json, items: seq<Json>)
    requires mapper.readTree(json) == Ok(root) && Path(root, "ingredients") == Array(items)
    ensures OriginalIngredients(Some(json), mapper) == Ok(IngredientsPrefix + mapper.writeValueAsString(Array(items)))
  {
  }

  /** modifyRecipe. */
  function ModifyRecipe(apiKey: Option<string>, baseUrl: Option<string>, originalRecipeJson: Option<string>,
                        instruction: Option<string>, buildUri: (Option<string>, string) -> Result<string, JavaException>,
                        gemini: GeminiRequest -> RemoteCall, mapper: ObjectMapper): (x: Exchange<GeminiRequest, Option<RecipeResponse>>)
    ensures originalRecipeJson.None? ==> x == Exchange(Err(IllegalArgumentException(NullContent)), [])
    ensures originalRecipeJson.Some? ==>
      x == ExecuteGeminiRequest(apiKey, baseUrl,
             ModificationPrompt(FormatArg(instruction), OriginalIngredients(originalRecipeJson, mapper).value),
             buildUri, gemini, mapper)
  {
    match OriginalIngredients(originalRecipeJson, mapper)
    case Err(e) => Exchange(Err(e), [])
    case Ok(basis) =>
      ExecuteGeminiRequest(apiKey, baseUrl, ModificationPrompt(FormatArg(instruction), basis), buildUri, gemini, mapper)
  }

  /** An unreadable original still leads to a request, with the fixed note as its basis. */
  lemma ModifyWithUnreadableOriginal(apiKey: Option<string>, baseUrl: Option<string>, json: string,
                                     instruction: Option<string>, buildUri: (Option<string>, string) -> Result<string, JavaException>,
                                     gemini: GeminiRequest -> RemoteCall, mapper: ObjectMapper)
    requires mapper.readTree(json).Err? && buildUri(baseUrl, CleanKey(apiKey)).Ok?
    ensures var x := ModifyRecipe(apiKey, baseUrl, Some(json), instruction, buildUri, gemini, mapper);
      |x.requests| == 1 && x.requests[0].prompt == ModificationPrompt(FormatArg(instruction), IngredientsUnavailable)
  {
  }
}
