/**
 * GptService: recipe generation and modification through the OpenAI chat
 * completions endpoint. The HTTP exchange is an input (a function from the
 * request to what RestTemplate does); the JSON parsing is the ObjectMapper.
 */
module GptService {
  import opened Wrappers
  import opened JavaText
  import opened Dto
  import opened JsonTree
  import opened Remote

  const KeyNotConfigured := "OpenAI API key not configured"
  const EmptyResponse := "Falha ao gerar receita: IA retornou resposta vazia."
  const UnexpectedStructure := "Falha ao gerar receita: estrutura de resposta inesperada."
  const EmptyContent := "Falha ao gerar receita: IA retornou conteúdo vazio."
  const ClientErrorPrefix := "Falha ao comunicar com OpenAI: "
  /** The message of the NullPointerException `recipe.getNutrition()` raises on a null recipe. */
  const NullRecipe := "Cannot invoke \"br.com.bitewise.api.dto.RecipeResponse.getNutrition()\" because \"recipe\" is null"

  /** A chat completion request: the bearer token sent and the prompt. */
  datatype ChatRequest = ChatRequest(bearer: string, prompt: Prompt)

  /** The service is usable when the configured key has a visible character. */
  predicate IsAvailable(apiKey: Option<string>) {
    apiKey.Some? && !IsBlank(apiKey.value)
  }

  lemma AvailableIffVisibleChar(apiKey: Option<string>)
    ensures IsAvailable(apiKey) <==>
      apiKey.Some? && exists i :: 0 <= i < |apiKey.value| && !IsTrimmable(apiKey.value[i])
  {
    if apiKey.Some? {
      BlankIff(apiKey.value);
    }
  }

  /** Where a completion carries the answer: `choices[0].message.content`. */
  const ContentPointer: seq<Step> := [Field("choices"), Index(0), Field("message"), Field("content")]

  /**
   * `choices[0].message.content` as text, or the message of the exception
   * raised when the choices are missing or the content is blank.
   */
  function ChatContent(root: Json): (r: Result<string, string>)
    ensures r.Ok? ==> !IsBlank(r.value)
    ensures r == Err(UnexpectedStructure) <==> !IsNonEmptyArray(Path(root, "choices"))
    ensures r.Err? ==> r.error == UnexpectedStructure || r.error == EmptyContent
    ensures IsNonEmptyArray(Path(root, "choices")) ==>
      var content := AsText(At(root, ContentPointer));
      r == if IsBlank(content) then Err(EmptyContent) else Ok(content)
  {
    var choices := Path(root, "choices");
    if !IsNonEmptyArray(choices) then Err(UnexpectedStructure)
    else
      var content := AsText(Path(Path(choices.items[0], "message"), "content"));
      if IsBlank(content) then Err(EmptyContent) else Ok(content)
  }

  /**
   * Whatever else the completion carries (id, usage, the choice's index and
   * finish_reason), a text at the content pointer is what is read, unless it
   * is blank.
   */
  lemma ChatContentOfText(root: Json, c: string)
    requires At(root, ContentPointer) == Text(c)
    ensures ChatContent(root) == if IsBlank(c) then Err(EmptyContent) else Ok(c)
  {
    AtFirstStep(root, ContentPointer);
    var choices := Path(root, "choices");
    assert ContentPointer[1..] == [Index(0), Field("message"), Field("content")];
    AtFirstStep(choices, ContentPointer[1..]);
  }

  /** A choice without a textual message is reported as empty content, not as a bad structure. */
  lemma ChoiceWithoutMessage(choice: Json)
    requires !choice.Object?
    ensures ChatContent(Object(map["choices" := Array([choice])])) == Err(EmptyContent)
  {
    assert Path(Object(map["choices" := Array([choice])]), "choices") == Array([choice]);
  }

  /** Nutrition facts default to an empty NutritionFacts, and nothing else changes. */
  function WithNutrition(r: RecipeResponse): (out: RecipeResponse)
    ensures out.nutrition.Some?
    ensures r.nutrition.Some? ==> out == r
    ensures r.nutrition.None? ==> out == r.(nutrition := Some(EmptyNutrition))
  {
    if r.nutrition.None? then r.(nutrition := Some(EmptyNutrition)) else r
  }

  /** The body of the try: every failure is the exception raised, before the catch clauses see it. */
  function ReadCompletion(call: RemoteCall, mapper: ObjectMapper): (r: Result<RecipeResponse, JavaException>)
    ensures r.Ok? ==> r.value.nutrition.Some?
  {
    match call
    case Raised(e) => Err(e)
    case Responded(body) =>
      if body.None? || IsBlank(body.value) then Err(RuntimeException(EmptyResponse, None))
      else
        match mapper.readTree(body.value)
        case Err(m) => Err(JsonProcessingException(m))
        case Ok(root) =>
          match ChatContent(root)
          case Err(m) => Err(RuntimeException(m, None))
          case Ok(text) =>
            match mapper.readRecipe(text)
            case Err(m) => Err(JsonProcessingException(m))
            case Ok(None) => Err(NullPointerException(NullRecipe))
            case Ok(Some(recipe)) => Ok(WithNutrition(recipe))
  }

  /** executeGptRequest. */
  function ExecuteGptRequest(apiKey: Option<string>, prompt: Prompt,
                             openAi: ChatRequest -> RemoteCall, mapper: ObjectMapper): (x: Exchange<ChatRequest, RecipeResponse>)
    ensures !IsAvailable(apiKey) ==>
      x == Exchange(Err(RuntimeException(KeyNotConfigured, None)), [])
    ensures IsAvailable(apiKey) ==>
      x.requests == [ChatRequest(Trim(apiKey.value), prompt)]
    ensures x.outcome.Ok? ==> x.outcome.value.nutrition.Some?
    ensures x.outcome.Err? ==> x.outcome.error.RuntimeException?
  {
    if !IsAvailable(apiKey) then
      Exchange(Err(RuntimeException(KeyNotConfigured, None)), [])
    else
      var request := ChatRequest(Trim(apiKey.value), prompt);
      var outcome := ReadCompletion(openAi(request), mapper);
      Exchange(if outcome.Ok? then outcome else Err(Rethrow(ClientErrorPrefix, outcome.error)), [request])
  }

  /**
   * The success path: a completion whose content parses to a recipe yields
   * that recipe with its nutrition defaulted.
   */
  lemma ExecuteReturnsParsedRecipe(apiKey: Option<string>, prompt: Prompt, openAi: ChatRequest -> RemoteCall,
                                   mapper: ObjectMapper, body: string, root: Json, content: string,
                                   recipe: RecipeResponse)
    requires IsAvailable(apiKey)
    requires openAi(ChatRequest(Trim(apiKey.value), prompt)) == Responded(Some(body))
    requires !IsBlank(body) && mapper.readTree(body) == Ok(root) && At(root, ContentPointer) == Text(content)
    requires !IsBlank(content) && mapper.readRecipe(content) == Ok(Some(recipe))
    ensures ExecuteGptRequest(apiKey, prompt, openAi, mapper).outcome == Ok(WithNutrition(recipe))
  {
    ReadCompletionOfText(mapper, body, root, content, recipe);
    assert ReadCompletion(openAi(ChatRequest(Trim(apiKey.value), prompt)), mapper) == Ok(WithNutrition(recipe));
  }

  /** A completion whose content pointer holds the recipe text is read as that recipe, nutrition defaulted. */
  lemma ReadCompletionOfText(mapper: ObjectMapper, body: string, root: Json, content: string, recipe: RecipeResponse)
    requires !IsBlank(body) && mapper.readTree(body) == Ok(root) && At(root, ContentPointer) == Text(content)
    requires !IsBlank(content) && mapper.readRecipe(content) == Ok(Some(recipe))
    ensures ReadCompletion(Responded(Some(body)), mapper) == Ok(WithNutrition(recipe))
  {
    ChatContentOfText(root, content);
    var call := Responded(Some(body));
    assert !(call.body.None? || IsBlank(call.body.value));
    assert ChatContent(root) == Ok(content);
  }

  /**
   * Each failure of the answer is rethrown as the generic failure, with the
   * specific message kept in the cause.
   */
  lemma ExecuteWrapsEnvelopeFailures(apiKey: Option<string>, prompt: Prompt, openAi: ChatRequest -> RemoteCall,
                                     mapper: ObjectMapper, body: string, root: Json)
    requires IsAvailable(apiKey)
    requires openAi(ChatRequest(Trim(apiKey.value), prompt)) == Responded(Some(body))
    requires !IsBlank(body) && mapper.readTree(body) == Ok(root)
    requires ChatContent(root).Err?
    ensures ExecuteGptRequest(apiKey, prompt, openAi, mapper).outcome ==
      Err(RuntimeException(GenerationFailure, Some(RuntimeException(ChatContent(root).error, None))))
  {
  }

  /** A blank or null body is an empty response, wrapped as the generic failure. */
  lemma ExecuteRejectsBlankBody(apiKey: Option<string>, prompt: Prompt, openAi: ChatRequest -> RemoteCall,
                                mapper: ObjectMapper)
    requires IsAvailable(apiKey)
    requires var call := openAi(ChatRequest(Trim(apiKey.value), prompt));
      call.Responded? && (call.body.None? || IsBlank(call.body.value))
    ensures ExecuteGptRequest(apiKey, prompt, openAi, mapper).outcome ==
      Err(RuntimeException(GenerationFailure, Some(RuntimeException(EmptyResponse, None))))
  {
  }

  /**
   * An exception of the client is rethrown through the catch clauses: a 4xx
   * answer is reported with its status code and body, the exception kept as
   * the cause.
   */
  lemma ExecuteRethrowsRaised(apiKey: Option<string>, prompt: Prompt, openAi: ChatRequest -> RemoteCall,
                              mapper: ObjectMapper, e: JavaException)
    requires IsAvailable(apiKey)
    requires openAi(ChatRequest(Trim(apiKey.value), prompt)) == Raised(e)
    ensures ExecuteGptRequest(apiKey, prompt, openAi, mapper).outcome == Err(Rethrow(ClientErrorPrefix, e))
    ensures e.HttpClientErrorException? ==>
      ExecuteGptRequest(apiKey, prompt, openAi, mapper).outcome ==
        Err(RuntimeException(ClientErrorPrefix + e.statusCode + " - " + e.responseBody, Some(e)))
  {
  }

  /** A body that is not JSON makes readTree throw, which is rethrown as the processing failure. */
  lemma ExecuteReportsUnreadableBody(apiKey: Option<string>, prompt: Prompt, openAi: ChatRequest -> RemoteCall,
                                     mapper: ObjectMapper, body: string, m: string)
    requires IsAvailable(apiKey)
    requires openAi(ChatRequest(Trim(apiKey.value), prompt)) == Responded(Some(body))
    requires !IsBlank(body) && mapper.readTree(body) == Err(m)
    ensures ExecuteGptRequest(apiKey, prompt, openAi, mapper).outcome ==
      Err(RuntimeException(ProcessingFailure, Some(JsonProcessingException(m))))
  {
  }

  /** Content that is not a recipe makes readValue throw, which is rethrown as the processing failure. */
  lemma ExecuteReportsUnreadableContent(apiKey: Option<string>, prompt: Prompt, openAi: ChatRequest -> RemoteCall,
                                        mapper: ObjectMapper, body: string, root: Json, content: string, m: string)
    requires IsAvailable(apiKey)
    requires openAi(ChatRequest(Trim(apiKey.value), prompt)) == Responded(Some(body))
    requires !IsBlank(body) && mapper.readTree(body) == Ok(root) && At(root, ContentPointer) == Text(content)
    requires !IsBlank(content) && mapper.readRecipe(content) == Err(m)
    ensures ExecuteGptRequest(apiKey, prompt, openAi, mapper).outcome ==
      Err(RuntimeException(ProcessingFailure, Some(JsonProcessingException(m))))
  {
    ReadCompletionOfUnreadableText(mapper, body, root, content, m);
    var request := ChatRequest(Trim(apiKey.value), prompt);
    assert ReadCompletion(openAi(request), mapper) == Err(JsonProcessingException(m));
    assert Rethrow(ClientErrorPrefix, JsonProcessingException(m)) ==
      RuntimeException(ProcessingFailure, Some(JsonProcessingException(m)));
  }

  /** A completion whose content pointer holds text that is not a recipe fails with readValue's exception. */
  lemma ReadCompletionOfUnreadableText(mapper: ObjectMapper, body: string, root: Json, content: string, m: string)
    requires !IsBlank(body) && mapper.readTree(body) == Ok(root) && At(root, ContentPointer) == Text(content)
    requires !IsBlank(content) && mapper.readRecipe(content) == Err(m)
    ensures ReadCompletion(Responded(Some(body)), mapper) == Err(JsonProcessingException(m))
  {
    ChatContentOfText(root, content);
    var call := Responded(Some(body));
    assert !(call.body.None? || IsBlank(call.body.value));
    assert ChatContent(root) == Ok(content);
  }

  /** generateRecipe: the prompt carries the ingredients joined by ", ". */
  function GenerateRecipe(apiKey: Option<string>, ingredients: seq<string>,
                          openAi: ChatRequest -> RemoteCall, mapper: ObjectMapper): (x: Exchange<ChatRequest, RecipeResponse>)
    ensures forall q | q in x.requests :: q.prompt == GenerationPrompt(Join(ingredients, ", "))
    ensures |x.requests| <= 1
  {
    ExecuteGptRequest(apiKey, GenerationPrompt(Join(ingredients, ", ")), openAi, mapper)
  }

  /** Every ingredient appears in the generation prompt. */
  lemma GenerationPromptNamesEachIngredient(apiKey: Option<string>, ingredients: seq<string>,
                                            openAi: ChatRequest -> RemoteCall, mapper: ObjectMapper, i: nat)
    requires i < |ingredients| && IsAvailable(apiKey)
    ensures var x := GenerateRecipe(apiKey, ingredients, openAi, mapper);
      |x.requests| == 1 && Contains(x.requests[0].prompt.ingredientList, ingredients[i])
  {
    JoinContainsEach(ingredients, ", ", i);
  }

  /** modifyRecipe: the original JSON is embedded as given, "null" when absent. */
  function ModifyRecipe(apiKey: Option<string>, originalRecipeJson: Option<string>, instruction: Option<string>,
                        openAi: ChatRequest -> RemoteCall, mapper: ObjectMapper): (x: Exchange<ChatRequest, RecipeResponse>)
    ensures forall q | q in x.requests ::
      q.prompt == ModificationPrompt(FormatArg(instruction), FormatArg(originalRecipeJson))
    ensures IsAvailable(apiKey) <==> |x.requests| == 1
  {
    ExecuteGptRequest(apiKey, ModificationPrompt(FormatArg(instruction), FormatArg(originalRecipeJson)), openAi, mapper)
  }
}
