/**
 * RecipeController: the choice of AI provider for a generation request and
 * its fallback, the routing of modification requests to Gemini, and saving a
 * recipe for the authenticated user.
 */
module RecipeController {
  import opened Wrappers
  import opened JavaText
  import opened Dto
  import opened Remote
  import opened Security
  import opened Store
  import JsonTree
  import GptService
  import GeminiService

  const NotAuthenticated := "Não autenticado"
  const ClientErrorPrefix := "Erro ao chamar IA: "
  const ErrorPrefix := "Erro: "
  const ModifyFailure := "Falha ao modificar a receita com a IA."
  const UserNotFound := "Usuário não encontrado."
  /** The message of the NullPointerException `recipe.getTitle()` raises on a null recipe. */
  const NullRecipe := "Cannot invoke \"br.com.bitewise.api.dto.RecipeResponse.getTitle()\" because \"recipe\" is null"

  /** What a provider's generateRecipe does: a recipe (None for null) or the exception it throws. */
  type Outcome = Result<Option<RecipeResponse>, JavaException>

  /** The two providers as the controller sees them. */
  datatype Providers = Providers(
    gptAvailable: bool,
    gptGenerate: seq<string> -> Outcome,
    geminiGenerate: seq<string> -> Outcome,
    geminiModify: (Option<string>, Option<string>) -> Outcome)

  datatype Provider = Gpt | Gemini

  /** One provider call and the ingredients it was given. */
  datatype Call = Call(provider: Provider, ingredients: seq<string>)

  function Run(p: Providers, c: Call): Outcome {
    if c.provider == Gpt then p.gptGenerate(c.ingredients) else p.geminiGenerate(c.ingredients)
  }

  /** An empty aiModel parameter is the same request as no parameter at all. */
  lemma EmptyModeIsDefault(request: GenerateRecipeRequest, authentication: Option<Authentication>, p: Providers)
    ensures GenerateRecipe(request, Some(""), authentication, p) == GenerateRecipe(request, None, authentication, p)
  {
  }

  /** A generation request's reply and the provider calls it made, in order. */
  datatype Generation = Generation(reply: Reply, calls: seq<Call>)

  /** The aiModel parameter: absent or empty takes the default "auto". */
  function ModeOf(aiModel: Option<string>): (mode: string)
    ensures aiModel.None? || aiModel.value == "" ==> mode == "auto"
    ensures aiModel.Some? && aiModel.value != "" ==> mode == aiModel.value
  {
    if aiModel.None? || aiModel.value == "" then "auto" else aiModel.value
  }

  /**
   * The provider chain of the if/else-if ladder: the outcome that reaches the
   * end of the try block, and the calls made.
   */
  function Choose(mode: string, p: Providers, ingredients: seq<string>): (Outcome, seq<Call>) {
    var gpt := Call(Gpt, ingredients);
    var gemini := Call(Gemini, ingredients);
    if EqualsIgnoreCase("gpt", mode) then
      if !p.gptAvailable then (Run(p, gemini), [gemini]) else (Run(p, gpt), [gpt])
    else if EqualsIgnoreCase("auto", mode) then
      if p.gptAvailable then
        var first := Run(p, gpt);
        if first.Ok? then (first, [gpt]) else (Run(p, gemini), [gpt, gemini])
      else (Run(p, gemini), [gemini])
    else (Run(p, gemini), [gemini])
  }

  /** The reply for the outcome of the chain; a null recipe fails on the title access. */
  function ReplyFor(outcome: Outcome): (r: Reply)
    ensures r.status == 200 <==> outcome.Ok? && outcome.value.Some?
    ensures r.status == 200 ==> r.body == RecipeBody(outcome.value)
    ensures r.status != 200 ==> r.status == 500 && r.body.MessageBody?
  {
    match outcome
    case Ok(Some(recipe)) => Reply(200, RecipeBody(Some(recipe)))
    case Ok(None) => Reply(500, MessageBody(ErrorPrefix + NullRecipe))
    case Err(HttpClientErrorException(_, status, _)) => Reply(500, MessageBody(ClientErrorPrefix + status))
    case Err(e) => Reply(500, MessageBody(ErrorPrefix + e.message))
  }

  /** generateRecipe, after Bean Validation of the body. */
  function GenerateRecipe(request: GenerateRecipeRequest, aiModel: Option<string>,
                          authentication: Option<Authentication>, p: Providers): (g: Generation)
    ensures |g.calls| <= 2
    ensures g.calls != [] ==> request.ingredients.Some? && forall c | c in g.calls :: c.ingredients == request.ingredients.value
    ensures g.reply.status == 200 ==>
      && g.reply.body.RecipeBody? && g.reply.body.recipe.Some?
      && |g.calls| > 0 && Run(p, g.calls[|g.calls| - 1]) == Ok(g.reply.body.recipe)
    ensures g.reply.status == 200 || g.reply.status == 400 || g.reply.status == 401 || g.reply.status == 500
    ensures g.reply.status == 500 ==> g.reply.body.MessageBody?
  {
    if !ValidGenerateRequest(request) then Generation(Reply(400, ValidationErrors), [])
    else if authentication.None? || !authentication.value.authenticated then
      Generation(Reply(401, MessageBody(NotAuthenticated)), [])
    else if authentication.value.principal.OtherPrincipal? then
      Generation(Reply(500, MessageBody(ErrorPrefix + authentication.value.principal.castFailure)), [])
    else
      var (outcome, calls) := Choose(ModeOf(aiModel), p, request.ingredients.value);
      Generation(ReplyFor(outcome), calls)
  }

  /** Without an authenticated user the reply is 401 and no provider is called. */
  lemma UnauthenticatedCallsNoProvider(request: GenerateRecipeRequest, aiModel: Option<string>,
                                       authentication: Option<Authentication>, p: Providers)
    requires ValidGenerateRequest(request)
    requires authentication.None? || !authentication.value.authenticated
    ensures GenerateRecipe(request, aiModel, authentication, p) == Generation(Reply(401, MessageBody(NotAuthenticated)), [])
  {
  }

  /** The requests that reach the provider ladder. */
  predicate Admitted(request: GenerateRecipeRequest, authentication: Option<Authentication>) {
    && ValidGenerateRequest(request)
    && authentication.Some? && authentication.value.authenticated
    && authentication.value.principal.UserPrincipal?
  }

  lemma GptSpellings(mode: string)
    ensures EqualsIgnoreCase("gpt", mode) <==>
      |mode| == 3 && EitherCase(mode[0], 'g') && EitherCase(mode[1], 'p') && EitherCase(mode[2], 't')
  {
    IgnoreCaseOfLowerWord("gpt", mode);
  }

  /** Mode "gpt", in any case: GPT alone when it is available, Gemini alone otherwise, and no retry. */
  lemma GptModeCallsOneProvider(request: GenerateRecipeRequest, aiModel: Option<string>,
                                authentication: Option<Authentication>, p: Providers)
    requires Admitted(request, authentication) && EqualsIgnoreCase("gpt", ModeOf(aiModel))
    ensures var g := GenerateRecipe(request, aiModel, authentication, p);
      g.calls == [Call(if p.gptAvailable then Gpt else Gemini, request.ingredients.value)]
      && g.reply == ReplyFor(Run(p, g.calls[0]))
  {
  }

  /**
   * Mode "auto" (the default) with GPT available: a GPT failure is followed by
   * exactly one Gemini call with the same ingredients, whose outcome decides the reply.
   */
  lemma AutoModeFallsBackOnce(request: GenerateRecipeRequest, aiModel: Option<string>,
                              authentication: Option<Authentication>, p: Providers)
    requires Admitted(request, authentication) && EqualsIgnoreCase("auto", ModeOf(aiModel)) && p.gptAvailable
    ensures var g := GenerateRecipe(request, aiModel, authentication, p);
      var ingredients := request.ingredients.value;
      && g.calls[0] == Call(Gpt, ingredients)
      && (p.gptGenerate(ingredients).Ok? ==> g.calls == [Call(Gpt, ingredients)] && g.reply == ReplyFor(p.gptGenerate(ingredients)))
      && (p.gptGenerate(ingredients).Err? ==>
            g.calls == [Call(Gpt, ingredients), Call(Gemini, ingredients)] && g.reply == ReplyFor(p.geminiGenerate(ingredients)))
  {
    assert !EqualsIgnoreCase("gpt", ModeOf(aiModel)) by {
      var m := ModeOf(aiModel);
      assert |m| == 4;
    }
  }

  /** With the parameter absent the mode is "auto". */
  lemma DefaultModeIsAuto(request: GenerateRecipeRequest, authentication: Option<Authentication>, p: Providers)
    requires Admitted(request, authentication) && p.gptAvailable && p.gptGenerate(request.ingredients.value).Err?
    ensures GenerateRecipe(request, None, authentication, p).calls ==
      [Call(Gpt, request.ingredients.value), Call(Gemini, request.ingredients.value)]
  {
    assert EqualsIgnoreCase("auto", ModeOf(None));
    AutoModeFallsBackOnce(request, None, authentication, p);
  }

  /** Auto mode without GPT, or any other mode, calls Gemini alone. */
  lemma OtherModesUseGeminiOnly(request: GenerateRecipeRequest, aiModel: Option<string>,
                                authentication: Option<Authentication>, p: Providers)
    requires Admitted(request, authentication) && !EqualsIgnoreCase("gpt", ModeOf(aiModel))
    requires !EqualsIgnoreCase("auto", ModeOf(aiModel)) || !p.gptAvailable
    ensures var g := GenerateRecipe(request, aiModel, authentication, p);
      g.calls == [Call(Gemini, request.ingredients.value)]
      && g.reply == ReplyFor(p.geminiGenerate(request.ingredients.value))
  {
  }

  /** modifyRecipe: Gemini only; a failure is rethrown wrapped. */
  function ModifyRecipe(request: ModifyRecipeRequest, p: Providers): (r: Result<Reply, JavaException>)
    ensures !ValidModifyRequest(request) ==> r == Ok(Reply(400, ValidationErrors))
    ensures ValidModifyRequest(request) ==>
      var outcome := p.geminiModify(request.originalRecipeJson, request.modificationInstruction);
      && (outcome.Ok? ==> r == Ok(Reply(200, RecipeBody(outcome.value))))
      && (outcome.Err? ==> r == Err(RuntimeException(ModifyFailure, Some(outcome.error))))
  {
    if !ValidModifyRequest(request) then Ok(Reply(400, ValidationErrors))
    else
      match p.geminiModify(request.originalRecipeJson, request.modificationInstruction)
      case Ok(recipe) => Ok(Reply(200, RecipeBody(recipe)))
      case Err(e) => Err(RuntimeException(ModifyFailure, Some(e)))
  }

  /** Whether GPT is available, and what it would return, does not matter to modifyRecipe. */
  lemma ModifyIgnoresGpt(request: ModifyRecipeRequest, p: Providers, q: Providers)
    requires p.geminiModify == q.geminiModify
    ensures ModifyRecipe(request, p) == ModifyRecipe(request, q)
  {
  }

  /** The providers the application wires in: the GptService and GeminiService models. */
  function Wired(gptKey: Option<string>, openAi: GptService.ChatRequest -> RemoteCall,
                 geminiKey: Option<string>, baseUrl: Option<string>,
                 buildUri: (Option<string>, string) -> Result<string, JavaException>,
                 gemini: GeminiService.GeminiRequest -> RemoteCall, mapper: JsonTree.ObjectMapper): Providers
  {
    Providers(
      GptService.IsAvailable(gptKey),
      (ingredients: seq<string>) =>
        var x := GptService.GenerateRecipe(gptKey, ingredients, openAi, mapper);
        if x.outcome.Ok? then Ok(Some(x.outcome.value)) else Err(x.outcome.error),
      (ingredients: seq<string>) =>
        GeminiService.GenerateRecipe(geminiKey, baseUrl, ingredients, buildUri, gemini, mapper).outcome,
      (original: Option<string>, instruction: Option<string>) =>
        GeminiService.ModifyRecipe(geminiKey, baseUrl, original, instruction, buildUri, gemini, mapper).outcome)
  }

  /** The outcome of the ladder is the outcome of its last call. */
  lemma ChooseEndsWithLastCall(mode: string, p: Providers, ingredients: seq<string>)
    ensures var (outcome, calls) := Choose(mode, p, ingredients);
      |calls| > 0 && outcome == Run(p, calls[|calls| - 1]) && calls[|calls| - 1].ingredients == ingredients
  {
  }

  /** Every failure of the providers is a RuntimeException. */
  ghost predicate FailsOnlyAtRuntime(p: Providers) {
    forall c: Call :: Run(p, c).Err? ==> Run(p, c).error.RuntimeException?
  }

  /** Each wired provider fails only with a RuntimeException. */
  lemma WiredFailuresAreRuntime(gptKey: Option<string>, openAi: GptService.ChatRequest -> RemoteCall,
                                geminiKey: Option<string>, baseUrl: Option<string>,
                                buildUri: (Option<string>, string) -> Result<string, JavaException>,
                                gemini: GeminiService.GeminiRequest -> RemoteCall, mapper: JsonTree.ObjectMapper)
    ensures FailsOnlyAtRuntime(Wired(gptKey, openAi, geminiKey, baseUrl, buildUri, gemini, mapper))
  {
    var p := Wired(gptKey, openAi, geminiKey, baseUrl, buildUri, gemini, mapper);
    forall c: Call ensures Run(p, c).Err? ==> Run(p, c).error.RuntimeException? {
      if c.provider == Gpt {
        var x := GptService.GenerateRecipe(gptKey, c.ingredients, openAi, mapper);
      } else {
        var x := GeminiService.GenerateRecipe(geminiKey, baseUrl, c.ingredients, buildUri, gemini, mapper);
      }
    }
  }

  /** A failure other than a client error is reported with the "Erro: " prefix. */
  lemma RuntimeFailureReply(outcome: Outcome)
    requires outcome.Err? ==> outcome.error.RuntimeException?
    ensures ReplyFor(outcome).status == 500 ==> StartsWith(ReplyFor(outcome).body.message, ErrorPrefix)
  {
    var r := ReplyFor(outcome);
    if r.status == 500 {
      assert r.body.message == ErrorPrefix + (if outcome.Ok? then NullRecipe else outcome.error.message);
    }
  }

  /**
   * When the providers fail only with RuntimeExceptions, every failure past
   * authentication is reported with the "Erro: " prefix.
   */
  lemma FailuresUseGenericPrefix(request: GenerateRecipeRequest, aiModel: Option<string>,
                                 authentication: Option<Authentication>, p: Providers)
    requires Admitted(request, authentication) && FailsOnlyAtRuntime(p)
    ensures var g := GenerateRecipe(request, aiModel, authentication, p);
      g.reply.status == 500 ==> StartsWith(g.reply.body.message, ErrorPrefix)
  {
    var (outcome, calls) := Choose(ModeOf(aiModel), p, request.ingredients.value);
    ChooseEndsWithLastCall(ModeOf(aiModel), p, request.ingredients.value);
    assert outcome == Run(p, calls[|calls| - 1]);
    RuntimeFailureReply(outcome);
  }

  /**
   * Both services wrap every failure in a RuntimeException, so the
   * controller's HttpClientErrorException branch is never taken: every
   * failure past authentication is reported with the "Erro: " prefix.
   */
  lemma WiredFailuresUseGenericPrefix(request: GenerateRecipeRequest, aiModel: Option<string>,
                                      authentication: Option<Authentication>,
                                      gptKey: Option<string>, openAi: GptService.ChatRequest -> RemoteCall,
                                      geminiKey: Option<string>, baseUrl: Option<string>,
                                      buildUri: (Option<string>, string) -> Result<string, JavaException>,
                                      gemini: GeminiService.GeminiRequest -> RemoteCall, mapper: JsonTree.ObjectMapper)
    requires Admitted(request, authentication)
    ensures var p := Wired(gptKey, openAi, geminiKey, baseUrl, buildUri, gemini, mapper);
      var g := GenerateRecipe(request, aiModel, authentication, p);
      g.reply.status == 500 ==> StartsWith(g.reply.body.message, ErrorPrefix)
  {
    WiredFailuresAreRuntime(gptKey, openAi, geminiKey, baseUrl, buildUri, gemini, mapper);
    FailuresUseGenericPrefix(request, aiModel, authentication, Wired(gptKey, openAi, geminiKey, baseUrl, buildUri, gemini, mapper));
  }

  /** The entity saveRecipe builds from the request. */
  function RecipeOf(id: Id, request: SaveRecipeRequest): Recipe {
    Recipe(id, request.title, request.prepTime, request.servings, request.difficulty,
           request.ingredients, request.steps, request.tips)
  }

  function SavedMessage(title: Option<string>): string {
    "Receita '" + FormatArg(title) + "' salva com sucesso!"
  }

  /**
   * saveRecipe for the user named by the authenticated username: one new
   * recipe copied from the request and one link from the user to it.
   */
  method SaveRecipe(repos: Repositories, email: string, request: SaveRecipeRequest, savedAt: Instant)
    returns (r: Result<Reply, JavaException>)
    requires repos.Valid()
    modifies repos
    ensures repos.Valid()
    ensures !ValidSaveRequest(request) ==> r == Ok(Reply(400, ValidationErrors)) && unchanged(repos)
    ensures ValidSaveRequest(request) && !EmailInUse(old(repos.users), email) ==>
      r == Err(RuntimeException(UserNotFound, None)) && unchanged(repos)
    ensures ValidSaveRequest(request) && EmailInUse(old(repos.users), email) ==>
      var recipeId := old(repos.nextRecipeId);
      var linkId := old(repos.nextLinkId);
      && r == Ok(Reply(200, MessageBody(SavedMessage(request.title))))
      && recipeId !in old(repos.recipes) && linkId !in old(repos.links)
      && repos.recipes == old(repos.recipes)[recipeId := RecipeOf(recipeId, request)]
      && repos.links == old(repos.links)[linkId := SavedRecipe(linkId, UserIdOf(old(repos.users), email), recipeId, savedAt)]
      && repos.users == old(repos.users)
  {
    if !ValidSaveRequest(request) {
      return Ok(Reply(400, ValidationErrors));
    }
    var user := repos.FindByEmail(email);
    if user.None? {
      return Err(RuntimeException(UserNotFound, None));
    }
    assert user.value.id == UserIdOf(old(repos.users), email);
    var newRecipe := RecipeOf(0, request);
    var savedRecipe := repos.InsertRecipe(newRecipe);
    var savedLink := repos.InsertLink(user.value.id, savedRecipe.id, savedAt);
    r := Ok(Reply(200, MessageBody(SavedMessage(savedRecipe.title))));
  }
}
