/**
 * The variant of GptService that also asks the image endpoint for a picture of
 * each recipe it generates or modifies. Its chat completion path is the one in
 * the GptService module, so that module's ExecuteGptRequest is reused; what is
 * new is the image request, which never throws: every failure yields no image.
 */
module GptImageService {
  import opened Wrappers
  import opened JavaText
  import opened Dto
  import opened JsonTree
  import opened Remote
  import GptService

  const DataUriPrefix := "data:image/png;base64,"

  /** A request to the chat or the image endpoint: the bearer token and the prompt. */
  type ChatRequest = GptService.ChatRequest

  /** Where an image answer carries the picture: `data[0].b64_json`. */
  const ImagePointer: seq<Step> := [Field("data"), Index(0), Field("b64_json")]

  /** `data[0].b64_json` as text, when the data array is there and the text is not empty. */
  function ImageData(root: Json): (r: Option<string>)
    ensures r.Some? ==> r.value != [] && IsNonEmptyArray(Path(root, "data"))
    ensures !IsNonEmptyArray(Path(root, "data")) ==> r.None?
    ensures IsNonEmptyArray(Path(root, "data")) ==>
      var b64 := AsText(At(root, ImagePointer));
      r == if b64 == [] then None else Some(b64)
  {
    var data := Path(root, "data");
    if !IsNonEmptyArray(data) then None
    else
      var b64 := AsText(Path(data.items[0], "b64_json"));
      if b64 == [] then None else Some(b64)
  }

  /**
   * Whatever else the answer carries (created, revised_prompt), a text at
   * the image pointer is the image, unless it is empty.
   */
  lemma ImageDataOfText(root: Json, b64: string)
    requires At(root, ImagePointer) == Text(b64)
    ensures ImageData(root) == if b64 == [] then None else Some(b64)
  {
    AtFirstStep(root, ImagePointer);
    assert ImagePointer[1..] == [Index(0), Field("b64_json")];
    AtFirstStep(Path(root, "data"), ImagePointer[1..]);
  }

  /** The outcome of the image request: a data URI or nothing, and the requests made. */
  datatype ImageAttempt = ImageAttempt(image: Option<string>, requests: seq<ChatRequest>)

  /** The image request for a title, sent with the trimmed key. */
  function ImageRequest(apiKey: string, recipeTitle: Option<string>): ChatRequest {
    GptService.ChatRequest(Trim(apiKey), ImagePrompt(FormatArg(recipeTitle)))
  }

  /**
   * generateImage: every exception is swallowed and yields no image, and so
   * does a null or blank body, a body that is not JSON, and an answer
   * without a data array or with an empty b64_json.
   */
  function GenerateImage(apiKey: Option<string>, recipeTitle: Option<string>,
                         images: ChatRequest -> RemoteCall, mapper: ObjectMapper): (x: ImageAttempt)
    ensures !GptService.IsAvailable(apiKey) ==> x == ImageAttempt(None, [])
    ensures GptService.IsAvailable(apiKey) ==> x.requests == [ImageRequest(apiKey.value, recipeTitle)]
    ensures x.image.Some? <==>
      && GptService.IsAvailable(apiKey)
      && var call := images(ImageRequest(apiKey.value, recipeTitle));
      && call.Responded? && call.body.Some? && !IsBlank(call.body.value)
      && mapper.readTree(call.body.value).Ok?
      && ImageData(mapper.readTree(call.body.value).value).Some?
    ensures x.image.Some? ==>
      var root := mapper.readTree(images(ImageRequest(apiKey.value, recipeTitle)).body.value).value;
      x.image.value == DataUriPrefix + ImageData(root).value
    ensures x.image.Some? ==>
      StartsWith(x.image.value, DataUriPrefix) && |x.image.value| > |DataUriPrefix|
  {
    if !GptService.IsAvailable(apiKey) then ImageAttempt(None, [])
    else
      var request := ImageRequest(apiKey.value, recipeTitle);
      var image :=
        match images(request)
        case Raised(_) => None
        case Responded(body) =>
          if body.None? || IsBlank(body.value) then None
          else
            match mapper.readTree(body.value)
            case Err(_) => None
            case Ok(root) =>
              match ImageData(root)
              case None => None
              case Some(b64) => Some(DataUriPrefix + b64);
      ImageAttempt(image, [request])
  }

  /** An answer carrying a non-empty image, whatever else it holds, yields exactly the data URI of that image. */
  lemma GenerateImageReturnsDataUri(apiKey: Option<string>, recipeTitle: Option<string>,
                                    images: ChatRequest -> RemoteCall, mapper: ObjectMapper,
                                    body: string, root: Json, b64: string)
    requires GptService.IsAvailable(apiKey)
    requires images(ImageRequest(apiKey.value, recipeTitle)) == Responded(Some(body))
    requires !IsBlank(body) && mapper.readTree(body) == Ok(root)
    requires At(root, ImagePointer) == Text(b64) && b64 != []
    ensures GenerateImage(apiKey, recipeTitle, images, mapper).image == Some(DataUriPrefix + b64)
  {
    ImageDataOfText(root, b64);
  }

  /** A failed image request, of whatever kind, yields no image. */
  lemma GenerateImageSwallowsExceptions(apiKey: Option<string>, recipeTitle: Option<string>,
                                        images: ChatRequest -> RemoteCall, mapper: ObjectMapper)
    requires GptService.IsAvailable(apiKey)
    requires images(ImageRequest(apiKey.value, recipeTitle)).Raised?
    ensures GenerateImage(apiKey, recipeTitle, images, mapper).image.None?
  {
  }

  /** generateImageForRecipe: the public entry point, the same request. */
  function GenerateImageForRecipe(apiKey: Option<string>, recipeTitle: Option<string>,
                                  images: ChatRequest -> RemoteCall, mapper: ObjectMapper): (r: Option<string>)
    ensures r.Some? ==> StartsWith(r.value, DataUriPrefix)
  {
    GenerateImage(apiKey, recipeTitle, images, mapper).image
  }

  /** A recipe together with the image field this variant sets on it. */
  datatype ImageRecipe = ImageRecipe(recipe: RecipeResponse, image: Option<string>)

  /**
   * A recipe request followed by an image request for its title. The image is
   * only asked for once the recipe is there, and its failure never fails the call.
   */
  function WithImage(apiKey: Option<string>, text: Exchange<ChatRequest, RecipeResponse>,
                     images: ChatRequest -> RemoteCall, mapper: ObjectMapper): (x: Exchange<ChatRequest, ImageRecipe>)
    ensures x.outcome.Err? <==> text.outcome.Err?
    ensures text.outcome.Err? ==> x == Exchange(Err(text.outcome.error), text.requests)
    ensures text.outcome.Ok? ==>
      && x.outcome.value.recipe == text.outcome.value
      && x.outcome.value.image == GenerateImageForRecipe(apiKey, text.outcome.value.title, images, mapper)
      && x.requests == text.requests + GenerateImage(apiKey, text.outcome.value.title, images, mapper).requests
  {
    match text.outcome
    case Err(e) => Exchange(Err(e), text.requests)
    case Ok(recipe) =>
      var attempt := GenerateImage(apiKey, recipe.title, images, mapper);
      Exchange(Ok(ImageRecipe(recipe, attempt.image)), text.requests + attempt.requests)
  }

  /** generateRecipe, with the image of the generated recipe. */
  function GenerateRecipe(apiKey: Option<string>, ingredients: seq<string>, openAi: ChatRequest -> RemoteCall,
                          images: ChatRequest -> RemoteCall, mapper: ObjectMapper): (x: Exchange<ChatRequest, ImageRecipe>)
    ensures x.outcome.Ok? ==> x.outcome.value.recipe.nutrition.Some?
    ensures x.outcome.Ok? ==> |x.requests| == 2 && x.requests[1].prompt == ImagePrompt(FormatArg(x.outcome.value.recipe.title))
    ensures x.outcome.Err? ==> |x.requests| <= 1
  {
    WithImage(apiKey, GptService.GenerateRecipe(apiKey, ingredients, openAi, mapper), images, mapper)
  }

  /** The text part of the variant is exactly the plain service's generation. */
  lemma GenerateRecipeExtendsPlain(apiKey: Option<string>, ingredients: seq<string>, openAi: ChatRequest -> RemoteCall,
                                   images: ChatRequest -> RemoteCall, mapper: ObjectMapper)
    ensures var plain := GptService.GenerateRecipe(apiKey, ingredients, openAi, mapper);
      var x := GenerateRecipe(apiKey, ingredients, openAi, images, mapper);
      && (x.outcome.Ok? <==> plain.outcome.Ok?)
      && (x.outcome.Ok? ==> x.outcome.value.recipe == plain.outcome.value)
      && (x.outcome.Err? ==> x.outcome.error == plain.outcome.error)
      && x.requests[..|plain.requests|] == plain.requests
  {
  }

  /** modifyRecipe, with the image of the modified recipe. */
  function ModifyRecipe(apiKey: Option<string>, originalRecipeJson: Option<string>, instruction: Option<string>,
                        openAi: ChatRequest -> RemoteCall, images: ChatRequest -> RemoteCall,
                        mapper: ObjectMapper): (x: Exchange<ChatRequest, ImageRecipe>)
    ensures x.outcome.Ok? ==> |x.requests| == 2 && x.requests[1].prompt == ImagePrompt(FormatArg(x.outcome.value.recipe.title))
    ensures |x.requests| >= 1 ==>
      x.requests[0].prompt == ModificationPrompt(FormatArg(instruction), FormatArg(originalRecipeJson))
  {
    WithImage(apiKey, GptService.ModifyRecipe(apiKey, originalRecipeJson, instruction, openAi, mapper), images, mapper)
  }
}
