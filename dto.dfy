/**
 * The request and response shapes the core reads: the recipe payload the AI
 * providers return, and the validity constraints that Bean Validation checks
 * on the generate, save and modify request bodies before a handler runs.
 */
module Dto {
  import opened Wrappers
  import opened JavaText

  /**
   * NutritionFacts. Its fields are floating-point numbers; the model keeps
   * them as reals and treats the no-argument instance as its own value.
   */
  datatype Nutrition =
    | EmptyNutrition
    | NutritionFacts(calories: real, proteinGrams: real, fatGrams: real, carbsGrams: real)

  /** RecipeResponse: every field is a nullable Java reference. */
  datatype RecipeResponse = RecipeResponse(
    title: Option<string>,
    prepTime: Option<string>,
    servings: Option<int>,
    difficulty: Option<string>,
    ingredients: Option<seq<string>>,
    steps: Option<seq<string>>,
    tips: Option<seq<string>>,
    nutrition: Option<Nutrition>)

  /** @NotBlank: not null and not empty after trimming. */
  predicate NotBlank(s: Option<string>) {
    s.Some? && !IsBlank(s.value)
  }

  /** @NotEmpty on a list: not null and at least one element. */
  predicate NotEmptyList<T>(xs: Option<seq<T>>) {
    xs.Some? && |xs.value| > 0
  }

  datatype GenerateRecipeRequest = GenerateRecipeRequest(ingredients: Option<seq<string>>)

  /** @NotEmpty and @Size(min = 3) on the ingredient list. */
  predicate ValidGenerateRequest(r: GenerateRecipeRequest) {
    NotEmptyList(r.ingredients) && |r.ingredients.value| >= 3
  }

  /** A list passes exactly when it is present with at least three ingredients. */
  lemma GenerateRequestNeedsThree(r: GenerateRecipeRequest)
    ensures ValidGenerateRequest(r) <==> r.ingredients.Some? && |r.ingredients.value| >= 3
  {
  }

  datatype SaveRecipeRequest = SaveRecipeRequest(
    title: Option<string>,
    prepTime: Option<string>,
    servings: Option<int>,
    difficulty: Option<string>,
    ingredients: Option<seq<string>>,
    steps: Option<seq<string>>,
    tips: Option<seq<string>>)

  /** The field constraints of SaveRecipeRequest; tips carries none. */
  predicate ValidSaveRequest(r: SaveRecipeRequest) {
    && NotBlank(r.title)
    && NotBlank(r.prepTime)
    && r.servings.Some?
    && NotBlank(r.difficulty)
    && NotEmptyList(r.ingredients)
    && NotEmptyList(r.steps)
  }

  /** Whether a save request is accepted does not depend on its tips. */
  lemma SaveRequestTipsFree(r: SaveRecipeRequest, tips: Option<seq<string>>)
    ensures ValidSaveRequest(r) <==> ValidSaveRequest(r.(tips := tips))
  {
  }

  /** A title, preparation time or difficulty made only of spaces and control chars is refused. */
  lemma SaveRequestRefusesBlankText(r: SaveRecipeRequest)
    requires || (r.title.Some? && forall i :: 0 <= i < |r.title.value| ==> IsTrimmable(r.title.value[i]))
             || (r.prepTime.Some? && forall i :: 0 <= i < |r.prepTime.value| ==> IsTrimmable(r.prepTime.value[i]))
             || (r.difficulty.Some? && forall i :: 0 <= i < |r.difficulty.value| ==> IsTrimmable(r.difficulty.value[i]))
    ensures !ValidSaveRequest(r)
  {
    if r.title.Some? {
      BlankIff(r.title.value);
    }
    if r.prepTime.Some? {
      BlankIff(r.prepTime.value);
    }
    if r.difficulty.Some? {
      BlankIff(r.difficulty.value);
    }
  }

  datatype ModifyRecipeRequest = ModifyRecipeRequest(originalRecipeJson: Option<string>, modificationInstruction: Option<string>)

  /** Only the instruction is constrained (@NotBlank); the original JSON may be null. */
  predicate ValidModifyRequest(r: ModifyRecipeRequest) {
    NotBlank(r.modificationInstruction)
  }

  datatype UpdateProfileRequest = UpdateProfileRequest(name: Option<string>, email: Option<string>)

  /**
   * @NotBlank on name and email, and @Email on the email. The address
   * syntax @Email accepts is the validation library's; it is given as
   * `isEmail`.
   */
  predicate ValidUpdateProfileRequest(r: UpdateProfileRequest, isEmail: string -> bool) {
    NotBlank(r.name) && NotBlank(r.email) && isEmail(r.email.value)
  }

  datatype UserProfileResponse = UserProfileResponse(id: nat, name: string, email: string)

  /** One saved recipe as listed to its owner. */
  datatype SavedRecipeItem = SavedRecipeItem(id: nat, recipeId: nat, title: Option<string>, difficulty: Option<string>, savedAt: int)

  /**
   * A response body: a recipe (None for a null body), a MessageResponse, a
   * profile, a list of saved recipes, or Spring's report of a request that
   * failed Bean Validation.
   */
  datatype Body =
    | RecipeBody(recipe: Option<RecipeResponse>)
    | MessageBody(message: string)
    | ProfileBody(profile: UserProfileResponse)
    | ItemsBody(items: seq<SavedRecipeItem>)
    | ValidationErrors

  datatype Reply = Reply(status: int, body: Body)
}

