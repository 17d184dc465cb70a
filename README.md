# BiteWise recipe API: a verified model of its core

BiteWise is a Spring backend for a recipe application. Users register and log in with a bearer
token, ask an AI provider (OpenAI's chat completions or Google's Gemini) to generate or modify a
recipe from a list of ingredients, and save recipes to their account. This project models the
parts of it that carry decisions and proves properties about them:

- **The JWT filter** (`JwtAuthFilter`) is an imperative method over a `SecurityContext` object
  and a `FilterChain` object:
  - public routes skip token handling;
  - the token is read from the `Authorization` header after the `Bearer ` prefix;
  - a user is attached to the context only under stated conditions;
  - the chain continues exactly once on every path.
- **Provider choice and fallback** (`RecipeController.GenerateRecipe`) decides, over the
  `aiModel` parameter, GPT's availability and the two providers' outcomes (given as inputs):
  - which providers are called, in what order and with which ingredients;
  - the HTTP reply.
- **The provider adapters** (`GptService`, `GeminiService`, and `GptImageService` for the
  variant of GptService that also generates images) are pure functions. They take the remote
  exchange (a function from the request to what RestTemplate does) and the JSON library
  (`ObjectMapper`) as parameters. They cover:
  - the envelope walks;
  - key cleaning, URI masking and code-fence stripping;
  - nutrition defaulting;
  - the best-effort image request;
  - the exact catch-and-rethrow mapping of failures.
- **The store** is a `Repositories` class whose user, recipe and saved-recipe tables are maps
  from id to row, with IDENTITY-style id counters. Its invariant `Valid()` covers unique emails
  and links that resolve to an existing user and recipe. The handlers that change it are methods:
  - `AuthService.RegisterUser`;
  - `RecipeController.SaveRecipe`;
  - `UserController.UpdateProfile` and `UserController.DeleteSavedRecipe`.
- **The Bean Validation constraints** on the request bodies are predicates.

Java's string operations are modelled in `JavaText`:

- `trim` drops chars up to `' '`;
- `replace` works left to right without overlaps;
- the regex replacements used for the Gemini key and for masking;
- `String.join`;
- ASCII `equalsIgnoreCase`.

Java exceptions are values (`Remote.JavaException`). A method that throws returns `Err(e)`.

Where the specification and the code disagree, the model follows the code:

- Image generation is not a step of the controller. Only the root `GptService.java` variant asks
  for an image, inside its own `generateRecipe`/`modifyRecipe`. The Gemini path never produces
  one.
- Missing rows and ownership mismatches are not distinct not-found or forbidden errors. They are
  plain `RuntimeException`s with Portuguese messages.
- A missing GPT key in mode `gpt` does not fail the request. It falls back to Gemini.
- Both services wrap every failure of a request in a `RuntimeException`. So the controller's
  `HttpClientErrorException` branch (`RecipeController.java:103-105`) is unreachable, which
  `RecipeController.WiredFailuresUseGenericPrefix` proves.
- `AuthController` calls `authService.register`, which `AuthService` does not declare. The
  model follows `registerUser` as written.

## Model

| member | source | states |
|---|---|---|
| Dto.GenerateRequestNeedsThree | src/main/java/br/com/bitewise/api/dto/GenerateRecipeRequest.java:12-14 | an ingredient list passes validation exactly when it is present with at least three entries |
| Dto.SaveRequestTipsFree | src/main/java/br/com/bitewise/api/dto/SaveRecipeRequest.java:30 | whether a save request is valid never depends on its tips |
| Dto.SaveRequestRefusesBlankText | src/main/java/br/com/bitewise/api/dto/SaveRecipeRequest.java:12-22 | a title, preparation time or difficulty made only of spaces and control chars is refused |
| JavaText.Trim | src/main/java/br/com/bitewise/api/service/GptService.java:52 | String.trim: leading chars up to U+0020 are cut, then trailing ones (a definition; its properties are the contracts of TrimIsTrimmedSlice, BlankIff and TrimIdempotent) |
| JavaText.TrimIsTrimmedSlice | src/main/java/br/com/bitewise/api/service/GptService.java:84 | trim keeps a slice of its input and removes only chars up to ' ' at the two ends |
| JavaText.BlankIff | src/main/java/br/com/bitewise/api/service/GptService.java:52 | a string is blank after trim exactly when every char of it is trimmable |
| JavaText.TrimIdempotent | src/main/java/br/com/bitewise/api/service/GeminiService.java:65 | trimming twice is trimming once |
| JavaText.RemoveAll | src/main/java/br/com/bitewise/api/service/GeminiService.java:163 | String.replace(target, ""): occurrences found left to right, not overlapping, each deleted (a definition; its properties are the contracts of RemoveAllChars, RemoveAllAbsent and RemoveFencesLeavesNone) |
| JavaText.RemoveAllChars | src/main/java/br/com/bitewise/api/service/GeminiService.java:163 | literal removal only deletes: every char of the result comes from the input |
| JavaText.RemoveAllAbsent | src/main/java/br/com/bitewise/api/service/GeminiService.java:163 | removing a pattern whose first char never occurs leaves the string unchanged |
| JavaText.RemoveFencesLeavesNone | src/main/java/br/com/bitewise/api/service/GeminiService.java:163 | after removing every "```", left to right, no three consecutive backquotes remain |
| JavaText.RemoveKeyNoise | src/main/java/br/com/bitewise/api/service/GeminiService.java:65 | the result holds no bracket, parenthesis or regex-whitespace char, only chars of the input, and a clean input is unchanged |
| JavaText.MaskKeys | src/main/java/br/com/bitewise/api/service/GeminiService.java:123 | replaceAll("key=[^&]+", "key=***"): each "key=" followed by at least one char other than '&' has that run replaced, scanning left to right (a definition; its properties are the contracts of MaskKeysHidesValues, MaskKeysReplacesValue, MaskKeysCopiesPlain and MaskKeysNoKey) |
| JavaText.MaskKeysHidesValues | src/main/java/br/com/bitewise/api/service/GeminiService.java:123 | in the masked text every "key=" is followed by "***" and then the end or '&', or by nothing secret |
| JavaText.MaskKeysNoKey | src/main/java/br/com/bitewise/api/service/GeminiService.java:123 | a text with no "key=" is left as it is |
| JavaText.MaskKeysReplacesValue | src/main/java/br/com/bitewise/api/service/GeminiService.java:123 | "key=" with a value up to the next '&' or the end becomes "key=***", and the text after it is masked on its own |
| JavaText.MaskKeysCopiesPlain | src/main/java/br/com/bitewise/api/service/GeminiService.java:123 | text in which no "key=" starts is copied unchanged in front of the masked rest |
| JavaText.Join | src/main/java/br/com/bitewise/api/service/GptService.java:129 | String.join: the parts with the separator between each pair and none at the ends (a definition; its properties are the contracts of JoinContainsEach and JoinLength) |
| JavaText.JoinContainsEach | src/main/java/br/com/bitewise/api/service/GptService.java:129 | every part occurs in String.join of the parts |
| JavaText.JoinLength | src/main/java/br/com/bitewise/api/service/GptService.java:129 | the join is as long as the parts plus one separator between each pair |
| JavaText.EqualsIgnoreCase | src/main/java/br/com/bitewise/api/controller/RecipeController.java:72 | equalsIgnoreCase limited to ASCII case: same length and the same char at each place once lower-cased (a definition; IgnoreCaseOfLowerWord states what it accepts) |
| JavaText.IgnoreCaseOfLowerWord | src/main/java/br/com/bitewise/api/controller/RecipeController.java:72 | a lower-case ASCII word without s, k or i (so with no non-ASCII case partner, as "gpt") equals, ignoring case, exactly the strings spelling it in any mix of cases |
| JavaText.DecimalString | src/main/java/br/com/bitewise/api/controller/UserController.java:107 | a Long prints as decimal digits without leading zeros |
| JavaText.DecimalRoundTrip | src/main/java/br/com/bitewise/api/controller/UserController.java:107 | reading the printed digits back gives the number |
| JavaText.LongString | src/main/java/br/com/bitewise/api/controller/UserController.java:107 | `"" + id` for a Long id (a definition; LongStringRoundTrip states what it prints) |
| JavaText.LongStringRoundTrip | src/main/java/br/com/bitewise/api/controller/UserController.java:107 | the printed id starts with '-' exactly when it is negative, the rest is decimal digits, and reading those digits back gives the id's absolute value |
| GptService.IsAvailable | src/main/java/br/com/bitewise/api/service/GptService.java:51-53 | isAvailable: a key is configured and is not blank (a definition; AvailableIffVisibleChar states it char by char) |
| GptService.AvailableIffVisibleChar | src/main/java/br/com/bitewise/api/service/GptService.java:51-53 | the service is available exactly when a key is configured and has a char above ' ' |
| GptService.ChatContent | src/main/java/br/com/bitewise/api/service/GptService.java:90-103 | the structure failure happens exactly when choices is not a non-empty array; otherwise the result is the text at choices[0].message.content, or the empty-content failure when that text is blank |
| GptService.ChatContentOfText | src/main/java/br/com/bitewise/api/service/GptService.java:90-103 | for any completion, whatever other fields it carries, a text at choices[0].message.content is what is read, or the empty-content failure when it is blank |
| GptService.ChoiceWithoutMessage | src/main/java/br/com/bitewise/api/service/GptService.java:98-103 | a first choice that is not an object reads as "" and fails as empty content, not as a bad structure |
| GptService.WithNutrition | src/main/java/br/com/bitewise/api/service/GptService.java:110-112 | the nutrition is always set afterwards: kept when present, an empty NutritionFacts when absent, and no other field changes |
| Remote.Rethrow | src/main/java/br/com/bitewise/api/service/GptService.java:116-125 | client errors are rethrown with the service's prefix, status and body, JSON errors as the processing failure, the rest as the generic failure, always with the original as cause; GeminiService's catch clauses are the same, with its own prefix |
| GptService.ReadCompletion | src/main/java/br/com/bitewise/api/service/GptService.java:80-114 | a recipe read out of a completion always carries nutrition facts |
| GptService.ReadCompletionOfText | src/main/java/br/com/bitewise/api/service/GptService.java:84-114 | a non-blank body whose tree holds the recipe text at the content pointer is read as the parsed recipe with its nutrition defaulted |
| GptService.ExecuteGptRequest | src/main/java/br/com/bitewise/api/service/GptService.java:55-126 | without a usable key it fails before any request; otherwise it sends exactly one request carrying the trimmed key; a recipe always has nutrition; every failure is a RuntimeException |
| GptService.ExecuteReturnsParsedRecipe | src/main/java/br/com/bitewise/api/service/GptService.java:80-114 | any completion, whatever else it carries, whose content is non-blank text that parses to a recipe yields that recipe with its nutrition defaulted |
| GptService.ExecuteWrapsEnvelopeFailures | src/main/java/br/com/bitewise/api/service/GptService.java:90-103 | each envelope failure surfaces as the generic failure, with the specific message kept in the cause |
| GptService.ExecuteRejectsBlankBody | src/main/java/br/com/bitewise/api/service/GptService.java:84-87 | a null or blank body surfaces as the generic failure caused by the empty-response failure |
| GptService.ExecuteRethrowsRaised | src/main/java/br/com/bitewise/api/service/GptService.java:116-125 | with a usable key, an exception raised by the client surfaces as Rethrow of it under the OpenAI prefix; a 4xx answer as that prefix, its status code, " - " and its body, with the exception as the cause |
| GptService.ExecuteReportsUnreadableBody | src/main/java/br/com/bitewise/api/service/GptService.java:90-121 | a non-blank body that readTree rejects surfaces as the processing failure caused by that JsonProcessingException |
| GptService.ExecuteReportsUnreadableContent | src/main/java/br/com/bitewise/api/service/GptService.java:107-121 | non-blank content that readValue cannot map to a recipe surfaces as the processing failure caused by that JsonProcessingException |
| GptService.GenerateRecipe | src/main/java/br/com/bitewise/api/service/GptService.java:128-141 | at most one request is made, and its prompt is built from the ingredients joined by ", " |
| GptService.GenerationPromptNamesEachIngredient | src/main/java/br/com/bitewise/api/service/GptService.java:129-140 | with a usable key, every ingredient occurs in the prompt of the single request |
| GptService.ModifyRecipe | src/main/java/br/com/bitewise/api/service/GptService.java:143-157 | the prompt embeds the instruction and the original JSON as given ("null" when absent), and one request is made exactly when the key is usable |
| GptImageService.ImageData | GptService.java:256-268 | no image without a non-empty data array; otherwise the image is the text at data[0].b64_json, or none when that text is empty |
| GptImageService.ImageDataOfText | GptService.java:256-268 | for any answer, whatever other fields it carries, a text at data[0].b64_json is the image unless it is empty |
| GptImageService.GenerateImage | GptService.java:207-283 | it never fails: without a usable key it makes no request and returns nothing; otherwise exactly one image request for the title; an image comes back exactly when the call answers with a non-blank body that parses and holds image data, and it is the data-URI prefix followed by that data |
| GptImageService.GenerateImageReturnsDataUri | GptService.java:250-271 | any answer, whatever else it carries, with non-empty text at data[0].b64_json yields exactly "data:image/png;base64," followed by that text |
| GptImageService.GenerateImageSwallowsExceptions | GptService.java:273-282 | an image request that throws yields no image |
| GptImageService.GenerateImageForRecipe | GptService.java:288-291 | the public entry point never throws, and any image it returns is a data URI |
| GptImageService.WithImage | GptService.java:155-169 | a text failure propagates unchanged and no image is requested; otherwise the recipe is kept and the image for its title is attached, or none when that request fails |
| GptImageService.GenerateRecipe | GptService.java:141-170 | a returned recipe has nutrition, and its second and last request is the image request for its title; a failure makes at most the one chat request |
| GptImageService.GenerateRecipeExtendsPlain | GptService.java:68-139 | the variant's text path gives exactly the plain service's outcome, and its requests begin with the plain service's requests |
| GptImageService.ModifyRecipe | GptService.java:172-202 | the first request carries the modification prompt, and a returned recipe is followed by the image request for its title |
| GeminiService.Init | src/main/java/br/com/bitewise/api/service/GeminiService.java:48-62 | start-up succeeds exactly when the base URL and the key are both non-blank; the base URL is checked first |
| GeminiService.CleanKey | src/main/java/br/com/bitewise/api/service/GeminiService.java:65 | the key sent: "" for a null key, otherwise the key with brackets, parentheses and whitespace removed, then trimmed (a definition; its properties are the contracts of CleanKeyIsClean, CleanKeyIdempotent and CleanKeyKeepsPlainKey) |
| GeminiService.CleanKeyIsClean | src/main/java/br/com/bitewise/api/service/GeminiService.java:65 | the cleaned key has no bracket, parenthesis or whitespace, only chars of the configured key, and nothing left to trim |
| GeminiService.CleanKeyIdempotent | src/main/java/br/com/bitewise/api/service/GeminiService.java:65 | cleaning a cleaned key changes nothing |
| GeminiService.CleanKeyKeepsPlainKey | src/main/java/br/com/bitewise/api/service/GeminiService.java:65 | a key without noise or surrounding control chars is sent as it is |
| GeminiService.LoggedUri | src/main/java/br/com/bitewise/api/service/GeminiService.java:123 | the logged URI exposes no key value |
| GeminiService.LoggedUriKeepsAllButKey | src/main/java/br/com/bitewise/api/service/GeminiService.java:123 | what comes before the key parameter is logged as it is, its value becomes "***", and the rest is logged as it would be on its own |
| GeminiService.LoggedUriWithoutKey | src/main/java/br/com/bitewise/api/service/GeminiService.java:123 | a URI without a key parameter is logged unchanged |
| GeminiService.CandidateText | src/main/java/br/com/bitewise/api/service/GeminiService.java:136-161 | missing candidates give the blocked failure exactly when blockReason is textual, and the unexpected-answer failure otherwise; the structure failure happens exactly when the first candidate has no parts; otherwise the result is the text at candidates[0].content.parts[0].text, or the empty-content failure when it is blank |
| GeminiService.CandidateTextOfText | src/main/java/br/com/bitewise/api/service/GeminiService.java:136-161 | for any answer, whatever other fields it carries, a text at candidates[0].content.parts[0].text is what is read, or the empty-content failure when it is blank |
| GeminiService.BlockedAnswer | src/main/java/br/com/bitewise/api/service/GeminiService.java:138-144 | an answer with only a prompt feedback and a textual block reason is read as a blocked prompt |
| GeminiService.StripFences | src/main/java/br/com/bitewise/api/service/GeminiService.java:163 | the text passed to the parser has no code fence left and nothing left to trim |
| GeminiService.StripFencesOfPlain | src/main/java/br/com/bitewise/api/service/GeminiService.java:163 | text without backquotes is only trimmed |
| GeminiService.StripFencesOfFenced | src/main/java/br/com/bitewise/api/service/GeminiService.java:163 | a body fenced as a "```json" code block comes out as its inner text, trimmed |
| GeminiService.ExecuteGeminiRequest | src/main/java/br/com/bitewise/api/service/GeminiService.java:64-178 | a URI that cannot be built fails before any request, with what the builder threw as the cause; otherwise exactly one request goes to the URI built from the base URL and the cleaned key; every failure is a RuntimeException |
| GeminiService.ReadAnswer | src/main/java/br/com/bitewise/api/service/GeminiService.java:126-166 | an answer is read only out of a non-blank body, and a failure not raised by the client is a RuntimeException or a JsonProcessingException |
| GeminiService.ReadAnswerOfText | src/main/java/br/com/bitewise/api/service/GeminiService.java:131-166 | a non-blank body whose tree holds non-blank text at the text pointer is read as what the parser makes of that text unfenced |
| GeminiService.ExecuteParsesUnfencedText | src/main/java/br/com/bitewise/api/service/GeminiService.java:126-166 | any answer, whatever else it carries, with non-blank text at candidates[0].content.parts[0].text yields what the parser makes of that text unfenced and trimmed |
| GeminiService.ExecuteReportsBlockedPrompt | src/main/java/br/com/bitewise/api/service/GeminiService.java:138-144 | any answer without candidates whose promptFeedback.blockReason is textual surfaces as the generic failure, with the blocked message in the cause |
| GeminiService.ExecuteRethrowsRaised | src/main/java/br/com/bitewise/api/service/GeminiService.java:168-177 | once the URI is built, an exception raised by the client surfaces as Rethrow of it under the Gemini prefix; a 4xx answer as that prefix, its status code, " - " and its body, with the exception as the cause |
| GeminiService.ExecuteReportsUnreadableBody | src/main/java/br/com/bitewise/api/service/GeminiService.java:136-173 | a non-blank body that readTree rejects surfaces as the processing failure caused by that JsonProcessingException |
| GeminiService.ExecuteReportsUnreadableText | src/main/java/br/com/bitewise/api/service/GeminiService.java:163-173 | non-blank unfenced text that readValue cannot map to a recipe surfaces as the processing failure caused by that JsonProcessingException |
| GeminiService.GenerateRecipe | src/main/java/br/com/bitewise/api/service/GeminiService.java:181-189 | at most one request is made, and its prompt is built from the ingredients joined by ", " |
| GeminiService.OriginalIngredients | src/main/java/br/com/bitewise/api/service/GeminiService.java:193-202 | a null original throws; an unreadable one gives the fixed note; a readable one gives the fixed note exactly when its ingredients field is not an array, and otherwise starts with the ingredient-list prefix |
| GeminiService.OriginalIngredientsOfArray | src/main/java/br/com/bitewise/api/service/GeminiService.java:195-199 | an original whose ingredients field is an array, whatever else it holds, is summarised by that array's JSON text |
| GeminiService.ModifyRecipe | src/main/java/br/com/bitewise/api/service/GeminiService.java:191-212 | a null original makes no request and throws the IllegalArgumentException; otherwise it is the request for the modification prompt on the extracted basis |
| GeminiService.ModifyWithUnreadableOriginal | src/main/java/br/com/bitewise/api/service/GeminiService.java:193-211 | an unparsable original still leads to one request, with the fixed note as its basis |
| JwtAuthFilter.IsPublicRoute | src/main/java/br/com/bitewise/api/filter/JwtAuthFilter.java:41 | a public route: the URI contains "/health" or starts with "/api/auth/" (a definition; PublicRoutes and PublicRouteUntouched state its effect) |
| JwtAuthFilter.Attached | src/main/java/br/com/bitewise/api/filter/JwtAuthFilter.java:47-77 | the authentication the try block sets, if any: on a protected route, a Bearer token whose username resolves, with no authentication present, and a token valid for the user (a definition; AuthenticationSetIff states it) |
| JwtAuthFilter.AuthenticationAfter | src/main/java/br/com/bitewise/api/filter/JwtAuthFilter.java:41-81 | the context after the filter: what the try block set, else what was there (a definition; DoFilterInternal ends in it) |
| JwtAuthFilter.BearerToken | src/main/java/br/com/bitewise/api/filter/JwtAuthFilter.java:52-53 | a token exists exactly when the header starts with "Bearer ", and the header is that prefix followed by the token |
| JwtAuthFilter.BearerTokenRoundTrip | src/main/java/br/com/bitewise/api/filter/JwtAuthFilter.java:52-53 | prefixing a token with "Bearer " and reading it back gives the token |
| JwtAuthFilter.LowerCaseSchemeIsNoToken | src/main/java/br/com/bitewise/api/filter/JwtAuthFilter.java:52 | the prefix is case-sensitive: "bearer " yields no token |
| JwtAuthFilter.FilterChain.DoFilter | src/main/java/br/com/bitewise/api/filter/JwtAuthFilter.java:81 | the chain receives the request once more, and nothing it received before is lost |
| JwtAuthFilter.DoFilterInternal | src/main/java/br/com/bitewise/api/filter/JwtAuthFilter.java:34-82 | the request is passed down the chain exactly once on every path, and the context ends holding AuthenticationAfter of the old one |
| JwtAuthFilter.PublicRouteUntouched | src/main/java/br/com/bitewise/api/filter/JwtAuthFilter.java:41-45 | on a public route the context is left as it was |
| JwtAuthFilter.PublicRoutes | src/main/java/br/com/bitewise/api/filter/JwtAuthFilter.java:41 | any path containing "/health" and any path under "/api/auth/" is public |
| JwtAuthFilter.ExistingAuthenticationKept | src/main/java/br/com/bitewise/api/filter/JwtAuthFilter.java:61 | an authentication already in the context is never replaced |
| JwtAuthFilter.NoBearerNoAuthentication | src/main/java/br/com/bitewise/api/filter/JwtAuthFilter.java:52-58 | no header, or one without the prefix, changes nothing |
| JwtAuthFilter.AuthenticationSetIff | src/main/java/br/com/bitewise/api/filter/JwtAuthFilter.java:52-80 | the context changes exactly when the route is protected, a username comes out of the token, the context was empty, the user loads and the token is valid for that user; that user is then the principal |
| JwtAuthFilter.InvalidTokenNoAuthentication | src/main/java/br/com/bitewise/api/filter/JwtAuthFilter.java:65-74 | a token that is not valid for its user sets nothing |
| RecipeController.ModeOf | src/main/java/br/com/bitewise/api/controller/RecipeController.java:55 | the aiModel parameter with Spring's default "auto" (a definition; EmptyModeIsDefault and DefaultModeIsAuto state its effect) |
| RecipeController.EmptyModeIsDefault | src/main/java/br/com/bitewise/api/controller/RecipeController.java:55 | a request whose aiModel parameter is empty is handled exactly as one without the parameter: same reply, same provider calls |
| RecipeController.ReplyFor | src/main/java/br/com/bitewise/api/controller/RecipeController.java:99-109 | 200 exactly when a recipe came back, with that recipe unchanged as the body; anything else is 500 with a message |
| RecipeController.GenerateRecipe | src/main/java/br/com/bitewise/api/controller/RecipeController.java:52-110 | at most two provider calls, all with the request's ingredients; a 200 carries exactly what the last call returned; every reply is 200, 400, 401 or 500; a 500 carries a message |
| RecipeController.UnauthenticatedCallsNoProvider | src/main/java/br/com/bitewise/api/controller/RecipeController.java:60-64 | without an authenticated user the reply is 401 and no provider is called |
| RecipeController.GptSpellings | src/main/java/br/com/bitewise/api/controller/RecipeController.java:72 | the mode selects GPT exactly when it spells "gpt" in any mix of cases |
| RecipeController.GptModeCallsOneProvider | src/main/java/br/com/bitewise/api/controller/RecipeController.java:72-79 | in mode "gpt" exactly one provider is called: GPT when available, Gemini otherwise; a GPT failure is not retried |
| RecipeController.AutoModeFallsBackOnce | src/main/java/br/com/bitewise/api/controller/RecipeController.java:80-89 | in mode "auto" with GPT available, GPT goes first, and on its failure Gemini is called exactly once with the same ingredients, deciding the reply |
| RecipeController.DefaultModeIsAuto | src/main/java/br/com/bitewise/api/controller/RecipeController.java:55 | with the parameter absent, a failing GPT is followed by one Gemini call |
| RecipeController.OtherModesUseGeminiOnly | src/main/java/br/com/bitewise/api/controller/RecipeController.java:90-97 | auto without GPT, and any unrecognised mode, call Gemini alone |
| RecipeController.ModifyRecipe | src/main/java/br/com/bitewise/api/controller/RecipeController.java:140-149 | the modification endpoint: 400 for a blank instruction, otherwise Gemini's modification, rethrown wrapped on failure (a definition; ModifyIgnoresGpt states that only Gemini decides the result) |
| RecipeController.ModifyIgnoresGpt | src/main/java/br/com/bitewise/api/controller/RecipeController.java:143 | GPT's availability and behaviour make no difference to a modification |
| RecipeController.Choose | src/main/java/br/com/bitewise/api/controller/RecipeController.java:72-97 | the provider ladder on the mode and on GPT's availability (a definition; GptModeCallsOneProvider, AutoModeFallsBackOnce, OtherModesUseGeminiOnly and ChooseEndsWithLastCall state it) |
| RecipeController.ChooseEndsWithLastCall | src/main/java/br/com/bitewise/api/controller/RecipeController.java:72-97 | the outcome of the provider ladder is the outcome of its last call |
| RecipeController.WiredFailuresAreRuntime | src/main/java/br/com/bitewise/api/controller/RecipeController.java:76-96 | whatever the ingredients, both wired providers fail only with RuntimeExceptions |
| RecipeController.RuntimeFailureReply | src/main/java/br/com/bitewise/api/controller/RecipeController.java:103-109 | a RuntimeException is reported as "Erro: " followed by its message |
| RecipeController.FailuresUseGenericPrefix | src/main/java/br/com/bitewise/api/controller/RecipeController.java:72-109 | for any providers that fail only with RuntimeExceptions, every 500 after authentication starts with "Erro: " |
| RecipeController.WiredFailuresUseGenericPrefix | src/main/java/br/com/bitewise/api/controller/RecipeController.java:103-109 | with the real services the client-error branch is never taken: every 500 after authentication starts with "Erro: " |
| RecipeController.SaveRecipe | src/main/java/br/com/bitewise/api/controller/RecipeController.java:112-138 | an invalid body or an unknown user leaves the store unchanged; otherwise exactly one new recipe copied from the request and one new link from the user to it are added, nothing else changes, and the message names the title |
| Store.UserIdOfUnique | src/main/java/br/com/bitewise/api/model/User.java:15 | under the unique constraint an email names exactly one user row |
| Store.OwnedLinksSpec | src/main/java/br/com/bitewise/api/repository/SavedRecipeRepository.java:13 | the user's links are listed once each, by increasing id, and nothing else is listed |
| Store.Repositories.Valid | src/main/java/br/com/bitewise/api/model/User.java:15-21 | the tables' invariant: each row is stored under its own id, below the next generated id, links point at stored rows, and no two users share an email (preserved by every method of the class) |
| Store.Repositories.FindByEmail | src/main/java/br/com/bitewise/api/controller/UserController.java:45-46 | a user is found exactly when the email is in use, and it is the row holding that email |
| Store.Repositories.FindByUser | src/main/java/br/com/bitewise/api/repository/SavedRecipeRepository.java:13 | exactly the links of the user, each a stored row, in increasing id order |
| Store.Repositories.InsertUser | src/main/java/br/com/bitewise/api/service/AuthService.java:32 | a new user row under a fresh id; the invariant is kept and the other tables are untouched |
| Store.Repositories.InsertRecipe | src/main/java/br/com/bitewise/api/controller/RecipeController.java:129 | a new recipe row under a fresh id; the invariant is kept and the other tables are untouched |
| Store.Repositories.InsertLink | src/main/java/br/com/bitewise/api/controller/RecipeController.java:131-135 | a new link row between existing rows under a fresh id; the invariant is kept |
| Store.Repositories.UpdateUser | src/main/java/br/com/bitewise/api/controller/UserController.java:68 | an existing user row is replaced; the unique-email invariant is kept |
| Store.Repositories.DeleteLink | src/main/java/br/com/bitewise/api/controller/UserController.java:113 | exactly that link is removed; the invariant is kept |
| AuthService.RegisterUser | src/main/java/br/com/bitewise/api/service/AuthService.java:19-33 | a taken email fails and leaves the store unchanged; otherwise exactly one user is added with the given name and email and the encoder's output as password, and emails stay unique |
| UserController.GetUserProfile | src/main/java/br/com/bitewise/api/controller/UserController.java:38-51 | it fails exactly when no user holds the email; otherwise it returns that user's id and name and the email |
| UserController.Items | src/main/java/br/com/bitewise/api/controller/UserController.java:83-93 | one item per link, in order, carrying the link id, the recipe's id, title and difficulty, and savedAt |
| UserController.GetSavedRecipes | src/main/java/br/com/bitewise/api/controller/UserController.java:75-96 | it fails exactly when no user holds the email; otherwise it returns the items of that user's links in repository order |
| UserController.SavedRecipesListOwnedLinks | src/main/java/br/com/bitewise/api/controller/UserController.java:83-93 | every listed item is a link of the user pointing at its recipe, every link of the user is listed, by increasing id |
| UserController.ItemsOfOwnedLinks | src/main/java/br/com/bitewise/api/controller/UserController.java:83-93 | mapping a complete, ordered list of one user's links gives items that are exactly those links, each pointing at its recipe, by increasing id |
| UserController.UpdateProfile | src/main/java/br/com/bitewise/api/controller/UserController.java:53-73 | a body failing @NotBlank or @Email, an unknown user, or a new email owned by another account leaves the store unchanged; keeping the same email skips the check; otherwise only that user's name and email change, the id stays, and the reply mirrors the saved user |
| UserController.DeleteSavedRecipe | src/main/java/br/com/bitewise/api/controller/UserController.java:98-116 | an unknown user, an unknown link id or another owner's link fails and removes nothing; otherwise exactly that link is removed and every other row remains |

## Left out

- Remote calls, JSON parsing and serialisation are inputs, not models. RestTemplate becomes a
  function from request to response. `readTree`, `readValue` and `writeValueAsString` become the
  functions of an `ObjectMapper` value. The number formatting of JSON values and HTTP status
  codes is taken as the text those libraries produce. `writeValueAsString` is total: serialising
  a tree that `readTree` has just produced is taken never to fail, so the `JsonProcessingException`
  catch of `GeminiService.OriginalIngredients` is reached only from `readTree`.
- JwtUtil (token signing, expiry, subject extraction), the user-details service and the password
  encoder are not part of this model. They are parameters.
- The security context is a single object for the request being served. Thread-local storage
  and the servlet container's concurrency are not modelled.
- Store handlers take the authenticated username as a parameter. The security configuration
  lets only authenticated requests reach them, so their own `(UserDetails)` casts, which would
  fail without an authentication, are not modelled. `RecipeController.GenerateRecipe` does model
  its own authentication check and cast.
- JPA is reduced to three maps with id counters:
  - lazy loading and transactions are not modelled;
  - the database's own rejection of a duplicate email becomes a precondition of
    `Store.Repositories.InsertUser` and `UpdateUser`, which every caller meets by checking first;
  - timestamps (`LocalDateTime.now()`, `Instant.now()`) are values supplied by the caller.
- `Store.Repositories.FindByUser` lists links by increasing id. Spring Data's `findByUser`
  promises no order, and this is the primary-key order a plain query returns.
- Email equality is exact string equality. A database collation that compares case-insensitively
  is not modelled.
- The address syntax `@Email` accepts belongs to the validation library. It is the `isEmail`
  parameter of `ValidUpdateProfileRequest` and `UserController.UpdateProfile`.
- When validation fails, Spring answers 400 with its own error document. The model returns
  `ValidationErrors` without the document's contents.
- `equalsIgnoreCase` folds ASCII letters only. Java also pairs 'ſ' with s, the Kelvin sign
  with k, and 'İ' and 'ı' with i; the mode words "gpt" and "auto" contain none of these letters,
  so for them the model is exact.
- Null elements inside a list are not modelled. A Java `List<String>` may hold nulls, which
  `@NotEmpty` and `@Size` let through and `String.join` writes as "null". The lists of
  `Dto.GenerateRecipeRequest`, `Dto.SaveRecipeRequest` and `Dto.RecipeResponse` hold strings
  only, so `GptService.GenerateRecipe` and `GeminiService.GenerateRecipe` never join a null.
- JSON trees are walked with `JsonTree.At`, a list of field and index steps like a JSON pointer.
  Jackson's `get(0)` and `path(0)` agree on the non-empty arrays the services index.
- The prompt wording, the request maps built with `put`, model names, `temperature` and the
  `NutritionFacts` numbers are not modelled. Floating point is left out. A prompt keeps only
  what it is built from.
- Log lines are not modelled. The one logged value with a property, the masked Gemini URI, is
  `GeminiService.LoggedUri`.
- The parsed recipe's `setNutrition` and `setImage` mutate an object that has just been created
  and is not shared. They are modelled as returning an updated value (`WithNutrition`,
  `ImageRecipe`). No aliasing can be observed.
- The message of a `NullPointerException` on a null recipe (`GptService.NullRecipe`,
  `RecipeController.NullRecipe`) is the JDK's helpful-message text for a local variable. It
  depends on how the class was compiled.
- Login (`AuthController`) and the health endpoint are not modelled. One is a thin wrapper over
  the authentication manager and JwtUtil; the other returns a constant.
