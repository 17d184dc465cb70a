/**
 * UserController: the authenticated user's profile and saved recipes. Each
 * handler receives the username of the authenticated principal, which is the
 * user's email.
 */
module UserController {
  import opened Wrappers
  import opened JavaText
  import opened Dto
  import opened Remote
  import opened Store

  const UserNotFoundInDb := "Usuário não encontrado no banco."
  const UserNotFound := "Usuário não encontrado."
  const EmailTaken := "Erro: O novo email já está sendo usado por outra conta."
  const LinkNotFoundPrefix := "Receita salva não encontrada com ID: "
  const AccessDenied := "Acesso negado. Esta receita não pertence ao usuário logado."
  const LinkRemoved := "Receita salva removida com sucesso."

  function ProfileOf(u: User): UserProfileResponse {
    UserProfileResponse(u.id, u.name, u.email)
  }

  /** getUserProfile. */
  method GetUserProfile(repos: Repositories, email: string) returns (r: Result<Reply, JavaException>)
    requires repos.Valid()
    ensures r.Err? <==> !EmailInUse(repos.users, email)
    ensures r.Err? ==> r.error == RuntimeException(UserNotFoundInDb, None)
    ensures r.Ok? ==>
      var u := repos.users[UserIdOf(repos.users, email)];
      r.value == Reply(200, ProfileBody(UserProfileResponse(u.id, u.name, email)))
  {
    var user := repos.FindByEmail(email);
    if user.None? {
      return Err(RuntimeException(UserNotFoundInDb, None));
    }
    r := Ok(Reply(200, ProfileBody(ProfileOf(user.value))));
  }

  /** The map step of getSavedRecipes: one item per link, from the link and its recipe. */
  function Items(links: seq<SavedRecipe>, recipes: map<Id, Recipe>): (items: seq<SavedRecipeItem>)
    requires forall i | 0 <= i < |links| :: links[i].recipeId in recipes
    ensures |items| == |links|
    ensures forall i | 0 <= i < |links| ::
      && items[i].id == links[i].id
      && items[i].recipeId == recipes[links[i].recipeId].id
      && items[i].title == recipes[links[i].recipeId].title
      && items[i].difficulty == recipes[links[i].recipeId].difficulty
      && items[i].savedAt == links[i].savedAt
    decreases |links|
  {
    if links == [] then []
    else
      var link := links[0];
      var recipe := recipes[link.recipeId];
      [SavedRecipeItem(link.id, recipe.id, recipe.title, recipe.difficulty, link.savedAt)] + Items(links[1..], recipes)
  }

  /** getSavedRecipes: one item per link the user owns, in repository order. */
  method GetSavedRecipes(repos: Repositories, email: string) returns (r: Result<Reply, JavaException>)
    requires repos.Valid()
    ensures r.Err? <==> !EmailInUse(repos.users, email)
    ensures r.Err? ==> r.error == RuntimeException(UserNotFoundInDb, None)
    ensures r.Ok? ==>
      var owned := repos.FindByUser(UserIdOf(repos.users, email));
      r.value == Reply(200, ItemsBody(Items(owned, repos.recipes)))
  {
    var user := repos.FindByEmail(email);
    if user.None? {
      return Err(RuntimeException(UserNotFoundInDb, None));
    }
    var savedRecipes := repos.FindByUser(user.value.id);
    r := Ok(Reply(200, ItemsBody(Items(savedRecipes, repos.recipes))));
  }

  /**
   * The listing holds exactly the user's links: every item is a link of the
   * user and every link of the user appears once, by increasing id.
   */
  lemma SavedRecipesListOwnedLinks(repos: Repositories, email: string)
    requires repos.Valid() && EmailInUse(repos.users, email)
    ensures var userId := UserIdOf(repos.users, email);
      var items := Items(repos.FindByUser(userId), repos.recipes);
      && (forall i | 0 <= i < |items| ::
            items[i].id in repos.links && repos.links[items[i].id].userId == userId
            && items[i].recipeId == repos.links[items[i].id].recipeId)
      && (forall id | id in repos.links && repos.links[id].userId == userId ::
            exists i :: 0 <= i < |items| && items[i].id == id)
      && (forall i, j | 0 <= i < j < |items| :: items[i].id < items[j].id)
  {
    var userId := UserIdOf(repos.users, email);
    ItemsOfOwnedLinks(repos.FindByUser(userId), repos.links, repos.recipes, userId);
  }

  /** The item listing of an ordered, complete list of one user's links. */
  lemma ItemsOfOwnedLinks(owned: seq<SavedRecipe>, links: map<Id, SavedRecipe>, recipes: map<Id, Recipe>, userId: Id)
    requires forall i | 0 <= i < |owned| :: owned[i].id in links && links[owned[i].id] == owned[i] && owned[i].userId == userId
    requires forall i, j | 0 <= i < j < |owned| :: owned[i].id < owned[j].id
    requires forall id | id in links && links[id].userId == userId :: links[id] in owned
    requires forall id | id in links :: links[id].id == id && links[id].recipeId in recipes
    requires forall id | id in recipes :: recipes[id].id == id
    ensures forall i | 0 <= i < |owned| :: owned[i].recipeId in recipes
    ensures var items := Items(owned, recipes);
      && (forall i | 0 <= i < |items| ::
            items[i].id in links && links[items[i].id].userId == userId
            && items[i].recipeId == links[items[i].id].recipeId)
      && (forall id | id in links && links[id].userId == userId ::
            exists i :: 0 <= i < |items| && items[i].id == id)
      && (forall i, j | 0 <= i < j < |items| :: items[i].id < items[j].id)
  {
    forall i | 0 <= i < |owned| ensures owned[i].recipeId in recipes {
      assert links[owned[i].id] == owned[i];
    }
    var items := Items(owned, recipes);
    forall i | 0 <= i < |items|
      ensures items[i].id in links && links[items[i].id].userId == userId
      ensures items[i].recipeId == links[items[i].id].recipeId
    {
      assert items[i].id == owned[i].id && links[owned[i].id] == owned[i];
      assert items[i].recipeId == recipes[owned[i].recipeId].id;
    }
    forall id | id in links && links[id].userId == userId
      ensures exists i :: 0 <= i < |items| && items[i].id == id
    {
      var i :| 0 <= i < |owned| && owned[i] == links[id];
      assert 0 <= i < |items| && items[i].id == id;
    }
    forall i, j | 0 <= i < j < |items| ensures items[i].id < items[j].id {
      assert items[i].id == owned[i].id && items[j].id == owned[j].id;
    }
  }

  /** updateProfile; `isEmail` is the address syntax @Email accepts. */
  method UpdateProfile(repos: Repositories, currentEmail: string, request: UpdateProfileRequest, isEmail: string -> bool)
    returns (r: Result<Reply, JavaException>)
    requires repos.Valid()
    modifies repos
    ensures repos.Valid()
    ensures !ValidUpdateProfileRequest(request, isEmail) ==> r == Ok(Reply(400, ValidationErrors)) && unchanged(repos)
    ensures ValidUpdateProfileRequest(request, isEmail) && !EmailInUse(old(repos.users), currentEmail) ==>
      r == Err(RuntimeException(UserNotFound, None)) && unchanged(repos)
    ensures (&& ValidUpdateProfileRequest(request, isEmail) && EmailInUse(old(repos.users), currentEmail)
             && currentEmail != request.email.value && EmailInUse(old(repos.users), request.email.value)) ==>
      r == Err(RuntimeException(EmailTaken, None)) && unchanged(repos)
    ensures (&& ValidUpdateProfileRequest(request, isEmail) && EmailInUse(old(repos.users), currentEmail)
             && (currentEmail == request.email.value || !EmailInUse(old(repos.users), request.email.value))) ==>
      var id := UserIdOf(old(repos.users), currentEmail);
      var updated := old(repos.users)[id].(name := request.name.value, email := request.email.value);
      && repos.users == old(repos.users)[id := updated]
      && repos.recipes == old(repos.recipes) && repos.links == old(repos.links)
      && r == Ok(Reply(200, ProfileBody(UserProfileResponse(id, request.name.value, request.email.value))))
  {
    if !ValidUpdateProfileRequest(request, isEmail) {
      return Ok(Reply(400, ValidationErrors));
    }
    var user := repos.FindByEmail(currentEmail);
    if user.None? {
      return Err(RuntimeException(UserNotFound, None));
    }
    var newEmail := request.email.value;
    if currentEmail != newEmail && EmailInUse(repos.users, newEmail) {
      return Err(RuntimeException(EmailTaken, None));
    }
    var u := user.value.(name := request.name.value, email := newEmail);
    repos.UpdateUser(u);
    r := Ok(Reply(200, ProfileBody(ProfileOf(u))));
  }

  /** deleteSavedRecipe: only the owner of a link may remove it. */
  method DeleteSavedRecipe(repos: Repositories, email: string, id: int) returns (r: Result<Reply, JavaException>)
    requires repos.Valid()
    modifies repos
    ensures repos.Valid()
    ensures !EmailInUse(old(repos.users), email) ==>
      r == Err(RuntimeException(UserNotFoundInDb, None)) && unchanged(repos)
    ensures EmailInUse(old(repos.users), email) && (id < 0 || id !in old(repos.links)) ==>
      r == Err(RuntimeException(LinkNotFoundPrefix + LongString(id), None)) && unchanged(repos)
    ensures (&& EmailInUse(old(repos.users), email) && id >= 0 && id in old(repos.links)
             && old(repos.links)[id].userId != UserIdOf(old(repos.users), email)) ==>
      r == Err(RuntimeException(AccessDenied, None)) && unchanged(repos)
    ensures (&& EmailInUse(old(repos.users), email) && id >= 0 && id in old(repos.links)
             && old(repos.links)[id].userId == UserIdOf(old(repos.users), email)) ==>
      && r == Ok(Reply(200, MessageBody(LinkRemoved)))
      && repos.links == old(repos.links) - {id}
      && repos.users == old(repos.users) && repos.recipes == old(repos.recipes)
  {
    var user := repos.FindByEmail(email);
    if user.None? {
      return Err(RuntimeException(UserNotFoundInDb, None));
    }
    if id < 0 || id !in repos.links {
      return Err(RuntimeException(LinkNotFoundPrefix + LongString(id), None));
    }
    var savedRecipe := repos.links[id];
    if savedRecipe.userId != user.value.id {
      return Err(RuntimeException(AccessDenied, None));
    }
    repos.DeleteLink(savedRecipe.id);
    r := Ok(Reply(200, MessageBody(LinkRemoved)));
  }
}
