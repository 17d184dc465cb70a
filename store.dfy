/**
 * The JPA entities and their three repositories, held in memory: each table is
 * a map from id to row, and ids come from a per-table counter the way an
 * IDENTITY column hands them out. Timestamps are values supplied by the caller.
 */
module Store {
  import opened Wrappers

  type Id = nat

  /** A clock reading (LocalDateTime.now() or Instant.now()), kept opaque. */
  type Instant = int

  /** User: the password field holds the encoder's hash. */
  datatype User = User(id: Id, name: string, email: string, password: string, createdAt: Instant)

  /** Recipe: every column is nullable. */
  datatype Recipe = Recipe(
    id: Id,
    title: Option<string>,
    prepTime: Option<string>,
    servings: Option<int>,
    difficulty: Option<string>,
    ingredients: Option<seq<string>>,
    steps: Option<seq<string>>,
    tips: Option<seq<string>>)

  /** SavedRecipe: a link from a user to a recipe; both join columns are non-null. */
  datatype SavedRecipe = SavedRecipe(id: Id, userId: Id, recipeId: Id, savedAt: Instant)

  predicate EmailInUse(users: map<Id, User>, email: string) {
    exists id | id in users :: users[id].email == email
  }

  /** The unique constraint on the email column. */
  ghost predicate UniqueEmails(users: map<Id, User>) {
    forall a, b | a in users && b in users && users[a].email == users[b].email :: a == b
  }

  /** The id of the user row holding `email`. */
  ghost function UserIdOf(users: map<Id, User>, email: string): (id: Id)
    requires EmailInUse(users, email)
    ensures id in users && users[id].email == email
  {
    var id :| id in users && users[id].email == email; id
  }

  /** Under the unique constraint an email names exactly one row. */
  lemma UserIdOfUnique(users: map<Id, User>, email: string, id: Id)
    requires UniqueEmails(users) && id in users && users[id].email == email
    ensures UserIdOf(users, email) == id
  {
  }

  /**
   * The links owned by `userId` among those with an id below `bound`, in
   * ascending id order (the order of the primary key).
   */
  function OwnedLinks(links: map<Id, SavedRecipe>, userId: Id, bound: nat): seq<SavedRecipe>
    decreases bound
  {
    if bound == 0 then []
    else
      var id := bound - 1;
      OwnedLinks(links, userId, id) + (if id in links && links[id].userId == userId then [links[id]] else [])
  }

  /** OwnedLinks lists every owned link below the bound, each once, by increasing id. */
  lemma {:induction false} OwnedLinksSpec(links: map<Id, SavedRecipe>, userId: Id, bound: nat)
    requires forall id | id in links :: links[id].id == id
    ensures forall i | 0 <= i < |OwnedLinks(links, userId, bound)| ::
      var l := OwnedLinks(links, userId, bound)[i];
      l.id in links && links[l.id] == l && l.userId == userId && l.id < bound
    ensures forall i, j | 0 <= i < j < |OwnedLinks(links, userId, bound)| ::
      OwnedLinks(links, userId, bound)[i].id < OwnedLinks(links, userId, bound)[j].id
    ensures forall id | id in links && id < bound && links[id].userId == userId :: links[id] in OwnedLinks(links, userId, bound)
    decreases bound
  {
    if bound > 0 {
      var id := bound - 1;
      OwnedLinksSpec(links, userId, id);
      var prev := OwnedLinks(links, userId, id);
      var tail := if id in links && links[id].userId == userId then [links[id]] else [];
      var r := prev + tail;
      assert OwnedLinks(links, userId, bound) == r;
      forall i | 0 <= i < |r|
        ensures r[i].id in links && links[r[i].id] == r[i] && r[i].userId == userId && r[i].id < bound
      {
        if i < |prev| {
          assert r[i] == prev[i];
        } else {
          assert |tail| == 1 && id in links && links[id].userId == userId;
          assert r[i] == links[id] && links[id].id == id;
        }
      }
      forall k | k in links && k < bound && links[k].userId == userId
        ensures links[k] in r
      {
        if k < id {
          assert links[k] in prev;
        } else {
          assert r[|prev|] == links[k];
        }
      }
    }
  }

  class Repositories {
    var users: map<Id, User>
    var recipes: map<Id, Recipe>
    var links: map<Id, SavedRecipe>
    var nextUserId: Id
    var nextRecipeId: Id
    var nextLinkId: Id

    /** Keys match row ids, ids lie below their counter, emails are unique and every link resolves. */
    ghost predicate Valid()
      reads this
    {
      && (forall id | id in users :: users[id].id == id && id < nextUserId)
      && (forall id | id in recipes :: recipes[id].id == id && id < nextRecipeId)
      && (forall id | id in links :: links[id].id == id && id < nextLinkId)
      && (forall id | id in links :: links[id].userId in users && links[id].recipeId in recipes)
      && UniqueEmails(users)
    }

    constructor()
      ensures Valid()
      ensures users == map[] && recipes == map[] && links == map[]
    {
      users := map[];
      recipes := map[];
      links := map[];
      nextUserId := 1;
      nextRecipeId := 1;
      nextLinkId := 1;
    }

    /** userRepository.findByEmail. */
    method FindByEmail(email: string) returns (u: Option<User>)
      requires Valid()
      ensures u.Some? <==> EmailInUse(users, email)
      ensures u.Some? ==> u.value.id == UserIdOf(users, email) && u.value == users[u.value.id]
    {
      if EmailInUse(users, email) {
        var id :| id in users && users[id].email == email;
        UserIdOfUnique(users, email, id);
        u := Some(users[id]);
      } else {
        u := None;
      }
    }

    /** savedRecipeRepository.findByUser, in primary-key order. */
    function FindByUser(userId: Id): (r: seq<SavedRecipe>)
      reads this
      requires Valid()
      ensures forall i | 0 <= i < |r| :: r[i].id in links && links[r[i].id] == r[i] && r[i].userId == userId
      ensures forall i, j | 0 <= i < j < |r| :: r[i].id < r[j].id
      ensures forall id | id in links && links[id].userId == userId :: links[id] in r
    {
      OwnedLinksSpec(links, userId, nextLinkId);
      OwnedLinks(links, userId, nextLinkId)
    }

    /** userRepository.save of a new user: the row gets the next id. */
    method InsertUser(name: string, email: string, password: string, createdAt: Instant) returns (u: User)
      requires Valid() && !EmailInUse(users, email)
      modifies this
      ensures Valid()
      ensures u == User(old(nextUserId), name, email, password, createdAt)
      ensures u.id !in old(users)
      ensures users == old(users)[u.id := u]
      ensures recipes == old(recipes) && links == old(links)
      ensures nextUserId == old(nextUserId) + 1
      ensures nextRecipeId == old(nextRecipeId) && nextLinkId == old(nextLinkId)
    {
      u := User(nextUserId, name, email, password, createdAt);
      users := users[u.id := u];
      nextUserId := nextUserId + 1;
    }

    /** userRepository.save of an existing user whose new email is free or unchanged. */
    method UpdateUser(u: User)
      requires Valid() && u.id in users
      requires u.email == users[u.id].email || !EmailInUse(users, u.email)
      modifies this
      ensures Valid()
      ensures users == old(users)[u.id := u]
      ensures recipes == old(recipes) && links == old(links)
      ensures nextUserId == old(nextUserId) && nextRecipeId == old(nextRecipeId) && nextLinkId == old(nextLinkId)
    {
      users := users[u.id := u];
    }

    /** recipeRepository.save of a new recipe: the row gets the next id. */
    method InsertRecipe(r: Recipe) returns (saved: Recipe)
      requires Valid()
      modifies this
      ensures Valid()
      ensures saved == r.(id := old(nextRecipeId)) && saved.id !in old(recipes)
      ensures recipes == old(recipes)[saved.id := saved]
      ensures users == old(users) && links == old(links)
      ensures nextRecipeId == old(nextRecipeId) + 1
      ensures nextUserId == old(nextUserId) && nextLinkId == old(nextLinkId)
    {
      saved := r.(id := nextRecipeId);
      recipes := recipes[saved.id := saved];
      nextRecipeId := nextRecipeId + 1;
    }

    /** savedRecipeRepository.save of a new link between two existing rows. */
    method InsertLink(userId: Id, recipeId: Id, savedAt: Instant) returns (link: SavedRecipe)
      requires Valid() && userId in users && recipeId in recipes
      modifies this
      ensures Valid()
      ensures link == SavedRecipe(old(nextLinkId), userId, recipeId, savedAt) && link.id !in old(links)
      ensures links == old(links)[link.id := link]
      ensures users == old(users) && recipes == old(recipes)
      ensures nextLinkId == old(nextLinkId) + 1
      ensures nextUserId == old(nextUserId) && nextRecipeId == old(nextRecipeId)
    {
      link := SavedRecipe(nextLinkId, userId, recipeId, savedAt);
      links := links[link.id := link];
      nextLinkId := nextLinkId + 1;
    }

    /** savedRecipeRepository.delete. */
    method DeleteLink(id: Id)
      requires Valid()
      modifies this
      ensures Valid()
      ensures links == old(links) - {id}
      ensures users == old(users) && recipes == old(recipes)
      ensures nextUserId == old(nextUserId) && nextRecipeId == old(nextRecipeId) && nextLinkId == old(nextLinkId)
    {
      links := links - {id};
    }
  }
}
