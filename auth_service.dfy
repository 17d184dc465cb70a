/**
 * AuthService.registerUser: a new account, refused when its email is taken.
 * The password encoder is not part of this model and is an input.
 */
module AuthService {
  import opened Wrappers
  import opened Remote
  import opened Store

  const EmailTaken := "Erro: Email já está em uso!"

  /**
   * registerUser. The RegisterRequest class is not part of this model; its
   * name, email and password are the parameters. `createdAt` is the clock
   * reading the new User takes.
   */
  method RegisterUser(repos: Repositories, encode: string -> string,
                      name: string, email: string, password: string, createdAt: Instant)
    returns (r: Result<(), JavaException>)
    requires repos.Valid()
    modifies repos
    ensures repos.Valid()
    ensures r.Err? <==> EmailInUse(old(repos.users), email)
    ensures r.Err? ==> r.error == RuntimeException(EmailTaken, None) && unchanged(repos)
    ensures r.Ok? ==>
      var id := old(repos.nextUserId);
      && id !in old(repos.users)
      && repos.users == old(repos.users)[id := User(id, name, email, encode(password), createdAt)]
      && repos.recipes == old(repos.recipes) && repos.links == old(repos.links)
  {
    if EmailInUse(repos.users, email) {
      return Err(RuntimeException(EmailTaken, None));
    }
    var hashedPassword := encode(password);
    var newUser := repos.InsertUser(name, email, hashedPassword, createdAt);
    r := Ok(());
  }
}
