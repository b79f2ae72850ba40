/**
 * The decision the `login` handler of app.py takes on a submitted form:
 * refuse an incomplete form, sign an existing user in, or register a new one.
 * Password hashing is outside the model: `freshHash` is the value
 * `generate_password_hash` would return for the submitted password, and
 * `checkHash(hash, password)` stands for `check_password_hash`.
 */
module Auth {
  import opened Wrappers
  import opened Text
  import opened Ledger
  import opened Storage

  /** The reasons a form is sent back with a message. */
  datatype AuthError = IncompleteForm | WrongPassword | UnknownUser | UserExists

  /** The message shown on the login page for each error. */
  function Message(e: AuthError): string {
    match e
    case IncompleteForm => "Por favor complete todos los campos."
    case WrongPassword => "Contraseña incorrecta."
    case UnknownUser => "Usuario no registrado."
    case UserExists => "El usuario ya existe. Elija otro nombre."
  }

  /**
   * What the visitor gets: signed in as `name`, with the in-memory user built
   * from `movements`; sent back with an error; or the plain form again when
   * the action is neither "login" nor "register".
   */
  datatype AuthOutcome = SignedIn(name: string, movements: Option<Movements>) | Rejected(error: AuthError) | NoAction

  /** The outcome, and the user document written back (`None`: nothing written). */
  datatype AuthResult = AuthResult(written: Option<Store>, outcome: AuthOutcome)

  /** A login with these (already stripped) credentials is accepted. */
  predicate Accepts(users: Store, name: string, password: string, checkHash: (string, string) -> bool) {
    name in users && checkHash(users[name].passwordHash, password)
  }

  /** The record `register` stores for a new user. */
  function NewRecord(freshHash: string): UserRecord {
    UserRecord(freshHash, Some(EmptyMovements))
  }

  /**
   * The POST branch of `login()` on the document `users` just loaded, once
   * both fields have been stripped into `name` and `password`.
   */
  function Decide(users: Store, name: string, password: string, action: string,
                  freshHash: string, checkHash: (string, string) -> bool): (r: AuthResult)
    // An empty field is refused whatever the document holds.
    ensures name == [] || password == [] ==> r == AuthResult(None, Rejected(IncompleteForm))
    // Only a successful registration writes the document.
    ensures r.written.Some? <==> action == "register" && r.outcome.SignedIn?
    ensures r.outcome.SignedIn? ==> r.outcome.name == name && name != [] && password != []
    ensures action == "login" ==>
      (r.outcome.SignedIn? <==> name != [] && password != [] && Accepts(users, name, password, checkHash))
    ensures action == "login" && name != [] && password != [] ==>
      && (name !in users ==> r.outcome == Rejected(UnknownUser))
      && (name in users && !checkHash(users[name].passwordHash, password) ==> r.outcome == Rejected(WrongPassword))
      && (Accepts(users, name, password, checkHash) ==> r.outcome == SignedIn(name, users[name].movements))
    ensures action == "register" && name != [] && password != [] ==>
      (name in users <==> r.outcome == Rejected(UserExists)) && (name !in users <==> r.outcome.SignedIn?)
    // A registration adds exactly one record, with an empty ledger, and keeps every other.
    ensures r.written.Some? ==>
      var stored := r.written.value;
      && name !in users
      && stored.Keys == users.Keys + {name}
      && stored[name] == NewRecord(freshHash)
      && (forall u :: u in users ==> stored[u] == users[u])
      && r.outcome == SignedIn(name, None)
    ensures action != "login" && action != "register" && name != [] && password != [] ==>
      r == AuthResult(None, NoAction)
  {
    if name == [] || password == [] then
      AuthResult(None, Rejected(IncompleteForm))
    else if action == "login" then
      if name in users then
        if checkHash(users[name].passwordHash, password) then
          AuthResult(None, SignedIn(name, users[name].movements))
        else
          AuthResult(None, Rejected(WrongPassword))
      else
        AuthResult(None, Rejected(UnknownUser))
    else if action == "register" then
      if name in users then
        AuthResult(None, Rejected(UserExists))
      else
        AuthResult(Some(users[name := NewRecord(freshHash)]), SignedIn(name, None))
    else
      AuthResult(None, NoAction)
  }

  /**
   * The POST branch of `login()` on the raw form fields, which are stripped
   * first: a field of whitespace only counts as empty.
   */
  function Submit(users: Store, userField: string, passwordField: string, action: string,
                  freshHash: string, checkHash: (string, string) -> bool): (r: AuthResult)
    ensures Blank(userField) || Blank(passwordField) ==> r == AuthResult(None, Rejected(IncompleteForm))
    ensures r.outcome.SignedIn? ==> !Blank(userField) && !Blank(passwordField)
  {
    Decide(users, Strip(userField), Strip(passwordField), action, freshHash, checkHash)
  }

  /** No submission ever changes or removes a record already in the document. */
  lemma SubmitKeepsExistingRecords(users: Store, userField: string, passwordField: string, action: string,
                                   freshHash: string, checkHash: (string, string) -> bool, u: string)
    requires u in users
    ensures var r := Submit(users, userField, passwordField, action, freshHash, checkHash);
      r.written.Some? ==> u in r.written.value && r.written.value[u] == users[u]
  {
  }

  /**
   * Both ways a user signs in give a ledger restored to exactly what the
   * document holds for them; a new user's ledger is empty.
   */
  lemma SignedInLedgerMatchesStore(users: Store, userField: string, passwordField: string, action: string,
                                   freshHash: string, checkHash: (string, string) -> bool)
    ensures var r := Submit(users, userField, passwordField, action, freshHash, checkHash);
      r.outcome.SignedIn? ==>
        var stored := r.written.GetOr(users);
        && r.outcome.name in stored
        && Restore(r.outcome.movements) == Restore(stored[r.outcome.name].movements)
        && (action == "register" ==> Restore(r.outcome.movements) == ([], []))
  {
    var r := Submit(users, userField, passwordField, action, freshHash, checkHash);
    if r.outcome.SignedIn? && action == "register" {
      assert r.written.value[r.outcome.name].movements == Some(EmptyMovements);
    }
  }

  /**
   * Registering and then logging in with the same credentials succeeds,
   * provided the hash checker accepts the password against the hash it was
   * stored with.
   */
  lemma RegisterThenLogin(users: Store, userField: string, passwordField: string,
                          freshHash: string, otherHash: string, checkHash: (string, string) -> bool)
    requires Submit(users, userField, passwordField, "register", freshHash, checkHash).outcome.SignedIn?
    requires checkHash(freshHash, Strip(passwordField))
    ensures var stored := Submit(users, userField, passwordField, "register", freshHash, checkHash).written;
      && stored.Some?
      && Submit(stored.value, userField, passwordField, "login", otherHash, checkHash)
         == AuthResult(None, SignedIn(Strip(userField), Some(EmptyMovements)))
  {
  }

  /** A registration grows the document by exactly one user. */
  lemma RegisterAddsOneUser(users: Store, name: string, password: string,
                            freshHash: string, checkHash: (string, string) -> bool)
    requires Decide(users, name, password, "register", freshHash, checkHash).written.Some?
    ensures |Decide(users, name, password, "register", freshHash, checkHash).written.value| == |users| + 1
  {
    var stored := Decide(users, name, password, "register", freshHash, checkHash).written.value;
    assert stored.Keys == users.Keys + {name} && name !in users.Keys;
    assert |stored.Keys| == |users.Keys| + 1;
  }
}
