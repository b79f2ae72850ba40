/**
 * One session end to end: "ana" registers with "pw1", signs in, records an
 * income of 100 and an expense of 30, has an expense of -5 refused, and a
 * sign-in with a wrong password is refused without touching the document.
 */
module Scenario {
  import opened Wrappers
  import opened Ledger
  import opened Storage
  import opened Auth
  import opened Dashboard

  method AnaSession(hash: string, checkHash: (string, string) -> bool)
    returns (signIn: AuthOutcome, detail: Movements, refused: PostOutcome, balance: real, wrong: AuthResult)
    requires checkHash(hash, "pw1") && !checkHash(hash, "wrongpw")
    ensures signIn == SignedIn("ana", Some(EmptyMovements))
    ensures detail.totalIncomes == Some(100.0) && detail.totalExpenses == Some(30.0) && detail.balance == Some(70.0)
    ensures refused == PostOutcome.Rejected(NotPositive) && balance == 70.0
    ensures wrong == AuthResult(None, AuthOutcome.Rejected(WrongPassword))
    ensures Message(wrong.outcome.error) == "Contraseña incorrecta."
  {
    var registered := Decide(map[], "ana", "pw1", "register", hash, checkHash);
    var users := registered.written.value;
    signIn := Decide(users, "ana", "pw1", "login", hash, checkHash).outcome;
    var user := new User("ana", signIn.movements);
    var saved := PostEntry(user, users, "ingreso", "Salario", Some(100.0));
    users := saved.users;
    saved := PostEntry(user, users, "gasto", "Comida", Some(30.0));
    users := saved.users;
    detail := user.Detail();
    refused := PostEntry(user, users, "gasto", "Comida", Some(-5.0));
    balance := user.Balance();
    wrong := Decide(users, "ana", "wrongpw", "login", hash, checkHash);
  }
}
