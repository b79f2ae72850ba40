/**
 * The POST branch of the `dashboard` handler of app.py: parse the amount,
 * refuse a non-positive one, add the entry to the signed-in user's ledger in
 * memory, then write that ledger's detail into the user document.
 * `amount` is `float(monto)` already parsed (`None`: the text is not a number);
 * `users` is the document as the request reads it.
 */
module Dashboard {
  import opened Wrappers
  import opened Ledger
  import opened Storage

  /**
   * Why an entry is not recorded: the amount is not a number (`float` raises),
   * it is not above zero (the handler raises its own `ValueError`), or the
   * user's record is missing from the document.
   */
  datatype EntryError = NotANumber | NotPositive | MissingRecord

  /**
   * What a submission leads to: the document written back, an error shown on
   * the dashboard, or (in the code as written) an uncaught `KeyError`.
   */
  datatype PostOutcome = Saved(users: Store) | Rejected(error: EntryError) | Crashed

  /** The entry `tipo == "ingreso"` adds to the incomes; every other `tipo` to the expenses. */
  predicate IsIncome(kind: string) {
    kind == "ingreso"
  }

  /**
   * The document with `name`'s `movimientos` replaced by `user`'s detail and
   * every other record, and `name`'s password hash, kept.
   */
  function WithDetail(users: Store, name: string, detail: Movements): (stored: Store)
    requires name in users
    ensures stored.Keys == users.Keys
    ensures stored[name].passwordHash == users[name].passwordHash && stored[name].movements == Some(detail)
    ensures forall u :: u in users && u != name ==> stored[u] == users[u]
  {
    users[name := users[name].(movements := Some(detail))]
  }

  /**
   * The handler as written: the entry is appended to the in-memory ledger
   * before the user's record is looked up in the document, so a record that
   * is missing there raises `KeyError` after the ledger has already changed.
   */
  method PostEntryAsWritten(user: User, users: Store, kind: string, concept: string, amount: Option<real>)
    returns (r: PostOutcome)
    modifies user.account
    ensures amount.None? || amount.value <= 0.0 ==>
      r == Rejected(if amount.None? then NotANumber else NotPositive) && unchanged(user.account)
    ensures amount.Some? && amount.value > 0.0 ==>
      var e := Entry(concept, amount.value);
      && user.account.incomes == (if IsIncome(kind) then old(user.account.incomes) + [e] else old(user.account.incomes))
      && user.account.expenses == (if IsIncome(kind) then old(user.account.expenses) else old(user.account.expenses) + [e])
      && r == (if user.name in users then Saved(WithDetail(users, user.name, user.Detail())) else Crashed)
  {
    if amount.None? {
      return Rejected(NotANumber);
    }
    var monto := amount.value;
    if monto <= 0.0 {
      return Rejected(NotPositive);
    }
    var added: Outcome<LedgerError>;
    if IsIncome(kind) {
      added := user.AddIncome(monto, concept);
    } else {
      added := user.AddExpense(monto, concept);
    }
    assert added == Pass;
    if user.name !in users {
      return Crashed;
    }
    r := Saved(WithDetail(users, user.name, user.Detail()));
  }

  /**
   * A signed-in user whose record is no longer in the document posts a valid
   * income: the request fails, nothing is written, yet the ledger in memory
   * keeps the entry.
   */
  method PartialUpdateWitness() returns (r: PostOutcome, kept: seq<Entry>)
    ensures r == Crashed
    ensures kept == [Entry("Salario", 100.0)]
  {
    var user := new User("ana", None);
    r := PostEntryAsWritten(user, map[], "ingreso", "Salario", Some(100.0));
    kept := user.account.incomes;
  }

  /**
   * The handler with the record looked up before the ledger is touched:
   * either the entry is added and the document records exactly the new
   * ledger, or nothing changes at all.
   */
  method PostEntry(user: User, users: Store, kind: string, concept: string, amount: Option<real>)
    returns (r: PostOutcome)
    modifies user.account
    ensures r.Saved? || r.Rejected?
    ensures r.Saved? <==> amount.Some? && amount.value > 0.0 && user.name in users
    ensures amount.None? ==> r == Rejected(NotANumber)
    ensures amount.Some? && amount.value <= 0.0 ==> r == Rejected(NotPositive)
    ensures amount.Some? && amount.value > 0.0 && user.name !in users ==> r == Rejected(MissingRecord)
    ensures r.Rejected? ==> unchanged(user.account)
    ensures r.Saved? ==>
      var e := Entry(concept, amount.value);
      && user.account.incomes == (if IsIncome(kind) then old(user.account.incomes) + [e] else old(user.account.incomes))
      && user.account.expenses == (if IsIncome(kind) then old(user.account.expenses) else old(user.account.expenses) + [e])
      && user.Balance() == old(user.Balance()) + (if IsIncome(kind) then amount.value else -amount.value)
    // What is written is the live ledger: rebuilding it from the document gives it back.
    ensures r.Saved? ==>
      && r.users == WithDetail(users, user.name, user.Detail())
      && Restore(StoredMovements(r.users, user.name)) == (user.account.incomes, user.account.expenses)
  {
    if amount.None? {
      return Rejected(NotANumber);
    }
    var monto := amount.value;
    if monto <= 0.0 {
      return Rejected(NotPositive);
    }
    if user.name !in users {
      return Rejected(MissingRecord);
    }
    var added: Outcome<LedgerError>;
    if IsIncome(kind) {
      added := user.AddIncome(monto, concept);
    } else {
      added := user.AddExpense(monto, concept);
    }
    assert added == Pass;
    r := Saved(WithDetail(users, user.name, user.Detail()));
  }
}
