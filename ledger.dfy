/**
 * The account ledger of app.py: `Cuenta` keeps the income (`ingresos`) and
 * expense (`gastos`) entries of one user and derives totals and the balance;
 * `Usuario` pairs a name with one `Cuenta` and delegates to it.
 * Amounts are Python floats in the source and `real` here.
 */
module Ledger {
  import opened Wrappers

  /** One income or expense line, `{"concepto": ..., "monto": ...}`. */
  datatype Entry = Entry(concept: string, amount: real)

  /** Every amount in `entries` is strictly positive. */
  predicate AllPositive(entries: seq<Entry>) {
    forall i :: 0 <= i < |entries| ==> entries[i].amount > 0.0
  }

  /** `sum(e["monto"] for e in entries)`. */
  function Sum(entries: seq<Entry>): (total: real)
    ensures AllPositive(entries) ==> total >= 0.0
    ensures AllPositive(entries) && entries != [] ==> total > 0.0
  {
    if entries == [] then 0.0 else entries[0].amount + Sum(entries[1..])
  }

  /** Appending one entry adds exactly its amount to the total. */
  lemma {:induction false} SumAppend(entries: seq<Entry>, e: Entry)
    ensures Sum(entries + [e]) == Sum(entries) + e.amount
  {
    if entries == [] {
      assert [] + [e] == [e];
    } else {
      assert (entries + [e])[1..] == entries[1..] + [e];
      SumAppend(entries[1..], e);
    }
  }

  /**
   * The balance of a ledger: total income minus total expenses. With only
   * positive entries it lies between minus the expenses and the income.
   */
  function BalanceOf(incomes: seq<Entry>, expenses: seq<Entry>): (balance: real)
    ensures AllPositive(incomes) && AllPositive(expenses) ==> -Sum(expenses) <= balance <= Sum(incomes)
  {
    Sum(incomes) - Sum(expenses)
  }

  /** A new income entry raises the balance by exactly its amount. */
  lemma BalanceAfterIncome(incomes: seq<Entry>, expenses: seq<Entry>, e: Entry)
    ensures BalanceOf(incomes + [e], expenses) == BalanceOf(incomes, expenses) + e.amount
  {
    SumAppend(incomes, e);
  }

  /** A new expense entry lowers the balance by exactly its amount. */
  lemma BalanceAfterExpense(incomes: seq<Entry>, expenses: seq<Entry>, e: Entry)
    ensures BalanceOf(incomes, expenses + [e]) == BalanceOf(incomes, expenses) - e.amount
  {
    SumAppend(expenses, e);
  }

  /**
   * The `movimientos` dictionary as it is stored and as `obtener_detalle`
   * returns it; a field is `None` when its key is absent.
   */
  datatype Movements = Movements(
    incomes: Option<seq<Entry>>,
    expenses: Option<seq<Entry>>,
    totalIncomes: Option<real>,
    totalExpenses: Option<real>,
    balance: Option<real>)
  {
    /** The empty dictionary `{}`, which Python treats as false. */
    predicate IsEmpty() {
      incomes.None? && expenses.None? && totalIncomes.None? && totalExpenses.None? && balance.None?
    }
  }

  /** The `movimientos` a newly registered user is stored with. */
  const EmptyMovements := Movements(Some([]), Some([]), None, None, None)

  /**
   * The two lists `Cuenta(movimientos)` starts with: the stored lists when
   * present, an empty list for a missing key or a missing or empty snapshot.
   * The entries are taken as they are, without checking their amounts.
   */
  function Restore(snapshot: Option<Movements>): (lists: (seq<Entry>, seq<Entry>))
    ensures lists.0 == if snapshot.Some? && snapshot.value.incomes.Some? then snapshot.value.incomes.value else []
    ensures lists.1 == if snapshot.Some? && snapshot.value.expenses.Some? then snapshot.value.expenses.value else []
  {
    if snapshot.Some? && !snapshot.value.IsEmpty() then
      (snapshot.value.incomes.GetOr([]), snapshot.value.expenses.GetOr([]))
    else
      ([], [])
  }

  /**
   * `obtener_detalle()` of a ledger: both lists, both totals and the balance.
   * The balance agrees with the two totals, and restoring a ledger from the
   * detail gives back the very same lists.
   */
  function DetailOf(incomes: seq<Entry>, expenses: seq<Entry>): (d: Movements)
    ensures d.incomes == Some(incomes) && d.expenses == Some(expenses)
    ensures d.totalIncomes == Some(Sum(incomes)) && d.totalExpenses == Some(Sum(expenses))
    ensures d.balance == Some(d.totalIncomes.value - d.totalExpenses.value)
    ensures Restore(Some(d)) == (incomes, expenses)
  {
    Movements(Some(incomes), Some(expenses), Some(Sum(incomes)), Some(Sum(expenses)), Some(BalanceOf(incomes, expenses)))
  }

  /** The snapshot that `Restore` reads is the one `DetailOf` writes, extra keys ignored. */
  lemma SnapshotRoundTrip(incomes: seq<Entry>, expenses: seq<Entry>)
    ensures var d := DetailOf(incomes, expenses);
      Restore(Some(d)) == (incomes, expenses) && Restore(Some(d.(totalIncomes := None, totalExpenses := None, balance := None))) == (incomes, expenses)
  {
  }

  /** Restoring does not check amounts: a stored non-positive entry is loaded as it is. */
  lemma RestoreAcceptsNonPositive()
    ensures !AllPositive(Restore(Some(Movements(Some([Entry("Salario", -5.0)]), None, None, None, None))).0)
  {
    var loaded := Restore(Some(Movements(Some([Entry("Salario", -5.0)]), None, None, None, None))).0;
    assert loaded[0].amount == -5.0;
  }

  /**
   * The `ValueError` `agregar_ingreso` / `agregar_gasto` raise for a
   * non-positive amount; its text names the income or the expense.
   */
  datatype LedgerError = IncomeNotPositive | ExpenseNotPositive

  /** `Cuenta`: the two entry lists of one user, appended to in place. */
  class Account {
    var incomes: seq<Entry>
    var expenses: seq<Entry>

    /** `Cuenta(movimientos)`. */
    constructor (snapshot: Option<Movements>)
      ensures (incomes, expenses) == Restore(snapshot)
    {
      if snapshot.Some? && !snapshot.value.IsEmpty() {
        incomes := snapshot.value.incomes.GetOr([]);
        expenses := snapshot.value.expenses.GetOr([]);
      } else {
        incomes := [];
        expenses := [];
      }
    }

    /** `calcular_balance()`: the balance that `obtener_detalle()` reports too. */
    function Balance(): (balance: real)
      reads this
      ensures Some(balance) == DetailOf(incomes, expenses).balance
      ensures AllPositive(incomes) && AllPositive(expenses) ==> -Sum(expenses) <= balance <= Sum(incomes)
    {
      BalanceOf(incomes, expenses)
    }

    /**
     * `obtener_detalle()`: the current lists as they are, with a balance equal
     * to `Balance()`, and a snapshot the constructor restores to this ledger.
     */
    function Detail(): (d: Movements)
      reads this
      ensures d.incomes == Some(incomes) && d.expenses == Some(expenses)
      ensures d.balance == Some(Balance())
      ensures Restore(Some(d)) == (incomes, expenses)
    {
      DetailOf(incomes, expenses)
    }

    /** `agregar_ingreso(monto, concepto)`. */
    method AddIncome(amount: real, concept: string) returns (result: Outcome<LedgerError>)
      modifies this
      ensures result == if amount > 0.0 then Pass else Fail(IncomeNotPositive)
      ensures incomes == if amount > 0.0 then old(incomes) + [Entry(concept, amount)] else old(incomes)
      ensures expenses == old(expenses)
      ensures Balance() == old(Balance()) + if amount > 0.0 then amount else 0.0
      ensures AllPositive(old(incomes)) ==> AllPositive(incomes)
    {
      if amount <= 0.0 {
        return Fail(IncomeNotPositive);
      }
      BalanceAfterIncome(incomes, expenses, Entry(concept, amount));
      incomes := incomes + [Entry(concept, amount)];
      result := Pass;
    }

    /** `agregar_gasto(monto, concepto)`. */
    method AddExpense(amount: real, concept: string) returns (result: Outcome<LedgerError>)
      modifies this
      ensures result == if amount > 0.0 then Pass else Fail(ExpenseNotPositive)
      ensures expenses == if amount > 0.0 then old(expenses) + [Entry(concept, amount)] else old(expenses)
      ensures incomes == old(incomes)
      ensures Balance() == old(Balance()) - if amount > 0.0 then amount else 0.0
      ensures AllPositive(old(expenses)) ==> AllPositive(expenses)
    {
      if amount <= 0.0 {
        return Fail(ExpenseNotPositive);
      }
      BalanceAfterExpense(incomes, expenses, Entry(concept, amount));
      expenses := expenses + [Entry(concept, amount)];
      result := Pass;
    }
  }

  /** `Usuario`: a name and the `Cuenta` every method delegates to. */
  class User {
    const name: string
    const account: Account

    /** `Usuario(nombre, movimientos)`. */
    constructor (name: string, snapshot: Option<Movements>)
      ensures this.name == name && fresh(account)
      ensures (account.incomes, account.expenses) == Restore(snapshot)
    {
      this.name := name;
      account := new Account(snapshot);
    }

    /** `ver_balance()`: the account's balance. */
    function Balance(): (balance: real)
      reads account
      ensures balance == account.Balance()
      ensures Some(balance) == DetailOf(account.incomes, account.expenses).balance
    {
      account.Balance()
    }

    /** `ver_detalle()`: the account's detail, which restores to the account's lists. */
    function Detail(): (d: Movements)
      reads account
      ensures d == account.Detail()
      ensures Restore(Some(d)) == (account.incomes, account.expenses)
    {
      account.Detail()
    }

    /** `agregar_ingreso`, forwarded to the account. */
    method AddIncome(amount: real, concept: string) returns (result: Outcome<LedgerError>)
      modifies account
      ensures result == if amount > 0.0 then Pass else Fail(IncomeNotPositive)
      ensures account.incomes == if amount > 0.0 then old(account.incomes) + [Entry(concept, amount)] else old(account.incomes)
      ensures account.expenses == old(account.expenses)
      ensures Balance() == old(Balance()) + if amount > 0.0 then amount else 0.0
    {
      result := account.AddIncome(amount, concept);
    }

    /** `agregar_gasto`, forwarded to the account. */
    method AddExpense(amount: real, concept: string) returns (result: Outcome<LedgerError>)
      modifies account
      ensures result == if amount > 0.0 then Pass else Fail(ExpenseNotPositive)
      ensures account.expenses == if amount > 0.0 then old(account.expenses) + [Entry(concept, amount)] else old(account.expenses)
      ensures account.incomes == old(account.incomes)
      ensures Balance() == old(Balance()) - if amount > 0.0 then amount else 0.0
    {
      result := account.AddExpense(amount, concept);
    }
  }
}
