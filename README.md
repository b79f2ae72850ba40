# Personal ledger: accounts, sign-in and entry recording

A Dafny model of the bookkeeping core of a small Flask finance tracker
(`app.py`). Each user keeps two ordered lists of entries, income (`ingresos`)
and expenses (`gastos`), each entry being a concept and an amount; the balance
is total income minus total expenses. Users register and sign in with a
password. All user records live in one JSON document, and every accepted entry
rewrites that user's `movimientos` with the ledger's current detail.

Modules:

- `Wrappers` (wrappers.dfy): `Option` and a pass/fail `Outcome`.
- `Text` (text.dfy): `str.strip()` over Python's exact whitespace code points.
- `Ledger` (ledger.dfy): `Entry`, the recursive `Sum`, the stored snapshot
  `Movements`, and the two classes of the source. `Account` is `Cuenta`: its
  entry lists are `seq` fields that `AddIncome` / `AddExpense` append to in
  place. `User` is `Usuario`: a name plus an `Account`, with every method
  forwarded. `Account.Balance()` / `Account.Detail()` (`calcular_balance`,
  `obtener_detalle`) and their `User` forwards (`ver_balance`, `ver_detalle`)
  read the state through the value-level functions `BalanceOf` and `DetailOf`.
- `Storage` (storage.dfy): the user document as a `map` from name to
  `UserRecord`, and the reading fallback of `cargar_usuarios`.
- `Auth` (auth.dfy): the decision the `login` handler takes on a submitted form.
  `Decide` works on the stripped fields, and `Submit` strips the raw ones first.
  It returns the document to write back (if any) and the outcome.
- `Dashboard` (dashboard.dfy): the add-entry rule of the `dashboard` handler,
  as written and corrected (see Findings).
- `Scenario` (scenario.dfy): one session of register, sign-in, two entries, a
  refused entry and a refused password.

Amounts are Python floats in the source and `real` here. Password hashing is
outside the model. The hash `generate_password_hash` would produce is a
parameter (it is salted, so not a function of the password), and
`check_password_hash` is a parameter `checkHash: (string, string) -> bool`.

`agregar_ingreso` and `agregar_gasto` only ever add positive amounts
(app.py:26-34), but the constructor does not check the entries it loads
(app.py:19-21), so a stored non-positive entry is loaded as it is
(`Ledger.RestoreAcceptsNonPositive`). The comment at app.py:174 says the
document is saved only when there is no error, so an entry is either recorded
and saved or nothing changes. The code breaks this when the user's record is
missing from the document (see Findings).

## Model

| member | source | states |
|---|---|---|
| `Text.Strip` | app.py:102-103 | the result is the field with only its leading and trailing whitespace removed: a blank prefix and a blank suffix are cut and the middle is kept as it is; it is empty exactly when the field is all whitespace, and otherwise starts and ends with a non-space character |
| `Text.StripKeepsTrimmed` | app.py:102-103 | a field with no whitespace at either end is unchanged by stripping, so stripping is idempotent on such fields |
| `Ledger.Sum` | app.py:37-38 | the total of entries whose amounts are all positive is non-negative, and strictly positive when there is at least one entry |
| `Ledger.SumAppend` | app.py:45-46 | appending one entry adds exactly its amount to the total |
| `Ledger.BalanceAfterIncome` | app.py:36-39 | adding an income entry raises the balance by exactly its amount |
| `Ledger.BalanceAfterExpense` | app.py:36-39 | adding an expense entry lowers the balance by exactly its amount |
| `Ledger.BalanceOf` | app.py:36-39 | total income minus total expenses; with positive entries it lies between minus the expense total and the income total; an accepted entry moves it by exactly its amount (`BalanceAfterIncome`, `BalanceAfterExpense`) |
| `Ledger.Restore` | app.py:18-24 | a stored list is taken unchanged; a missing key, a missing snapshot or an empty snapshot gives an empty list |
| `Ledger.DetailOf` | app.py:41-48 | the detail carries both lists unchanged and both totals, its balance equals total income minus total expenses, and restoring a ledger from it gives back the same two lists |
| `Ledger.SnapshotRoundTrip` | app.py:18-48 | a ledger rebuilt from another ledger's detail has identical lists; the total and balance keys are ignored |
| `Ledger.RestoreAcceptsNonPositive` | app.py:18-21 | loading a snapshot does not check amounts: a non-positive stored entry is loaded |
| `Ledger.Account.constructor` | app.py:18-24 | a new account holds exactly the lists restored from the snapshot |
| `Ledger.Account.Balance` | app.py:36-39 | the account's balance is the one its detail reports, and lies between minus the expense total and the income total when all entries are positive |
| `Ledger.Account.Detail` | app.py:41-48 | the account's current lists as they are, a balance equal to `Balance()`, and a snapshot the constructor restores to exactly this ledger |
| `Ledger.Account.AddIncome` | app.py:26-29 | a non-positive amount fails and changes nothing; otherwise the income list gains exactly that entry at the end, expenses are unchanged, the balance rises by the amount, and all-positive income stays all-positive |
| `Ledger.Account.AddExpense` | app.py:31-34 | symmetric to `AddIncome` on the expense list; the balance falls by the amount |
| `Ledger.User.constructor` | app.py:51-53 | a user has the given name and a fresh account restored from the snapshot |
| `Ledger.User.Balance` | app.py:61-62 | the user's balance is the account's balance, the one its detail reports |
| `Ledger.User.Detail` | app.py:64-65 | the user's detail is the account's detail and restores to the account's lists |
| `Ledger.User.AddIncome` | app.py:55-56 | the same outcome and new ledger as the account's `AddIncome` |
| `Ledger.User.AddExpense` | app.py:58-59 | the same outcome and new ledger as the account's `AddExpense` |
| `Storage.LoadStore` | app.py:68-78 | a missing, blank or unparsable document reads as no users; otherwise the parsed document is returned |
| `Storage.StoredMovements` | app.py:151-154 | an unknown user's ledger is rebuilt empty; a known user's from their stored `movimientos` |
| `Auth.Decide` | app.py:106-139 | an empty field is refused before any lookup. Login writes nothing and succeeds exactly when the user exists and the hash check accepts; otherwise it reports unknown user or wrong password. Register fails on an existing name; otherwise it adds exactly one record with an empty ledger, keeps every other record and writes the document |
| `Auth.Submit` | app.py:102-109 | a field of whitespace only is refused as incomplete, whatever the document holds; a sign-in always has two non-blank fields |
| `Auth.SubmitKeepsExistingRecords` | app.py:126-135 | no submission changes or removes a record already in the document |
| `Auth.SignedInLedgerMatchesStore` | app.py:113-139 | a signed-in user's in-memory ledger restores to exactly what the document holds for them; after registration it is empty |
| `Auth.RegisterThenLogin` | app.py:113-135 | after a registration, a login with the same credentials succeeds with an empty ledger, when the checker accepts the password against its stored hash |
| `Auth.RegisterAddsOneUser` | app.py:131-134 | a registration grows the document by exactly one user |
| `Dashboard.WithDetail` | app.py:175-177 | the written document replaces only the user's `movimientos`, keeping their password hash and every other record |
| `Dashboard.PostEntryAsWritten` | app.py:159-180 | as written: an unparsable or non-positive amount is refused with nothing changed; "ingreso" appends to income, any other type to expenses; the document is written, or a `KeyError` escapes after the ledger has changed |
| `Dashboard.PartialUpdateWitness` | app.py:169-176 | a user whose record is missing posts income 100: the request fails, yet the ledger in memory keeps the entry |
| `Dashboard.PostEntry` | app.py:159-180 | corrected: the entry is either added and the written document rebuilds exactly the live ledger, or the request is refused (not a number, not positive, missing record) and nothing changes; the balance moves by the amount in the entry's direction |
| `Scenario.AnaSession` | app.py:106-180 | register ana/pw1, login, +100 income, +30 expense gives totals 100 / 30 and balance 70; an expense of -5 is refused and the balance stays 70; a wrong password is refused with the message "Contraseña incorrecta." and nothing is written |

## Left out

- HTTP routing, templates, redirects, GET requests, the logout route and the session cookie are not modelled. A sign-in is the outcome `SignedIn(name, movements)`. This outcome stands for setting the session and placing the new `Usuario` in the cache.
- Password hashing (werkzeug) is foreign code. The new hash and the checker are parameters.
- JSON text and file I/O are not modelled. `json.loads` is a parameter of `Storage.LoadStore`, and writing the document (`guardar_usuarios`) is the `written` / `Saved` result. Documents whose top level is not an object, `null` lists, and records without a `"password"` key are outside the model.
- Floating point is not modelled: amounts are `real`. This leaves out rounding in sums. It also leaves out `float("nan")` and `float("inf")`, which the `monto <= 0` guard lets through.
- The process-wide cache `usuarios_objetos` is not modelled. The dashboard methods receive the user object. Rebuilding it from the document on a cache miss is `Storage.StoredMovements`.
- Concurrent requests and the lost update between load and save are not modelled: the model is sequential.
- Aliasing is not modelled. In Python, `Cuenta` shares its lists with the loaded dictionary, and the written document shares them with the ledger until it is serialised. The model copies values.
- The `ValueError` text that `float()` raises for non-numeric input is not modelled. The model reports only `NotANumber`.
- The concept suggestion lists are not modelled: they are only shown in the form and never checked. A missing `concepto` field (Python `None`) is not modelled either; concepts are strings.
- A missing `accion` field is treated like any other action that is neither "login" nor "register".
- Server start-up and port selection are not modelled.

## Findings

| source | as written | input that shows it | evidently intended | confidence | as-written member | corrected member |
|---|---|---|---|---|---|---|
| app.py:169-176 | the entry is appended to the cached ledger before `usuarios[usuario_actual]` is looked up. When the record is missing from the document, the `KeyError` escapes the `except ValueError`, nothing is written, and the in-memory ledger keeps the entry. | a signed-in "ana" whose record is no longer in the document (the file was lost or reset) posts `tipo="ingreso"`, `monto="100"` | an entry is either recorded and persisted or nothing changes; check the record before touching the ledger | medium, not executed | `Dashboard.PartialUpdateWitness` | `Dashboard.PostEntry` |
