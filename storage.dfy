/**
 * The user document of app.py: a dictionary from user name to
 * `{"password": <hash>, "movimientos": {...}}`, read back by `cargar_usuarios`.
 * The JSON text itself is not modelled; parsing is a parameter.
 */
module Storage {
  import opened Wrappers
  import opened Text
  import opened Ledger

  /** One stored user; `movements` is `None` when the key is absent. */
  datatype UserRecord = UserRecord(passwordHash: string, movements: Option<Movements>)

  /** All stored users, keyed by name. */
  type Store = map<string, UserRecord>

  /** The backing file: absent, or present with its text. */
  datatype Document = Absent | Present(content: string)

  /**
   * `cargar_usuarios()`: `parse` stands for `json.loads` and yields `None`
   * where it would raise `JSONDecodeError`. A missing file, a blank file and
   * malformed content all read as no users.
   */
  function LoadStore(doc: Document, parse: string -> Option<Store>): (users: Store)
    ensures doc.Absent? || Blank(doc.content) ==> users == map[]
    ensures doc.Present? && !Blank(doc.content) && parse(Strip(doc.content)).None? ==> users == map[]
    ensures doc.Present? && !Blank(doc.content) && parse(Strip(doc.content)).Some? ==> users == parse(Strip(doc.content)).value
  {
    match doc
    case Absent => map[]
    case Present(content) =>
      var text := Strip(content);
      if text == [] then map[]
      else match parse(text)
        case None => map[]
        case Some(users) => users
  }

  /**
   * The snapshot the dashboard rebuilds a user's ledger from when it has none
   * in memory: the stored `movimientos`, or nothing for an unknown user.
   */
  function StoredMovements(users: Store, name: string): (snapshot: Option<Movements>)
    ensures name !in users ==> Restore(snapshot) == ([], [])
    ensures name in users ==> snapshot == users[name].movements
  {
    if name in users then users[name].movements else None
  }
}
