/** Rows shared by several data-layer managers, and the shape of their
    results.

    Each table is a sequence of rows in insertion order. Timestamps are
    integers supplied by the caller (the database clock is a parameter), and
    money is in integer cents. */
module Tables {
  import opened Wrappers
  import opened Seqs

  /** What a manager call returns: `{success: true, …}` with its payload,
      `{success: false, message}` for a refusal the code spells out, or
      `{success: false, error}` when the database call threw. */
  datatype Outcome<+T> = Done(value: T) | Refused(message: string) | Failed

  /** A row of `inventory`. The favourites queries read a dietary column
      under another name than the inventory queries; both are `dietary`. */
  datatype Meal = Meal(
    mealId: int, name: string, description: string, quantity: int, price: int,
    category: string, dietary: string, isActive: bool, createdAt: int)

  /** A row of `account`; nullable columns are `Option`s. */
  datatype Account = Account(
    userId: int, username: string, passwordHash: string, email: Option<string>,
    firstName: Option<string>, lastName: Option<string>, phone: Option<string>,
    address: Option<string>, role: string, updatedAt: int)

  /** The columns of an account a manager hands back to its caller: every
      one but the password hash and the role. */
  datatype PublicAccount = PublicAccount(
    userId: int, username: string, email: Option<string>,
    firstName: Option<string>, lastName: Option<string>, phone: Option<string>, address: Option<string>)

  /** The public columns of an account. */
  function Public(a: Account): (v: PublicAccount)
    ensures v.userId == a.userId && v.username == a.username && v.email == a.email
  {
    PublicAccount(a.userId, a.username, a.email, a.firstName, a.lastName, a.phone, a.address)
  }

  /** What a caller sees of an account does not depend on its password hash
      or its role. */
  lemma PublicHidesSecrets(a: Account, hash: string, role: string)
    ensures Public(a.(passwordHash := hash, role := role)) == Public(a)
  {
  }

  /** The largest value of a PostgreSQL `integer` (`int4`) column. */
  const Int4Max := 2147483647

  /** Whether a value fits an `integer` column or parameter; arithmetic that
      leaves this range, or a parameter compared with an `integer` column
      that lies outside it, makes the query raise "integer out of range". */
  predicate IsInt4(n: int) {
    -Int4Max - 1 <= n <= Int4Max
  }

  /** A nullable text column compared with `col = $1`: SQL `NULL` equals
      nothing. */
  predicate SqlEq(col: Option<string>, v: string) {
    col.Some? && col.value == v
  }

  /** JavaScript truthiness of an optional string (`""` is falsy). */
  predicate TruthyText(s: Option<string>) {
    s.Some? && s.value != ""
  }

  /** JavaScript truthiness of an optional number (`0` and `NaN`, which is
      `None` here, are falsy). */
  predicate TruthyInt(n: Option<int>) {
    n.Some? && n.value != 0
  }

  /** A guarded `UPDATE … WHERE … RETURNING`: every row satisfying `p` is
      rewritten by `f` and the first rewritten row is reported; no matching
      row is the refusal `message`, and a database error changes nothing. */
  function GuardedUpdate<T>(rows: seq<T>, p: T -> bool, f: T -> T, message: string, up: bool): (r: (seq<T>, Outcome<T>))
    ensures r.1.Failed? <==> !up
    ensures r.1.Done? <==> up && exists i :: 0 <= i < |rows| && p(rows[i])
    ensures r.1.Refused? ==> r.1.message == message
    ensures !r.1.Done? ==> r.0 == rows
    ensures r.1.Done? ==> r.0 == SetWhere(rows, p, f)
    ensures r.1.Done? ==> exists i :: 0 <= i < |rows| && p(rows[i]) && r.1.value == f(rows[i])
  {
    if !up then (rows, Failed)
    else match FirstIndex(rows, p)
      case None => (rows, Refused(message))
      case Some(k) => (SetWhere(rows, p, f), Done(f(rows[k])))
  }
}
