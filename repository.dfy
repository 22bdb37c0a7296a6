/**
 * `UserRepository`: the derived queries `findBy*` / `existsBy*` over the
 * `users` table, and the inherited `save` with the table's NOT NULL and
 * UNIQUE constraints. A null argument to a derived query on username or
 * email matches no row, since both columns are NOT NULL; `findById` and
 * `existsById` are the inherited CRUD methods and take a present id.
 */
module Repository {
  import opened Wrappers
  import opened Entity
  import opened Exceptions

  predicate HasUsername(row: UserRecord, username: Option<string>) {
    username.Some? && row.username == username
  }

  predicate HasEmail(row: UserRecord, email: Option<string>) {
    email.Some? && row.email == email
  }

  predicate HasId(row: UserRecord, id: Uuid) {
    row.id == Some(id)
  }

  /** The first row satisfying `p`, if any. */
  function FirstMatch(rows: seq<UserRecord>, p: UserRecord -> bool): (r: Option<UserRecord>)
    ensures r.Some? <==> exists i | 0 <= i < |rows| :: p(rows[i])
    ensures r.Some? ==> r.value in rows && p(r.value)
  {
    if rows == [] then None
    else if p(rows[0]) then Some(rows[0])
    else FirstMatch(rows[1..], p)
  }

  /** Every row satisfying `p`, in table order. */
  function Select(rows: seq<UserRecord>, p: UserRecord -> bool): (m: seq<UserRecord>)
    ensures |m| <= |rows|
    ensures forall x | x in m :: x in rows && p(x)
    ensures forall i | 0 <= i < |rows| && p(rows[i]) :: rows[i] in m
    ensures |m| > 0 <==> exists i | 0 <= i < |rows| :: p(rows[i])
  {
    if rows == [] then []
    else (if p(rows[0]) then [rows[0]] else []) + Select(rows[1..], p)
  }

  function FindByUsername(rows: seq<UserRecord>, username: Option<string>): (found: Option<UserRecord>) {
    FirstMatch(rows, row => HasUsername(row, username))
  }

  function FindByEmail(rows: seq<UserRecord>, email: Option<string>): (found: Option<UserRecord>) {
    FirstMatch(rows, row => HasEmail(row, email))
  }

  function FindById(rows: seq<UserRecord>, id: Uuid): (found: Option<UserRecord>) {
    FirstMatch(rows, row => HasId(row, id))
  }

  /** The outcome of a single-result query that may match several rows. */
  datatype Lookup = Absent | Found(user: UserRecord) | NonUnique

  /** The condition of the two `...OrEmail` queries. */
  predicate MatchesEither(row: UserRecord, username: Option<string>, email: Option<string>) {
    HasUsername(row, username) || HasEmail(row, email)
  }

  /** `findByUsernameOrEmail`: a single-result query, so two matching rows make
      Spring Data throw `IncorrectResultSizeDataAccessException` (`NonUnique`). */
  function FindByUsernameOrEmail(rows: seq<UserRecord>, username: Option<string>, email: Option<string>): (lookup: Lookup) {
    var m := Select(rows, row => MatchesEither(row, username, email));
    if |m| == 0 then Absent else if |m| == 1 then Found(m[0]) else NonUnique
  }

  predicate ExistsByUsername(rows: seq<UserRecord>, username: Option<string>) {
    exists i | 0 <= i < |rows| :: HasUsername(rows[i], username)
  }

  predicate ExistsByEmail(rows: seq<UserRecord>, email: Option<string>) {
    exists i | 0 <= i < |rows| :: HasEmail(rows[i], email)
  }

  predicate ExistsById(rows: seq<UserRecord>, id: Uuid) {
    exists i | 0 <= i < |rows| :: HasId(rows[i], id)
  }

  /** `existsByUsernameOrEmail`: one query with an OR of the two conditions. */
  predicate ExistsByUsernameOrEmail(rows: seq<UserRecord>, username: Option<string>, email: Option<string>) {
    exists i | 0 <= i < |rows| :: MatchesEither(rows[i], username, email)
  }

  /** The table's constraints: no NULL in a NOT NULL column, and pairwise
      distinct ids (primary key), usernames and emails (UNIQUE). */
  predicate Unique(rows: seq<UserRecord>) {
    && (forall i | 0 <= i < |rows| :: Persistable(rows[i]))
    && (forall i, j | 0 <= i < j < |rows| ::
          rows[i].id != rows[j].id && rows[i].username != rows[j].username && rows[i].email != rows[j].email)
  }

  /** The database accepts inserting `r`: no NULL where NOT NULL, and no
      existing row with the same id, username or email. */
  predicate Admissible(rows: seq<UserRecord>, r: UserRecord) {
    Persistable(r) &&
    forall i | 0 <= i < |rows| :: rows[i].id != r.id && rows[i].username != r.username && rows[i].email != r.email
  }

  /** The combined query holds exactly when one of the two single ones does. */
  lemma CombinedExistsIsDisjunction(rows: seq<UserRecord>, username: Option<string>, email: Option<string>)
    ensures ExistsByUsernameOrEmail(rows, username, email)
        <==> ExistsByUsername(rows, username) || ExistsByEmail(rows, email)
  {
  }

  /** `existsBy*` holds exactly when the matching `findBy*` finds a row. */
  lemma ExistsIffFound(rows: seq<UserRecord>, username: Option<string>, email: Option<string>, id: Uuid)
    ensures ExistsByUsername(rows, username) <==> FindByUsername(rows, username).Some?
    ensures ExistsByEmail(rows, email) <==> FindByEmail(rows, email).Some?
    ensures ExistsById(rows, id) <==> FindById(rows, id).Some?
  {
    assert FindByUsername(rows, username).Some? <==> exists i | 0 <= i < |rows| :: HasUsername(rows[i], username);
    assert FindByEmail(rows, email).Some? <==> exists i | 0 <= i < |rows| :: HasEmail(rows[i], email);
    assert FindById(rows, id).Some? <==> exists i | 0 <= i < |rows| :: HasId(rows[i], id);
  }

  /** What a `findBy*` returns carries the queried value. */
  lemma FoundRowMatches(rows: seq<UserRecord>, username: Option<string>, email: Option<string>, id: Uuid)
    ensures FindByUsername(rows, username).Some? ==>
      FindByUsername(rows, username).value in rows && FindByUsername(rows, username).value.username == username
    ensures FindByEmail(rows, email).Some? ==>
      FindByEmail(rows, email).value in rows && FindByEmail(rows, email).value.email == email
    ensures FindById(rows, id).Some? ==>
      FindById(rows, id).value in rows && FindById(rows, id).value.id == Some(id)
  {
    var u := FindByUsername(rows, username);
    assert u.Some? ==> HasUsername(u.value, username);
    var e := FindByEmail(rows, email);
    assert e.Some? ==> HasEmail(e.value, email);
    var d := FindById(rows, id);
    assert d.Some? ==> HasId(d.value, id);
  }

  /** In a table that keeps its constraints, the row `findByUsername` returns
      is the only one with that username. */
  lemma FindByUsernameIsTheOnlyMatch(rows: seq<UserRecord>, x: UserRecord)
    requires Unique(rows) && x in rows
    ensures FindByUsername(rows, x.username) == Some(x)
  {
    var r := FindByUsername(rows, x.username);
    assert HasUsername(x, x.username);
    assert r.Some? && r.value in rows && HasUsername(r.value, x.username);
    var i :| 0 <= i < |rows| && rows[i] == r.value;
    var j :| 0 <= j < |rows| && rows[j] == x;
    assert i == j;
  }

  /** Likewise for `findById`: every stored row has an id, and it finds that row. */
  lemma FindByIdIsTheOnlyMatch(rows: seq<UserRecord>, x: UserRecord)
    requires Unique(rows) && x in rows
    ensures x.id.Some? && FindById(rows, x.id.value) == Some(x)
  {
    var j :| 0 <= j < |rows| && rows[j] == x;
    assert Persistable(rows[j]);
    var r := FindById(rows, x.id.value);
    assert HasId(x, x.id.value);
    assert r.Some? && r.value in rows && HasId(r.value, x.id.value);
    var i :| 0 <= i < |rows| && rows[i] == r.value;
    assert i == j;
  }

  /** Two distinct rows satisfying `p` put at least two rows in `Select`. */
  lemma {:induction false} SelectHoldsPair(rows: seq<UserRecord>, p: UserRecord -> bool, i: nat, j: nat)
    requires i < j < |rows| && p(rows[i]) && p(rows[j])
    ensures |Select(rows, p)| >= 2
  {
    var rest := rows[1..];
    assert Select(rows, p) == (if p(rows[0]) then [rows[0]] else []) + Select(rest, p);
    if i == 0 {
      assert p(rest[j - 1]);
    } else {
      assert p(rest[i - 1]) && p(rest[j - 1]);
      SelectHoldsPair(rest, p, i - 1, j - 1);
    }
  }

  /** Two rows in `Select` come from two distinct rows satisfying `p`. */
  lemma {:induction false} PairOfSelect(rows: seq<UserRecord>, p: UserRecord -> bool) returns (i: nat, j: nat)
    requires |Select(rows, p)| >= 2
    ensures i < j < |rows| && p(rows[i]) && p(rows[j])
  {
    var rest := rows[1..];
    assert Select(rows, p) == (if p(rows[0]) then [rows[0]] else []) + Select(rest, p);
    if p(rows[0]) {
      var k :| 0 <= k < |rest| && p(rest[k]);
      i, j := 0, k + 1;
    } else {
      var i', j' := PairOfSelect(rest, p);
      i, j := i' + 1, j' + 1;
    }
  }

  /** `findByUsernameOrEmail` returns nothing exactly when
      `existsByUsernameOrEmail` is false. */
  lemma FindByUsernameOrEmailPresence(rows: seq<UserRecord>, username: Option<string>, email: Option<string>)
    ensures FindByUsernameOrEmail(rows, username, email).Absent? <==> !ExistsByUsernameOrEmail(rows, username, email)
  {
    var p := row => MatchesEither(row, username, email);
    assert |Select(rows, p)| > 0 <==> exists i | 0 <= i < |rows| :: p(rows[i]);
  }

  /** `findByUsernameOrEmail` fails as non-unique exactly when two distinct
      rows match. */
  lemma FindByUsernameOrEmailNonUnique(rows: seq<UserRecord>, username: Option<string>, email: Option<string>)
    ensures FindByUsernameOrEmail(rows, username, email).NonUnique? <==>
      exists i, j | 0 <= i < j < |rows| :: MatchesEither(rows[i], username, email) && MatchesEither(rows[j], username, email)
  {
    var p := row => MatchesEither(row, username, email);
    if |Select(rows, p)| >= 2 {
      var i, j := PairOfSelect(rows, p);
      assert MatchesEither(rows[i], username, email) && MatchesEither(rows[j], username, email);
    }
    if exists i, j | 0 <= i < j < |rows| :: MatchesEither(rows[i], username, email) && MatchesEither(rows[j], username, email) {
      var i, j :| 0 <= i < j < |rows| && MatchesEither(rows[i], username, email) && MatchesEither(rows[j], username, email);
      SelectHoldsPair(rows, p, i, j);
    }
  }

  /** `findByUsernameOrEmail` finds a row exactly when one row matches, and
      the row found is that one. */
  lemma FindByUsernameOrEmailFound(rows: seq<UserRecord>, username: Option<string>, email: Option<string>)
    ensures FindByUsernameOrEmail(rows, username, email).Found? <==>
      && ExistsByUsernameOrEmail(rows, username, email)
      && forall i, j | 0 <= i < |rows| && 0 <= j < |rows| &&
           MatchesEither(rows[i], username, email) && MatchesEither(rows[j], username, email) :: i == j
    ensures FindByUsernameOrEmail(rows, username, email).Found? ==>
      var x := FindByUsernameOrEmail(rows, username, email).user;
      && x in rows && MatchesEither(x, username, email)
      && forall i | 0 <= i < |rows| && MatchesEither(rows[i], username, email) :: rows[i] == x
  {
    FindByUsernameOrEmailPresence(rows, username, email);
    FindByUsernameOrEmailNonUnique(rows, username, email);
    var p := row => MatchesEither(row, username, email);
    var m := Select(rows, p);
    if |m| == 1 {
      assert m[0] in m;
      forall i | 0 <= i < |rows| && MatchesEither(rows[i], username, email) ensures rows[i] == m[0] {
        assert rows[i] in m;
      }
    }
  }

  /** Even in a table that keeps its constraints, one row holding the username
      and another holding the email make `findByUsernameOrEmail` non-unique. */
  lemma FindByUsernameOrEmailCanBeNonUnique()
    ensures var rows := [
        UserRecord(Some(Uuid("1")), Some("ann"), Some("a@x"), Some("h"), None, None),
        UserRecord(Some(Uuid("2")), Some("bob"), Some("b@x"), Some("h"), None, None)];
      Unique(rows) && FindByUsernameOrEmail(rows, Some("ann"), Some("b@x")) == NonUnique
  {
    var rows := [
        UserRecord(Some(Uuid("1")), Some("ann"), Some("a@x"), Some("h"), None, None),
        UserRecord(Some(Uuid("2")), Some("bob"), Some("b@x"), Some("h"), None, None)];
    var p := row => MatchesEither(row, Some("ann"), Some("b@x"));
    assert Select(rows, p) == [rows[0]] + Select(rows[1..], p);
    assert Select(rows[1..], p) == [rows[1]] + Select(rows[2..], p);
  }

  /** Inserting an admissible row keeps the table's constraints. */
  lemma InsertKeepsUnique(rows: seq<UserRecord>, r: UserRecord)
    requires Unique(rows) && Admissible(rows, r)
    ensures Unique(rows + [r])
  {
    var t := rows + [r];
    forall i, j | 0 <= i < j < |t|
      ensures t[i].id != t[j].id && t[i].username != t[j].username && t[i].email != t[j].email
    {
      if j == |rows| { assert t[j] == r && t[i] == rows[i]; }
    }
  }

  /** The exception text of a refused insert. The real text is the JDBC
      driver's; this constant only stands in for it. */
  const ConstraintViolation := "could not execute statement: constraint violation on table users"

  /** The `users` table, with the inherited JPA `save` of a new entity. */
  class UserStore {
    var rows: seq<UserRecord>

    ghost predicate Valid()
      reads this
    {
      Unique(rows)
    }

    constructor ()
      ensures Valid() && rows == []
    {
      rows := [];
    }

    /** `save` of a new entity (its id still null): `@PrePersist onCreate` runs
        with two clock readings, the id generator supplies `newId`, and the
        row is inserted if the constraints allow it; otherwise the insert
        fails and the table is unchanged. */
    method Save(user: User, newId: Uuid, first: Instant, second: Instant)
        returns (saved: Result<UserRecord, ServiceException>)
      requires Valid() && user.id.None?
      modifies this, user
      ensures Valid()
      ensures user.Record() == Created(old(user.Record()), first, second).(id := Some(newId))
      ensures saved.Success? <==> Admissible(old(rows), user.Record())
      ensures saved.Success? ==> saved.value == user.Record() && rows == old(rows) + [saved.value]
      ensures saved.Failure? ==> saved.error == DataIntegrityViolation(ConstraintViolation) && rows == old(rows)
    {
      user.OnCreate(first, second);
      user.SetId(Some(newId));
      var row := user.Record();
      if Admissible(rows, row) {
        InsertKeepsUnique(rows, row);
        rows := rows + [row];
        saved := Success(row);
      } else {
        saved := Failure(DataIntegrityViolation(ConstraintViolation));
      }
    }
  }
}
