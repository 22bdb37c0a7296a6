/**
 * `UserServiceImpl`: registration, lookup by id and login over the `users`
 * table. The password encoder, the token provider, the id generator and the
 * clock are collaborators given to the service or to each call.
 */
module Service {
  import opened Wrappers
  import opened Entity
  import opened Dto
  import opened Exceptions
  import opened Repository
  import opened Mapper

  /** The outcome of a registration and the table it leaves. */
  datatype Registration = Registration(result: Result<UserDTO, ServiceException>, rows: seq<UserRecord>)

  /** The row `createUser` saves: the DTO's fields with the password encoded,
      the generated id, and the two `onCreate` clock readings. */
  function NewUserRecord(dto: UserDTO, encode: string -> string, newId: Uuid, first: Instant, second: Instant): (saved: UserRecord)
    requires dto.id.None? && dto.password.Some?
  {
    Created(ToEntity(dto).(password := Some(encode(dto.password.value))), first, second).(id := Some(newId))
  }

  /** `createUser` on a table `rows`: the combined pre-check, then the
      per-field report (email first), then the save, which the table's
      constraints may still refuse (a null username or email, or a clash
      on the generated id). */
  function Register(rows: seq<UserRecord>, dto: UserDTO, encode: string -> string,
                    newId: Uuid, first: Instant, second: Instant): (reg: Registration)
    requires dto.id.None? && dto.password.Some?
  {
    if ExistsByUsernameOrEmail(rows, dto.username, dto.email) && ExistsByEmail(rows, dto.email) then
      Registration(Failure(ResourceAlreadyExists("Email already exists")), rows)
    else if ExistsByUsernameOrEmail(rows, dto.username, dto.email) && ExistsByUsername(rows, dto.username) then
      Registration(Failure(ResourceAlreadyExists("Username already exists")), rows)
    else
      var saved := NewUserRecord(dto, encode, newId, first, second);
      if Admissible(rows, saved) then Registration(Success(ToDTO(saved)), rows + [saved])
      else Registration(Failure(DataIntegrityViolation(ConstraintViolation)), rows)
  }

  /** A taken email is reported, even when the username is taken too, and
      the table is left as it was. */
  lemma RegisterEmailTaken(rows: seq<UserRecord>, dto: UserDTO, encode: string -> string,
                           newId: Uuid, first: Instant, second: Instant)
    requires dto.id.None? && dto.password.Some? && ExistsByEmail(rows, dto.email)
    ensures Register(rows, dto, encode, newId, first, second)
         == Registration(Failure(ResourceAlreadyExists("Email already exists")), rows)
  {
    CombinedExistsIsDisjunction(rows, dto.username, dto.email);
  }

  /** A taken username with a free email is reported, and the table is left as it was. */
  lemma RegisterUsernameTaken(rows: seq<UserRecord>, dto: UserDTO, encode: string -> string,
                              newId: Uuid, first: Instant, second: Instant)
    requires dto.id.None? && dto.password.Some? && !ExistsByEmail(rows, dto.email) && ExistsByUsername(rows, dto.username)
    ensures Register(rows, dto, encode, newId, first, second)
         == Registration(Failure(ResourceAlreadyExists("Username already exists")), rows)
  {
    CombinedExistsIsDisjunction(rows, dto.username, dto.email);
  }

  /** When the combined check holds, one of the two reports always follows:
      the path that falls through to the save is unreachable. */
  lemma RegisterNeverFallsThrough(rows: seq<UserRecord>, dto: UserDTO, encode: string -> string,
                                  newId: Uuid, first: Instant, second: Instant)
    requires dto.id.None? && dto.password.Some? && ExistsByUsernameOrEmail(rows, dto.username, dto.email)
    ensures var reg := Register(rows, dto, encode, newId, first, second);
      reg.result.Failure? && reg.result.error.ResourceAlreadyExists? && reg.rows == rows
  {
    CombinedExistsIsDisjunction(rows, dto.username, dto.email);
  }

  /** With username and email both present and free, and an unused id, the
      table grows by exactly one row holding them, the encoded password, the
      generated id and the clock readings, and the DTO returned is that row's. */
  lemma RegisterSucceeds(rows: seq<UserRecord>, dto: UserDTO, encode: string -> string,
                         newId: Uuid, first: Instant, second: Instant)
    requires dto.id.None? && dto.username.Some? && dto.email.Some? && dto.password.Some?
    requires !ExistsByUsername(rows, dto.username) && !ExistsByEmail(rows, dto.email)
    requires !ExistsById(rows, newId)
    ensures var reg := Register(rows, dto, encode, newId, first, second);
      && |reg.rows| == |rows| + 1 && reg.rows[..|rows|] == rows
      && var saved := reg.rows[|rows|];
      && saved.id == Some(newId)
      && saved.username == dto.username && saved.email == dto.email
      && saved.password == Some(encode(dto.password.value))
      && saved.createdAt == Some(first) && saved.updatedAt == Some(second)
      && reg.result == Success(ToDTO(saved))
  {
    CombinedExistsIsDisjunction(rows, dto.username, dto.email);
    var saved := NewUserRecord(dto, encode, newId, first, second);
    assert Admissible(rows, saved) by {
      forall i | 0 <= i < |rows|
        ensures rows[i].id != saved.id && rows[i].username != saved.username && rows[i].email != saved.email
      {
        assert !HasId(rows[i], newId);
        assert !HasUsername(rows[i], dto.username) && !HasEmail(rows[i], dto.email);
      }
    }
    var reg := Register(rows, dto, encode, newId, first, second);
    assert reg.rows == rows + [saved];
    assert reg.rows[..|rows|] == rows;
  }

  /** Past the pre-check, a missing username or email, or a generated id
      already in use, makes the insert fail on the table's constraints, and
      the table is left as it was. */
  lemma RegisterRefusedByConstraints(rows: seq<UserRecord>, dto: UserDTO, encode: string -> string,
                                     newId: Uuid, first: Instant, second: Instant)
    requires dto.id.None? && dto.password.Some?
    requires !ExistsByUsernameOrEmail(rows, dto.username, dto.email)
    requires dto.username.None? || dto.email.None? || ExistsById(rows, newId)
    ensures Register(rows, dto, encode, newId, first, second)
         == Registration(Failure(DataIntegrityViolation(ConstraintViolation)), rows)
  {
    CombinedExistsIsDisjunction(rows, dto.username, dto.email);
    if ExistsById(rows, newId) {
      var i :| 0 <= i < |rows| && HasId(rows[i], newId);
      assert rows[i].id == NewUserRecord(dto, encode, newId, first, second).id;
    }
  }

  /** Registration keeps every row's NOT NULL columns set and ids, usernames
      and emails pairwise distinct, whatever the request. */
  lemma RegisterKeepsUnique(rows: seq<UserRecord>, dto: UserDTO, encode: string -> string,
                            newId: Uuid, first: Instant, second: Instant)
    requires Unique(rows)
    requires dto.id.None? && dto.password.Some?
    ensures Unique(Register(rows, dto, encode, newId, first, second).rows)
  {
    var saved := NewUserRecord(dto, encode, newId, first, second);
    if Admissible(rows, saved) {
      InsertKeepsUnique(rows, saved);
    }
  }

  /** The service, with its injected collaborators. */
  class UserServiceImpl {
    const store: UserStore
    const encode: string -> string
    const matches: (string, string) -> bool
    const generateToken: (UserRecord, Instant) -> string

    constructor (store: UserStore, encode: string -> string, matches: (string, string) -> bool,
                 generateToken: (UserRecord, Instant) -> string)
      ensures this.store == store && this.encode == encode
      ensures this.matches == matches && this.generateToken == generateToken
    {
      this.store := store;
      this.encode := encode;
      this.matches := matches;
      this.generateToken := generateToken;
    }

    /** `createUser`, with the id the generator supplies and the two clock
        readings `onCreate` takes. */
    method CreateUser(dto: UserDTO, newId: Uuid, first: Instant, second: Instant)
        returns (r: Result<UserDTO, ServiceException>)
      requires store.Valid()
      requires dto.id.None? && dto.password.Some?
      modifies store
      ensures store.Valid()
      ensures Registration(r, store.rows) == Register(old(store.rows), dto, encode, newId, first, second)
    {
      CombinedExistsIsDisjunction(store.rows, dto.username, dto.email);
      if ExistsByUsernameOrEmail(store.rows, dto.username, dto.email) {
        if ExistsByEmail(store.rows, dto.email) {
          return Failure(ResourceAlreadyExists("Email already exists"));
        } else if ExistsByUsername(store.rows, dto.username) {
          return Failure(ResourceAlreadyExists("Username already exists"));
        }
      }
      var user := new User(ToEntity(dto));
      user.SetPassword(Some(encode(user.password.value)));
      assert user.Record() == ToEntity(dto).(password := Some(encode(dto.password.value)));
      var saved := store.Save(user, newId, first, second);
      match saved {
        case Success(row) => r := Success(ToDTO(row));
        case Failure(e) => r := Failure(e);
      }
    }

    /** `getUserById`: the DTO of the row with that id, or not-found. */
    method GetUserById(id: Uuid) returns (r: Result<UserDTO, ServiceException>)
      requires store.Valid()
      ensures r.Success? <==> ExistsById(store.rows, id)
      ensures forall row | row in store.rows && row.id == Some(id) :: r == Success(ToDTO(row))
      ensures r.Failure? ==> r.error == ResourceNotFound("User not found with id: " + id.text)
    {
      ExistsIffFound(store.rows, None, None, id);
      FoundRowMatches(store.rows, None, None, id);
      var found := FindById(store.rows, id);
      match found {
        case None =>
          r := Failure(ResourceNotFound("User not found with id: " + id.text));
        case Some(user) =>
          FindByIdIsTheOnlyMatch(store.rows, user);
          r := Success(ToDTO(user));
      }
    }

    /** `authenticateUser`: look the user up by username, check the password,
        and issue a token at clock reading `now`. */
    method AuthenticateUser(dto: UserDTO, now: Instant) returns (r: Result<AuthResponse, ServiceException>)
      requires store.Valid() && dto.username.Some? && dto.password.Some?
      ensures !ExistsByUsername(store.rows, dto.username) ==>
        r == Failure(ResourceNotFound("User not found with username: " + dto.username.value))
      ensures forall user | user in store.rows && user.username == dto.username ::
        && user.password.Some?
        && r == if matches(dto.password.value, user.password.value)
                then Success(BuildAuthResponse(generateToken(user, now), ToResponse(ToDTO(user))))
                else Failure(BadCredentials("Invalid password"))
    {
      ExistsIffFound(store.rows, dto.username, None, Uuid(""));
      FoundRowMatches(store.rows, dto.username, None, Uuid(""));
      var found := FindByUsername(store.rows, dto.username);
      if found.None? {
        return Failure(ResourceNotFound("User not found with username: " + dto.username.value));
      }
      var user := found.value;
      FindByUsernameIsTheOnlyMatch(store.rows, user);
      if !matches(dto.password.value, user.password.value) {
        return Failure(BadCredentials("Invalid password"));
      }
      var token := generateToken(user, now);
      r := Success(BuildAuthResponse(token, ToResponse(ToDTO(user))));
    }
  }
}
