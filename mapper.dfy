/**
 * `UserMapper`: the MapStruct field copies between the request bodies,
 * `UserDTO`, the `User` entity and `UserResponse`. Unmapped target fields are
 * left null.
 */
module Mapper {
  import opened Wrappers
  import opened Entity
  import opened Dto

  /** `toDTO(CreateUserRequest)`. */
  function CreateRequestToDTO(req: CreateUserRequest): (dto: UserDTO) {
    UserDTO(None, req.username, req.email, req.password, None, None)
  }

  /** `toResponse(UserDTO)`. */
  function ToResponse(dto: UserDTO): (resp: UserResponse) {
    UserResponse(dto.id, dto.username, dto.email, dto.createdAt, dto.updatedAt)
  }

  /** `toDTO(User)`. */
  function ToDTO(u: UserRecord): (dto: UserDTO) {
    UserDTO(u.id, u.username, u.email, u.password, u.createdAt, u.updatedAt)
  }

  /** `toEntity(UserDTO)`: the field values of the new entity. */
  function ToEntity(dto: UserDTO): (u: UserRecord) {
    UserRecord(dto.id, dto.username, dto.email, dto.password, dto.createdAt, dto.updatedAt)
  }

  /** `toDTO(LoginRequest)`. */
  function LoginRequestToDTO(req: LoginRequest): (dto: UserDTO) {
    UserDTO(None, req.username, None, req.password, None, None)
  }

  /** `toDTO(User)` copies all six fields, the password hash included. */
  lemma ToDTOCopiesAllFields(u: UserRecord)
    ensures var d := ToDTO(u);
      && d.id == u.id && d.username == u.username && d.email == u.email
      && d.password == u.password && d.createdAt == u.createdAt && d.updatedAt == u.updatedAt
  {
  }

  /** `toEntity` and `toDTO(User)` undo each other, in both orders. */
  lemma EntityRoundTrip(d: UserDTO, u: UserRecord)
    ensures ToDTO(ToEntity(d)) == d
    ensures ToEntity(ToDTO(u)) == u
  {
  }

  /** `toResponse` copies id, username, email and both timestamps, and what
      it produces does not depend on the password at all. */
  lemma ResponseDropsPassword(d: UserDTO, otherPassword: Option<string>)
    ensures var r := ToResponse(d);
      && r.id == d.id && r.username == d.username && r.email == d.email
      && r.createdAt == d.createdAt && r.updatedAt == d.updatedAt
    ensures ToResponse(d.(password := otherPassword)) == ToResponse(d)
  {
  }

  /** `toDTO(CreateUserRequest)` sets username, email and password and leaves
      the id and both timestamps null. */
  lemma CreateRequestFields(req: CreateUserRequest)
    ensures var d := CreateRequestToDTO(req);
      && d.username == req.username && d.email == req.email && d.password == req.password
      && d.id.None? && d.createdAt.None? && d.updatedAt.None?
  {
  }

  /** `toDTO(LoginRequest)` sets only username and password. */
  lemma LoginRequestFields(req: LoginRequest)
    ensures var d := LoginRequestToDTO(req);
      && d.username == req.username && d.password == req.password
      && d.email.None? && d.id.None? && d.createdAt.None? && d.updatedAt.None?
  {
  }
}
