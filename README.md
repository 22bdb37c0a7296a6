# user-service identity core, in Dafny

This project models the identity core of the expense tracker's `user-service`:

- registration (`createUser`), lookup by id (`getUserById`) and login (`authenticateUser`) in `UserServiceImpl`;
- the `users` table behind `UserRepository`, with its unique columns and the `User` entity's lifecycle callbacks;
- the MapStruct `UserMapper`;
- the bean-validation rules on `CreateUserRequest` and `LoginRequest`;
- the `GlobalExceptionHandler` that turns failures into `ErrorResponse` bodies;
- the `JwtAuthenticationFilter` and the `SecurityConfig` authorization rules through which every request passes.

Modules follow the source:

| module | models |
|---|---|
| `Wrappers` | `Option`/`Result` |
| `JavaText` | the `String`/`StringUtils` operations the source relies on |
| `Entity` | `User` |
| `Dto` | the DTOs |
| `Mapper` | `UserMapper` |
| `Exceptions` | the service exceptions |
| `Repository` | `UserRepository` and the table |
| `Validation` | the two request classes |
| `ExceptionHandler` | `GlobalExceptionHandler` |
| `PathMatching` | the `AntPathMatcher` patterns in use |
| `Filter` | `JwtAuthenticationFilter` |
| `Security` | `SecurityConfig` |
| `Service` | `UserServiceImpl` |
| `Scenarios` | properties that cross components |

Parts of the source that update objects in place are classes:
- the `User` entity;
- the table, `UserStore`, whose `Save` assigns the id, runs `onCreate` and enforces the unique constraints;
- the per-request `SecurityContext`;
- `UserServiceImpl`, which changes state only through the store it holds.

Three groups of methods are tied to pure functions of the old state, and the properties are proved about those functions:
- `CreateUser` to `Register`;
- `ServeRequest` to `Serve`, for one request through the chain;
- the entity methods to `Created`, `Touched` and record updates.

`GetUserById` and `AuthenticateUser` change nothing. Their `ensures` state the result directly in terms of the table's rows. Mappers, validation and the exception handler are functions.

Collaborators the source calls but does not define are parameters:
- the BCrypt encoder: `encode`, `matches`;
- the JWT provider: `generateToken`, `validate`, `subjectOf`;
- `loadUserByUsername`;
- the `@Email` check;
- the UUIDv7 generator: the fresh id passed to `CreateUser`;
- `LocalDateTime.now()`: clock readings passed in.

Where the code and the documentation differ, the model follows the code:

- **Login failure statuses.** The login endpoint documents 401 for failures (`user-service/src/main/java/com/expensetracker/userservice/controller/UserController.java:83`). The code answers differently. An unknown username raises `ResourceNotFoundException` and gets 404. A wrong password raises `BadCredentialsException`, which only the generic handler catches, so it gets 500. See `Scenarios.LoginFailureStatuses`.
- **Password size message.** The message says "between 3 and 50 characters", but the bound enforced is 8 to 50.
- **Password pattern and line terminators.** The pattern uses `.`, which excludes line terminators in Java regular expressions. So a password containing one never matches, even though the pattern otherwise allows any character.
- **`findByUsernameOrEmail`.** It can match two different rows, one by username and one by email. Spring Data then throws instead of returning one, and `Repository.FindByUsernameOrEmail` returns `NonUnique`.
- **The unreachable fall-through in `createUser`.** When the combined existence check holds, one of the two per-field reports always follows, so this path never runs.

## Model

| member | source | states |
|---|---|---|
| Service.UserServiceImpl.CreateUser | user-service/src/main/java/com/expensetracker/userservice/service/UserServiceImpl.java:33-55 | The returned result and the new table are exactly what `Register` gives on the old table, including a save the constraints refuse; the table's uniqueness invariant is kept |
| Service.RegisterEmailTaken | user-service/src/main/java/com/expensetracker/userservice/service/UserServiceImpl.java:35-38 | A taken email is reported as "Email already exists" (even if the username is taken too), with the table unchanged |
| Service.RegisterUsernameTaken | user-service/src/main/java/com/expensetracker/userservice/service/UserServiceImpl.java:35-41 | A taken username, with the email free, is reported as "Username already exists", with the table unchanged |
| Service.RegisterNeverFallsThrough | user-service/src/main/java/com/expensetracker/userservice/service/UserServiceImpl.java:35-42 | Whenever the combined username-or-email check holds, registration fails with ResourceAlreadyExists and leaves the table alone |
| Service.RegisterSucceeds | user-service/src/main/java/com/expensetracker/userservice/service/UserServiceImpl.java:44-54 | With username and email present and free and an unused generated id, exactly one row is appended and the old rows stay as a prefix. The row holds the DTO's username and email, the encoded password, the generated id and the two onCreate readings. The result is that row's DTO |
| Service.RegisterRefusedByConstraints | user-service/src/main/java/com/expensetracker/userservice/service/UserServiceImpl.java:50-51 | Past the pre-check, a null username or email, or a generated id already in use, makes save fail with a DataIntegrityViolation and leaves the table unchanged |
| Service.RegisterKeepsUnique | user-service/src/main/java/com/expensetracker/userservice/service/UserServiceImpl.java:33-55 | Whatever the request, registration keeps ids, usernames and emails pairwise distinct and every row's non-null columns set |
| Service.Register | user-service/src/main/java/com/expensetracker/userservice/service/UserServiceImpl.java:33-55 | The registration function the method is proved equal to: pre-check, email then username report, then the save under the table's constraints; its meaning is given by the Register lemmas above |
| Service.NewUserRecord | user-service/src/main/java/com/expensetracker/userservice/service/UserServiceImpl.java:44-51 | The row the save writes: toEntity of the DTO with the password encoded, onCreate's readings and the generated id; its fields are stated by RegisterSucceeds |
| Service.UserServiceImpl.constructor | user-service/src/main/java/com/expensetracker/userservice/service/UserServiceImpl.java:22-29 | The service bean holds exactly the injected repository, password encoder and token generator |
| Service.UserServiceImpl.GetUserById | user-service/src/main/java/com/expensetracker/userservice/service/UserServiceImpl.java:59-64 | Succeeds iff a row has that id, returning that row's DTO; otherwise fails with "User not found with id: " and the id |
| Service.UserServiceImpl.AuthenticateUser | user-service/src/main/java/com/expensetracker/userservice/service/UserServiceImpl.java:68-91 | An unknown username gives "User not found with username: " and the name. Otherwise, for the user with that username, a password match gives the Bearer AuthResponse with the token for that user and that user's response, and a mismatch gives BadCredentials "Invalid password" |
| Repository.UserStore.Save | user-service/src/main/java/com/expensetracker/userservice/repository/UserRepository.java:12 | Runs onCreate, assigns the generated id, and inserts iff the row has its non-null columns and clashes with no row on id, username or email. On success the saved row is appended; otherwise the failure is a DataIntegrityViolation and the table is unchanged |
| Repository.FirstMatch | user-service/src/main/java/com/expensetracker/userservice/repository/UserRepository.java:13-17 | Finds a row iff some row satisfies the condition; the row found is in the table and satisfies it |
| Repository.Select | user-service/src/main/java/com/expensetracker/userservice/repository/UserRepository.java:19 | The rows selected are exactly the table rows satisfying the condition: every one selected satisfies it and every satisfying row is selected. There are no more than the table holds, and the selection is non-empty iff a match exists |
| Repository.CombinedExistsIsDisjunction | user-service/src/main/java/com/expensetracker/userservice/repository/UserRepository.java:21-27 | existsByUsernameOrEmail is existsByUsername or existsByEmail |
| Repository.ExistsIffFound | user-service/src/main/java/com/expensetracker/userservice/repository/UserRepository.java:13-25 | Each existsBy holds iff the matching findBy finds a row |
| Repository.FoundRowMatches | user-service/src/main/java/com/expensetracker/userservice/repository/UserRepository.java:13-17 | A row found by username, email or id carries that value |
| Repository.FindByUsernameIsTheOnlyMatch | user-service/src/main/java/com/expensetracker/userservice/repository/UserRepository.java:13 | In a table with unique usernames, findByUsername of a row's username finds that row |
| Repository.FindByIdIsTheOnlyMatch | user-service/src/main/java/com/expensetracker/userservice/repository/UserRepository.java:17 | In a table with unique ids, every row has an id, and findById of it finds that row |
| Repository.FindByUsernameOrEmailPresence | user-service/src/main/java/com/expensetracker/userservice/repository/UserRepository.java:19 | findByUsernameOrEmail is absent iff existsByUsernameOrEmail fails |
| Repository.FindByUsernameOrEmailNonUnique | user-service/src/main/java/com/expensetracker/userservice/repository/UserRepository.java:19 | findByUsernameOrEmail is non-unique iff two distinct rows match the username or the email |
| Repository.FindByUsernameOrEmailFound | user-service/src/main/java/com/expensetracker/userservice/repository/UserRepository.java:19 | findByUsernameOrEmail finds a row iff some row matches and no two distinct rows do; the row found is in the table, matches, and equals every matching row |
| Repository.SelectHoldsPair | user-service/src/main/java/com/expensetracker/userservice/repository/UserRepository.java:19 | Two distinct satisfying rows put at least two rows in the selection |
| Repository.PairOfSelect | user-service/src/main/java/com/expensetracker/userservice/repository/UserRepository.java:19 | At least two selected rows come from two distinct satisfying rows |
| Repository.FindByUsername | user-service/src/main/java/com/expensetracker/userservice/repository/UserRepository.java:13 | findByUsername; a null username finds nothing. Its meaning is given by ExistsIffFound, FoundRowMatches and FindByUsernameIsTheOnlyMatch |
| Repository.FindByEmail | user-service/src/main/java/com/expensetracker/userservice/repository/UserRepository.java:15 | findByEmail; a null email finds nothing. Its meaning is given by ExistsIffFound and FoundRowMatches |
| Repository.FindById | user-service/src/main/java/com/expensetracker/userservice/repository/UserRepository.java:17 | findById of a present id. Its meaning is given by ExistsIffFound, FoundRowMatches and FindByIdIsTheOnlyMatch |
| Repository.FindByUsernameOrEmail | user-service/src/main/java/com/expensetracker/userservice/repository/UserRepository.java:19 | findByUsernameOrEmail as absent, found or non-unique. The three FindByUsernameOrEmail lemmas state when each occurs |
| Repository.ExistsByUsername | user-service/src/main/java/com/expensetracker/userservice/repository/UserRepository.java:21 | existsByUsername: some row holds the (non-null) username |
| Repository.ExistsByEmail | user-service/src/main/java/com/expensetracker/userservice/repository/UserRepository.java:23 | existsByEmail: some row holds the (non-null) email |
| Repository.ExistsById | user-service/src/main/java/com/expensetracker/userservice/repository/UserRepository.java:25 | existsById: some row has the id |
| Repository.ExistsByUsernameOrEmail | user-service/src/main/java/com/expensetracker/userservice/repository/UserRepository.java:27 | existsByUsernameOrEmail: some row holds the username or the email; CombinedExistsIsDisjunction splits it |
| Repository.FindByUsernameOrEmailCanBeNonUnique | user-service/src/main/java/com/expensetracker/userservice/repository/UserRepository.java:19 | Two rows, one matching by username and one by email, make the lookup non-unique |
| Repository.InsertKeepsUnique | user-service/src/main/java/com/expensetracker/userservice/entity/User.java:22-32 | Appending an admissible row to a table with unique id, username and email columns keeps them unique |
| Repository.Unique | user-service/src/main/java/com/expensetracker/userservice/entity/User.java:22-32 | The table's constraints: the primary key, the UNIQUE username and email, and the NOT NULL columns. Kept by InsertKeepsUnique, UserStore.Save and RegisterKeepsUnique |
| Repository.Admissible | user-service/src/main/java/com/expensetracker/userservice/entity/User.java:22-32 | The database accepts the insert: NOT NULL columns set and no clash on id, username or email. Its meaning is given by InsertKeepsUnique and UserStore.Save |
| Repository.UserStore.constructor | user-service/src/main/java/com/expensetracker/userservice/repository/UserRepository.java:11-12 | An empty users table, which keeps the constraints |
| Entity.User.constructor | user-service/src/main/java/com/expensetracker/userservice/entity/User.java:16-38 | The new entity holds the given field values |
| Entity.User.SetId | user-service/src/main/java/com/expensetracker/userservice/entity/User.java:22-23 | Only the id changes |
| Entity.User.SetPassword | user-service/src/main/java/com/expensetracker/userservice/entity/User.java:31-32 | Only the password changes |
| Entity.User.OnCreate | user-service/src/main/java/com/expensetracker/userservice/entity/User.java:40-44 | createdAt and updatedAt take the two clock readings and nothing else changes; with readings in order, createdAt <= updatedAt |
| Entity.User.OnUpdate | user-service/src/main/java/com/expensetracker/userservice/entity/User.java:46-49 | Only updatedAt changes, to the reading; createdAt <= updatedAt is kept when the clock does not go back |
| Entity.UpdatesChangeOnlyUpdatedAt | user-service/src/main/java/com/expensetracker/userservice/entity/User.java:46-49 | Any number of updates changes only updatedAt, to the last reading |
| Entity.LifecycleKeepsTimestampsOrdered | user-service/src/main/java/com/expensetracker/userservice/entity/User.java:40-49 | Over creation and any updates with a non-decreasing clock, createdAt stays the first reading and precedes updatedAt; the other fields are untouched |
| Entity.Created | user-service/src/main/java/com/expensetracker/userservice/entity/User.java:40-44 | The record after onCreate with two clock readings; described by User.OnCreate and LifecycleKeepsTimestampsOrdered |
| Entity.Touched | user-service/src/main/java/com/expensetracker/userservice/entity/User.java:46-49 | The record after onUpdate with a clock reading; described by User.OnUpdate and UpdatesChangeOnlyUpdatedAt |
| Entity.AfterUpdates | user-service/src/main/java/com/expensetracker/userservice/entity/User.java:46-49 | The record after a sequence of onUpdate calls; stated by UpdatesChangeOnlyUpdatedAt and LifecycleKeepsTimestampsOrdered |
| Mapper.ToDTOCopiesAllFields | user-service/src/main/java/com/expensetracker/userservice/util/UserMapper.java:30-37 | The entity-to-DTO mapping copies all six fields |
| Mapper.EntityRoundTrip | user-service/src/main/java/com/expensetracker/userservice/util/UserMapper.java:30-46 | Entity to DTO and DTO to entity are inverse in both directions |
| Mapper.ResponseDropsPassword | user-service/src/main/java/com/expensetracker/userservice/util/UserMapper.java:22-28 | The response copies the five non-secret fields and does not depend on the password |
| Mapper.CreateRequestFields | user-service/src/main/java/com/expensetracker/userservice/util/UserMapper.java:16-20 | A create request maps username, email and password; id and timestamps stay null |
| Mapper.LoginRequestFields | user-service/src/main/java/com/expensetracker/userservice/util/UserMapper.java:48-51 | A login request maps username and password; the rest stay null |
| Mapper.CreateRequestToDTO | user-service/src/main/java/com/expensetracker/userservice/util/UserMapper.java:16-20 | toDTO(CreateUserRequest); its fields are stated by CreateRequestFields |
| Mapper.ToResponse | user-service/src/main/java/com/expensetracker/userservice/util/UserMapper.java:22-28 | toResponse; stated by ResponseDropsPassword |
| Mapper.ToDTO | user-service/src/main/java/com/expensetracker/userservice/util/UserMapper.java:30-37 | toDTO(User); stated by ToDTOCopiesAllFields and EntityRoundTrip |
| Mapper.ToEntity | user-service/src/main/java/com/expensetracker/userservice/util/UserMapper.java:39-46 | toEntity; stated by EntityRoundTrip |
| Mapper.LoginRequestToDTO | user-service/src/main/java/com/expensetracker/userservice/util/UserMapper.java:48-51 | toDTO(LoginRequest); its fields are stated by LoginRequestFields |
| Dto.BuildAuthResponse | user-service/src/main/java/com/expensetracker/userservice/dto/response/AuthResponse.java:26-31 | The built response has token type "Bearer" and carries the token and user given |
| Validation.CreateUserValidIffNoViolations | user-service/src/main/java/com/expensetracker/userservice/dto/request/CreateUserRequest.java:19-42 | A create request is valid iff no constraint reports a violation |
| Validation.LoginValidIffNoViolations | user-service/src/main/java/com/expensetracker/userservice/dto/request/LoginRequest.java:17-24 | A login request is valid iff no constraint reports a violation |
| Validation.ShortPasswordRefusedUnderMisstatedBound | user-service/src/main/java/com/expensetracker/userservice/dto/request/CreateUserRequest.java:37 | A password of 3 to 7 characters is refused, at registration and at login, with the message that names 3 as the minimum |
| Validation.ExamplePasswordPasses | user-service/src/main/java/com/expensetracker/userservice/dto/request/CreateUserRequest.java:34-41 | The documented example password meets the size bound and the pattern |
| Validation.PatternAllowsOtherCharacters | user-service/src/main/java/com/expensetracker/userservice/dto/request/CreateUserRequest.java:38-39 | Adding any characters other than line terminators, on either side, keeps a password matching the pattern |
| Validation.LineTerminatorFailsPattern | user-service/src/main/java/com/expensetracker/userservice/dto/request/CreateUserRequest.java:38-39 | A password containing a line terminator never matches the pattern |
| Validation.LoginAcceptsWhatRegistrationRefuses | user-service/src/main/java/com/expensetracker/userservice/dto/request/LoginRequest.java:21-24 | Login validation lacks the pattern: a lower-case-only password passes login but fails registration |
| Validation.BlankUsernameRefused | user-service/src/main/java/com/expensetracker/userservice/dto/request/LoginRequest.java:17-18 | Three spaces meet the size bound but fail NotBlank, with "Username is required" |
| Validation.RegistrationRulesImplyLoginRules | user-service/src/main/java/com/expensetracker/userservice/dto/request/LoginRequest.java:17-24 | Credentials valid for registration are valid for login |
| Validation.ValidCreateUserRequest | user-service/src/main/java/com/expensetracker/userservice/dto/request/CreateUserRequest.java:19-42 | The seven constraints of CreateUserRequest together; tied to the violation set by CreateUserValidIffNoViolations |
| Validation.ValidLoginRequest | user-service/src/main/java/com/expensetracker/userservice/dto/request/LoginRequest.java:17-24 | The four constraints of LoginRequest together; tied to the violation set by LoginValidIffNoViolations |
| Validation.NotBlank | user-service/src/main/java/com/expensetracker/userservice/dto/request/CreateUserRequest.java:19 | @NotBlank: not null and something left after trim(). Its meaning is given by BlankUsernameRefused |
| Validation.SizeWithin | user-service/src/main/java/com/expensetracker/userservice/dto/request/CreateUserRequest.java:20 | @Size(min, max), passing a null value. Its meaning is given by ShortPasswordRefusedUnderMisstatedBound and BlankUsernameRefused |
| Validation.EmailOk | user-service/src/main/java/com/expensetracker/userservice/dto/request/CreateUserRequest.java:28 | @Email, passing a null value, with the syntax check as a parameter; part of CreateUserValidIffNoViolations |
| Validation.MatchesPasswordPattern | user-service/src/main/java/com/expensetracker/userservice/dto/request/CreateUserRequest.java:38-39 | A full match of the password regular expression. Its meaning is given by PatternAllowsOtherCharacters, LineTerminatorFailsPattern and ExamplePasswordPasses |
| Validation.PatternOk | user-service/src/main/java/com/expensetracker/userservice/dto/request/CreateUserRequest.java:38-41 | @Pattern, passing a null value; stated by LineTerminatorFailsPattern and LoginAcceptsWhatRegistrationRefuses |
| Validation.UsernameValid | user-service/src/main/java/com/expensetracker/userservice/dto/request/CreateUserRequest.java:19-21 | The two username constraints, shared by both requests; stated by BlankUsernameRefused and RegistrationRulesImplyLoginRules |
| Validation.LoginPasswordValid | user-service/src/main/java/com/expensetracker/userservice/dto/request/LoginRequest.java:22-24 | The login password's @NotBlank and @Size(8, 50); stated by ExamplePasswordPasses and ShortPasswordRefusedUnderMisstatedBound |
| Validation.CreateUserViolations | user-service/src/main/java/com/expensetracker/userservice/dto/request/CreateUserRequest.java:19-42 | The violation set of a create request, one entry per failing annotation with its message; stated by CreateUserValidIffNoViolations |
| Validation.LoginViolations | user-service/src/main/java/com/expensetracker/userservice/dto/request/LoginRequest.java:17-24 | The violation set of a login request; stated by LoginValidIffNoViolations and BlankUsernameRefused |
| ExceptionHandler.ExtractFieldName | user-service/src/main/java/com/expensetracker/userservice/exception/GlobalExceptionHandler.java:72-80 | The extracted field name contains no double quote |
| ExceptionHandler.ExtractFieldNameUnknown | user-service/src/main/java/com/expensetracker/userservice/exception/GlobalExceptionHandler.java:72-80 | With fewer than two double quotes, the name is "unknown" |
| ExceptionHandler.ExtractFieldNameBetweenQuotes | user-service/src/main/java/com/expensetracker/userservice/exception/GlobalExceptionHandler.java:72-80 | The name is the text between the first two double quotes |
| ExceptionHandler.HandleHttpMessageNotReadable | user-service/src/main/java/com/expensetracker/userservice/exception/GlobalExceptionHandler.java:29-69 | 400 Bad Request with exactly one detail line, message and detail chosen by the cause: unknown field, other mapping error, malformed JSON, anything else |
| ExceptionHandler.FieldErrorLines | user-service/src/main/java/com/expensetracker/userservice/exception/GlobalExceptionHandler.java:102-105 | One "field: message" line per field error, in order |
| ExceptionHandler.GlobalErrorLines | user-service/src/main/java/com/expensetracker/userservice/exception/GlobalExceptionHandler.java:108-111 | One "object: message" line per global error, in order |
| ExceptionHandler.HandleMethodArgumentNotValid | user-service/src/main/java/com/expensetracker/userservice/exception/GlobalExceptionHandler.java:95-136 | 400 Validation Error with the fixed message. The details are the field lines, then the global lines, then the unknown-fields note exactly when the exception message mentions "Unknown property" |
| ExceptionHandler.HandleException | user-service/src/main/java/com/expensetracker/userservice/exception/GlobalExceptionHandler.java:82-158 | ResourceAlreadyExists is 409 Conflict, ResourceNotFound is 404 Not Found, and every other failure is 500 Internal Server Error. The message is the exception's, with no details |
| ExceptionHandler.BuildErrorResponse | user-service/src/main/java/com/expensetracker/userservice/exception/GlobalExceptionHandler.java:146-159 | The response with the given status, error, message and path and no details; HandleException states its use |
| JavaText.IndexOf | user-service/src/main/java/com/expensetracker/userservice/exception/GlobalExceptionHandler.java:74-75 | indexOf from a start: -1 iff the character does not occur from there, else its first position from there |
| JavaText.FirstIndexOf | user-service/src/main/java/com/expensetracker/userservice/exception/GlobalExceptionHandler.java:74 | indexOf: -1 iff the character is absent, else its first position |
| JavaText.OccursOnce | user-service/src/main/java/com/expensetracker/userservice/exception/GlobalExceptionHandler.java:74 | A character at some position occurs at least once |
| JavaText.OccursTwice | user-service/src/main/java/com/expensetracker/userservice/exception/GlobalExceptionHandler.java:75-76 | A character at two positions occurs at least twice |
| JavaText.HasText | user-service/src/main/java/com/expensetracker/userservice/util/JwtAuthenticationFilter.java:78 | StringUtils.hasText: not null and some character is not Java whitespace; used by GetTokenFromRequest's contract |
| PathMatching.SubtreeCoversBaseAndBelow | user-service/src/main/java/com/expensetracker/userservice/util/JwtAuthenticationFilter.java:34-38 | A trailing "/**" pattern matches its base path and everything below it |
| PathMatching.AnyMatchDependsOnElementsOnly | user-service/src/main/java/com/expensetracker/userservice/util/JwtAuthenticationFilter.java:46 | Matching any of a list of patterns depends only on which patterns the list holds |
| PathMatching.AnyMatchConcat | user-service/src/main/java/com/expensetracker/userservice/config/SecurityConfig.java:50-53 | Matching any of two concatenated lists is matching either list |
| PathMatching.Matches | user-service/src/main/java/com/expensetracker/userservice/util/JwtAuthenticationFilter.java:40-46 | AntPathMatcher.match for a literal pattern or a trailing "/**"; stated by SubtreeCoversBaseAndBelow |
| Filter.GetTokenFromRequest | user-service/src/main/java/com/expensetracker/userservice/util/JwtAuthenticationFilter.java:76-82 | A token is returned iff the header has text and starts with "Bearer "; the header is then that prefix followed by the token |
| Filter.SecurityContext.constructor | user-service/src/main/java/com/expensetracker/userservice/util/JwtAuthenticationFilter.java:66 | A new context holds no authentication |
| Filter.SecurityContext.SetAuthentication | user-service/src/main/java/com/expensetracker/userservice/util/JwtAuthenticationFilter.java:66 | The context then holds the given authentication |
| Filter.DoFilterInternal | user-service/src/main/java/com/expensetracker/userservice/util/JwtAuthenticationFilter.java:50-74 | With a valid token whose subject loads, the context gets that user with the request as details and the chain runs. Without one, the context is left alone and the chain runs. A failing load propagates and the chain does not run |
| Filter.DoFilter | user-service/src/main/java/com/expensetracker/userservice/util/JwtAuthenticationFilter.java:42-74 | Public paths go straight to the chain with the context untouched; other paths go through DoFilterInternal |
| Filter.BearerRoundTrip | user-service/src/main/java/com/expensetracker/userservice/util/JwtAuthenticationFilter.java:76-82 | "Bearer " followed by a token gives back that token |
| Filter.PrefixIsExact | user-service/src/main/java/com/expensetracker/userservice/util/JwtAuthenticationFilter.java:78 | A lower-case "bearer", a bare "Bearer" and a missing header give no token |
| Filter.AuthenticationNeedsValidToken | user-service/src/main/java/com/expensetracker/userservice/util/JwtAuthenticationFilter.java:55-66 | An authentication is set only for a token that has text and validates. Its principal is what the token's subject loads to, and its details are the request |
| Filter.InvalidTokenLeavesContextAlone | user-service/src/main/java/com/expensetracker/userservice/util/JwtAuthenticationFilter.java:58 | No or invalid token: no authentication and no failure |
| Filter.PublicPathsSkipFilter | user-service/src/main/java/com/expensetracker/userservice/util/JwtAuthenticationFilter.java:30-47 | Registration, login, swagger-ui.html, the base of each subtree pattern and everything below it skip the filter, whatever the header |
| Filter.SubtreeEndpointsSkipFilter | user-service/src/main/java/com/expensetracker/userservice/util/JwtAuthenticationFilter.java:30-47 | For every public pattern ending in "/**", its base path and every path below it skip the filter |
| Filter.UserPathIsFiltered | user-service/src/main/java/com/expensetracker/userservice/util/JwtAuthenticationFilter.java:30-47 | /api/v1/users/ followed by any id other than register or login goes through the filter |
| Filter.ShouldNotFilter | user-service/src/main/java/com/expensetracker/userservice/util/JwtAuthenticationFilter.java:42-47 | shouldNotFilter: some public pattern matches the URI; stated by PublicPathsSkipFilter and UserPathIsFiltered |
| Filter.TokenAuthentication | user-service/src/main/java/com/expensetracker/userservice/util/JwtAuthenticationFilter.java:53-67 | The authentication doFilterInternal sets, or none, or the failure that propagates; stated by AuthenticationNeedsValidToken and InvalidTokenLeavesContextAlone |
| Security.ServeRequest | user-service/src/main/java/com/expensetracker/userservice/config/SecurityConfig.java:37-56 | One request, from a fresh empty context through the filter and the authorization rules, has exactly the outcome Serve gives |
| Security.PermitListsAgreeWithFilter | user-service/src/main/java/com/expensetracker/userservice/config/SecurityConfig.java:29-35 | The two permitAll lists together hold exactly the filter's public endpoints |
| Security.PermittedIffFilterSkipped | user-service/src/main/java/com/expensetracker/userservice/config/SecurityConfig.java:47-55 | A path is permitted without authentication iff the filter skips it |
| Security.PermittedPathReachesEndpoint | user-service/src/main/java/com/expensetracker/userservice/config/SecurityConfig.java:50-53 | A permitted path reaches its endpoint with no authentication, whatever token it carries |
| Security.ProtectedPathNeedsValidToken | user-service/src/main/java/com/expensetracker/userservice/config/SecurityConfig.java:54-55 | Any other path without a valid token is answered 401 by the entry point |
| Security.ProtectedPathWithValidToken | user-service/src/main/java/com/expensetracker/userservice/config/SecurityConfig.java:54-56 | Any other path with a valid token whose subject loads reaches the endpoint as that user |
| Security.PermittedPaths | user-service/src/main/java/com/expensetracker/userservice/config/SecurityConfig.java:29-35 | Register, login and the documentation paths are permitted; /api/v1/users/ followed by any other id is not |
| Security.Permitted | user-service/src/main/java/com/expensetracker/userservice/config/SecurityConfig.java:47-53 | The permitAll rule: some pattern of the two lists matches; PermittedIffFilterSkipped ties it to the filter |
| Security.Serve | user-service/src/main/java/com/expensetracker/userservice/config/SecurityConfig.java:37-56 | One request through the filter and the authorization rules; ServeRequest is proved equal to it and the Permitted/Protected lemmas state its outcomes |
| Security.Allows | user-service/src/main/java/com/expensetracker/userservice/config/SecurityConfig.java:47-55 | The authorization rule: a permitted path, or otherwise an authentication, as anyRequest().authenticated() demands. Its meaning is given by PermittedPathReachesEndpoint and ProtectedPathWithValidToken |
| Security.Authorize | user-service/src/main/java/com/expensetracker/userservice/config/SecurityConfig.java:42-55 | Run the endpoint when Allows holds, else answer 401 through the entry point; stated by ProtectedPathNeedsValidToken |
| Scenarios.RefusedRegistrationIsConflict | user-service/src/main/java/com/expensetracker/userservice/exception/GlobalExceptionHandler.java:82-86 | A registration refused by the pre-check reaches the client as 409 Conflict with one of the two conflict messages |
| Scenarios.LoginFailureStatuses | user-service/src/main/java/com/expensetracker/userservice/service/UserServiceImpl.java:73-81 | An unknown username at login becomes 404 Not Found, a wrong password 500 Internal Server Error |
| Scenarios.IssuedTokenOpensProtectedPaths | user-service/src/main/java/com/expensetracker/userservice/service/UserServiceImpl.java:84-90 | Sending back the login response's type and token opens the protected user endpoints as that user, given a token provider that accepts its own tokens and names the user |
| Scenarios.SecondRegistrationIsRefused | user-service/src/main/java/com/expensetracker/userservice/service/UserServiceImpl.java:35-41 | jack12 registers into an empty table; a second jack12 with another email is refused as "Username already exists" and the table keeps one row |

## Left out

- JwtTokenProvider is not part of this model: token generation, signature and expiry checking, and subject extraction are parameters.
- BCrypt hashing and matching are the parameters `encode` and `matches`.
- The UUIDv7 generator is modelled as an id passed to `CreateUser`. An id already in use makes the insert fail on the primary key. The generator's uniqueness and time ordering are not modelled.
- `LocalDateTime.now()` is modelled as clock readings passed in. The `ErrorResponse` timestamp is left out.
- The `@Email` check is the parameter `isEmail`; Hibernate's address grammar is not modelled.
- Jackson is not modelled. Its exception types are reduced to the `Cause` cases, and the message text to a string.
- `@Cacheable`/`@CacheEvict` on the service are left out. The cache only repeats results of `getUserById` and does not change them; staleness after direct database edits is outside the model.
- Concurrency is left out, in particular two simultaneous registrations racing between the pre-check and the insert. Save still models the unique constraints that would reject the second one.
- `CustomUserDetailsService` is the parameter `loadUser`. Authorities are not modelled, since no rule in the core depends on roles.
- `JwtAuthenticationEntryPoint` and `JwtAccessDeniedHandler` are left out; the entry point is reduced to the 401 status.
- `HttpSecurity` wiring is not modelled beyond the authorization rules: CSRF, session creation and filter ordering.
- `OpenApiConfig` and `UserController` are left out: request binding and the 201 status.
- AntPathMatcher is modelled only for the patterns in use: literal paths, and a trailing "/**" that matches the base and everything below. Its collapsing of empty segments and other wildcards are not modelled.
- String lengths are counted in Dafny characters. UTF-16 surrogate pairs, which Java's length counts as two, are not modelled.
- Service.UserServiceImpl.CreateUser: requires a null id and a present password. Both always hold when the controller maps a CreateUserRequest and validation passes. The JPA merge path taken for a caller-supplied id is not modelled. `BCryptPasswordEncoder.encode(null)` throws, and that exception is not modelled either. A null username or email is modelled: the save fails on the NOT NULL constraint.
- Service.Register: requires a null id and a present password, for the same reasons as CreateUser.
- Repository.FindById and Repository.ExistsById take a present id. The inherited CRUD methods throw IllegalArgumentException for a null id, and the service never passes one.
- Repository.UserStore.Save: the DataIntegrityViolation message is a fixed stand-in (`Repository.ConstraintViolation`); the real text comes from the JDBC driver.
- Service.UserServiceImpl.AuthenticateUser: requires present username and password. These hold after LoginRequest validation. The null-username query, which matches no row, is modelled in Repository but not reached from here.
- Repository.UserStore.Save: models only the insert of a new entity; the update of an existing one is not modelled, since the core never updates.
