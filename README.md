# Event booker: authentication and authorization core

A Dafny model of the authentication and authorization core of an
event-booking web API. Users register with a role (organizer or
participant), log in for a pair of signed tokens, and use the access token
as a bearer credential; organizers create events and participants enroll
in them.

The model holds one abstract store (`Store.Database`): the users table, the
events table, the enrollment relation of (participant id, event id) pairs,
and the revoked-token table. Over it:

- **Token lifecycle** (`Tokens`, `AuthDependencies`, `Store`). Issuing builds
  an access token whose subject is the user id and a refresh token whose
  subject is the access-token string itself. Authentication checks, in
  order: revoked, decodes under the access key, not expired (strictly:
  `expires_at < now` rejects), user exists. Refresh validation checks the
  refresh token and its embedded access token. Rotation revokes both and
  issues a new pair. Revocation is idempotent and nothing removes a row.
  Signing is an abstract codec (`Tokens.Codec`) keyed by secret. The
  property `Tokens.Sound` states what the signature scheme guarantees: a
  round trip under the same key, and failure under any other key.
- **Authorization guards** (`Authorizers`): role, ownership and enrollment
  checks, the event lookup, and the order in which the endpoints chain
  them.
- **Registration and event creation** (`Store.Database.CreateUser`,
  `Store.Database.CreateEvent`): a uniqueness or role guard, then one row.
- **Input validation** (`UserSchemas`, `EventSchemas`): username and
  password rules, required fields, and positive price and capacity.
- **Pagination** (`Pagination`): the LIMIT/OFFSET window.

Time is an integer count of seconds and is passed in as `now`. Token
lifetimes are given in minutes in `Tokens.Config`. Password hashing is an
abstract `AuthDependencies.PasswordContext`. Its property
`VerifiesOwnHash` says a password verifies against its own hash.

Four behaviours of the code worth noting:

- Refresh validation never compares the embedded access token's expiry
  with the current time. `RefreshIgnoresAccessExpiry` proves that an
  expired access token's refresh token is still accepted.
- A token whose expiry equals the current time is still accepted.
  `ExpiryIsStrict` proves it.
- `int(payload.sub)` raising `ValueError` is outside the caught exceptions,
  so for a signed token with a non-integer subject the error escapes as
  something other than `InvalidTokenException`. The model keeps this as
  `SubjectNotInteger`. `IssuedSubjectIsUserId` shows that no token the
  service itself issues reaches it.
- The decorator `authorize_event_create` is imported but not defined in
  `app/events/authorizers.py`. The create-event tests show it rejects
  participants with the organizer-role error, so `CreateEvent` runs the
  organizer-role guard.

## Model

| member | source | states |
|---|---|---|
| `Common.Then` | app/events/authorizers.py:18-24 | a guard that passes returns the wrapped call's result unchanged; a failing guard returns its own error |
| `Models.FindFirst` | app/auth/dependencies.py:52 | a lookup yields a row that matches the condition, and yields nothing exactly when no row matches; under the unique keys that row is the only match |
| `Models.FindFirstUnique` | app/users/models.py:10 | when at most one row can match, a stored matching row is the one the lookup yields |
| `Models.FindFirstAppend` | app/events/services.py:27 | after one row is appended, a lookup still finds an older match first, else the new row if it matches |
| `Models.FindUserById` | app/auth/dependencies.py:52 | `select(User).where(User.id == id)`: a found user is stored and has that id; nothing is found exactly when no stored user has it |
| `Models.FindUserByUsername` | app/auth/dependencies.py:26 | `select(User).where(User.username == username)`: a found user is stored and has that username; nothing is found exactly when no stored user has it |
| `Models.FindEventById` | app/events/dependencies.py:15 | `select(Event).where(Event.id == event_id)`: a found event is stored and has that id; nothing is found exactly when no stored event has it |
| `Models.FindStoredUserById` | app/auth/dependencies.py:52 | under the primary key, looking up a stored user's id yields exactly that user |
| `Models.FindStoredUserByUsername` | app/auth/dependencies.py:26 | under the unique username constraint, looking up a stored username yields exactly that row |
| `Models.FindStoredEventById` | app/events/dependencies.py:15 | under the primary key, looking up a stored event's id yields exactly that event |
| `Models.FindEventByIdAppend` | app/events/services.py:27 | after one event row is appended, a lookup by id finds an older match first, else the new row |
| `Models.FindUserByUsernameAppend` | app/users/services.py:19 | after one user row is appended, a lookup by username finds an older match first, else the new row |
| `IntText.ShowNat` | app/auth/services.py:28 | `str(n)` of a natural number is a non-empty run of digits with no leading zero |
| `IntText.ShowInt` | app/auth/services.py:28 | `str(n)` is non-empty and starts with a minus sign exactly when n is negative |
| `IntText.ParseInt` | app/auth/dependencies.py:52 | `int(s)` succeeds exactly on one or more decimal digits with an optional leading sign, and raises on the empty string, on any other first character and on any later non-digit; a digit run reads as its decimal value, negated after a minus sign |
| `IntText.ParseIntExamples` | app/auth/dependencies.py:52 | signed, unsigned and zero-padded digit runs parse to their values; the empty string, a lone sign, letters and a trailing letter raise |
| `IntText.DigitsOfShowNat` | app/auth/services.py:28 | reading back the digits of `str(n)` gives n |
| `IntText.ParseShow` | app/auth/dependencies.py:52 | `int(str(n)) == n`: the subject written for a user id reads back as that id |
| `IntText.ShowIntInjective` | app/auth/services.py:28 | different user ids give different subjects |
| `Tokens.CreatePayload` | app/auth/services.py:26-29 | the payload carries the subject and expires the given number of minutes after now |
| `Tokens.Issue` | app/auth/services.py:22-50 | the returned expiries are now plus each lifetime; under a sound codec the access token decodes with the access key to (its expiry, `str(user_id)`), and the refresh token decodes with the refresh key to (its expiry, the access-token string) |
| `Tokens.IssuedSubjectIsUserId` | app/auth/services.py:39-40 | the issued access token's subject reads back with `int()` as the user id |
| `Tokens.KeysSeparateTokenKinds` | app/auth/services.py:40-44 | with distinct secrets, the refresh token does not decode with the access key and the access token does not decode with the refresh key |
| `AuthDependencies.IsRevoked` | app/auth/dependencies.py:104-105 | a string is revoked exactly when the revoked-token table has a row for it |
| `AuthDependencies.IsExpired` | app/auth/dependencies.py:108-109 | a payload is expired exactly when its expiry is strictly before now |
| `AuthDependencies.UserIdFromCredentials` | app/auth/dependencies.py:21-31 | a returned id belongs to a stored user with that username whose hash verifies the password; an unknown username and a wrong password both give InvalidCredentials |
| `AuthDependencies.CredentialsAcceptExactlyStoredPairs` | app/auth/dependencies.py:26-31 | with unique usernames, login for a stored user succeeds, with that user's id, exactly when the password verifies against that user's hash |
| `AuthDependencies.Authenticate` | app/auth/dependencies.py:34-60 | a revoked string is rejected whatever the codec says; a string that does not decode is rejected; an accepted token is unrevoked, decodes, is not expired, and its subject is the returned stored user's id; it succeeds exactly when the string is unrevoked, decodes, has not expired, and its subject parses to the id of a stored user; the uncaught non-integer subject is reported exactly for an unrevoked, decodable, unexpired token whose subject does not parse; every other error is InvalidToken |
| `AuthDependencies.AcceptsStoredSubject` | app/auth/dependencies.py:34-57 | with unique user ids, any unrevoked token that decodes under the access key, has not expired, and whose subject names a stored user authenticates as exactly that user |
| `AuthDependencies.UnknownSubjectRejected` | app/auth/dependencies.py:52-55 | a token naming an id no user has is rejected with InvalidToken |
| `AuthDependencies.ExpiryIsStrict` | app/auth/dependencies.py:108-109 | a token is accepted at the second its expiry names and rejected one second later |
| `AuthDependencies.IssuedAccessTokenAuthenticates` | app/tests/utils.py:4-7 | an access token issued for a stored user authenticates as exactly that user until it expires, unless revoked |
| `AuthDependencies.RefreshTokenIsNotAnAccessToken` | app/auth/dependencies.py:41-47 | with distinct secrets, an issued refresh token never authenticates as a bearer token |
| `AuthDependencies.ValidateRefresh` | app/auth/dependencies.py:63-98 | every failure is InvalidToken; it succeeds exactly when the refresh token is unrevoked, decodes with the refresh key, has not expired, and its subject is unrevoked and decodes with the access key; the result carries both payloads and the token as received |
| `AuthDependencies.IssuedPairPassesRefreshValidation` | app/auth/services.py:41-44 | an unrevoked issued pair passes refresh validation until the refresh token expires, and the embedded subject names the original user |
| `AuthDependencies.RefreshIgnoresAccessExpiry` | app/auth/dependencies.py:78-90 | once an issued access token has expired it no longer authenticates, but its refresh token is still accepted until the refresh expiry |
| `AuthDependencies.RevokedTokenAlwaysRejected` | app/auth/dependencies.py:37-39 | a revoked string fails both authentication and refresh validation under any codec, at any time |
| `UserSchemas.MatchesUsernamePattern` | app/users/schemas.py:6 | `^[A-Za-z0-9-_]+$` as a whole-string match: one or more ASCII letters, digits, `-` or `_` |
| `UserSchemas.MatchesPasswordPattern` | app/users/schemas.py:7-9 | the password pattern: at least one lower-case letter, one upper-case letter, one digit and one of `@$!%*?&`, at least 8 characters, and no character outside those classes |
| `UserSchemas.ValidateUsername` | app/users/schemas.py:17-25 | accepted exactly when 4 to 20 characters long, all ASCII letters, digits, `-` or `_`; an accepted value is returned unchanged; a too-short or too-long value reports only the length error; a value of allowed length that fails the pattern reports exactly one value error |
| `UserSchemas.ValidatePassword` | app/users/schemas.py:28-35 | accepted exactly when the password pattern matches; an accepted value is returned unchanged; a value under 8 characters reports only the length error; a value of 8 or more that fails the pattern reports exactly one value error |
| `UserSchemas.ValidateCreateUser` | app/users/schemas.py:17-35 | a body is accepted exactly when username, role and password are present and valid, and is then returned as given; each absent field is reported missing; a present but invalid username or password has its own error in the list; a rejected body has exactly one error per absent or invalid field, and with all fields present its errors are the username's then the password's |
| `UserSchemas.AcceptedPasswordHasEveryClass` | app/users/schemas.py:7-9 | an accepted password has a lower-case letter, an upper-case letter, a digit and one of `@$!%*?&`, is at least 8 long, and has no other characters |
| `UserSchemas.RegistrationExamples` | app/tests/users/create_test.py:31-120 | the usernames and passwords the registration tests send get the errors those tests expect, and valid ones pass |
| `EventSchemas.PositiveIfGiven` | app/events/schemas.py:30 | `Field(default=None, gt=0)`: an absent value passes, a given one must be greater than zero |
| `EventSchemas.CreateEventErrors` | app/events/schemas.py:28-33 | the errors of a create body: a missing-field error exactly for each absent title, event_date and description, a greater-than error exactly for each non-positive price and max_capacity, and no others |
| `EventSchemas.CreateEventErrorsInOrder` | app/events/schemas.py:28-33 | those errors come in the fields' declaration order, at most one per field |
| `EventSchemas.ValidateCreateEvent` | app/events/schemas.py:28-33 | accepted exactly when title, date and description are present and price and capacity are absent or positive; fields are copied as given; a rejected body reports exactly one error per missing or non-positive field and no other, in declaration order |
| `EventSchemas.ValidateUpdateEvent` | app/events/schemas.py:36-41 | every field is optional; a body is accepted unchanged exactly when any given price and capacity are positive; a rejected body reports a greater-than error for exactly each non-positive price and max_capacity, and nothing else |
| `EventSchemas.ApplyUpdate` | app/tests/events/update_test.py:89-141 | each given field takes the given value; fields not given keep their value; the id and the owner never change |
| `EventSchemas.EmptyUpdateIsIdentity` | app/tests/events/update_test.py:89-109 | an empty update leaves the event unchanged |
| `EventSchemas.FullUpdateSetsEveryField` | app/tests/events/update_test.py:112-141 | a full update sets each field to its given value |
| `EventSchemas.ApplyUpdateIdempotent` | app/events/schemas.py:36-41 | applying an update twice equals applying it once |
| `EventSchemas.CreateEventExamples` | app/tests/events/create_test.py:35-95 | an empty body reports title, event_date and description missing; a negative price or capacity reports exactly that field |
| `Authorizers.CurrentUserIsOrganizer` | app/events/authorizers.py:16-26 | passes exactly when the role is ORGANIZER, else raises UserNotOrganizer |
| `Authorizers.CurrentUserIsParticipant` | app/events/authorizers.py:29-39 | passes exactly when the role is PARTICIPANT, else raises UserNotParticipant |
| `Authorizers.EventBelongsToOrganizer` | app/events/authorizers.py:42-53 | passes exactly when the event's organizer id is the user's id, else raises EventNotBelongToUser |
| `Authorizers.ParticipantIsNotEnrolled` | app/events/authorizers.py:56-74 | passes exactly when the (user, event) pair is not enrolled, else raises AlreadyEnrolled |
| `Authorizers.ParticipantIsEnrolled` | app/events/authorizers.py:77-95 | passes exactly when the (user, event) pair is enrolled, else raises NotEnrolled |
| `Authorizers.EnrollmentGuardsAreComplementary` | app/events/authorizers.py:69-90 | for every user and event exactly one of the two enrollment guards passes |
| `Authorizers.OwnershipOverridesRole` | app/tests/events/update_test.py:72-87 | an organizer passes the role guard and is still refused another organizer's event |
| `Authorizers.GetEventById` | app/events/dependencies.py:10-20 | returns a stored event with the requested id, or NotFound("Event") when no event has it |
| `Authorizers.GetStoredEvent` | app/events/dependencies.py:15-20 | under the primary key, a stored event is returned for its own id |
| `Authorizers.EnrollChecks` | app/tests/events/enroll_test.py:34-81 | enrolling passes exactly for an existing event, a participant and a pair not yet enrolled; a missing event gives NotFound before the role check; with the event present, a wrong role gives UserNotParticipant and an enrolled pair gives AlreadyEnrolled, the role check taken first |
| `Authorizers.CancelEnrollmentChecks` | app/tests/events/cancel_enrollment_test.py:33-79 | cancelling passes exactly for an existing event, a participant and an enrolled pair; the errors come in the order NotFound, UserNotParticipant, NotEnrolled |
| `Authorizers.EventDetailsChecks` | app/tests/events/get_event_test.py:38-69 | viewing passes exactly for an existing event and a participant; a missing event gives NotFound before the role check |
| `Authorizers.OwnEventChecks` | app/tests/events/update_test.py:40-87 | managing passes exactly when the event exists, the user is an organizer and owns it; a missing event gives NotFound before any guard; with the event present, a participant gives UserNotOrganizer and another organizer's event gives EventNotBelongToUser, the role check taken first |
| `Authorizers.NotFoundPrecedesRoleChecks` | app/events/authorizers.py:44-46 | a missing event yields NotFound from every guard chain, whatever the user's role |
| `Authorizers.EnrollingTwiceConflicts` | app/tests/events/enroll_test.py:66-81 | once the pair is enrolled, enrolling again is refused with AlreadyEnrolled and cancelling is allowed |
| `Store.Database.Valid` | app/users/models.py:10 | the table constraints: unique user ids and usernames, unique event ids, ids below their sequence's next value, one row per revoked token, and every event owned by a stored organizer |
| `Store.CountOfStoredToken` | app/auth/models.py:13 | under the unique hash constraint a revoked token has exactly one row |
| `Store.Database.RevokeToken` | app/auth/services.py:76-87 | an already revoked token writes nothing; otherwise exactly one row is appended; afterwards the token has exactly one row and the table constraints still hold |
| `Store.Database.RefreshToken` | app/auth/services.py:53-73 | on failed validation, InvalidToken and no write; otherwise the embedded old access token and the presented refresh token are appended and a new pair is issued for the old payload's user id; a non-integer subject rolls both rows back; on success the refresh token was unrevoked before and is revoked after |
| `Store.Database.CreateUser` | app/users/services.py:11-22 | a taken username gives UsernameAlreadyExists and no write; otherwise exactly one user with the given username, the hash of the password and the given role is appended and returned; usernames stay pairwise distinct |
| `Store.Database.CreateEvent` | app/events/services.py:11-30 | a participant gives UserNotOrganizer and no write; otherwise exactly one event, owned by the current user and with title, description, price, capacity and date copied from the request, is appended and returned |
| `Store.RevokeTwice` | app/tests/auth/revoke_test.py:27-54 | revoking the same token twice leaves exactly one row for it, and the second call writes nothing |
| `Store.RefreshTwice` | app/auth/services.py:65-68 | after one successful refresh, presenting the same refresh token again fails with InvalidToken |
| `Store.RevocationIsPermanent` | app/auth/services.py:76-87 | a revoked string stays rejected by authentication and refresh validation however many rows are appended later |
| `Store.RefreshThenAuthenticate` | app/auth/services.py:53-73 | a rotation succeeds exactly when the refresh token validates and its old access token's subject is an integer; the new access token then authenticates as the stored user that subject names, unless the new string is already revoked |
| `Store.RegisteredUserCanLogIn` | app/users/services.py:13-17 | a user just registered under a free username logs in with the password given at registration |
| `Store.CreatedEventIsOwnedByCreator` | app/events/services.py:18-28 | a created event is found by its id and passes its creator's ownership check |
| `Pagination.Offset` | app/pagination/services.py:12-13 | the OFFSET `(page - 1) * per_page`: zero on the first page, never negative from page 1 on with a non-negative page size, negative before page 1 with a positive page size |
| `Pagination.Window` | app/pagination/services.py:11-13 | the window holds at most `limit` rows, namely the rows from `offset` on in query order |
| `Pagination.Paginate` | app/pagination/services.py:8-22 | negative page size or offset is refused by the database; otherwise page and page size are echoed back, and item i is the represented row at offset `(page - 1) * per_page` plus i, at most `per_page` of them |
| `Pagination.EveryRowOnItsPage` | app/pagination/services.py:11-13 | row k is item `k % per_page` of page `k / per_page + 1` |
| `Pagination.DefaultIsFirstTenRows` | app/pagination/dependencies.py:4-7 | with the default page 1 and page size 10 the response holds the first ten rows |

## Left out

- JWT signing and verification: the codec is abstract. The lemmas that
  need it assume `Tokens.Sound`.
- The float-timestamp string written into tokens (app/auth/services.py:33)
  and the timezone stripping before the expiry comparison
  (app/auth/dependencies.py:109): time is one integer count of seconds.
- Tokens.Issue: the two `datetime.now()` calls in `generate_jtw_data` are
  one `now`. The microseconds between them are not modelled.
- bcrypt: hashing and verification are abstract functions. The random salt
  is not modelled, so `hash` is a function of the password alone.
- IntText.ParseInt: accepts only an optional sign and ASCII digits. Python's
  `int()` also accepts surrounding whitespace, underscores between digits
  and non-ASCII decimal digits. Python 3.12 `int()` and `str()` also raise
  `ValueError` beyond 4300 decimal digits by default. The model parses and
  shows integers of any length.
- Store.Database.RefreshToken: the session's flush and commit mechanics are
  not modelled, and the second revocation sees the first. With autoflush
  off (app/database/connection.py:14), a refresh token equal to its own
  embedded access token would instead violate the unique constraint at
  commit. The `commit_session` flag of `revoke_token` has no counterpart.
- Store.RefreshThenAuthenticate: promises nothing when the new access token
  is already revoked. With whole-second time and a deterministic codec, a
  rotation in the same second as the original issue reproduces the old,
  now revoked, string.
- Transactions, rollback on storage errors, and races on the unique
  constraints are not modelled.
- FastAPI routing, dependency injection and HTTP status codes are left out.
  Only the error names are kept.
- The services behind the other event endpoints (`enroll_for_event`,
  `remove_enrollment`, `update_event`, `delete_event`, `get_event`,
  `get_events`, `get_organizer_event`, `get_organizer_events`,
  `get_participant_events`) are imported by app/events/router.py but are
  not part of this model. Their guard chains are modelled from the
  decorators and the endpoint tests. The event lookup always comes first:
  `get_event_by_id` is a dependency that supplies the `event` argument the
  guards read, so it runs before any guard does. The tests fix, for
  cancelling, the role check before the enrollment check.
  Their writes (enrollment insert and delete, update, delete with cascade)
  and the listing queries are left out, and so is price filtering with
  `EventFilters`.
- Authorizers.EnrollChecks: running the role check before the
  not-enrolled check is this model's choice. No test fixes that order, and
  the enroll service is not part of this model.
- Authorizers.OwnEventChecks: running the role check before the ownership
  check is this model's choice. The role tests use a participant who owns
  the event, so they do not fix that order.
- EventSchemas.ApplyUpdate: the update service is not part of this model,
  so a price or capacity cannot be cleared back to null through an update
  in the model.
- The `pages` field of the paginated response is never computed and is not
  modelled.
- The username and password patterns are whole-string matches. Python's
  `$` also matches before a trailing newline, and its `\d` matches
  non-ASCII digits; neither is modelled.
- app/users/enums.py is not part of this model. A role is one of the two
  constructors, and an absent or unknown role is reported as missing.
- Pydantic type coercion, the `revoked_at` column and the
  `organizer`/`events_as_organizer` relationships are left out.
