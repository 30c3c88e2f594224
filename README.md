# User directory and escalation-policy proxy: a Dafny model

This project models the request handlers of a small Spring service. The service keeps a
directory of users and proxies a paginated list of "escalation policies" from an external
directory. The model covers three controllers:

- **`/api/users`** (`AppUserController`): list, search, get, create, update and delete of
  user records. Each handler runs the session gate first (a user in the session and the
  `authenticated` flag TRUE). Next comes its role or ownership gate (ADMIN, or the caller's
  own id), then its field checks in the code's order, then at most one store write. Every
  error path leaves the store as it was.
- **`/api/auth`** (`AuthController`): login against the stored password hash, logout,
  `/me`, and the caller's own profile update. The profile update collects one error per bad
  field before answering, and the `isValidEmail` check is part of this controller.
- **`/api/escalation-policies/list`** (`EscalationPoliciesController`): validates page and
  size, turns them into the upstream offset and limit, and turns the upstream answer back
  into page metadata.

The Dafny files are:

| file | contents |
|---|---|
| `wrappers.dfy` | `Option` |
| `strings.dfy` | the `java.lang.String` operations the handlers rely on: `trim`, `isEmpty` after trim, ASCII `toLowerCase`/`toUpperCase`, `contains`, and `length()` in UTF-16 code units. `indexOf` and `lastIndexOf` are not called by the handlers: they are the model's means of deciding the `String.matches` regular expression of `isValidEmail` |
| `users.dfy` | user records, the session, the password encoder, and the store. The store is a value `Directory` (records by id, the order `findAll` lists them in, and the next id), and `UserRepository` is a class whose `save`/`delete` update it in place. |
| `app_user_controller.dfy` | module `AppUserController` (the six handlers) and module `UserStoreInvariants` (what the writes keep true of the store, and the create-duplicate finding) |
| `auth_controller.dfy` | module `AuthController` and module `SessionProperties` (login after create, login after a profile update, invariants of the profile update) |
| `escalation_policies.dfy` | module `EscalationPolicies`: validation, offset/limit, page metadata, and the 32-bit offset finding |

Each handler that writes the store has two parts:

- a function that gives the response and the store it leaves, e.g. `CreateOutcome(session, store, encoder, request)`;
- a method over `UserRepository` that does the same step by step, the way the Java code
  does it. Its `ensures` clause ties its effect to that function.

Handlers that only read are functions. The external client of the escalation-policy
handler is a function parameter `fetch`.

## Model

Source cells are paths relative to the repository root.

| member | source | states |
|---|---|---|
| Strings.Trim | src/main/java/com/user/permissions/appuser/controller/AppUserController.java:277-280 | `trim()` never lengthens a string, and its result neither starts nor ends with a character at or below U+0020 |
| Strings.TrimSpec | src/main/java/com/user/permissions/appuser/controller/AppUserController.java:277-280 | `trim()` returns the infix of the string between a prefix and a suffix made only of characters at or below U+0020 |
| Strings.BlankIffAllTrimmable | src/main/java/com/user/permissions/appuser/controller/AppUserController.java:249-263 | `s.trim().isEmpty()` holds exactly when every character of `s` is at or below U+0020 (both directions) |
| Strings.TrimNoop | src/main/java/com/user/permissions/appuser/controller/AppUserController.java:280 | a string that neither starts nor ends with such a character is its own trim |
| Strings.NotBlank | src/main/java/com/user/permissions/auth/controller/AuthController.java:191 | a string whose first character is visible is not blank |
| Strings.ToLower | src/main/java/com/user/permissions/appuser/controller/AppUserController.java:277 | `toLowerCase()` keeps the length and lower-cases each character in place |
| Strings.ToUpper | src/main/java/com/user/permissions/appuser/controller/AppUserController.java:280 | `toUpperCase()` keeps the length and upper-cases each character in place |
| Strings.ToLowerIsLowerCase | src/main/java/com/user/permissions/appuser/controller/AppUserController.java:277 | a lower-cased string has no upper-case letter, and lower-casing it again changes nothing |
| Strings.Utf16Length | src/main/java/com/user/permissions/auth/controller/AuthController.java:125 | `length()` counts UTF-16 code units: between one and two per character, and exactly one per character iff no character lies beyond U+FFFF |
| Strings.Utf16LengthExample | src/main/java/com/user/permissions/auth/controller/AuthController.java:125 | three emoji are three characters but six code units |
| Strings.ToUpperOfUpper | src/main/java/com/user/permissions/appuser/controller/AppUserController.java:280 | upper-casing a string of upper-case letters changes nothing |
| Strings.IndexOf | src/main/java/com/user/permissions/auth/controller/AuthController.java:196 | the position found holds the character, and no earlier position does; when nothing is found, no position holds it |
| Strings.LastIndexOf | src/main/java/com/user/permissions/auth/controller/AuthController.java:196 | the position found holds the character, and no later position does; when nothing is found, no position holds it |
| Users.FindAll | src/main/java/com/user/permissions/appuser/controller/AppUserController.java:57 | `findAll()` lists every stored record, lists nothing else, and lists them in increasing id order (the model's choice; see "## Left out") |
| Users.FirstWithEmail | src/main/java/com/user/permissions/appuser/repository/AppUserRepository.java:14 | the record found is in the list and has exactly that email; nothing is found iff no listed record has it |
| Users.FindByEmail | src/main/java/com/user/permissions/appuser/repository/AppUserRepository.java:14 | `findByEmail(e)` returns a stored record whose email is exactly `e`, and finds nothing iff no stored record has that email |
| Users.FindByEmailUnique | src/main/java/com/user/permissions/appuser/repository/AppUserRepository.java:14 | when emails are unique, the lookup returns the one record holding the email |
| Users.Insert | src/main/java/com/user/permissions/appuser/controller/AppUserController.java:282 | `save` of a new entity stores it under the next id without touching other records, and `findAll` then lists it last |
| Users.InsertThenFindByEmail | src/main/java/com/user/permissions/auth/controller/AuthController.java:39 | a record saved under an email no other record holds is what `findByEmail` then returns |
| Users.NoOtherHolder | src/main/java/com/user/permissions/appuser/repository/AppUserRepository.java:14 | with unique emails, when `findByEmail(e)` finds nothing or finds record `id`, no other record holds `e` |
| Users.Put | src/main/java/com/user/permissions/appuser/controller/AppUserController.java:380 | `save` of an existing entity replaces that record only; the listing order and the next id are unchanged |
| Users.Without | src/main/java/com/user/permissions/appuser/controller/AppUserController.java:447 | the listing order with one id dropped: it holds exactly the other ids and stays increasing |
| Users.Remove | src/main/java/com/user/permissions/appuser/controller/AppUserController.java:447 | `delete` removes exactly that record; every other record stays |
| Users.FindAllCount | src/main/java/com/user/permissions/appuser/controller/AppUserController.java:76 | `findAll()` returns as many records as the store holds |
| Users.UserRepository.constructor | src/main/java/com/user/permissions/appuser/repository/AppUserRepository.java:13 | a new repository is empty, and its first id is 1 |
| Users.UserRepository.SaveNew | src/main/java/com/user/permissions/appuser/controller/AppUserController.java:282 | the repository's new state is `Insert` of the old one, and the saved entity carries the assigned id |
| Users.UserRepository.SaveExisting | src/main/java/com/user/permissions/appuser/controller/AppUserController.java:380 | the repository's new state is `Put` of the old one |
| Users.UserRepository.Delete | src/main/java/com/user/permissions/appuser/controller/AppUserController.java:447 | the repository's new state is `Remove` of the old one |
| AppUserController.Publics | src/main/java/com/user/permissions/appuser/controller/AppUserController.java:60-71 | each listed record is projected to id, email, name and role, in the same order |
| AppUserController.ListUsers | src/main/java/com/user/permissions/appuser/controller/AppUserController.java:40-85 | 401 unless authenticated. Otherwise any role gets every record in id order, with totalCount equal to the number of stored records. The role check is commented out. |
| AppUserController.Filter | src/main/java/com/user/permissions/appuser/controller/AppUserController.java:118-139 | a record is kept iff every non-blank filter, trimmed and lower-cased, occurs in the lower-cased field; the result is no longer than the input, and an input in increasing id order gives a result in increasing id order |
| AppUserController.FilterKeepsOrder | src/main/java/com/user/permissions/appuser/controller/AppUserController.java:118-139 | for any input order, the stream `filter` returns a subsequence of its input: what it keeps stays in the original order |
| AppUserController.FilterKeepsCount | src/main/java/com/user/permissions/appuser/controller/AppUserController.java:118-139 | for any input, each matching record is kept as often as it occurs, and no other record is kept |
| AppUserController.SearchMatches | src/main/java/com/user/permissions/appuser/controller/AppUserController.java:111-139 | a stored record is in the search result iff it matches all filters; the result is in id order and holds only stored records |
| AppUserController.FilterWithoutFilters | src/main/java/com/user/permissions/appuser/controller/AppUserController.java:111-118 | with no filter given, filtering keeps every record, so the no-filter shortcut changes nothing |
| AppUserController.SearchUsers | src/main/java/com/user/permissions/appuser/controller/AppUserController.java:87-175 | 401, then 403 for non-ADMIN. Otherwise 200 with the matching records, their count, and each criterion echoed as given, or "" when absent. |
| AppUserController.SearchWithoutFiltersIsList | src/main/java/com/user/permissions/appuser/controller/AppUserController.java:111-114 | an ADMIN search without filters returns exactly what GET /list returns |
| AppUserController.GetUserById | src/main/java/com/user/permissions/appuser/controller/AppUserController.java:177-224 | 401, then 403 unless ADMIN or self, then 404. 200 iff all three gates pass, and it carries that record's projection. |
| AppUserController.ValidRoleNormalised | src/main/java/com/user/permissions/appuser/controller/AppUserController.java:266-280 | a role that passed the exact USER/ADMIN check is stored unchanged by `trim().toUpperCase()` |
| AppUserController.CreateFieldError | src/main/java/com/user/permissions/appuser/controller/AppUserController.java:249-268 | the checks run in the code's order, each answering 400 with its own message: a missing email ("Email is required"), then a missing password, then a missing name, then a missing role, then a role that is not exactly USER or ADMIN ("Role must be either USER or ADMIN"). A request passes iff all four fields are given and the role is exactly USER or ADMIN. |
| AppUserController.CreateOutcome | src/main/java/com/user/permissions/appuser/controller/AppUserController.java:227-306 | 401, 403 non-ADMIN, the first failed field check in code order, then "Email already exists" when the trimmed (not lower-cased) email is found. 201 iff all pass; then exactly one record is added under the next id, with the normalised email and the role as given. Every other outcome leaves the store unchanged. |
| AppUserController.CreateUser | src/main/java/com/user/permissions/appuser/controller/AppUserController.java:227-298 | the step-by-step handler produces `CreateOutcome`'s response and store |
| AppUserController.UpdateOutcome | src/main/java/com/user/permissions/appuser/controller/AppUserController.java:308-404 | 401, then 403 unless ADMIN or self, then 404, then `UpdateFieldError`'s answer (collision, role 403, invalid role, no fields). The answer is 200 iff none of these applies. On 200 the record becomes the given fields applied (normalised), and the stored id is kept. A role changes only when the caller is ADMIN, and only to USER or ADMIN. Errors leave the store unchanged. |
| AppUserController.UpdateFieldError | src/main/java/com/user/permissions/appuser/controller/AppUserController.java:337-378 | in the code's order: an email held by another record answers 400 "Email already exists"; otherwise a role from a non-ADMIN answers 403 "Only admins can update user roles"; otherwise a role that is not exactly USER or ADMIN answers 400; a request with no field answers 400 "No valid fields provided for update". A passing request gives at least one field, gives a role only when the caller is ADMIN and the role is valid, and gives no email held by another record. |
| AppUserController.ApplyUpdate | src/main/java/com/user/permissions/appuser/controller/AppUserController.java:333-378 | the sequence of field checks with its `isUpdated` flag stops at exactly the error `UpdateFieldError` names (email collision, role 403, invalid role, no fields), and otherwise yields the applied record |
| AppUserController.UpdateUser | src/main/java/com/user/permissions/appuser/controller/AppUserController.java:308-396 | the step-by-step handler produces `UpdateOutcome`'s response and store |
| AppUserController.DeleteOutcome | src/main/java/com/user/permissions/appuser/controller/AppUserController.java:407-461 | 401, 403 non-ADMIN, then 400 for the caller's own id (checked before existence), then 404. 200 iff all pass; exactly that record is removed (one fewer), and its projection is reported. |
| AppUserController.DeleteUser | src/main/java/com/user/permissions/appuser/controller/AppUserController.java:407-453 | the step-by-step handler produces `DeleteOutcome`'s response and store |
| UserStoreInvariants.NonAdminRoleChangeForbidden | src/main/java/com/user/permissions/appuser/controller/AppUserController.java:357-360 | a USER updating their own record with a role and no colliding email gets 403 "Only admins can update user roles", and the store is unchanged |
| UserStoreInvariants.ValidUpdateSucceeds | src/main/java/com/user/permissions/appuser/controller/AppUserController.java:337-380 | an allowed update of an existing record that gives some field, no email held by another record, and a role only from an ADMIN and only USER or ADMIN, is saved with the fields applied and answered 200 |
| UserStoreInvariants.EmptyUpdateRejected | src/main/java/com/user/permissions/appuser/controller/AppUserController.java:376-377 | an allowed update of an existing record that gives no field gets 400 "No valid fields provided for update", and the store is unchanged |
| UserStoreInvariants.CreateKeepsEmailsLowerCase | src/main/java/com/user/permissions/appuser/controller/AppUserController.java:277 | if every stored email is lower-case, it stays so after a create |
| UserStoreInvariants.UpdateKeepsEmailsLowerCase | src/main/java/com/user/permissions/appuser/controller/AppUserController.java:339 | if every stored email is lower-case, it stays so after an update |
| UserStoreInvariants.UpdateKeepsEmailsUnique | src/main/java/com/user/permissions/appuser/controller/AppUserController.java:337-347 | an update never gives a record an email another record holds |
| UserStoreInvariants.OwnEmailIsNoCollision | src/main/java/com/user/permissions/appuser/controller/AppUserController.java:341-342 | resubmitting one's own email, in any spacing or case, is not an email collision |
| UserStoreInvariants.DeleteThenGetIsNotFound | src/main/java/com/user/permissions/appuser/controller/AppUserController.java:427-447 | after a successful delete, reading that id answers 404 and every other record reads as before |
| UserStoreInvariants.CreateAdmitsCaseVariantDuplicate | src/main/java/com/user/permissions/appuser/controller/AppUserController.java:271-277 | as written: an existing email typed with an upper-case letter passes the duplicate check (201), and the store then holds two records with one email. This assumes the email column has no unique constraint. |
| UserStoreInvariants.CaseVariantExample | src/main/java/com/user/permissions/appuser/controller/AppUserController.java:271-277 | "Admin@example.com" normalises to "admin@example.com" but is not itself lower-case, so it meets the previous lemma's premise |
| UserStoreInvariants.CreateOutcomeCaseInsensitive | src/main/java/com/user/permissions/appuser/controller/AppUserController.java:270-273 | corrected create: the lookup also uses the normalised email. It answers "Email already exists" whenever an ADMIN's valid request has a stored form that is taken, and in every other case its answer and store equal `CreateOutcome`'s. |
| UserStoreInvariants.CaseInsensitiveCreateKeepsEmailsUnique | src/main/java/com/user/permissions/appuser/controller/AppUserController.java:270-282 | with the corrected lookup, a create keeps emails unique |
| AuthController.IsValidEmail | src/main/java/com/user/permissions/auth/controller/AuthController.java:190-198 | an accepted address is not blank, holds an `@`, and has at least six characters (the shortest match is `a@b.cc`) |
| AuthController.IsValidEmailIffPattern | src/main/java/com/user/permissions/auth/controller/AuthController.java:189-198 | the split at the first `@` and at the last `.` accepts a string iff `^[a-zA-Z0-9._%+-]+@[a-zA-Z0-9.-]+\.[a-zA-Z]{2,}$` matches all of it (both directions) |
| AuthController.Login | src/main/java/com/user/permissions/auth/controller/AuthController.java:34-65 | Success means the exact-email record's hash matches the password; the session then holds that user and the flag, and the answer is its projection. Otherwise 400 "Invalid email or password" and the session is untouched. With unique emails: success iff some record has exactly that email and a matching hash. |
| AuthController.GetCurrentUser | src/main/java/com/user/permissions/auth/controller/AuthController.java:73-91 | always 200; `authenticated` iff the session holds a user and the flag is TRUE, and the user is reported only then |
| AuthController.Logout | src/main/java/com/user/permissions/auth/controller/AuthController.java:67-71 | the session is emptied, so `/me` then reports no one |
| AuthController.ProfileErrors | src/main/java/com/user/permissions/auth/controller/AuthController.java:107-135 | the error map has only the keys name, email and password. Each key is present iff its field fails, with that field's message. A collision, checked only for a present and valid email, replaces the email message. The map is empty iff no field fails. |
| AuthController.EmojiPasswordLongEnough | src/main/java/com/user/permissions/auth/controller/AuthController.java:123-127 | a trimmed password of three emoji passes the length check, because `length()` counts six code units |
| AuthController.ThreeBadFields | src/main/java/com/user/permissions/auth/controller/AuthController.java:107-135 | a blank name, a malformed email and a short password give all three errors together, not just the first |
| AuthController.WithErrorKeys | src/main/java/com/user/permissions/auth/controller/AuthController.java:112-126 | `errors.put(k, m)` adds key `k` with message `m`, and every other key keeps its message |
| AuthController.ValidateFields | src/main/java/com/user/permissions/auth/controller/AuthController.java:107-127 | the format checks on name, email and password, run one after another, leave exactly the errors for the fields that fail, each with its message |
| AuthController.CollectErrors | src/main/java/com/user/permissions/auth/controller/AuthController.java:107-135 | the incremental `errors.put` sequence builds exactly `ProfileErrors` |
| AuthController.ProfileSuccess | src/main/java/com/user/permissions/auth/controller/AuthController.java:146-172 | a passed update stores the trimmed name, the trimmed lower-cased email and the hash of the trimmed password. The id and role are kept, the session user is replaced, and the new projection is answered. |
| AuthController.UpdateProfileOutcome | src/main/java/com/user/permissions/auth/controller/AuthController.java:93-187 | 401, then 400 with the whole error map, then 400 "User not found" when the caller's record is gone. 200 iff none of these apply, and then all three fields are written. Otherwise the store and the session are unchanged. |
| AuthController.UpdateProfile | src/main/java/com/user/permissions/auth/controller/AuthController.java:93-187 | the step-by-step handler produces `UpdateProfileOutcome`'s response, session and store |
| AuthController.LoginThenMe | src/main/java/com/user/permissions/auth/controller/AuthController.java:45-46 | after a successful login, `/me` reports the logged-in user |
| SessionProperties.ProfileUpdateKeepsEmailsLowerCase | src/main/java/com/user/permissions/auth/controller/AuthController.java:152 | if every stored email is lower-case, it stays so after a profile update |
| SessionProperties.ProfileUpdateKeepsEmailsUnique | src/main/java/com/user/permissions/auth/controller/AuthController.java:129-135 | a profile update never gives the caller an email another record holds |
| SessionProperties.ProfileUpdateThenLogin | src/main/java/com/user/permissions/auth/controller/AuthController.java:151-160 | after a profile update, logging in with the new email and the trimmed password yields the session the update left |
| SessionProperties.LoginFinds | src/main/java/com/user/permissions/auth/controller/AuthController.java:39-58 | when `findByEmail` finds a record whose hash matches the password, login answers 200 with its projection and the session holds it |
| SessionProperties.CreateThenLogin | src/main/java/com/user/permissions/appuser/controller/AppUserController.java:276-282 | a user created under an address not yet stored can log in with the normalised address and the untrimmed password |
| EscalationPolicies.Offset | src/main/java/com/user/permissions/escalationpolicies/controller/EscalationPoliciesController.java:50 | the offset of a valid page is never negative, and it is zero exactly on page 1 |
| EscalationPolicies.QueryFor | src/main/java/com/user/permissions/escalationpolicies/controller/EscalationPoliciesController.java:50-54 | a valid request asks for `limit = size` and `offset = (page-1)*size`, which is non-negative and zero exactly on page 1, always asks for the total, and passes the query through |
| EscalationPolicies.CeilDiv | src/main/java/com/user/permissions/escalationpolicies/controller/EscalationPoliciesController.java:61 | `totalPages` is the ceiling: `(totalPages-1)*size < totalRecords <= totalPages*size` |
| EscalationPolicies.CeilDivZero | src/main/java/com/user/permissions/escalationpolicies/controller/EscalationPoliciesController.java:61 | for a real record count, `totalPages` is non-negative, and it is zero iff there are no records |
| EscalationPolicies.PageMetadata | src/main/java/com/user/permissions/escalationpolicies/controller/EscalationPoliciesController.java:60-63 | the metadata echoes page and size. The total is the upstream total or 0, the page count is the ceiling of total over size, `hasNext` holds iff the page is before the last, the offset is `(page-1)*size`, and `hasPrevious` holds iff the page is after the first, that is iff the offset skips records |
| EscalationPolicies.ListEscalationPolicies | src/main/java/com/user/permissions/escalationpolicies/controller/EscalationPoliciesController.java:26-105 | 400 for page < 1 (checked first), then 400 for size outside 1..100; 400 iff the request is invalid. Otherwise the page, size, offset `(page-1)*size >= 0` and limit `size` are reported. An answer gives its items (or []), its total (or 0), the ceiling page count, `hasNext` iff page < totalPages, and `hasPrevious` iff page > 1. No answer gives zeros and both flags false, even on page > 1. An exception gives 500 with its message. |
| EscalationPolicies.InvalidRequestIgnoresUpstream | src/main/java/com/user/permissions/escalationpolicies/controller/EscalationPoliciesController.java:35-47 | an invalid request is answered the same whatever the upstream would say |
| EscalationPolicies.OnlyQueryForIsAsked | src/main/java/com/user/permissions/escalationpolicies/controller/EscalationPoliciesController.java:50-54 | a valid request depends on the upstream only through the one query sent. That query is (limit = size, offset = (page-1)*size, includeTotal = true, the query unchanged). |
| EscalationPolicies.DefaultRequestQuery | src/main/java/com/user/permissions/escalationpolicies/request/EscalationPolicyRequest.java:5-8 | the defaults pass validation and ask for offset 0, limit 10 |
| EscalationPolicies.HasNextIffMoreRecords | src/main/java/com/user/permissions/escalationpolicies/controller/EscalationPoliciesController.java:60-62 | `hasNext` holds exactly when some record lies beyond the current page (`page*size < totalRecords`) |
| EscalationPolicies.PaginationExamples | src/main/java/com/user/permissions/escalationpolicies/controller/EscalationPoliciesController.java:50-61 | page 3 of size 10 starts at 20; 21 records in pages of 5 make 5 pages and 20 make 4 |
| EscalationPolicies.WrapInt32 | src/main/java/com/user/permissions/escalationpolicies/controller/EscalationPoliciesController.java:50 | Java `int` wrap-around: the result lies in the 32-bit range, differs from the exact value by a multiple of 2^32, and equals it when it already fits |
| EscalationPolicies.AsWrittenOffset | src/main/java/com/user/permissions/escalationpolicies/controller/EscalationPoliciesController.java:50 | the offset as computed in 32 bits is an `int` congruent to the true offset modulo 2^32, and equal to it whenever the product fits |
| EscalationPolicies.AsWrittenOffsetOverflows | src/main/java/com/user/permissions/escalationpolicies/controller/EscalationPoliciesController.java:35-54 | page 21474838, size 100 passes validation, yet the 32-bit offset is -2147483596 where the true one is 2147483700 |

## Left out

- Timestamps (`createdAt`, `updatedAt`) are left out of records and responses. The entity class is not part of this model.
- Password hashing is a pair of functions given as a parameter. BCrypt's random salt is not modelled. `Sound` assumes only that a password matches its own hash.
- Login with a missing (`null`) password is modelled as "does not match". In the Java code, the encoder's reaction to a `null` raw password is not part of this model.
- Login with a missing email finds no record, as the derived query does for `null`.
- Case conversion is ASCII-only. Java's Unicode case mappings and the locale are not modelled.
- The `catch (Exception e)` branches that answer 500 in the user and auth handlers are left out. Store failures are not part of this model. Neither is any unique constraint on the email column: the entity class is not part of this model, and the model assumes the column has none.
- Error paths leave the store unchanged. In the Java code the update handler mutates the fetched entity before some of its error returns. This holds only if that entity is never flushed without a `save`, as with an open session and no transaction. The persistence configuration is not part of this model.
- The session is a value passed in and returned. Concurrent requests on one session and session expiry are left out.
- The external client (HTTP, the API token, its own error handling and logging) is the parameter `fetch`. Its outcomes are an answer, an empty `Optional`, and an exception message. The client in `src/main/java/com/user/permissions/config/client/ExternalApiClient.java:102-111` catches every exception and returns an empty `Optional`, so with that client the `Threw` case never reaches the handler. The model keeps `Threw` as a generalisation that covers the handler's own `catch` branch, which answers 500.
- Users.FindAll: `findAll()` without a `Sort` issues a query with no `ORDER BY`, so the order of its rows is up to the database. The model fixes it to increasing id, which is the insertion order. The "id order" results of list and search (`Users.FindAll`, `AppUserController.SearchMatches`) hold only under this choice. `AppUserController.FilterKeepsOrder` and `AppUserController.FilterKeepsCount` hold for any input order.
- Users.FindByEmail: when two records hold the same email, the derived single-result query `Optional<AppUser> findByEmail` throws `IncorrectResultSizeDataAccessException`. The model returns the first record in listing order instead. Create and update would then answer 500 from their `catch` branches. Login and the profile update's collision check have no `catch`, so the exception would propagate. This state is reachable only through the create finding below, and every lemma about the store under `UniqueEmails` excludes it.
- EscalationPolicies.ListEscalationPolicies: the metadata uses the mathematical offset `(page-1)*size`, not the 32-bit product (see Findings). A `null` exception message and a page or size bound to `null`, which fail before the handler's checks, are left out.
- EscalationPolicies.CeilDiv: this is the integer ceiling. `(int) Math.ceil((double) t / size)` equals it because a 32-bit count divided by a size of at most 100 is exact enough, but the floating-point computation itself is not modelled.
- The request's `includeTotal` and `teamId` fields are bound but never used by the handler. The model carries them and proves the upstream query does not depend on them.
- `Policy` keeps only `id`, `name` and `summary` of the eight fields of `EscalationPolicy`; `type`, `self`, `htmlUrl`, `onCallHandoffNotifications` and `numLoops` are left out. No property depends on them, because the handler passes the list through unchanged. The upstream-response DTO is reduced to its fields, and the JSON names and `toString` of both are left out.
- Request binding (JSON bodies as string maps, path variables as `Long`) is left out. Ids are unbounded integers, and a missing body key is `None`.

## Findings

| source | as written | input that shows it | evidently intended | confidence | as-written member | corrected member |
|---|---|---|---|---|---|---|
| src/main/java/com/user/permissions/appuser/controller/AppUserController.java:271-277 | create looks up `email.trim()` but stores `email.trim().toLowerCase()` | "admin@example.com" is stored; an ADMIN creates "Admin@example.com" with valid fields (201 and two holders, assuming the email column has no unique constraint; with one, the handler answers 500 and the store is unchanged) | the duplicate check uses the stored (lower-cased) form, as update and the profile update do, so emails stay unique | high; not executed | UserStoreInvariants.CreateAdmitsCaseVariantDuplicate | UserStoreInvariants.CaseInsensitiveCreateKeepsEmailsUnique |
| src/main/java/com/user/permissions/escalationpolicies/controller/EscalationPoliciesController.java:50 | `int offset = (page - 1) * size` in 32-bit arithmetic | page = 21474838, size = 100 (both valid) gives offset -2147483596 | a non-negative offset `(page-1)*size`, computed without overflow (e.g. in `long`) or with page bounded | high; not executed | EscalationPolicies.AsWrittenOffsetOverflows | EscalationPolicies.Offset |

In the create finding, the handler model `AppUserController.CreateOutcome` and its method
`CreateUser` follow the code as written. The corrected lookup is
`UserStoreInvariants.CreateOutcomeCaseInsensitive`. In the offset finding,
`EscalationPolicies.ListEscalationPolicies` uses the corrected `Offset`.
