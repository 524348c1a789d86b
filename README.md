# To-do app core, modelled in Dafny

This project models the logic core of a small to-do web application:

- the development authentication server (`mock-auth-server.js`): an in-memory
  user array with register / login / verify / profile / logout handlers that
  issue and check seven-day session tokens;
- the backend token helpers (`jwt_utils.py`): the signing secret, access
  token issue with a seven-day default lifetime, and the three checks of a
  bearer token;
- the task record and its request models (`models/task.py`), the task service
  over the `tasks` table (`task_service.py`) and the six task routes with their
  owner-match guard (`api/tasks.py`);
- the validation and state handling of the sign-up page, the sign-in page and
  the task form component.

JSON Web Tokens (RFC 7519) signed with HS256 (section 3.2 of RFC 7518) are
modelled symbolically (module `Jwt`): a token records its claims and the key
that signed it; the text form is a `Codec` parameter, and the one thing assumed
of it (`Faithful`) is that parsing undoes serialising and that a serialised token
is one non-empty word; nothing is assumed about texts the codec did not
produce. Decoding checks the signature, then an `exp` that is not a number
(Invalid), then `exp <= now` (Expired). jsonwebtoken rejects every non-number
`exp` this way; PyJWT converts with `int(...)` and so also accepts a numeric
string (see "Claim values" under "## Left out").

The clock (`Date.now()`, `datetime.utcnow()`), new ids (`Date.now().toString()`,
`uuid4`) and the environment variable are parameters. The mock server's user
array is a `seq<User>` field of the class `AuthServer`; the `tasks` table is a
`map` from primary key to row in the class `TaskTable`; each page keeps its form
and its error record as fields of a class, and `validateForm` fills a local
record check by check. Module `Text` holds the string operations the pages use:
`String.prototype.trim` over ASCII whitespace and the email pattern
`/\S+@\S+\.\S+/`, stated as an existence of indices and decided by a one-pass
scan.

Three behaviours of the code are modelled as written:

- `get_current_user` checks for a missing `sub` after `verify_token` has already
  rejected such a payload, so that second check never fires
  (`JwtUtils.GetCurrentUser`).
- The update route forwards `TaskUpdateRequest.title`, which may be null.
  `update_task` stores it, and the NOT NULL title column then makes the commit
  fail: the model answers 500 and leaves the table as it was. A null
  description clears the stored description (`TaskService.TaskTable.UpdateTask`).
- `max_length` on the table model becomes VARCHAR(255) / VARCHAR(1000)
  columns, and the request schemas carry no bounds. PostgreSQL assigns a value
  to such a column as its manual's section on character types describes: a
  value longer than the column is cut to the column's width when the excess
  is all spaces, and is an error otherwise. So a title of 255 letters and one
  space is stored as the 255 letters and answered 201 (or 200 on update) with
  the stored row, while a title over 255 characters with anything but spaces
  past the 255th, or such a description over 1000, is answered 500 and changes
  nothing (`TaskModel.Varchar`, `TaskModel.StoredRow`).

## Model

| member | source | states |
|---|---|---|
| Text.Trim | phase2/frontend/app/auth/signup/page.tsx:40 | `trim()` never lengthens the string, and a non-empty result begins and ends with non-whitespace |
| Text.TrimCutsBlankEnds | phase2/frontend/app/auth/signup/page.tsx:40 | what `trim()` keeps is a slice s[a..b] with only whitespace before a and after b; with the ends above, exactly the string with both whitespace ends removed |
| Text.TrimEmptyIffBlank | phase2/frontend/app/auth/signup/page.tsx:40 | `!s.trim()` holds exactly when every character of s is whitespace (both directions) |
| Text.EmailShapedIffMatchAt | phase2/frontend/app/auth/signup/page.tsx:46 | a string contains X@Y.Z (non-empty non-whitespace runs) iff it has an '@' and a later '.' with one non-space character before and after and only non-space between |
| Text.MatchesEmail | phase2/frontend/app/auth/signup/page.tsx:46 | the scan answers true exactly when the string contains X@Y.Z with X, Y, Z non-empty runs of non-whitespace |
| Jwt.Sign | phase2/backend/security/jwt_utils.py:33 | the token carries exactly the given claims and is authentic for that key and no other |
| Jwt.Decode | phase2/backend/security/jwt_utils.py:42 | a decode succeeds only for a token signed with the key whose `exp` is still ahead, and then yields exactly the signed claims; Expired only for an authentic token past `exp`; the token is authentic with a well-formed `exp` iff the result is Ok or Expired |
| Jwt.SignThenDecode | phase2/backend/security/jwt_utils.py:32-33 | round trip: a token signed with the key decodes to exactly its claims before `exp` and is Expired from `exp` on |
| Jwt.ForeignTokenRejected | phase2/mock-auth-server.js:85-89 | a token signed with another key, or not signed, is Invalid at every time |
| MockAuthServer.SigningKey | phase2/mock-auth-server.js:13 | the environment secret when set and non-empty, otherwise 'supersecretkeyfordevelopment'; never empty |
| MockAuthServer.Split | phase2/mock-auth-server.js:78 | `split(' ')` yields at least one piece, no piece holds a space, and joining the pieces with ' ' gives back the header |
| MockAuthServer.SplitWord | phase2/mock-auth-server.js:78 | splitting a space-free word followed by more text puts the word first and splits the rest after it |
| MockAuthServer.SplitJoin | phase2/mock-auth-server.js:78 | splitting the join of space-free pieces gives back the pieces (inverse of Split) |
| MockAuthServer.HeaderToken | phase2/mock-auth-server.js:78-82 | the token is the second piece of `split(' ')`; an absent header, a missing second piece or an empty one give no token; a token is a non-empty space-free word |
| MockAuthServer.SplitLeadingSpace | phase2/mock-auth-server.js:78 | a leading space splits off an empty first piece |
| MockAuthServer.BearerHeader | phase2/mock-auth-server.js:78 | for a header '<scheme> <token>', alone or followed by more space-separated text, the token read is exactly the second word, whatever the scheme |
| MockAuthServer.OneWordHeader | phase2/mock-auth-server.js:78-82 | a one-word header gives no token (401 'No token provided') |
| MockAuthServer.DoubleSpaceHeader | phase2/mock-auth-server.js:78-82 | two spaces after the scheme leave the second piece empty, so no token, whatever follows |
| MockAuthServer.Find | phase2/mock-auth-server.js:23 | `users.find` yields the index of the first matching user, or none when no user matches |
| MockAuthServer.NewUser | phase2/mock-auth-server.js:29-35 | the stored record holds the given id, email, name and password as sent, created now; its public form drops only the password |
| MockAuthServer.AfterRegister | phase2/mock-auth-server.js:22-36 | a taken email leaves the users unchanged; otherwise exactly one record with the given email, name and password is appended; distinct emails stay distinct |
| MockAuthServer.ReplayKeepsEmailsUnique | phase2/mock-auth-server.js:16-36 | over any sequence of calls, emails stay pairwise distinct and earlier records keep their place and value |
| MockAuthServer.SessionClaims | phase2/mock-auth-server.js:39-43 | the signed payload carries sub = user id, email and name when defined, iat = now and exp = now + 7 days, and nothing else |
| MockAuthServer.AuthServer.constructor | phase2/mock-auth-server.js:13-16 | the store starts empty and signs with the configured or default secret |
| MockAuthServer.AuthServer.Issue | phase2/mock-auth-server.js:39-49 | a session reply whose user is the public record, whose refresh token is the token, and whose token parses to the session claims signed with the server key |
| MockAuthServer.AuthServer.Register | phase2/mock-auth-server.js:19-50 | a taken email gives 400 'User already exists' and no change; otherwise the new user is appended and the reply is its session |
| MockAuthServer.AuthServer.Login | phase2/mock-auth-server.js:53-74 | a session is issued iff some stored user has exactly this email and password, for such a user; every other request gets 401 'Invalid credentials'; the store is only read; with distinct emails the session is that of the one user with this email |
| MockAuthServer.AuthServer.Verify | phase2/mock-auth-server.js:77-90 | no token gives 401 'No token provided'; for a token, `{valid: true}` with the decoded claims iff the decode succeeds, 401 'Invalid token' otherwise |
| MockAuthServer.AuthServer.GetProfile | phase2/mock-auth-server.js:93-112 | no token gives 401 'No token provided'; 401 'Invalid token' iff the decode fails; for decoded claims, 404 'User not found' iff no stored id equals sub, otherwise the public record of the first user whose id is sub |
| MockAuthServer.AuthServer.Logout | phase2/mock-auth-server.js:115-118 | always 'Logged out successfully'; the store is not touched |
| MockAuthServer.IssuedTokenLifetime | phase2/mock-auth-server.js:39-49 | the issued token equals the refresh token, the reply user has no password, and the token decodes to the session claims for seven days, Expired from then on |
| MockAuthServer.SessionTokenVerifies | phase2/mock-auth-server.js:77-90 | the token of a register or login reply, sent as '<scheme> <token>', is answered valid with its session claims until seven days after issue |
| MockAuthServer.RegisterThenUseToken | phase2/mock-auth-server.js:93-108 | after a successful register, within seven days login with the same credentials succeeds and the profile behind the returned token is the new user's |
| JwtUtils.LoadSecret | phase2/backend/security/jwt_utils.py:13-15 | loading fails with 'BETTER_AUTH_SECRET environment variable not set' iff the variable is unset or empty |
| JwtUtils.ExpiresAt | phase2/backend/security/jwt_utils.py:27-30 | `exp` is now + delta for a non-zero delta, now + 10080 minutes otherwise |
| JwtUtils.AccessClaims | phase2/backend/security/jwt_utils.py:26-32 | the encoded claims are the caller's with `exp` set (an old `exp` replaced) and every other claim kept |
| JwtUtils.CreateAccessToken | phase2/backend/security/jwt_utils.py:22-34 | the token is non-empty and parses to the access claims signed with the secret |
| JwtUtils.VerifyToken | phase2/backend/security/jwt_utils.py:37-62 | accepted iff the token decodes and names a subject, with the decoded payload; 'Token has expired' iff the decode reports expiry; every other failure 'Could not validate credentials' |
| JwtUtils.VerifyTokenAsWritten | phase2/backend/security/jwt_utils.py:41-62 | as written: the same payload as VerifyToken on success and the same expiry error; every other failure is an AttributeError where VerifyToken answers 'Could not validate credentials' |
| JwtUtils.ForeignKeyRaisesAsWritten | phase2/backend/security/jwt_utils.py:57-62 | a token signed with another key raises AttributeError as written, where 401 'Could not validate credentials' is intended |
| JwtUtils.GetCurrentUser | phase2/backend/security/jwt_utils.py:65-81 | fails iff `verify_token` fails, with its error; otherwise sub and email of an authentic unexpired token, sub never null |
| JwtUtils.VerifyUserIdInToken | phase2/backend/security/jwt_utils.py:84-93 | true iff the token is authentic, unexpired and its sub is the expected id; false on every failure |
| JwtUtils.AccessTokenLifetime | phase2/backend/security/jwt_utils.py:22-34 | an access token for a subject verifies to its claims until `exp` and gives 'Token has expired' from then on |
| JwtUtils.ForeignKeyRejected | phase2/backend/security/jwt_utils.py:57-62 | a token signed with another secret gets 'Could not validate credentials', never the expiry message |
| TaskModel.NewTask | phase2/backend/models/task.py:14-23 | a new row has the given id, title, description and owner, `completed` false and both times now; it is within the declared bounds iff each field is, and fits its columns iff title, description and owner are short enough |
| TaskModel.Varchar | phase2/backend/models/task.py:18-21 | a VARCHAR(n) column keeps a value of at most n characters unchanged, cuts a longer one to n characters exactly when everything after the nth is a space, and refuses it otherwise; what is stored is a prefix whose cut-off part is spaces |
| TaskModel.SpacePaddingCut | phase2/backend/models/task.py:18 | a value of exactly n characters followed by any run of spaces is stored as that value |
| TaskModel.VarcharOption | phase2/backend/models/task.py:19 | the nullable description column keeps NULL and assigns a string as VARCHAR(1000) does |
| TaskModel.StoredRow | phase2/backend/models/task.py:14-23 | an insert is accepted iff title, description and owner are each accepted by their column; the stored row has those three coerced, everything else as given, fits its columns, and a row that already fits is stored unchanged |
| TaskModel.ValidateTaskCreate | phase2/backend/models/task.py:26-29 | accepted iff title is 1..255 characters, description absent or at most 1000, user id present and at most 255 |
| TaskModel.ValidateTaskUpdate | phase2/backend/models/task.py:32-35 | every field optional; accepted iff a given title is 1..255 characters and a given description at most 1000 |
| TaskModel.ValidateTaskToggleComplete | phase2/backend/models/task.py:38-39 | accepted iff `completed` is given, and then carries it |
| TaskService.Lookup | phase2/backend/services/task_service.py:44-51 | a row is found iff both its id and its owner match; a row of another owner is 404 'Task not found' like a missing one |
| TaskService.Inserted | phase2/backend/services/task_service.py:15-24 | insert adds exactly one row under its id and keeps every other row; inserting a row that fits keeps every row within its columns |
| TaskService.WithDetails | phase2/backend/services/task_service.py:67-71 | title, description and update time change on that row only; id, owner, completion, creation time and all other rows unchanged; values that fit keep every row within its columns |
| TaskService.WithCompleted | phase2/backend/services/task_service.py:108-111 | the flag takes the given value and the update time moves; nothing else changes |
| TaskService.Without | phase2/backend/services/task_service.py:89-90 | exactly that row is removed and every other row kept |
| TaskService.SetCompletedIdempotent | phase2/backend/services/task_service.py:104-109 | setting completion twice with the same value is setting it once |
| TaskService.TaskTable.CreateTask | phase2/backend/services/task_service.py:10-27 | a new uncompleted row owned by the given user is inserted and answered as the database stores it (`StoredRow`); a taken id or a value its column refuses fails with 500 and no change; every stored row fits its columns |
| TaskService.TaskTable.GetTasksByUserId | phase2/backend/services/task_service.py:30-37 | the result holds exactly the rows of that owner, each once |
| TaskService.TaskTable.GetTaskByIdAndUserId | phase2/backend/services/task_service.py:40-51 | the row when id and owner match, 404 'Task not found' otherwise |
| TaskService.TaskTable.UpdateTask | phase2/backend/services/task_service.py:54-74 | a miss is 404 with no change; a null title, or a title or description its column refuses, fails on commit with 500 and no change; otherwise the table is WithDetails of the old one with the values as their columns store them |
| TaskService.TaskTable.DeleteTask | phase2/backend/services/task_service.py:77-92 | a miss is 404 with no change; otherwise exactly that row goes and the answer is true |
| TaskService.TaskTable.ToggleTaskCompletion | phase2/backend/services/task_service.py:95-114 | a miss is 404 with no change; otherwise the table is WithCompleted of the old one |
| TasksApi.Gate | phase2/backend/api/tasks.py:22-33 | a request passes iff `verify_user_id_in_token` holds for its token and the path user; a token `get_current_user` rejects gets exactly its 401; an accepted token naming another user gets 403 with the route's message; a pass carries exactly the user `get_current_user` returned |
| TasksApi.RowsOfOthersUntouched | phase2/backend/api/tasks.py:29-33 | over any sequence of requests none of which carries a valid token of a user, that user's rows stay present and unchanged |
| TasksApi.CreateTaskRoute | phase2/backend/api/tasks.py:18-44 | refused requests change nothing; an authorised one creates a row owned by the path user and answers 201 with it as stored, or 500 for a taken id or a value its column refuses |
| TasksApi.GetTasksRoute | phase2/backend/api/tasks.py:47-71 | an authorised request gets `{tasks}` holding exactly the path user's rows, each once |
| TasksApi.GetTaskRoute | phase2/backend/api/tasks.py:74-94 | an authorised request gets the row the path user owns, or 404 |
| TasksApi.UpdateTaskRoute | phase2/backend/api/tasks.py:97-125 | only title and description are forwarded, so completion never changes here; 404 on a miss, 500 for a null title or a title or description its column refuses; otherwise 200 with the row as stored |
| TasksApi.DeleteTaskRoute | phase2/backend/api/tasks.py:128-148 | an authorised delete of an owned row answers 204 with no body, else 404 |
| TasksApi.ToggleTaskCompletionRoute | phase2/backend/api/tasks.py:151-178 | `completed` is forwarded unchanged; 404 on a miss |
| FormChecks.EmailMessage | phase2/frontend/app/auth/signup/page.tsx:44-48 | a message iff the email is blank or has no X@Y.Z: 'Email is required' for blank, 'Email is invalid' otherwise |
| FormChecks.CheckEmail | phase2/frontend/app/auth/signin/page.tsx:38-42 | the `email` entry is set by the email rule and every other entry is kept |
| SignUpPage.NoErrorsIffAcceptable | phase2/frontend/app/auth/signup/page.tsx:60-61 | an error record built by the four checks is empty iff the form passes all of them |
| SignUpPage.CheckName | phase2/frontend/app/auth/signup/page.tsx:40-42 | 'Name is required' iff the name is blank after trimming; other entries kept |
| SignUpPage.CheckPassword | phase2/frontend/app/auth/signup/page.tsx:50-54 | an entry iff the untrimmed password has under 6 characters: 'Password is required' when empty, the length message otherwise |
| SignUpPage.CheckConfirm | phase2/frontend/app/auth/signup/page.tsx:56-58 | 'Passwords do not match' iff the two passwords differ, whatever the other checks say |
| SignUpPage.CollectErrors | phase2/frontend/app/auth/signup/page.tsx:38-58 | the record holds exactly the four entries the rules call for, all non-empty, and is empty iff the form is acceptable |
| SignUpPage.SignUpPage.constructor | phase2/frontend/app/auth/signup/page.tsx:13-19 | four empty fields and no errors |
| SignUpPage.SignUpPage.HandleChange | phase2/frontend/app/auth/signup/page.tsx:23-35 | only the named field changes and only its error is removed |
| SignUpPage.SignUpPage.ValidateForm | phase2/frontend/app/auth/signup/page.tsx:37-62 | the errors become exactly what the rules report, and the answer is true iff there are none |
| SignUpPage.SignUpPage.HandleSubmit | phase2/frontend/app/auth/signup/page.tsx:64-90 | `signIn` gets email, password, name and '/dashboard' iff the form is acceptable; a returned error becomes the sole `general` error, a throw 'An error occurred during sign up', success redirects |
| SignInPage.NoErrorsIffAcceptable | phase2/frontend/app/auth/signin/page.tsx:48-49 | an error record built by the two checks is empty iff the form passes both |
| SignInPage.CheckPassword | phase2/frontend/app/auth/signin/page.tsx:44-46 | 'Password is required' iff the password is the empty string; no length rule |
| SignInPage.CollectErrors | phase2/frontend/app/auth/signin/page.tsx:36-46 | the record holds exactly the email and password entries the rules call for, and is empty iff the form is acceptable |
| SignInPage.SignInPage.constructor | phase2/frontend/app/auth/signin/page.tsx:13-17 | two empty fields and no errors |
| SignInPage.SignInPage.HandleChange | phase2/frontend/app/auth/signin/page.tsx:21-33 | only the named field changes and only its error is removed |
| SignInPage.SignInPage.ValidateForm | phase2/frontend/app/auth/signin/page.tsx:35-50 | the errors become exactly what the rules report, and the answer is true iff there are none |
| SignInPage.SignInPage.HandleSubmit | phase2/frontend/app/auth/signin/page.tsx:52-75 | an invalid form never reaches `signIn`; a returned error becomes the sole `general` error, a throw 'An error occurred during sign in', success redirects to '/dashboard' |
| TaskFormComponent.TaskForm.constructor | phase2/frontend/components/tasks/TaskForm.tsx:19-24 | the initial data with absent or falsy values replaced by '', '' and false |
| TaskFormComponent.TaskForm.HandleChange | phase2/frontend/components/tasks/TaskForm.tsx:26-43 | the checkbox stores its boolean, the text inputs their string; only that field changes and only its error is removed |
| TaskFormComponent.CheckTitle | phase2/frontend/components/tasks/TaskForm.tsx:45-50 | the fresh record holds a 'Title is required' entry exactly when the title is blank after trimming, and nothing else |
| TaskFormComponent.TaskForm.ValidateForm | phase2/frontend/components/tasks/TaskForm.tsx:45-54 | a 'Title is required' entry iff the title is blank after trimming, nothing else; true iff no error |
| TaskFormComponent.TaskForm.HandleSubmit | phase2/frontend/components/tasks/TaskForm.tsx:56-64 | `onSubmit` receives the current form exactly when the title is not blank |

## Left out

- HMAC-SHA256 and the base64url/JSON text of tokens: the signature is symbolic and the text form is the `Codec` parameter, assumed `Faithful`.
- The `nbf`, `iat`, `aud` and algorithm-header checks of the token libraries; only the signature and `exp` are modelled.
- VerifyToken, GetCurrentUser, VerifyUserIdInToken: modelled with the intended 401 'Could not validate credentials' for every failure other than expiry; as written each such failure raises AttributeError (a 500) and `verify_user_id_in_token` raises instead of returning False (see Findings).
- Claim values other than strings and integers; a `timedelta` is whole seconds and the clock is whole seconds. A numeric-string `exp`, which PyJWT accepts and jsonwebtoken rejects, is a string here and so always Invalid.
- JavaScript's Unicode whitespace set for `trim()` and `\s`/`\S`: whitespace is the six ASCII characters; string length counts characters, not UTF-16 code units.
- Async sessions, commit/refresh, concurrency and the check-then-insert race of register: the model is sequential.
- Id generation (`Date.now().toString()`, `uuid4`): ids are inputs, and their freshness is not assumed.
- The order of rows returned by `get_tasks_by_user_id`: SQL gives none, the model promises none.
- TaskService.TaskTable.CreateTask: the declared minimum title length is not enforced (a table model skips validation and the column has no minimum), so an empty title is stored.
- pydantic coercion of request bodies (for example strings to booleans) and the 422 responses for malformed bodies.
- The `HTTPBearer` dependency that answers 403 for a missing or non-Bearer Authorization header before any handler runs.
- The `WWW-Authenticate` response header, CORS and the HTTP framework around every handler.
- Rendering, routing and the `Input`/`Card`/`Button` components of the pages.

## Findings

| source | as written | input that shows it | evidently intended | confidence | as-written member | corrected member |
|---|---|---|---|---|---|---|
| phase2/backend/security/jwt_utils.py:57 | `except jwt.JWTError` names an attribute PyJWT does not have, so every non-expiry failure (including the missing-`sub` error raised in the same `try`) becomes AttributeError, a 500, and `verify_user_id_in_token` raises instead of returning False | a token signed with any other key | 401 'Could not validate credentials' | not executed; high, PyJWT defines `PyJWTError`, not `JWTError` | JwtUtils.VerifyTokenAsWritten, JwtUtils.ForeignKeyRaisesAsWritten | JwtUtils.VerifyToken, JwtUtils.ForeignKeyRejected |
