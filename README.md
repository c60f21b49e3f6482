# Realtor app API: role gate, signup and listing projection

A Dafny model of three pieces of a NestJS real-estate listing API:

- **The role gate** `AuthGuard.canActivate`. An endpoint carries a list of
  user types that may call it. The list comes from the handler's metadata,
  or from the class's when the handler has none. An endpoint without such a
  list, or with an empty one, is public. Otherwise the gate takes the bearer
  token from the `Authorization` header using JavaScript's
  `split('Bearer ')[1]`. It verifies the token (a JSON Web Token, RFC 7519)
  and looks up the user the token's `id` names. It admits the request exactly
  when that user's `user_type` in the directory is in the list. Every failure
  gives `false`, including an exception thrown by verification or by the
  lookup.
- **Signup** `AuthService.signup`. If the email is already registered, signup
  is refused with a conflict. Otherwise it appends one user row: the given
  email, name and phone, the hashed password and the type `BUYER`.
- **The listing projection** in `HomeService.gethomes`. Each row the home query
  returns is copied, given `image` = the URL of its first image, and stripped
  of `images`.

Files:

- `wrappers.dfy` (`Wrappers`): `Option` and `Result`.
- `user_model.dfy` (`UserModel`): user types and the user row.
- `bearer_token.dfy` (`BearerToken`): `String.prototype.split` by a non-empty
  separator, `join` (proved a left inverse of the split), and the token
  extraction.
- `auth_guard.dfy` (`AuthGuard`): the gate as a total function of the role
  metadata, the header and two collaborators.
- `auth_service.dfy` (`AuthService`): the pure function `SignupOn` that
  specifies signup, and lemmas about it. Also the classes `UserTable` (the
  user table, changed in place by `Create`) and `Service`, whose `Signup`
  method is proved to follow `SignupOn`.
- `home_service.dfy` (`HomeService`): the projection and `GetHomes`. `GetHomes`
  is the `map`. It fails as a whole when a row has no image, because reading
  `images[0].url` of such a row throws.

The collaborators are parameters:

- `verify: Option<string> -> VerifyOutcome` stands for `jwt.verify` with the
  signing secret. Signature checking and the expiry check of section 4.1.4 of
  RFC 7519 happen inside it. It is passed `None` when the token is
  `undefined`.
- `findUser: int -> Lookup` stands for the directory lookup by id. The lookup
  can find a user, find none, or throw.
- `hash: (string, nat) -> string` stands for `bcrypt.hash`. Signup applies it
  to the password and the cost factor 10.

All three pieces are functions of their inputs. So the model is deterministic
(same inputs, same decision), and the rows passed to `GetHomes` are never
changed.

Facts about the gate's code that the model keeps:

- The gate returns only a boolean. The lemmas tell the failure paths apart
  by their hypotheses (verification rejected, user not found or lookup
  thrown, user type not among the roles).
- `Bearer ` need not be a prefix of the header. The token is the text after
  its first occurrence, up to the next occurrence or the end
  (`TokenIsSecondPiece`, `ExtractMiddleSegment`).
- Of the directory record the gate reads only `user_type`; the role never
  comes from the token.
- The gate performs no ownership check, and listing builds no search filter.

## Model

| member | source | states |
|---|---|---|
| `BearerToken.FindFrom` | src/guards/auth.guard.ts:30 | the index found is at or after the start, `sep` occurs there, and it occurs nowhere between; None means no occurrence at or after the start |
| `BearerToken.Split` | src/guards/auth.guard.ts:30 | a split always yields at least one piece, so `[1]` is the first piece after a separator |
| `BearerToken.JoinSplitFrom` | src/guards/auth.guard.ts:30 | joining the pieces of `s[p..]` with the separator gives `s[p..]` back |
| `BearerToken.JoinSplit` | src/guards/auth.guard.ts:30 | `s.split(sep).join(sep) == s` for every string and non-empty separator |
| `BearerToken.SplitFromPiecesFree` | src/guards/auth.guard.ts:30 | no piece of the split of `s[p..]` contains the separator |
| `BearerToken.SplitPiecesFree` | src/guards/auth.guard.ts:30 | no piece of a split contains the separator |
| `BearerToken.SplitWithoutSeparator` | src/guards/auth.guard.ts:30 | a string without the separator splits into the one-element list of itself |
| `BearerToken.NoBearerNoToken` | src/guards/auth.guard.ts:30 | an absent header, or one in which "Bearer " never occurs, gives an undefined token |
| `BearerToken.NoTokenNoBearer` | src/guards/auth.guard.ts:30 | conversely, an undefined token means the header is absent or has no "Bearer " in it |
| `BearerToken.TokenIsSecondPiece` | src/guards/auth.guard.ts:30 | the token is the text between the first "Bearer " (anywhere in the header) and the next one, or the end |
| `BearerToken.TokenHasNoBearer` | src/guards/auth.guard.ts:30 | an extracted token never contains "Bearer " |
| `BearerToken.ExtractPrefixed` | src/guards/auth.guard.ts:30 | "Bearer abc" gives the token "abc" |
| `BearerToken.ExtractEmptyToken` | src/guards/auth.guard.ts:30 | "Bearer " gives the empty token, not an undefined one |
| `BearerToken.ExtractOtherScheme` | src/guards/auth.guard.ts:30 | "Basic abc" gives an undefined token |
| `BearerToken.ExtractMiddleSegment` | src/guards/auth.guard.ts:30 | "x Bearer a Bearer b" gives "a ": no prefix is needed, and the token stops at the second "Bearer " |
| `BearerToken.ExtractToken` | src/guards/auth.guard.ts:30 | `authorization?.split('Bearer ')[1]`; its properties are stated by `NoBearerNoToken`, `NoTokenNoBearer`, `TokenIsSecondPiece`, `TokenHasNoBearer` and the four examples |
| `AuthGuard.GetAllAndOverride` | src/guards/auth.guard.ts:22-25 | the result is the entry of the first target whose metadata is defined, and undefined exactly when no target defines it |
| `AuthGuard.RolesFor` | src/guards/auth.guard.ts:22-25 | `getAllAndOverride` over `[handler, class]`; its properties are stated by `GetAllAndOverride`, `HandlerRolesIgnoreClass`, `ClassRolesWhenHandlerUndefined` and `EmptyHandlerRolesOverrideClass` |
| `AuthGuard.HandlerRolesIgnoreClass` | src/guards/auth.guard.ts:22-25 | when the handler defines roles, the class's metadata does not affect the decision |
| `AuthGuard.ClassRolesWhenHandlerUndefined` | src/guards/auth.guard.ts:22-25 | without handler metadata, the decision is the one the class's roles would give on the handler |
| `AuthGuard.Protected` | src/guards/auth.guard.ts:28 | `roles?.length` is truthy; its meaning is stated by `PublicIgnoresCredentials` and the denial lemmas |
| `AuthGuard.CanActivate` | src/guards/auth.guard.ts:20-52 | a protected endpoint is admitted only if the token verifies, the user is found, and the directory's user type is in the roles |
| `AuthGuard.PublicIgnoresCredentials` | src/guards/auth.guard.ts:28-51 | with no roles, or an empty role list, the result is true for every header, verifier and directory, so none of them is consulted |
| `AuthGuard.EmptyHandlerRolesOverrideClass` | src/guards/auth.guard.ts:22-28 | an empty role list on the handler makes the endpoint public whatever the class lists |
| `AuthGuard.RejectedTokenDenied` | src/guards/auth.guard.ts:31-47 | with roles, a failed verification (bad signature, expired, undefined token) gives false for every directory |
| `AuthGuard.MissingBearerDenied` | src/guards/auth.guard.ts:30-47 | with roles and a verifier that rejects an undefined token, a missing header or one with no "Bearer " is denied |
| `AuthGuard.UnknownUserDenied` | src/guards/auth.guard.ts:37-47 | with roles and a verified token, a user that is not found, or a lookup that throws, gives false |
| `AuthGuard.FoundUserDecidedByDirectoryRole` | src/guards/auth.guard.ts:42-45 | with roles, a verified token and a found user, the result is true exactly when the directory's user type is in the roles |
| `AuthGuard.OnlyPayloadIdMatters` | src/guards/auth.guard.ts:37-41 | two verifications yielding payloads with the same id (any name, iat, exp) give the same decision |
| `AuthGuard.OnlyTokenMatters` | src/guards/auth.guard.ts:30-35 | two headers with the same extracted token give the same decision |
| `AuthGuard.BuyerDeniedRealtorAdmitted` | src/guards/auth.guard.ts:28-45 | on a REALTOR-only handler with header "Bearer <token>", a buyer is denied and a realtor admitted |
| `AuthService.FindByEmail` | src/user/auth/auth.service.ts:18-22 | the row found has the email and is the first row that has it; none is found exactly when no row has it |
| `AuthService.NewBuyer` | src/user/auth/auth.service.ts:26-34 | the `create` data; its contents are stated by `CreatedRowContents` |
| `AuthService.SignupOn` | src/user/auth/auth.service.ts:16-37 | what signup returns and leaves in the table; its properties are stated by `DuplicateEmailConflicts`, `NewEmailAppendsOne`, `CreatedRowContents`, `SignupAddsOnlyBuyers`, `SignupKeepsEmailsUnique` and `SecondSignupConflicts`, and `Service.Signup` is proved to follow it |
| `AuthService.DuplicateEmailConflicts` | src/user/auth/auth.service.ts:18-25 | a registered email gives Conflict and leaves the table unchanged |
| `AuthService.NewEmailAppendsOne` | src/user/auth/auth.service.ts:27-37 | a new email succeeds, the table grows by exactly one row at the end, existing rows are unchanged, and the new row is the one returned |
| `AuthService.CreatedRowContents` | src/user/auth/auth.service.ts:26-34 | the created row has the given email, name and phone, the password `hash(password, 10)` and type BUYER |
| `AuthService.SignupAddsOnlyBuyers` | src/user/auth/auth.service.ts:33 | every row after signup that is not a buyer was already in the table |
| `AuthService.SignupKeepsEmailsUnique` | src/user/auth/auth.service.ts:17-35 | unique emails before signup stay unique after it, on both paths |
| `AuthService.SecondSignupConflicts` | src/user/auth/auth.service.ts:18-25 | after a successful signup, a second signup with the same email conflicts and changes nothing |
| `AuthService.UserTable.FindUnique` | src/user/auth/auth.service.ts:18-22 | the lookup by email returns a row of the table with that email, or nothing exactly when no row has it |
| `AuthService.UserTable.Create` | src/user/auth/auth.service.ts:27-35 | the table becomes the old table plus the given row, which is returned |
| `AuthService.Service.Signup` | src/user/auth/auth.service.ts:16-38 | result and new table are those of `SignupOn` on the old table; the result is Conflict exactly when the email was registered; email uniqueness is kept |
| `HomeService.GetHomes` | src/home/home.service.ts:27-31 | the map succeeds exactly when every row has an image, and then has one response per row |
| `HomeService.GetHomesAt` | src/home/home.service.ts:27-30 | response k is the projection of row k, so the order is kept |
| `HomeService.ResponseFromRow` | src/home/home.service.ts:28-30 | response k's image is the URL of row k's first image, and putting row k's images back gives row k |
| `HomeService.ToHome` | src/home/home.service.ts:28-29 | the per-row lambda; its properties are stated by `ToHomeKeepsFields` and `ToHomeReadsFirstImageOnly` |
| `HomeService.ToHomeKeepsFields` | src/home/home.service.ts:28-29 | the projection sets `image` to the first URL, drops `images`, and keeps id, address, city, price, property type, bathrooms and bedrooms unchanged |
| `HomeService.ToHomeReadsFirstImageOnly` | src/home/home.service.ts:28 | two rows that differ only in images after the first project alike |
| `HomeService.GetHomesAppend` | src/home/home.service.ts:27 | projecting a concatenation of row lists is concatenating their projections, and it fails if either part fails |

## Left out

- The route handlers in src/home/home.controller.ts are stubs over the service, and are not modelled. This includes `getHomes` logging query parameters it does not use.
- The test files src/home/home.service.spec.ts and src/home/home.controller.spec.ts exercise functions that the modelled files do not have, so no properties are drawn from them.
- `jwt.verify` (signature per RFC 7515, expiry per section 4.1.4 of RFC 7519) is a foreign library. It is the `verify` parameter. Its rejection of an undefined token is a hypothesis of `MissingBearerDenied`, not a fact of the model.
- The cast `as JWTPayload` is unchecked in the source. Only payloads with the four listed claims are modelled. A string payload, or one without `id`, is not.
- The signing secret from `process.env.JSON_TOKEN_KEY` is environment state. It is folded into `verify`.
- `Reflector`, the dependency-injection wiring, `async`/`await` and `console.log` are framework and I/O. Role metadata is taken as an optional list of user types. Metadata of any other shape is not modelled.
- BearerToken.Split: only non-empty separators are modelled, because the source splits by the constant "Bearer ". JavaScript's behaviour for an empty separator is not modelled.
- Prisma's `findUnique`, `create` and `findMany` are the database. The user table is a sequence of rows. The home query's result is the input of `GetHomes`.
- The `select` shape of the home query and its `take: 1` are not modelled. `GetHomes` uses the first image of a row whatever the number of images.
- The id and timestamp columns of the user table, filled in by the database, are not part of the user row. The database schema is not part of this model.
- The column types of a home row are not shown in the modelled files. Price and bathrooms are `real` and bedrooms `int`. The values are only copied, so their width does not matter.
- bcrypt's random salt and its asynchrony are left out. `hash` is a function of the password and the cost factor.
- AuthService.CreatedRowContents states that the stored password is `hash(password, 10)`. That the plaintext is not stored holds only for a `hash` with no fixed point, which is not assumed.
- Two concurrent signups with the same email could both pass the lookup before either creates its row. The model is sequential and does not capture this race.
- The `HomeResponseDto` constructor is not part of this model. `HomeResponseDto` is a wrapper around the projected record, with no claims about its serialisation.
