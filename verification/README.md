# Access-control core of ShareY and UploadR

The repository has two small ASP.NET Core applications with the same job. Each
is a file-drop service whose callers present a bearer token. This project models
the access-control decisions of their two controllers. Each decision is a pure
function, and the properties are proved in Dafny 4.11.

- **ShareY, `UserController`** (modules `ShareY` and `ShareYProperties`). The
  Users and Tokens tables are two immutable maps in a `Store`. Each endpoint is a
  function `(store, request) -> Step(store', response)`:
  - `ResetToken` rotates or revokes the caller's token.
  - `UnblockUser` is the Admin-tier block/unblock endpoint. Its guards are in `BlockGuard`.
  - `DeleteUser` deletes the caller's own account.
  - `CreateUser` is anonymous registration, gated by the `UserRegisterRoute` flag.

  `Guid.NewGuid()` is a guid supplied by the caller, under the precondition
  `Fresh` (used nowhere in the store). `DateTime.Now` is a parameter.
  `Guid.TryParse` is a function parameter `parse`. The store invariant `Valid`
  says two things: each row sits under its own key, and a user owns at most one
  token row. The second is the one-to-one `User.Token` navigation, which the
  source relies on. Every endpoint is proved to keep `Valid`.
- **UploadR, `UploadController`** (modules `UploadR` and `UploadRProperties`).
  Each endpoint is modelled as two steps. First, the controller builds the
  arguments of the upload-service call from the request: the first
  `NameIdentifier` claim, route values and the `password` query entry. Second,
  it maps the service's answer to an `ActionResult`. The upload service is an
  uninterpreted function parameter. The model also has the authorization tier
  table: each endpoint's `[Authorize]` attribute, and the default policy, which
  is the User requirement.
- **`DotNet`**: nullable values (`Option`), the 128-bit `Guid`, `byte`, and
  `char.IsWhiteSpace` / `string.IsNullOrWhiteSpace`. `IsWhiteSpace` uses the
  exact set of characters .NET uses: Unicode categories Zs, Zl and Zp, plus
  U+0009..U+000D and U+0085.

The predicate `ShareY.Authenticates` states when a bearer guid authenticates. It
must exist, must not be revoked, and its owner must exist and not be disabled.
`UploadR.Satisfies` and `UploadR.Allowed` state which callers pass each
authorization attribute. Both are assumptions of this model: the token
authentication handler and the requirement handlers that decide these
questions in the running system are not part of it. What the code itself fixes
is which attribute each action carries and that the default policy is the
User requirement.

## Model

| member | source | states |
|---|---|---|
| `DotNet.IsNullOrWhiteSpace` | src/ShareY/Controllers/API/UserController.cs:119 | true exactly for null or for a string whose every character is .NET whitespace (so "" is blank) |
| `DotNet.AllWhiteSpace` | src/UploadR/Controllers/UploadController.cs:122 | true exactly when every character is whitespace |
| `ShareY.StatusCode` | src/ShareY/Controllers/API/UserController.cs:107-121 | token and text replies are 200, bad requests 400, `Forbid` 403 |
| `ShareY.TokenOf` | src/ShareY/Controllers/API/UserController.cs:33 | the token row looked up by owner guid exists, belongs to that user and is the only such row |
| `ShareY.ResetToken` | src/ShareY/Controllers/API/UserController.cs:28-61 | reset: the caller's row is removed and exactly one row is added: fresh guid, the caller's guid, type `User`, not revoked; its guid is returned and other rows are unchanged. Revoke: same keys, only the caller's row gets `Revoked = true`, reply "Token revoked". Users are untouched |
| `ShareY.BlockGuard` | src/ShareY/Controllers/API/UserController.cs:66-80 | unparseable guid gives "Invalid token supplied.", unknown user gives "Unknown token supplied.", Admin-token user gives "Cannot modify admin token."; the request passes only when none of these apply |
| `ShareY.UnblockUser` | src/ShareY/Controllers/API/UserController.cs:63-90 | on any guard failure the store is unchanged and the guard's 400 is returned; on success only the target's `Disabled` changes, to `!block`, tokens untouched, and the reply is "User blocked." iff `block` |
| `ShareY.BlockUser` | src/ShareY/Controllers/API/UserController.cs:82-89 | corrected endpoint: same guards; on success only the target's `Disabled` changes, to `block`, and the reply names the stored state |
| `ShareY.DeleteUser` | src/ShareY/Controllers/API/UserController.cs:92-102 | exactly the caller's user row is removed, other users and all tokens unchanged, reply "This account has been removed." |
| `ShareY.DuplicateEmail` | src/ShareY/Controllers/API/UserController.cs:119 | true exactly when the email is non-null, has a non-whitespace character, and some stored user has exactly that email |
| `DotNet.Option.GetOr` | src/ShareY/Controllers/API/UserController.cs:127 | a null value becomes the default, a present value is kept |
| `ShareY.CreateUser` | src/ShareY/Controllers/API/UserController.cs:104-147 | in the action, flag off gives `Forbid` with no change, before any other check; null form gives 400 "Invalid form." with no change; a non-blank email already in use gives 400 with no change; otherwise exactly one user row (not disabled, email or "") and one non-revoked `User` token row owned by it are added, each stamped with its own clock reading, and the token guid is returned |
| `ShareYProperties.ResetKeepsValid` | src/ShareY/Controllers/API/UserController.cs:35-54 | rotation and revocation keep the store invariant and email uniqueness; the caller still owns a token row |
| `ShareYProperties.RotationReplacesCredential` | src/ShareY/Controllers/API/UserController.cs:35-59 | in the store a rotation leaves behind, the old guid has no row and does not authenticate; the caller's only token is the new one, of type `User`; it authenticates iff the caller's account exists and is enabled |
| `ShareYProperties.RotationDemotesAdmin` | src/ShareY/Controllers/API/UserController.cs:39-46 | rotating an Admin token leaves the caller with only `User`-type tokens |
| `ShareYProperties.RevocationLeavesNoLiveToken` | src/ShareY/Controllers/API/UserController.cs:50-54 | revocation keeps the caller's row with its guid and type, does not change the row count, and leaves the caller with no token that authenticates |
| `ShareYProperties.RevokeThenResetRestoresAccess` | src/ShareY/Controllers/API/UserController.cs:35-56 | the rotation branch ignores `Revoked`: applied after a revocation, it gives an enabled user a guid that authenticates (through the endpoint, `[Authorize]` stops a revoked caller first) |
| `ShareYProperties.UnblockKeepsValid` | src/ShareY/Controllers/API/UserController.cs:82-85 | the block endpoint as written keeps the store invariant and email uniqueness |
| `ShareYProperties.BlockKeepsValid` | src/ShareY/Controllers/API/UserController.cs:82-85 | the corrected block endpoint keeps the store invariant and email uniqueness |
| `ShareYProperties.AdminTargetUntouched` | src/ShareY/Controllers/API/UserController.cs:77-80 | a user whose token is Admin is never modified, for either value of `block`; the reply is 400 "Cannot modify admin token." |
| `ShareYProperties.BlockInvertsDisabled` | src/ShareY/Controllers/API/UserController.cs:82-89 | as written, a successful `block=true` leaves the target enabled, replies "User blocked.", and the target's unrevoked token keeps authenticating |
| `ShareYProperties.BlockLocksOut` | src/ShareY/Controllers/API/UserController.cs:82-89 | with the corrected endpoint, blocking leaves the target with no token that authenticates; unblocking makes its token authenticate iff it is not revoked |
| `ShareYProperties.DeleteWithdrawsAccess` | src/ShareY/Controllers/API/UserController.cs:95-101 | after account deletion the caller has no token that authenticates; every other token authenticates exactly as before; both invariants are kept |
| `ShareYProperties.CreateKeepsInvariants` | src/ShareY/Controllers/API/UserController.cs:117-146 | every registration outcome keeps the store invariant and the uniqueness of non-blank emails |
| `ShareYProperties.RegistrationGrantsAccess` | src/ShareY/Controllers/API/UserController.cs:124-146 | the returned token guid authenticates and is the new user's only token |
| `ShareYProperties.BlankEmailAlwaysRegisters` | src/ShareY/Controllers/API/UserController.cs:119-122 | a null, empty or whitespace email is never checked for uniqueness: with registration enabled it always succeeds |
| `ShareYProperties.RegisterThenRotate` | src/ShareY/Controllers/API/UserController.cs:35-146 | register and get T1, rotate and get T2 != T1: afterwards T1 does not authenticate and T2 does |
| `UploadR.StatusCode` | src/UploadR/Controllers/UploadController.cs:48-54 | Ok, JSON and file results are 200, bad request 400, unauthorized 401, not found 404 |
| `UploadR.OwnerClaim` | src/UploadR/Controllers/UploadController.cs:34-35 | null iff there is no NameIdentifier claim; otherwise the value of the first NameIdentifier claim |
| `UploadR.UploadFiles` | src/UploadR/Controllers/UploadController.cs:30-36 | always 200 JSON carrying the service's report for (owner claim, files, form password) |
| `UploadR.DeleteResult` | src/UploadR/Controllers/UploadController.cs:48-54 | total: 200 iff `Ok`, 401 iff `Unauthorized`, 400 for `NotFound` and every other code; never a body |
| `UploadR.DeleteUpload` | src/UploadR/Controllers/UploadController.cs:42-55 | the status follows the service's code for (owner claim, filename) as in `DeleteResult` |
| `UploadR.UploadDetails` | src/UploadR/Controllers/UploadController.cs:61-71 | 404 iff the service returns null, otherwise JSON of its result |
| `UploadR.UploadsListing` | src/UploadR/Controllers/UploadController.cs:80-86 | 400 iff the listing is null, otherwise JSON of it |
| `UploadR.UserUploads` | src/UploadR/Controllers/UploadController.cs:77-87 | lists the route's user id: 400 iff the service returns null, otherwise its JSON |
| `UploadR.OwnUploads` | src/UploadR/Controllers/UploadController.cs:92-103 | lists by the caller's owner claim (possibly null): 400 iff the service returns null, otherwise its JSON |
| `UploadR.FirstQueryValue` | src/UploadR/Controllers/UploadController.cs:113 | null iff no query key equals the name ignoring ASCII case; otherwise the value of the first pair whose key does |
| `UploadR.PasswordParam` | src/UploadR/Controllers/UploadController.cs:113 | the first value under a `password` key in any letter case, when it has a non-whitespace character; null when the key is missing or that first value is empty or whitespace |
| `UploadR.ContentResult` | src/UploadR/Controllers/UploadController.cs:115-128 | for a servable answer (non-empty content comes with a non-blank type that parses as a media type): file with the service's bytes and its type as `File` formats it iff the content is non-empty; otherwise 404 iff the type is null or whitespace, 401 iff it is not |
| `UploadR.ContentDownload` | src/UploadR/Controllers/UploadController.cs:110-128 | the same three outcomes, type formatted by `File` included, for the service's servable answer to (filename, bound password as `PasswordParam` gives it) |
| `UploadR.AttributeOf` | src/UploadR/Controllers/UploadController.cs:30-110 | content retrieval carries no attribute, the named-user listing carries `Roles = "Admin"`, and upload, delete, details and own listing carry a bare `[Authorize]` |
| `UploadR.DemandedTier` | src/UploadR/Startup.cs:72 | no attribute means Unverified, bare `[Authorize]` means the default policy's User tier, `Roles = "Admin"` means Admin |
| `UploadR.RequiredTier` | src/UploadR/Controllers/UploadController.cs:30-110 | Admin exactly for listing a named user's uploads, Unverified exactly for content retrieval, User for the other four endpoints |
| `UploadRProperties.OwnerClaimSkipsOtherKinds` | src/UploadR/Controllers/UploadController.cs:34 | claims of other kinds placed first never change the owner identity |
| `UploadRProperties.OwnerClaimFirstWins` | src/UploadR/Controllers/UploadController.cs:34 | of several NameIdentifier claims the first one is the owner identity |
| `UploadRProperties.UploadAndDeleteSeeOnlyOwnerClaim` | src/UploadR/Controllers/UploadController.cs:34-46 | upload and delete results do not change when claims of other kinds are added in front |
| `UploadRProperties.MissingClaimIsNullOwner` | src/UploadR/Controllers/UploadController.cs:95-96 | without a NameIdentifier claim the upload and own-listing services are called with a null owner |
| `UploadRProperties.ContentOutcomesPartition` | src/UploadR/Controllers/UploadController.cs:117-127 | content retrieval yields exactly one of 200 (the exact bytes and the service's type as `File` formats it), 404 and 401, with the conditions for each |
| `UploadRProperties.FirstValueSkipsOtherKeys` | src/UploadR/Controllers/UploadController.cs:113 | pairs under other keys placed first never change the value bound to a name |
| `UploadRProperties.ContentSeesOnlyPassword` | src/UploadR/Controllers/UploadController.cs:111-115 | pairs under keys other than `password` placed first change neither the bound password nor the result |
| `UploadRProperties.FirstPasswordWins` | src/UploadR/Controllers/UploadController.cs:113 | the first `password` pair, in any letter case, binds its value when it is not blank, whatever follows |
| `UploadRProperties.PasswordKeyExample` | src/UploadR/Controllers/UploadController.cs:113 | `?x=1&PassWord=secret&password=other` binds "secret" |
| `UploadRProperties.ContentPasswordDefaultsToNull` | src/UploadR/Controllers/UploadController.cs:113-115 | with no `password` key, or a blank first value under it, the service is asked with a null password |
| `UploadRProperties.ContentNeedsNoCredential` | src/UploadR/Controllers/UploadController.cs:110 | every caller, anonymous included, may retrieve content |
| `UploadRProperties.UserListingIsAdminOnly` | src/UploadR/Controllers/UploadController.cs:77 | listing a named user's uploads is allowed exactly for authenticated Admin callers |
| `UploadRProperties.DefaultPolicyEndpoints` | src/UploadR/Startup.cs:72 | the four `[Authorize]` endpoints admit exactly the authenticated callers |
| `UploadRProperties.AllowedFollowsTierOrder` | src/UploadR/Startup.cs:63-72 | passing an endpoint's attribute is the same as having a tier at least the one the attribute demands, in the order Unverified < User < Admin |
| `UploadRProperties.AllowedIsMonotone` | src/UploadR/Startup.cs:63-72 | a caller of a higher tier may reach every endpoint a lower tier may |

## Findings

| source | as written | input that shows it | evidently intended | confidence | as-written member | corrected member |
|---|---|---|---|---|---|---|
| src/ShareY/Controllers/API/UserController.cs:82 | `Disabled` is set to `!block`, while the reply says "User blocked." for `block = true` | `PATCH {guid}/block?block=true` for an existing non-admin user with an unrevoked token: the user ends up enabled and keeps authenticating | `Disabled = block`, so a blocked user is disabled | high (not executed) | `ShareY.UnblockUser`, shown by `ShareYProperties.BlockInvertsDisabled` | `ShareY.BlockUser`, proved by `ShareYProperties.BlockLocksOut` |

## Left out

- Authentication and the requirement handlers (`TokenAuthenticationHandler`, `AdminRequirementHandler`, `UserRequirementHandler`, `UnverifiedRequirementHandler`) are not part of this model. `ShareY.Authenticates` and `UploadR.Satisfies` are assumptions in their place: any authenticated caller, Admin included, meets the User requirement, and an Admin-role caller is one whose token is an Admin token. `Startup.cs` calls `UseAuthorization` (line 87) but never `UseAuthentication`, so whether `User.Claims` ever carries the token's identity (UploadController.cs lines 34, 45 and 95) and whether `Roles = "Admin"` (line 77) can ever succeed depend entirely on those handlers; `UploadR.Satisfies` and every use of `UploadR.OwnerClaim` assume that they do.
- The caller's guid in `ResetAsync` and `DeleteUser` comes from `Guid.Parse(Identity.Name)`. It is modelled as an already-parsed `Guid`; the parse exception for a non-guid name is left out.
- `Guid.TryParse`'s accepted formats are not modelled: `parse` is a parameter.
- `ShareY.ResetToken` requires the caller to own a token row, because the source dereferences a null token at lines 37 and 52 and throws otherwise.
- `ShareY.UnblockUser` requires a known target to own a token row, because `user.Token` is dereferenced at line 77.
- `ShareY.DeleteUser` requires the caller's row to exist: `Remove(null)` at line 97 throws.
- `ShareY.ResetToken` and `ShareY.UnblockUser` also require the store invariant `Valid`, because the source relies on one token row per user (the one-to-one `User.Token`); every endpoint is proved to keep it.
- `UploadR.ContentResult` requires `UploadR.Servable`: whenever the content is non-empty, the type must be non-blank and must parse as a media type. At line 119 `File(content, type)` builds a `FileContentResult`, whose constructor runs `MediaTypeHeaderValue.Parse` and throws otherwise; the exception is not modelled. The parse and its printing back (`ToString()`, which normalises spacing) are the parameter `format`, so the header grammar is not modelled. The service's content array is taken to be non-null (`content.Length` would throw).
- `UploadR.ContentDownload` has the same `UploadR.Servable` requirement for the service's answer, for the same reason.
- `UploadRProperties.ContentOutcomesPartition` has the same `UploadR.Servable` requirement: its three outcomes are exhaustive for the answers on which line 119 does not throw.
- `UploadR.PasswordParam` matches query keys by folding ASCII letters only. The non-ASCII case mappings of ordinal ignore-case comparison are not modelled, and neither are URL decoding or the culture used for binding.
- `ShareYProperties.RotationReplacesCredential` speaks about the store right after the rotation. `Fresh` checks a new guid only against the current store, so the model does not exclude `Guid.NewGuid()` later returning a retired guid; that it never does is left to the guid generator.
- Deleting an account removes the user row only. A database-level cascade to its token row, and the fate of its uploads, are configured outside the controller and are not modelled. The model still proves the orphaned token no longer authenticates.
- The email uniqueness query runs in the database. Its collation (possibly case-insensitive) is not modelled: emails are compared exactly.
- `ShareY.CreateUser` models the action body only. Under `[ApiController]` (line 16) request binding and the automatic model-state check run first: an empty or non-JSON body is answered 400 or 415 before the registration flag is read, so those requests never reach `Forbid`, and the null-form branch is taken only when binding itself yields null. The same layer answers an unparseable `block` query (line 64) with 400 before `ShareY.BlockGuard`'s checks. Binding and validation are not modelled.
- `CreatedAt` values come from `DateTime.Now`, which is read once per row; the readings are parameters (`ShareY.CreateUser` takes one for the user row and one for the token row). `SaveChangesAsync` transactions, async execution and concurrent requests are left out; atomicity belongs to the store.
- The `Forbid()` reply is taken to be 403. The actual status depends on the authentication handler's forbid behaviour.
- `UploadService` internals are not modelled: password hashing, blob storage, and lookup by filename or guid. So the password gate and ownership check themselves are not modelled; only the controller's mapping of their answers is. JSON serialisation of replies is left out too.
- `Startup.cs` is not modelled apart from the default policy (line 72): dependency injection, configuration loading, IP rate limiting and the startup migration are all left out. The `sharey-update.py` update script is also not part of this model.
- There is no endpoint that issues a first token and fails with a conflict when a live one exists, and blocking an admin is not answered with 403. The model follows the code: tokens are issued only by registration and rotation, and an admin target is rejected with 400 "Cannot modify admin token.".
