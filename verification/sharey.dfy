/** ShareY's user and token management (`UserController`), modelled as pure
    transitions over the two database tables it touches. Each endpoint is a
    function from the store and the request to the next store and the reply. */
module ShareY {
  import opened DotNet

  /** `TokenType`: self-service flows only ever create `User` tokens. */
  datatype TokenType = User | Admin

  /** A row of the Users table. */
  datatype UserRow = UserRow(guid: Guid, email: string, createdAt: DateTime, disabled: bool)

  /** A row of the Tokens table; `userGuid` is the owning user. */
  datatype TokenRow = TokenRow(guid: Guid, userGuid: Guid, tokenType: TokenType, revoked: bool, createdAt: DateTime)

  /** The credential store, both tables keyed by primary key. */
  datatype Store = Store(users: map<Guid, UserRow>, tokens: map<Guid, TokenRow>)

  /** The replies the controller produces. */
  datatype Response =
    | TokenJson(token: Guid)      // 200 with `{ Token = ... }`
    | OkText(text: string)        // 200 with a message
    | BadRequest(text: string)    // 400 with a message
    | Forbid                      // 403

  /** The result of one request: the store after it, and its reply. */
  datatype Step = Step(store: Store, response: Response)

  const TokenRevokedText := "Token revoked"
  const InvalidGuidText := "Invalid token supplied."
  const UnknownUserText := "Unknown token supplied."
  const AdminTokenText := "Cannot modify admin token."
  const UserBlockedText := "User blocked."
  const UserUnblockedText := "User unblocked."
  const AccountRemovedText := "This account has been removed."
  const InvalidFormText := "Invalid form."
  const EmailTakenText := "A user with that email already exist."

  /** The registration form; its `Email` may be null. */
  datatype RegisterForm = RegisterForm(email: Option<string>)

  function StatusCode(r: Response): (code: int)
    ensures code == 200 <==> r.TokenJson? || r.OkText?
    ensures code == 400 <==> r.BadRequest?
    ensures code == 403 <==> r.Forbid?
  {
    match r
    case TokenJson(_) => 200
    case OkText(_) => 200
    case BadRequest(_) => 400
    case Forbid => 403
  }

  /** Store invariant: rows sit under their own primary key, and a user owns
      at most one token row (the one-to-one `User.Token` navigation). */
  predicate Valid(s: Store) {
    && (forall g | g in s.users :: s.users[g].guid == g)
    && (forall t | t in s.tokens :: s.tokens[t].guid == t)
    && (forall t1, t2 | t1 in s.tokens && t2 in s.tokens && s.tokens[t1].userGuid == s.tokens[t2].userGuid :: t1 == t2)
  }

  /** A guid that `Guid.NewGuid()` may return: used nowhere in the store. */
  predicate Fresh(s: Store, g: Guid) {
    && g !in s.users
    && g !in s.tokens
    && (forall t | t in s.tokens :: s.tokens[t].userGuid != g)
  }

  /** The user `u` has a token row. */
  predicate OwnsToken(s: Store, u: Guid) {
    exists t | t in s.tokens :: s.tokens[t].userGuid == u
  }

  /** The key of user `u`'s token row, which `Valid` makes unique. */
  function TokenOf(s: Store, u: Guid): (t: Guid)
    requires Valid(s) && OwnsToken(s, u)
    ensures t in s.tokens && s.tokens[t].userGuid == u
    ensures forall t' | t' in s.tokens && s.tokens[t'].userGuid == u :: t' == t
  {
    var t :| t in s.tokens && s.tokens[t].userGuid == u;
    t
  }

  /** A bearer value authenticates when its token row exists, is not revoked,
      and its owner exists and is not disabled. */
  predicate Authenticates(s: Store, t: Guid) {
    && t in s.tokens
    && !s.tokens[t].revoked
    && s.tokens[t].userGuid in s.users
    && !s.users[s.tokens[t].userGuid].disabled
  }

  /** `ResetAsync`: the caller (a user guid taken from the authenticated
      identity) either rotates its token (`reset`), receiving the new guid,
      or revokes it in place. The caller must own a token row: the source
      dereferences the looked-up token and throws when there is none. */
  function ResetToken(s: Store, caller: Guid, reset: bool, newGuid: Guid, now: DateTime): (r: Step)
    requires Valid(s) && OwnsToken(s, caller)
    requires reset ==> Fresh(s, newGuid)
    ensures r.store.users == s.users
    // rotation: the caller's row goes, exactly one new User-type row comes
    ensures reset ==> r.response == TokenJson(newGuid)
    ensures reset ==> forall t | t in s.tokens :: t in r.store.tokens <==> s.tokens[t].userGuid != caller
    ensures reset ==> forall t | t in r.store.tokens :: t in s.tokens || t == newGuid
    ensures reset ==>
      && newGuid in r.store.tokens
      && r.store.tokens[newGuid] == TokenRow(newGuid, caller, TokenType.User, false, now)
    ensures reset ==> |r.store.tokens| == |s.tokens|
    // revocation: same rows, only the caller's row has `revoked` set
    ensures !reset ==> r.response == OkText(TokenRevokedText)
    ensures !reset ==> r.store.tokens.Keys == s.tokens.Keys
    ensures !reset ==> forall t | t in s.tokens ::
      r.store.tokens[t] == if s.tokens[t].userGuid == caller then s.tokens[t].(revoked := true) else s.tokens[t]
    // in both cases every other user's row is left as it was
    ensures forall t | t in s.tokens && s.tokens[t].userGuid != caller ::
      t in r.store.tokens && r.store.tokens[t] == s.tokens[t]
  {
    var current := TokenOf(s, caller);
    if reset then
      var row := TokenRow(newGuid, caller, TokenType.User, false, now);
      var tokens := (s.tokens - {current})[newGuid := row];
      Step(Store(s.users, tokens), TokenJson(newGuid))
    else
      Step(Store(s.users, s.tokens[current := s.tokens[current].(revoked := true)]), OkText(TokenRevokedText))
  }

  /** Block/unblock guards shared by the as-written and the corrected
      endpoint: a malformed guid, an unknown user, or a user whose token is an
      Admin token are rejected with the store untouched. `None` lets the
      request through to the update of `Disabled`. */
  function BlockGuard(s: Store, target: Option<Guid>): (r: Option<Response>)
    requires Valid(s)
    requires target.Some? && target.value in s.users ==> OwnsToken(s, target.value)
    ensures r == Some(BadRequest(InvalidGuidText)) <==> target.None?
    ensures r == Some(BadRequest(UnknownUserText)) <==> target.Some? && target.value !in s.users
    ensures r == Some(BadRequest(AdminTokenText)) <==>
      target.Some? && target.value in s.users && s.tokens[TokenOf(s, target.value)].tokenType == TokenType.Admin
    ensures r.None? <==>
      target.Some? && target.value in s.users && s.tokens[TokenOf(s, target.value)].tokenType != TokenType.Admin
  {
    match target
    case None => Some(BadRequest(InvalidGuidText))
    case Some(g) =>
      if g !in s.users then Some(BadRequest(UnknownUserText))
      else if s.tokens[TokenOf(s, g)].tokenType == TokenType.Admin then Some(BadRequest(AdminTokenText))
      else None
  }

  /** `UnblockUser` as written (an Admin-tier endpoint): `parse` is
      `Guid.TryParse`. On success it stores `Disabled = !block` while replying
      "User blocked." for `block` — see `BlockInvertsDisabled`. The source reads
      `user.Token.TokenType` without a null check, hence the requirement that a
      known target owns a token. */
  function UnblockUser(s: Store, guidText: string, block: bool, parse: string -> Option<Guid>): (r: Step)
    requires Valid(s)
    requires parse(guidText).Some? && parse(guidText).value in s.users ==> OwnsToken(s, parse(guidText).value)
    ensures BlockGuard(s, parse(guidText)).Some? ==>
      r == Step(s, BlockGuard(s, parse(guidText)).value)
    ensures BlockGuard(s, parse(guidText)).None? ==>
      var g := parse(guidText).value;
      && r.store.tokens == s.tokens
      && r.store.users.Keys == s.users.Keys
      && r.store.users[g] == s.users[g].(disabled := !block)
      && (forall u | u in s.users && u != g :: r.store.users[u] == s.users[u])
      && r.response == OkText(if block then UserBlockedText else UserUnblockedText)
  {
    var guard := BlockGuard(s, parse(guidText));
    if guard.Some? then Step(s, guard.value)
    else
      var g := parse(guidText).value;
      Step(Store(s.users[g := s.users[g].(disabled := !block)], s.tokens),
           OkText(if block then UserBlockedText else UserUnblockedText))
  }

  /** The block endpoint as evidently intended: the same guards, but blocking
      sets `Disabled`, so the reply always describes the stored state. */
  function BlockUser(s: Store, guidText: string, block: bool, parse: string -> Option<Guid>): (r: Step)
    requires Valid(s)
    requires parse(guidText).Some? && parse(guidText).value in s.users ==> OwnsToken(s, parse(guidText).value)
    ensures BlockGuard(s, parse(guidText)).Some? ==>
      r == Step(s, BlockGuard(s, parse(guidText)).value)
    ensures BlockGuard(s, parse(guidText)).None? ==>
      var g := parse(guidText).value;
      && r.store.tokens == s.tokens
      && r.store.users.Keys == s.users.Keys
      && r.store.users[g] == s.users[g].(disabled := block)
      && (forall u | u in s.users && u != g :: r.store.users[u] == s.users[u])
      && r.response == OkText(if r.store.users[g].disabled then UserBlockedText else UserUnblockedText)
  {
    var guard := BlockGuard(s, parse(guidText));
    if guard.Some? then Step(s, guard.value)
    else
      var g := parse(guidText).value;
      Step(Store(s.users[g := s.users[g].(disabled := block)], s.tokens),
           OkText(if block then UserBlockedText else UserUnblockedText))
  }

  /** `DeleteUser`: the caller removes its own account row. The source removes
      whatever the lookup returned and throws on a missing row, hence the
      requirement that the caller's row exists. */
  function DeleteUser(s: Store, caller: Guid): (r: Step)
    requires caller in s.users
    ensures r.response == OkText(AccountRemovedText)
    ensures caller !in r.store.users
    ensures forall u | u in s.users && u != caller :: u in r.store.users && r.store.users[u] == s.users[u]
    ensures forall u | u in r.store.users :: u in s.users
    ensures |r.store.users| == |s.users| - 1
    ensures r.store.tokens == s.tokens
  {
    var users := s.users - {caller};
    Step(Store(users, s.tokens), OkText(AccountRemovedText))
  }

  /** Some user row already carries `email`. */
  predicate EmailTaken(s: Store, email: string) {
    exists u | u in s.users :: s.users[u].email == email
  }

  /** The registration form is rejected because its email is in use; a
      null, empty or white-space email is never looked up. */
  function DuplicateEmail(s: Store, form: RegisterForm): (r: bool)
    ensures r <==>
      && form.email.Some?
      && (exists k | 0 <= k < |form.email.value| :: !IsWhiteSpace(form.email.value[k]))
      && exists u | u in s.users :: s.users[u].email == form.email.value
    ensures r ==> exists u | u in s.users :: !IsNullOrWhiteSpace(Some(s.users[u].email))
  {
    !IsNullOrWhiteSpace(form.email) && EmailTaken(s, form.email.value)
  }

  /** `CreateUser` (anonymous): gated by the `UserRegisterRoute` flag, then a
      null form, then email uniqueness (only for non-blank emails). On success
      one user row and one User-type token row are added, with the guids that
      `Guid.NewGuid()` returned (`newUser`, `newToken`) and the two separate
      `DateTime.Now` readings (`userCreatedAt`, `tokenCreatedAt`). */
  function CreateUser(s: Store, registerEnabled: bool, form: Option<RegisterForm>,
                      newUser: Guid, newToken: Guid,
                      userCreatedAt: DateTime, tokenCreatedAt: DateTime): (r: Step)
    requires Fresh(s, newUser) && Fresh(s, newToken) && newUser != newToken
    ensures !registerEnabled ==> r == Step(s, Forbid)
    ensures registerEnabled && form.None? ==> r == Step(s, BadRequest(InvalidFormText))
    ensures registerEnabled && form.Some? && DuplicateEmail(s, form.value) ==>
      r == Step(s, BadRequest(EmailTakenText))
    ensures registerEnabled && form.Some? && !DuplicateEmail(s, form.value) ==>
      && r.response == TokenJson(newToken)
      && r.store.users.Keys == s.users.Keys + {newUser}
      && r.store.tokens.Keys == s.tokens.Keys + {newToken}
      && (forall u | u in s.users :: r.store.users[u] == s.users[u])
      && (forall t | t in s.tokens :: r.store.tokens[t] == s.tokens[t])
      && r.store.users[newUser] == UserRow(newUser, form.value.email.GetOr(""), userCreatedAt, false)
      && r.store.tokens[newToken] == TokenRow(newToken, newUser, TokenType.User, false, tokenCreatedAt)
  {
    if !registerEnabled then Step(s, Forbid)
    else if form.None? then Step(s, BadRequest(InvalidFormText))
    else if DuplicateEmail(s, form.value) then Step(s, BadRequest(EmailTakenText))
    else
      var user := UserRow(newUser, form.value.email.GetOr(""), userCreatedAt, false);
      var token := TokenRow(newToken, newUser, TokenType.User, false, tokenCreatedAt);
      Step(Store(s.users[newUser := user], s.tokens[newToken := token]), TokenJson(newToken))
  }
}
