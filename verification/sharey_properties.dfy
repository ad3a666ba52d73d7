/** Properties of ShareY's user controller that relate several requests or
    the store before and after one: the store invariant is kept, rotation and
    revocation cut off the old credential, and registration and deletion
    grant and withdraw access. */
module ShareYProperties {
  import opened DotNet
  import opened ShareY

  /** Distinct users never share a non-blank email. Registration only checks
      non-blank emails, so blank ones (stored as "" or as given) may repeat. */
  predicate UniqueEmails(s: Store) {
    forall u1, u2 | u1 in s.users && u2 in s.users
      && !IsNullOrWhiteSpace(Some(s.users[u1].email)) && s.users[u1].email == s.users[u2].email
      :: u1 == u2
  }

  /** The user `u` has a token row that authenticates. */
  predicate HasLiveToken(s: Store, u: Guid) {
    exists t | t in s.tokens :: s.tokens[t].userGuid == u && Authenticates(s, t)
  }

  // ---------------------------------------------------------------- reset

  lemma ResetKeepsValid(s: Store, caller: Guid, reset: bool, newGuid: Guid, now: DateTime)
    requires Valid(s) && OwnsToken(s, caller)
    requires reset ==> Fresh(s, newGuid)
    ensures Valid(ResetToken(s, caller, reset, newGuid, now).store)
    ensures OwnsToken(ResetToken(s, caller, reset, newGuid, now).store, caller)
    ensures UniqueEmails(s) ==> UniqueEmails(ResetToken(s, caller, reset, newGuid, now).store)
  {
  }

  /** In the store a rotation leaves behind, the previous guid has no row and
      does not authenticate, the caller owns exactly the new row, and the new
      guid authenticates exactly when the caller's account exists and is
      enabled. */
  lemma RotationReplacesCredential(s: Store, caller: Guid, newGuid: Guid, now: DateTime)
    requires Valid(s) && OwnsToken(s, caller) && Fresh(s, newGuid)
    ensures var r := ResetToken(s, caller, true, newGuid, now).store;
      && TokenOf(s, caller) !in r.tokens
      && !Authenticates(r, TokenOf(s, caller))
      && TokenOf(r, caller) == newGuid
      && r.tokens[newGuid].tokenType == TokenType.User
      && (Authenticates(r, newGuid) <==> caller in s.users && !s.users[caller].disabled)
  {
  }

  /** A rotation issues a User-type token even when it replaces an Admin one. */
  lemma RotationDemotesAdmin(s: Store, caller: Guid, newGuid: Guid, now: DateTime)
    requires Valid(s) && OwnsToken(s, caller) && Fresh(s, newGuid)
    requires s.tokens[TokenOf(s, caller)].tokenType == TokenType.Admin
    ensures var r := ResetToken(s, caller, true, newGuid, now).store;
      forall t | t in r.tokens && r.tokens[t].userGuid == caller :: r.tokens[t].tokenType == TokenType.User
  {
  }

  /** A revocation keeps the caller's row (same guid, same type) but leaves the
      caller with no token that authenticates. */
  lemma RevocationLeavesNoLiveToken(s: Store, caller: Guid, now: DateTime)
    requires Valid(s) && OwnsToken(s, caller)
    ensures var r := ResetToken(s, caller, false, 0, now).store;
      && TokenOf(s, caller) in r.tokens
      && r.tokens[TokenOf(s, caller)].guid == s.tokens[TokenOf(s, caller)].guid
      && r.tokens[TokenOf(s, caller)].tokenType == s.tokens[TokenOf(s, caller)].tokenType
      && |r.tokens| == |s.tokens|
      && !HasLiveToken(r, caller)
  {
  }

  /** The rotation branch ignores the `Revoked` flag: applied to a revoked
      row it still replaces it with a live one. Through the endpoint this
      sequence is out of reach, since `[Authorize]` turns away a caller whose
      only token is revoked before the action runs. */
  lemma RevokeThenResetRestoresAccess(s: Store, caller: Guid, newGuid: Guid, now: DateTime)
    requires Valid(s) && OwnsToken(s, caller) && Fresh(s, newGuid)
    requires caller in s.users && !s.users[caller].disabled
    ensures var revoked := ResetToken(s, caller, false, 0, now).store;
      && Valid(revoked) && OwnsToken(revoked, caller) && Fresh(revoked, newGuid)
      && Authenticates(ResetToken(revoked, caller, true, newGuid, now).store, newGuid)
  {
  }

  // ----------------------------------------------------------- block/unblock

  lemma UnblockKeepsValid(s: Store, guidText: string, block: bool, parse: string -> Option<Guid>)
    requires Valid(s)
    requires parse(guidText).Some? && parse(guidText).value in s.users ==> OwnsToken(s, parse(guidText).value)
    ensures Valid(UnblockUser(s, guidText, block, parse).store)
    ensures UniqueEmails(s) ==> UniqueEmails(UnblockUser(s, guidText, block, parse).store)
  {
  }

  lemma BlockKeepsValid(s: Store, guidText: string, block: bool, parse: string -> Option<Guid>)
    requires Valid(s)
    requires parse(guidText).Some? && parse(guidText).value in s.users ==> OwnsToken(s, parse(guidText).value)
    ensures Valid(BlockUser(s, guidText, block, parse).store)
    ensures UniqueEmails(s) ==> UniqueEmails(BlockUser(s, guidText, block, parse).store)
  {
  }

  /** A user whose token is an Admin token is never modified by the block
      endpoint, whatever `block` says. */
  lemma AdminTargetUntouched(s: Store, guidText: string, block: bool, parse: string -> Option<Guid>)
    requires Valid(s)
    requires parse(guidText).Some? && parse(guidText).value in s.users
    requires OwnsToken(s, parse(guidText).value)
    requires s.tokens[TokenOf(s, parse(guidText).value)].tokenType == TokenType.Admin
    ensures UnblockUser(s, guidText, block, parse) == Step(s, BadRequest(AdminTokenText))
    ensures BlockUser(s, guidText, block, parse) == Step(s, BadRequest(AdminTokenText))
  {
  }

  /** As written, "blocking" a user enables the account while replying
      "User blocked.", and the user's live token keeps authenticating. */
  lemma BlockInvertsDisabled(s: Store, guidText: string, parse: string -> Option<Guid>)
    requires Valid(s)
    requires parse(guidText).Some? && parse(guidText).value in s.users
    requires OwnsToken(s, parse(guidText).value)
    requires s.tokens[TokenOf(s, parse(guidText).value)].tokenType != TokenType.Admin
    requires !s.tokens[TokenOf(s, parse(guidText).value)].revoked
    ensures var r := UnblockUser(s, guidText, true, parse);
      && r.response == OkText(UserBlockedText)
      && !r.store.users[parse(guidText).value].disabled
      && Authenticates(r.store, TokenOf(s, parse(guidText).value))
  {
  }

  /** The corrected endpoint: after blocking, the user has no token that
      authenticates; after unblocking, an unrevoked token authenticates again. */
  lemma BlockLocksOut(s: Store, guidText: string, block: bool, parse: string -> Option<Guid>)
    requires Valid(s)
    requires parse(guidText).Some? && parse(guidText).value in s.users
    requires OwnsToken(s, parse(guidText).value)
    requires s.tokens[TokenOf(s, parse(guidText).value)].tokenType != TokenType.Admin
    ensures var r := BlockUser(s, guidText, block, parse);
      var g := parse(guidText).value;
      && r.response == OkText(if block then UserBlockedText else UserUnblockedText)
      && (block ==> !HasLiveToken(r.store, g))
      && (!block ==> (Authenticates(r.store, TokenOf(s, g)) <==> !s.tokens[TokenOf(s, g)].revoked))
  {
  }

  // ------------------------------------------------------------ deletion

  /** Deleting an account withdraws the caller's access and leaves every
      other user's access as it was. */
  lemma DeleteWithdrawsAccess(s: Store, caller: Guid)
    requires caller in s.users
    ensures var r := DeleteUser(s, caller).store;
      && !HasLiveToken(r, caller)
      && (forall t | t in s.tokens && s.tokens[t].userGuid != caller :: Authenticates(r, t) == Authenticates(s, t))
      && (Valid(s) ==> Valid(r))
      && (UniqueEmails(s) ==> UniqueEmails(r))
  {
  }

  // -------------------------------------------------------- registration

  lemma CreateKeepsInvariants(s: Store, registerEnabled: bool, form: Option<RegisterForm>,
                              newUser: Guid, newToken: Guid, userCreatedAt: DateTime, tokenCreatedAt: DateTime)
    requires Fresh(s, newUser) && Fresh(s, newToken) && newUser != newToken
    requires Valid(s) && UniqueEmails(s)
    ensures var r := CreateUser(s, registerEnabled, form, newUser, newToken, userCreatedAt, tokenCreatedAt).store;
      Valid(r) && UniqueEmails(r)
  {
  }

  /** A successful registration hands back a guid that authenticates and is
      the new user's only token. */
  lemma RegistrationGrantsAccess(s: Store, form: RegisterForm, newUser: Guid, newToken: Guid,
      userCreatedAt: DateTime, tokenCreatedAt: DateTime)
    requires Fresh(s, newUser) && Fresh(s, newToken) && newUser != newToken
    requires Valid(s) && !DuplicateEmail(s, form)
    ensures var r := CreateUser(s, true, Some(form), newUser, newToken, userCreatedAt, tokenCreatedAt);
      && r.response == TokenJson(newToken)
      && Authenticates(r.store, newToken)
      && OwnsToken(r.store, newUser)
      && Valid(r.store) && TokenOf(r.store, newUser) == newToken
  {
  }

  /** A blank or missing email is never checked for uniqueness: with
      registration enabled such a form always succeeds. */
  lemma BlankEmailAlwaysRegisters(s: Store, form: RegisterForm, newUser: Guid, newToken: Guid,
      userCreatedAt: DateTime, tokenCreatedAt: DateTime)
    requires Fresh(s, newUser) && Fresh(s, newToken) && newUser != newToken
    requires IsNullOrWhiteSpace(form.email)
    ensures CreateUser(s, true, Some(form), newUser, newToken, userCreatedAt, tokenCreatedAt).response == TokenJson(newToken)
  {
  }

  /** The register-then-rotate scenario: registering yields T1, a rotation
      yields T2 != T1, after which T1 no longer authenticates and T2 does. */
  lemma RegisterThenRotate(s: Store, form: RegisterForm, newUser: Guid, t1: Guid, t2: Guid,
                            userCreatedAt: DateTime, tokenCreatedAt: DateTime, now: DateTime)
    requires Valid(s) && !DuplicateEmail(s, form)
    requires Fresh(s, newUser) && Fresh(s, t1) && newUser != t1
    requires Fresh(s, t2) && t2 != newUser && t2 != t1
    ensures var registered := CreateUser(s, true, Some(form), newUser, t1, userCreatedAt, tokenCreatedAt);
      && registered.response == TokenJson(t1)
      && Valid(registered.store) && OwnsToken(registered.store, newUser) && Fresh(registered.store, t2)
      && var rotated := ResetToken(registered.store, newUser, true, t2, now);
      && rotated.response == TokenJson(t2)
      && !Authenticates(rotated.store, t1)
      && Authenticates(rotated.store, t2)
  {
    RegistrationGrantsAccess(s, form, newUser, t1, userCreatedAt, tokenCreatedAt);
    var registered := CreateUser(s, true, Some(form), newUser, t1, userCreatedAt, tokenCreatedAt);
    RotationReplacesCredential(registered.store, newUser, t2, now);
  }
}
