/** The authentication service as it changes token rows in place, proved against RefreshTokens. */
module AuthService {
  import opened Basics
  import opened RefreshTokens

  class RefreshToken {
    const id: TokenId
    const userId: UserId
    const expiresAt: int
    var revokedAt: Option<int>
    var replacedByTokenId: Option<TokenId>

    constructor (id: TokenId, userId: UserId, expiresAt: int)
      ensures this.id == id && Value() == Token(userId, expiresAt, None, None)
    {
      this.id, this.userId, this.expiresAt := id, userId, expiresAt;
      revokedAt, replacedByTokenId := None, None;
    }

    function Value(): Token
      reads this
    {
      Token(userId, expiresAt, revokedAt, replacedByTokenId)
    }

    /** is_valid */
    predicate IsValid(now: int)
      reads this
      ensures IsValid(now) == Usable(Value(), now)
    {
      revokedAt.None? && expiresAt > now
    }

    /** revoke */
    method Revoke(replacedBy: Option<TokenId>, now: int)
      modifies this
      ensures Value() == old(Value()).(
        revokedAt := Some(now), replacedBy := if replacedBy.Some? then replacedBy else old(replacedByTokenId))
    {
      revokedAt := Some(now);
      if replacedBy.Some? {
        replacedByTokenId := replacedBy;
      }
    }
  }

  class Service {
    var tokens: map<TokenId, RefreshToken>
    var users: map<UserId, User>

    ghost predicate Valid()
      reads this, tokens.Values
    {
      forall t | t in tokens :: tokens[t].id == t
    }

    function Value(): Auth
      reads this, tokens.Values
    {
      Auth(map t | t in tokens :: tokens[t].Value(), users)
    }

    constructor (users: map<UserId, User>)
      ensures Valid() && Value() == Auth(map[], users)
    {
      this.users := users;
      tokens := map[];
    }

    /** revoke_all_for_user: the loop reaches every token that is not yet revoked, in any order. */
    method RevokeAllForUser(u: UserId, now: int)
      requires Valid()
      modifies tokens.Values
      ensures Valid() && Value() == RevokedAll(old(Value()), u, now)
    {
      var selected := set t | t in tokens.Keys && tokens[t].userId == u && tokens[t].revokedAt.None?;
      var rest := selected;
      while rest != {}
        invariant Valid() && rest <= selected
        invariant forall t | t in tokens ::
                    tokens[t].Value() == if t in selected && t !in rest then old(tokens[t].Value()).(revokedAt := Some(now))
                                         else old(tokens[t].Value())
        decreases rest
      {
        EmptyOrInhabited(rest);
        var t :| t in rest;
        tokens[t].revokedAt := Some(now);
        rest := rest - {t};
      }
      ghost var all := RevokedAll(old(Value()), u, now).tokens;
      forall t | t in tokens ensures t in all && tokens[t].Value() == all[t] {
        assert t in selected <==> old(tokens[t].userId) == u && old(tokens[t].revokedAt).None?;
      }
      assert Value().tokens == all;
    }

    /** The token row of _issue_token_pair. */
    method IssueTokenPair(u: UserId, id: TokenId, expiresAt: int) returns (token: RefreshToken)
      requires Valid() && id !in tokens
      modifies this`tokens
      ensures Valid() && fresh(token) && tokens == old(tokens)[id := token]
      ensures Value() == Issued(old(Value()), u, id, expiresAt)
    {
      token := new RefreshToken(id, u, expiresAt);
      tokens := tokens[id := token];
    }

    method Login(u: UserId, passwordOk: bool, id: TokenId, now: int, lifetime: int) returns (r: Outcome)
      requires Valid() && id !in tokens
      modifies this`tokens
      ensures Valid() && (Value(), r) == LoggingIn(old(Value()), u, passwordOk, id, now + lifetime)
    {
      if u !in users || !passwordOk {
        return InvalidCredentials;
      }
      if users[u].blocked || !users[u].active {
        return AccountBlocked;
      }
      if !users[u].emailVerified {
        return EmailNotVerified;
      }
      if users[u].totp {
        return Challenge;
      }
      var _ := IssueTokenPair(u, id, now + lifetime);
      r := Tokens(id);
    }

    method VerifyMfaLogin(u: UserId, challengeOk: bool, codeOk: bool, id: TokenId, now: int, lifetime: int) returns (r: Outcome)
      requires Valid() && id !in tokens
      modifies this`tokens
      ensures Valid() && (Value(), r) == VerifyingMfa(old(Value()), u, challengeOk, codeOk, id, now + lifetime)
    {
      if !challengeOk {
        return MfaChallengeInvalid;
      }
      if u !in users || users[u].blocked || !users[u].active || !users[u].totp {
        return MfaChallengeInvalid;
      }
      if !codeOk {
        return InvalidTotpCode;
      }
      var _ := IssueTokenPair(u, id, now + lifetime);
      r := Tokens(id);
    }

    /** refresh */
    method Refresh(token: TokenId, id: TokenId, now: int, lifetime: int) returns (r: Outcome)
      requires Valid() && id !in tokens
      modifies this`tokens, tokens.Values
      ensures Valid() && (Value(), r) == Refreshing(old(Value()), token, id, now + lifetime, now)
    {
      if token !in tokens {
        return InvalidRefreshToken;
      }
      var storedToken := tokens[token];
      if !storedToken.IsValid(now) {
        RevokeAllForUser(storedToken.userId, now);
        return InvalidRefreshToken;
      }
      var u := storedToken.userId;
      if u !in users || users[u].blocked || !users[u].active {
        return InvalidRefreshToken;
      }
      var _ := IssueTokenPair(u, id, now + lifetime);
      RevokeStored(token, Some(id), now);
      r := Tokens(id);
    }

    method RevokeStored(token: TokenId, replacedBy: Option<TokenId>, now: int)
      requires Valid() && token in tokens
      modifies tokens[token]
      ensures Valid() && Value() == Replaced(old(Value()), token, replacedBy, now)
    {
      tokens[token].Revoke(replacedBy, now);
      forall t | t in tokens && t != token ensures tokens[t].Value() == old(tokens[t].Value()) {
        assert tokens[t].id == t && tokens[token].id == token;
      }
    }

    /** logout */
    method Logout(token: TokenId, now: int) returns (r: Outcome)
      requires Valid()
      modifies tokens.Values
      ensures Valid() && (Value(), r) == LoggingOut(old(Value()), token, now)
    {
      if token in tokens && tokens[token].IsValid(now) {
        RevokeStored(token, None, now);
      }
      r := RefreshTokens.Done;
    }

    /** change_password, without the password itself. */
    method ChangePassword(u: UserId, passwordOk: bool, now: int) returns (r: Outcome)
      requires Valid()
      modifies tokens.Values
      ensures Valid() && (Value(), r) == Step(old(Value()), RefreshTokens.ChangePassword(u, passwordOk, now))
    {
      if !passwordOk {
        return InvalidCredentials;
      }
      RevokeAllForUser(u, now);
      r := RefreshTokens.Done;
    }

    /** confirm_password_reset, without the password itself. */
    method ConfirmPasswordReset(u: UserId, resetOk: bool, now: int) returns (r: Outcome)
      requires Valid()
      modifies tokens.Values
      ensures Valid() && (Value(), r) == Step(old(Value()), ConfirmReset(u, resetOk, now))
    {
      if u !in users || !resetOk {
        return InvalidResetToken;
      }
      RevokeAllForUser(u, now);
      r := RefreshTokens.Done;
    }
  }
}
