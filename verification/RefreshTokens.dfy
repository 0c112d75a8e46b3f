/**
 Refresh tokens: every login starts a line of tokens, every refresh replaces the last of a line by a
 new one, and the use of a token that is no longer valid revokes all tokens of its user. Tokens stand
 for their hashes. Calls run one after the other.
 */
module RefreshTokens {
  import opened Basics

  type TokenId = int
  type UserId = int

  datatype Token = Token(user: UserId, expiresAt: int, revokedAt: Option<int>, replacedBy: Option<TokenId>)

  datatype User = User(blocked: bool, active: bool, emailVerified: bool, totp: bool)

  /** The token and user tables. */
  datatype Auth = Auth(tokens: map<TokenId, Token>, users: map<UserId, User>)

  predicate Usable(t: Token, now: int) {
    t.revokedAt.None? && t.expiresAt > now
  }

  predicate Admitted(a: Auth, u: UserId) {
    u in a.users && !a.users[u].blocked && a.users[u].active
  }

  // ---- The table operations --------------------------------------------------------------------

  function Issued(a: Auth, u: UserId, t: TokenId, expiresAt: int): Auth {
    a.(tokens := a.tokens[t := Token(u, expiresAt, None, None)])
  }

  function Replaced(a: Auth, t: TokenId, successor: Option<TokenId>, now: int): Auth
    requires t in a.tokens
  {
    var link := if successor.Some? then successor else a.tokens[t].replacedBy;
    a.(tokens := a.tokens[t := a.tokens[t].(revokedAt := Some(now), replacedBy := link)])
  }

  function RevokedAll(a: Auth, u: UserId, now: int): Auth {
    a.(tokens := map t | t in a.tokens ::
      if a.tokens[t].user == u && a.tokens[t].revokedAt.None? then a.tokens[t].(revokedAt := Some(now)) else a.tokens[t])
  }

  // ---- The calls -------------------------------------------------------------------------------

  /**
   Passwords, TOTP codes and signed tokens are checked elsewhere; the calls carry the verdicts. A new
   token expires at a given time: the clock plus a lifetime that is a setting.
   */
  datatype Call =
    | Login(user: UserId, passwordOk: bool, issued: TokenId, expiresAt: int)
    | VerifyMfa(user: UserId, challengeOk: bool, codeOk: bool, issued: TokenId, expiresAt: int)
    | Refresh(token: TokenId, issued: TokenId, expiresAt: int, now: int)
    | Logout(token: TokenId, now: int)
    | ChangePassword(user: UserId, passwordOk: bool, now: int)
    | ConfirmReset(user: UserId, resetOk: bool, now: int)
    | SetUser(user: UserId, row: User)

  datatype Outcome =
    | Tokens(token: TokenId)
    | Challenge
    | Done
    | InvalidCredentials
    | AccountBlocked
    | EmailNotVerified
    | MfaChallengeInvalid
    | InvalidTotpCode
    | InvalidRefreshToken
    | InvalidResetToken

  function LoggingIn(a: Auth, u: UserId, passwordOk: bool, t: TokenId, expiresAt: int): (Auth, Outcome) {
    if u !in a.users || !passwordOk then (a, InvalidCredentials)
    else if !Admitted(a, u) then (a, AccountBlocked)
    else if !a.users[u].emailVerified then (a, EmailNotVerified)
    else if a.users[u].totp then (a, Challenge)
    else (Issued(a, u, t, expiresAt), Tokens(t))
  }

  function VerifyingMfa(a: Auth, u: UserId, challengeOk: bool, codeOk: bool, t: TokenId, expiresAt: int): (Auth, Outcome) {
    if !challengeOk || !Admitted(a, u) || !a.users[u].totp then (a, MfaChallengeInvalid)
    else if !codeOk then (a, InvalidTotpCode)
    else (Issued(a, u, t, expiresAt), Tokens(t))
  }

  function Refreshing(a: Auth, token: TokenId, t: TokenId, expiresAt: int, now: int): (Auth, Outcome) {
    if token !in a.tokens then (a, InvalidRefreshToken)
    else if !Usable(a.tokens[token], now) then (RevokedAll(a, a.tokens[token].user, now), InvalidRefreshToken)
    else if !Admitted(a, a.tokens[token].user) then (a, InvalidRefreshToken)
    else
      (Replaced(Issued(a, a.tokens[token].user, t, expiresAt), token, Some(t), now), Tokens(t))
  }

  function LoggingOut(a: Auth, token: TokenId, now: int): (Auth, Outcome) {
    if token in a.tokens && Usable(a.tokens[token], now) then (Replaced(a, token, None, now), Done) else (a, Done)
  }

  function Step(a: Auth, c: Call): (Auth, Outcome) {
    match c
    case Login(u, ok, t, expiresAt) => LoggingIn(a, u, ok, t, expiresAt)
    case VerifyMfa(u, challengeOk, codeOk, t, expiresAt) => VerifyingMfa(a, u, challengeOk, codeOk, t, expiresAt)
    case Refresh(token, t, expiresAt, now) => Refreshing(a, token, t, expiresAt, now)
    case Logout(token, now) => LoggingOut(a, token, now)
    case ChangePassword(u, ok, now) => if !ok then (a, InvalidCredentials) else (RevokedAll(a, u, now), Done)
    case ConfirmReset(u, ok, now) => if u !in a.users || !ok then (a, InvalidResetToken) else (RevokedAll(a, u, now), Done)
    case SetUser(u, row) => (a.(users := a.users[u := row]), Done)
  }

  /** New tokens are random; they are assumed never to repeat. */
  predicate FreshToken(a: Auth, c: Call) {
    (c.Login? || c.VerifyMfa? || c.Refresh?) ==> c.issued !in a.tokens
  }

  predicate CanRun(a: Auth, calls: seq<Call>)
    decreases |calls|
  {
    calls == [] || (FreshToken(a, calls[0]) && CanRun(Step(a, calls[0]).0, calls[1..]))
  }

  function Run(a: Auth, calls: seq<Call>): Auth
    decreases |calls|
  {
    if calls == [] then a else Run(Step(a, calls[0]).0, calls[1..])
  }

  // ---- Revocation is final ---------------------------------------------------------------------

  /** Tokens stay, keep their user, and once revoked keep the time of it. */
  predicate Later(a: Auth, a': Auth) {
    forall t | t in a.tokens ::
      && t in a'.tokens
      && a'.tokens[t].user == a.tokens[t].user
      && (a.tokens[t].revokedAt.Some? ==> a'.tokens[t].revokedAt == a.tokens[t].revokedAt)
      && (a.tokens[t].replacedBy.Some? ==> a'.tokens[t].replacedBy == a.tokens[t].replacedBy)
  }

  /** A replaced token is revoked. */
  predicate LinksRevoked(a: Auth) {
    forall t | t in a.tokens && a.tokens[t].replacedBy.Some? :: a.tokens[t].revokedAt.Some?
  }

  lemma StepIsLater(a: Auth, c: Call)
    requires FreshToken(a, c) && LinksRevoked(a)
    ensures Later(a, Step(a, c).0) && LinksRevoked(Step(a, c).0)
  {}

  lemma {:induction false} RunIsLater(a: Auth, calls: seq<Call>)
    requires CanRun(a, calls) && LinksRevoked(a)
    ensures Later(a, Run(a, calls)) && LinksRevoked(Run(a, calls))
    decreases |calls|
  {
    if calls != [] {
      StepIsLater(a, calls[0]);
      var a1 := Step(a, calls[0]).0;
      RunIsLater(a1, calls[1..]);
      forall t | t in a.tokens ensures t in a1.tokens {}
    }
  }

  /** The calls that revoke everything: a password change, a reset, and the use of a token that is not valid. */
  predicate RevokesAll(a: Auth, c: Call, u: UserId) {
    match c
    case ChangePassword(user, ok, _) => ok && user == u
    case ConfirmReset(user, ok, _) => user in a.users && ok && user == u
    case Refresh(token, _, _, now) => token in a.tokens && !Usable(a.tokens[token], now) && a.tokens[token].user == u
    case _ => false
  }

  /**
   After such a call no token that its user had before is valid, then or in any later state, at any
   time; and no refresh of one succeeds.
   */
  lemma RevocationIsFinal(a: Auth, c: Call, calls: seq<Call>, t: TokenId, now: int)
    requires LinksRevoked(a) && t in a.tokens && RevokesAll(a, c, a.tokens[t].user)
    requires CanRun(a, [c] + calls)
    ensures
      var later := Run(Step(a, c).0, calls);
      && t in later.tokens && !Usable(later.tokens[t], now)
      && forall n, e :: Step(later, Refresh(t, n, e, now)).1 == InvalidRefreshToken
  {
    var a1 := Step(a, c).0;
    assert ([c] + calls)[1..] == calls;
    StepIsLater(a, c);
    assert t in a1.tokens && a1.tokens[t].revokedAt.Some?;
    RunIsLater(a1, calls);
  }

  /** A refresh that succeeds retires the token for good: the next use of it is a reuse. */
  lemma RefreshesOnce(a: Auth, token: TokenId, t: TokenId, expiresAt: int, now: int, calls: seq<Call>, t': TokenId,
                      expiresAt': int, now': int)
    requires LinksRevoked(a) && CanRun(a, [Refresh(token, t, expiresAt, now)] + calls)
    requires Step(a, Refresh(token, t, expiresAt, now)).1.Tokens?
    ensures
      var later := Run(Step(a, Refresh(token, t, expiresAt, now)).0, calls);
      && token in later.tokens
      && Step(later, Refresh(token, t', expiresAt', now')) == (RevokedAll(later, later.tokens[token].user, now'), InvalidRefreshToken)
  {
    var c := Refresh(token, t, expiresAt, now);
    assert ([c] + calls)[1..] == calls;
    StepIsLater(a, c);
    var a1 := Step(a, c).0;
    assert token in a1.tokens && a1.tokens[token].revokedAt.Some?;
    RunIsLater(a1, calls);
  }

  /** After a logout with a valid token, that token is never valid again. */
  lemma LogoutIsFinal(a: Auth, token: TokenId, at: int, calls: seq<Call>, now: int)
    requires LinksRevoked(a) && token in a.tokens && Usable(a.tokens[token], at)
    requires CanRun(a, [Logout(token, at)] + calls)
    ensures
      var later := Run(Step(a, Logout(token, at)).0, calls);
      token in later.tokens && !Usable(later.tokens[token], now)
  {
    var c := Logout(token, at);
    assert ([c] + calls)[1..] == calls;
    StepIsLater(a, c);
    var a1 := Step(a, c).0;
    assert token in a1.tokens && a1.tokens[token].revokedAt.Some?;
    RunIsLater(a1, calls);
  }

  /** A call that does not revoke all of a user's tokens changes none of them but the one that it was given. */
  lemma OthersStaySignedIn(a: Auth, c: Call, t: TokenId)
    requires FreshToken(a, c) && t in a.tokens && !RevokesAll(a, c, a.tokens[t].user)
    requires (c.Refresh? || c.Logout?) ==> c.token != t
    ensures t in Step(a, c).0.tokens && Step(a, c).0.tokens[t] == a.tokens[t]
  {}

  /** A refresh goes through exactly for a valid token of an admitted user, and then hands over to the new token. */
  lemma RefreshesExactly(a: Auth, token: TokenId, t: TokenId, expiresAt: int, now: int)
    requires FreshToken(a, Refresh(token, t, expiresAt, now))
    ensures
      var (a', outcome) := Step(a, Refresh(token, t, expiresAt, now));
      && (outcome == Tokens(t) <==> token in a.tokens && Usable(a.tokens[token], now) && Admitted(a, a.tokens[token].user))
      && (outcome == Tokens(t) ==>
            && t in a'.tokens && a'.tokens[t] == Token(a.tokens[token].user, expiresAt, None, None)
            && token in a'.tokens && !Usable(a'.tokens[token], now) && a'.tokens[token].replacedBy == Some(t))
  {}

  // ---- What each call answers and changes -------------------------------------------------------

  /** All tokens of u that were not revoked are revoked now, and nothing else has changed. */
  predicate RevokedEvery(a: Auth, a': Auth, u: UserId, now: int) {
    && a'.users == a.users && a'.tokens.Keys == a.tokens.Keys
    && forall t | t in a.tokens ::
         if a.tokens[t].user == u && a.tokens[t].revokedAt.None?
         then a'.tokens[t] == Token(u, a.tokens[t].expiresAt, Some(now), a.tokens[t].replacedBy)
         else a'.tokens[t] == a.tokens[t]
  }

  /** Token t is revoked now, with this link, and nothing else has changed. */
  predicate RevokedOne(a: Auth, a': Auth, t: TokenId, link: Option<TokenId>, now: int)
    requires t in a.tokens
  {
    a'.users == a.users && a'.tokens == a.tokens[t := Token(a.tokens[t].user, a.tokens[t].expiresAt, Some(now), link)]
  }

  /**
   A refresh that does not go through: an unknown token, and a valid token of a user who is blocked or
   inactive, change nothing, so that the token stays valid; a token that is not valid revokes everything.
   */
  lemma RefreshRefusals(a: Auth, token: TokenId, t: TokenId, expiresAt: int, now: int)
    ensures
      var (a', outcome) := Step(a, Refresh(token, t, expiresAt, now));
      && (token !in a.tokens ==> outcome == InvalidRefreshToken && a' == a)
      && (token in a.tokens && !(a.tokens[token].revokedAt.None? && now < a.tokens[token].expiresAt) ==>
            outcome == InvalidRefreshToken && RevokedEvery(a, a', a.tokens[token].user, now))
      && (token in a.tokens && a.tokens[token].revokedAt.None? && now < a.tokens[token].expiresAt
          && !(a.tokens[token].user in a.users && a.users[a.tokens[token].user].active && !a.users[a.tokens[token].user].blocked) ==>
            outcome == InvalidRefreshToken && a' == a)
  {}

  /** A refresh that goes through: one new token, the old one revoked and linked to it, and nothing else. */
  lemma RefreshDoes(a: Auth, token: TokenId, t: TokenId, expiresAt: int, now: int)
    requires t !in a.tokens && token in a.tokens && a.tokens[token].revokedAt.None? && now < a.tokens[token].expiresAt
    requires a.tokens[token].user in a.users
    requires a.users[a.tokens[token].user].active && !a.users[a.tokens[token].user].blocked
    ensures
      var (a', outcome) := Step(a, Refresh(token, t, expiresAt, now));
      var before := a.tokens[token];
      && outcome == Tokens(t) && a'.users == a.users
      && a'.tokens == a.tokens[t := Token(before.user, expiresAt, None, None)][token := Token(before.user, before.expiresAt, Some(now), Some(t))]
  {}

  /** A logout revokes a valid token, without a link, and changes nothing otherwise. */
  lemma LogoutDoes(a: Auth, token: TokenId, now: int)
    ensures
      var (a', outcome) := Step(a, Logout(token, now));
      && outcome == Done
      && if token in a.tokens && a.tokens[token].revokedAt.None? && now < a.tokens[token].expiresAt
         then RevokedOne(a, a', token, a.tokens[token].replacedBy, now)
         else a' == a
  {}

  /** A password change needs the old password, a reset a known user and a good reset token. */
  lemma PasswordCallsDo(a: Auth, u: UserId, ok: bool, now: int)
    ensures
      var (a', outcome) := Step(a, ChangePassword(u, ok, now));
      if ok then outcome == Done && RevokedEvery(a, a', u, now) else outcome == InvalidCredentials && a' == a
    ensures
      var (a', outcome) := Step(a, ConfirmReset(u, ok, now));
      if ok && u in a.users then outcome == Done && RevokedEvery(a, a', u, now) else outcome == InvalidResetToken && a' == a
  {}

  /** Why a login issues no token. */
  lemma LoginRefusals(a: Auth, u: UserId, passwordOk: bool, t: TokenId, expiresAt: int)
    ensures
      var (a', outcome) := Step(a, Login(u, passwordOk, t, expiresAt));
      && (outcome == InvalidCredentials <==> u !in a.users || !passwordOk)
      && (outcome == AccountBlocked <==> u in a.users && passwordOk && (a.users[u].blocked || !a.users[u].active))
      && (outcome == EmailNotVerified <==>
            u in a.users && passwordOk && !a.users[u].blocked && a.users[u].active && !a.users[u].emailVerified)
      && (outcome == Challenge <==>
            u in a.users && passwordOk && !a.users[u].blocked && a.users[u].active && a.users[u].emailVerified && a.users[u].totp)
      && (!outcome.Tokens? ==> a' == a)
  {}

  /** Why a second factor issues no token. */
  lemma VerifyMfaRefusals(a: Auth, u: UserId, challengeOk: bool, codeOk: bool, t: TokenId, expiresAt: int)
    ensures
      var (a', outcome) := Step(a, VerifyMfa(u, challengeOk, codeOk, t, expiresAt));
      var entitled := challengeOk && u in a.users && !a.users[u].blocked && a.users[u].active && a.users[u].totp;
      && (outcome == MfaChallengeInvalid <==> !entitled)
      && (outcome == InvalidTotpCode <==> entitled && !codeOk)
      && (!outcome.Tokens? ==> a' == a)
  {}

  // ---- Lines of tokens -------------------------------------------------------------------------

  datatype Place = Place(line: nat, index: nat)

  /** The tables with their history: the line that each login started, and where each token stands. */
  datatype Record = Record(auth: Auth, lines: seq<seq<TokenId>>, places: map<TokenId, Place>)

  predicate Standing(r: Record, t: TokenId) {
    && t in r.places
    && r.places[t].line < |r.lines| && r.places[t].index < |r.lines[r.places[t].line]|
    && r.lines[r.places[t].line][r.places[t].index] == t
  }

  /** A new token starts a line, or comes after the one that it replaces. */
  function Noted(r: Record, c: Call): Record
    requires c.Refresh? && c.token in r.auth.tokens ==> Standing(r, c.token)
  {
    var (a', outcome) := Step(r.auth, c);
    if !outcome.Tokens? then r.(auth := a')
    else
      var t := outcome.token;
      if !c.Refresh? then Record(a', r.lines + [[t]], r.places[t := Place(|r.lines|, 0)])
      else
        var l := r.places[c.token].line;
        Record(a', r.lines[l := r.lines[l] + [t]], r.places[t := Place(l, |r.lines[l]|)])
  }

  /** The token at a place of a line: linked to the next one and revoked, or the last one and not linked. */
  predicate LinkOk(r: Record, l: nat, p: nat)
    requires l < |r.lines| && p < |r.lines[l]|
  {
    var line := r.lines[l];
    && line[p] in r.auth.tokens && line[p] in r.places && r.places[line[p]] == Place(l, p)
    && var token := r.auth.tokens[line[p]];
    && line[0] in r.auth.tokens && token.user == r.auth.tokens[line[0]].user
    && if p + 1 < |line| then token.replacedBy == Some(line[p + 1]) && token.revokedAt.Some?
       else token.replacedBy == None
  }

  predicate LinesOk(r: Record) {
    && (forall t | t in r.auth.tokens :: Standing(r, t))
    && (forall t | t in r.places :: t in r.auth.tokens)
    && (forall l, p | 0 <= l < |r.lines| && 0 <= p < |r.lines[l]| :: LinkOk(r, l, p))
  }

  predicate OnlyRevoked(t: Token, t': Token) {
    t'.user == t.user && t'.replacedBy == t.replacedBy && (t.revokedAt.Some? ==> t'.revokedAt.Some?)
  }

  /** Changes of the tables that only revoke tokens keep all lines. */
  lemma RevokingKeepsLines(r: Record, a: Auth)
    requires LinesOk(r)
    requires forall t :: t in a.tokens <==> t in r.auth.tokens
    requires forall t | t in r.auth.tokens :: OnlyRevoked(r.auth.tokens[t], a.tokens[t])
    ensures LinesOk(r.(auth := a))
  {
    var r' := r.(auth := a);
    forall t | t in a.tokens ensures Standing(r', t) {
      assert t in r.auth.tokens && Standing(r, t);
    }
    forall l, p | 0 <= l < |r.lines| && 0 <= p < |r.lines[l]| ensures LinkOk(r', l, p) {
      assert LinkOk(r, l, p);
      var t, first := r.lines[l][p], r.lines[l][0];
      assert OnlyRevoked(r.auth.tokens[t], a.tokens[t]) && OnlyRevoked(r.auth.tokens[first], a.tokens[first]);
    }
  }

  lemma StartingKeepsLines(r: Record, u: UserId, t: TokenId, expiresAt: int)
    requires LinesOk(r) && t !in r.auth.tokens
    ensures LinesOk(Record(Issued(r.auth, u, t, expiresAt), r.lines + [[t]], r.places[t := Place(|r.lines|, 0)]))
  {
    var r' := Record(Issued(r.auth, u, t, expiresAt), r.lines + [[t]], r.places[t := Place(|r.lines|, 0)]);
    forall x | x in r'.auth.tokens ensures Standing(r', x) {
      assert x != t ==> x in r.auth.tokens && Standing(r, x);
    }
    forall l, p | 0 <= l < |r'.lines| && 0 <= p < |r'.lines[l]| ensures LinkOk(r', l, p) {
      if l < |r.lines| {
        assert r'.lines[l] == r.lines[l];
        assert LinkOk(r, l, p) && LinkOk(r, l, 0);
      } else {
        assert r'.lines[l] == [t];
      }
    }
  }

  /** A token that is not revoked is the last of its line. */
  lemma UnrevokedIsLast(r: Record, t: TokenId)
    requires LinesOk(r) && t in r.auth.tokens && r.auth.tokens[t].revokedAt.None?
    ensures Standing(r, t) && r.places[t].index == |r.lines[r.places[t].line]| - 1
  {
    assert Standing(r, t);
    assert LinkOk(r, r.places[t].line, r.places[t].index);
  }

  lemma ExtendingKeepsLines(r: Record, token: TokenId, t: TokenId, expiresAt: int, now: int)
    requires LinesOk(r) && token in r.auth.tokens && r.auth.tokens[token].revokedAt.None? && t !in r.auth.tokens
    requires Standing(r, token)
    ensures
      var l := r.places[token].line;
      LinesOk(Record(Replaced(Issued(r.auth, r.auth.tokens[token].user, t, expiresAt), token, Some(t), now),
                     r.lines[l := r.lines[l] + [t]], r.places[t := Place(l, |r.lines[l]|)]))
  {
    var k := r.places[token].line;
    var r' := Record(Replaced(Issued(r.auth, r.auth.tokens[token].user, t, expiresAt), token, Some(t), now),
                     r.lines[k := r.lines[k] + [t]], r.places[t := Place(k, |r.lines[k]|)]);
    UnrevokedIsLast(r, token);
    forall x | x in r'.auth.tokens ensures Standing(r', x) {
      assert x != t ==> x in r.auth.tokens && Standing(r, x);
    }
    forall l, p | 0 <= l < |r'.lines| && 0 <= p < |r'.lines[l]| ensures LinkOk(r', l, p) {
      assert LinkOk(r, k, |r.lines[k]| - 1);
      if p < |r.lines[l]| {
        assert LinkOk(r, l, p) && LinkOk(r, l, 0);
      } else {
        assert LinkOk(r, k, 0);
      }
    }
  }

  lemma NotingKeepsLines(r: Record, c: Call)
    requires LinesOk(r) && FreshToken(r.auth, c)
    requires c.Refresh? && c.token in r.auth.tokens ==> Standing(r, c.token)
    ensures LinesOk(Noted(r, c))
  {
    var (a', outcome) := Step(r.auth, c);
    if !outcome.Tokens? {
      RevokingKeepsLines(r, a');
    } else if c.Refresh? {
      ExtendingKeepsLines(r, c.token, c.issued, c.expiresAt, c.now);
    } else {
      StartingKeepsLines(r, c.user, c.issued, c.expiresAt);
    }
  }

  /** r' has one line more, of the one new token t, which is valid until it expires. */
  ghost predicate NewLine(r: Record, r': Record, u: UserId, t: TokenId, expiresAt: int) {
    && r'.lines == r.lines + [[t]]
    && r'.auth.users == r.auth.users
    && r'.auth.tokens.Keys == r.auth.tokens.Keys + {t}
    && (forall x | x in r.auth.tokens && x != t :: r'.auth.tokens[x] == r.auth.tokens[x])
    && r'.auth.tokens[t].user == u
    && forall now :: Usable(r'.auth.tokens[t], now) <==> now < expiresAt
  }

  /**
   A login issues a token exactly when the password is right and the user is admitted, has a verified
   address, and has no second factor. The token is the first of a new line; all others stay as they are.
   Otherwise nothing changes.
   */
  lemma LoginExactly(r: Record, u: UserId, passwordOk: bool, t: TokenId, expiresAt: int)
    requires LinesOk(r) && t !in r.auth.tokens
    ensures
      var c := Login(u, passwordOk, t, expiresAt);
      var r' := Noted(r, c);
      if passwordOk && Admitted(r.auth, u) && r.auth.users[u].emailVerified && !r.auth.users[u].totp then
        && Step(r.auth, c).1 == Tokens(t) && NewLine(r, r', u, t, expiresAt)
      else
        !Step(r.auth, c).1.Tokens? && r' == r
  {}

  /**
   A second factor issues a token exactly when the challenge and the code are right and the user is
   admitted and has a second factor; then the token is the first of a new line.
   */
  lemma VerifyMfaExactly(r: Record, u: UserId, challengeOk: bool, codeOk: bool, t: TokenId, expiresAt: int)
    requires LinesOk(r) && t !in r.auth.tokens
    ensures
      var c := VerifyMfa(u, challengeOk, codeOk, t, expiresAt);
      var r' := Noted(r, c);
      if challengeOk && codeOk && Admitted(r.auth, u) && r.auth.users[u].totp then
        && Step(r.auth, c).1 == Tokens(t) && NewLine(r, r', u, t, expiresAt)
      else
        !Step(r.auth, c).1.Tokens? && r' == r
  {}

  /** The record of a run from empty token tables. */
  function Recording(users: map<UserId, User>, calls: seq<Call>): (r: Record)
    requires CanRecord(users, calls)
    ensures LinesOk(r)
    decreases |calls|, 1
  {
    if calls == [] then Record(Auth(map[], users), [], map[])
    else
      var r := Recording(users, calls[..|calls| - 1]);
      NotingKeepsLines(r, calls[|calls| - 1]);
      Noted(r, calls[|calls| - 1])
  }

  predicate CanRecord(users: map<UserId, User>, calls: seq<Call>)
    decreases |calls|, 0
  {
    calls == [] ||
    (CanRecord(users, calls[..|calls| - 1]) && FreshToken(Recording(users, calls[..|calls| - 1]).auth, calls[|calls| - 1]))
  }

  /** The calls that issued the first token of a line. */
  function Logins(users: map<UserId, User>, calls: seq<Call>): nat
    requires CanRecord(users, calls)
  {
    if calls == [] then 0
    else
      var front, c := calls[..|calls| - 1], calls[|calls| - 1];
      Logins(users, front) + if !c.Refresh? && Step(Recording(users, front).auth, c).1.Tokens? then 1 else 0
  }

  lemma {:induction false} OneLinePerLogin(users: map<UserId, User>, calls: seq<Call>)
    requires CanRecord(users, calls)
    ensures |Recording(users, calls).lines| == Logins(users, calls)
  {
    if calls != [] {
      OneLinePerLogin(users, calls[..|calls| - 1]);
    }
  }

  /** In every run each line has at most one valid token, and it is the last. */
  lemma OneValidPerLine(users: map<UserId, User>, calls: seq<Call>, s: TokenId, t: TokenId, now: int)
    requires CanRecord(users, calls)
    requires
      var r := Recording(users, calls);
      && s in r.auth.tokens && t in r.auth.tokens
      && Usable(r.auth.tokens[s], now) && Usable(r.auth.tokens[t], now)
      && Standing(r, s) && Standing(r, t) && r.places[s].line == r.places[t].line
    ensures s == t
    ensures
      var r := Recording(users, calls);
      r.places[t].index == |r.lines[r.places[t].line]| - 1
  {
    var r := Recording(users, calls);
    UnrevokedIsLast(r, s);
    UnrevokedIsLast(r, t);
  }

  /** The token that n links lead to. */
  function Follow(a: Auth, t: TokenId, n: nat): Option<TokenId>
    decreases n
  {
    if t !in a.tokens then None
    else if n == 0 then Some(t)
    else if a.tokens[t].replacedBy.None? then None
    else Follow(a, a.tokens[t].replacedBy.value, n - 1)
  }

  /** n links lead n places on in the same line, and end with the line. */
  lemma {:induction false} LinksFollowLine(r: Record, t: TokenId, n: nat)
    requires LinesOk(r) && t in r.auth.tokens && Standing(r, t)
    ensures
      var line, p := r.lines[r.places[t].line], r.places[t].index;
      Follow(r.auth, t, n) == if p + n < |line| then Some(line[p + n]) else None
    decreases n
  {
    var l, p := r.places[t].line, r.places[t].index;
    assert LinkOk(r, l, p);
    if n > 0 && p + 1 < |r.lines[l]| {
      assert LinkOk(r, l, p + 1);
      LinksFollowLine(r, r.lines[l][p + 1], n - 1);
    }
  }

  /** In every run the links have no cycles, and a token has at most one predecessor. */
  lemma LinksAreAcyclic(users: map<UserId, User>, calls: seq<Call>, t: TokenId, n: nat)
    requires CanRecord(users, calls) && t in Recording(users, calls).auth.tokens && n > 0
    ensures Follow(Recording(users, calls).auth, t, n) != Some(t)
  {
    var r := Recording(users, calls);
    assert Standing(r, t);
    LinksFollowLine(r, t, n);
    var l, p := r.places[t].line, r.places[t].index;
    if p + n < |r.lines[l]| {
      assert LinkOk(r, l, p + n);
    }
  }

  lemma OnePredecessor(users: map<UserId, User>, calls: seq<Call>, s: TokenId, t: TokenId)
    requires CanRecord(users, calls)
    requires
      var tokens := Recording(users, calls).auth.tokens;
      s in tokens && t in tokens && tokens[s].replacedBy.Some? && tokens[s].replacedBy == tokens[t].replacedBy
    ensures s == t
  {
    var r := Recording(users, calls);
    assert Standing(r, s) && Standing(r, t);
    assert LinkOk(r, r.places[s].line, r.places[s].index) && LinkOk(r, r.places[t].line, r.places[t].index);
    assert LinkOk(r, r.places[s].line, r.places[s].index + 1) && LinkOk(r, r.places[t].line, r.places[t].index + 1);
  }
}
