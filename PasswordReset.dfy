/** The reset-token lifecycle of routes/resetPwdRoute.js: `/forgot-password`
    stores the SHA-256 digest of a fresh random token with a fifteen-minute
    expiry, and `/reset-password/:token` redeems a matching, unexpired digest
    exactly once. SHA-256, bcrypt, the random token, the clock and the mail
    outcome are parameters. */
module PasswordReset {
  import opened Common
  import opened Users

  /** Lifetime of a reset token: fifteen minutes, in milliseconds. */
  const ResetWindowMs: int := 15 * 60 * 1000

  /** The redemption filter: the stored digest is `digest` and the expiry lies
      strictly after `now`. */
  predicate TokenMatches(u: User, digest: string, now: int)
  {
    u.resetPasswordToken == Some(digest) && u.resetPasswordExpires.Some? && u.resetPasswordExpires.value > now
  }

  /** The raw token `raw` redeems `u`'s reset at time `now`. */
  predicate Redeemable(u: User, raw: string, now: int, sha256: string -> string)
  {
    TokenMatches(u, sha256(raw), now)
  }

  /** The user after a forgot-password request: only the digest is kept. */
  function IssueToken(u: User, raw: string, now: int, sha256: string -> string): User
  {
    u.(resetPasswordToken := Some(sha256(raw)), resetPasswordExpires := Some(now + ResetWindowMs))
  }

  /** The user after a successful reset: new password digest, token cleared. */
  function Redeem(u: User, passwordHash: string): User
  {
    u.(password := passwordHash, resetPasswordToken := None, resetPasswordExpires := None)
  }

  /** An issued token redeems exactly those raw tokens with the same digest,
      and only before now + 15 minutes. */
  lemma IssuedTokenRedeemableUntilExpiry(u: User, raw: string, token: string, now: int, t: int, sha256: string -> string)
    ensures Redeemable(IssueToken(u, raw, now, sha256), token, t, sha256)
            <==> sha256(token) == sha256(raw) && t < now + ResetWindowMs
  {
  }

  /** Issuing leaves the identity, the password and the profile alone. */
  lemma IssueTokenKeepsAccount(u: User, raw: string, now: int, sha256: string -> string)
    ensures var r := IssueToken(u, raw, now, sha256);
            r.id == u.id && r.email == u.email && r.password == u.password && r.role == u.role
            && r.name == u.name && r.mobile == u.mobile && r.address == u.address
            && r.state == u.state && r.country == u.country
  {
  }

  /** A redeemed user cannot be redeemed again, by any token at any time. */
  lemma RedeemedTokenIsSpent(u: User, passwordHash: string, token: string, t: int, sha256: string -> string)
    ensures !Redeemable(Redeem(u, passwordHash), token, t, sha256)
    ensures Redeem(u, passwordHash).password == passwordHash
  {
  }

  /** The user the redemption lookup finds. */
  function FindByResetToken(users: seq<User>, token: string, now: int, sha256: string -> string): (r: Option<nat>)
    ensures r.Some? ==> r.value < |users| && Redeemable(users[r.value], token, now, sha256)
    ensures r.Some? ==> forall j :: 0 <= j < r.value ==> !Redeemable(users[j], token, now, sha256)
    ensures r.None? <==> forall j :: 0 <= j < |users| ==> !Redeemable(users[j], token, now, sha256)
  {
    FirstWhere(users, (u: User) => TokenMatches(u, sha256(token), now))
  }

  datatype ForgotResponse = UserNotFound | LinkSent(resetToken: string) | MailFailed

  function ForgotStatusCode(r: ForgotResponse): int
  {
    match r
    case UserNotFound => 404
    case LinkSent(_) => 200
    case MailFailed => 500
  }

  /** `/forgot-password`: the users afterwards and the response. The token is
      saved before the mail is sent, so a mail failure answers 500 with the
      new token already stored. */
  function Forgot(users: seq<User>, email: Option<string>, raw: string, now: int,
                  sha256: string -> string, mailSent: bool): (res: (seq<User>, ForgotResponse))
    ensures res.1 == UserNotFound <==> FindUserByEmail(users, email).None?
    ensures res.1 == UserNotFound ==> res.0 == users
    ensures res.1 != UserNotFound ==> res.1 == (if mailSent then LinkSent(raw) else MailFailed)
    ensures res.1 != UserNotFound ==>
              var i := FindUserByEmail(users, email).value;
              res.0 == users[i := IssueToken(users[i], raw, now, sha256)]
  {
    match FindUserByEmail(users, email)
    case None => (users, UserNotFound)
    case Some(i) =>
      (users[i := IssueToken(users[i], raw, now, sha256)], if mailSent then LinkSent(raw) else MailFailed)
  }

  datatype ResetResponse = InvalidOrExpired | PasswordChanged | ResetFailed

  function ResetStatusCode(r: ResetResponse): int
  {
    match r
    case InvalidOrExpired => 400
    case PasswordChanged => 200
    case ResetFailed => 500
  }

  /** `/reset-password/:token`. The lookup comes first; bcrypt then throws on
      an absent new password, which answers 500 and saves nothing. */
  function Reset(users: seq<User>, token: string, newPassword: Option<string>, now: int,
                 sha256: string -> string, bcrypt: string -> string): (res: (seq<User>, ResetResponse))
    ensures res.1 == InvalidOrExpired <==> forall j :: 0 <= j < |users| ==> !Redeemable(users[j], token, now, sha256)
    ensures res.1 != PasswordChanged ==> res.0 == users
    ensures res.1 == ResetFailed <==> FindByResetToken(users, token, now, sha256).Some? && newPassword.None?
    ensures res.1 == PasswordChanged ==>
              var i := FindByResetToken(users, token, now, sha256).value;
              res.0 == users[i := Redeem(users[i], bcrypt(newPassword.value))]
  {
    match FindByResetToken(users, token, now, sha256)
    case None => (users, InvalidOrExpired)
    case Some(i) =>
      if newPassword.None? then (users, ResetFailed)
      else (users[i := Redeem(users[i], bcrypt(newPassword.value))], PasswordChanged)
  }

  /** Both handlers keep e-mails and identifiers distinct. */
  lemma ForgotAndResetKeepUnique(users: seq<User>, email: Option<string>, raw: string, token: string,
                                 newPassword: Option<string>, now: int,
                                 sha256: string -> string, bcrypt: string -> string, mailSent: bool)
    requires Unique(users)
    ensures Unique(Forgot(users, email, raw, now, sha256, mailSent).0)
    ensures Unique(Reset(users, token, newPassword, now, sha256, bcrypt).0)
  {
    var f := FindUserByEmail(users, email);
    if f.Some? {
      UniqueUnderSameKeys(users, f.value, IssueToken(users[f.value], raw, now, sha256));
    }
    var r := FindByResetToken(users, token, now, sha256);
    if r.Some? && newPassword.Some? {
      UniqueUnderSameKeys(users, r.value, Redeem(users[r.value], bcrypt(newPassword.value)));
    }
  }

  /** The round trip: the raw token mailed by `/forgot-password` resets the
      password of the user it was issued to, as long as it is used within
      fifteen minutes and no earlier user holds the same live digest. */
  lemma {:induction false} ResetRedeemsIssuedToken(users: seq<User>, i: nat, raw: string, now: int, t: int,
                                                   newPassword: string, sha256: string -> string,
                                                   bcrypt: string -> string, mailSent: bool)
    requires Unique(users) && i < |users|
    requires t < now + ResetWindowMs
    requires forall j :: 0 <= j < i ==> !Redeemable(users[j], raw, t, sha256)
    ensures var issued := Forgot(users, Some(users[i].email), raw, now, sha256, mailSent).0;
            Reset(issued, raw, Some(newPassword), t, sha256, bcrypt)
              == (issued[i := Redeem(issued[i], bcrypt(newPassword))], PasswordChanged)
  {
    FindUserByEmailFindsOwner(users, i);
    var issued := Forgot(users, Some(users[i].email), raw, now, sha256, mailSent).0;
    assert issued == users[i := IssueToken(users[i], raw, now, sha256)];
    IssuedTokenRedeemableUntilExpiry(users[i], raw, raw, now, t, sha256);
    assert Redeemable(issued[i], raw, t, sha256);
    assert forall j :: 0 <= j < i ==> issued[j] == users[j];
    assert FindByResetToken(issued, raw, t, sha256) == Some(i);
  }

  /** A token is redeemed once: after a successful reset, the same token
      answers 400 unless another user holds the same live digest. */
  lemma {:induction false} TokenRedeemedOnce(users: seq<User>, token: string, newPassword: string, now: int,
                                             later: int, again: Option<string>,
                                             sha256: string -> string, bcrypt: string -> string)
    requires FindByResetToken(users, token, now, sha256).Some?
    requires forall j :: 0 <= j < |users| && j != FindByResetToken(users, token, now, sha256).value
                         ==> !Redeemable(users[j], token, later, sha256)
    ensures var after := Reset(users, token, Some(newPassword), now, sha256, bcrypt).0;
            Reset(after, token, again, later, sha256, bcrypt) == (after, InvalidOrExpired)
  {
    var i := FindByResetToken(users, token, now, sha256).value;
    var after := Reset(users, token, Some(newPassword), now, sha256, bcrypt).0;
    assert after == users[i := Redeem(users[i], bcrypt(newPassword))];
    forall j | 0 <= j < |after|
      ensures !Redeemable(after[j], token, later, sha256)
    {
      if j == i {
        RedeemedTokenIsSpent(users[i], bcrypt(newPassword), token, later, sha256);
      } else {
        assert after[j] == users[j];
      }
    }
  }

  /** A second forgot-password request overwrites the digest and expiry, so a
      raw token with a different digest stops working for that user. */
  lemma {:induction false} ReissueRevokesOldToken(users: seq<User>, i: nat, first: string, second: string,
                                                  now1: int, now2: int, t: int,
                                                  sha256: string -> string, sent1: bool, sent2: bool)
    requires Unique(users) && i < |users|
    requires sha256(first) != sha256(second)
    ensures var once := Forgot(users, Some(users[i].email), first, now1, sha256, sent1).0;
            var twice := Forgot(once, Some(users[i].email), second, now2, sha256, sent2).0;
            |twice| == |users| && !Redeemable(twice[i], first, t, sha256)
  {
    FindUserByEmailFindsOwner(users, i);
    var once := Forgot(users, Some(users[i].email), first, now1, sha256, sent1).0;
    assert once == users[i := IssueToken(users[i], first, now1, sha256)];
    ForgotAndResetKeepUnique(users, Some(users[i].email), first, first, None, now1, sha256, sha256, sent1);
    assert once[i].email == users[i].email;
    FindUserByEmailFindsOwner(once, i);
    var twice := Forgot(once, Some(users[i].email), second, now2, sha256, sent2).0;
    assert twice[i] == IssueToken(once[i], second, now2, sha256);
  }

  /** The `/forgot-password` handler over the user collection. */
  method ForgotPassword(store: UserStore, email: Option<string>, raw: string, now: int,
                        sha256: string -> string, mailSent: bool) returns (r: ForgotResponse)
    requires store.Valid()
    modifies store
    ensures store.Valid()
    ensures (store.users, r) == Forgot(old(store.users), email, raw, now, sha256, mailSent)
  {
    var found := FindUserByEmail(store.users, email);
    if found.None? {
      return UserNotFound;
    }
    var i := found.value;
    var user := store.users[i];
    user := user.(resetPasswordToken := Some(sha256(raw)));
    user := user.(resetPasswordExpires := Some(now + ResetWindowMs));
    UniqueUnderSameKeys(store.users, i, user);
    store.users := store.users[i := user];
    if !mailSent {
      return MailFailed;
    }
    r := LinkSent(raw);
  }

  /** The `/reset-password/:token` handler over the user collection. */
  method ResetPassword(store: UserStore, token: string, newPassword: Option<string>, now: int,
                       sha256: string -> string, bcrypt: string -> string) returns (r: ResetResponse)
    requires store.Valid()
    modifies store
    ensures store.Valid()
    ensures (store.users, r) == Reset(old(store.users), token, newPassword, now, sha256, bcrypt)
  {
    var hashedToken := sha256(token);
    var found := FirstWhere(store.users, (u: User) => TokenMatches(u, hashedToken, now));
    if found.None? {
      return InvalidOrExpired;
    }
    if newPassword.None? {
      return ResetFailed;
    }
    var i := found.value;
    var user := store.users[i];
    user := user.(password := bcrypt(newPassword.value));
    user := user.(resetPasswordToken := None, resetPasswordExpires := None);
    UniqueUnderSameKeys(store.users, i, user);
    store.users := store.users[i := user];
    r := PasswordChanged;
  }
}
