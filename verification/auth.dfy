/** The access gate of middleware/auth.middleware.js: `protect` (bearer-token
    extraction, token verification, user lookup and the active-account check) and
    `authorize` (role check). Token verification is a parameter: a function from
    token to the user id it names, or None when the token is bad or expired. */
module Auth {
  import opened Common

  /** The user fields the gate reads (the User model is not part of this model). */
  datatype User = User(id: UserId, role: string, isActive: bool)

  datatype DenyReason = MissingSecret | NoToken | BadToken | UnknownUser | AccountLocked | RoleNotAllowed

  /** The gate's decision: pass the request on with the user attached, or answer. */
  datatype Gate = Proceed(user: User) | Deny(status: int, reason: DenyReason)

  function Status(reason: DenyReason): int {
    match reason
    case MissingSecret => 500
    case NoToken => 401
    case BadToken => 401
    case UnknownUser => 401
    case AccountLocked => 403
    case RoleNotAllowed => 403
  }

  /** `split(sep)`: the pieces between the separators, empty pieces included. */
  function Split(s: string, sep: char): (r: seq<string>)
    ensures |r| >= 1
    ensures forall i :: 0 <= i < |r| ==> sep !in r[i]
    ensures Join(r, sep) == s
  {
    if s == [] then [[]]
    else if s[0] == sep then
      var rest := Split(s[1..], sep);
      assert [s[0]] + Join(rest, sep) == s;
      [[]] + rest
    else
      var rest := Split(s[1..], sep);
      JoinFirst(s[0], rest, sep);
      [[s[0]] + rest[0]] + rest[1..]
  }

  /** `join(sep)`, the inverse of `Split`. */
  function Join(parts: seq<string>, sep: char): string
    requires |parts| >= 1
  {
    if |parts| == 1 then parts[0] else parts[0] + [sep] + Join(parts[1..], sep)
  }

  lemma {:induction false} JoinFirst(c: char, parts: seq<string>, sep: char)
    requires |parts| >= 1
    ensures Join([[c] + parts[0]] + parts[1..], sep) == [c] + Join(parts, sep)
  {
    var q := [[c] + parts[0]] + parts[1..];
    assert q[1..] == parts[1..];
  }

  lemma {:induction false} SplitAfterWord(w: string, rest: string, sep: char)
    requires sep !in w
    ensures Split(w + [sep] + rest, sep) == [w] + Split(rest, sep)
  {
    if w == [] {
      assert w + [sep] + rest == [sep] + rest;
      assert ([sep] + rest)[1..] == rest;
    } else {
      assert (w + [sep] + rest)[1..] == w[1..] + [sep] + rest;
      SplitAfterWord(w[1..], rest, sep);
      assert [w[0]] + w[1..] == w;
    }
  }

  lemma {:induction false} SplitWord(w: string, sep: char)
    requires sep !in w
    ensures Split(w, sep) == [w]
  {
    if w != [] {
      SplitWord(w[1..], sep);
      assert [w[0]] + w[1..] == w;
    }
  }

  const BearerPrefix := "Bearer"

  /** The token of an Authorization header: present only when the header starts with
      "Bearer", and then the second space-separated field, if it is not empty. */
  function BearerToken(authorization: Option<string>): (r: Option<string>)
    ensures r.Some? ==> r.value != "" && ' ' !in r.value
    ensures r.Some? ==> authorization.Some? && BearerPrefix <= authorization.value
  {
    if authorization.Some? && BearerPrefix <= authorization.value then
      var fields := Split(authorization.value, ' ');
      if |fields| >= 2 && fields[1] != "" then Some(fields[1]) else None
    else None
  }

  /** A header written as "Bearer <token>" yields exactly that token. */
  lemma {:induction false} BearerTokenOfHeader(token: string)
    requires token != "" && ' ' !in token
    ensures BearerToken(Some(BearerPrefix + " " + token)) == Some(token)
  {
    var header := BearerPrefix + " " + token;
    assert BearerPrefix <= header;
    assert header == BearerPrefix + [' '] + token;
    SplitAfterWord(BearerPrefix, token, ' ');
    SplitWord(token, ' ');
  }

  /** `protect`: a missing server secret answers 500 before the request is looked at;
      then a missing token answers 401, a token that does not verify or names no user
      answers 401, a locked account answers 403, and otherwise the request proceeds
      with the user attached. */
  function Protect(secretConfigured: bool, authorization: Option<string>,
                   verify: string -> Option<UserId>, users: map<UserId, User>): (r: Gate)
    ensures !secretConfigured ==> r == Deny(500, MissingSecret)
    ensures r.Deny? ==> r.status == Status(r.reason)
    ensures r.Proceed? <==>
      secretConfigured && BearerToken(authorization).Some?
      && verify(BearerToken(authorization).value).Some?
      && verify(BearerToken(authorization).value).value in users
      && users[verify(BearerToken(authorization).value).value].isActive
    ensures r.Proceed? ==> r.user == users[verify(BearerToken(authorization).value).value]
    ensures secretConfigured && BearerToken(authorization).None? ==> r == Deny(401, NoToken)
    ensures (secretConfigured && BearerToken(authorization).Some?
             && verify(BearerToken(authorization).value).None?) ==> r == Deny(401, BadToken)
    ensures (secretConfigured && BearerToken(authorization).Some?
             && verify(BearerToken(authorization).value).Some?
             && verify(BearerToken(authorization).value).value !in users) ==> r == Deny(401, UnknownUser)
    ensures r == Deny(403, AccountLocked) <==>
      secretConfigured && BearerToken(authorization).Some?
      && verify(BearerToken(authorization).value).Some?
      && verify(BearerToken(authorization).value).value in users
      && !users[verify(BearerToken(authorization).value).value].isActive
  {
    if !secretConfigured then Deny(Status(MissingSecret), MissingSecret)
    else
      match BearerToken(authorization)
      case None => Deny(Status(NoToken), NoToken)
      case Some(token) =>
        match verify(token)
        case None => Deny(Status(BadToken), BadToken)
        case Some(id) =>
          if id !in users then Deny(Status(UnknownUser), UnknownUser)
          else if !users[id].isActive then Deny(Status(AccountLocked), AccountLocked)
          else Proceed(users[id])
  }

  /** `authorize(...roles)`: passes exactly when a user is attached and its role is listed. */
  function Authorize(roles: seq<string>, user: Option<User>): (r: Gate)
    ensures r.Proceed? <==> user.Some? && user.value.role in roles
    ensures r.Proceed? ==> r.user == user.value
    ensures r.Deny? ==> r == Deny(403, RoleNotAllowed)
  {
    if user.Some? && user.value.role in roles then Proceed(user.value)
    else Deny(Status(RoleNotAllowed), RoleNotAllowed)
  }
}
