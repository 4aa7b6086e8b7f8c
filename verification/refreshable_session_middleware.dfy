/** The request guards of express-middlewares/refreshable-session-middleware.mjs.
    A request is reduced to the value of the session header (`None` when the
    header is absent, in which case reading it throws), and the session
    manager to `lookup`, the collection search `getSession` performs once it
    has ruled out the empty token. A guard either passes the request on with
    the session and the token, or answers with a status code, with or without
    the `WWW-Authenticate: Bearer realm="youneed"` challenge. */
module RefreshableMiddleware {
  import opened Wrappers
  import Text
  import MobileSessions
  import Jwt
  import Sessions

  const NOT_AUTHENTICATED := 401
  const NOT_AUTHORIZED := 403

  type Lookup = string -> Result<MobileSessions.DeviceSession, MobileSessions.AuthError>

  datatype Outcome =
    | Next(session: MobileSessions.DeviceSession, token: string)
    | Reject(status: int, challenge: bool)

  /** `getToken(request)`: the text after "Bearer" up to the next space, in
      the sense of the second " "-separated field; "" when the header does not
      start with "Bearer" or has no second field. `None` is the exception a
      missing header raises. */
  function GetToken(header: Option<string>): (r: Option<string>)
    ensures r.None? <==> header.None?
    ensures header.Some? && !Text.StartsWith(header.value, "Bearer") ==> r == Some("")
    ensures r.Some? ==> ' ' !in r.value
  {
    match header
    case None => None
    case Some(h) =>
      if Text.StartsWith(h, "Bearer") then
        var fields := Text.Split(h, ' ');
        Text.SplitFieldsExcludeSeparator(h, ' ');
        Some(if |fields| > 1 then fields[1] else "")
      else Some("")
  }

  /** `sessionManager.getSession(token)`: the empty token is rejected first. */
  function SessionFor(lookup: Lookup, token: string): (r: Result<MobileSessions.DeviceSession, MobileSessions.AuthError>)
    ensures token == "" ==> r == Failure(MobileSessions.EmptyToken)
    ensures token != "" ==> r == lookup(token)
  {
    if token == "" then Failure(MobileSessions.EmptyToken) else lookup(token)
  }

  /** `checkAuthentication()`: 401 with the challenge for an empty token, 401
      without it when the header is missing or the session lookup fails. */
  function CheckAuthentication(header: Option<string>, lookup: Lookup): (r: Outcome)
    ensures r.Next? <==> GetToken(header).Some? && GetToken(header).value != "" && lookup(GetToken(header).value).Success?
    ensures r.Next? ==> GetToken(header) == Some(r.token) && lookup(r.token) == Success(r.session)
    ensures r.Reject? ==> r.status == NOT_AUTHENTICATED
    ensures r.Reject? ==> (r.challenge <==> GetToken(header) == Some(""))
  {
    match GetToken(header)
    case None => Reject(NOT_AUTHENTICATED, false)
    case Some(token) =>
      if token == "" then Reject(NOT_AUTHENTICATED, true)
      else match SessionFor(lookup, token)
        case Failure(_) => Reject(NOT_AUTHENTICATED, false)
        case Success(session) => Next(session, token)
  }

  /** `checkPermission(permission)`: as `checkAuthentication`, and 403 when the
      session's grants do not include the permission. */
  function CheckPermission(header: Option<string>, lookup: Lookup, permission: string): (r: Outcome)
    ensures r.Next? <==> CheckAuthentication(header, lookup).Next? && permission in CheckAuthentication(header, lookup).session.grants
    ensures r.Next? ==> r == CheckAuthentication(header, lookup)
    ensures r == Reject(NOT_AUTHORIZED, false) <==> CheckAuthentication(header, lookup).Next? && permission !in CheckAuthentication(header, lookup).session.grants
    ensures CheckAuthentication(header, lookup).Reject? ==> r == CheckAuthentication(header, lookup)
  {
    match GetToken(header)
    case None => Reject(NOT_AUTHENTICATED, false)
    case Some(token) =>
      if token == "" then Reject(NOT_AUTHENTICATED, true)
      else match SessionFor(lookup, token)
        case Failure(_) => Reject(NOT_AUTHENTICATED, false)
        case Success(session) =>
          if permission !in session.grants then Reject(NOT_AUTHORIZED, false) else Next(session, token)
  }

  /** `checkFeature(feature)`: as `checkAuthentication`, and 403 unless the
      session has a `features` map in which `feature` is true. */
  function CheckFeature(header: Option<string>, lookup: Lookup, feature: string): (r: Outcome)
    ensures r.Next? <==> CheckAuthentication(header, lookup).Next? && HasFeature(CheckAuthentication(header, lookup).session, feature)
    ensures r.Next? ==> r == CheckAuthentication(header, lookup)
    ensures r == Reject(NOT_AUTHORIZED, false) <==> CheckAuthentication(header, lookup).Next? && !HasFeature(CheckAuthentication(header, lookup).session, feature)
    ensures CheckAuthentication(header, lookup).Reject? ==> r == CheckAuthentication(header, lookup)
  {
    match GetToken(header)
    case None => Reject(NOT_AUTHENTICATED, false)
    case Some(token) =>
      if token == "" then Reject(NOT_AUTHENTICATED, true)
      else match SessionFor(lookup, token)
        case Failure(_) => Reject(NOT_AUTHENTICATED, false)
        case Success(session) =>
          if session.features.Some? && feature in session.features.value && session.features.value[feature]
          then Next(session, token) else Reject(NOT_AUTHORIZED, false)
  }

  predicate HasFeature(session: MobileSessions.DeviceSession, feature: string) {
    session.features.Some? && feature in session.features.value && session.features.value[feature]
  }

  predicate AnyGranted(permissions: seq<string>, grants: seq<string>) {
    exists i :: 0 <= i < |permissions| && permissions[i] in grants
  }

  /** The decision of `checkAtLeastOnePermission(permissions)`. It does not
      test the token itself: the empty token fails in `getSession`. A missing
      header or a failed lookup is a 401 with the challenge; a session holding
      none of the permissions is a 403 without it. */
  function AtLeastOneDecision(header: Option<string>, lookup: Lookup, permissions: seq<string>): (r: Outcome)
    ensures r.Next? <==> GetToken(header).Some? && SessionFor(lookup, GetToken(header).value).Success?
                         && AnyGranted(permissions, SessionFor(lookup, GetToken(header).value).value.grants)
    ensures r.Next? ==> r.token == GetToken(header).value && r.session == lookup(r.token).value && r.token != ""
    ensures r.Reject? ==> r == Reject(NOT_AUTHENTICATED, true) || r == Reject(NOT_AUTHORIZED, false)
    ensures r == Reject(NOT_AUTHORIZED, false) <==>
      (GetToken(header).Some? && SessionFor(lookup, GetToken(header).value).Success?
       && !AnyGranted(permissions, SessionFor(lookup, GetToken(header).value).value.grants))
    ensures r == Reject(NOT_AUTHENTICATED, true) <==> GetToken(header).None? || SessionFor(lookup, GetToken(header).value).Failure?
    ensures permissions == [] ==> r.Reject?
    ensures permissions == [] && GetToken(header).Some? && SessionFor(lookup, GetToken(header).value).Success? ==> r == Reject(NOT_AUTHORIZED, false)
  {
    match GetToken(header)
    case None => Reject(NOT_AUTHENTICATED, true)
    case Some(token) =>
      match SessionFor(lookup, token)
      case Failure(_) => Reject(NOT_AUTHENTICATED, true)
      case Success(session) =>
        if AnyGranted(permissions, session.grants) then Next(session, token) else Reject(NOT_AUTHORIZED, false)
  }

  /** `checkAtLeastOnePermission(permissions)`: the `forEach` that raises the
      `authorized` flag. */
  method CheckAtLeastOnePermission(header: Option<string>, lookup: Lookup, permissions: seq<string>) returns (r: Outcome)
    ensures r == AtLeastOneDecision(header, lookup, permissions)
  {
    var token := GetToken(header);
    if token.None? {
      return Reject(NOT_AUTHENTICATED, true);
    }
    var sessionData := SessionFor(lookup, token.value);
    if sessionData.Failure? {
      return Reject(NOT_AUTHENTICATED, true);
    }
    var grants := sessionData.value.grants;
    var authorized := false;
    var i := 0;
    while i < |permissions|
      invariant 0 <= i <= |permissions|
      invariant authorized <==> exists j :: 0 <= j < i && permissions[j] in grants
    {
      if permissions[i] in grants {
        authorized := true;
      }
      i := i + 1;
    }
    if !authorized {
      return Reject(NOT_AUTHORIZED, false);
    }
    r := Next(sessionData.value, token.value);
  }

  /** A well-formed bearer header yields its token. */
  lemma BearerToken(t: string)
    requires ' ' !in t
    ensures GetToken(Some("Bearer " + t)) == Some(t)
  {
    var h := "Bearer " + t;
    assert h == "Bearer" + [' '] + t;
    assert Text.StartsWith(h, "Bearer");
    Text.SplitAtFirstSeparator("Bearer", ' ', t);
    Text.SplitWithoutSeparator(t, ' ');
  }

  /** A header starting with "Bearer" and holding a space yields the text
      between its first space and the next one (or the end): with `a` the text
      before the first space and `t` the field after it. With
      `BearerWithoutSpace` this gives the token of every header. */
  lemma BearerFields(a: string, t: string, rest: string)
    requires Text.StartsWith(a, "Bearer") && ' ' !in a && ' ' !in t
    ensures GetToken(Some(a + " " + t)) == Some(t)
    ensures GetToken(Some(a + " " + t + " " + rest)) == Some(t)
  {
    var h1 := a + " " + t;
    var h2 := a + " " + t + " " + rest;
    assert h1 == a + [' '] + t;
    assert h2 == a + [' '] + (t + [' '] + rest);
    assert h1[..6] == a[..6] && h2[..6] == a[..6];
    Text.SplitAtFirstSeparator(a, ' ', t);
    Text.SplitWithoutSeparator(t, ' ');
    Text.SplitAtFirstSeparator(a, ' ', t + [' '] + rest);
    Text.SplitAtFirstSeparator(t, ' ', rest);
  }

  /** Two spaces after "Bearer" give the empty token, so "Bearer  a" is a 401
      with the challenge. */
  lemma BearerDoubleSpace(rest: string, lookup: Lookup)
    ensures GetToken(Some("Bearer  " + rest)) == Some("")
    ensures CheckAuthentication(Some("Bearer  " + rest), lookup) == Reject(NOT_AUTHENTICATED, true)
  {
    assert "Bearer  " + rest == "Bearer" + " " + "" + " " + rest;
    BearerFields("Bearer", "", rest);
  }

  /** Any text after "Bearer" without a space gives the empty token, which
      the guards answer with 401. */
  lemma BearerWithoutSpace(rest: string, lookup: Lookup)
    requires ' ' !in rest
    ensures GetToken(Some("Bearer" + rest)) == Some("")
    ensures CheckAuthentication(Some("Bearer" + rest), lookup) == Reject(NOT_AUTHENTICATED, true)
  {
    var h := "Bearer" + rest;
    assert ' ' !in h by {
      assert forall k :: 0 <= k < |h| ==> h[k] == if k < 6 then "Bearer"[k] else rest[k - 6];
    }
    assert h[..6] == "Bearer";
    Text.SplitWithoutSeparator(h, ' ');
  }

  /** The lookup the mobile session manager performs on collection `c`:
      `getSession` on the token `decode` reads from the header text. */
  function ManagerLookup(c: MobileSessions.Collection, decode: string -> MobileSessions.AccessToken): Lookup {
    s => MobileSessions.Authenticate(c, decode(s))
  }

  /** A session just stored by `storeNewSession` passes `checkAuthentication`
      when the request carries its access token as a bearer token. */
  lemma StoredSessionPasses(c: MobileSessions.Collection, data: MobileSessions.SessionData, secret: Jwt.Secret, id: nat,
                            exp: Sessions.Expiration, now: int, w: string, decode: string -> MobileSessions.AccessToken)
    requires secret != "" && w != "" && ' ' !in w
    requires decode(w) == Jwt.Sign((), secret, exp.short, now)
    requires forall j :: 0 <= j < |c| ==> c[j].accessToken != Jwt.Sign((), secret, exp.short, now)
    ensures var rec := MobileSessions.NewSession(data, secret, id, exp, now);
      CheckAuthentication(Some("Bearer " + w), ManagerLookup(c + [rec], decode)) == Next(rec, w)
  {
    BearerToken(w);
    MobileSessions.StoreThenAuthenticate(c, data, secret, id, exp, now);
  }
}
