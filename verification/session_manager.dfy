/** The ephemeral session manager of lib/session-manager.mjs. Three Redis
    keyspaces hold its state: token -> secret with a TTL (database 0),
    user id -> list of that user's tokens (database 1) and token -> pending
    replacement payload (database 2). Here they are three maps; the secret
    generator (`uuid.v1`) and the clock are parameters. */
module Sessions {
  import opened Wrappers
  import Jwt

  /** SessionSources.MOBILE */
  const MOBILE: string := "MOBILE"

  /** SessionPayload: the claims signed into every token. */
  datatype Payload = Payload(
    idUser: int,
    idPbx: int,
    idCustomer: int,
    grants: seq<string>,
    persistent: bool,
    pbxSupplier: Option<string>,
    applicationId: Option<string>,
    source: Option<string>)

  type SessionToken = Jwt.Token<Payload>

  /** The `{ short, long }` expirations, in seconds. */
  datatype Expiration = Expiration(short: int, long: int)

  /** A secret entry: the value and the `EX` it was stored with. */
  datatype SecretEntry = SecretEntry(secret: Jwt.Secret, ttl: int)

  /** The three keyspaces. */
  datatype Store = Store(
    secrets: map<SessionToken, SecretEntry>,
    users: map<int, seq<SessionToken>>,
    pending: map<SessionToken, Payload>)

  datatype SessionError =
    | EmptyToken                         // "Empty token"
    | InvalidToken(reason: Jwt.VerifyError)
    | Undecodable                        // `jwt.decode` gave null, so reading `.grants` throws

  datatype Issued = Issued(store: Store, token: SessionToken)

  /** What `updateUserGrants` leaves behind: the store and the error that stopped it, if any. */
  datatype Outcome = Outcome(store: Store, error: Option<SessionError>)

  /** `lRange(userId, 0, -1)`: a missing key reads as the empty list. */
  function TokensOf(users: map<int, seq<SessionToken>>, userId: int): seq<SessionToken> {
    if userId in users then users[userId] else []
  }

  /** `lRem(key, 0, token)`: every occurrence removed, the rest in order. */
  function RemoveAll(s: seq<SessionToken>, t: SessionToken): (r: seq<SessionToken>)
    ensures forall x :: x in r <==> x in s && x != t
    ensures |r| <= |s|
    ensures t !in s ==> r == s
  {
    if |s| == 0 then []
    else if s[0] == t then RemoveAll(s[1..], t)
    else [s[0]] + RemoveAll(s[1..], t)
  }

  /** `__storeNewToken`: `set(token, secret, { EX })` then `lPush(userId, token)`. */
  function WithNewToken(st: Store, userId: int, token: SessionToken, secret: Jwt.Secret, expireIn: int): (r: Store)
    ensures r.secrets.Keys == st.secrets.Keys + {token}
    ensures r.secrets[token] == SecretEntry(secret, expireIn)
    ensures forall t :: t in st.secrets && t != token ==> r.secrets[t] == st.secrets[t]
    ensures TokensOf(r.users, userId) == [token] + TokensOf(st.users, userId)
    ensures forall u :: u != userId ==> TokensOf(r.users, u) == TokensOf(st.users, u)
    ensures r.pending == st.pending
  {
    Store(
      st.secrets[token := SecretEntry(secret, expireIn)],
      st.users[userId := [token] + TokensOf(st.users, userId)],
      st.pending)
  }

  /** `set(sessionData)`: long expiration iff the payload is persistent, a
      token signed with the fresh `secret`, then stored. */
  function Issue(st: Store, exp: Expiration, p: Payload, secret: Jwt.Secret, now: int): (r: Issued)
    ensures r.token.Signed? && r.token.claims == p && r.token.key == secret
    ensures r.token.expiresIn == (if p.persistent then exp.long else exp.short)
    ensures r.token in r.store.secrets
    ensures r.store.secrets.Keys == st.secrets.Keys + {r.token}
    ensures r.store.secrets[r.token] == SecretEntry(secret, r.token.expiresIn)
    ensures forall t :: t in st.secrets && t != r.token ==> t in r.store.secrets && r.store.secrets[t] == st.secrets[t]
    ensures TokensOf(r.store.users, p.idUser) == [r.token] + TokensOf(st.users, p.idUser)
    ensures forall u :: u != p.idUser ==> TokensOf(r.store.users, u) == TokensOf(st.users, u)
    ensures r.store.pending == st.pending
  {
    var expireIn := if p.persistent then exp.long else exp.short;
    var token := Jwt.Sign(p, secret, expireIn, now);
    Issued(WithNewToken(st, p.idUser, token, secret, expireIn), token)
  }

  /** `__getSecret`: rejects the empty token, else the stored secret or null. */
  function SecretOf(st: Store, t: SessionToken): (r: Result<Option<Jwt.Secret>, SessionError>)
    ensures Jwt.IsEmpty(t) <==> r == Failure(EmptyToken)
    ensures r.Success? ==> (r.value.Some? <==> t in st.secrets)
    ensures r.Success? && r.value.Some? ==> r.value.value == st.secrets[t].secret
  {
    if Jwt.IsEmpty(t) then Failure(EmptyToken)
    else if t in st.secrets then Success(Some(st.secrets[t].secret))
    else Success(None)
  }

  /** `get(token)`: the payload verified with the token's stored secret. */
  function Lookup(st: Store, t: SessionToken): (r: Result<Payload, SessionError>)
    ensures Jwt.IsEmpty(t) ==> r == Failure(EmptyToken)
    ensures t !in st.secrets ==> r.Failure?
    ensures r.Success? <==> t.Signed? && t in st.secrets && st.secrets[t].secret == t.key && t.key != ""
    ensures r.Success? ==> r.value == t.claims
  {
    match SecretOf(st, t)
    case Failure(e) => Failure(e)
    case Success(secret) =>
      match Jwt.Verify(t, secret)
      case Failure(e) => Failure(InvalidToken(e))
      case Success(p) => Success(p)
  }

  /** `update(token, sessionData)`: writes the pending payload and nothing else. */
  function MarkForRefresh(st: Store, t: SessionToken, p: Payload): (r: Store)
    ensures r.secrets == st.secrets && r.users == st.users
    ensures r.pending.Keys == st.pending.Keys + {t} && r.pending[t] == p
    ensures forall x :: x in st.pending && x != t ==> r.pending[x] == st.pending[x]
  {
    st.(pending := st.pending[t := p])
  }

  /** `checkRefresh(token)`: the pending payload, or null. */
  function PendingFor(st: Store, t: SessionToken): (r: Option<Payload>)
    ensures r.Some? <==> t in st.pending
    ensures r.Some? ==> r.value == st.pending[t]
  {
    if t in st.pending then Some(st.pending[t]) else None
  }

  /** `removeToken(token, userId)`: `del` of the secret, `lRem` of every
      occurrence from the user's list (Redis drops a list left empty), `del`
      of the pending entry. */
  function Revoke(st: Store, t: SessionToken, userId: int): (r: Store)
    ensures t !in r.secrets && t !in r.pending
    ensures forall x :: x != t ==> (x in r.secrets <==> x in st.secrets) && (x in r.pending <==> x in st.pending)
    ensures forall x :: x in r.secrets ==> r.secrets[x] == st.secrets[x]
    ensures forall x :: x in r.pending ==> r.pending[x] == st.pending[x]
    ensures TokensOf(r.users, userId) == RemoveAll(TokensOf(st.users, userId), t)
    ensures forall u :: u != userId ==> TokensOf(r.users, u) == TokensOf(st.users, u)
  {
    var rest := RemoveAll(TokensOf(st.users, userId), t);
    Store(
      st.secrets - {t},
      if rest == [] then st.users - {userId} else st.users[userId := rest],
      st.pending - {t})
  }

  /** `refreshToken(token, sessionData)`: revoke the old token for the new
      payload's user, then issue a new one. */
  function Rotate(st: Store, exp: Expiration, previous: SessionToken, p: Payload, secret: Jwt.Secret, now: int): (r: Issued)
    ensures r.token.Signed? && r.token.claims == p && r.token.key == secret
    ensures r.token != previous ==> previous !in r.store.secrets && previous !in r.store.pending
  {
    Issue(Revoke(st, previous, p.idUser), exp, p, secret, now)
  }

  /** The pending payload `updateUserGrants` writes: the new grants and six
      copied fields; `source` is dropped. */
  function Regranted(q: Payload, grants: seq<string>): (r: Payload)
    ensures r.grants == grants && r.source == None
    ensures r.idUser == q.idUser && r.idPbx == q.idPbx && r.idCustomer == q.idCustomer
    ensures r.persistent == q.persistent && r.pbxSupplier == q.pbxSupplier && r.applicationId == q.applicationId
  {
    Payload(q.idUser, q.idPbx, q.idCustomer, grants, q.persistent, q.pbxSupplier, q.applicationId, None)
  }

  /** One iteration of the `updateUserGrants` loop. */
  function GrantsStep(st: Store, t: SessionToken, grants: seq<string>): (r: Result<Store, SessionError>)
    ensures r.Success? <==> t.Signed?
    ensures r.Failure? ==> r.error == Undecodable
    ensures r.Success? && t.claims.grants == grants ==> r.value == st
  {
    match Jwt.Decode(t)
    case None => Failure(Undecodable)
    case Some(q) =>
      if q.grants == grants then Success(st)
      else if q.source == Some(MOBILE) then Success(Revoke(st, t, q.idUser))
      else Success(MarkForRefresh(st, t, Regranted(q, grants)))
  }

  /** The loop of `updateUserGrants` over a snapshot of the token list; the
      first failure is rethrown, so the remaining tokens are not visited. */
  function Propagate(st: Store, tokens: seq<SessionToken>, grants: seq<string>): (r: Outcome)
    ensures r.error == None || r.error == Some(Undecodable)
    ensures (forall i :: 0 <= i < |tokens| && tokens[i].Signed? ==> tokens[i].claims.grants == grants) ==> r.store == st
    decreases |tokens|
  {
    if |tokens| == 0 then Outcome(st, None)
    else match GrantsStep(st, tokens[0], grants)
      case Failure(e) => Outcome(st, Some(e))
      case Success(st') => Propagate(st', tokens[1..], grants)
  }

  // ---------------------------------------------------------------------
  // Properties of the specification functions

  /** What the store says about one token: its secret entry and its pending entry. */
  datatype View = View(secret: Option<SecretEntry>, pending: Option<Payload>)

  function ViewAt(st: Store, t: SessionToken): View {
    View(if t in st.secrets then Some(st.secrets[t]) else None,
         if t in st.pending then Some(st.pending[t]) else None)
  }

  /** The view a token whose decoded payload is `q` ends with, after the loop. */
  function RegrantedView(v: View, q: Payload, grants: seq<string>): View {
    if q.grants == grants then v
    else if q.source == Some(MOBILE) then View(None, None)
    else View(v.secret, Some(Regranted(q, grants)))
  }

  /** A token issued by `set` authenticates for as long as its secret entry is in the store. */
  lemma IssueThenLookup(st: Store, exp: Expiration, p: Payload, secret: Jwt.Secret, now: int, later: Store)
    requires secret != ""
    requires var r := Issue(st, exp, p, secret, now); r.token in later.secrets && later.secrets[r.token] == r.store.secrets[r.token]
    ensures Lookup(later, Issue(st, exp, p, secret, now).token) == Success(p)
  {
  }

  /** `lRem` with count 0 is idempotent. */
  lemma {:induction false} RemoveAllIdempotent(s: seq<SessionToken>, t: SessionToken)
    ensures RemoveAll(RemoveAll(s, t), t) == RemoveAll(s, t)
  {
    if |s| > 0 {
      RemoveAllIdempotent(s[1..], t);
      if s[0] != t {
        assert ([s[0]] + RemoveAll(s[1..], t))[1..] == RemoveAll(s[1..], t);
      }
    }
  }

  /** `removeToken` is idempotent. */
  lemma RevokeIdempotent(st: Store, t: SessionToken, userId: int)
    ensures Revoke(Revoke(st, t, userId), t, userId) == Revoke(st, t, userId)
  {
    var once := Revoke(st, t, userId);
    RemoveAllIdempotent(TokensOf(st.users, userId), t);
    var twice := Revoke(once, t, userId);
    assert twice.secrets == once.secrets;
    assert twice.pending == once.pending;
    assert TokensOf(twice.users, userId) == TokensOf(once.users, userId);
    forall u ensures TokensOf(twice.users, u) == TokensOf(once.users, u) { }
    assert twice.users.Keys == once.users.Keys by {
      forall u ensures u in twice.users <==> u in once.users {
        if u == userId {
          var rest := RemoveAll(TokensOf(st.users, userId), t);
          assert u in once.users <==> rest != [];
        }
      }
    }
    assert twice.users == once.users;
  }

  /** After `removeToken` the token no longer authenticates and has no pending payload. */
  lemma RevokeThenLookupFails(st: Store, t: SessionToken, userId: int)
    ensures Lookup(Revoke(st, t, userId), t).Failure?
    ensures PendingFor(Revoke(st, t, userId), t) == None
    ensures t !in TokensOf(Revoke(st, t, userId).users, userId)
  {
  }

  /** `update` does not change which tokens authenticate, nor what they authenticate as;
      `checkRefresh` then returns the written payload. */
  lemma MarkForRefreshKeepsAuthentication(st: Store, t: SessionToken, p: Payload, x: SessionToken)
    ensures Lookup(MarkForRefresh(st, t, p), x) == Lookup(st, x)
    ensures PendingFor(MarkForRefresh(st, t, p), t) == Some(p)
  {
  }

  /** `refreshToken`: the returned token authenticates as the new payload; the
      old one no longer authenticates and lost its pending entry. */
  lemma RotateReplacesToken(st: Store, exp: Expiration, previous: SessionToken, p: Payload, secret: Jwt.Secret, now: int)
    requires secret != ""
    ensures var r := Rotate(st, exp, previous, p, secret, now);
      && Lookup(r.store, r.token) == Success(p)
      && (r.token != previous ==> Lookup(r.store, previous).Failure? && PendingFor(r.store, previous) == None)
  {
    var mid := Revoke(st, previous, p.idUser);
    var r := Issue(mid, exp, p, secret, now);
    if r.token != previous {
      assert previous !in mid.secrets;
      assert previous !in r.store.secrets;
    }
  }

  lemma RegrantedViewIdempotent(v: View, q: Payload, grants: seq<string>)
    ensures RegrantedView(RegrantedView(v, q, grants), q, grants) == RegrantedView(v, q, grants)
  {
  }

  /** One loop iteration touches only the entries of the token it handles. */
  lemma GrantsStepView(st: Store, t: SessionToken, grants: seq<string>, x: SessionToken)
    requires t.Signed?
    ensures GrantsStep(st, t, grants).Success?
    ensures ViewAt(GrantsStep(st, t, grants).value, x)
         == if x == t then RegrantedView(ViewAt(st, x), t.claims, grants) else ViewAt(st, x)
  {
  }

  /** `updateUserGrants` over decodable tokens: each listed token whose grants
      equal the new ones is untouched, a differing MOBILE token loses its
      secret and pending entries, any other differing token keeps its secret
      and gets the regranted pending payload; tokens not listed are untouched. */
  lemma {:induction false} PropagateView(st: Store, tokens: seq<SessionToken>, grants: seq<string>, x: SessionToken)
    requires forall i :: 0 <= i < |tokens| ==> tokens[i].Signed?
    ensures Propagate(st, tokens, grants).error == None
    ensures ViewAt(Propagate(st, tokens, grants).store, x)
         == if x in tokens then RegrantedView(ViewAt(st, x), x.claims, grants) else ViewAt(st, x)
    decreases |tokens|
  {
    if |tokens| > 0 {
      var h := tokens[0];
      GrantsStepView(st, h, grants, x);
      var st' := GrantsStep(st, h, grants).value;
      PropagateView(st', tokens[1..], grants, x);
      assert x in tokens <==> x == h || x in tokens[1..] by {
        assert tokens == [h] + tokens[1..];
      }
      if x == h && x in tokens[1..] {
        RegrantedViewIdempotent(ViewAt(st, x), x.claims, grants);
      }
    }
  }

  /** `updateUserGrants` stops at the first token it cannot decode: the tokens
      before it have been handled, the rest are not visited. */
  lemma {:induction false} PropagateStopsAtFirstFailure(st: Store, tokens: seq<SessionToken>, grants: seq<string>, i: nat)
    requires i < |tokens| && tokens[i].Raw?
    requires forall j :: 0 <= j < i ==> tokens[j].Signed?
    ensures Propagate(st, tokens, grants) == Outcome(Propagate(st, tokens[..i], grants).store, Some(Undecodable))
    decreases i
  {
    if i > 0 {
      var st' := GrantsStep(st, tokens[0], grants).value;
      PropagateStopsAtFirstFailure(st', tokens[1..], grants, i - 1);
      assert tokens[1..][..i - 1] == tokens[..i][1..];
    }
  }

  /** The elements of `s` not in `drop`, in order. */
  function Keep(s: seq<SessionToken>, drop: set<SessionToken>): (r: seq<SessionToken>)
    ensures forall x :: x in r <==> x in s && x !in drop
  {
    if |s| == 0 then []
    else (if s[0] in drop then [] else [s[0]]) + Keep(s[1..], drop)
  }

  lemma {:induction false} KeepNothing(s: seq<SessionToken>)
    ensures Keep(s, {}) == s
  {
    if |s| > 0 {
      KeepNothing(s[1..]);
      assert [s[0]] + s[1..] == s;
    }
  }

  /** `lRem` with count 0 keeps what is not the token. */
  lemma {:induction false} RemoveAllIsKeep(s: seq<SessionToken>, t: SessionToken)
    ensures RemoveAll(s, t) == Keep(s, {t})
  {
    if |s| > 0 {
      RemoveAllIsKeep(s[1..], t);
    }
  }

  lemma {:induction false} KeepTwice(s: seq<SessionToken>, a: set<SessionToken>, b: set<SessionToken>)
    ensures Keep(Keep(s, a), b) == Keep(s, a + b)
  {
    if |s| > 0 {
      KeepTwice(s[1..], a, b);
      var k := Keep(s, a);
      if s[0] !in a {
        assert k[0] == s[0] && k[1..] == Keep(s[1..], a);
      } else {
        assert k == Keep(s[1..], a);
      }
    }
  }

  /** The loop of `updateUserGrants` removes `t` from user `u`'s list: its
      grants differ, it is a MOBILE token, and its payload names `u`. */
  predicate RevokedFrom(t: SessionToken, grants: seq<string>, u: int) {
    t.Signed? && t.claims.grants != grants && t.claims.source == Some(MOBILE) && t.claims.idUser == u
  }

  function RevokedIn(tokens: seq<SessionToken>, grants: seq<string>, u: int): set<SessionToken> {
    set t | t in tokens && RevokedFrom(t, grants, u)
  }

  /** One loop iteration removes its token from the list of the user its payload names, when revoked. */
  lemma GrantsStepLists(st: Store, t: SessionToken, grants: seq<string>, u: int)
    requires t.Signed?
    ensures TokensOf(GrantsStep(st, t, grants).value.users, u)
         == Keep(TokensOf(st.users, u), if RevokedFrom(t, grants, u) then {t} else {})
  {
    var s := TokensOf(st.users, u);
    if RevokedFrom(t, grants, u) {
      RemoveAllIsKeep(s, t);
    } else {
      KeepNothing(s);
    }
  }

  /** `updateUserGrants` over decodable tokens: every user's token list ends
      as it was, less the listed MOBILE tokens of that user whose grants
      differ, in the same order. */
  lemma {:induction false} PropagateLists(st: Store, tokens: seq<SessionToken>, grants: seq<string>, u: int)
    requires forall i :: 0 <= i < |tokens| ==> tokens[i].Signed?
    ensures TokensOf(Propagate(st, tokens, grants).store.users, u) == Keep(TokensOf(st.users, u), RevokedIn(tokens, grants, u))
    decreases |tokens|
  {
    if |tokens| == 0 {
      assert RevokedIn(tokens, grants, u) == {};
      KeepNothing(TokensOf(st.users, u));
    } else {
      var h := tokens[0];
      var st' := GrantsStep(st, h, grants).value;
      var a: set<SessionToken> := if RevokedFrom(h, grants, u) then {h} else {};
      GrantsStepLists(st, h, grants, u);
      PropagateLists(st', tokens[1..], grants, u);
      KeepTwice(TokensOf(st.users, u), a, RevokedIn(tokens[1..], grants, u));
      assert a + RevokedIn(tokens[1..], grants, u) == RevokedIn(tokens, grants, u) by {
        assert tokens == [h] + tokens[1..];
      }
    }
  }

  // ---------------------------------------------------------------------
  // The manager object

  class SessionManager {
    /** RedisDb.TOKEN_SECRETS */
    var secrets: map<SessionToken, SecretEntry>
    /** RedisDb.USER_TOKENS, keyed by `userId.toString()` */
    var users: map<int, seq<SessionToken>>
    /** RedisDb.TOKEN_TO_MODIFY */
    var pending: map<SessionToken, Payload>
    const expiration: Expiration

    function State(): Store
      reads this
    {
      Store(secrets, users, pending)
    }

    constructor (expiration: Expiration)
      ensures State() == Store(map[], map[], map[])
      ensures this.expiration == expiration
    {
      this.expiration := expiration;
      secrets, users, pending := map[], map[], map[];
    }

    method StoreNewToken(userId: int, token: SessionToken, secret: Jwt.Secret, expireIn: int)
      modifies this
      ensures State() == WithNewToken(old(State()), userId, token, secret, expireIn)
    {
      secrets := secrets[token := SecretEntry(secret, expireIn)];
      users := users[userId := [token] + TokensOf(users, userId)];
    }

    /** `secret` is the fresh value `uuid.v1()` returns; `now` the clock reading the token is stamped with. */
    method Set(sessionData: Payload, secret: Jwt.Secret, now: int) returns (token: SessionToken)
      modifies this
      ensures Issued(State(), token) == Issue(old(State()), expiration, sessionData, secret, now)
    {
      var expireIn := if sessionData.persistent then expiration.long else expiration.short;
      token := Jwt.Sign(sessionData, secret, expireIn, now);
      StoreNewToken(sessionData.idUser, token, secret, expireIn);
    }

    method GetSecret(token: SessionToken) returns (r: Result<Option<Jwt.Secret>, SessionError>)
      ensures r == SecretOf(State(), token)
    {
      if Jwt.IsEmpty(token) {
        return Failure(EmptyToken);
      }
      r := Success(if token in secrets then Some(secrets[token].secret) else None);
    }

    method Get(token: SessionToken) returns (r: Result<Payload, SessionError>)
      ensures r == Lookup(State(), token)
    {
      var secret := GetSecret(token);
      if secret.Failure? {
        return Failure(secret.error);
      }
      var data := Jwt.Verify(token, secret.value);
      r := if data.Success? then Success(data.value) else Failure(InvalidToken(data.error));
    }

    method Update(token: SessionToken, sessionData: Payload)
      modifies this
      ensures State() == MarkForRefresh(old(State()), token, sessionData)
    {
      pending := pending[token := sessionData];
    }

    method CheckRefresh(token: SessionToken) returns (r: Option<Payload>)
      ensures r == PendingFor(State(), token)
    {
      r := if token in pending then Some(pending[token]) else None;
    }

    method RefreshToken(token: SessionToken, sessionData: Payload, secret: Jwt.Secret, now: int) returns (newToken: SessionToken)
      modifies this
      ensures Issued(State(), newToken) == Rotate(old(State()), expiration, token, sessionData, secret, now)
    {
      RemoveToken(token, sessionData.idUser);
      newToken := Set(sessionData, secret, now);
    }

    method GetUserValidTokens(userId: int) returns (r: seq<SessionToken>)
      ensures r == TokensOf(users, userId)
    {
      r := if userId in users then users[userId] else [];
    }

    method RemoveToken(token: SessionToken, userId: int)
      modifies this
      ensures State() == Revoke(old(State()), token, userId)
    {
      secrets := secrets - {token};
      var rest := RemoveAll(TokensOf(users, userId), token);
      users := if rest == [] then users - {userId} else users[userId := rest];
      pending := pending - {token};
    }

    /** Walks a snapshot of the user's token list taken once at the start. */
    method UpdateUserGrants(userId: int, grants: seq<string>) returns (error: Option<SessionError>)
      modifies this
      ensures Outcome(State(), error) == Propagate(old(State()), TokensOf(old(users), userId), grants)
    {
      var tokens := GetUserValidTokens(userId);
      var i := 0;
      while i < |tokens|
        invariant 0 <= i <= |tokens|
        invariant Propagate(State(), tokens[i..], grants) == Propagate(old(State()), tokens, grants)
      {
        var token := tokens[i];
        var payload := Jwt.Decode(token);
        if payload.None? {
          return Some(Undecodable);
        }
        if payload.value.grants != grants {
          if payload.value.source == Some(MOBILE) {
            RemoveToken(token, payload.value.idUser);
          } else {
            Update(token, Regranted(payload.value, grants));
          }
        }
        assert tokens[i..][1..] == tokens[i + 1..];
        i := i + 1;
      }
      error := None;
    }
  }
}
