/** The device-session manager of lib/session-manager-mobile.mjs. Its state
    is the MongoDB collection "devices_session", here a sequence of records
    in natural order (`findOne`, `updateOne` and `deleteOne` act on the first
    match). The secret generator (`uuid.v1`), the generated `_id` and the
    clock (`moment()`) are parameters. */
module MobileSessions {
  import opened Wrappers
  import Jwt
  import Sessions

  /** The access token signs an empty claim `{}`. */
  type AccessToken = Jwt.Token<()>

  /** The `{ token, is_sandbox }` value of `apn_token` and `apn_voip_token`. */
  datatype PushToken = PushToken(token: string, isSandbox: bool)

  /** DeviceSession: one record of the collection. `id` is `_id`, set when
      the record is inserted. */
  datatype DeviceSession = DeviceSession(
    id: Option<nat>,
    refreshToken: Jwt.Secret,
    accessToken: AccessToken,
    userId: int,
    customerId: int,
    pbxId: int,
    pbxSupplier: Option<string>,
    applicationId: Option<string>,
    grants: seq<string>,
    gcmToken: Option<string>,
    apnToken: Option<PushToken>,
    apnVoipToken: Option<PushToken>,
    created: int,
    lastSeen: int,
    userAgent: Option<string>,
    os: string,
    refreshCount: int,
    refreshed: Option<int>,
    features: Option<map<string, bool>>)

  /** SessionData: what the caller passes to `storeNewSession`. */
  datatype SessionData = SessionData(
    userId: int,
    customerId: int,
    pbxId: int,
    pbxSupplier: Option<string>,
    applicationId: Option<string>,
    grants: seq<string>,
    os: string,
    userAgent: Option<string>,
    features: Option<map<string, bool>>)

  /** The `tokenData` argument of `updateApnToken`. */
  datatype ApnTokenData = ApnTokenData(token: string, isSandbox: Option<bool>, isVoip: Option<bool>)

  datatype AuthError =
    | EmptyToken                          // "Empty token"
    | InvalidToken                        // "Invalid token": no record holds the access token
    | Rejected(reason: Jwt.VerifyError)   // the record's access token does not verify

  type Collection = seq<DeviceSession>

  // ---------------------------------------------------------------------
  // Store primitives

  /** The index of the first record matching `p`. */
  function FirstIndex(c: Collection, p: DeviceSession -> bool): (r: Option<nat>)
    ensures r.Some? ==> r.value < |c| && p(c[r.value]) && forall j :: 0 <= j < r.value ==> !p(c[j])
    ensures r.None? ==> forall j :: 0 <= j < |c| ==> !p(c[j])
  {
    if |c| == 0 then None
    else if p(c[0]) then Some(0)
    else match FirstIndex(c[1..], p)
      case None => None
      case Some(k) => Some(k + 1)
  }

  /** `findOne(filter)` */
  function FindOne(c: Collection, p: DeviceSession -> bool): (r: Option<DeviceSession>)
    ensures r.Some? <==> exists j :: 0 <= j < |c| && p(c[j])
    ensures r.Some? ==> r.value in c && p(r.value)
  {
    match FirstIndex(c, p)
    case None => None
    case Some(i) => Some(c[i])
  }

  /** `updateOne({ _id: id }, { $set })`: `set` applied to the first record with that `_id`. */
  function UpdateById(c: Collection, id: Option<nat>, change: DeviceSession -> DeviceSession): (r: Collection)
    ensures |r| == |c|
    ensures forall j :: 0 <= j < |c| && c[j].id != id ==> r[j] == c[j]
  {
    match FirstIndex(c, (x: DeviceSession) => x.id == id)
    case None => c
    case Some(i) => c[i := change(c[i])]
  }

  // ---------------------------------------------------------------------
  // Invariants of the collection

  /** Every stored record has an `_id`, and no two share one. */
  ghost predicate IdsUnique(c: Collection) {
    && (forall i :: 0 <= i < |c| ==> c[i].id.Some?)
    && (forall i, j :: 0 <= i < j < |c| ==> c[i].id != c[j].id)
  }

  predicate SameToken(a: Option<PushToken>, b: Option<PushToken>) {
    a.Some? && b.Some? && a.value.token == b.value.token
  }

  /** The APN field holds the token `t`. */
  predicate Carries(field: Option<PushToken>, t: string) {
    field.Some? && field.value.token == t
  }

  predicate HoldsApn(r: DeviceSession, t: string) {
    Carries(r.apnToken, t) || Carries(r.apnVoipToken, t)
  }

  predicate HoldsGcm(r: DeviceSession, t: string) {
    r.gcmToken == Some(t)
  }

  /** An APN token is held by at most one field of one record. */
  ghost predicate ApnUnique(c: Collection) {
    && (forall i, j :: 0 <= i < |c| && 0 <= j < |c| && i != j ==>
          !SameToken(c[i].apnToken, c[j].apnToken) && !SameToken(c[i].apnVoipToken, c[j].apnVoipToken))
    && (forall i, j :: 0 <= i < |c| && 0 <= j < |c| ==> !SameToken(c[i].apnToken, c[j].apnVoipToken))
  }

  /** A GCM token is held by at most one record. */
  ghost predicate GcmUnique(c: Collection) {
    forall i, j :: 0 <= i < |c| && 0 <= j < |c| && i != j && c[i].gcmToken.Some? ==> c[i].gcmToken != c[j].gcmToken
  }

  // ---------------------------------------------------------------------
  // The operations, as functions of the collection

  /** The record `storeNewSession` builds: the session data, a fresh secret
      as refresh token, an access token signed with it, the clock reading as
      creation and last-seen time, no refreshes yet; `_id` is added by the insert. */
  function NewSession(data: SessionData, secret: Jwt.Secret, id: nat, exp: Sessions.Expiration, now: int): (r: DeviceSession)
    ensures r.refreshToken == secret && r.accessToken == Jwt.Sign((), secret, exp.short, now)
    ensures r.created == now && r.lastSeen == now && r.refreshCount == 0 && r.refreshed == None
    ensures r.id == Some(id)
    ensures r.userId == data.userId && r.customerId == data.customerId && r.pbxId == data.pbxId
    ensures r.pbxSupplier == data.pbxSupplier && r.applicationId == data.applicationId
    ensures r.grants == data.grants && r.os == data.os && r.userAgent == data.userAgent && r.features == data.features
    ensures r.gcmToken == None && r.apnToken == None && r.apnVoipToken == None
  {
    DeviceSession(Some(id), secret, Jwt.Sign((), secret, exp.short, now),
      data.userId, data.customerId, data.pbxId, data.pbxSupplier, data.applicationId, data.grants,
      None, None, None, now, now, data.userAgent, data.os, 0, None, data.features)
  }

  /** `getSession(token)`: rejects the empty token and an access token no
      record holds; otherwise the first record holding it, once its access
      token verifies against its own refresh token. */
  function Authenticate(c: Collection, t: AccessToken): (r: Result<DeviceSession, AuthError>)
    ensures Jwt.IsEmpty(t) ==> r == Failure(EmptyToken)
    ensures !Jwt.IsEmpty(t) && (forall j :: 0 <= j < |c| ==> c[j].accessToken != t) ==> r == Failure(InvalidToken)
    ensures r.Success? ==> r.value in c && r.value.accessToken == t && Jwt.Verify(t, Some(r.value.refreshToken)).Success?
    ensures !Jwt.IsEmpty(t) ==> forall i :: 0 <= i < |c| && c[i].accessToken == t && (forall j :: 0 <= j < i ==> c[j].accessToken != t) ==>
      && (r.Success? <==> Jwt.Verify(t, Some(c[i].refreshToken)).Success?)
      && (r.Success? ==> r.value == c[i])
      && (r.Failure? ==> r.error.Rejected?)
  {
    if Jwt.IsEmpty(t) then Failure(EmptyToken)
    else match FindOne(c, (x: DeviceSession) => x.accessToken == t)
      case None => Failure(InvalidToken)
      case Some(rec) =>
        match Jwt.Verify(rec.accessToken, Some(rec.refreshToken))
        case Failure(e) => Failure(Rejected(e))
        case Success(_) => Success(rec)
  }

  /** `getSessionByRefeshToken(refreshToken)` */
  function ByRefreshToken(c: Collection, refreshToken: Jwt.Secret): (r: Option<DeviceSession>)
    ensures r.None? <==> forall j :: 0 <= j < |c| ==> c[j].refreshToken != refreshToken
    ensures r.Some? ==> r.value in c && r.value.refreshToken == refreshToken
  {
    FindOne(c, (x: DeviceSession) => x.refreshToken == refreshToken)
  }

  datatype Deleted = Deleted(sessions: Collection, count: nat)

  /** `removeToken(refreshToken)`: `deleteOne` of the first record with that
      refresh token; the deleted count, 1 or 0. */
  function DeleteByRefreshToken(c: Collection, refreshToken: Jwt.Secret): (r: Deleted)
    ensures r.count <= 1 && |r.sessions| == |c| - r.count
    ensures r.count == 1 <==> exists j :: 0 <= j < |c| && c[j].refreshToken == refreshToken
    ensures r.count == 0 ==> r.sessions == c
    ensures multiset(r.sessions) <= multiset(c)
    ensures forall i: nat :: FirstHolder(c, refreshToken, i) ==> r.sessions == Without(c, i) == c[..i] + c[i + 1..]
  {
    match FirstIndex(c, (x: DeviceSession) => x.refreshToken == refreshToken)
    case None => Deleted(c, 0)
    case Some(i) =>
      assert FirstHolder(c, refreshToken, i);
      assert forall k: nat :: FirstHolder(c, refreshToken, k) ==> k == i;
      Deleted(Without(c, i), 1)
  }

  /** Record `i` is the first to hold the refresh token. */
  predicate FirstHolder(c: Collection, refreshToken: Jwt.Secret, i: nat) {
    i < |c| && c[i].refreshToken == refreshToken && forall j :: 0 <= j < i ==> c[j].refreshToken != refreshToken
  }

  /** The collection without record `i`, the others in order. */
  function Without(c: Collection, i: nat): (r: Collection)
    requires i < |c|
    ensures |r| == |c| - 1
    ensures forall k :: 0 <= k < i ==> r[k] == c[k]
    ensures forall k :: i <= k < |r| ==> r[k] == c[k + 1]
    ensures multiset(r) <= multiset(c)
  {
    assert c == c[..i] + [c[i]] + c[i + 1..];
    c[..i] + c[i + 1..]
  }

  /** The `$set` of `updateDeviceSession`. */
  function WithNewAccess(x: DeviceSession, token: AccessToken, count: int, now: int): DeviceSession {
    x.(accessToken := token, refreshCount := count, lastSeen := now, refreshed := Some(now))
  }

  datatype Updated = Updated(sessions: Collection, returned: Option<DeviceSession>)

  /** `updateDeviceSession(refreshToken)`: re-signs the access token with the
      unchanged refresh token and bumps the counter and the timestamps. The
      record returned carries the new access token but the counter and
      timestamps it was read with. */
  function RefreshDevice(c: Collection, refreshToken: Jwt.Secret, exp: Sessions.Expiration, now: int): (r: Updated)
    ensures |r.sessions| == |c|
    ensures r.returned.None? ==> r.sessions == c
    ensures r.returned.Some? ==> r.returned.value.refreshToken == refreshToken
                                 && r.returned.value.accessToken == Jwt.Sign((), refreshToken, exp.short, now)
  {
    match ByRefreshToken(c, refreshToken)
    case None => Updated(c, None)
    case Some(rec) =>
      if rec.id.None? then Updated(c, None)
      else
        var token := Jwt.Sign((), rec.refreshToken, exp.short, now);
        Updated(UpdateById(c, rec.id, (x: DeviceSession) => WithNewAccess(x, token, rec.refreshCount + 1, now)),
                Some(rec.(accessToken := token)))
  }

  /** The caller's record after `updateDeviceSessionAndGrants` has changed it in place. */
  function Regranted(rec: DeviceSession, exp: Sessions.Expiration, now: int): DeviceSession {
    WithNewAccess(rec, Jwt.Sign((), rec.refreshToken, exp.short, now), rec.refreshCount + 1, now)
  }

  /** `updateDeviceSessionAndGrants(deviceSession)`: nothing without `_id`;
      otherwise the caller's record is refreshed in place and its new access
      token, counter, timestamps, grants and features are written. */
  function RefreshDeviceAndGrants(c: Collection, rec: DeviceSession, exp: Sessions.Expiration, now: int): (r: Updated)
    ensures |r.sessions| == |c|
    ensures r.returned.None? <==> rec.id.None?
    ensures r.returned.Some? ==> r.returned.value.refreshCount == rec.refreshCount + 1
                                 && r.returned.value.accessToken == Jwt.Sign((), rec.refreshToken, exp.short, now)
  {
    if rec.id.None? then Updated(c, None)
    else
      var rec' := Regranted(rec, exp, now);
      Updated(UpdateById(c, rec.id, (x: DeviceSession) => WithNewAccess(x, rec'.accessToken, rec'.refreshCount, now).(grants := rec.grants, features := rec.features)),
              Some(rec'))
  }

  /** `__removeApnToken(t)`: two `updateMany` calls, unsetting `apn_token`
      then `apn_voip_token` wherever it holds `t`. */
  function StripApn(c: Collection, t: string): (r: Collection)
    ensures |r| == |c|
    ensures forall j :: 0 <= j < |c| ==> !HoldsApn(r[j], t)
    ensures forall j :: 0 <= j < |c| && !HoldsApn(c[j], t) ==> r[j] == c[j]
    ensures forall j :: 0 <= j < |c| ==>
      r[j] == c[j].(apnToken := if Carries(c[j].apnToken, t) then None else c[j].apnToken,
                    apnVoipToken := if Carries(c[j].apnVoipToken, t) then None else c[j].apnVoipToken)
  {
    var noApn := seq(|c|, j requires 0 <= j < |c| =>
      if Carries(c[j].apnToken, t) then c[j].(apnToken := None) else c[j]);
    seq(|c|, j requires 0 <= j < |c| =>
      if Carries(noApn[j].apnVoipToken, t) then noApn[j].(apnVoipToken := None) else noApn[j])
  }

  /** The value `updateApnToken` stores: `is_sandbox` defaults to false. */
  function ApnValue(data: ApnTokenData): PushToken {
    PushToken(data.token, data.isSandbox.GetOr(false))
  }

  /** The `$set` of `updateApnToken`: `apn_voip_token` if `is_voip`, else `apn_token`. */
  function WithApn(x: DeviceSession, data: ApnTokenData): DeviceSession {
    if data.isVoip == Some(true) then x.(apnVoipToken := Some(ApnValue(data))) else x.(apnToken := Some(ApnValue(data)))
  }

  /** `updateApnToken(session, tokenData)`: strip the token everywhere, then
      set it on the session's record, in `apn_voip_token` if `is_voip`, else
      in `apn_token`. */
  function RegisterApn(c: Collection, session: DeviceSession, data: ApnTokenData): (r: Collection)
    ensures |r| == |c|
  {
    UpdateById(StripApn(c, data.token), session.id, (x: DeviceSession) => WithApn(x, data))
  }

  /** `__removeGcmToken(t)`: unset `gcm_token` wherever it equals `t`. */
  function StripGcm(c: Collection, t: string): (r: Collection)
    ensures |r| == |c|
    ensures forall j :: 0 <= j < |c| ==> !HoldsGcm(r[j], t)
    ensures forall j :: 0 <= j < |c| && !HoldsGcm(c[j], t) ==> r[j] == c[j]
    ensures forall j :: 0 <= j < |c| && HoldsGcm(c[j], t) ==> r[j] == c[j].(gcmToken := None)
  {
    seq(|c|, j requires 0 <= j < |c| => if HoldsGcm(c[j], t) then c[j].(gcmToken := None) else c[j])
  }

  /** `updateGcmToken(session, t)` */
  function RegisterGcm(c: Collection, session: DeviceSession, t: string): (r: Collection)
    ensures |r| == |c|
  {
    UpdateById(StripGcm(c, t), session.id, (x: DeviceSession) => x.(gcmToken := Some(t)))
  }

  // ---------------------------------------------------------------------
  // Properties

  /** With unique ids, `updateOne` by `_id` changes exactly the record with that id. */
  lemma UpdateByIdAt(c: Collection, id: Option<nat>, change: DeviceSession -> DeviceSession, j: nat)
    requires IdsUnique(c) && j < |c|
    ensures UpdateById(c, id, change)[j] == if c[j].id == id then change(c[j]) else c[j]
  {
  }

  /** A freshly stored session authenticates with its access token, provided
      no earlier record holds that token. */
  lemma StoreThenAuthenticate(c: Collection, data: SessionData, secret: Jwt.Secret, id: nat, exp: Sessions.Expiration, now: int)
    requires secret != ""
    requires forall j :: 0 <= j < |c| ==> c[j].accessToken != Jwt.Sign((), secret, exp.short, now)
    ensures var rec := NewSession(data, secret, id, exp, now);
      Authenticate(c + [rec], rec.accessToken) == Success(rec)
  {
    var rec := NewSession(data, secret, id, exp, now);
    var c' := c + [rec];
    var i := FirstIndex(c', (x: DeviceSession) => x.accessToken == rec.accessToken);
    assert c'[|c|] == rec;
    assert i == Some(|c|);
  }

  /** Every stored access token that is signed at all was signed with its
      own record's refresh token, as `storeNewSession` and
      `updateDeviceSession` sign them. */
  predicate AccessSignedByOwnRefresh(c: Collection) {
    forall j :: 0 <= j < |c| && c[j].accessToken.Signed? ==> c[j].accessToken.key == c[j].refreshToken
  }

  /** The path the mobile manager exists for: after `updateDeviceSession`,
      `getSession` with the access token it returned yields the refreshed
      stored record. */
  lemma RefreshThenAuthenticate(c: Collection, i: nat, exp: Sessions.Expiration, now: int)
    requires IdsUnique(c) && AccessSignedByOwnRefresh(c) && i < |c|
    requires forall j :: 0 <= j < |c| && j != i ==> c[j].refreshToken != c[i].refreshToken
    requires c[i].refreshToken != ""
    ensures var u := RefreshDevice(c, c[i].refreshToken, exp, now);
      && u.returned.Some?
      && Authenticate(u.sessions, u.returned.value.accessToken) == Success(u.sessions[i])
      && u.sessions[i].refreshCount == c[i].refreshCount + 1
  {
    var rt := c[i].refreshToken;
    var token := Jwt.Sign((), rt, exp.short, now);
    RefreshDeviceEffect(c, rt, exp, now, i);
    var c' := RefreshDevice(c, rt, exp, now).sessions;
    assert c'[i].accessToken == token;
    forall j | 0 <= j < |c'| && j != i ensures c'[j].accessToken != token {
      assert c'[j] == c[j];
    }
    var f := FirstIndex(c', (x: DeviceSession) => x.accessToken == token);
    assert f == Some(i);
  }

  /** With refresh tokens unique, after `removeToken(rt)` no record holds `rt`. */
  lemma DeleteThenNotFound(c: Collection, refreshToken: Jwt.Secret)
    requires forall i, j :: 0 <= i < j < |c| ==> c[i].refreshToken != c[j].refreshToken
    ensures ByRefreshToken(DeleteByRefreshToken(c, refreshToken).sessions, refreshToken) == None
  {
    var k := FirstIndex(c, (x: DeviceSession) => x.refreshToken == refreshToken);
    if k.Some? {
      assert FirstHolder(c, refreshToken, k.value);
      var d := DeleteByRefreshToken(c, refreshToken).sessions;
      assert d == Without(c, k.value);
    }
  }

  /** `updateDeviceSession` finds nothing, and writes nothing, when no record
      holds the refresh token. */
  lemma RefreshDeviceUnknown(c: Collection, refreshToken: Jwt.Secret, exp: Sessions.Expiration, now: int)
    requires forall j :: 0 <= j < |c| ==> c[j].refreshToken != refreshToken
    ensures RefreshDevice(c, refreshToken, exp, now) == Updated(c, None)
  {
  }

  /** When record `i` is the first holding the refresh token, `updateDeviceSession`
      gives it a new access token signed with its unchanged refresh token, the
      counter plus one and both timestamps set to now, leaving every other
      field and record unchanged; the returned record is the one read, with
      the new access token. */
  lemma RefreshDeviceEffect(c: Collection, refreshToken: Jwt.Secret, exp: Sessions.Expiration, now: int, i: nat)
    requires IdsUnique(c) && i < |c| && c[i].refreshToken == refreshToken
    requires forall j :: 0 <= j < i ==> c[j].refreshToken != refreshToken
    ensures var token := Jwt.Sign((), refreshToken, exp.short, now);
      RefreshDevice(c, refreshToken, exp, now) ==
        Updated(c[i := c[i].(accessToken := token, refreshCount := c[i].refreshCount + 1, lastSeen := now, refreshed := Some(now))],
                Some(c[i].(accessToken := token)))
  {
    var rec := c[i];
    var token := Jwt.Sign((), rec.refreshToken, exp.short, now);
    var change := (x: DeviceSession) => WithNewAccess(x, token, rec.refreshCount + 1, now);
    var f := FirstIndex(c, (x: DeviceSession) => x.refreshToken == refreshToken);
    assert f == Some(i);
    var g := FirstIndex(c, (x: DeviceSession) => x.id == rec.id);
    assert g == Some(i);
  }

  /** Two refreshes in a row add exactly two to the counter and never change
      the refresh token. */
  lemma RefreshTwice(c: Collection, i: nat, exp: Sessions.Expiration, now1: int, now2: int)
    requires IdsUnique(c) && i < |c|
    requires forall j :: 0 <= j < |c| && j != i ==> c[j].refreshToken != c[i].refreshToken
    ensures var rt := c[i].refreshToken;
      var once := RefreshDevice(c, rt, exp, now1).sessions;
      var twice := RefreshDevice(once, rt, exp, now2).sessions;
      |twice| == |c| && twice[i].refreshCount == c[i].refreshCount + 2 && twice[i].refreshToken == rt
      && twice[i].accessToken == Jwt.Sign((), rt, exp.short, now2)
  {
    var rt := c[i].refreshToken;
    RefreshDeviceEffect(c, rt, exp, now1, i);
    var once := RefreshDevice(c, rt, exp, now1).sessions;
    assert once[i].refreshToken == rt;
    assert forall j :: 0 <= j < |once| ==> once[j].id == c[j].id && once[j].refreshToken == c[j].refreshToken;
    RefreshDeviceEffect(once, rt, exp, now2, i);
  }

  /** `updateDeviceSessionAndGrants`: the returned record is the caller's,
      refreshed; the stored record with that `_id` gets the same access token,
      counter and timestamps plus the caller's grants and features. */
  lemma RefreshDeviceAndGrantsEffect(c: Collection, rec: DeviceSession, exp: Sessions.Expiration, now: int, j: nat)
    requires IdsUnique(c) && j < |c|
    ensures var u := RefreshDeviceAndGrants(c, rec, exp, now);
      && (rec.id.None? ==> u == Updated(c, None))
      && (rec.id.Some? ==>
            && u.returned == Some(rec.(accessToken := Jwt.Sign((), rec.refreshToken, exp.short, now),
                                        refreshCount := rec.refreshCount + 1, lastSeen := now, refreshed := Some(now)))
            && u.sessions[j] == if c[j].id == rec.id
                                then c[j].(accessToken := u.returned.value.accessToken, refreshCount := rec.refreshCount + 1,
                                           lastSeen := now, refreshed := Some(now), grants := rec.grants, features := rec.features)
                                else c[j])
  {
  }

  /** After `updateApnToken(session, data)`: the session's record holds the
      token in the field `is_voip` selects, with `is_sandbox` defaulting to
      false; no other record holds it in either field; records that held
      neither the token nor the session's id are unchanged. */
  lemma RegisterApnEffect(c: Collection, session: DeviceSession, data: ApnTokenData, j: nat)
    requires IdsUnique(c) && j < |c|
    ensures var r := RegisterApn(c, session, data);
      && |r| == |c|
      && (c[j].id == session.id ==>
            if data.isVoip == Some(true) then r[j].apnVoipToken == Some(PushToken(data.token, data.isSandbox.GetOr(false)))
            else r[j].apnToken == Some(PushToken(data.token, data.isSandbox.GetOr(false))))
      && (c[j].id != session.id ==> !HoldsApn(r[j], data.token))
      && (c[j].id != session.id && !HoldsApn(c[j], data.token) ==> r[j] == c[j])
  {
    var s := StripApn(c, data.token);
    assert IdsUnique(s);
    UpdateByIdAt(s, session.id, (x: DeviceSession) => WithApn(x, data), j);
  }

  /** `updateApnToken` keeps every APN token on at most one field of one record. */
  lemma RegisterApnKeepsUnique(c: Collection, session: DeviceSession, data: ApnTokenData)
    requires IdsUnique(c) && ApnUnique(c)
    ensures IdsUnique(RegisterApn(c, session, data)) && ApnUnique(RegisterApn(c, session, data))
  {
    var r := RegisterApn(c, session, data);
    forall j | 0 <= j < |c| ensures r[j].id == c[j].id {
      RegisterApnAt(c, session, data, j);
    }
    forall i, j | 0 <= i < |r| && 0 <= j < |r|
      ensures i != j ==> !SameToken(r[i].apnToken, r[j].apnToken) && !SameToken(r[i].apnVoipToken, r[j].apnVoipToken)
      ensures !SameToken(r[i].apnToken, r[j].apnVoipToken)
    {
      ApnPairUnique(c, session, data, i, j);
    }
  }

  /** One record after `updateApnToken`: the stripped record, with the token set when it is the session's. */
  lemma RegisterApnAt(c: Collection, session: DeviceSession, data: ApnTokenData, j: nat)
    requires IdsUnique(c) && j < |c|
    ensures var s := StripApn(c, data.token);
      RegisterApn(c, session, data)[j] == if c[j].id == session.id then WithApn(s[j], data) else s[j]
  {
    var s := StripApn(c, data.token);
    assert IdsUnique(s);
    UpdateByIdAt(s, session.id, (x: DeviceSession) => WithApn(x, data), j);
  }

  lemma ApnPairUnique(c: Collection, session: DeviceSession, data: ApnTokenData, i: nat, j: nat)
    requires IdsUnique(c) && ApnUnique(c) && i < |c| && j < |c|
    ensures var r := RegisterApn(c, session, data);
      && (i != j ==> !SameToken(r[i].apnToken, r[j].apnToken) && !SameToken(r[i].apnVoipToken, r[j].apnVoipToken))
      && !SameToken(r[i].apnToken, r[j].apnVoipToken)
  {
    RegisterApnAt(c, session, data, i);
    RegisterApnAt(c, session, data, j);
  }

  /** After `updateGcmToken(session, t)`: the session's record is the only one
      holding `t`, and records that held neither `t` nor the session's id are unchanged. */
  lemma RegisterGcmEffect(c: Collection, session: DeviceSession, t: string, j: nat)
    requires IdsUnique(c) && j < |c|
    ensures var r := RegisterGcm(c, session, t);
      && |r| == |c|
      && (HoldsGcm(r[j], t) <==> c[j].id == session.id)
      && (c[j].id != session.id && !HoldsGcm(c[j], t) ==> r[j] == c[j])
  {
    var s := StripGcm(c, t);
    assert IdsUnique(s);
    UpdateByIdAt(s, session.id, (x: DeviceSession) => x.(gcmToken := Some(t)), j);
  }

  /** `updateGcmToken` keeps every GCM token on at most one record. */
  lemma RegisterGcmKeepsUnique(c: Collection, session: DeviceSession, t: string)
    requires IdsUnique(c) && GcmUnique(c)
    ensures IdsUnique(RegisterGcm(c, session, t)) && GcmUnique(RegisterGcm(c, session, t))
  {
    var s := StripGcm(c, t);
    var r := RegisterGcm(c, session, t);
    forall j | 0 <= j < |c| ensures r[j].id == c[j].id && (r[j].gcmToken == c[j].gcmToken || r[j].gcmToken == None || r[j].gcmToken == Some(t)) {
      UpdateByIdAt(s, session.id, (x: DeviceSession) => x.(gcmToken := Some(t)), j);
    }
    forall i, j | 0 <= i < |r| && 0 <= j < |r| && i != j && r[i].gcmToken.Some?
      ensures r[i].gcmToken != r[j].gcmToken
    {
      RegisterGcmEffect(c, session, t, i);
      RegisterGcmEffect(c, session, t, j);
    }
  }

  // ---------------------------------------------------------------------
  // The manager object

  class SessionManagerMobile {
    /** The "devices_session" collection. */
    var sessions: Collection
    const expiration: Sessions.Expiration

    ghost predicate Valid()
      reads this
    {
      IdsUnique(sessions) && ApnUnique(sessions) && GcmUnique(sessions)
    }

    constructor (expiration: Sessions.Expiration)
      ensures Valid() && sessions == [] && this.expiration == expiration
    {
      this.expiration := expiration;
      sessions := [];
    }

    /** `secret` is `uuid.v1()`, `id` the `_id` the driver assigns on insert, `now` the clock. */
    method StoreNewSession(sessionData: SessionData, secret: Jwt.Secret, id: nat, now: int) returns (deviceSession: DeviceSession)
      requires Valid()
      requires forall j :: 0 <= j < |sessions| ==> sessions[j].id != Some(id)
      modifies this
      ensures Valid()
      ensures deviceSession == NewSession(sessionData, secret, id, expiration, now)
      ensures sessions == old(sessions) + [deviceSession]
    {
      var jwtToken := Jwt.Sign((), secret, expiration.short, now);
      deviceSession := DeviceSession(Some(id), secret, jwtToken,
        sessionData.userId, sessionData.customerId, sessionData.pbxId, sessionData.pbxSupplier,
        sessionData.applicationId, sessionData.grants, None, None, None, now, now,
        sessionData.userAgent, sessionData.os, 0, None, sessionData.features);
      sessions := sessions + [deviceSession];
    }

    /** `__getSession(token)`: rejects the empty token, else `findOne({ access_token })`. */
    method FindByAccessToken(token: AccessToken) returns (r: Result<Option<DeviceSession>, AuthError>)
      ensures Jwt.IsEmpty(token) <==> r == Failure(EmptyToken)
      ensures !Jwt.IsEmpty(token) ==> r.Success?
      ensures r.Success? ==> r.value == FindOne(sessions, (x: DeviceSession) => x.accessToken == token)
    {
      if Jwt.IsEmpty(token) {
        return Failure(EmptyToken);
      }
      r := Success(FindOne(sessions, (x: DeviceSession) => x.accessToken == token));
    }

    method GetSession(token: AccessToken) returns (r: Result<DeviceSession, AuthError>)
      ensures r == Authenticate(sessions, token)
    {
      var found := FindByAccessToken(token);
      if found.Failure? {
        return Failure(found.error);
      }
      if found.value.None? {
        return Failure(InvalidToken);
      }
      var deviceSession := found.value.value;
      var verified := Jwt.Verify(deviceSession.accessToken, Some(deviceSession.refreshToken));
      r := if verified.Success? then Success(deviceSession) else Failure(Rejected(verified.error));
    }

    method GetSessionByRefreshToken(refreshToken: Jwt.Secret) returns (r: Option<DeviceSession>)
      ensures r == ByRefreshToken(sessions, refreshToken)
      ensures r.Some? ==> r.value in sessions && r.value.refreshToken == refreshToken
      ensures r.None? <==> forall j :: 0 <= j < |sessions| ==> sessions[j].refreshToken != refreshToken
    {
      r := FindOne(sessions, (x: DeviceSession) => x.refreshToken == refreshToken);
    }

    method RemoveToken(refreshToken: Jwt.Secret) returns (deletedCount: nat)
      requires Valid()
      modifies this
      ensures Valid()
      ensures Deleted(sessions, deletedCount) == DeleteByRefreshToken(old(sessions), refreshToken)
    {
      var d := DeleteByRefreshToken(sessions, refreshToken);
      RemovalKeepsValid(sessions, refreshToken);
      sessions, deletedCount := d.sessions, d.count;
    }

    method UpdateDeviceSession(refreshToken: Jwt.Secret, now: int) returns (r: Option<DeviceSession>)
      requires Valid()
      modifies this
      ensures Valid()
      ensures Updated(sessions, r) == RefreshDevice(old(sessions), refreshToken, expiration, now)
    {
      var deviceSession := GetSessionByRefreshToken(refreshToken);
      if deviceSession.Some? && deviceSession.value.id.Some? {
        var rec := deviceSession.value;
        var accessToken := Jwt.Sign((), rec.refreshToken, expiration.short, now);
        RefreshKeepsValid(sessions, rec.id, (x: DeviceSession) => WithNewAccess(x, accessToken, rec.refreshCount + 1, now));
        sessions := UpdateById(sessions, rec.id, (x: DeviceSession) => WithNewAccess(x, accessToken, rec.refreshCount + 1, now));
        return Some(rec.(accessToken := accessToken));
      }
      return None;
    }

    /** The caller's record is modified in place by the source; here the
        modified record is what is returned. */
    method UpdateDeviceSessionAndGrants(deviceSession: DeviceSession, now: int) returns (r: Option<DeviceSession>)
      requires Valid()
      modifies this
      ensures Valid()
      ensures Updated(sessions, r) == RefreshDeviceAndGrants(old(sessions), deviceSession, expiration, now)
    {
      if deviceSession.id.None? {
        return None;
      }
      var rec := deviceSession.(accessToken := Jwt.Sign((), deviceSession.refreshToken, expiration.short, now));
      rec := rec.(refreshCount := deviceSession.refreshCount + 1);
      rec := rec.(lastSeen := now, refreshed := Some(now));
      var change := (x: DeviceSession) => WithNewAccess(x, rec.accessToken, rec.refreshCount, now).(grants := deviceSession.grants, features := deviceSession.features);
      RefreshKeepsValid(sessions, deviceSession.id, change);
      sessions := UpdateById(sessions, deviceSession.id, change);
      r := Some(rec);
    }

    method RemoveApnToken(token: string)
      requires Valid()
      modifies this
      ensures Valid()
      ensures sessions == StripApn(old(sessions), token)
    {
      StripApnKeepsValid(sessions, token);
      sessions := StripApn(sessions, token);
    }

    method UpdateApnToken(session: DeviceSession, tokenData: ApnTokenData)
      requires Valid()
      modifies this
      ensures Valid()
      ensures sessions == RegisterApn(old(sessions), session, tokenData)
    {
      RegisterApnKeepsUnique(sessions, session, tokenData);
      RegisterApnKeepsGcm(sessions, session, tokenData);
      RemoveApnToken(tokenData.token);
      sessions := UpdateById(sessions, session.id, (x: DeviceSession) => WithApn(x, tokenData));
    }

    method RemoveGcmToken(token: string)
      requires Valid()
      modifies this
      ensures Valid()
      ensures sessions == StripGcm(old(sessions), token)
    {
      StripGcmKeepsValid(sessions, token);
      sessions := StripGcm(sessions, token);
    }

    method UpdateGcmToken(session: DeviceSession, token: string)
      requires Valid()
      modifies this
      ensures Valid()
      ensures sessions == RegisterGcm(old(sessions), session, token)
    {
      RegisterGcmKeepsUnique(sessions, session, token);
      RegisterGcmKeepsApn(sessions, session, token);
      RemoveGcmToken(token);
      sessions := UpdateById(sessions, session.id, (x: DeviceSession) => x.(gcmToken := Some(token)));
    }
  }

  // ---------------------------------------------------------------------
  // Frame lemmas for the object invariant

  /** Deleting a record keeps ids and push tokens unique. */
  lemma RemovalKeepsValid(c: Collection, refreshToken: Jwt.Secret)
    requires IdsUnique(c) && ApnUnique(c) && GcmUnique(c)
    ensures var d := DeleteByRefreshToken(c, refreshToken).sessions; IdsUnique(d) && ApnUnique(d) && GcmUnique(d)
  {
    var k := FirstIndex(c, (x: DeviceSession) => x.refreshToken == refreshToken);
    if k.Some? {
      RemoveAtKeepsValid(c, k.value);
    }
  }

  /** Dropping one record keeps every uniqueness property. */
  lemma RemoveAtKeepsValid(c: Collection, k: nat)
    requires k < |c|
    requires IdsUnique(c) && ApnUnique(c) && GcmUnique(c)
    ensures var d := c[..k] + c[k + 1..]; IdsUnique(d) && ApnUnique(d) && GcmUnique(d)
  {
    var d := c[..k] + c[k + 1..];
    forall i | 0 <= i < |d| ensures d[i] == c[if i < k then i else i + 1] { }
  }

  /** An update by `_id` that leaves the id and the push-token fields alone keeps the invariant. */
  lemma RefreshKeepsValid(c: Collection, id: Option<nat>, change: DeviceSession -> DeviceSession)
    requires IdsUnique(c) && ApnUnique(c) && GcmUnique(c)
    requires forall x :: change(x).id == x.id && change(x).gcmToken == x.gcmToken
                        && change(x).apnToken == x.apnToken && change(x).apnVoipToken == x.apnVoipToken
    ensures var r := UpdateById(c, id, change); IdsUnique(r) && ApnUnique(r) && GcmUnique(r)
  {
    var r := UpdateById(c, id, change);
    forall j | 0 <= j < |c|
      ensures r[j].id == c[j].id && r[j].gcmToken == c[j].gcmToken
      ensures r[j].apnToken == c[j].apnToken && r[j].apnVoipToken == c[j].apnVoipToken
    {
      UpdateByIdAt(c, id, change, j);
    }
  }

  /** Unsetting an APN token everywhere keeps the invariant: only APN fields change, and only to nothing. */
  lemma StripApnKeepsValid(c: Collection, t: string)
    requires IdsUnique(c) && ApnUnique(c) && GcmUnique(c)
    ensures var r := StripApn(c, t); IdsUnique(r) && ApnUnique(r) && GcmUnique(r)
  {
  }

  /** Unsetting a GCM token everywhere keeps the invariant. */
  lemma StripGcmKeepsValid(c: Collection, t: string)
    requires IdsUnique(c) && ApnUnique(c) && GcmUnique(c)
    ensures var r := StripGcm(c, t); IdsUnique(r) && ApnUnique(r) && GcmUnique(r)
  {
  }

  /** Registering an APN token does not touch GCM tokens. */
  lemma RegisterApnKeepsGcm(c: Collection, session: DeviceSession, data: ApnTokenData)
    requires IdsUnique(c) && GcmUnique(c)
    ensures GcmUnique(RegisterApn(c, session, data))
  {
    var s := StripApn(c, data.token);
    var r := RegisterApn(c, session, data);
    forall j | 0 <= j < |c| ensures r[j].gcmToken == c[j].gcmToken {
      UpdateByIdAt(s, session.id, (x: DeviceSession) => WithApn(x, data), j);
    }
  }

  /** Registering a GCM token does not touch APN tokens. */
  lemma RegisterGcmKeepsApn(c: Collection, session: DeviceSession, t: string)
    requires IdsUnique(c) && ApnUnique(c)
    ensures ApnUnique(RegisterGcm(c, session, t))
  {
    var s := StripGcm(c, t);
    var r := RegisterGcm(c, session, t);
    forall j | 0 <= j < |c| ensures r[j].apnToken == c[j].apnToken && r[j].apnVoipToken == c[j].apnVoipToken {
      UpdateByIdAt(s, session.id, (x: DeviceSession) => x.(gcmToken := Some(t)), j);
    }
  }

  // ---------------------------------------------------------------------
  // The signing invariant that getSession relies on

  /** No two records share a refresh token. */
  ghost predicate RefreshUnique(c: Collection) {
    forall i, j :: 0 <= i < j < |c| ==> c[i].refreshToken != c[j].refreshToken
  }

  /** The two facts `RefreshThenAuthenticate` and `DeleteThenNotFound` need. */
  ghost predicate OwnSigning(c: Collection) {
    AccessSignedByOwnRefresh(c) && RefreshUnique(c)
  }

  /** A change that keeps every refresh token, and every access token or
      replaces it by one signed with the record's own refresh token, keeps
      `OwnSigning`. */
  lemma SigningKept(c: Collection, r: Collection)
    requires OwnSigning(c) && |r| == |c|
    requires forall j :: 0 <= j < |c| ==> r[j].refreshToken == c[j].refreshToken
    requires forall j :: 0 <= j < |c| ==>
      r[j].accessToken == c[j].accessToken || (r[j].accessToken.Signed? && r[j].accessToken.key == r[j].refreshToken)
    ensures OwnSigning(r)
  {
  }

  /** `storeNewSession` keeps `OwnSigning` when its random secret is not
      already some record's refresh token. */
  lemma StoreKeepsSigning(c: Collection, data: SessionData, secret: Jwt.Secret, id: nat, exp: Sessions.Expiration, now: int)
    requires OwnSigning(c)
    requires forall j :: 0 <= j < |c| ==> c[j].refreshToken != secret
    ensures OwnSigning(c + [NewSession(data, secret, id, exp, now)])
  {
    var r := c + [NewSession(data, secret, id, exp, now)];
    forall i, j | 0 <= i < j < |r| ensures r[i].refreshToken != r[j].refreshToken {
      if j == |c| {
        assert r[i] == c[i];
      } else {
        assert r[i] == c[i] && r[j] == c[j];
      }
    }
  }

  /** `removeToken` keeps `OwnSigning`. */
  lemma DeleteKeepsSigning(c: Collection, refreshToken: Jwt.Secret)
    requires OwnSigning(c)
    ensures OwnSigning(DeleteByRefreshToken(c, refreshToken).sessions)
  {
    var k := FirstIndex(c, (x: DeviceSession) => x.refreshToken == refreshToken);
    if k.Some? {
      assert FirstHolder(c, refreshToken, k.value);
      var d := DeleteByRefreshToken(c, refreshToken).sessions;
      assert d == Without(c, k.value);
      forall i, j | 0 <= i < j < |d| ensures d[i].refreshToken != d[j].refreshToken {
        var i' := if i < k.value then i else i + 1;
        var j' := if j < k.value then j else j + 1;
        assert d[i] == c[i'] && d[j] == c[j'];
      }
    }
  }

  /** `updateDeviceSession` keeps `OwnSigning`: it re-signs with the
      record's own refresh token. */
  lemma RefreshDeviceKeepsSigning(c: Collection, refreshToken: Jwt.Secret, exp: Sessions.Expiration, now: int)
    requires IdsUnique(c) && OwnSigning(c)
    ensures OwnSigning(RefreshDevice(c, refreshToken, exp, now).sessions)
  {
    var k := FirstIndex(c, (x: DeviceSession) => x.refreshToken == refreshToken);
    if k.Some? {
      RefreshDeviceEffect(c, refreshToken, exp, now, k.value);
    }
    SigningKept(c, RefreshDevice(c, refreshToken, exp, now).sessions);
  }

  /** `updateDeviceSessionAndGrants` keeps `OwnSigning` when the caller's
      record carries the refresh token stored under its `_id`, as a record
      read from the collection does. */
  lemma RefreshDeviceAndGrantsKeepsSigning(c: Collection, rec: DeviceSession, exp: Sessions.Expiration, now: int)
    requires IdsUnique(c) && OwnSigning(c)
    requires forall j :: 0 <= j < |c| && c[j].id == rec.id ==> c[j].refreshToken == rec.refreshToken
    ensures OwnSigning(RefreshDeviceAndGrants(c, rec, exp, now).sessions)
  {
    var r := RefreshDeviceAndGrants(c, rec, exp, now).sessions;
    if rec.id.Some? {
      var rec' := Regranted(rec, exp, now);
      var change := (x: DeviceSession) => WithNewAccess(x, rec'.accessToken, rec'.refreshCount, now).(grants := rec.grants, features := rec.features);
      forall j | 0 <= j < |c|
        ensures r[j].refreshToken == c[j].refreshToken
        ensures r[j].accessToken == c[j].accessToken || (r[j].accessToken.Signed? && r[j].accessToken.key == r[j].refreshToken)
      {
        UpdateByIdAt(c, rec.id, change, j);
      }
    }
    SigningKept(c, r);
  }

  /** Removing or registering an APN token never touches the tokens of a session. */
  lemma ApnKeepsSigning(c: Collection, session: DeviceSession, data: ApnTokenData, t: string)
    requires IdsUnique(c) && OwnSigning(c)
    ensures OwnSigning(StripApn(c, t)) && OwnSigning(RegisterApn(c, session, data))
  {
    SigningKept(c, StripApn(c, t));
    var s := StripApn(c, data.token);
    var r := RegisterApn(c, session, data);
    forall j | 0 <= j < |c| ensures r[j].refreshToken == c[j].refreshToken && r[j].accessToken == c[j].accessToken {
      UpdateByIdAt(s, session.id, (x: DeviceSession) => WithApn(x, data), j);
    }
    SigningKept(c, r);
  }

  /** Removing or registering a GCM token never touches the tokens of a session. */
  lemma GcmKeepsSigning(c: Collection, session: DeviceSession, t: string)
    requires IdsUnique(c) && OwnSigning(c)
    ensures OwnSigning(StripGcm(c, t)) && OwnSigning(RegisterGcm(c, session, t))
  {
    SigningKept(c, StripGcm(c, t));
    var s := StripGcm(c, t);
    var r := RegisterGcm(c, session, t);
    forall j | 0 <= j < |c| ensures r[j].refreshToken == c[j].refreshToken && r[j].accessToken == c[j].accessToken {
      UpdateByIdAt(s, session.id, (x: DeviceSession) => x.(gcmToken := Some(t)), j);
    }
    SigningKept(c, r);
  }
}
