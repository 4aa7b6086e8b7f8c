# node-be-core in Dafny

A Dafny model of the core of node-be-core, a Node.js back-end toolkit. The model has two parts.

The first part is the session and token lifecycle:

- The ephemeral `SessionManager` keeps three Redis keyspaces: token to secret, user id to token list, and token to pending payload.
- The mobile `SessionManagerMobile` keeps a MongoDB collection of device sessions with access, refresh and push tokens.
- The refreshable Express middleware reads the bearer header and decides between pass, 401 and 403.

The second part is the self-contained helpers around that core:

- calendar arithmetic in `Dates`;
- the SQL WHERE-clause builder `PgFilter`;
- the statement text of `PgClientManager.insert` and `updateByKey`;
- the accumulating `Validator`;
- the `Email` message builder;
- `Strings.validatePassword`;
- `Utils.sizeOf`.

Each source file is one module:

| module | file |
|---|---|
| `Sessions` | session_manager.dfy |
| `MobileSessions` | session_manager_mobile.dfy |
| `RefreshableMiddleware` | refreshable_session_middleware.dfy |
| `Dates` | dates.dfy |
| `PgFilters` | pg_filter.dfy |
| `Validation` | validator.dfy |
| `PgClient` | pg_client_manager.dfy |
| `Emails` | email_sender.dfy |
| `Strings` | strings.dfy |
| `Utils` | utils.dfy |

Four modules are shared:

- `Wrappers` holds `Option` and `Result`.
- `JsValues` is a JavaScript value: nullish, boolean, number, string, array, plain object, other object.
- `Text` holds `join`, `split` and `startsWith`.
- `Jwt` is the token codec, reduced to what the code relies on. A token signed with a secret verifies with that secret and decodes to its claims.

Where the source updates state in place, the model keeps a class and does the same:

- the two managers;
- `PgFilter`;
- `Validator`;
- `Email`.

Each method of such a class is proved against a specification function over the state as a value. The properties are lemmas about those functions. Examples are idempotence of revocation, uniqueness of push tokens, placeholder numbering, and round trips.

Three parts of the outside world are parameters:

- the clock (`now`);
- the secret generator (`uuid.v1`, the `secret` parameter);
- the `_id` the database assigns (`id`).

## Model

| member | source | states |
|---|---|---|
| Jwt.Sign | lib/session-manager.mjs:91-105 | a signed token carries exactly the claims and the key it was signed with |
| Jwt.Verify | lib/session-manager.mjs:114-130 | verification succeeds exactly for a signed token, checked with its own non-empty key, and yields its claims |
| Jwt.Decode | lib/session-manager.mjs:293 | decoding yields the claims of a signed token and nothing for any other text |
| Jwt.VerifySigned | lib/session-manager.mjs:91-130 | round trip: verify(sign(p, s), s) = p and decode(sign(p, s)) = p |
| Sessions.RemoveAll | lib/session-manager.mjs:274 | `lRem` with count 0 removes every occurrence of the token and keeps every other element |
| Sessions.WithNewToken | lib/session-manager.mjs:141-149 | stores token to secret with its TTL and pushes the token onto the head of the user's list; other secrets, other users and pending entries are unchanged |
| Sessions.Issue | lib/session-manager.mjs:175-185 | `set` signs the payload with the fresh secret and uses the long expiration exactly when the payload is persistent; the new token is stored with that TTL at the head of its user's list; the stored keys are the old ones plus the new token, every other entry, list and pending mark is kept |
| Sessions.SecretOf | lib/session-manager.mjs:157-168 | the empty token is an error; otherwise the stored secret, or none when the token has no entry |
| Sessions.Lookup | lib/session-manager.mjs:241-249 | `get` succeeds exactly when the token is signed with the secret stored for it, and then yields the signed payload; an empty or unknown token fails |
| Sessions.MarkForRefresh | lib/session-manager.mjs:193-199 | `update` writes only the pending entry of the token |
| Sessions.PendingFor | lib/session-manager.mjs:206-218 | `checkRefresh` yields the pending payload, or null when there is none |
| Sessions.Revoke | lib/session-manager.mjs:271-279 | `removeToken` drops the secret and the pending entry of the token and every occurrence of it from the user's list; nothing else changes |
| Sessions.Regranted | lib/session-manager.mjs:299-307 | the pending payload carries the new grants and the six copied fields, and no `source` |
| Sessions.IssueThenLookup | lib/session-manager.mjs:175-185 | `get(set(p)) = p` for as long as the secret entry stays |
| Sessions.RemoveAllIdempotent | lib/session-manager.mjs:274 | removing all occurrences twice is removing them once |
| Sessions.RevokeIdempotent | lib/session-manager.mjs:271-279 | `removeToken` is idempotent |
| Sessions.RevokeThenLookupFails | lib/session-manager.mjs:271-279 | after `removeToken`, `get` fails, `checkRefresh` gives null and the user's list lacks the token |
| Sessions.MarkForRefreshKeepsAuthentication | lib/session-manager.mjs:193-218 | after `update`, every token authenticates as before and `checkRefresh` returns the payload written |
| Sessions.RotateReplacesToken | lib/session-manager.mjs:226-234 | after `refreshToken` the new token authenticates with the payload, and the previous one no longer does and has no pending entry |
| Sessions.RegrantedViewIdempotent | lib/session-manager.mjs:294-308 | applying the grant change to a token's entries twice is applying it once |
| Sessions.GrantsStepView | lib/session-manager.mjs:293-308 | for a decodable token: equal grants leave it alone, a MOBILE token is revoked, any other gets the re-granted pending payload; every other token keeps its entries |
| Sessions.Rotate | lib/session-manager.mjs:226-234 | the new token is signed with the fresh secret over the new payload; a different previous token loses its secret and pending entries |
| Sessions.GrantsStep | lib/session-manager.mjs:293-308 | one iteration succeeds exactly for a decodable token, fails only as undecodable, and leaves the store alone when the grants are equal |
| Sessions.Propagate | lib/session-manager.mjs:288-317 | the only error is an undecodable token, and a list whose decodable tokens all carry the new grants leaves the store unchanged |
| Sessions.PropagateView | lib/session-manager.mjs:288-313 | when every listed token decodes, the loop completes and each token ends with the entries the grant change gives it |
| Sessions.Keep | lib/session-manager.mjs:274 | the elements of the list not in the set, in order |
| Sessions.KeepNothing | lib/session-manager.mjs:274 | keeping everything is the identity |
| Sessions.RemoveAllIsKeep | lib/session-manager.mjs:274 | `lRem` with count 0 keeps, in order, every element that is not the token |
| Sessions.KeepTwice | lib/session-manager.mjs:274 | two removals in a row are one removal of both sets |
| Sessions.GrantsStepLists | lib/session-manager.mjs:293-297 | one iteration removes a revoked MOBILE token from the list of the user its payload names, and changes no list otherwise |
| Sessions.PropagateLists | lib/session-manager.mjs:288-313 | when every listed token decodes, each user's list ends as it was, in order, less the listed MOBILE tokens of that user whose grants differ |
| Sessions.PropagateStopsAtFirstFailure | lib/session-manager.mjs:290-316 | an undecodable token stops the loop: the state is what the tokens before it produced, and the error is reported |
| Sessions.SessionManager.constructor | lib/session-manager.mjs:61-81 | the three keyspaces start empty |
| Sessions.SessionManager.StoreNewToken | lib/session-manager.mjs:141-149 | the state becomes `WithNewToken` of the old state |
| Sessions.SessionManager.Set | lib/session-manager.mjs:175-185 | the returned token and the new state are `Issue` of the old state |
| Sessions.SessionManager.GetSecret | lib/session-manager.mjs:157-168 | returns `SecretOf` the current state |
| Sessions.SessionManager.Get | lib/session-manager.mjs:241-249 | returns `Lookup` in the current state |
| Sessions.SessionManager.Update | lib/session-manager.mjs:193-199 | the state becomes `MarkForRefresh` of the old state |
| Sessions.SessionManager.CheckRefresh | lib/session-manager.mjs:206-218 | returns `PendingFor` the token, changing nothing |
| Sessions.SessionManager.RefreshToken | lib/session-manager.mjs:226-234 | revoke then issue: the result is `Issue` applied to `Revoke` of the old state |
| Sessions.SessionManager.GetUserValidTokens | lib/session-manager.mjs:256-263 | the user's list, or empty when the user has none |
| Sessions.SessionManager.RemoveToken | lib/session-manager.mjs:271-279 | the state becomes `Revoke` of the old state |
| Sessions.SessionManager.UpdateUserGrants | lib/session-manager.mjs:288-317 | the loop over a snapshot of the user's list ends in the state and error that `Propagate` gives |
| MobileSessions.FirstIndex | lib/session-manager-mobile.mjs:165 | the first record matching the filter, and none before it matches |
| MobileSessions.FindOne | lib/session-manager-mobile.mjs:165 | `findOne` finds a stored matching record exactly when one exists |
| MobileSessions.UpdateById | lib/session-manager-mobile.mjs:231-243 | `updateOne` by `_id` keeps the length and leaves every record with another id unchanged |
| MobileSessions.NewSession | lib/session-manager-mobile.mjs:135-154 | the stored record holds the session data, the fresh secret as refresh token, an access token signed with it, `created = last_seen = now`, count 0 and no push tokens |
| MobileSessions.Authenticate | lib/session-manager-mobile.mjs:162-190 | the empty token and a token no record holds are rejected; otherwise the first record holding the token decides: the result is that record exactly when the token verifies against its refresh token, and a rejection by the verifier otherwise |
| MobileSessions.DeleteByRefreshToken | lib/session-manager-mobile.mjs:210-219 | `deleteOne` removes one record exactly when some record holds the refresh token, and reports 1 or 0; the record removed is the first holder, and the others stay in order |
| MobileSessions.StripApn | lib/session-manager-mobile.mjs:292-315 | afterwards no record holds the token in either APN field; each record loses exactly the APN fields that held the token, and every other field is kept |
| MobileSessions.StripGcm | lib/session-manager-mobile.mjs:353-367 | afterwards no record holds the GCM token; records that held it lose only that field |
| MobileSessions.ByRefreshToken | lib/session-manager-mobile.mjs:197-203 | a stored record holding the refresh token, or none exactly when no record holds it |
| MobileSessions.RefreshDevice | lib/session-manager-mobile.mjs:226-251 | the collection keeps its length, nothing is written when nothing is returned, and the returned record holds the refresh token and an access token signed with it |
| MobileSessions.RefreshDeviceAndGrants | lib/session-manager-mobile.mjs:258-286 | the collection keeps its length; a record is returned exactly when the caller's has an `_id`, with the counter plus one and an access token signed with its refresh token |
| MobileSessions.RegisterApn | lib/session-manager-mobile.mjs:326-347 | the collection keeps its length; the full effect is `RegisterApnEffect` |
| MobileSessions.RegisterGcm | lib/session-manager-mobile.mjs:374-391 | the collection keeps its length; the full effect is `RegisterGcmEffect` |
| MobileSessions.RefreshThenAuthenticate | lib/session-manager-mobile.mjs:179-247 | after `updateDeviceSession`, `getSession` with the returned access token yields the refreshed stored record, given unique refresh tokens and access tokens signed with their own record's refresh token |
| MobileSessions.Without | lib/session-manager-mobile.mjs:212-214 | the collection less one record: one shorter, the others in order, nothing added |
| MobileSessions.DeleteThenNotFound | lib/session-manager-mobile.mjs:197-219 | with refresh tokens unique, after `removeToken(rt)` no record holds `rt` |
| MobileSessions.StripApnKeepsValid | lib/session-manager-mobile.mjs:292-315 | unsetting an APN token everywhere keeps ids and push tokens unique |
| MobileSessions.StripGcmKeepsValid | lib/session-manager-mobile.mjs:353-367 | unsetting a GCM token everywhere keeps ids and push tokens unique |
| MobileSessions.UpdateByIdAt | lib/session-manager-mobile.mjs:231-243 | with unique ids, the update changes exactly the record with that id |
| MobileSessions.SigningKept | lib/session-manager-mobile.mjs:135-286 | a change that keeps refresh tokens and keeps or re-signs access tokens with the record's own refresh token keeps refresh tokens unique and access tokens own-signed |
| MobileSessions.StoreKeepsSigning | lib/session-manager-mobile.mjs:135-154 | `storeNewSession` with a secret no record holds keeps refresh tokens unique and access tokens own-signed |
| MobileSessions.DeleteKeepsSigning | lib/session-manager-mobile.mjs:210-219 | `removeToken` keeps refresh tokens unique and access tokens own-signed |
| MobileSessions.RefreshDeviceKeepsSigning | lib/session-manager-mobile.mjs:226-251 | `updateDeviceSession` keeps refresh tokens unique and access tokens own-signed |
| MobileSessions.RefreshDeviceAndGrantsKeepsSigning | lib/session-manager-mobile.mjs:258-286 | `updateDeviceSessionAndGrants` with a record carrying the refresh token stored under its `_id` keeps refresh tokens unique and access tokens own-signed |
| MobileSessions.ApnKeepsSigning | lib/session-manager-mobile.mjs:292-347 | removing or registering an APN token keeps refresh tokens unique and access tokens own-signed |
| MobileSessions.GcmKeepsSigning | lib/session-manager-mobile.mjs:353-391 | removing or registering a GCM token keeps refresh tokens unique and access tokens own-signed |
| MobileSessions.StoreThenAuthenticate | lib/session-manager-mobile.mjs:135-190 | a freshly stored session authenticates with its own access token |
| MobileSessions.RefreshDeviceUnknown | lib/session-manager-mobile.mjs:226-251 | with no record holding the refresh token, the result is null and nothing is written |
| MobileSessions.RefreshDeviceEffect | lib/session-manager-mobile.mjs:226-247 | the first record holding the refresh token gets an access token signed with that refresh token, count plus one and both timestamps; every other field and record is unchanged; the returned record has the new access token but the old count and timestamps |
| MobileSessions.RefreshTwice | lib/session-manager-mobile.mjs:226-247 | two refreshes add two to the count and never change the refresh token |
| MobileSessions.RefreshDeviceAndGrantsEffect | lib/session-manager-mobile.mjs:258-286 | without `_id`, null and no write; otherwise the returned record is the caller's, refreshed, and the stored record with that id gets the same token, count and timestamps plus the caller's grants and features |
| MobileSessions.RegisterApnEffect | lib/session-manager-mobile.mjs:326-347 | the session's record holds `{token, is_sandbox ?? false}` in the voip field when `is_voip`, else in `apn_token`; no other record holds the token; records holding neither the token nor the id are unchanged |
| MobileSessions.RegisterApnKeepsUnique | lib/session-manager-mobile.mjs:292-347 | `updateApnToken` keeps every APN token on at most one field of one record |
| MobileSessions.RegisterApnAt | lib/session-manager-mobile.mjs:326-347 | each record after `updateApnToken` is the stripped record, with the token set when it is the session's |
| MobileSessions.ApnPairUnique | lib/session-manager-mobile.mjs:292-347 | no two APN fields hold the same token after `updateApnToken` |
| MobileSessions.RegisterGcmEffect | lib/session-manager-mobile.mjs:374-391 | the session's record is the only one holding the GCM token; records holding neither it nor the id are unchanged |
| MobileSessions.RegisterGcmKeepsUnique | lib/session-manager-mobile.mjs:353-391 | `updateGcmToken` keeps every GCM token on at most one record |
| MobileSessions.RemovalKeepsValid | lib/session-manager-mobile.mjs:210-219 | deleting a record keeps ids and push tokens unique |
| MobileSessions.RemoveAtKeepsValid | lib/session-manager-mobile.mjs:212-214 | dropping any one record keeps ids and push tokens unique |
| MobileSessions.RefreshKeepsValid | lib/session-manager-mobile.mjs:231-243 | an update that leaves ids and push-token fields alone keeps them unique |
| MobileSessions.RegisterApnKeepsGcm | lib/session-manager-mobile.mjs:326-347 | registering an APN token leaves GCM tokens unique |
| MobileSessions.RegisterGcmKeepsApn | lib/session-manager-mobile.mjs:374-391 | registering a GCM token leaves APN tokens unique |
| MobileSessions.SessionManagerMobile.constructor | lib/session-manager-mobile.mjs:78 | the collection starts empty |
| MobileSessions.SessionManagerMobile.StoreNewSession | lib/session-manager-mobile.mjs:135-154 | appends and returns `NewSession`, keeping ids and push tokens unique |
| MobileSessions.SessionManagerMobile.FindByAccessToken | lib/session-manager-mobile.mjs:162-172 | the empty token is an error; otherwise `findOne` by access token |
| MobileSessions.SessionManagerMobile.GetSession | lib/session-manager-mobile.mjs:179-190 | returns `Authenticate` on the collection |
| MobileSessions.SessionManagerMobile.GetSessionByRefreshToken | lib/session-manager-mobile.mjs:197-203 | a stored record holding the refresh token, or null exactly when none does |
| MobileSessions.SessionManagerMobile.RemoveToken | lib/session-manager-mobile.mjs:210-219 | the collection and count are `DeleteByRefreshToken`, and the invariant holds |
| MobileSessions.SessionManagerMobile.UpdateDeviceSession | lib/session-manager-mobile.mjs:226-251 | the collection and result are `RefreshDevice`, and the invariant holds |
| MobileSessions.SessionManagerMobile.UpdateDeviceSessionAndGrants | lib/session-manager-mobile.mjs:258-286 | the collection and result are `RefreshDeviceAndGrants`, and the invariant holds |
| MobileSessions.SessionManagerMobile.RemoveApnToken | lib/session-manager-mobile.mjs:292-315 | the collection becomes `StripApn` of the old one, and the invariant holds |
| MobileSessions.SessionManagerMobile.UpdateApnToken | lib/session-manager-mobile.mjs:326-347 | the collection becomes `RegisterApn` of the old one, and the invariant holds |
| MobileSessions.SessionManagerMobile.RemoveGcmToken | lib/session-manager-mobile.mjs:353-367 | the collection becomes `StripGcm` of the old one, and the invariant holds |
| MobileSessions.SessionManagerMobile.UpdateGcmToken | lib/session-manager-mobile.mjs:374-391 | the collection becomes `RegisterGcm` of the old one, and the invariant holds |
| RefreshableMiddleware.GetToken | express-middlewares/refreshable-session-middleware.mjs:39-46 | "" unless the header starts with "Bearer"; the token never contains a space; a missing header throws |
| RefreshableMiddleware.SessionFor | lib/session-manager-mobile.mjs:162-168 | `getSession` rejects the empty token before any lookup |
| RefreshableMiddleware.CheckAuthentication | express-middlewares/refreshable-session-middleware.mjs:62-84 | passes exactly when the token is non-empty and the session is found, with that session and token; otherwise 401, with the challenge exactly for the empty token |
| RefreshableMiddleware.CheckPermission | express-middlewares/refreshable-session-middleware.mjs:91-117 | passes exactly when authentication passes and the grants hold the permission; 403 exactly when authenticated without it; any authentication failure is the same 401 |
| RefreshableMiddleware.CheckFeature | express-middlewares/refreshable-session-middleware.mjs:160-186 | passes exactly when authentication passes and `features[feature]` is true; 403 when the map or the entry is missing or false |
| RefreshableMiddleware.AtLeastOneDecision | express-middlewares/refreshable-session-middleware.mjs:124-153 | passes exactly when the session is found and some listed permission is granted; a missing header or a failed lookup is exactly the 401 with the challenge; a found session holding none of the permissions, an empty list included, is exactly the 403 without it |
| RefreshableMiddleware.CheckAtLeastOnePermission | express-middlewares/refreshable-session-middleware.mjs:124-153 | the `forEach` that raises the `authorized` flag reaches `AtLeastOneDecision` |
| RefreshableMiddleware.StoredSessionPasses | express-middlewares/refreshable-session-middleware.mjs:62-84 | with the mobile manager as the session lookup, a session just stored by `storeNewSession` passes `checkAuthentication` when the request bears its access token, and is handed on with that token |
| RefreshableMiddleware.BearerToken | express-middlewares/refreshable-session-middleware.mjs:41-43 | "Bearer " followed by a space-free token yields that token |
| RefreshableMiddleware.BearerFields | express-middlewares/refreshable-session-middleware.mjs:41-43 | a header that starts with "Bearer" and holds a space yields the text from its first space up to the next space or the end |
| RefreshableMiddleware.BearerDoubleSpace | express-middlewares/refreshable-session-middleware.mjs:41-43 | "Bearer" followed by two spaces yields "", answered by 401 with the challenge |
| RefreshableMiddleware.BearerWithoutSpace | express-middlewares/refreshable-session-middleware.mjs:41-43 | "Bearer" with no space after it yields "", answered by 401 with the challenge |
| Dates.DayDiff | lib/dates.mjs:8-11 | the least whole number of days covering the gap; 0 exactly for equal instants |
| Dates.WeekDiff | lib/dates.mjs:19-21 | the whole weeks in the day difference |
| Dates.MinuteDiff | lib/dates.mjs:157-160 | the least whole number of minutes covering the gap |
| Dates.AddMilliseconds | lib/dates.mjs:69-72 | the result is exactly the offset away |
| Dates.AddSeconds | lib/dates.mjs:80-82 | a shift of 1000 ms per second |
| Dates.AddMinutes | lib/dates.mjs:90-92 | a shift of 60000 ms per minute |
| Dates.AddHours | lib/dates.mjs:100-102 | a shift of 3600000 ms per hour |
| Dates.AddDays | lib/dates.mjs:110-114 | a shift of 86400000 ms per day |
| Dates.AddWeeks | lib/dates.mjs:122-124 | a shift of seven days per week |
| Dates.DayDiffAddDays | lib/dates.mjs:8-11 | in either order, `dayDiff` undoes `addDays` |
| Dates.WeekDiffAddWeeks | lib/dates.mjs:19-21 | `weekDiff` undoes `addWeeks` |
| Dates.DayDiffSymmetric | lib/dates.mjs:8-11 | `dayDiff` ignores argument order |
| Dates.GetDaysInMonth | lib/dates.mjs:168-171 | a value in 28..31 for a month index 0..11, undefined otherwise |
| Dates.LeapYearRule | lib/dates.mjs:169 | the source's test is the Gregorian leap-year rule |
| Dates.DaysIn | lib/dates.mjs:168-171 | the month length, in 28..31 |
| Dates.GetDaysInMonthAgrees | lib/dates.mjs:168-171 | the table lookup equals the month length by cases: February 29 exactly in leap years |
| Dates.AddMonths | lib/dates.mjs:132-139 | moves the month by the count, keeps the day when it exists in the target month and clamps to the month's last day otherwise; time of day kept |
| Dates.AddYears | lib/dates.mjs:147-149 | moves the year and keeps the month; the day changes only from 29 February to 28 in a common year |
| Dates.AddMonthsZero | lib/dates.mjs:132-139 | adding zero months is the identity on a valid date |
| Dates.MonthIndexOrder | lib/dates.mjs:31 | an earlier month is an earlier date, and an earlier date is no later month |
| Dates.BeforeTotal | lib/dates.mjs:31 | the date order is strict and total |
| Dates.MonthDiffAsWritten | lib/dates.mjs:29-41 | `monthDiff` as written; `MonthDiffAsWrittenIsAsymmetric` shows the input where it goes wrong |
| Dates.MonthDiff | lib/dates.mjs:29-41 | the corrected `monthDiff`; `MonthDiffCountsWholeMonths` and `MonthDiffSymmetric` state what it computes |
| Dates.YearDiff | lib/dates.mjs:49-61 | `yearDiff`; `YearDiffCountsWholeYears` states what it computes |
| Dates.MonthDiffFromEarlier | lib/dates.mjs:29-41 | the corrected `monthDiff` counts from the earlier date to the later one |
| Dates.WholeMonthsFrom | lib/dates.mjs:29-41 | the month gap, less one on overshoot, is the largest count of months whose addition stays at or before the later date |
| Dates.MonthDiffCountsWholeMonths | lib/dates.mjs:29-41 | `monthDiff` counts whole months: adding it to the earlier date stays at or before the later one, and one more month passes it |
| Dates.MonthDiffSymmetric | lib/dates.mjs:29-41 | the corrected `monthDiff` ignores argument order |
| Dates.YearDiffCountsWholeYears | lib/dates.mjs:49-61 | `yearDiff` counts whole years in the same sense |
| Dates.MonthDiffAsWrittenIsAsymmetric | lib/dates.mjs:30 | the code as written gives 1 from 15 Dec 2020 to 15 Jan 2021 and 22 the other way round; the corrected one gives 1 |
| Dates.EasterDate | lib/dates.mjs:178-196 | the corrected computus lands between 22 March and 25 April from year 0 on |
| Dates.ComputusBounds | lib/dates.mjs:179-192 | from year 0 on, h + l - 7m + 114 lies in 114..148 |
| Dates.EasterAsWritten | lib/dates.mjs:178-196 | the computus as written, with `+ 7 * m`; `EasterAsWritten1981` shows it gives 2 May 1981 |
| Dates.EasterAsWritten1981 | lib/dates.mjs:191-194 | the code as written puts Easter 1981 on 2 May |
| Dates.Computus1981 | lib/dates.mjs:179-190 | h, l, m for 1981 are 29, 6, 1 |
| Dates.Computus2024 | lib/dates.mjs:179-190 | h, l, m for 2024 are 4, 5, 0 |
| Dates.Easter1981 | lib/dates.mjs:178-196 | the corrected computus puts Easter 1981 on 19 April |
| Dates.Easter2024 | lib/dates.mjs:178-196 | the corrected computus puts Easter 2024 on 31 March |
| Dates.NextDay | lib/dates.mjs:242-243 | `setDate(getDate() + 1)`: the day after inside a month, the first of the next month at a month's end, 1 January of the next year after 31 December; the time of day is kept and no valid date with that time lies strictly between |
| Dates.Easter2024Monday | lib/dates.mjs:242-243 | the Easter Monday label for 2024 is "01/04" |
| Dates.Pad2 | lib/dates.mjs:245 | two-digit zero padding has length two |
| Dates.Pad2Digits | lib/dates.mjs:245 | the padding is the tens digit then the units digit |
| Dates.FixedLabels | lib/dates.mjs:210-239 | at most one label per fixed holiday |
| Dates.FixedLabelsMembers | lib/dates.mjs:210-239 | a label is listed exactly when a fixed holiday with that label is not excluded by name |
| Dates.CollectFixed | lib/dates.mjs:209-239 | the pushed list holds a label exactly when `FixedLabels` does |
| Dates.AppendAdded | lib/dates.mjs:250-252 | the added `Date` objects never equal a label |
| Dates.AddEaster | lib/dates.mjs:241-249 | the list holds the Easter and Easter Monday labels unless PASQUA or PASQUETTA is excluded |
| Dates.FestivityLabels | lib/dates.mjs:206-249 | the year's labels: the fixed holidays not excluded, then Easter and Easter Monday unless excluded; `FixedLabelsMembers` and `AddEaster` state its members |
| Dates.IsItalianFestivity | lib/dates.mjs:206-258 | true exactly when the date's "DD/MM" label is among the festivity labels of its year |
| Dates.FestivityCases | lib/dates.mjs:206-258 | a date is a festivity exactly when it is a fixed holiday not excluded, or Easter or Easter Monday unless excluded |
| Dates.ChristmasLabel | lib/dates.mjs:234-236 | 25 December renders as the NATALE label |
| PgFilters.Placeholder | lib/pg-filter.mjs:24 | the text `$k` begins with `$` and has at least one digit after it |
| PgFilters.Numbered | lib/pg-filter.mjs:22-120 | the consecutive numbers from `first` |
| PgFilters.RenderAppend | lib/pg-filter.mjs:22-120 | rendering and parameter lists distribute over concatenation |
| PgFilters.TextAppend | lib/pg-filter.mjs:22-120 | the text of two piece lists is the two texts |
| PgFilters.ParamsAppend | lib/pg-filter.mjs:22-120 | the placeholders of two piece lists are the two lists |
| PgFilters.AllParamsAppend | lib/pg-filter.mjs:22-120 | adding a condition appends its placeholders |
| PgFilters.ParamListNumbers | lib/pg-filter.mjs:74-99 | the placeholders of an `in` list are numbered consecutively |
| PgFilters.CommaAfterParam | lib/pg-filter.mjs:81 | a placeholder followed by a comma renders as `$k,` |
| PgFilters.NumberedCons | lib/pg-filter.mjs:74-99 | numbering from `first` starts with `first` |
| PgFilters.PlaceholderTexts | lib/pg-filter.mjs:76-80 | the texts `$first`, `$first+1`, ... in order |
| PgFilters.PlaceholderTextsTail | lib/pg-filter.mjs:81 | joining the placeholder texts splits after the first |
| PgFilters.ParamListText | lib/pg-filter.mjs:81 | an `in` list renders as its placeholder texts joined by commas |
| PgFilters.ListCondition | lib/pg-filter.mjs:74-99 | the `in`/`not in` condition renders as the list in parentheses, with consecutive placeholders |
| PgFilters.ParensWrap | lib/pg-filter.mjs:13-120 | every condition is parenthesised |
| PgFilters.OneParam | lib/pg-filter.mjs:22-67 | a one-placeholder condition renders with that one placeholder |
| PgFilters.NumberedAppend | lib/pg-filter.mjs:22-120 | consecutive numberings concatenate |
| PgFilters.RenderLit | lib/pg-filter.mjs:13-43 | a literal condition has no placeholders |
| PgFilters.JoinNonEmpty | lib/pg-filter.mjs:127-146 | joining non-empty conditions gives a non-empty text |
| PgFilters.PlaceholdersNumberReplacements | lib/pg-filter.mjs:22-120 | the k-th placeholder written is `$k` and stands for the k-th replacement |
| PgFilters.PushKeepsNumbering | lib/pg-filter.mjs:22-120 | appending a parenthesised condition whose placeholders continue the numbering keeps every condition rendered and wrapped, and the placeholders $1, $2, ... one per replacement |
| PgFilters.OneParamCondition | lib/pg-filter.mjs:22-120 | `before$k)` renders with the one placeholder k and is wrapped |
| PgFilters.PgFilter.constructor | lib/pg-filter.mjs:2-7 | no conditions, no replacements |
| PgFilters.PgFilter.Push | lib/pg-filter.mjs:22-120 | appending a parenthesised condition whose placeholders continue the numbering keeps the numbering invariant |
| PgFilters.PgFilter.PushOne | lib/pg-filter.mjs:22-67 | appends a condition with the next placeholder and its one value |
| PgFilters.PgFilter.AddCondition | lib/pg-filter.mjs:13-15 | wraps the condition in parentheses; replacements unchanged |
| PgFilters.PgFilter.AddEqual | lib/pg-filter.mjs:22-29 | `(f=$k)` with the value as replacement k, or `(f is null)` and no replacement for null or undefined |
| PgFilters.PgFilter.AddNotEqual | lib/pg-filter.mjs:36-43 | `(f<>$k)` with the value, or `(f is not null)` and no replacement |
| PgFilters.PgFilter.AddGreaterThan | lib/pg-filter.mjs:51-55 | `>=` exactly when `orEqual`, else `>`; always one replacement |
| PgFilters.PgFilter.AddLessThan | lib/pg-filter.mjs:63-67 | `<=` exactly when `orEqual`, else `<`; always one replacement |
| PgFilters.PgFilter.AddList | lib/pg-filter.mjs:74-99 | a no-op on an empty list; otherwise one placeholder per value, comma-joined in order, and the values appended in order |
| PgFilters.PgFilter.AddIn | lib/pg-filter.mjs:74-83 | `(f in ($k,...))` with the values appended, or nothing for an empty list |
| PgFilters.PgFilter.AddNotIn | lib/pg-filter.mjs:90-99 | `(f not in ($k,...))` with the values appended, or nothing for an empty list |
| PgFilters.PgFilter.AddLike | lib/pg-filter.mjs:101-120 | `(f iLike $k)` with the pattern as replacement k |
| PgFilters.PgFilter.AddSearchInString | lib/pg-filter.mjs:101-106 | nothing for null or undefined; otherwise the pattern `%v%` |
| PgFilters.PgFilter.AddStartsWithString | lib/pg-filter.mjs:108-113 | nothing for null or undefined; otherwise the pattern `v%` |
| PgFilters.PgFilter.AddEndWithString | lib/pg-filter.mjs:115-120 | nothing for null or undefined; otherwise the pattern `%v` |
| PgFilters.PgFilter.GetWhere | lib/pg-filter.mjs:127-133 | "" exactly when there are no conditions; otherwise the optional "WHERE " and the conditions joined by " AND " |
| PgFilters.PgFilter.GetWhereUsingOR | lib/pg-filter.mjs:140-146 | the same with " OR "; one condition gives the same text as `getWhere` |
| PgFilters.PgFilter.Joined | lib/pg-filter.mjs:127-146 | "" exactly when there are no conditions |
| Validation.Trim | lib/validator.mjs:28 | `trim` keeps a part of the text that neither starts nor ends with whitespace |
| Validation.TrimStart | lib/validator.mjs:28 | a suffix that does not start with whitespace |
| Validation.TrimEnd | lib/validator.mjs:28 | a prefix that does not end with whitespace |
| Validation.TrimEmpty | lib/validator.mjs:28 | trimming gives "" exactly for whitespace-only text |
| Validation.TrimStartEmpty | lib/validator.mjs:28 | trimming the front gives "" exactly for whitespace-only text |
| Validation.TrimEndKeepsFirst | lib/validator.mjs:28 | trimming the end keeps a non-whitespace first character |
| Validation.RequiredStringCheck | lib/validator.mjs:26-32 | fails exactly for null, undefined or whitespace-only strings, with "`field` obbligatorio"; other non-strings pass |
| Validation.KindCheck | lib/validator.mjs:40-83 | absent and required gives "obbligatorio", absent and optional passes, present of the wrong kind gives the kind's message |
| Validation.RequiredStringBlank | lib/validator.mjs:26-32 | a string fails exactly when it is all whitespace |
| Validation.CustomCheck | lib/validator.mjs:90-95 | fails with the given message exactly when not valid |
| Validation.Messages | lib/validator.mjs:26-95 | a check adds at most one message |
| Validation.Run | lib/validator.mjs:14-102 | a run of checks succeeds exactly when every check passes, exactly when no message was added |
| Validation.RunStep | lib/validator.mjs:26-95 | one more check extends the run by its outcome |
| Validation.EmailAccepted | lib/validator.mjs:79 | "a.b@c-d.it" is an email address |
| Validation.EmailFromParts | lib/validator.mjs:79 | allowed local characters, "@" and a domain make an address |
| Validation.LocalAccepted | lib/validator.mjs:79 | "a.b" uses only local-part characters |
| Validation.DomainAccepted | lib/validator.mjs:79 | "c-d.it" is a domain |
| Validation.EmailRejected | lib/validator.mjs:79 | an address with an empty local part is rejected |
| Validation.Validator.constructor | lib/validator.mjs:14-19 | success true, no messages |
| Validation.Validator.Record | lib/validator.mjs:26-95 | success only ever turns false, and a failing check appends exactly its message |
| Validation.Validator.ValidateRequiredString | lib/validator.mjs:26-32 | records `RequiredStringCheck` |
| Validation.Validator.ValidateNumber | lib/validator.mjs:40-49 | records the number check, with "deve esssere numerico" for non-finite or non-number values |
| Validation.Validator.ValidateBoolean | lib/validator.mjs:57-66 | records the boolean check, with "deve esssere un booleano" |
| Validation.Validator.ValidateEmail | lib/validator.mjs:74-83 | records the email check, with "non è una mail valida" |
| Validation.Validator.CustomValidation | lib/validator.mjs:90-95 | appends the message exactly when not valid |
| Validation.Validator.Validate | lib/validator.mjs:97-102 | the message is the success message exactly when successful, and the result is the accumulated state |
| Validation.RecordAll | lib/validator.mjs:14-102 | recording checks from a fresh validator gives `Run` |
| PgClient.ReturnFirst | lib/pg-client-manager.mjs:133-137 | the first row, or null exactly when there are no rows |
| PgClient.Names | lib/pg-client-manager.mjs:155-156 | the column names in the item's key order |
| PgClient.Values | lib/pg-client-manager.mjs:155-157 | the values in the same order |
| PgClient.Placeholders | lib/pg-client-manager.mjs:154-159 | `$1` to `$n` in order |
| PgClient.InsertQuery | lib/pg-client-manager.mjs:149-161 | the statement lists the columns in key order and `$1..$n`, with the values in the same order as replacements |
| PgClient.Insert | lib/pg-client-manager.mjs:149-167 | runs `insert into <table> (<names joined by ",">) values ($1,...,$n) returning *` with the item's values in order, and returns the first row it yields, or null |
| PgClient.EntrySlots | lib/pg-client-manager.mjs:184-193 | a key in both lists gets a SET and then a WHERE placeholder, with its value twice |
| PgClient.Slots | lib/pg-client-manager.mjs:183-194 | the placeholders in key order with one shared counter; `SlotsStep` and `AssignmentsPartition` state what it holds |
| PgClient.Assignments | lib/pg-client-manager.mjs:183-194 | the `name=$k` texts of SET or WHERE; `AssignmentsAppend` and `SetsEmpty` state what it holds |
| PgClient.SlotValues | lib/pg-client-manager.mjs:186-191 | the values in placeholder order |
| PgClient.AssignmentsAppend | lib/pg-client-manager.mjs:183-194 | one more placeholder extends the SET or the WHERE list by `name=$k` |
| PgClient.SlotValuesAppend | lib/pg-client-manager.mjs:186-191 | one more placeholder extends the values by its value |
| PgClient.SlotsStep | lib/pg-client-manager.mjs:183-194 | the placeholders follow the item's key order |
| PgClient.AssignmentsPartition | lib/pg-client-manager.mjs:183-194 | every placeholder is in exactly one of SET and WHERE |
| PgClient.SetsEmpty | lib/pg-client-manager.mjs:183-196 | the SET list is empty exactly when no key is in `fieldsToUpdate` |
| PgClient.EntrySetsEmpty | lib/pg-client-manager.mjs:184-188 | one more key leaves the SET list empty exactly when it is not in `fieldsToUpdate` |
| PgClient.PushSlot | lib/pg-client-manager.mjs:184-193 | one push numbers the text one past the values so far |
| PgClient.CollectAssignments | lib/pg-client-manager.mjs:179-194 | the loop builds the SET texts, the WHERE texts and the values with one shared counter |
| PgClient.UpdateSql | lib/pg-client-manager.mjs:196-198 | the statement text: SET joined by ",", WHERE joined by " AND " only when there is a key; used by `UpdateByKeyQuery` |
| PgClient.UpdateByKeyQuery | lib/pg-client-manager.mjs:177-206 | no statement without SET fields; otherwise SET joined by ",", and WHERE joined by " AND " only when there is a key |
| PgClient.UpdateByKeyCounts | lib/pg-client-manager.mjs:177-200 | the values match the placeholders one to one, and a statement is issued exactly when some key is in `fieldsToUpdate` |
| Emails.Basename | lib/email-sender.mjs:128 | the base name contains no separator |
| Emails.TrimSlashes | lib/email-sender.mjs:128 | a prefix of the path without trailing separators |
| Emails.LastComponent | lib/email-sender.mjs:128 | the last component contains no separator |
| Emails.LastComponentIsSuffix | lib/email-sender.mjs:128 | the last component ends the path and follows a separator |
| Emails.BasenameOfPath | lib/email-sender.mjs:128 | the base name of "dir/name" is "name" |
| Emails.LastComponentAfterSlash | lib/email-sender.mjs:128 | the text after the last separator is the name |
| Emails.Email.constructor | lib/email-sender.mjs:89-97 | sender, subject and body set; all lists empty |
| Emails.Email.AddTo | lib/email-sender.mjs:103-105 | appends to `to` only |
| Emails.Email.AddCC | lib/email-sender.mjs:111-113 | appends to `cc` only |
| Emails.Email.AddBCC | lib/email-sender.mjs:119-121 | appends to `bcc` only |
| Emails.Email.AddAttachment | lib/email-sender.mjs:127-133 | appends the base name and path, with no `cid` |
| Emails.Email.AddInlineAttachment | lib/email-sender.mjs:139-146 | appends the base name and path with the given `cid` |
| Emails.Email.ToMailOptions | lib/email-sender.mjs:151-166 | fails exactly when `to`, `cc` and `bcc` are all empty; otherwise copies sender, subject and body, and each list only when non-empty, in order |
| Emails.BuildExample | lib/email-sender.mjs:89-166 | one recipient and one attachment appear in the options, in order, with no `cc` or `bcc` |
| Emails.AttachmentsAreNoRecipients | lib/email-sender.mjs:152-154 | attachments alone do not make a recipient |
| Strings.Scan | lib/strings.mjs:21 | each flag says whether the text has a digit, a lower-case, an upper-case or a special character |
| Strings.ValidatePassword | lib/strings.mjs:14-22 | false for null or empty input and below eight characters; otherwise true exactly when there is a digit, a lower-case letter, an upper-case letter and a character outside [A-Za-z0-9] |
| Strings.UnderscoreIsSpecial | lib/strings.mjs:21 | "Passw0rd_" is accepted because `_` counts as special, and "Passw0rdX" is rejected |
| Utils.SizeOf | lib/utils.mjs:9-34 | 0 for null or undefined, 8 for a number, 4 for a boolean, two per unit of a string, 0 for a plain object or array, two per unit of `toString()` for any other object |
| Utils.SizeOfBelowDeep | lib/utils.mjs:9-34 | the code as written never exceeds the deep count and agrees with it except on plain objects and arrays |
| Utils.SizeOfDeep | lib/utils.mjs:9-34 | `sizeOf` with each nested size added, the intended half of the finding; `SizeOfBelowDeep`, `ItemBelowArray` and `ArrayOfNumbers` state what it computes |
| Utils.ItemBelowArray | lib/utils.mjs:25-28 | in the deep count each element counts towards its array |
| Utils.SumItemsBound | lib/utils.mjs:25-28 | each element's deep size is at most the sum over the elements |
| Utils.ArrayOfNumbers | lib/utils.mjs:22-28 | the array [1, 2] weighs 0 as written and 16 in the deep count |

## Left out

- Redis and MongoDB clients, connections and `end` are left out, because they are I/O; the stores are maps and a sequence.
- Redis `EX` expiry is left out: the TTL is recorded with the secret but entries never vanish; `IssueThenLookup` assumes the entry is still there.
- The JWT expiry check is left out: `Jwt.Verify` checks the signing key only, because expiry depends on the clock inside the library.
- `__signToken` and `__verifyToken` in lib/session-manager.mjs (lines 93-95 and 116-118) compare `new Promise()` with `string` instead of constructing a promise, which throws; they are modelled as a working sign and verify.
- Every operation is sequential: the non-atomic revoke-then-issue of `refreshToken` and the strip-then-set of push-token registration are not modelled as interleaving.
- Sessions.SessionManager.UpdateUserGrants: the loop stops at the first failure and reports it, as the code does with its rethrow; it does not continue past failures.
- A failing Redis or MongoDB call is not modelled; only the failures decided by the code itself are (empty token, unknown token, undecodable token).
- `updateDeviceSessionAndGrants` changes the caller's record in place; the model returns the changed record instead, so aliasing with other holders of that record is not captured.
- `refresh_count || 0` is modelled as a count that is always present.
- express-middlewares/session-middleware.mjs and `netheserverAuthentication` are not part of this model: the former refers to undefined names, the latter runs SQL and a remote login.
- `updateResponseToken` only sets a response header and is not modelled.
- Dates: a date is a civil date (year, month index, day) plus a time of day in milliseconds, or an instant in milliseconds; local time zones and daylight-saving shifts are left out.
- Dates: `new Date(y, ...)` with a year below 100 is not modelled; `EasterDate` is proved in range only from year 0 on.
- Dates: `Utils.String.numberFormat` is not imported by lib/dates.mjs, so `isItalianFestivity` would throw; it is modelled as two-digit zero padding, its evident intent.
- Dates.AppendAdded: the `added` entries are `Date` objects pushed into a list of strings, so they never match a label; the model records them as entries that are never labels.
- Dates: fractional milliseconds, hours and days are left out; offsets are integers.
- PgFilters: the string-search adders take a string or null; other value types for the search value are not modelled.
- PgClient: running the statement is the `execute` parameter; pool, transactions and logging are I/O.
- Validation: `_.isFinite` is the `IsFiniteNumber` predicate on the value type; the email regular expression is written out as `IsEmailAddress`.
- Emails: attachments record the file path, not the read stream; sending is I/O.
- Strings.ValidatePassword and Utils.SizeOf: JavaScript measures strings in UTF-16 code units, the model in Unicode scalar values; both agree on text in the Basic Multilingual Plane.
- Utils.SizeOf: `toString()` of an object other than a plain object or array is its `text` field, not computed.
- Utils.SizeOf: `sizeOf` on a cyclic array or object recurses until the stack overflows with a `RangeError`; `JsValue` is a finite tree and cannot express cycles.
- Dates.IsItalianFestivity: it is built on the corrected `EasterDate`, not on the computus as written, so it reports 19 April 1981 as Easter where the code reports 2 May; `EasterAsWritten` records the code as written.
- MobileSessions.SessionManagerMobile.Valid: unique refresh tokens and own-signed access tokens are not part of the class invariant, because they hold only if the random secret is fresh and if `updateDeviceSessionAndGrants` gets a record read from the collection, which nothing in the code enforces; `OwnSigning` is proved kept by each operation under those conditions instead.
- MobileSessions.RefreshDevice and MobileSessions.RefreshDeviceAndGrants: the code reads the clock separately for `last_seen` and `refreshed`; the model uses one reading `now` for both.
- Sessions.Lookup: `jwt.verify` adds `iat` and `exp` to the payload `get` returns; the model yields the signed claims alone.
- Validation.Validator.Validate: the code returns its live `__result` object, so later checks change a result the caller already holds; the model returns a copy of the state.

## Findings

| source | as written | input that shows it | evidently intended | confidence | as-written member | corrected member |
|---|---|---|---|---|---|---|
| lib/dates.mjs:191 | `n0 = h + l + 7 * m + 114` | year 1981 gives month index 4, day 2 (2 May) | `h + l - 7 * m + 114`, the anonymous Gregorian computus: 19 April 1981 | not executed | Dates.EasterAsWritten, Dates.EasterAsWritten1981 | Dates.EasterDate, Dates.Easter1981, Dates.ComputusBounds |
| lib/dates.mjs:30 | the raw gap uses the absolute year difference whatever the order | `monthDiff(15 Jan 2021, 15 Dec 2020)` gives 22 | 1, the count of whole months between the two dates in either order | not executed | Dates.MonthDiffAsWritten, Dates.MonthDiffAsWrittenIsAsymmetric | Dates.MonthDiff, Dates.MonthDiffCountsWholeMonths, Dates.MonthDiffSymmetric |
| lib/utils.mjs:27 | the recursive `sizeOf` result is discarded | `sizeOf([1, 2])` gives 0 | 16, the sum of the elements' sizes | not executed | Utils.SizeOf, Utils.ArrayOfNumbers | Utils.SizeOfDeep, Utils.ItemBelowArray |
