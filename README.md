# Teslemetry for Homey — a verified model of the adapter core

The Teslemetry app links a Homey home-automation hub to Tesla vehicles and
energy products through the Teslemetry cloud service. This project models the
parts of the app that decide things:

- The OAuth2 token manager. It builds the authorization URL and the PKCE pair.
  It exchanges an authorization code and refreshes the token, sharing one
  request among concurrent callers. It saves the token with its defaults, and
  it hands out an access token, refreshing it a minute before expiry.
- The app lifecycle. This covers initializing the Teslemetry client only when
  a valid token exists, reinitializing after a new token is saved, the lazy
  `getTeslemetry` and `getProducts`, and `isConfigured`.
- The base device:
  - the `update` guard, which writes only to supported capabilities and skips
    undefined values;
  - `handleApiError`, which marks a device unavailable on 401/402 and always
    rethrows.
- The energy-site device:
  - the capability set its components call for (`getCapabilities`);
  - the reconciliation of the device's capability list with that set;
  - the values its live-status and site-info handlers derive;
  - the commands its capability listeners send.
- The battery, solar, gateway, Powerwall, wall-connector and vehicle devices.
  The model covers how each converts its readings, sums its history series
  and handles its listeners.
- The pairing listings of all seven drivers.

The model keeps the program's shape:
- State the program changes in place becomes a Dafny `class` with `modifies`
  clauses. This covers the token manager, the app, and a device's capability
  list and values.
- The loops of the program become methods with `while` loops, proved against
  functions of their inputs: the capability additions, the reconciliation
  loops and the history sums.
- Pure derivations become functions, each with lemmas about it.
- Awaited calls into the Teslemetry SDK, the platform and `fetch` are split.
  The request is one method; the answer arrives as a parameter of a second
  method that settles it.

Three disagreements inside the program are proved as lemmas:
- The energy-site and battery grid listeners send the "disallow charging from
  grid" flag with opposite polarity (`SiteValues.GridChargingSignDiverges`).
- The capability groups the energy-site driver reports at pairing are not the
  groups its device reconciles against
  (`EnergySiteDriver.GroupTablesDiverge`).
- The Powerwall's `grid_status` has the opposite polarity of the gateway's
  off-grid alarm (`PowerwallDevice.GridStatusOppositeOfAlarm`).

Three of the devices disagree on the unit of their history meters. The
gateway, solar and wall-connector handlers divide their totals by 1000. The
battery handler writes its totals unscaled
(`BatteryDevice.MetersScaleDiverge`).

Some behaviour of the code that the model keeps:
- `initializeTeslemetry` returns when a client is held, without checking the
  catalog (`app.ts:62`).
- The model keeps the insertion order of the `Set` that `getCapabilities`
  builds.
- Pairing entries of energy sites carry whole group arrays
  (`drivers/energy-site/driver.ts:54-69`), one per selected table, not the
  capability names in them.

## Model

| member | source | states |
|---|---|---|
| OAuth.AccessStepFollowsMargin | lib/TeslemetryOAuth2Client.ts:174-186 | without a token the call fails; a token with no usable expiry, or one expiring no earlier than 60000 ms from now, is handed out as is; a refresh happens exactly when the expiry is less than 60000 ms away |
| OAuth.TokenWithoutExpiryIsNeverRefreshedNorValid | lib/TeslemetryOAuth2Client.ts:174-194 | a token without a usable `expires_at` is handed out without a refresh, yet `hasValidToken` never holds for it |
| OAuth.WithExpiry | lib/TeslemetryOAuth2Client.ts:48-52 | the save patch changes only `expires_at`, and keeps a token whose `expires_at` is truthy as it is |
| OAuth.SavedTokenFields | lib/TeslemetryOAuth2Client.ts:154-166 | a successful answer is saved with its access and refresh tokens, `expires_in` defaulting to 3600, `token_type` to "Bearer", and `expires_at` computed from the lifetime |
| OAuth.SavedTokenValidity | lib/TeslemetryOAuth2Client.ts:158-166 | a token saved with a positive lifetime of e seconds is valid exactly during the next e*1000 ms |
| OAuth.ZeroLifetimeSavedExpired | lib/TeslemetryOAuth2Client.ts:158-166 | an answer with `expires_in: 0` is saved with 3600 s in its record, yet its `expires_at` is "now", so it is saved already expired |
| OAuth.ParamNamesDistinct | lib/TeslemetryOAuth2Client.ts:78-85 | the authorization query sends no parameter name twice |
| OAuth.AuthorizationUrl | lib/TeslemetryOAuth2Client.ts:77-88 | the URL is the authorize endpoint followed by the six parameters in order, each with its value: response type "code", client id, redirect URI, state, challenge and method "S256" |
| OAuth.GeneratePkce | lib/TeslemetryOAuth2Client.ts:61-75 | the verifier has 43 characters and decodes back to the 32 random bytes; the verifier and the challenge use only the URL-safe alphabet |
| OAuth.TokenManager.constructor | lib/TeslemetryOAuth2Client.ts:23-27 | a new manager holds the persisted token, with no request in flight, none sent and none saved |
| OAuth.TokenManager.LoadToken | lib/TeslemetryOAuth2Client.ts:39-46 | a persisted token replaces the held one; without one nothing changes |
| OAuth.TokenManager.SaveToken | lib/TeslemetryOAuth2Client.ts:48-56 | the patched token is held, persisted and announced once, and nothing else changes |
| OAuth.TokenManager.ClearToken | lib/TeslemetryOAuth2Client.ts:196-200 | the token is dropped from memory and from the settings, and nothing else changes |
| OAuth.TokenManager.RequestToken | lib/TeslemetryOAuth2Client.ts:125-130 | a caller joins the request in flight, or it sends its own and occupies the slot; the token is not touched |
| OAuth.TokenManager.Settle | lib/TeslemetryOAuth2Client.ts:132-168 | an error answer fails, and clears the credentials exactly for `invalid_refresh_token`; an ok answer without an access token fails with nothing saved; otherwise the token is saved and returned; the slot is always freed |
| OAuth.TokenManager.ExchangeCodeForToken | lib/TeslemetryOAuth2Client.ts:90-104 | the authorization-code grant is requested with the code, verifier, redirect URI and name, unless a request is already in flight |
| OAuth.TokenManager.RefreshToken | lib/TeslemetryOAuth2Client.ts:109-120 | without a refresh token it fails with no request and no change; otherwise the refresh grant for that token is requested or joined |
| OAuth.TokenManager.GetAccessToken | lib/TeslemetryOAuth2Client.ts:174-186 | no token fails; a token not yet due is returned with no change; a due token without a refresh token fails; otherwise one refresh (shared with a request in flight) decides the result, and the token is then saved and held, cleared on `invalid_refresh_token`, or kept |
| OAuth.SingleFlight | lib/TeslemetryOAuth2Client.ts:125-130 | two callers that need a request while none is in flight send one request between them, and the slot is free after its answer |
| OAuth.RevokedRefreshClears | lib/TeslemetryOAuth2Client.ts:144-147 | after an `invalid_refresh_token` answer no token is held or persisted, and none is valid |
| OAuth.ExchangeThenAccess | lib/TeslemetryOAuth2Client.ts:90-186 | an exchanged code answered with a one-hour token sends one authorization-code request and saves that token, which is then valid and handed out with no refresh request |
| Base64.ToUrlSafeRewritesAlphabet | lib/TeslemetryOAuth2Client.ts:72-74 | rewriting standard-alphabet characters followed by '=' padding gives the same sextets in the URL-safe alphabet with the padding dropped ('+' becomes '-', '/' becomes '_') |
| Base64.Base64UrlEncodeIsUnpaddedUrlAlphabet | lib/TeslemetryOAuth2Client.ts:69-75 | rewriting the padded standard Base64 gives the unpadded URL-safe encoding of section 5 of RFC 4648 |
| Base64.Base64UrlEncodeIsUrlSafe | lib/TeslemetryOAuth2Client.ts:69-75 | every output character is in the URL-safe alphabet, none is '+', '/' or '=', and the length is ceil(4n/3) |
| Base64.Base64UrlRoundTrip | lib/TeslemetryOAuth2Client.ts:69-75 | URL-safe decoding of the output gives the input bytes back |
| App.TeslemetryApp.constructor | app.ts:8-11 | a new app holds no client, no catalog and no reinitialization |
| App.TeslemetryApp.BeginInitialize | app.ts:55-68 | without a valid token, or with a client held, nothing changes; otherwise a fresh client is held and its catalog requested |
| App.TeslemetryApp.CompleteInitialize | app.ts:69-82 | the awaited catalog is kept; a failed fetch clears both the client and the catalog |
| App.TeslemetryApp.InitializeTeslemetry | app.ts:55-83 | the two steps together: a client and a catalog exactly when the fetch succeeds, with no change when skipped |
| App.TeslemetryApp.BeginReinitialize | app.ts:94-104 | the slot is taken, the held client's stream is closed, both fields are cleared, and initialization begins |
| App.TeslemetryApp.FinishReinitialize | app.ts:104-109 | the started fetch settles, and the reinitialization slot is freed |
| App.TeslemetryApp.Reinitialize | app.ts:88-113 | an earlier reinitialization in flight is awaited first; then the old client is closed and replaced, and the slot ends free |
| App.TeslemetryApp.GetTeslemetry | app.ts:118-123 | initialization runs only when no client is held, and the held client is returned |
| App.TeslemetryApp.GetProducts | app.ts:128-133 | initialization runs only when no catalog is held; while the first fetch is pending the result is none |
| App.InitializeThenConfigured | app.ts:138-140 | after a successful initialization the app is configured exactly while its token stays valid; after a failed one it is not configured |
| App.ReinitializeReplacesClient | app.ts:96-104 | reinitializing while a client is held closes that client's stream and ends with a different client |
| App.ProductsDuringFetch | app.ts:128-133 | while the first catalog fetch is pending, `getProducts` yields nothing and builds no second client |
| Capabilities.GetCapabilities | drivers/energy-site/capabilities.ts:29-57 | the list is the insertion-ordered union of the groups of the set flags; the class is "battery" with a battery, else "solar" with solar, else unset |
| Capabilities.AddEach | drivers/energy-site/capabilities.ts:37 | adding a group to the set appends, in order, exactly its members not yet present |
| Capabilities.AddGroupIf | drivers/energy-site/capabilities.ts:35-38 | a group is added exactly when its flag is set |
| Capabilities.DesiredInTurn | drivers/energy-site/capabilities.ts:35-56 | the union of the selected groups is what the six guarded additions build, in source order |
| Capabilities.DesiredNoDup | drivers/energy-site/capabilities.ts:33-56 | the returned list has no duplicates |
| Capabilities.DesiredMembers | drivers/energy-site/capabilities.ts:35-54 | a capability is returned exactly when it is in the group of a set flag |
| Capabilities.NoComponentsNoCapabilities | drivers/energy-site/capabilities.ts:32-56 | with no flag set the list is empty |
| Capabilities.AllowExportOnce | drivers/energy-site/capabilities.ts:3-56 | with solar and battery both set, the shared `allow_export` appears exactly once |
| Capabilities.MoreFlagsMoreCapabilities | drivers/energy-site/capabilities.ts:35-54 | setting more flags never removes a capability |
| Capabilities.SolarOnly | drivers/energy-site/capabilities.ts:12-38 | a solar-only site exposes exactly the solar group, in its order |
| EnergySiteDevice.LiveStatusUpdates | drivers/energy-site/device.ts:37-56 | a missing response makes no update |
| EnergySiteDevice.LiveStatusEffect | drivers/energy-site/device.ts:37-56 | each of the eight capabilities ends with its reported or mapped value where the write is made, and as it was where the value is missing, the capability unsupported or the write rejected; a reported battery power is shown negated |
| EnergySiteDevice.UnmappedStatusKeepsAlarm | drivers/energy-site/device.ts:37-56 | an unmapped grid or island status leaves the previous alarm in place |
| EnergySiteDevice.ReconciledIsDesired | drivers/energy-site/device.ts:63-80 | after reconciliation the device has exactly the desired capabilities, and no duplicates when it had none |
| EnergySiteDevice.ReconcileIdempotent | drivers/energy-site/device.ts:67-80 | once the device has exactly the desired capabilities, reconciling again makes no calls |
| EnergySiteDevice.SecondRunMakesNoCalls | drivers/energy-site/device.ts:63-80 | a second reconciliation with the same components makes no calls |
| EnergySiteDevice.PresentAndDesiredUntouched | drivers/energy-site/device.ts:67-80 | a capability that is both present and desired is neither added nor removed |
| EnergySiteDevice.StaleOnlyRemoved | drivers/energy-site/device.ts:63-80 | a device holding the desired capabilities and one stale one loses only that one, with a single remove call |
| EnergySiteDevice.AddIfMissing | drivers/energy-site/device.ts:68-71 | a capability is added, with one add call, exactly when the snapshot lacks it |
| EnergySiteDevice.AddMissing | drivers/energy-site/device.ts:67-72 | the add loop appends the desired capabilities missing from the snapshot and calls add for exactly those |
| EnergySiteDevice.RemoveIfUndesired | drivers/energy-site/device.ts:76-79 | a capability is removed, with one remove call, exactly when it is not desired |
| EnergySiteDevice.RemoveUndesired | drivers/energy-site/device.ts:75-80 | the remove loop over the snapshot removes exactly its undesired capabilities |
| EnergySiteDevice.Reconcile | drivers/energy-site/device.ts:63-80 | the two loops leave the reconciled list and make the add calls, then the remove calls |
| EnergySiteDevice.SiteInfo | drivers/energy-site/device.ts:58-103 | without a response nothing changes; without components the handler throws before any change; otherwise the list is reconciled and the settings updates are made |
| EnergySiteDevice.SiteInfoAligns | drivers/energy-site/device.ts:58-103 | after the handler the device exposes exactly the capabilities its components call for, and every write goes to one of them |
| EnergySiteDevice.SolarOnlyRemovesStale | drivers/energy-site/device.ts:58-80 | a solar-only site whose device holds the solar group and one stale capability loses only that one |
| SiteValues.GridStatusAlarmCases | drivers/energy-site/device.ts:5-8 | the off-grid alarm is raised for "Inactive", cleared for "Active", and left unset for every other status |
| SiteValues.IslandStatusAlarmCases | drivers/energy-site/device.ts:10-14 | both off-grid island states raise the alarm, "on_grid" clears it, and other values leave it unset |
| SiteValues.NegatedPower | drivers/energy-site/device.ts:45 | a missing power stays missing; a reported one is shown with the opposite sign |
| SiteValues.NegatedPowerFlipsSign | drivers/energy-site/device.ts:42-46 | a charging battery (negative power) shows positive and back, and negating twice gives the reading back |
| SiteValues.ReserveFraction | drivers/energy-site/device.ts:84-89 | a missing percentage stays missing; a reported one is shown as the fraction whose hundredfold it is |
| SiteValues.Round | drivers/energy-site/device.ts:145 | the result is the integer nearest to the input, halves going up |
| SiteValues.ExportSettingCases | drivers/energy-site/device.ts:91-97 | the export rule wins unless it is null or undefined, in which case the non-export setting decides; the result is always "never" or "battery_ok" |
| SiteValues.ChargeFromGridCases | drivers/energy-site/device.ts:98-102 | charging from the grid is shown as the negated disallow flag, and as allowed when that flag is missing |
| SiteValues.BackupReserveRoundTrip | drivers/energy-site/device.ts:140-147 | the reserve shown for a whole-number percentage is sent back as that same percentage |
| SiteValues.GridChargingSignDiverges | drivers/energy-site/device.ts:149-167 | the two grid listeners disagree on the flag: changing the export rule sends the shown charging value as "disallow", while re-sending that charging value sends its negation (the battery listeners at drivers/battery/device.ts:100-118 are the same) |
| SiteValues.GridChargingRoundTrip | drivers/energy-site/device.ts:149-167 | after the site-info handler, the charging listener sends back the disallow flag the site reported, while the export listener sends its negation |
| SiteValues.ListenerDispatch | drivers/energy-site/device.ts:140-171 | the five listeners send a rounded percentage of the reserve value, the export rule with the current charging value, the mode, the negated charging value with the current export rule, and the storm-watch value; no other capability sends a command (the battery listeners at drivers/battery/device.ts:90-121 are the same) |
| SiteValues.GridListenersDiverge | drivers/energy-site/device.ts:149-167 | what the two grid listeners send disagrees: with charging showing b, a new export rule is sent with "disallow" b, and re-sending b on the charging capability sends "disallow" !b |
| SiteValues.ReserveListenerRoundTrip | drivers/energy-site/device.ts:84-147 | the reserve a site reports as a whole-number percentage, once shown as a fraction, is sent back by its listener as that same percentage |
| Device.OnlyUndefinedIsSkipped | lib/TeslemetryDevice.ts:21-29 | only `undefined` is skipped; null, false, 0 and "" are written; a throwing value function ends that call before any write |
| Device.WritesAreGuarded | lib/TeslemetryDevice.ts:14-30 | every write goes to a supported capability with a defined value, and each update makes at most one |
| Device.StoreKeepsUntouched | lib/TeslemetryDevice.ts:14-30 | a capability that no update names, that the device lacks, or whose writes are rejected keeps its value |
| Device.StoreLastWriteWins | lib/TeslemetryDevice.ts:29 | the last accepted write to a capability decides its value |
| Device.StoreSoleUpdate | lib/TeslemetryDevice.ts:14-30 | when only one update names a capability, the handler leaves it as that one update would |
| Device.ClassifyCases | lib/TeslemetryDevice.ts:32-53 | 401 and 402 mark the device unavailable with their fixed messages; another status with a translation rethrows the translation; anything else rethrows the error |
| Device.TeslemetryDevice.Update | lib/TeslemetryDevice.ts:14-30 | a supported capability with a defined value that the platform accepts is written; otherwise, including when the value function throws, nothing changes, and a rejected write never reaches the caller |
| Device.TeslemetryDevice.ApplyAll | lib/TeslemetryDevice.ts:14-30 | the updates of one handler leave the values their sequence of guarded writes gives |
| Device.TeslemetryDevice.AddCapability | drivers/energy-site/device.ts:70 | the capability is appended unless already listed, the call is recorded, and the values are unchanged |
| Device.TeslemetryDevice.RemoveCapability | drivers/energy-site/device.ts:78 | every occurrence of the capability leaves the list, the call is recorded, and the values are unchanged |
| Device.TeslemetryDevice.HandleApiError | lib/TeslemetryDevice.ts:32-53 | it always throws; exactly for 401 and 402 it first marks the device unavailable with the thrown message |
| Device.UpdatesAreIsolated | lib/TeslemetryDevice.ts:14-30 | a handler's updates leave every capability that no update names, and every rejected write, as they were |
| Device.ThrowIsIsolated | lib/TeslemetryDevice.ts:14-30 | an update whose value function throws rejects only that call: the handler's other updates store and write exactly what they would without it |
| Catalog.Find | drivers/energy-site/device.ts:22 | the record found is in the catalog and has the key asked for, and none is found exactly when no record has that key (a site by id here, a vehicle by VIN at drivers/wall-connector/device.ts:91) |
| Catalog.SiteOf | drivers/wall-connector/device.ts:16-17 | a device binds to a site exactly when a catalog is loaded that holds its id |
| Catalog.VehicleOf | drivers/vehicle/device.ts:11-12 | a vehicle device binds to a vehicle exactly when a catalog is loaded that holds its VIN |
| History.NullAndZeroStartAgree | drivers/battery/device.ts:66-82 | a total begun at null and one begun at 0 agree when some reading is present; with none, they give null and 0 |
| History.NullStartIsSumOfReadings | drivers/solar/device.ts:32-42 | the null-start loop gives null exactly when no event carries the reading, and otherwise the sum of the readings present |
| History.ZeroStartIsSumOfReadings | drivers/battery/device.ts:66-82 | the zero-start loop gives the sum of the readings present, and 0 when none is |
| BatteryDevice.LiveStatusEffect | drivers/battery/device.ts:25-35 | the battery power becomes the negated reported power where one is reported and the write is accepted, and is otherwise left as it was |
| BatteryDevice.SiteInfoStopsAtMissingField | drivers/battery/device.ts:37-61 | the handler makes 2 updates without components, 4 without user settings and 5 otherwise, the reserve first as the fraction of the percentage |
| BatteryDevice.EnergyHistory | drivers/battery/device.ts:63-88 | each meter is written with its total, unscaled, exactly when that total is not 0 |
| BatteryDevice.Totals | drivers/battery/device.ts:66-82 | the loop gives the zero-start totals of charged and discharged energy |
| BatteryDevice.EnergyHistoryIsSumOfReadings | drivers/battery/device.ts:63-85 | each meter carries the sum of the readings present, and is written only when that sum is not 0 |
| BatteryDevice.ZeroTotalsAreSkipped | drivers/battery/device.ts:84-85 | a total of 0 is never written, even when every event carries a reading |
| BatteryDevice.MetersScaleDiverge | drivers/battery/device.ts:84-85 | one event with charge and import readings `x` writes `x` on the battery's import meter but `x / 1000` on the gateway's (drivers/gateway/device.ts:71-73) |
| BatteryDriver.ListDevicesEntries | drivers/battery/driver.ts:4-28 | missing products throw; a listing exists exactly when every site's call resolves with components or null, and it holds exactly the sites, accessible or not, with a battery |
| SolarDevice.LiveStatusEffect | drivers/solar/device.ts:23-27 | the power becomes the reported solar power where the write is made, and a missing response changes nothing |
| SolarDevice.EnergyHistory | drivers/solar/device.ts:29-45 | an empty series writes nothing; otherwise the meter is written, in kWh, exactly when the total is not null |
| SolarDevice.Generated | drivers/solar/device.ts:32-42 | the loop gives the null-start total of the generation readings |
| SolarDevice.EnergyHistoryIsSumOfReadings | drivers/solar/device.ts:29-44 | the meter is written exactly when some event reports generation, with the sum of the reported values in kWh |
| SolarDevice.ZeroGenerationIsWritten | drivers/solar/device.ts:44 | a total of 0 is still written, as 0 kWh |
| SolarDriver.ListDevicesEntries | drivers/solar/driver.ts:4-28 | missing products throw; a listing exists exactly when every site's call resolves with components or null, and it holds exactly the sites, accessible or not, with solar |
| GatewayDevice.LiveStatusEffect | drivers/gateway/device.ts:34-45 | grid power, load power and the two alarms take the reported or mapped values where the write is made; an absent reading or an unmapped status leaves the old value |
| GatewayDevice.EnergyHistory | drivers/gateway/device.ts:47-74 | an empty series writes nothing; otherwise each meter is written, in kWh, exactly when its total is not null |
| GatewayDevice.AddEvent | drivers/gateway/device.ts:54-67 | each reading an event carries is added to its total, a null total starting from it |
| GatewayDevice.Totals | drivers/gateway/device.ts:50-68 | the loop gives the null-start totals of imported and exported energy |
| GatewayDevice.EnergyHistoryIsSumOfReadings | drivers/gateway/device.ts:47-73 | each meter is written, independently of the other, exactly when some event carries its reading, with the sum of those readings in kWh |
| GatewayDevice.ZeroImportIsWritten | drivers/gateway/device.ts:70-71 | readings that are present but total 0 are still written, as 0 kWh |
| GatewayDriver.ListDevicesEntries | drivers/gateway/driver.ts:4-29 | missing products throw; a listing exists exactly when no call rejects, and it holds exactly the sites, with no component or access check, whose result is not null |
| PowerwallDevice.GridExported | drivers/powerwall/device.ts:45-48 | the exported power is never negative, is the magnitude of a negative grid power, and is 0 otherwise |
| PowerwallDevice.LiveStatusWrites | drivers/powerwall/device.ts:23-49 | a missing response makes no call; the exported grid power is set only when the grid power is a number |
| PowerwallDevice.LiveStatusEffect | drivers/powerwall/device.ts:23-49 | the exported power is set only for a numeric grid power and never negative; the grid status is true exactly for "Active"; the load power goes under both of its capabilities |
| PowerwallDevice.GridStatusOppositeOfAlarm | drivers/powerwall/device.ts:41 | on both statuses the gateway alarm maps, the Powerwall grid status is the alarm's opposite; it shows false where the alarm is left unset |
| PowerwallDevice.SiteInfoWrites | drivers/powerwall/device.ts:51-73 | a missing response makes no call; the two grid settings are set only with components, and storm watch only with user settings |
| PowerwallDevice.SiteInfoEffect | drivers/powerwall/device.ts:51-73 | the nested settings are set exactly when their parent object is present, and charging from the grid is allowed unless disallowed |
| PowerwallDevice.GridListenersAgree | drivers/powerwall/device.ts:84-92 | both grid listeners send the disallow flag as the negated allow value, so changing the export rule and re-sending the charging setting send the same flag |
| PowerwallDevice.GridChargingRoundTrip | drivers/powerwall/device.ts:60-92 | once the handler has set the charging capability, either grid listener sends back the disallow flag the site reported |
| PowerwallDriver.Entries | drivers/powerwall/driver.ts:21-31 | one entry per accessible site, in catalog order, with its name and id and no batteries |
| PowerwallDriver.EntriesPointwise | drivers/powerwall/driver.ts:21-31 | an entry holds exactly when it is that of an accessible site |
| PowerwallDriver.ListDevicesEntries | drivers/powerwall/driver.ts:5-32 | not being configured, or having no products, throws with that case's message; otherwise the accessible sites are listed in catalog order |
| WallConnectorDevice.MapWallConnectorStateCases | drivers/wall-connector/device.ts:73-87 | the four known states map one to one onto the charging states, and every other state reads as unplugged |
| WallConnectorDevice.FindVinCases | drivers/wall-connector/device.ts:89-93 | no VIN reads "disconnected"; a VIN of a catalog vehicle reads as that vehicle's name; any other VIN reads as itself |
| WallConnectorDevice.FindConnector | drivers/wall-connector/device.ts:30-32 | the connector found is the first with the device's DIN, and none is found exactly when no connector has it |
| WallConnectorDevice.LiveStatusUsesFirstMatch | drivers/wall-connector/device.ts:28-47 | the handler reads the first connector with the device's DIN and no other |
| WallConnectorDevice.NoMatchNoUpdates | drivers/wall-connector/device.ts:30-34 | with no connector of the device's DIN in the response, no update is made |
| WallConnectorDevice.ChargeHistory | drivers/wall-connector/device.ts:49-65 | an empty series writes nothing; otherwise the meter is written, in kWh, exactly when the total is not null |
| WallConnectorDevice.Charged | drivers/wall-connector/device.ts:52-62 | the loop gives the null-start total of the energy-added readings |
| WallConnectorDevice.ChargeHistoryIsSumOfReadings | drivers/wall-connector/device.ts:52-64 | the meter is written exactly when some event reports energy added, with the sum of the reported values in kWh |
| WallConnectorDriver.ConnectorEntriesPointwise | drivers/wall-connector/driver.ts:20-26 | each connector gives the entry named by its site and part name, with the site's id and its own DIN, in connector order |
| WallConnectorDriver.EntriesOk | drivers/wall-connector/driver.ts:12-28 | the listing fails exactly when some site's call fails |
| WallConnectorDriver.EntriesMembers | drivers/wall-connector/driver.ts:12-29 | a listing holds exactly the entries that describe a connector of one of the sites |
| WallConnectorDriver.EntriesAppend | drivers/wall-connector/driver.ts:12-29 | the entries of two runs of sites are those of the first followed by those of the second |
| WallConnectorDriver.EntriesCons | drivers/wall-connector/driver.ts:12-29 | a listing is that of the first site followed by that of the rest |
| WallConnectorDriver.NoConnectorsNoEntries | drivers/wall-connector/driver.ts:17-18 | a site whose response, components or connector list is missing adds no entry |
| WallConnectorDriver.ListDevicesCases | drivers/wall-connector/driver.ts:4-30 | missing products throw; otherwise the listing succeeds exactly when every accessible site's call does, and it then holds exactly one entry per connector of an accessible site, named by site and part name |
| SiteListing.EntriesMembers | drivers/battery/driver.ts:12-27 | a listing fails exactly when one site's call rejects; otherwise an entry occurs exactly when it is that of a kept site (shared by the battery, solar and gateway drivers) |
| SiteListing.EntriesAppend | drivers/battery/driver.ts:12-27 | the entries of two runs of sites are those of the first followed by those of the second |
| SiteListing.ListDevicesCases | drivers/battery/driver.ts:4-28 | missing products throw; otherwise every site of the catalog is tested, accessible or not |
| Pairing.AccessibleMembers | drivers/energy-site/driver.ts:51 | the access filter keeps exactly the accessible sites |
| Pairing.AccessibleAppend | drivers/energy-site/driver.ts:50-51 | the filter keeps catalog order |
| Pairing.AccessibleAll | drivers/energy-site/driver.ts:51 | with every site accessible nothing is dropped |
| EnergySiteDriver.EntriesPointwise | drivers/energy-site/driver.ts:49-84 | the listing fails exactly when one of the sites fails, and otherwise has one entry per site, in order, with its name, id, groups, class and battery flag |
| EnergySiteDriver.ListDevicesGuards | drivers/energy-site/driver.ts:36-47 | not being configured, or having no products, throws with that case's message |
| EnergySiteDriver.ListDevicesEntries | drivers/energy-site/driver.ts:49-84 | a listing exists exactly when every accessible site reports its components, and it then describes the accessible sites |
| EnergySiteDriver.DeviceClassCases | drivers/energy-site/driver.ts:55-63 | battery wins over solar, and a site with neither is "other" |
| EnergySiteDriver.GroupsCount | drivers/energy-site/driver.ts:54-69 | one group per set flag among solar, battery, grid and load meter, each one of the four pairing tables |
| EnergySiteDriver.GroupTablesDiverge | drivers/energy-site/driver.ts:4-30 | each of the four pairing tables differs from its counterpart in drivers/energy-site/capabilities.ts:3-27, with names that only one side holds |
| EnergySiteDriver.PairingOnlyNamesNotDesired | drivers/energy-site/driver.ts:23-30 | a name only the pairing tables hold is never desired by the device, so reconciliation removes it |
| VehicleDevice.Registered | drivers/vehicle/device.ts:8-18 | the device binds to the vehicle of its VIN in the loaded catalog; without one it registers no handler or listener and never sets a capability |
| VehicleDevice.AtMostOneCommand | drivers/vehicle/device.ts:138-231 | every listener sends at most one command |
| VehicleDevice.NoCommand | drivers/vehicle/device.ts:138-231 | a capability without a listener sends nothing, and only the window, charge-cable and frunk listeners ignore some values |
| VehicleDevice.ThermostatRoundTrip | drivers/vehicle/device.ts:74-149 | the mode shown for the air-conditioning signal, sent back, keeps conditioning as it is: on exactly when the signal was truthy |
| VehicleDevice.SeatHeaterRoundTrip | drivers/vehicle/device.ts:93-164 | a seat heater shows on exactly at a positive level, and sending that back asks for level 3 or 0 on seat 0 (left) or 1 (right) |
| VehicleDevice.ConvertedSignals | drivers/vehicle/device.ts:31-71 | charging shows on only for "Charging", the cable locked only for "Engaged", and the charger power is shown in watts |
| VehicleDevice.ChargeStateRoundTrip | drivers/vehicle/device.ts:31-172 | a charging state sent back starts charging exactly for "Charging", and stops it otherwise |
| VehicleDevice.LockListeners | drivers/vehicle/device.ts:138-181 | the lock listener locks on a truthy value and unlocks otherwise; the cable listener only opens the port, on a falsy value |
| VehicleDevice.ForwardedDistinct | drivers/vehicle/device.ts:23-133 | distinct forwarded signals set distinct capabilities |
| VehicleDevice.ForwardedWithListener | drivers/vehicle/device.ts:23-202 | the user can also set the forwarded lock, sentry, valet, defrost, steering-wheel, charge-port door, frunk and trunk capabilities, and no other forwarded one |
| VehicleDevice.ForwardedEcho | drivers/vehicle/device.ts:57-189 | a forwarded mode sent back by its listener asks for the state it shows |
| VehicleDevice.ForwardedDoorEcho | drivers/vehicle/device.ts:57-177 | a forwarded lock or door state sent back by its listener asks for the state it shows |
| VehicleDevice.WindowCoverings | drivers/vehicle/device.ts:203-211 | "up" closes the windows, "down" vents them, and any other value sends nothing |
| VehicleDriver.EntriesMembers | drivers/vehicle/driver.ts:68-76 | an entry is listed exactly when it is that of a streaming vehicle, with its name, its VIN and the graphics for its VIN |
| VehicleDriver.EntriesAppend | drivers/vehicle/driver.ts:68-76 | the listing keeps catalog order |
| VehicleDriver.NothingStreaming | drivers/vehicle/driver.ts:62-69 | with no product catalog, or no vehicle streaming, nothing is listed |
| VehicleDriver.GraphicsCases | drivers/vehicle/driver.ts:4-48 | a VIN names a known model exactly when its fourth character is "3", "Y", "S", "X" or "C", and the icon and the three images then come from that model's folder |

## Left out

- Network and platform I/O: the Teslemetry SDK, `fetch`, JSON parsing and the settings store. Their results are parameters, and the store is a field.
- Random bytes and SHA-256 in `generatePKCE`. Both are inputs; the model proves what is done with them.
- Percent-encoding by `URLSearchParams`. The query is modelled as its list of name/value pairs.
- The device name from the system-name call. It is an input.
- The refresh that `_requestToken` starts, without awaiting it, on an `invalid_token` answer. The model also leaves out the call to the app's `handleApiError`, which the app class does not define. That branch is modelled as "the request fails".
- How the `oauth2:token_saved` event reaches the app: it is emitted on the platform but listened for on the app. Reinitialization is modelled as an explicit call after a save.
- Results of a catalog fetch that arrive after reinitialization has dropped its client.
- Rejections of `addCapability` and `removeCapability`. Both are modelled as always succeeding.
- The energy-site device's `energyHistory` handler (drivers/energy-site/device.ts:106-137). It computes totals it never uses and writes from an undefined variable.
- The timer that resets the frunk capability after opening.
- Logging and error messages written to the log.
- The translation lookup `homey.__`. Only its result matters: a translation that differs from its key.
- IEEE floating point, NaN and infinities. Readings are reals, and `Math.round` is applied to reals.
- Vehicle signals that are not numbers where a number is expected (charger power, seat-heater levels).
- The vehicle driver's catch branch. The model's listing cannot fail.
- The order in which `Promise.all` reports rejections. The model takes the first failure by index.
- The order of `Object.values`. It is taken as the catalog's sequence order.
- api.ts is not part of this model. Its reference to an undefined `cleanup` is left out with it.
- The pairing session flow in lib/TeslemetryDriver.ts.
- The asset generator scripts.
- Polling intervals, the streaming connection and `onUninit`.
- PowerwallDevice.LiveStatusWrites: its contract covers the raw `setCapabilityValue` calls the Powerwall device makes, not a guarded store. That device bypasses `update`.
- A reading the API sends as JSON `null` is treated as absent. Readings are `Option` values, so null reaches `update` as `undefined` and is skipped. The code writes null, writes -0 after `battery_power * -1`, writes 0 after `backup_reserve_percent / 100`, and the Powerwall's `String(island_status)` gives "null".
- No caller in the code passes a function to `update`. The throwing value function (`Device.ThrowIsIsolated`) is modelled for the promise the base device makes, not for a call site.
- EnergySiteDriver.SiteEntry: the entry's `homeBattery` is a boolean. The code copies `components.battery` as it is, which is `undefined` when the flag is absent.
- SiteValues.ListenerCommand: a `backup_reserve` value that is `undefined` or a string sends nothing in the model. The code sends `Math.round(value * 100)`, which is NaN or a parsed number; the number capability delivers only numbers.
