# HydroBox logic in Dafny

HydroBox is an Android app that controls a hydroponic growing box. It logs a user in against a
web API and keeps a local session. It reads the current crop, the sensors and the measurement
history from that API. It drives the box's actuators over MQTT. Its screens follow a crop
through its growing cycle.

This project models the app's sequential logic as immutable datatypes and pure functions, and
proves properties of that model. One module covers each part of the app:

- `HydroMqtt` covers the actuator client.
  - Switch and dose commands are encoded into a topic and a JSON payload.
  - A publish is gated on a client existing.
  - Connect, fail, retry and disconnect form a machine driven by events.
- `HydroApi` covers the API client.
  - Responses are normalised to one object or a list of objects.
  - The login, crop, measurement and sensor records are decoded with their key fallbacks and
    blank-to-null rules.
  - Status codes are checked.
- `AuthStore` models the session's preference store.
- `AuthRepository` models login (guard, remote call, merge into the local user table, session),
  logout and the profile update. The local user table is an in-memory sequence of rows.
- `ResumeScreen` covers the crop cycle on the summary screen.
  - It chooses the current crop and the cycle's start.
  - It computes the day of the cycle from the clock.
  - It tracks the day being viewed and the position of the day scroller.
- `CropsScreen` models the crop-management screen: its catalogue and the confirmation asked before
  an unfinished crop is abandoned.
- `AccountScreen` models the profile form: its validators, its edit filters, when saving is
  enabled, and the name split on save.
- Shared helpers:
  - `Wrappers` defines `Option` and `Result`.
  - `Text` models the Kotlin string functions the app relies on: `isWhitespace`, `isBlank`,
    `trim`, `split(" ", limit = 2)`, `substringBefore`, `isDigit`, and decimal rendering and
    parsing of integers.
  - `Json` models a parsed JSON value and the lenient `opt*` accessors of the platform's
    `JSONObject`.

Clocks, the network, the broker and the platform's email pattern are parameters:

- a clock reading is an `int` argument (`now`);
- an HTTP exchange is an `HttpResponse`;
- the remote login call is a function argument of `AuthRepository.Login`;
- broker answers are events of the MQTT machine;
- the email pattern is a predicate argument.

Three behaviours are modelled as the code has them, although a reader may expect otherwise.

- **Disconnect and retries.** One might expect `disconnect()` to cancel a pending reconnect. It
  does not: the code schedules the reconnect as a detached coroutine and never cancels it.
  - `HydroMqtt.Disconnect` leaves scheduled reconnects in place.
  - `HydroMqtt.RetrySurvivesDisconnect` shows a reconnect that runs after a disconnect and
    builds a new client.
  - `HydroMqtt.ConnectedWithoutClient` shows an attempt that completes after a disconnect. It
    sets the connected flag although no client exists.
- **Null JSON text.** The platform's `optString` renders a JSON `null` as the text `null`
  instead of returning the fallback.
  - The model follows that: see `Json.OptString`.
  - `HydroApi.NullAvatarReadsAsText` shows the consequence: a login answer whose `avatar` is null
    gets the avatar address `"null"`.
- **Return scroll after the crop dialog.** Confirming or cancelling launches
  `animateScrollToPage`, and each page the pager passes on the way changes `currentPage`. Each
  change re-runs the page effect, which asks for confirmation again while the active crop has
  days left.
  - Which pages the pager passes is a parameter of `CropsScreen.Confirm` and
    `CropsScreen.Cancel`: the pages between, in order, any of which may be skipped.
  - `CropsScreen.CancelFromFarPageReopens` shows a cancel that leaves the dialog open for a crop
    the user never chose.

## Model

Source paths are relative to the repository root.

| member | source | states |
|---|---|---|
| HydroMqtt.AuthFor | app/src/main/java/com/hydrobox/app/mqtt/HydroMqtt.kt:35-41 | credentials are attached exactly when both user and password are set and not blank, and then they are those two values |
| HydroMqtt.NewClient | app/src/main/java/com/hydrobox/app/mqtt/HydroMqtt.kt:23-41 | the client identifier is `hydrobox-android-` followed by the clock in decimal; host and port come from the settings; the session is clean; keep-alive is 30 s; auth follows `AuthFor` |
| HydroMqtt.Connect | app/src/main/java/com/hydrobox/app/mqtt/HydroMqtt.kt:22-30 | a fresh client replaces the current one and one more attempt is in flight; the connected flag and the scheduled reconnects are untouched |
| HydroMqtt.ConnectFailed | app/src/main/java/com/hydrobox/app/mqtt/HydroMqtt.kt:43-50 | a failed attempt clears the connected flag and schedules exactly one reconnect |
| HydroMqtt.ConnectSucceeded | app/src/main/java/com/hydrobox/app/mqtt/HydroMqtt.kt:51-54 | a successful attempt sets the connected flag and schedules nothing |
| HydroMqtt.RetryFired | app/src/main/java/com/hydrobox/app/mqtt/HydroMqtt.kt:47-50 | a scheduled reconnect is used up and calls `connect()` again, building a client from the new clock reading; the connected flag and the settings are left as they were |
| HydroMqtt.Disconnect | app/src/main/java/com/hydrobox/app/mqtt/HydroMqtt.kt:58-62 | afterwards the client is not connected and has no client object; scheduled reconnects and attempts in flight stay |
| HydroMqtt.DisconnectIdempotent | app/src/main/java/com/hydrobox/app/mqtt/HydroMqtt.kt:58-62 | disconnecting twice is disconnecting once |
| HydroMqtt.Topic | app/src/main/java/com/hydrobox/app/mqtt/HydroMqtt.kt:66 | the topic is `hydrobox/actuators/`, then the device id (recoverable from its position), then `/set` |
| HydroMqtt.DosePayload | app/src/main/java/com/hydrobox/app/mqtt/HydroMqtt.kt:70 | the dose payload is `{"dose_ml":`, then the decimal amount with no range check, then `}` |
| HydroMqtt.DecodeEncode | app/src/main/java/com/hydrobox/app/mqtt/HydroMqtt.kt:64-72 | every switch or dose command can be read back from the topic and payload it is sent with |
| HydroMqtt.EncodeInjective | app/src/main/java/com/hydrobox/app/mqtt/HydroMqtt.kt:64-72 | different commands never produce the same message; a switch and a dose for one device share one topic |
| HydroMqtt.PayloadShape | app/src/main/java/com/hydrobox/app/mqtt/HydroMqtt.kt:64-72 | a switch payload is exactly `{"on":true}` or `{"on":false}`; a dose payload is `{"dose_ml":<ml>}`; every payload is ASCII |
| HydroMqtt.Publish | app/src/main/java/com/hydrobox/app/mqtt/HydroMqtt.kt:74-89 | a packet goes out exactly when a client object exists; it is at-least-once (section 4.3.2 of MQTT 3.1.1), not retained, and carries the payload's bytes |
| HydroMqtt.Send | app/src/main/java/com/hydrobox/app/mqtt/HydroMqtt.kt:64-72 | `sendSwitch`/`sendDose` publish on the device's topic exactly when a client exists |
| HydroMqtt.SendRoundTrip | app/src/main/java/com/hydrobox/app/mqtt/HydroMqtt.kt:64-89 | the packet a send puts out decodes back to the command that was sent |
| HydroMqtt.PublishIgnoresConnectedFlag | app/src/main/java/com/hydrobox/app/mqtt/HydroMqtt.kt:74-78 | whether a send goes out does not depend on the connected flag |
| HydroMqtt.SendAfterDisconnect | app/src/main/java/com/hydrobox/app/mqtt/HydroMqtt.kt:58-78 | after one or two disconnects every send is skipped |
| HydroMqtt.AtMostOnePending | app/src/main/java/com/hydrobox/app/mqtt/HydroMqtt.kt:43-50 | starting from at most one pending attempt or reconnect, and with no outside `connect()` call, there is never more than one pending |
| HydroMqtt.ThreeFailuresThenSuccess | app/src/main/java/com/hydrobox/app/mqtt/HydroMqtt.kt:22-56 | three failed attempts, each followed by its reconnect, and then a success leave the client connected with the last attempt's identifier and nothing pending |
| HydroMqtt.RetrySurvivesDisconnect | app/src/main/java/com/hydrobox/app/mqtt/HydroMqtt.kt:43-62 | a reconnect scheduled before `disconnect()` still runs afterwards and builds a client, so sends resume |
| HydroMqtt.ConnectedWithoutClient | app/src/main/java/com/hydrobox/app/mqtt/HydroMqtt.kt:43-62 | an attempt completing after `disconnect()` sets the connected flag although there is no client, and sends stay skipped |
| HydroApi.Request | app/src/main/java/com/hydrobox/app/api/HydroApi.kt:68-75 | the body is returned exactly for a status in 200..299; any other status is an `HttpException` carrying the code |
| HydroApi.FirstObject | app/src/main/java/com/hydrobox/app/api/HydroApi.kt:78-86 | blank gives none; an object gives itself; an array whose element 0 is an object gives that element; anything else gives none; unparsable text is an error |
| HydroApi.ObjectsOf | app/src/main/java/com/hydrobox/app/api/HydroApi.kt:92 | exactly the object elements of the array are kept, and all of them when every element is an object |
| HydroApi.ObjectsOfAppend | app/src/main/java/com/hydrobox/app/api/HydroApi.kt:92 | dropping non-objects keeps the original order: the objects of a concatenation are the objects of each part, in turn |
| HydroApi.ArrayOfObjects | app/src/main/java/com/hydrobox/app/api/HydroApi.kt:88-96 | an array gives its object elements in their order, repetitions included (`ObjectsOf` of the items); an object gives a one-element list; blank or any other value gives an empty list; unparsable text is an error |
| HydroApi.FirstObjectHeadsArrayOfObjects | app/src/main/java/com/hydrobox/app/api/HydroApi.kt:78-96 | both functions fail on the same inputs, and an object `firstObject` finds is the first element `arrayOfObjects` returns |
| HydroApi.LoginBody | app/src/main/java/com/hydrobox/app/api/HydroApi.kt:114-117 | the login request is an object with exactly the keys `email` and `password` |
| HydroApi.UserObject | app/src/main/java/com/hydrobox/app/api/HydroApi.kt:143-147 | the user is read from `user` when that key exists (and it must then be an object), else from `data` when that is an object, else from the root |
| HydroApi.ParseUserFromLoginJson | app/src/main/java/com/hydrobox/app/api/HydroApi.kt:137-172 | a body that is not an object gives null; for an object, a user is returned exactly when the user object exists (a `"user"` that is not an object gives null) and its email is not blank; the user's id, email and avatar are read from `id`, `email` and `avatar`, with a blank avatar read as null; no phone fields are set |
| HydroApi.LoginUserName | app/src/main/java/com/hydrobox/app/api/HydroApi.kt:149-168 | with a non-blank email a user is returned; its name is the trimmed name up to its first space (it holds no space), or the email's local part exactly when the name is blank; the last name is the rest after that first space |
| HydroApi.NullAvatarReadsAsText | app/src/main/java/com/hydrobox/app/api/HydroApi.kt:152-167 | a JSON null avatar comes out as the text `null` and not as an absent avatar |
| HydroApi.Login | app/src/main/java/com/hydrobox/app/api/HydroApi.kt:100-135 | only a transport failure raises; a status outside 200..299 gives null; a 2xx answer gives exactly what `parseUserFromLoginJson` makes of its body |
| HydroApi.GetHortalizaActual | app/src/main/java/com/hydrobox/app/api/HydroApi.kt:176-184 | request errors propagate; malformed text is an error; a body with no object gives null; a returned crop has a non-zero id and the non-blank name read from the object `firstObject` finds |
| HydroApi.HortalizaFromObject | app/src/main/java/com/hydrobox/app/api/HydroApi.kt:176-184 | for any 2xx answer whose body is an object or an array headed by one, the id comes from that object's `id_hortaliza`, else `id`, else 0, and a crop is returned exactly when that id is non-zero and the name is not blank |
| HydroApi.CambiarHortaliza | app/src/main/java/com/hydrobox/app/api/HydroApi.kt:186-194 | true exactly when the server answered with a 2xx status |
| HydroApi.DecodeMedicion | app/src/main/java/com/hydrobox/app/api/HydroApi.kt:201-221 | each reading comes from its key; orp comes from `orp_value` when that key is present at all and from `ce_value` otherwise; `fecha` is the text read from its key, with a blank one read as null |
| HydroApi.GetRegistroMediciones | app/src/main/java/com/hydrobox/app/api/HydroApi.kt:198-223 | one record per object of the response, in order; errors propagate |
| HydroApi.EmptyMedicion | app/src/main/java/com/hydrobox/app/api/HydroApi.kt:202-220 | a row without readings decodes to all-null readings, with the date kept exactly when it is not blank |
| HydroApi.DecodeSensor | app/src/main/java/com/hydrobox/app/api/HydroApi.kt:228-263 | the id comes from `id`, else `id_sensor`, else 0; the name is never blank; `tipo`/`unidad`/`descripcion` read the Spanish key when present and the English one otherwise; blank texts, `codigo` included, become null |
| HydroApi.SensorName | app/src/main/java/com/hydrobox/app/api/HydroApi.kt:231-258 | the sensor name is the name read when it is not blank, and `Sensor <id>` otherwise |
| Text.IntToDecimalInjective | app/src/main/java/com/hydrobox/app/api/HydroApi.kt:258 | distinct ids render as distinct decimal texts, so the fallback names `Sensor <id>` of distinct ids differ |
| HydroApi.GetSensores | app/src/main/java/com/hydrobox/app/api/HydroApi.kt:225-265 | one sensor per object of the response, in order, every one named; errors propagate |
| Json.OptString | app/src/main/java/com/hydrobox/app/api/HydroApi.kt:149-152 | an absent key gives the fallback; a string gives its text; JSON null gives `null`; a boolean gives `true`/`false` |
| Json.OptInt | app/src/main/java/com/hydrobox/app/api/HydroApi.kt:180 | an absent key gives the fallback; an integer gives itself; a fraction is truncated toward zero; a string holding an integer literal gives that integer, any other string the fallback; null, booleans, arrays and objects give the fallback |
| Json.OptDouble | app/src/main/java/com/hydrobox/app/api/HydroApi.kt:202-208 | an absent key gives NaN (`None`); a number gives its value; a string holding an integer literal gives that number, any other string NaN; null, booleans, arrays and objects give NaN |
| Text.Trim | app/src/main/java/com/hydrobox/app/auth/AuthRepository.kt:24-25 | the result has no whitespace at either end, is empty exactly when the input is blank, and is no longer than the input |
| Text.TrimIsSlice | app/src/main/java/com/hydrobox/app/auth/AuthRepository.kt:24-25 | trimming keeps one contiguous slice of the input and removes only whitespace around it |
| Text.TrimIdempotent | app/src/main/java/com/hydrobox/app/ui/navigation/AccountScreen.kt:201 | trimming an already trimmed text (the name field starts trimmed and is trimmed again on save) changes nothing |
| Text.SplitFirst | app/src/main/java/com/hydrobox/app/api/HydroApi.kt:156-158 | `split(" ", limit = 2)`: the head holds no separator; there is a tail exactly when the separator occurs; head, separator and tail rebuild the input |
| Text.SplitFirstOfJoin | app/src/main/java/com/hydrobox/app/ui/navigation/AccountScreen.kt:201-205 | splitting `a + " " + b` gives back `a` and `b` when `a` holds no space |
| Text.KeepDigits | app/src/main/java/com/hydrobox/app/ui/navigation/AccountScreen.kt:184 | the result is all digits, holds exactly the digits of the input, and is the input itself when that is all digits; with `Text.KeepDigitsAppend` the digits keep their order and repetitions |
| Text.KeepDigitsAppend | app/src/main/java/com/hydrobox/app/ui/navigation/AccountScreen.kt:184 | the digits of a concatenation are the digits of the first part followed by those of the second |
| Text.Utf16Length | app/src/main/java/com/hydrobox/app/ui/navigation/AccountScreen.kt:53 | `String.length` counts UTF-16 units: at least one and at most two per character, and exactly one per character within the Basic Multilingual Plane |
| Text.Utf16LengthAppend | app/src/main/java/com/hydrobox/app/ui/navigation/AccountScreen.kt:53 | the units of a concatenation are the units of its parts added |
| Text.Utf16LengthChar | app/src/main/java/com/hydrobox/app/ui/navigation/AccountScreen.kt:53 | a character above U+FFFF is two units (a surrogate pair), any other one unit |
| AuthStore.State | app/src/main/java/com/hydrobox/app/auth/data/AuthStore.kt:16-21 | logged in exactly when the flag was written as true; the user id is whatever is stored |
| AuthStore.RememberPref | app/src/main/java/com/hydrobox/app/auth/data/AuthStore.kt:23 | "remember me" is on exactly when it was written as true |
| AuthStore.EmptyProjections | app/src/main/java/com/hydrobox/app/auth/data/AuthStore.kt:16-23 | an empty store reads as logged out, with no user id, "remember me" off and no last email |
| AuthStore.SetLoggedIn | app/src/main/java/com/hydrobox/app/auth/data/AuthStore.kt:25-32 | afterwards the state is (true, id), "remember me" is as given, and the last email is the given one exactly when it is to be remembered |
| AuthStore.Clear | app/src/main/java/com/hydrobox/app/auth/data/AuthStore.kt:34-39 | logged out with no user id; "remember me" and the last email unchanged |
| AuthStore.OnAppLaunch | app/src/main/java/com/hydrobox/app/auth/data/AuthStore.kt:41-46 | every launch starts logged out with no user id, keeping "remember me" and the last email |
| AuthStore.OnAppLaunchIsClear | app/src/main/java/com/hydrobox/app/auth/data/AuthStore.kt:34-46 | a launch has exactly the effect of `clear` |
| AuthStore.ClearIdempotent | app/src/main/java/com/hydrobox/app/auth/data/AuthStore.kt:34-39 | clearing twice is clearing once |
| AuthStore.LoginThenClear | app/src/main/java/com/hydrobox/app/auth/data/AuthStore.kt:25-39 | after logging in and then clearing, the session is closed and the email is offered again exactly when it was to be remembered |
| AuthRepository.FindByEmail | app/src/main/java/com/hydrobox/app/auth/AuthRepository.kt:41 | the row found holds that email, and none is found exactly when no row does |
| AuthRepository.FindById | app/src/main/java/com/hydrobox/app/auth/AuthRepository.kt:85 | the row found has that id, and none is found exactly when no row does |
| AuthRepository.Upsert | app/src/main/java/com/hydrobox/app/auth/AuthRepository.kt:67 | a record with id 0 is stored under a fresh id, and one with a known id replaces that row; the returned id finds the record, and every other id finds what it found before |
| AuthRepository.Merge | app/src/main/java/com/hydrobox/app/auth/AuthRepository.kt:43-64 | name and email come from the server and the password is the one typed; last name, avatar and phone fields come from the server when it sent them and otherwise from the existing row; a new row has id 0 and an empty last name |
| AuthRepository.Login | app/src/main/java/com/hydrobox/app/auth/AuthRepository.kt:23-70 | blank trimmed inputs return false without calling the server; the server gets the trimmed inputs; the result is true exactly when the server returns a user; any other answer clears the session |
| AuthRepository.LoginSuccess | app/src/main/java/com/hydrobox/app/auth/AuthRepository.kt:40-69 | after a successful login the session's user id finds a row with the server's name and email and the trimmed password; it is the row that already had that email when one did; the email is remembered exactly when asked |
| AuthRepository.Logout | app/src/main/java/com/hydrobox/app/auth/AuthRepository.kt:72 | logout closes the session and keeps "remember me" and the last email, as `clear` does |
| AuthRepository.UpdateProfile | app/src/main/java/com/hydrobox/app/auth/AuthRepository.kt:75-96 | an unknown id changes nothing; otherwise the row gets every field as given, nulls included, except that an absent or empty password keeps the old one; other rows are untouched |
| ResumeScreen.CropForRemoteId | app/src/main/java/com/hydrobox/app/ui/navigation/ResumeScreen.kt:507-516 | every id outside 1..6 gives lettuce |
| ResumeScreen.CropTableBijective | app/src/main/java/com/hydrobox/app/ui/navigation/ResumeScreen.kt:507-516 | ids 1..6 map one-to-one onto LECHUGA, ESPINACA, RUCULA, ACELGA, ALBAHACA and MOSTAZA |
| ResumeScreen.AutoDay | app/src/main/java/com/hydrobox/app/ui/navigation/ResumeScreen.kt:108-116 | the day is 1 when the start is unknown or the cycle is empty, and otherwise lies in 1..totalDays |
| ResumeScreen.AutoDayMeaning | app/src/main/java/com/hydrobox/app/ui/navigation/ResumeScreen.kt:110-115 | when `d - 1` whole days of 86 400 000 ms have elapsed since the start, and fewer than `d`, the day is `d` |
| ResumeScreen.AutoDayEdges | app/src/main/java/com/hydrobox/app/ui/navigation/ResumeScreen.kt:112-114 | a start in the future gives day 1, and a finished cycle stays on its last day |
| ResumeScreen.AutoDayMonotonic | app/src/main/java/com/hydrobox/app/ui/navigation/ResumeScreen.kt:108-116 | for a fixed start and cycle length the day never decreases as the clock advances |
| ResumeScreen.FollowAutoDayAsWritten | app/src/main/java/com/hydrobox/app/ui/navigation/ResumeScreen.kt:118-122 | as written, every change of the computed day resets the viewed day to it, and otherwise the viewed day stays |
| ResumeScreen.FollowAutoDayAsWrittenLowers | app/src/main/java/com/hydrobox/app/ui/navigation/ResumeScreen.kt:118-122 | viewing day 10 while the computed day moves from 3 to 4 brings the view back to day 4 |
| ResumeScreen.RaiseToAutoDay | app/src/main/java/com/hydrobox/app/ui/navigation/ResumeScreen.kt:120-122 | the viewed day is raised to the computed day and never lowered |
| ResumeScreen.Tick | app/src/main/java/com/hydrobox/app/ui/navigation/ResumeScreen.kt:108-122 | the intended rule, not the code as written (see Findings): on a clock tick the computed day is recomputed and the viewed day becomes the larger of the previous viewed day and the new computed day, so it is never lowered |
| ResumeScreen.TickKeepsViewInCycle | app/src/main/java/com/hydrobox/app/ui/navigation/ResumeScreen.kt:108-122 | under the intended rule of `ResumeScreen.Tick` (see Findings), a viewed day within the cycle stays within it on every tick |
| ResumeScreen.SelectDay | app/src/main/java/com/hydrobox/app/ui/navigation/ResumeScreen.kt:206 | a picked day is clamped to the cycle: kept when within 1..totalDays, 1 when below it and the last day when beyond it |
| ResumeScreen.ScrollerTarget | app/src/main/java/com/hydrobox/app/ui/navigation/ResumeScreen.kt:229-241 | nothing is drawn for an empty cycle; otherwise the chip index is the selected day minus one, clamped to the row: 0 for a day below the cycle and the last chip for a day beyond it |
| ResumeScreen.SavedId | app/src/main/java/com/hydrobox/app/ui/navigation/ResumeScreen.kt:70 | a saved id is one stored under `remote_id` other than -1 |
| ResumeScreen.SavedStart | app/src/main/java/com/hydrobox/app/ui/navigation/ResumeScreen.kt:71 | a saved start is a positive `start_epoch` |
| ResumeScreen.ChooseCrop | app/src/main/java/com/hydrobox/app/ui/navigation/ResumeScreen.kt:67-106 | the saved id wins over the API's id; with neither, lettuce (id 1) is persisted with start = now; with an id, a saved start is kept and the store untouched, and otherwise the chosen id is persisted together with start = now |
| ResumeScreen.RelaunchKeepsCycle | app/src/main/java/com/hydrobox/app/ui/navigation/ResumeScreen.kt:67-106 | once a launch has settled the crop and start, every later launch keeps the same crop, start and store, whatever the API answers and the clock says; on the first launch a server crop id of -1 is excluded, because the store would keep it and read it back as absent |
| CropsScreen.Init | app/src/main/java/com/hydrobox/app/ui/navigation/CropsScreen.kt:63-71 | the screen opens on a valid catalogue entry with no dialog, the pager on the active crop |
| CropsScreen.RemainingShown | app/src/main/java/com/hydrobox/app/ui/navigation/CropsScreen.kt:175 | the days shown in the dialog are never negative and equal the remaining days whenever those are not negative |
| CropsScreen.SettlePage | app/src/main/java/com/hydrobox/app/ui/navigation/CropsScreen.kt:74-86 | an unchanged page changes nothing; landing on the active crop changes only the page; another crop with days left only becomes pending; with no days left the switch is immediate and starts at day 0; indices stay in the catalogue |
| CropsScreen.Scroll | app/src/main/java/com/hydrobox/app/ui/navigation/CropsScreen.kt:74-86 | each page the pager passes runs the page effect; the pager ends on the last page passed |
| CropsScreen.ScrollBackToActive | app/src/main/java/com/hydrobox/app/ui/navigation/CropsScreen.kt:74-86 | scrolling back to an active crop with days left keeps the crop and its days and ends on it, with the dialog pending for the last page passed before it |
| CropsScreen.PathStrictlyMoves | app/src/main/java/com/hydrobox/app/ui/navigation/CropsScreen.kt:180 | along the pager's return path each page lies further on than the one before |
| CropsScreen.Confirm | app/src/main/java/com/hydrobox/app/ui/navigation/CropsScreen.kt:190-197 | the pending crop becomes active at day 0 and the pager animates back to it; every page passed on the way asks again, so the dialog stays closed exactly when no page lies between |
| CropsScreen.Cancel | app/src/main/java/com/hydrobox/app/ui/navigation/CropsScreen.kt:178-206 | cancel (and dismiss, which does the same) keeps the active crop and its days and animates the pager back to it; every page passed on the way asks again, so the dialog ends open for the last page passed, and closed only when no page lies between |
| CropsScreen.StepKeepsUnfinished | app/src/main/java/com/hydrobox/app/ui/navigation/CropsScreen.kt:74-86 | every event keeps the active crop at 0 or 12 days, with days left |
| CropsScreen.RunKeepsUnfinished | app/src/main/java/com/hydrobox/app/ui/navigation/CropsScreen.kt:74-86 | every sequence of events keeps the active crop at 0 or 12 days, with days left |
| CropsScreen.NoSwitchWithoutConfirmation | app/src/main/java/com/hydrobox/app/ui/navigation/CropsScreen.kt:74-86 | from the initial state, turning the pager never changes the active crop: the immediate switch cannot happen and every change goes through the dialog |
| CropsScreen.CancelFromFarPageReopens | app/src/main/java/com/hydrobox/app/ui/navigation/CropsScreen.kt:74-86 | a fling from the first crop to the fourth, then cancel, keeps the crop but leaves the dialog open for the second crop |
| AccountScreen.InitialForm | app/src/main/java/com/hydrobox/app/ui/navigation/AccountScreen.kt:43-48 | the form opens with the user's full name and email, prefix `+52`, and every other field empty |
| AccountScreen.EmailOk | app/src/main/java/com/hydrobox/app/ui/navigation/AccountScreen.kt:52 | a blank email never passes; any other passes exactly when it matches the platform's email pattern |
| AccountScreen.PassOk | app/src/main/java/com/hydrobox/app/ui/navigation/AccountScreen.kt:53 | the password passes exactly when it is empty or at least eight UTF-16 units long: eight or more characters always pass, a non-empty one of fewer than four never does, and within the Basic Multilingual Plane units and characters agree |
| AccountScreen.PhoneOk | app/src/main/java/com/hydrobox/app/ui/navigation/AccountScreen.kt:54 | the phone passes exactly when it is all digits, that is, exactly when keeping its digits leaves it unchanged |
| AccountScreen.EditPrefix | app/src/main/java/com/hydrobox/app/ui/navigation/AccountScreen.kt:176 | an edit longer than four UTF-16 units is refused and the previous prefix kept, so the prefix never exceeds four units |
| AccountScreen.AstralPasswordPasses | app/src/main/java/com/hydrobox/app/ui/navigation/AccountScreen.kt:53 | a password of four characters outside the Basic Multilingual Plane is eight units long and passes the length check |
| AccountScreen.EditPhone | app/src/main/java/com/hydrobox/app/ui/navigation/AccountScreen.kt:184 | the edited phone is all digits (so it always passes the phone check), holds exactly the digits typed, and is the typed text itself when that is all digits |
| AccountScreen.EditPhoneKeepsOrder | app/src/main/java/com/hydrobox/app/ui/navigation/AccountScreen.kt:184 | typing more text appends exactly that text's digits, and one typed character is kept exactly when it is a digit |
| AccountScreen.HasChanges | app/src/main/java/com/hydrobox/app/ui/navigation/AccountScreen.kt:56-65 | for a non-blank name, there are changes exactly when the form differs from the form as opened, a blank username or phone counting as empty; a blank name is never a change |
| AccountScreen.InitialFormUnchanged | app/src/main/java/com/hydrobox/app/ui/navigation/AccountScreen.kt:43-65 | the form as opened has no changes and cannot be saved |
| AccountScreen.CanSave | app/src/main/java/com/hydrobox/app/ui/navigation/AccountScreen.kt:209 | saving is enabled exactly when the form has changes, the email is not blank and matches the pattern, the password is empty or at least 8 UTF-16 units long, and the phone is empty or all digits |
| AccountScreen.Save | app/src/main/java/com/hydrobox/app/ui/navigation/AccountScreen.kt:201-207 | the trimmed name splits at its first space into name and last name (empty when there is no space); the email is replaced; the role is kept; the other form fields are handed on |
| AccountScreen.SaveInitialRoundTrip | app/src/main/java/com/hydrobox/app/ui/navigation/AccountScreen.kt:201-206 | a user whose first name is one word and whose names carry no outer whitespace comes back unchanged when the form is saved as opened |

## Left out

- Screen rendering, navigation, theming, and the other screens. They have no state logic beyond
  display text.
- `CropsScreen.Cancel`, `CropsScreen.Confirm`: the pages `currentPage` passes during the return
  animation are an argument, not derived from the pager's animation and frame timing; the
  pager's snap for distant pages is covered because any page may be skipped.
- HTTP and the broker as I/O.
  - Connections, timeouts, header setup and stream reading are left out. An exchange is an
    `HttpResponse`: a status with a body, or unreachable.
  - The asynchronous HiveMQ client, `GlobalScope` and the 2500 ms `delay` are left out. The delay
    is named as a constant only. Broker answers and reconnects are events.
  - Logging is left out.
- The JSON tokenizer. A body is blank, parsed into a `Json` value, or rejected.
- `Json.OptString`: the text of a number, array or object comes from the library's own rendering,
  which is a function argument (`render`).
- `Json.OptInt`, `Json.OptDouble`: a numeric string is parsed only when it is an optional `-`
  followed by digits. The platform's `Double.valueOf` also accepts decimals, exponents, a leading
  `+`, surrounding whitespace, and `NaN` and `Infinity`. Narrowing to 32 or 64 bits
  is not modelled. Numbers are unbounded `int` and exact `real`, so IEEE rounding and the
  conversion to `Float` of the measurement fields are not modelled.
- `Text.IsDigit`, `Text.KeepDigits`: only ASCII digits count. Kotlin's `isDigit` also accepts
  other Unicode decimal digits.
- `HydroMqtt.Publish`: the payload is required to be ASCII, because UTF-8 encoding is not
  modelled. Every payload the client builds is ASCII (`HydroMqtt.PayloadShape`).
- The email address pattern of the platform is left out. `AccountScreen` takes it as a predicate
  argument.
- Persistence.
  - DataStore and SharedPreferences are records of optional values.
  - The Room table is a sequence of rows in rowid order. `findById`, `upsert` and `update` are
    not part of this model's source; they are modelled as lookup, insert-or-replace and
    replace-by-key.
  - `AuthRepository.Upsert` returns the row id on replace as well, where Room's upsert may report
    -1 for an update.
  - `AdminUser` is not part of this model's source. It is modelled with the four fields the
    account screen reads.
- `ResumeScreen.AutoDay`: the day count is not narrowed to a 32-bit `Int`. Only a clock reading
  more than five million years from the start could tell the difference.
- The 60-second clock loop and the 15-second sensor refresh of the summary screen are left out.
  The clock is a parameter of every function that reads it.
- Floating-point formatting of sensor values and progress ratios is left out.
- The pictures and display ranges of the catalogue entries are left out.
- The two crop tables stay separate, as in the app.
  - The summary screen's `Crop` has 28–45 day cycles.
  - The crop screen's catalogue has 20–35 day cycles.

## Findings

| source | as written | input that shows it | evidently intended | confidence | as-written member | corrected member |
|---|---|---|---|---|---|---|
| app/src/main/java/com/hydrobox/app/ui/navigation/ResumeScreen.kt:118-122 | `currentDay` is remembered with `autoDay` as its key. Every change of the computed day therefore recreates it at the new computed day, and the raise-only effect that follows never changes anything. | The user views day 10 while the computed day is 3; at midnight the computed day becomes 4 and the view drops back to day 4 | The viewed day is only raised to the computed day and never lowered (the effect's own rule) | medium, not executed | ResumeScreen.FollowAutoDayAsWritten, ResumeScreen.FollowAutoDayAsWrittenLowers | ResumeScreen.RaiseToAutoDay, ResumeScreen.Tick |
