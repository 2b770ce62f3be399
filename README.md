# SharePoint satellite manager — a Dafny model of its request and validation logic

The repository is a browser-side client for one SharePoint list, `Satellite_Fixed`.
It has two parts:

- `SatelliteManager` (satellite-api.js) turns create, list, get, update, delete and
  two search helpers into REST requests against the list's collection endpoint.
  It attaches the page's anti-forgery token (`X-RequestDigest`) to mutating requests.
  It turns a failed response into an error message.
- The form handler (form-handler.js) reads the "Add New Satellite" form, trims each
  field or substitutes its default, and validates the record before it calls
  `addSatellite`.

This project models that logic as pure Dafny functions and proves what each operation
promises. The modules are:

- `SatelliteApi` models satellite-api.js.
  - The manager is a datatype: its constructor sets three fields, and nothing ever changes them.
  - Each operation takes the platform's `Response` as a parameter. It returns an
    `Outcome`: the request it would send (or `None` if it sends nothing), and the value
    its promise resolves to or the `ApiError` it rejects with.
  - The `__REQUESTDIGEST` lookup is an `Option<string>` parameter.
- `FormHandler` models form-handler.js.
  - It covers the per-field normalisation of `collectFormData`, the guard chain of
    `validateSatelliteData`, and the pattern part of `isValidDate`.
  - The calendar check that `isValidDate` delegates to `new Date(...)` is a parameter
    `parsesAsDate`.
- `Text` and `UriEncoding` hold the host behaviour the two files rely on:
  - `String.prototype.trim` with the ECMAScript whitespace set;
  - decimal rendering of numbers in template literals;
  - `encodeURIComponent`, with a percent-decoder as its partner.
- `Wrappers` holds `Option` and `Result`.

Two modelling conventions:

- A JavaScript string property that is missing, `undefined` or `''` is falsy in the
  source. Here all three are the empty string.
- `top` is a `nat`, and 0 stands for "not given".

Notes on the code:

- The NORAD search filter is `NORAD_ID eq '<id>'`. It uses the list's column name.
- A failed `addSatellite` or `updateSatellite` reads the error body with
  `response.json()`. If that body is not JSON, the promise rejects with the parser's
  error, not with the composed message. `ErrorBody.UnparsableBody` models this case.
- `updateSatellite` and `deleteSatellite` never parse a successful body. So they resolve
  to `true` even when that body is not JSON.

## Model

| member | source | states |
|---|---|---|
| `SatelliteApi.NewSatelliteManager` | satellite-api.js:10-14 | the manager keeps the site address it was given and names the list `Satellite_Fixed` |
| `SatelliteApi.CollectionUrl` | satellite-api.js:12-13 | the collection endpoint is the site address followed by `/_api/web/lists/getbytitle('Satellite_Fixed')/items` |
| `SatelliteApi.CollectionUrlDeterminesSite` | satellite-api.js:13 | two managers with the same endpoint were built for the same site |
| `SatelliteApi.OrDefault` | satellite-api.js:52-56 | `value \|\| fallback`: a non-empty value is kept, an empty one replaced |
| `SatelliteApi.BuildPayload` | satellite-api.js:48-57 | the payload has exactly the eight list columns Title, NORAD_ID, COSPAR_ID, Mission_Type, Status, Orbit_Type, Launch_Date, Sensor_Names |
| `SatelliteApi.PayloadColumns` | satellite-api.js:48-56 | title, noradId, cosparId are copied verbatim; empty optional fields become "" (Mission_Type, Orbit_Type, Sensor_Names), "Operational" (Status) or null (Launch_Date); non-empty ones pass unchanged |
| `SatelliteApi.PayloadRoundTrip` | satellite-api.js:48-57 | reading the columns back gives the input record, except that an empty status reads as "Operational" |
| `SatelliteApi.HasRequiredFields` | satellite-api.js:44 | the presence check passes iff none of the columns Title, NORAD_ID, COSPAR_ID would be posted empty |
| `SatelliteApi.HeadersFitVerb` | satellite-api.js:63-210 | the header rules (JSON Accept always; JSON Content-Type except on DELETE; the token on every mutating verb; `If-Match: *` on PATCH and DELETE only) fix the header names of each verb: GET {Accept, Content-Type}, POST adds X-RequestDigest, PATCH adds If-Match too, DELETE {Accept, X-RequestDigest, If-Match} |
| `SatelliteApi.ReadHeaders` | satellite-api.js:106-109 | the headers of a GET fit the GET rules: no token, no If-Match |
| `SatelliteApi.PostHeaders` | satellite-api.js:63-67 | the headers of the POST fit the POST rules and carry the given token |
| `SatelliteApi.PatchHeaders` | satellite-api.js:171-176 | the headers of the PATCH fit the PATCH rules and carry the given token |
| `SatelliteApi.DeleteHeaders` | satellite-api.js:206-210 | the headers of the DELETE fit the DELETE rules (no Content-Type) and carry the given token |
| `SatelliteApi.ErrorMessage` | satellite-api.js:23-45 | the two client-side errors carry the literal messages "Required fields missing: title, noradId, cosparId" and "Request digest not found. Ensure this script runs on a SharePoint page."; a composed or rethrown error carries its own message |
| `SatelliteApi.ServerMessageOr` | satellite-api.js:73 | `error.error?.message \|\| response.statusText`: a non-empty server message wins, otherwise the status text; the result is empty only when both are |
| `SatelliteApi.AddSatellite` | satellite-api.js:41-84 | a request is sent iff title, noradId and cosparId are present and a token exists; a missing field rejects with "Required fields missing: title, noradId, cosparId" before the token is looked up; a missing token rejects with "Request digest not found…"; the request is a POST of the payload to the collection endpoint with the token; success yields the server's record; a failure reads "SharePoint API error: " + server message, else status text; an unparsable success or error body, or a failed `fetch`, rejects with the host's own error |
| `SatelliteApi.EffectiveTop` | satellite-api.js:95 | the page cap is the given `top`, or exactly 100 when none is given; it is never 0 |
| `SatelliteApi.ListUrl` | satellite-api.js:95-100 | the list URL extends the collection endpoint |
| `SatelliteApi.ListUrlRoundTrip` | satellite-api.js:95-100 | the list URL reads back as `$top` = the page cap, plus `$filter` = exactly the filter's bytes when a filter is given and no `$filter` otherwise; the encoded filter cannot end the parameter early |
| `SatelliteApi.GetSatellites` | satellite-api.js:93-124 | a GET without token or If-Match to the list URL; success yields the items; failure reads "Failed to fetch satellites: " + status text; an unparsable body or a failed `fetch` rejects with the host's error |
| `SatelliteApi.ItemUrl` | satellite-api.js:133 | the item URL (the same expression at lines 166 and 201) extends the collection endpoint and reads back as exactly its id |
| `SatelliteApi.GetSatelliteById` | satellite-api.js:131-156 | a GET to the item URL without token or If-Match; failure reads "Failed to fetch satellite: " + status text; an unparsable body or a failed `fetch` rejects with the host's error |
| `SatelliteApi.UpdateSatellite` | satellite-api.js:164-192 | a request is sent iff a token exists; it is a PATCH of the given fields to the item URL with the token and `If-Match: *`; success yields true; failure reads "Failed to update satellite: " + server message, else status text; an unparsable error body or a failed `fetch` rejects with the host's error |
| `SatelliteApi.DeleteSatellite` | satellite-api.js:199-224 | a request is sent iff a token exists; it is a DELETE to the item URL with the token and `If-Match: *` and no Content-Type; success yields true; failure reads "Failed to delete satellite: " + status text; a failed `fetch` rejects with the host's error |
| `SatelliteApi.ItemOperationsShareUrl` | satellite-api.js:133-201 | get, update and delete of one id use the same URL `<endpoint>(<id>)`; distinct ids give distinct URLs |
| `SatelliteApi.SearchByNoradId` | satellite-api.js:231-234 | the search is `getSatellites` with only the NORAD filter and no `top`, so the URL reads back as page cap 100 and filter `NORAD_ID eq '<id>'` |
| `SatelliteApi.SearchByTitle` | satellite-api.js:241-244 | the search is `getSatellites` with only the title filter and no `top`, so the URL reads back as page cap 100 and filter `substringof('<title>', Title)` |
| `SatelliteApi.NoradFilter` | satellite-api.js:232 | the filter's quoted literal is exactly the id iff the id contains no quote: the id is not escaped |
| `SatelliteApi.TitleFilter` | satellite-api.js:242 | the filter's quoted literal is exactly the title iff the title contains no quote |
| `SatelliteApi.UpdateStatusExample` | satellite-api.js:164-178 | changing Status of item 1 sends one PATCH to `<endpoint>(1)` with `If-Match: *` |
| `SatelliteApi.DeleteNotFoundExample` | satellite-api.js:213-215 | a 404 "Not Found" on delete rejects with "Failed to delete satellite: Not Found" |
| `Text.NatToString` | satellite-api.js:96 | a number is rendered as a non-empty run of decimal digits without a leading zero |
| `Text.ParseNatToString` | satellite-api.js:96 | reading the rendered digits back gives the number |
| `Text.IsNumeric` | form-handler.js:202 | `/^\d+$/`: a non-empty digit string; one without a leading zero is exactly the rendering of the number it denotes |
| `Text.RenderParsed` | form-handler.js:202 | rendering the value of a digit string without a leading zero gives the string back |
| `Text.Trim` | form-handler.js:171-178 | `trim()` returns the infix of its input that neither starts nor ends with whitespace, and everything cut off is whitespace |
| `Text.TrimEmptyIff` | form-handler.js:171-178 | trimming leaves "" exactly when the input is all whitespace |
| `Text.TrimIdempotent` | form-handler.js:171-178 | trimming twice is trimming once |
| `UriEncoding.EncodeUriComponent` | satellite-api.js:99 | the encoded filter consists only of unreserved characters and `%`, and is never shorter than the input |
| `UriEncoding.DecodeEncode` | satellite-api.js:99 | percent-decoding the encoded filter yields the UTF-8 bytes of the filter |
| `UriEncoding.EncodeIdentityIff` | satellite-api.js:99 | the encoding changes nothing iff every character is one of `A-Z a-z 0-9 - _ . ! ~ * ' ( )` |
| `UriEncoding.EncodingDeterminesBytes` | satellite-api.js:99 | two filters with the same encoding have the same UTF-8 bytes |
| `FormHandler.Normalize` | form-handler.js:171-178 | an absent or all-whitespace value becomes the field's default; otherwise the value is the trimmed input, which is non-empty |
| `FormHandler.CollectFormData` | form-handler.js:171-178 | each field is its input normalised with default "" (status: "Operational"); every collected field is trimmed, and status is never empty |
| `FormHandler.NormalizeStable` | form-handler.js:171-178 | normalising a normalised value changes nothing |
| `FormHandler.CollectIdempotent` | form-handler.js:171-178 | collecting a form filled with collected values gives the same record |
| `FormHandler.MatchesDatePattern` | form-handler.js:224-225 | `/^\d{4}-\d{2}-\d{2}$/` holds iff the string has ten characters, dashes at indices 4 and 7 and digits everywhere else |
| `FormHandler.IsValidDate` | form-handler.js:223-229 | true only for strings of shape `dddd-dd-dd`; for such strings, exactly when the host's date parser accepts them |
| `FormHandler.MatchesCosparPattern` | form-handler.js:207 | a matching COSPAR id has 8 to 10 characters and starts with four digits, `-` and three digits |
| `FormHandler.CosparPatternByPosition` | form-handler.js:207 | the COSPAR pattern holds iff the string is 8 to 10 characters long: four digits, `-`, three digits, then optionally a digit or capital letter, then (only after a fourth digit) optionally one capital letter |
| `FormHandler.PatternExamples` | form-handler.js:202-209 | "1998-067A" matches the COSPAR pattern; "98-067A" and "1998-06" do not; "25A44" is not numeric |
| `FormHandler.ValidateSatelliteData` | form-handler.js:190-215 | validation passes iff title, noradId and cosparId are present, noradId is all digits, cosparId matches the pattern, and the launch date is empty or valid; an empty title always fails with "Satellite Name is required" |
| `FormHandler.ValidateIsFirstViolation` | form-handler.js:190-215 | the guard chain returns the message of the first violated rule of the ordered table title, NORAD presence, COSPAR presence, NORAD format, COSPAR format, launch date |
| `FormHandler.FirstViolationAt` | form-handler.js:190-215 | over any rule table with distinct messages, rule k's message is reported iff rule k fails and all earlier rules hold |
| `FormHandler.ValidationReportsFirstFailure` | form-handler.js:190-215 | validation fails with rule k's message iff rule k is violated and every earlier rule holds |
| `FormHandler.NonNumericNoradRejected` | form-handler.js:202-204 | a present NORAD id holding a non-digit fails with "NORAD ID must be numeric" once the presence rules hold |
| `FormHandler.EmptyLaunchDateSkipsDateCheck` | form-handler.js:212 | with an empty launch date the outcome does not depend on the date parser |
| `FormHandler.MalformedLaunchDateRejected` | form-handler.js:212-214 | a present launch date not of shape `dddd-dd-dd` is always rejected |
| `FormHandler.ValidatedDataReachesServer` | form-handler.js:82-90 | a record that passes the form's validation passes `addSatellite`'s presence check, so a request is sent when a token exists |
| `FormHandler.SampleRecordValidates` | examples.js:12-19 | the ISS sample record passes validation when its date parses |

## Left out

- Network I/O is not modelled. `fetch`, `async`/`await` and `response.json()` are replaced by the `Response` parameter. Its cases are: a parsed body, an unparsable body, a non-ok status with its error body, or a failed `fetch`.
- The DOM lookup of `__REQUESTDIGEST` (satellite-api.js:20-26) is not modelled. It is an `Option<string>` parameter; `None` gives the "Request digest not found" error.
- The calendar half of `isValidDate` (form-handler.js:227-228) is not modelled. It depends on the JavaScript engine's `Date` parser, so it is the parameter `parsesAsDate`.
- The DOM field discovery in `collectFormData` (form-handler.js:144-168) is not modelled. Its result is the `FormInputs` record of optional raw values.
- UI and host integration are not modelled: `getSubmitButton`, the `DOMContentLoaded` wiring, `showLoadingIndicator`, `showSuccessMessage`, `showErrorMessage`, `showToast`, `showCustomNotification`, `alert`, `closeDialogIfNeeded` and `refreshSharePointList`.
- `handleSatelliteFormSubmit` (form-handler.js:55-127) is not modelled; it only glues the modelled parts together. `ValidatedDataReachesServer` states how its validation and `addSatellite` relate.
- Console logging is not modelled.
- examples.js is usage scripts only. Its first sample record is used in `SampleRecordValidates`.
- Server-side behaviour is not modelled: enforcing the page cap, assigning ids, last-write-wins, not-found.
- The model uses strings only. It does not cover non-string field values (numbers), a negative or fractional `top`, or an item id that is not a natural number. JSON values are limited to strings and null.
- JSON objects are maps, so the member order `JSON.stringify` writes is not modelled.
- An error body that parses to a non-object such as `null` is not modelled. There `error.error` would throw a `TypeError`.
- A list response without a `value` member is not modelled.
- Characters are Unicode scalar values. So the `URIError` that `encodeURIComponent` throws on a lone surrogate cannot arise in the model.
- `ReadQuoted`, the reader used to state the filter properties, ends a quoted literal at its first quote. It ignores OData's doubled-quote escape.
- Text.NatToString: renders every natural number as plain decimal digits. JavaScript writes numbers of 10^21 and above in exponent form (`1e+21`), so the model agrees with the source only for `top` and item ids below 10^21.
- SatelliteApi.NewSatelliteManager: takes the site address as an argument. The default `_spPageContextInfo.webAbsoluteUrl` (satellite-api.js:10) is a lookup in the host page's context and is not modelled.
- UriEncoding.EncodingDeterminesBytes: concludes that the two inputs have equal UTF-8 bytes, not that they are equal strings, because the injectivity of UTF-8 is not proved.
