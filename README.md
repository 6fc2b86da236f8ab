# U.S. weather widget — verified model of its handler logic

The widget (`app.js`) lets a user type a U.S. place, geocodes it, loads the
hourly and daily forecasts for it, and keeps a list of favourite places in
local storage. Almost all of the file is DOM, `fetch` and storage glue. This
project models the logic inside that glue:

- the query guard of the search form: the text is trimmed as
  `String.prototype.trim` does, and a blank query stops before any search
  (`query.dfy`);
- geocoder result selection: the first record with a U.S. address wins. The
  state is `state || region || ''` and the city is
  `city || town || village || hamlet || name`, both with JavaScript
  truthiness. The display name is `"city, state"`, or the bare city when
  there is no state (`geocoder.dfy`);
- the forecast step: each failed reply maps to its error, and the periods
  are cut to the first 24 hourly and the first 10 daily (`forecast.dfy`);
- the saved-locations list as values: save appends unless there is no
  current location or the display name is already listed, and remove
  filters by display name (`saved.dfy`);
- the module-level state (`currentLocation`, `savedLocations`, the stored
  copy) as the class `App.WeatherApp`, whose methods are the submit, save
  and remove handlers (`app.dfy`).

Network replies are parameters. `GeoReply` and `ForecastReply` carry each
response's `ok` flag and the decoded records or periods. Local storage is
the field `stored`.

`app.js` does not deduplicate geocoder results. Its city fallback ends at
the record's `name`, with no county and no first comma segment. It takes
only the first U.S. record.

## Model

| member | source | states |
|---|---|---|
| Query.TrimStart | app.js:20 | the result is a suffix of the input, the cut prefix is all whitespace, and the result does not start with whitespace |
| Query.TrimEnd | app.js:20 | the result is a prefix of the input, the cut suffix is all whitespace, and the result does not end with whitespace |
| Query.Trim | app.js:20 | the result is the input with a blank run cut from each end, and it neither starts nor ends with whitespace |
| Query.TrimEmptyIffBlank | app.js:20-21 | trim gives "" exactly when every character of the input is whitespace |
| Query.SubmittedQuery | app.js:20-23 | a blank input gives no query; any other input gives its trimmed, non-empty text as the query |
| Geocoder.FindUS | app.js:74 | `results.find`: the index of the first record whose address exists with country code "us", with none before it; None exactly when no record qualifies |
| Geocoder.FirstTruthy | app.js:80-81 | a chain of JavaScript "or" operators ending in a fallback: the first present, non-empty candidate, or the fallback when there is none |
| Geocoder.StateOf | app.js:80 | state is preferred over region; the result is "" exactly when both are missing or empty |
| Geocoder.CityOf | app.js:81 | the first non-empty of city, town, village, hamlet, in that order; the record's name only when all four are missing or empty |
| Geocoder.DisplayName | app.js:84 | the city is a prefix; the name equals the bare city exactly when the state is empty, and otherwise ", " + state follows the city |
| Geocoder.LocationOf | app.js:83-87 | the location takes the record's coordinates; its display name is the bare city when the state is "", and city + ", " + state otherwise |
| Geocoder.Geocode | app.js:69-87 | a failed reply gives "Unable to search…"; otherwise it fails with "No matching U.S. location…" exactly when no record is U.S.; and it returns the location of the first U.S. record |
| Geocoder.GeocodeSkipsNonUS | app.js:74 | prepending any records that are not U.S. (foreign or without an address) does not change the result |
| Forecast.Take | app.js:108 | `slice(0, n)`: the longest prefix no longer than n, in order; the whole list when it is shorter |
| Forecast.LoadForecasts | app.js:90-108 | a failed point reply gives one error and a failed hourly or daily reply gives the other; on success the first min(n, 24) hourly and min(n, 10) daily periods are returned, in order |
| SavedList.Save | app.js:27-37 | no current location, or its name already listed: the list is unchanged with the matching status; otherwise the location is appended with earlier entries untouched; afterwards the current name is listed; distinct names stay distinct |
| SavedList.RemoveName | app.js:187 | the survivors are exactly the entries with another display name, and no entry with the name remains |
| SavedList.RemoveAbsent | app.js:187 | removing a name that is not listed leaves the list unchanged |
| SavedList.RemoveAppend | app.js:187 | remove distributes over concatenation, so the survivors keep their relative order |
| SavedList.RemoveKeepsDistinct | app.js:187 | remove preserves pairwise-distinct display names |
| SavedList.SaveThenRemove | app.js:32-37 | saving a location whose name is not listed and then removing that name restores the original list |
| App.LoadSaved | app.js:154-160 | missing or unreadable storage gives the empty list; otherwise the stored list |
| App.Search | app.js:43-59 | the location is adopted exactly when geocoding succeeds, even if the forecast then fails; a forecast is shown exactly when both steps succeed; the status is the thrown error's message or "Showing forecast for …" |
| App.WeatherApp.constructor | app.js:13-14 | page load: no current location, the saved list read from storage |
| App.WeatherApp.Submit | app.js:18-24 | blank input: no search and no state change; otherwise the trimmed text is the query and the search outcome is applied |
| App.WeatherApp.SearchAndRender | app.js:43-59 | the current location becomes the geocoded one when there is one and stays otherwise; the saved list is untouched |
| App.WeatherApp.SaveCurrent | app.js:26-41 | the list and status follow `Save`, and storage is rewritten only when an entry was appended; the current name ends up listed and distinct names stay distinct |
| App.WeatherApp.Remove | app.js:186-190 | the list becomes the filtered one and is persisted; an absent name changes nothing; distinct names stay distinct |

## Left out

- The `fetch` calls, request URLs, `encodeURIComponent`, request headers and `response.json()` are network I/O. Each reply is a parameter holding its `ok` flag and its decoded content.
- Errors the code does not throw itself are not modelled. Any such runtime error reaches the status through the catch at app.js:56-57, with the runtime's own message. Examples:
  - a `fetch` that rejects;
  - a body that is not JSON;
  - a geocoder body that is not an array, where `results.find` fails (app.js:74);
  - a `null` entry in the geocoder array, where `item.address` fails (app.js:74);
  - a point reply without `properties` (app.js:97-98);
  - an hourly or daily body without `properties.periods` (app.js:108).
- The `Promise.all` parallel fetch and the `async`/`await` flow are modelled as one sequential step.
- The intermediate status texts ("Finding location...", "Loading weather forecast...") are overwritten before a handler finishes. Only the last status is modelled.
- Rendering (`renderHourly`, `renderDaily`, `renderSavedLocations`, the forecast title, element lookups) is DOM work. A search's rendered periods are returned as `shown`.
- The saved entry's select button (app.js:181-183) is wired up inside `renderSavedLocations` and is left out with the rest of the rendering. It runs the same search without trimming.
- `formatDateTime` depends on locale-dependent `Date.toLocaleString`.
- JSON serialisation of the stored list is not modelled. Storage holds the list itself, or None when it is missing or unreadable. A stored JSON value that parses to something other than an array is not modelled.
- Geocoder.GeoRecord: `name` is a string that is always present. A record without `name` would yield a city of `undefined`, which is not modelled.
- Latitude and longitude are passed through as the strings the geocoder returns and are never interpreted.
- App.WeatherApp: the list read from storage is not checked for duplicate names. Distinct names are therefore stated as preserved by each handler, not as an object invariant.
