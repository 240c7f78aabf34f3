# Weather lookup: input gate, weather endpoint and history rules

A functional Dafny model of the decision logic in a small weather application.
The application has a React front end and a FastAPI back end. The model covers:

- **Search page (`Home.js`).** The search page screens a typed location before it
  asks the back end for weather. An empty entry is refused. A digit-only entry must
  be a 5-digit US ZIP or a 6-digit Indian PIN. Any other entry must have at least
  two characters. The page also picks a weather icon from a description, and picks
  the message to show when the request fails.
- **Weather endpoint (`main.py`, `GET /api/weather/{location}`).** The endpoint
  strips the location and recognises postal codes, appending `,USA` or `,India`. It
  maps the upstream provider's reply to errors and builds the returned document:
  the current reading, a forecast of at most five days, and a display name. It
  fills in defaults for missing fields.
- **History page (`WeatherHistory.js`).** Removing a deleted record from the list,
  selecting the first location by default, and naming an exported file.
- **Request schemas (`schemas.py`).** The export-format whitelist and the
  latitude and longitude ranges of a location.

Modules, one file each:

- `Results`: `Option` and `Result`.
- `Text`: string primitives shared by both sides. These are ASCII digits, trimming,
  ASCII lower-casing, substring search, Python's `split(",")` fields and integer
  rendering.
- `Home`, `WeatherApi`, `History` and `Schemas`: one per source file.
- `Agreement`: lemmas that relate the two sides, plus `Search`, which composes the
  gate, the endpoint and the error chooser into one search.

The upstream provider's reply is an input value (`WeatherApi.Upstream`). It is
either "no reply" with the text of the network exception, or a status code, the
text of the `HTTPError` that `raise_for_status` would raise, and a JSON payload
whose keys may each be missing.

Where the code and its comments or documentation differ, the model follows the code:

- **City names may contain digits.** `validateLocation`'s comment says city names
  have "no numbers", but the check only demands two characters and not all digits.
  So `"A1"` is sent (`Home.CityNameMayContainDigits`).
- **A trailing line feed passes the postal check.** `is_valid_postal_code` uses
  `re.match` with `$`, and in Python `$` also matches before a final line feed. So
  `"12345\n"` counts as a US ZIP (`WeatherApi.TrailingLineFeedPasses`). A
  normalised location is stripped, so a comma-free one cannot pass the check
  through this quirk (`WeatherApi.TrimmedPostalCodeIsDigits`). Its first comma field, which the
  display name checks, is not stripped, though. So `"12345\n,NY"` passes
  normalisation unchanged and is named `"ZIP 12345\n, NY"`
  (`WeatherApi.LineFeedBeforeCommaKeepsZipName`).
- **The intended error statuses never reach the client.** The endpoint raises
  `HTTPException`s with statuses 400, 401 and 404 inside its `try`. The final
  `except Exception` catches them and re-raises them as 500s (see Findings). The
  browser shows the server's `detail` whenever it is non-empty, and every error of
  this endpoint has one. So the page's own "Location not found" and "Invalid
  location format" texts are never chosen for this endpoint
  (`Agreement.SearchOutcome`).

## Model

| member | source | states |
|---|---|---|
| Text.Trim | frontend/src/pages/Home.js:68 | The trimmed string neither starts nor ends with whitespace and is no longer than the input |
| Text.TrimStartWindow | backend/app/main.py:48 | Dropping leading whitespace keeps a suffix of the input and drops only whitespace |
| Text.TrimEndWindow | backend/app/main.py:48 | Dropping trailing whitespace keeps a prefix of the input and drops only whitespace |
| Text.TrimWindow | backend/app/main.py:48 | The input is whitespace, then the trimmed string, then whitespace |
| Text.TrimIdempotent | frontend/src/pages/Home.js:42 | Trimming an already trimmed string (as `validateLocation` does after `handleSearch`) changes nothing |
| Text.TrimIgnoresPadding | backend/app/main.py:48 | Extra whitespace around a string does not change its trimmed form |
| Text.TrimOfPadded | backend/app/main.py:48 | Whitespace, a trimmed core and whitespace trim to exactly that core: the trim is unique |
| Text.ToLower | frontend/src/pages/Home.js:26 | Lower-casing keeps the length, leaves no capital letter, turns each capital into its small letter and keeps every other character in place |
| Text.ToLowerIdempotent | frontend/src/pages/Home.js:26 | Lower-casing twice is lower-casing once, and a text without capitals is unchanged |
| Text.ToLowerConcat | frontend/src/pages/Home.js:26 | Lower-casing a concatenation lower-cases each part |
| Text.ContainsInContext | frontend/src/pages/Home.js:27-31 | A word found in a text is still found when more text surrounds it |
| Text.Contains | frontend/src/pages/Home.js:27-31 | `includes` is true exactly when some window of the text equals the word |
| Text.NatToString | backend/app/main.py:131-133 | `str(n)` of a non-negative status: decimal digits, with a leading zero only for zero |
| Text.NatToStringRoundTrip | backend/app/main.py:131-133 | Reading the rendered digits back gives the number |
| Text.IntToString | backend/app/main.py:131-133 | `str(n)` of any integer: a minus sign exactly for negative numbers, then digits |
| Text.IntToStringRoundTrip | backend/app/main.py:131-133 | Reading the rendered integer back gives the number |
| Text.JoinThenSplit | backend/app/main.py:93-95 | Splitting `code + "," + rest` on commas gives back `code` as field 0 and the first field of `rest` as field 1 |
| Home.ValidateLocation | frontend/src/pages/Home.js:41-65 | A digit-only input passes exactly at length 5 or 6, and otherwise fails with the postal-code message. Any other input passes exactly at length 2 or more, and otherwise fails with the combined message. The empty-location message never comes from here |
| Home.HandleSearch | frontend/src/pages/Home.js:67-77 | An empty trimmed input, and only that, gets "Please enter a location" without consulting the validator. Otherwise the validator decides, and an accepted input is sent trimmed and non-empty |
| Home.ValidateDependsOnlyOnTrim | frontend/src/pages/Home.js:42 | The validator gives the same verdict on an input and on its trimmed form |
| Home.SearchIgnoresPadding | frontend/src/pages/Home.js:68-73 | Whitespace around the input does not change what the search does |
| Home.SearchAcceptsExactly | frontend/src/pages/Home.js:45-58 | A search is sent exactly when the trimmed input is 5 or 6 digits, or is not all digits and has at least 2 characters |
| Home.ValidateDigits | frontend/src/pages/Home.js:45-49 | A digit-only location passes exactly when it has 5 or 6 digits |
| Home.WrongLengthDigitsGetPostalMessage | frontend/src/pages/Home.js:45-55 | A digit-only input of any other length, a single digit included, gets the postal-code message and never the city message |
| Home.SingleNonDigitGetsCombinedMessage | frontend/src/pages/Home.js:57-64 | A single non-digit character gets the combined city/postal message |
| Home.CityQuerySent | frontend/src/pages/Home.js:57-58 | Any trimmed text of 2 or more characters that is not all digits is sent unchanged |
| Home.CityNameMayContainDigits | frontend/src/pages/Home.js:57-58 | "A1" is sent: digits inside a city name are not refused |
| Home.WeatherIcon | frontend/src/pages/Home.js:25-33 | Sun exactly when the description mentions clear or sunny, ignoring case. Otherwise cloud exactly when it mentions cloud, then rain, then snow. The thunderstorm icon otherwise |
| Home.WeatherIconIgnoresCase | frontend/src/pages/Home.js:26 | Descriptions that are equal up to letter case get the same icon |
| Home.MissingDescriptionIsThunderstorm | frontend/src/pages/Home.js:25-32 | An undefined or empty description gets the thunderstorm fallback |
| Home.SunnyWinsOverEverything | frontend/src/pages/Home.js:27-28 | A description mentioning "clear" or "sunny" gets the sun whatever text comes before or after it |
| Home.FetchErrorMessage | frontend/src/pages/Home.js:95-103 | The message is never empty. A truthy `detail` is shown as is. Otherwise a 404 gets the not-found text, a 400 the invalid-format text, and everything else, including no response, the generic text |
| Home.DetailOverridesStatus | frontend/src/pages/Home.js:97-98 | With a truthy `detail` the status does not influence the message |
| WeatherApi.IsValidPostalCode | backend/app/main.py:32-40 | Valid exactly when the `^\d{5}$` or `^\d{6}$` match succeeds, with `$` also accepting a final line feed. The five-digit match gives "USA", otherwise "India"; an invalid code has country "" |
| WeatherApi.PostalCodeExact | backend/app/main.py:32-40 | Without line feeds: (True, "USA") exactly for 5 digits, (True, "India") exactly for 6 digits, (False, "") otherwise |
| WeatherApi.TrailingLineFeedPasses | backend/app/main.py:35-36 | "12345\n" passes as a US ZIP |
| WeatherApi.TrimmedPostalCodeIsDigits | backend/app/main.py:35-39 | A stripped string that passes the check is exactly 5 or 6 digits |
| WeatherApi.DigitPostalCode | backend/app/main.py:51-54 | On a digit-only string the check depends only on its length |
| WeatherApi.NormaliseLocation | backend/app/main.py:47-59 | The location is stripped. Five digits become `code,USA` and six digits `code,India`. Other digit-only strings raise 400 "Invalid postal code format…". Anything else, the empty string included, is passed on stripped |
| WeatherApi.NormaliseDigits | backend/app/main.py:51-59 | A digit-only location is let through exactly at 5 or 6 digits |
| WeatherApi.ShapeKeepsPresentFields | backend/app/main.py:98-112 | Each field present in an upstream record is copied unchanged, whatever other fields are missing; a complete record shapes to exactly its reading |
| WeatherApi.ShapeDefaults | backend/app/main.py:98-112 | Each missing field gets its default on its own: 0 for numbers, "Unknown" for the description, "" for the time |
| WeatherApi.PySlice | backend/app/main.py:113 | A Python slice has length min(hi, n) − lo (or 0), and element i is element lo + i of the input |
| WeatherApi.Forecast | backend/app/main.py:105-114 | The forecast has max(0, min(n, 6) − 1) entries, at most five. Entry i is day i + 1 shaped with defaults: the first day is dropped and order is kept |
| WeatherApi.ForecastIgnoresLaterDays | backend/app/main.py:113 | Days after the sixth do not affect the forecast |
| WeatherApi.DisplayName | backend/app/main.py:89-95 | A resolved address that differs from the location is the name. When the first comma field is not a postal code, the name is the resolved address or else the location. The rewrite and the IndexError are stated by the two lemmas below |
| WeatherApi.LineFeedBeforeCommaKeepsZipName | backend/app/main.py:91-95 | Five digits, a line feed and a comma pass normalisation unchanged, and the display name is rewritten to `ZIP <digits>\n, <rest>` |
| WeatherApi.PostalCodeDisplayName | backend/app/main.py:91-95 | When the name is the location itself (no resolved address, or one equal to the location) and its first comma field is a postal code, the name is `ZIP <first field>, <second field>`, and later fields are dropped |
| WeatherApi.PostalCodeWithoutCommaRaises | backend/app/main.py:91-95 | A postal code with no comma and no different resolved address makes `split(',')[1]` raise |
| WeatherApi.NormalisedPostalCodeDisplayName | backend/app/main.py:91-95 | A rewritten postal code without a resolved address is named `ZIP <code>, <country>` |
| WeatherApi.NormalisedLocationHasName | backend/app/main.py:89-95 | For every location that normalisation accepts, the `split(',')[1]` of the fallback cannot fail |
| WeatherApi.TryBlock | backend/app/main.py:46-119 | Only these leave the `try` block, and never any other exception: a 400, 401 or 404 `HTTPException`; or an `HTTPError` carrying the upstream status (in 400..599, other than those) and its text; or the network exception's text. A return requires a non-error reply carrying current conditions and days. It contains their shaped forms, the timezone with default "Unknown", and the display name of the normalised location as its name |
| WeatherApi.UpstreamErrorsRaised | backend/app/main.py:66-87 | Upstream 400, 401 and 404 each raise an error with the same status and its fixed message. A reply without current conditions or days raises 404 "Weather data not found for this location" |
| WeatherApi.UpstreamServerErrorKeepsStatus | backend/app/main.py:120-124 | An upstream error status other than 400, 401 and 404 reaches the client unchanged, with detail `Failed to fetch weather data: ` and the error's text |
| WeatherApi.NetworkFailureIs500 | backend/app/main.py:125-129 | An unreachable provider gives status 500, with detail `Network error while fetching weather data: ` and the exception's text |
| WeatherApi.GoodReplySucceeds | backend/app/main.py:97-119 | A location that passes normalisation, with a non-error reply carrying current conditions and days, always gets the weather back |
| WeatherApi.ShortPostalCodeDetail | backend/app/main.py:130-133 | As written, the location "123" is answered with 500 and the detail `An unexpected error occurred: 400: Invalid postal code format…`, whatever the upstream reply |
| WeatherApi.GetWeather | backend/app/main.py:43-133 | The endpoint as written never answers 400, 401 or 404. Every error detail is non-empty and starts with one of the three handler prefixes. A status other than 500 is an upstream 4xx/5xx |
| WeatherApi.InvalidPostalCodeSurfacesAs500 | backend/app/main.py:46-133 | A digit-only location of the wrong length is answered with 500 "An unexpected error occurred: …" whatever the upstream reply |
| WeatherApi.UpstreamClientErrorsSurfaceAs500 | backend/app/main.py:66-133 | Upstream 400, 401 and 404, and a reply without weather data, are answered with 500 "An unexpected error occurred: …" |
| WeatherApi.GetWeatherIntended | backend/app/main.py:120-133 | With `HTTPException` passed through, the postal-code error (400) and every error raised inside the `try` reach the client unchanged. Every detail is non-empty |
| WeatherApi.IntendedKeepsUpstreamStatus | backend/app/main.py:66-79 | With the intended handling, upstream 400, 401 and 404 reach the client with their own status and message |
| WeatherApi.WrittenVersusIntended | backend/app/main.py:120-133 | The written and the corrected endpoint differ only on deliberately raised `HTTPException`s, which the written one re-raises as 500 |
| WeatherApi.SuccessfulResponse | backend/app/main.py:97-119 | A success came from a reply with days and a location that normalisation let through. Its name is that location's display name. Its forecast drops the first day and keeps the next five in order |
| History.InitialState | frontend/src/pages/WeatherHistory.js:36-39 | The page starts with no locations, no records, nothing selected and export format "json" |
| History.DeleteRecord | frontend/src/pages/WeatherHistory.js:96-98 | No remaining record has the deleted id. Every record with another id remains, and nothing new appears |
| History.DeleteDistributes | frontend/src/pages/WeatherHistory.js:96-98 | Deleting from a concatenation deletes from each part, so the kept records stay in their original relative order |
| History.DeleteIsSubsequence | frontend/src/pages/WeatherHistory.js:96-98 | The remaining records are a subsequence of the original list |
| History.DeleteAbsentIsIdentity | frontend/src/pages/WeatherHistory.js:96-98 | Deleting an id no record has leaves the list unchanged |
| History.DeleteIdempotent | frontend/src/pages/WeatherHistory.js:96-98 | Deleting the same id twice equals deleting it once |
| History.DeletesCommute | frontend/src/pages/WeatherHistory.js:96-98 | Deleting two ids in either order gives the same list |
| History.OnRecordDeleted | frontend/src/pages/WeatherHistory.js:91-98 | A successful delete changes the records and nothing else on the page |
| History.OnLocationsLoaded | frontend/src/pages/WeatherHistory.js:55-63 | The loaded list is stored. A non-empty list selects its first location's id, and an empty list leaves the selection untouched |
| History.LoadedSelectionIsListed | frontend/src/pages/WeatherHistory.js:60-63 | After a non-empty load the selection is a listed location, and loading the same list again changes nothing |
| History.ExportFilename | frontend/src/pages/WeatherHistory.js:115 | The filename is `weather_data.` followed by the format |
| History.ExportFilenameInjective | frontend/src/pages/WeatherHistory.js:115 | Different formats give different filenames |
| History.DefaultExportFilename | frontend/src/pages/WeatherHistory.js:39 | With the default format the file is `weather_data.json` |
| Schemas.ExportFormatWhitelist | backend/app/schemas.py:61-62 | A format is accepted exactly when it is json, csv, pdf, xml or markdown |
| Schemas.ExportFormatAnchored | backend/app/schemas.py:62 | "jsonx", "xjson", "" and "JSON" are refused |
| Schemas.CheckLocationBase | backend/app/schemas.py:6-10 | Accepted exactly when −90 ≤ latitude ≤ 90 and −180 ≤ longitude ≤ 180. An accepted location is unchanged. A refusal lists exactly the coordinates that are out of range |
| Schemas.CoordinateBoundsInclusive | backend/app/schemas.py:8-9 | Both ends of both ranges are accepted, and values just outside are refused |
| Schemas.CreateAddsNoConstraint | backend/app/schemas.py:13-14 | `LocationCreate` accepts exactly what `LocationBase` accepts |
| Agreement.PostalCodesAgree | frontend/src/pages/Home.js:45-49 | On digit-only strings the front-end validator, `is_valid_postal_code` and the back end's normalisation accept exactly the same strings: those of length 5 or 6 |
| Agreement.PostalRejectionsAgree | backend/app/main.py:51-59 | A digit-only string of the wrong length is refused by both sides, each with its postal-code message |
| Agreement.SentQueriesPassNormalisation | frontend/src/pages/Home.js:75-86 | Every query the page sends is unchanged by the back end's strip, and is never refused as a malformed postal code |
| Agreement.OfferedFormatsAreAccepted | frontend/src/pages/WeatherHistory.js:220-224 | The export dialog offers exactly the formats the back-end pattern accepts |
| Agreement.EndpointErrorShownVerbatim | frontend/src/pages/Home.js:96-98 | For every error of the weather endpoint the page shows the server's `detail` word for word |
| Agreement.IntendedErrorShownVerbatim | frontend/src/pages/Home.js:96-98 | The same holds for the corrected endpoint |
| Agreement.SearchOutcome | frontend/src/pages/Home.js:67-106 | A search shows the gate's message, or the weather, or the endpoint's `detail`: never the page's own 404 or 400 text |

## Findings

| source | as written | input that shows it | evidently intended | confidence | as-written member | corrected member |
|---|---|---|---|---|---|---|
| backend/app/main.py:130-133 | `except Exception` also catches the `HTTPException`s raised inside the `try` and re-raises them as status 500 | location "123", or an upstream reply with status 404 | The 400, 401 and 404 errors chosen in the `try` reach the client with their own status and detail | high; not executed | WeatherApi.InvalidPostalCodeSurfacesAs500 | WeatherApi.GetWeatherIntended |

`Agreement.Search` composes the endpoint as written, because that is what the page
actually talks to. `Agreement.IntendedErrorShownVerbatim` shows that the page
would still show the server's `detail` with the corrected endpoint.

## Left out

- Rendering, dialogs, routing, theming and the loading flag: `App.js`, `Navbar.js`
  and `About.js` entirely, and the JSX of both pages.
- Network calls (axios, `requests`), the provider URL and API key, CORS, and the
  DOM download of the exported blob. The upstream reply is an input to
  `WeatherApi.GetWeather`, and the back end's error reaches `Agreement.Search` as
  its status and `detail`.
- The URL encoding of the query. `encodeURIComponent` is assumed to deliver the
  trimmed text to the back end unchanged. A `/` in the query, which the routing
  layer would split, is not modelled.
- Racing searches and the order of the history page's fetches. These are
  concurrency, not contract logic.
- `models.py`: column declarations with no behaviour.
- The "No weather data found" branch of `handleSearch` (Home.js:91-94). A success
  of the modelled endpoint always carries `location`.
- Text handling:
  - Unicode digits and case folding. Digits are ASCII `0`–`9` and lower-casing
    covers ASCII letters only.
  - Whitespace is one ASCII set for both JavaScript `trim` and Python `strip`.
    Python's `strip` also removes U+001C to U+001F (and Unicode spaces), which
    are not modelled.
- Value handling:
  - Numbers are opaque reals. No rounding, date formatting or float NaN.
  - A JSON key that is present with value `null` is not distinguished from a
    missing key.
  - Non-object or non-JSON upstream bodies are not modelled.
- Exception text:
  - `str()` of an `HTTPException` is rendered as Starlette's `"<status>:
    <detail>"`. Older Starlette versions render it differently.
  - The text of `requests` exceptions is an opaque input.
- The `detail` is always a string. Pydantic's list-valued validation details are
  not modelled.
- Schemas.ExportFormatWhitelist: Python's `$` would also let `"json\n"` through
  `Field(regex=...)`, and whether `regex=` is honoured at all depends on the
  Pydantic version. Only the intended anchored whitelist is modelled.
- Schemas.CheckLocationBase: the `name` and `country` fields and Pydantic's type
  coercion are not checked. The errors are reduced to which coordinate is out of
  range.
- Home.WeatherIcon: a `null` description, which would make `toLowerCase` throw, is
  not modelled. Only an `undefined` one is, through `Home.WeatherIconOf`.
- Home.ValidateLocation: lengths count characters, but JavaScript's `.length`
  counts UTF-16 code units. A single character outside the Basic Multilingual
  Plane, such as U+1D538, has length 2 in the page and is sent there, but is
  refused here.
- Home.SingleNonDigitGetsCombinedMessage: for the same reason, this holds in the
  page only for a character inside the Basic Multilingual Plane.
- Agreement.SentQueriesPassNormalisation: this holds because both tiers share one
  whitespace set and one digit set here. In the program, Python's `strip`
  removes U+001C to U+001F and `isdigit` accepts non-ASCII digits, while
  JavaScript's `trim` and `/^\d+$/` do not. So the page sends `"\x1c123"` or
  `"١٢٣"` as a city name, and the back end refuses it as a postal code: a 400,
  re-raised as 500.
