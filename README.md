# Weather client: a Dafny model

This project models the core of a small interactive weather client. It reads
lines from a prompt and treats each one in one of five ways:

- a blank line, or one holding only whitespace, is skipped;
- a quit word (`quit`, `exit` or `q`) ends the session;
- `help` shows the help text;
- `units <system>` switches the temperature unit system between metric,
  imperial and kelvin;
- any other text is a city name, and the client asks the OpenWeatherMap
  current-weather endpoint for that city.

Each answer is classified by its HTTP status. The client then turns the
decoded body, or an `{"error": …}` dictionary standing in for it, into a
report or an error line.

The model has seven modules:

- `Text`: the Python string operations the client relies on. These are
  `strip()`, with the full `str.isspace` set; `lower()` and `title()`, on
  ASCII letters; `split(sep, 1)`; `in` between strings; and `str()` of a
  status code.
- `Json`: decoded JSON values, with Python's subscript, `dict.get` and `in`
  semantics. This includes which lookups raise `KeyError` and which raise
  some other exception.
- `Config`: the endpoint, the default unit system and the temperature
  suffix table of `config.py`.
- `Client`: the request URL and the status classification of
  `get_weather_data`. A query-string reader shows what the unescaped URL
  carries.
- `Formatter`: `format_weather_data`, as a function from the body to a
  report, or to "raised" when an exception escapes it.
- `App`: the dispatch of one input line, `get_weather_for_city`, and the
  `WeatherApp` class with its mutable `units` field and `SetUnits` method.
  It also holds the loop of `main`. `Step` and `Session` specify the loop,
  and the imperative `Run` and `Dispatch` methods implement it against
  those functions.

The HTTP call is a parameter. `net` maps each URL to the outcome of the
request: a status with a decoded body, a failure of the HTTP library, or
any other exception. It is one fixed function for a whole session, so two
lookups of the same city in one session get the same answer, where the
client calls `requests.get` afresh each time. The keyboard is a sequence of
events: a line, the end of the input, or an interrupt.

`weather_app.py:37` inserts the city name into the URL verbatim, without
URL escaping. `Client.UnescapedCityAddsParameters` shows the consequence: a
city name holding `&units=…` adds a `units` parameter of its own, so the
request carries two `units` parameters, the injected one first. A '#' in
the city starts the URL's fragment, which is not sent:
`Client.FragmentDropsParameters` shows that the request then carries only
`q`, with no key and no unit system. The query the model reads is what
follows the first '?' up to the first '#', as sections 3.4 and 3.5 of
RFC 3986 define it. `QueryValue` reads that query as line 37 builds it,
before the HTTP library re-quotes it for sending (a space goes out as
`%20`); no percent-encoding or percent-decoding is modelled, so a city
holding `+` or `%XX` may reach the server changed.

## Model

| member | source | states |
|---|---|---|
| Text.Strip | weather_app.py:162 | `strip()`; specified by `StripFacts`, `StripIdempotent` and `StripUnchanged`. |
| Text.StripFacts | weather_app.py:162 | `strip()` keeps a contiguous piece of the line that neither starts nor ends with whitespace. Only whitespace is cut on either side. The result is empty exactly when the line is blank. |
| Text.StripIdempotent | weather_app.py:100-105 | Stripping an already stripped name changes nothing. |
| Text.StripUnchanged | weather_app.py:162 | A text that neither starts nor ends with whitespace is its own stripped form. |
| Text.TrimLeftFacts | weather_app.py:162 | The leading half of `strip()` drops exactly the leading whitespace and leaves a suffix. |
| Text.TrimRightFacts | weather_app.py:162 | The trailing half of `strip()` drops exactly the trailing whitespace and leaves a prefix. |
| Text.Lower | weather_app.py:112 | `lower()` keeps the length and lower-cases each character in place. |
| Text.LowerIdempotent | weather_app.py:112-113 | Lower-casing the stored unit name again changes nothing. |
| Text.Title | weather_app.py:72 | `title()`; specified by `TitleAt`, `TitleAfterAppend` and `TitleIdempotent`. |
| Text.TitleAt | weather_app.py:72 | `title()` upper-cases a letter that opens a word, lower-cases a letter inside a word, and keeps every other character. |
| Text.TitleAfterAppend | weather_app.py:72 | `title()` of a concatenation: the second piece continues from the last character of the first. |
| Text.TitleIdempotent | weather_app.py:72 | Title-casing twice is title-casing once. |
| Text.After | weather_app.py:174 | `split(' ', 1)[1] if len(...) > 1 else ''`: what follows the first space, or nothing; specified by `AfterFirst` and `App.UnitsArgument`. |
| Text.StartsWith | weather_app.py:173 | `.startswith('units ')`; specified through `App.DispatchTable`. |
| Text.AfterFirst | weather_app.py:174 | `split(' ', 1)[1]` is everything after the first space. |
| Text.SplitJoin | weather_app.py:37 | Splitting what was joined from separator-free pieces gives the pieces back. |
| Text.NatToString | weather_app.py:50 | `str(response.status_code)`: the decimal digits of the code; specified by `NatToStringRoundTrip`. |
| Text.NatToStringRoundTrip | weather_app.py:50 | The status code written in decimal reads back as the same number. |
| Json.Subscript | weather_app.py:66-72 | Only a dictionary raises KeyError, exactly when the key is missing, and the error names that key. A found dictionary entry is the stored value. |
| Json.Contains | weather_app.py:61 | `needle in v`: key, element or substring membership, or a TypeError for numbers, booleans and null; specified through `Formatter.ErrorPassthrough` and `Formatter.RaisesOnlyOnNonObjects`. |
| Json.Get | weather_app.py:73 | `v.get(name, default)`: the stored value or the default on a dictionary, an AttributeError on anything else; specified through `Formatter.WindSpeedFallback`. |
| Json.Follow | weather_app.py:66-72 | A chain of subscripts that raises KeyError names one of its own keys. |
| Formatter.RequiredPaths | weather_app.py:66-72 | The seven subscript chains in the order lines 66-72 read them: name, sys.country, main.temp, main.feels_like, main.humidity, main.pressure, weather[0].description; the order decides which missing key is reported, as `FirstMissingKey` and `FollowAllFacts` state. |
| Formatter.FollowAllFacts | weather_app.py:66-72 | The fields are read in order, and reading stops at the first lookup that raises. When none raises, each value is the one its path leads to. |
| Formatter.FormatWeatherData | weather_app.py:57-94 | `format_weather_data`: the `"error"` test, then the field extraction; specified by `ErrorPassthrough`, `RaisesOnlyOnNonObjects`, `FirstMissingKey`, `SuccessfulReport`, `EmptyWeatherList` and `LondonReport`. |
| Formatter.Extract | weather_app.py:64-94 | The `try` block and its two handlers: KeyError becomes "Missing data", any other exception the generic error; specified by `FirstMissingKey`, `SuccessfulReport` and `EmptyWeatherList`. |
| Formatter.WindSpeed | weather_app.py:73 | The wind-speed fallback chain; specified by `WindSpeedFallback`. |
| Formatter.TempUnit | weather_app.py:76 | `TEMPERATURE_UNITS.get(self.units, "°C")`; specified by `TempUnitTable`. |
| Formatter.ErrorPassthrough | weather_app.py:61-62 | A body is answered with an error line carrying `detail` exactly when it is a dictionary whose "error" entry is `detail`. |
| Formatter.RaisesOnlyOnNonObjects | weather_app.py:61-62 | An exception escapes the formatter exactly when the body is not a dictionary and the "error" test raises or succeeds. |
| Formatter.FirstMissingKey | weather_app.py:64-92 | "Missing data: k" is reported exactly when the first required field whose lookup fails fails with a KeyError for `k`, all earlier fields having been found. |
| Formatter.SuccessfulReport | weather_app.py:64-89 | A weather report comes out exactly when all of these hold: no "error" entry; every field found; a string description; the wind lookup does not raise. The report then shows those values, the title-cased description and the unit suffix. |
| Formatter.EmptyWeatherList | weather_app.py:72-94 | An empty `weather` list gives the generic formatting error, not a missing-key error. |
| Formatter.WindSpeedFallback | weather_app.py:73 | Wind speed is `main.wind_speed`, else `wind.speed`, else "N/A". It fails exactly when a `wind` entry exists and is not a dictionary. |
| Formatter.TempUnitTable | weather_app.py:76 | The suffixes are °C, °F and K. Any other unit value falls back to °C. |
| Formatter.LondonReport | weather_app.py:57-89 | A complete London response gives its values, the condition "Light Rain" and °C. |
| Client.GetWeatherData | weather_app.py:43-55 | The status classification of `get_weather_data`, on the outcome of the request; specified by `ClassificationRoundTrip` and the three `Read…Message` lemmas. |
| Client.ClassificationRoundTrip | weather_app.py:43-55 | A 200 response passes its body through unchanged. Every other outcome becomes an `{"error": message}` dictionary, and its category and detail read back from that message. |
| Client.ReadStatusMessage | weather_app.py:49-50 | The "status code" message gives its code back, for every code. |
| Client.ReadNetworkMessage | weather_app.py:52-53 | The network-error message gives the library's message back. |
| Client.ReadUnexpectedMessage | weather_app.py:54-55 | The unexpected-error message gives the exception's message back. |
| Client.RequestUrl | weather_app.py:37 | The f-string URL, with no escaping; specified by `RequestUrlQuery`, `RequestUrlParameters`, `UnescapedCityAddsParameters` and `FragmentDropsParameters`. |
| Client.RequestUrlQuery | weather_app.py:37 | When no piece holds '&' or '#', the query of the URL has exactly the parameters `q`, `appid` and `units`, in that order. |
| Client.RequestUrlParameters | weather_app.py:37 | When no piece holds '&' or '#', the request carries the city as `q`, the key as `appid` and the unit system as `units`. |
| Client.FragmentDropsParameters | weather_app.py:37 | A city holding '#' cuts the query there: the request carries only `q`, with the city's text before the '#', and neither `appid` nor `units`. |
| Client.UnescapedCityAddsParameters | weather_app.py:37 | A city name holding `&units=x` splits into parameters of its own: the request carries `q`, then `units=x`, then `appid`, then the session's `units`. It thus carries two `units` parameters, the injected one first, and a reader taking the first finds `x`. |
| App.ParseCommand | weather_app.py:162-178 | The classification of one input line; specified by `DispatchTable`, `UnitsArgument`, `UnitsCommandParsed`, `ExtraSpaceRejected`, `BareUnitsIsCity` and `LookupNameIsStripped`. |
| App.DispatchTable | weather_app.py:162-178 | A stripped line is one of five things. Blank when the line is whitespace only. Quit or help when its lower-cased form is a quit word or "help". A units command when that form starts with "units ". Otherwise a city; the five cases are exclusive and exhaustive. |
| App.UnitsArgument | weather_app.py:173-175 | A units command passes the stripped line from its seventh character on, untrimmed. |
| App.UnitsCommandParsed | weather_app.py:173-175 | "units " followed by a value not ending in whitespace passes that value as typed. |
| App.ExtraSpaceRejected | weather_app.py:173-175 | A second space after "units" is passed on with the value, so no unit system is recognised. |
| App.BareUnitsIsCity | weather_app.py:162-173 | "units " loses its space to stripping and is looked up as a city named "units". |
| App.LookupNameIsStripped | weather_app.py:162-178 | The city handed to the lookup is the whole stripped line. It is not blank, and stripping it again changes nothing. |
| App.GetWeatherForCity | weather_app.py:96-106 | `get_weather_for_city`: the blank-name guard, the request for the stripped name and the formatting of the answer; specified by `BlankCityGuard` and `LookupRequest`. |
| App.BlankCityGuard | weather_app.py:96-106 | A blank name gets the "valid city name" error and no request. Any other name makes exactly one request, for the stripped name, and shows the formatted answer. |
| App.LookupRequest | weather_app.py:96-106 | When none of them holds '&' or '#', the one request of a lookup carries the stripped name, the key and the session's unit system. |
| App.WeatherApp.constructor | weather_app.py:18-21 | A new session holds the key and the endpoint, starts in metric units, and is valid. |
| App.DisplayName | weather_app.py:114-119 | The `unit_name` table; specified by `DisplayNameDistinct` and used by `SetUnits`. |
| App.DisplayNameDistinct | weather_app.py:114-119 | Each unit system is confirmed by a name of its own: two systems share a display name only when they are the same. |
| App.WeatherApp.SetUnits | weather_app.py:108-121 | A value is accepted exactly when its lower-cased form is a unit system. That form is stored and confirmed by its display name. Otherwise the preference is unchanged and the value is rejected. The invariant is kept. |
| App.StartApp | weather_app.py:154-157 | With no key, or an empty one, no session starts. Otherwise a fresh valid session starts in metric units. |
| App.LookupOutputs | weather_app.py:176-185 | What a lookup shows: the progress line of line 103 when a request is made, then the printed result, or the catch-all error line when the formatter raised; specified by `CityLineOutputs`. |
| App.CityLineOutputs | weather_app.py:176-185 | A city line shows the progress line for the stripped name and then one more line: the catch-all error exactly when the formatter raised, otherwise the formatted report. |
| App.Step | weather_app.py:161-185 | One pass of the loop body on one keyboard event; specified by `StepFacts`, `BlankLineDoesNothing`, `CityLineRequest` and `CityLineOutputs`, and implemented by `Dispatch`. |
| App.Session | weather_app.py:160-185 | The loop of `main` over a sequence of keyboard events; specified by `SessionKeepsUnitsValid`, `SessionStopsAtFirstEnd`, `SessionEndsIff`, `EndOfInputNeverEnds`, `UnitsChangeOnlyByCommand`, `SingleLookup` and `UnitsThenLookup`, and implemented by `Run`. |
| App.StepFacts | weather_app.py:160-185 | One iteration ends the session exactly on an interrupt or a quit word. It keeps the preference a unit system and changes it only on a units command. |
| App.SessionKeepsUnitsValid | weather_app.py:160-185 | After any run of the loop the preference is still a recognised unit system. |
| App.SessionStopsAtFirstEnd | weather_app.py:168-183 | The loop reads events up to and including the first interrupt or quit word, and no further. |
| App.SessionEndsIff | weather_app.py:168-183 | The loop ends exactly when some event is an interrupt or a quit word. |
| App.EndOfInputNeverEnds | weather_app.py:160-185 | At the end of the input, the loop reports an error and prompts again forever, without requests or unit changes. |
| App.UnitsChangeOnlyByCommand | weather_app.py:173-175 | Without a units command, the preference never changes. |
| App.BlankLineDoesNothing | weather_app.py:164-165 | A blank line shows nothing, requests nothing and changes nothing. |
| App.CityLineRequest | weather_app.py:176-178 | A city line makes exactly one request, for the stripped line, in the current unit system. |
| App.SingleLookup | weather_app.py:176-179 | A session of one city line requests that city and keeps running. |
| App.UnitsThenLookup | weather_app.py:173-178 | After a successful units command, the next city is requested in the newly chosen unit system. |
| App.Dispatch | weather_app.py:161-185 | One pass of the loop body shows, requests and updates exactly what `Step` says. |
| App.Run | weather_app.py:160-185 | The loop over a sequence of events produces the outputs, requests, final preference and stopping point that `Session` describes. The app stays valid. |

## Left out

- Rendering: colours, emoji, banner, help text and layout are left out. A
  report carries the values it would show.
- Timestamp: the `datetime.now()` line of the report is left out, because
  it depends on the clock.
- Exception messages: the `str(e)` texts of the formatter's error lines are
  not modelled. `MissingData` carries the missing key, and `FormatFailure`
  stands for the generic line.
- HTTP library: `requests.get` and its 10-second timeout are left out. JSON
  decoding is left out too; a body that fails to decode is one of the two
  exception outcomes of `net`.
- `config.py`: loading the key from the environment and `.env` is not
  modelled. `StartApp` takes the key as an argument.
- `sys.exit(1)`: the constructor requires a key, and `StartApp` models the
  `SystemExit` path by returning no session.
- Text.Lower: `lower()` and `title()` map ASCII letters only. Python's
  Unicode case mapping (for example U+212A KELVIN SIGN, whose lower-cased
  form is "k") is not modelled.
- Text.TitleAt: `title()` upper-cases only ASCII letters and treats every
  other character, including non-ASCII letters, as a word break. So
  `Title("éa")` is `"éA"`, where Python gives `"Éa"`.
- App.Run: keyboard interrupts are modelled only while a line is read, not
  during a request.
- App.Run: the source loops forever after the end of its input.
  `EndOfInputNeverEnds` shows that the loop never stops there, but a run
  of the model stops when its finite event sequence is used up.
- App.DispatchTable: `split(' ', 1)` on the line relies on the lower-cased
  line having its space where the line has one. This holds for the ASCII
  case mapping modelled here.
- Json: JSON numbers are reals. Negative list indices do not arise from
  the paths the formatter reads.
